/** The distress signal of 2022 day 13: packets of nested lists of
    numbers, the stack-based parser that reads them, and the ordering that
    compares them. */
module DistressSignal {
  import opened Prelude
  import Modular

  /** A packet value: one u8 number or a list of values. */
  datatype Signal = Single(value: nat) | Multiple(items: seq<Signal>)

  datatype Ordering = Less | Equal | Greater

  function Flip(o: Ordering): Ordering
  {
    match o
    case Less => Greater
    case Equal => Equal
    case Greater => Less
  }

  // Signal::from_str

  /** What the parser holds between bytes: the enclosing lists being
      built, the list being built, and the number being read. */
  datatype Parser = Parser(stack: seq<seq<Signal>>, multiple: seq<Signal>, single: Option<nat>)

  const Start := Parser([], [], None)

  /** A number in progress is finished and pushed onto the current list. */
  function Flush(p: Parser): (q: Parser)
    ensures q.stack == p.stack && q.single == None
    ensures q.multiple == p.multiple + if p.single.Some? then [Single(p.single.value)] else []
  {
    match p.single
    case None => p
    case Some(x) => Parser(p.stack, p.multiple + [Single(x)], None)
  }

  /** The u8 arithmetic `curr * 10 + c - b'0'` read as intended: the new
      digit appended to the number, None where the value no longer fits
      in a u8 (an overflow panic). */
  function Accumulate(single: Option<nat>, c: char): (r: Option<nat>)
    requires '0' <= c <= '9'
    ensures r.Some? ==> r.value < 256
    ensures single.None? ==> r == Some(c as int - '0' as int)
    ensures single.Some? ==> (r.Some? <==> single.value * 10 + (c as int - '0' as int) < 256)
    ensures single.Some? && r.Some? ==> r.value == single.value * 10 + (c as int - '0' as int)
  {
    var digit := c as int - '0' as int;
    match single
    case None => Some(digit)
    case Some(curr) => if curr * 10 + digit < 256 then Some(curr * 10 + digit) else None
  }

  /** The same u8 expression as written, evaluated left to right: the
      byte c itself is added before b'0' is taken off, so the sum
      overflows once the number passes 207. */
  function AccumulateAsWritten(single: Option<nat>, c: char): (r: Option<nat>)
    requires '0' <= c <= '9'
    ensures single.Some? ==> (r.Some? <==> single.value * 10 + c as int < 256)
  {
    match single
    case None => Some(c as int - '0' as int)
    case Some(curr) => if curr * 10 + c as int < 256 then Some(curr * 10 + c as int - '0' as int) else None
  }

  /** 208 fits in a u8, but reading its last digit overflows as written. */
  lemma AccumulateOverflows()
    ensures AccumulateAsWritten(Some(20), '8') == None
    ensures Accumulate(Some(20), '8') == Some(208)
  {
  }

  /** One byte of the body of from_str: a digit extends the number, ','
      ends it, '[' opens a list, ']' closes the list into the enclosing
      one; an unmatched ']' (the pop's unwrap) and any other byte panic. */
  function Step(p: Parser, c: char): (r: Option<Parser>)
    ensures r.None? <==>
      || ('0' <= c <= '9' && Accumulate(p.single, c).None?)
      || (c == ']' && p.stack == [])
      || !('0' <= c <= '9' || c == ',' || c == '[' || c == ']')
    ensures r.Some? ==>
      |r.value.stack| == |p.stack| + (if c == '[' then 1 else 0) - (if c == ']' then 1 else 0)
  {
    if '0' <= c <= '9' then
      match Accumulate(p.single, c)
      case None => None
      case Some(x) => Some(Parser(p.stack, p.multiple, Some(x)))
    else if c == ',' then Some(Flush(p))
    else if c == '[' then
      var q := Flush(p);
      Some(Parser(q.stack + [q.multiple], [], None))
    else if c == ']' then
      var q := Flush(p);
      if q.stack == [] then None
      else Some(Parser(q.stack[..|q.stack| - 1], q.stack[|q.stack| - 1] + [Multiple(q.multiple)], None))
    else None
  }

  /** How many times the byte c occurs in s. */
  function Occurrences(s: string, c: char): nat
  {
    if s == [] then 0 else (if s[0] == c then 1 else 0) + Occurrences(s[1..], c)
  }

  /** The bytes in turn; None once one of them panics. When it gets
      through, the stack has grown by one per '[' and shrunk by one per ']'. */
  function Run(p: Parser, s: string): (r: Option<Parser>)
    ensures r.Some? ==> |r.value.stack| + Occurrences(s, ']') == |p.stack| + Occurrences(s, '[')
    decreases |s|
  {
    if s == [] then Some(p)
    else match Step(p, s[0])
      case None => None
      case Some(q) => Run(q, s[1..])
  }

  predicate Ascii(s: string)
  {
    forall i :: 0 <= i < |s| ==> s[i] as int < 128
  }

  /** Signal::from_str: the first and last byte are dropped unread (a
      string shorter than two bytes panics there), the rest is read byte by
      byte, and the list being built at the end is the packet. A non-ASCII
      character panics, at the slicing or as an unexpected byte. */
  function Parse(s: string): (r: Option<Signal>)
    ensures r.Some? ==> r.value.Multiple?
    ensures |s| < 2 ==> r.None?
  {
    if |s| < 2 || !Ascii(s) then None
    else match Run(Start, s[1..|s| - 1])
      case None => None
      case Some(p) => Some(Multiple(Flush(p).multiple))
  }

  /** The byte loop of from_str over a stack and an accumulator. */
  method FromStr(s: string) returns (r: Option<Signal>)
    ensures r == Parse(s)
  {
    if |s| < 2 {
      return None;
    }
    for i := 0 to |s|
      invariant Ascii(s[..i])
    {
      if s[i] as int >= 128 {
        return None;
      }
    }
    assert s[..|s|] == s;
    var body := s[1..|s| - 1];
    var stack: seq<seq<Signal>> := [];
    var multiple: seq<Signal> := [];
    var single: Option<nat> := None;
    for i := 0 to |body|
      invariant Run(Start, body) == Run(Parser(stack, multiple, single), body[i..])
    {
      var c := body[i];
      assert body[i..][0] == c && body[i..][1..] == body[i + 1..];
      ghost var before := Parser(stack, multiple, single);
      if '0' <= c <= '9' {
        var next := Accumulate(single, c);
        if next.None? {
          return None;
        }
        single := next;
      } else if c == ',' {
        if single.Some? {
          multiple := multiple + [Single(single.value)];
        }
        single := None;
      } else if c == '[' {
        if single.Some? {
          multiple := multiple + [Single(single.value)];
        }
        single := None;
        stack := stack + [multiple];
        multiple := [];
      } else if c == ']' {
        if single.Some? {
          multiple := multiple + [Single(single.value)];
        }
        single := None;
        var signal := Multiple(multiple);
        if stack == [] {
          return None;
        }
        multiple := stack[|stack| - 1];
        stack := stack[..|stack| - 1];
        multiple := multiple + [signal];
      } else {
        return None;
      }
      assert Step(before, c) == Some(Parser(stack, multiple, single));
    }
    if single.Some? {
      multiple := multiple + [Single(single.value)];
    }
    return Some(Multiple(multiple));
  }

  /** An unclosed '[' is not noticed: the list opened last is returned and
      the lists around it are dropped. */
  lemma UnclosedList()
    ensures Parse("[[1]") == Some(Multiple([Single(1)]))
  {
    var s := "[[1]";
    assert s[1..|s| - 1] == "[1";
    var open := Parser([[]], [], None);
    assert Flush(Start) == Start;
    assert Start.stack + [Start.multiple] == [[]];
    assert Step(Start, '[') == Some(open);
    assert Step(open, '1') == Some(Parser([[]], [], Some(1)));
    assert "[1"[1..] == "1" && "1"[1..] == [];
    assert Run(Start, "[1") == Some(Parser([[]], [], Some(1)));
    assert Ascii(s);
    assert Flush(Parser([[]], [], Some(1))).multiple == [Single(1)];
    assert Parse(s) == Some(Multiple([Single(1)]));
  }

  /** A ']' without its '[' panics at the stack's pop. */
  lemma UnmatchedClose()
    ensures Parse("[1]]") == None
  {
    var s := "[1]]";
    assert s[1..|s| - 1] == "1]";
    assert Step(Start, '1') == Some(Parser([], [], Some(1)));
    assert Step(Parser([], [], Some(1)), ']') == None;
    assert "1]"[1..] == "]";
    assert Run(Start, "1]") == None;
  }

  // Rendering, for the round trip.

  function DigitChar(d: nat): char
    requires d < 10
  {
    ('0' as int + d) as char
  }

  /** A number in decimal, without leading zeros. */
  function NatText(n: nat): (r: string)
    ensures |r| > 0 && forall i :: 0 <= i < |r| ==> '0' <= r[i] <= '9'
  {
    if n < 10 then [DigitChar(n)] else NatText(n / 10) + [DigitChar(n % 10)]
  }

  /** A packet written out the way the puzzle input writes it. */
  function Render(x: Signal): (r: string)
    ensures |r| > 0
    ensures x.Single? ==> forall i :: 0 <= i < |r| ==> '0' <= r[i] <= '9'
    ensures x.Multiple? ==> r[0] == '[' && r[|r| - 1] == ']'
  {
    match x
    case Single(n) => NatText(n)
    case Multiple(items) => "[" + RenderItems(items) + "]"
  }

  function RenderItems(items: seq<Signal>): string
  {
    if items == [] then ""
    else if |items| == 1 then Render(items[0])
    else Render(items[0]) + "," + RenderItems(items[1..])
  }

  /** Every number of the packet fits in a u8. */
  predicate Bounded(x: Signal)
  {
    match x
    case Single(n) => n < 256
    case Multiple(items) => forall i :: 0 <= i < |items| ==> Bounded(items[i])
  }

  /** Running over a + b is running over a, then over b. */
  lemma {:induction false} RunAppend(p: Parser, a: string, b: string)
    ensures Run(p, a + b) == match Run(p, a) case None => None case Some(q) => Run(q, b)
    decreases |a|
  {
    if a == [] {
      assert a + b == b;
    } else {
      assert (a + b)[0] == a[0] && (a + b)[1..] == a[1..] + b;
      match Step(p, a[0])
      case None =>
      case Some(q) => RunAppend(q, a[1..], b);
    }
  }

  /** The digits of a u8 number leave exactly that number in progress. */
  lemma {:induction false} RunNat(p: Parser, n: nat)
    requires p.single == None && n < 256
    ensures Run(p, NatText(n)) == Some(Parser(p.stack, p.multiple, Some(n)))
  {
    if n < 10 {
      assert Step(p, DigitChar(n)) == Some(Parser(p.stack, p.multiple, Some(n)));
    } else {
      RunNat(p, n / 10);
      RunAppend(p, NatText(n / 10), [DigitChar(n % 10)]);
      var q := Parser(p.stack, p.multiple, Some(n / 10));
      assert Step(q, DigitChar(n % 10)) == Some(Parser(p.stack, p.multiple, Some(n)));
    }
  }

  /** The state after reading a packet: a number is still in progress, a
      list has been pushed. */
  function Pending(p: Parser, x: Signal): Parser
  {
    match x
    case Single(n) => Parser(p.stack, p.multiple, Some(n))
    case Multiple(_) => Parser(p.stack, p.multiple + [x], None)
  }

  /** Reading a written packet leaves it pending on the current list. */
  lemma {:induction false} RunSignal(p: Parser, x: Signal)
    requires p.single == None && Bounded(x)
    ensures Run(p, Render(x)) == Some(Pending(p, x))
    decreases x, 1
  {
    match x
    case Single(n) => RunNat(p, n);
    case Multiple(items) =>
      var inner := Parser(p.stack + [p.multiple], [], None);
      assert Step(p, '[') == Some(inner);
      RunItems(inner, items);
      var q := Run(inner, RenderItems(items)).value;
      RunAppend(p, "[" + RenderItems(items), "]");
      RunAppend(p, "[", RenderItems(items));
      assert ("[" + RenderItems(items))[1..] == RenderItems(items);
      var closed := Flush(q);
      assert closed == Parser(p.stack + [p.multiple], items, None);
      assert closed.stack[..|closed.stack| - 1] == p.stack;
      assert closed.stack[|closed.stack| - 1] == p.multiple;
      assert Step(q, ']') == Some(Parser(p.stack, p.multiple + [Multiple(items)], None));
  }

  /** Reading written items, comma separated, puts all of them on the
      current list, the last perhaps still pending. */
  lemma {:induction false} RunItems(p: Parser, items: seq<Signal>)
    requires p.single == None && forall i :: 0 <= i < |items| ==> Bounded(items[i])
    ensures Run(p, RenderItems(items)).Some?
    ensures Flush(Run(p, RenderItems(items)).value) == Parser(p.stack, p.multiple + items, None)
    decreases items, 1
  {
    if items == [] {
      assert p.multiple + items == p.multiple;
    } else if |items| == 1 {
      RunSignal(p, items[0]);
      assert items == [items[0]];
    } else {
      RunItems(Parser(p.stack, p.multiple + [items[0]], None), items[1..]);
      RunItemsCons(p, items);
    }
  }

  /** The step of RunItems past the first item and its comma. */
  lemma RunItemsCons(p: Parser, items: seq<Signal>)
    requires p.single == None && |items| >= 2 && Bounded(items[0])
    requires var q := Parser(p.stack, p.multiple + [items[0]], None);
      && Run(q, RenderItems(items[1..])).Some?
      && Flush(Run(q, RenderItems(items[1..])).value) == Parser(p.stack, q.multiple + items[1..], None)
    ensures Run(p, RenderItems(items)).Some?
    ensures Flush(Run(p, RenderItems(items)).value) == Parser(p.stack, p.multiple + items, None)
    decreases items, 0
  {
    var first, rest := Render(items[0]), RenderItems(items[1..]);
    assert RenderItems(items) == first + "," + rest;
    RunComma(p, items[0]);
    RunAppend(p, first + ",", rest);
    ConsSplit(p.multiple, items);
  }

  /** A written packet followed by its comma ends up on the current list. */
  lemma RunComma(p: Parser, x: Signal)
    requires p.single == None && Bounded(x)
    ensures Run(p, Render(x) + ",") == Some(Parser(p.stack, p.multiple + [x], None))
    decreases x, 2
  {
    RunSignal(p, x);
    var pending := Pending(p, x);
    assert Step(pending, ',') == Some(Parser(p.stack, p.multiple + [x], None));
    assert ","[1..] == [];
    RunAppend(p, Render(x), ",");
  }

  lemma ConsSplit<T>(a: seq<T>, xs: seq<T>)
    requires xs != []
    ensures (a + [xs[0]]) + xs[1..] == a + xs
  {
    assert [xs[0]] + xs[1..] == xs;
  }

  lemma {:induction false} NatTextAscii(n: nat)
    ensures Ascii(NatText(n))
  {
    if n >= 10 {
      NatTextAscii(n / 10);
    }
  }

  /** Written packets are ASCII. */
  lemma {:induction false} RenderAscii(x: Signal)
    ensures Ascii(Render(x))
    decreases x, 1
  {
    match x
    case Single(n) => NatTextAscii(n);
    case Multiple(items) => RenderItemsAscii(items);
  }

  lemma {:induction false} RenderItemsAscii(items: seq<Signal>)
    ensures Ascii(RenderItems(items))
    decreases items, 0
  {
    if |items| >= 1 {
      RenderAscii(items[0]);
      if |items| > 1 {
        RenderItemsAscii(items[1..]);
      }
    }
  }

  /** from_str reads back every list packet written out with u8
      numbers. */
  lemma ParseRender(items: seq<Signal>)
    requires Bounded(Multiple(items))
    ensures Parse(Render(Multiple(items))) == Some(Multiple(items))
  {
    var s := Render(Multiple(items));
    RenderAscii(Multiple(items));
    assert s[1..|s| - 1] == RenderItems(items);
    assert [] + items == items;
    RunItems(Start, items);
  }

  // Ord for Signal

  /** The number of nodes of a packet, which the comparison decreases. */
  function Size(x: Signal): (n: nat)
    ensures n >= 1
  {
    match x
    case Single(_) => 1
    case Multiple(items) => 1 + SizeList(items)
  }

  function SizeList(xs: seq<Signal>): nat
  {
    if xs == [] then 0 else Size(xs[0]) + SizeList(xs[1..])
  }

  lemma SizeSingleton(a: Signal)
    ensures SizeList([a]) == Size(a)
  {
    assert [a][1..] == [];
  }

  function CompareNat(x: nat, y: nat): (o: Ordering)
    ensures o == Less <==> x < y
    ensures o == Equal <==> x == y
  {
    if x < y then Less else if x == y then Equal else Greater
  }

  /** Signal::cmp: two numbers compare as numbers, two lists
      lexicographically, and a number against a list as the one-element
      list holding it. */
  function Compare(a: Signal, b: Signal): Ordering
    decreases Size(a) + Size(b), 1
  {
    match a
    case Single(x) => (
      match b
      case Single(y) => CompareNat(x, y)
      case Multiple(ys) => SizeSingleton(a); CompareList([a], ys))
    case Multiple(xs) => (
      match b
      case Single(_) => SizeSingleton(b); CompareList(xs, [b])
      case Multiple(ys) => CompareList(xs, ys))
  }

  /** Slice comparison: the first element pair that differs decides, and
      otherwise the shorter slice is smaller. */
  function CompareList(xs: seq<Signal>, ys: seq<Signal>): Ordering
    decreases SizeList(xs) + SizeList(ys), 2
  {
    if xs == [] then (if ys == [] then Equal else Less)
    else if ys == [] then Greater
    else match Compare(xs[0], ys[0])
      case Equal => CompareList(xs[1..], ys[1..])
      case Less => Less
      case Greater => Greater
  }

  /** The list a is compared as. */
  function AsList(a: Signal): (xs: seq<Signal>)
    ensures SizeList(xs) <= Size(a) && (a.Multiple? ==> SizeList(xs) < Size(a))
  {
    match a
    case Single(_) => [a]
    case Multiple(items) => items
  }

  /** Every comparison is the comparison of the lists the two sides stand
      for. */
  lemma CompareAsList(a: Signal, b: Signal)
    ensures Compare(a, b) == CompareList(AsList(a), AsList(b))
  {
    if a.Single? && b.Single? {
      assert [a][1..] == [] && [b][1..] == [];
    }
  }

  /** A common prefix of equal elements is skipped. */
  lemma {:induction false} CompareListPrefix(xs: seq<Signal>, ys: seq<Signal>, k: nat)
    requires k <= |xs| && k <= |ys|
    requires forall i :: 0 <= i < k ==> Compare(xs[i], ys[i]) == Equal
    ensures CompareList(xs, ys) == CompareList(xs[k..], ys[k..])
    decreases k
  {
    if k > 0 {
      assert Compare(xs[0], ys[0]) == Equal;
      forall i | 0 <= i < k - 1
        ensures Compare(xs[1..][i], ys[1..][i]) == Equal
      {
        assert xs[1..][i] == xs[i + 1] && ys[1..][i] == ys[i + 1];
      }
      CompareListPrefix(xs[1..], ys[1..], k - 1);
      assert xs[1..][k - 1..] == xs[k..] && ys[1..][k - 1..] == ys[k..];
    }
  }

  /** The first element pair that differs decides the comparison. */
  lemma CompareListFirstDifference(xs: seq<Signal>, ys: seq<Signal>, k: nat)
    requires k < |xs| && k < |ys|
    requires forall i :: 0 <= i < k ==> Compare(xs[i], ys[i]) == Equal
    requires Compare(xs[k], ys[k]) != Equal
    ensures CompareList(xs, ys) == Compare(xs[k], ys[k])
  {
    CompareListPrefix(xs, ys, k);
    assert xs[k..][0] == xs[k] && ys[k..][0] == ys[k];
  }

  /** A proper prefix, element by element equal, is smaller. */
  lemma CompareListShorter(xs: seq<Signal>, ys: seq<Signal>)
    requires |xs| < |ys|
    requires forall i :: 0 <= i < |xs| ==> Compare(xs[i], ys[i]) == Equal
    ensures CompareList(xs, ys) == Less
  {
    CompareListPrefix(xs, ys, |xs|);
    assert xs[|xs|..] == [];
  }

  /** Two slices are Equal exactly when they have the same length and
      their elements are pairwise Equal. */
  lemma CompareListEqual(xs: seq<Signal>, ys: seq<Signal>)
    ensures CompareList(xs, ys) == Equal <==>
      |xs| == |ys| && forall i :: 0 <= i < |xs| ==> Compare(xs[i], ys[i]) == Equal
  {
    var k := 0;
    while k < |xs| && k < |ys| && Compare(xs[k], ys[k]) == Equal
      invariant k <= |xs| && k <= |ys|
      invariant forall i :: 0 <= i < k ==> Compare(xs[i], ys[i]) == Equal
    {
      k := k + 1;
    }
    CompareListPrefix(xs, ys, k);
    if k < |xs| && k < |ys| {
      assert xs[k..][0] == xs[k] && ys[k..][0] == ys[k];
    } else if k == |xs| && k == |ys| {
      assert xs[k..] == [] && ys[k..] == [];
    } else if k == |xs| {
      assert xs[k..] == [] && ys[k..] != [];
    } else {
      assert xs[k..] != [] && ys[k..] == [];
    }
  }

  /** Every packet equals itself. */
  lemma {:induction false} CompareRefl(a: Signal)
    ensures Compare(a, a) == Equal
    decreases a, 1
  {
    if a.Multiple? {
      CompareReflList(a.items);
    }
  }

  lemma {:induction false} CompareReflList(xs: seq<Signal>)
    ensures CompareList(xs, xs) == Equal
    decreases xs, 0
  {
    if xs != [] {
      CompareRefl(xs[0]);
      CompareReflList(xs[1..]);
    }
  }

  /** Swapping the sides flips the result. */
  lemma {:induction false} CompareFlip(a: Signal, b: Signal)
    ensures Compare(b, a) == Flip(Compare(a, b))
    decreases Size(a) + Size(b), 1
  {
    CompareAsList(a, b);
    CompareAsList(b, a);
    if !(a.Single? && b.Single?) {
      CompareFlipList(AsList(a), AsList(b));
    }
  }

  lemma {:induction false} CompareFlipList(xs: seq<Signal>, ys: seq<Signal>)
    ensures CompareList(ys, xs) == Flip(CompareList(xs, ys))
    decreases SizeList(xs) + SizeList(ys), 2
  {
    if xs != [] && ys != [] {
      CompareFlip(xs[0], ys[0]);
      CompareFlipList(xs[1..], ys[1..]);
    }
  }

  /** "Not greater" is transitive, and the result is Equal only when both
      steps are. */
  lemma {:induction false} CompareTrans(a: Signal, b: Signal, c: Signal)
    requires Compare(a, b) != Greater && Compare(b, c) != Greater
    ensures Compare(a, c) != Greater
    ensures Compare(a, c) == Equal ==> Compare(a, b) == Equal && Compare(b, c) == Equal
    decreases Size(a) + Size(b) + Size(c), 1
  {
    if !(a.Single? && b.Single? && c.Single?) {
      CompareAsList(a, b);
      CompareAsList(b, c);
      CompareAsList(a, c);
      CompareTransList(AsList(a), AsList(b), AsList(c));
    }
  }

  lemma {:induction false} CompareTransList(xs: seq<Signal>, ys: seq<Signal>, zs: seq<Signal>)
    requires CompareList(xs, ys) != Greater && CompareList(ys, zs) != Greater
    ensures CompareList(xs, zs) != Greater
    ensures CompareList(xs, zs) == Equal ==> CompareList(xs, ys) == Equal && CompareList(ys, zs) == Equal
    decreases SizeList(xs) + SizeList(ys) + SizeList(zs), 2
  {
    if xs != [] && zs != [] {
      CompareTrans(xs[0], ys[0], zs[0]);
      if Compare(xs[0], zs[0]) == Equal {
        CompareTransList(xs[1..], ys[1..], zs[1..]);
      }
    }
  }

  /** PartialEq for Signal is cmp == Equal, which is not structural
      equality: a number equals the list holding just it. */
  lemma EqualIsNotIdentity()
    ensures Compare(Single(2), Multiple([Single(2)])) == Equal
    ensures Compare(Multiple([Single(2)]), Multiple([Multiple([Single(2)])])) == Equal
  {
  }

  // part_one and part_two

  /** The pair in each blank-line separated group: its first two lines
      parsed; fewer than two lines, or a line that does not parse, panics. */
  function ParsePairs(groups: seq<seq<string>>): (r: Option<seq<(Signal, Signal)>>)
    ensures r.Some? ==> |r.value| == |groups|
  {
    if groups == [] then Some([])
    else
      var n := |groups| - 1;
      match ParsePairs(groups[..n])
      case None => None
      case Some(front) =>
        if |groups[n]| < 2 then None
        else match (Parse(groups[n][0]), Parse(groups[n][1]))
          case (Some(first), Some(second)) => Some(front + [(first, second)])
          case _ => None
  }

  /** The 1-based indices of the pairs in the right order, summed. */
  function InOrderSum(pairs: seq<(Signal, Signal)>): nat
  {
    if pairs == [] then 0
    else
      var n := |pairs| - 1;
      InOrderSum(pairs[..n]) + if Compare(pairs[n].0, pairs[n].1) != Greater then n + 1 else 0
  }

  function Triangle(n: nat): nat
  {
    n * (n + 1) / 2
  }

  /** The sum is at most 1 + 2 + ... + n, and reaches it exactly when
      every pair is in the right order. */
  lemma {:induction false} InOrderSumBound(pairs: seq<(Signal, Signal)>)
    ensures InOrderSum(pairs) <= Triangle(|pairs|)
    ensures InOrderSum(pairs) == Triangle(|pairs|) <==>
      forall i :: 0 <= i < |pairs| ==> Compare(pairs[i].0, pairs[i].1) != Greater
  {
    if pairs != [] {
      var n := |pairs| - 1;
      InOrderSumBound(pairs[..n]);
      assert Triangle(n + 1) == Triangle(n) + n + 1;
      if InOrderSum(pairs) == Triangle(|pairs|) {
        forall i | 0 <= i < |pairs|
          ensures Compare(pairs[i].0, pairs[i].1) != Greater
        {
          if i < n {
            assert pairs[..n][i] == pairs[i];
          }
        }
      }
      if forall i :: 0 <= i < |pairs| ==> Compare(pairs[i].0, pairs[i].1) != Greater {
        forall i | 0 <= i < n
          ensures Compare(pairs[..n][i].0, pairs[..n][i].1) != Greater
        {
          assert pairs[..n][i] == pairs[i];
        }
      }
    }
  }

  /** part_one, on the lines of each group. */
  function PartOne(groups: seq<seq<string>>): (r: Option<nat>)
    ensures r.Some? <==> ParsePairs(groups).Some?
    ensures r.Some? ==> var pairs := ParsePairs(groups).value;
      && r.value <= Triangle(|groups|)
      && (r.value == Triangle(|groups|) <==>
          forall i :: 0 <= i < |pairs| ==> Compare(pairs[i].0, pairs[i].1) != Greater)
  {
    match ParsePairs(groups)
    case None => None
    case Some(pairs) => InOrderSumBound(pairs); Some(InOrderSum(pairs))
  }

  /** The packets of the non-empty lines, or None when one panics. */
  function ParseAll(lines: seq<string>): (r: Option<seq<Signal>>)
    ensures r.Some? ==> forall i :: 0 <= i < |r.value| ==> r.value[i].Multiple?
  {
    if lines == [] then Some([])
    else
      var n := |lines| - 1;
      match ParseAll(lines[..n])
      case None => None
      case Some(front) =>
        if lines[n] == [] then Some(front)
        else match Parse(lines[n])
          case None => None
          case Some(x) => Some(front + [x])
  }

  /** How many of the packets are not greater than d. */
  function CountUpTo(s: seq<Signal>, d: Signal): (r: nat)
    ensures r <= |s|
  {
    if s == [] then 0
    else CountUpTo(s[..|s| - 1], d) + if Compare(s[|s| - 1], d) != Greater then 1 else 0
  }

  const Two := Single(2)
  const Six := Single(6)

  /** part_two: the product of the 1-based positions the two dividers
      take once sorted with the packets. */
  function PartTwo(lines: seq<string>): (r: Option<nat>)
    ensures r.Some? <==> ParseAll(lines).Some?
    ensures r.Some? ==> var n := |ParseAll(lines).value|;
      2 <= r.value <= (n + 2) * (n + 2)
  {
    match ParseAll(lines)
    case None => None
    case Some(packets) =>
      var a, b := 1 + CountUpTo(packets, Two), 2 + CountUpTo(packets, Six);
      assert 2 <= a * b by { assert 1 * 2 <= a * b; }
      assert a * b <= (|packets| + 2) * (|packets| + 2) by {
        Modular.MulMono(a, b, |packets| + 2);
      }
      Some(a * b)
  }

  lemma {:induction false} CountAppend(s: seq<Signal>, t: seq<Signal>, d: Signal)
    ensures CountUpTo(s + t, d) == CountUpTo(s, d) + CountUpTo(t, d)
    decreases |t|
  {
    if t == [] {
      assert s + t == s;
    } else {
      var n := |t| - 1;
      CountAppend(s, t[..n], d);
      assert (s + t)[..|s + t| - 1] == s + t[..n];
    }
  }

  /** Taking one packet out takes its share out of the count. */
  lemma CountRemove(t: seq<Signal>, k: nat, d: Signal)
    requires k < |t|
    ensures CountUpTo(t, d) == CountUpTo(t[..k] + t[k + 1..], d) + if Compare(t[k], d) != Greater then 1 else 0
  {
    assert t == (t[..k] + [t[k]]) + t[k + 1..];
    CountAppend(t[..k] + [t[k]], t[k + 1..], d);
    CountAppend(t[..k], [t[k]], d);
    CountAppend(t[..k], t[k + 1..], d);
    assert [t[k]][..0] == [];
  }

  lemma MultisetRemove(t: seq<Signal>, k: nat)
    requires k < |t|
    ensures multiset(t[..k] + t[k + 1..]) == multiset(t) - multiset{t[k]}
  {
    assert t == t[..k] + [t[k]] + t[k + 1..];
  }

  /** The count depends only on which packets there are. */
  lemma {:induction false} CountPermutation(s: seq<Signal>, t: seq<Signal>, d: Signal)
    requires multiset(s) == multiset(t)
    ensures CountUpTo(s, d) == CountUpTo(t, d)
    decreases |s|
  {
    if s != [] {
      var n := |s| - 1;
      assert s[n] in multiset(t);
      var k :| 0 <= k < |t| && t[k] == s[n];
      MultisetRemove(s, n);
      MultisetRemove(t, k);
      assert s[..n] + s[n + 1..] == s[..n];
      CountPermutation(s[..n], t[..k] + t[k + 1..], d);
      CountRemove(t, k, d);
    }
  }

  /** Sorted by Signal::cmp. */
  ghost predicate SortedBy(s: seq<Signal>)
  {
    forall i, j :: 0 <= i < j < |s| ==> Compare(s[i], s[j]) != Greater
  }

  /** In a sorted list a packet that every later packet exceeds sits
      after exactly the packets not greater than it. */
  lemma {:induction false} CountPrefix(s: seq<Signal>, k: nat, m: nat)
    requires SortedBy(s) && k < |s|
    requires forall j :: k < j < |s| ==> Compare(s[k], s[j]) == Less
    requires m <= |s|
    ensures CountUpTo(s[..m], s[k]) == if m <= k then m else k + 1
  {
    if m > 0 {
      CountPrefix(s, k, m - 1);
      assert s[..m][..m - 1] == s[..m - 1];
      var x := s[m - 1];
      if m - 1 < k {
      } else if m - 1 == k {
        CompareRefl(x);
      } else {
        CompareFlip(s[k], x);
      }
    }
  }

  /** With the dividers pushed, 2 counts itself and 6 counts both. */
  lemma CountWithDividers(packets: seq<Signal>)
    ensures CountUpTo(packets + [Two, Six], Two) == CountUpTo(packets, Two) + 1
    ensures CountUpTo(packets + [Two, Six], Six) == CountUpTo(packets, Six) + 2
  {
    CountAppend(packets, [Two, Six], Two);
    CountAppend(packets, [Two, Six], Six);
    assert [Two, Six][..1] == [Two] && [Two][..0] == [];
    assert Compare(Two, Two) == Equal && Compare(Six, Two) == Greater;
    assert Compare(Two, Six) == Less && Compare(Six, Six) == Equal;
    assert CountUpTo([Two], Two) == 1 && CountUpTo([Two], Six) == 1;
  }

  /** data.sort() is stable and the dividers are pushed after the packets,
      so in the sorted list each divider comes after every packet equal to
      it: every later packet is greater. On any such arrangement the
      positions of the dividers are the ones PartTwo counts. */
  lemma DividerPositions(packets: seq<Signal>, sorted: seq<Signal>, i2: nat, i6: nat)
    requires multiset(sorted) == multiset(packets + [Two, Six]) && SortedBy(sorted)
    requires i2 < |sorted| && sorted[i2] == Two && forall j :: i2 < j < |sorted| ==> Compare(Two, sorted[j]) == Less
    requires i6 < |sorted| && sorted[i6] == Six && forall j :: i6 < j < |sorted| ==> Compare(Six, sorted[j]) == Less
    ensures i2 + 1 == 1 + CountUpTo(packets, Two)
    ensures i6 + 1 == 2 + CountUpTo(packets, Six)
  {
    assert sorted[..|sorted|] == sorted;
    CountPrefix(sorted, i2, |sorted|);
    CountPrefix(sorted, i6, |sorted|);
    CountPermutation(sorted, packets + [Two, Six], Two);
    CountPermutation(sorted, packets + [Two, Six], Six);
    CountWithDividers(packets);
  }

  /** The matches! filter finds no packet: every parsed packet is a list. */
  lemma DividersAreTheOnlyNumbers(lines: seq<string>)
    requires ParseAll(lines).Some?
    ensures Two !in ParseAll(lines).value && Six !in ParseAll(lines).value
  {
  }
}
