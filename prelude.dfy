/** Small definitions shared by the puzzle modules: an optional value,
    absolute value, sign, powers and sums. */
module Prelude {

  datatype Option<T> = None | Some(value: T) {
    predicate IsFailure() { None? }
    function PropagateFailure<U>(): Option<U> requires None? { None }
    function Extract(): T requires Some? { value }
  }

  function Abs(x: int): (r: nat)
    ensures r == x || r == -x
  {
    if x < 0 then -x else x
  }

  /** -1, 0 or 1 according to the sign of x. */
  function Sign(x: int): (r: int)
    ensures -1 <= r <= 1
    ensures r * Abs(x) == x
  {
    if x < 0 then -1 else if x > 0 then 1 else 0
  }

  function Max(a: int, b: int): (r: int)
    ensures r >= a && r >= b && (r == a || r == b)
  {
    if a >= b then a else b
  }

  function Min(a: int, b: int): (r: int)
    ensures r <= a && r <= b && (r == a || r == b)
  {
    if a <= b then a else b
  }

  function Pow(base: int, exp: nat): int
  {
    if exp == 0 then 1 else base * Pow(base, exp - 1)
  }

  lemma {:induction false} PowPositive(base: int, exp: nat)
    requires base > 0
    ensures Pow(base, exp) > 0
  {
    if exp > 0 {
      PowPositive(base, exp - 1);
    }
  }

  lemma {:induction false} PowAdd(base: int, m: nat, n: nat)
    ensures Pow(base, m + n) == Pow(base, m) * Pow(base, n)
  {
    if m > 0 {
      PowAdd(base, m - 1, n);
      assert Pow(base, m + n) == base * Pow(base, m - 1 + n);
    }
  }

  function Sum(s: seq<int>): int
  {
    if s == [] then 0 else Sum(s[..|s| - 1]) + s[|s| - 1]
  }

  lemma SumAppend(s: seq<int>, x: int)
    ensures Sum(s + [x]) == Sum(s) + x
  {
    assert (s + [x])[..|s|] == s;
  }

  /** Bitwise exclusive or of two non-negative integers, one bit at a time. */
  function Xor(x: nat, y: nat): (r: nat)
    ensures r % 2 == (x + y) % 2
    decreases x + y
  {
    if x == 0 then y
    else if y == 0 then x
    else
      var high := Xor(x / 2, y / 2);
      XorParity(x, y, high);
      2 * high + (x % 2 + y % 2) % 2
  }

  /** The low bit that Xor puts under the higher bits is the parity of the sum. */
  lemma XorParity(x: nat, y: nat, high: nat)
    ensures (2 * high + (x % 2 + y % 2) % 2) % 2 == (x + y) % 2
  {
    var low := (x % 2 + y % 2) % 2;
    assert (x + y) % 2 == low;
    assert (2 * high + low) % 2 == low;
  }

  /** Exclusive or never sets a bit above the widest operand. */
  lemma {:induction false} XorBelow(x: nat, y: nat, n: nat)
    requires x < Pow(2, n) && y < Pow(2, n)
    ensures Xor(x, y) < Pow(2, n)
  {
    if x != 0 && y != 0 {
      assert n > 0;
      XorBelow(x / 2, y / 2, n - 1);
    }
  }

  /** A set of integers inside lo..hi-1 has at most hi - lo elements. */
  lemma {:induction false} CardinalityBound(s: set<int>, lo: int, hi: int)
    requires forall x :: x in s ==> lo <= x < hi
    ensures |s| <= if hi <= lo then 0 else hi - lo
    decreases hi - lo
  {
    if hi <= lo {
      assert s == {};
    } else {
      CardinalityBound(s - {hi - 1}, lo, hi - 1);
    }
  }

  predicate IsDigit(c: char)
  {
    '0' <= c <= '9'
  }

  predicate AllDigits(s: string)
  {
    forall i :: 0 <= i < |s| ==> IsDigit(s[i])
  }

  /** The decimal value of a string of digits, most significant first. */
  function DigitsValue(s: string): (r: nat)
    requires AllDigits(s)
  {
    if s == [] then 0 else 10 * DigitsValue(s[..|s| - 1]) + (s[|s| - 1] as int - '0' as int)
  }

  /** Rust's str::parse for an unsigned number: one or more digits, nothing else. */
  function ParseNat(s: string): (r: Option<nat>)
    ensures r.Some? <==> s != [] && AllDigits(s)
    ensures r.Some? ==> r.value == DigitsValue(s)
  {
    if s != [] && AllDigits(s) then Some(DigitsValue(s)) else None
  }

  /** Rust's str::parse for a signed number without a width limit: an
      optional '+' or '-' and then one or more digits. */
  function ParseInt(s: string): (r: Option<int>)
    ensures var d := if s != [] && (s[0] == '-' || s[0] == '+') then s[1..] else s;
      && (r.Some? <==> d != [] && AllDigits(d))
      && (r.Some? ==> r.value == if s[0] == '-' then 0 - DigitsValue(d) else DigitsValue(d))
  {
    var d := if s != [] && (s[0] == '-' || s[0] == '+') then s[1..] else s;
    if d != [] && AllDigits(d) then
      var magnitude: int := DigitsValue(d);
      Some(if s[0] == '-' then -magnitude else magnitude)
    else None
  }

  /** The index of the first occurrence of c in s, or |s| when there is none. */
  function IndexOf(s: string, c: char): (r: nat)
    ensures r <= |s|
    ensures r < |s| ==> s[r] == c
    ensures forall i :: 0 <= i < r ==> s[i] != c
  {
    if s == [] then 0 else if s[0] == c then 0 else 1 + IndexOf(s[1..], c)
  }

  /** str::split on a single character: the pieces between separators,
      empty ones included, so there is always at least one piece. */
  function Split(s: string, sep: char): (r: seq<string>)
    ensures |r| > 0
    ensures forall i :: 0 <= i < |r| ==> sep !in r[i]
    decreases |s|
  {
    var k := IndexOf(s, sep);
    if k == |s| then [s] else [s[..k]] + Split(s[k + 1..], sep)
  }

  /** A line without the '\r' of a "\r\n" line end. */
  function StripCr(line: string): (r: string)
    ensures r == line || (line == r + ['\r'])
  {
    if line != [] && line[|line| - 1] == '\r' then line[..|line| - 1] else line
  }

  /** str::lines: the pieces ended by '\n' or by "\r\n", which is dropped
      whole, and then the rest when it is not empty. A lone '\r' that no
      '\n' follows stays in the line. */
  function Lines(s: string): (r: seq<string>)
    ensures forall i :: 0 <= i < |r| ==> '\n' !in r[i]
    ensures s == [] ==> r == []
    decreases |s|
  {
    if s == [] then []
    else
      var k := IndexOf(s, '\n');
      if k == |s| then [s] else [StripCr(s[..k])] + Lines(s[k + 1..])
  }

  /** How str::lines ends a line: "\r\n" and '\n' both end it, the '\r'
      is dropped only when '\n' follows it, and a last line needs no end. */
  lemma LinesEnds(line: string, rest: string)
    requires '\n' !in line
    ensures Lines(line + ['\r', '\n'] + rest) == [line] + Lines(rest)
    ensures (line == [] || line[|line| - 1] != '\r') ==> Lines(line + ['\n'] + rest) == [line] + Lines(rest)
    ensures line != [] ==> Lines(line) == [line]
  {
    var crlf := line + ['\r', '\n'] + rest;
    IndexOfFirst(crlf, '\n', |line| + 1);
    assert crlf[..|line| + 1] == line + ['\r'] && crlf[|line| + 2..] == rest;
    var lf := line + ['\n'] + rest;
    IndexOfFirst(lf, '\n', |line|);
    assert lf[..|line|] == line && lf[|line| + 1..] == rest;
    if line != [] {
      IndexOfAbsent(line, '\n');
    }
  }

  /** IndexOf finds the first occurrence. */
  lemma IndexOfFirst(s: string, c: char, k: nat)
    requires k < |s| && s[k] == c && forall i :: 0 <= i < k ==> s[i] != c
    ensures IndexOf(s, c) == k
  {
  }

  /** IndexOf of a character that does not occur is the length. */
  lemma IndexOfAbsent(s: string, c: char)
    requires c !in s
    ensures IndexOf(s, c) == |s|
  {
  }

  /** A line ended by "\r\n" reads as the line itself. */
  lemma LinesCrlfExample()
    ensures Lines("32T3K 765\r\n") == ["32T3K 765"]
  {
    LinesEnds("32T3K 765", "");
    assert "32T3K 765\r\n" == "32T3K 765" + ['\r', '\n'] + "";
  }

  /** A '\r' that no '\n' follows stays in the line. */
  lemma LinesLoneCrExample()
    ensures Lines("a\rb") == ["a\rb"]
  {
    LinesEnds("a\rb", "");
  }

  /** The pieces joined back with the separator. */
  function Join(pieces: seq<string>, sep: char): string
    requires |pieces| > 0
  {
    if |pieces| == 1 then pieces[0] else pieces[0] + [sep] + Join(pieces[1..], sep)
  }

  /** Splitting loses nothing: joining the pieces gives the string back. */
  lemma {:induction false} SplitJoin(s: string, sep: char)
    ensures Join(Split(s, sep), sep) == s
    decreases |s|
  {
    var k := IndexOf(s, sep);
    var pieces := Split(s, sep);
    if k < |s| {
      var rest := Split(s[k + 1..], sep);
      assert pieces == [s[..k]] + rest;
      assert pieces[0] == s[..k] && pieces[1..] == rest;
      SplitJoin(s[k + 1..], sep);
      assert Join(pieces, sep) == s[..k] + [sep] + s[k + 1..];
      assert s == s[..k] + [sep] + s[k + 1..];
    } else {
      assert pieces == [s];
    }
  }

  /** Rust's str::parse for an unsigned type whose values lie below limit:
      an optional '+' and then one or more digits. */
  function ParseUnsigned(s: string, limit: nat): (r: Option<nat>)
    ensures var d := if s != [] && s[0] == '+' then s[1..] else s;
      && (r.Some? <==> d != [] && AllDigits(d) && DigitsValue(d) < limit)
      && (r.Some? ==> r.value == DigitsValue(d))
  {
    var d := if s != [] && s[0] == '+' then s[1..] else s;
    if d != [] && AllDigits(d) && DigitsValue(d) < limit then Some(DigitsValue(d)) else None
  }

  /** The ASCII whitespace characters. */
  predicate IsSpace(c: char)
  {
    c == ' ' || c == '\t' || c == '\n' || c == '\r'
  }

  /** The index of the first character that is not whitespace. */
  function SpaceBefore(s: string): (i: nat)
    ensures i <= |s| && (i < |s| ==> !IsSpace(s[i]))
    ensures forall k :: 0 <= k < i ==> IsSpace(s[k])
  {
    if s == [] || !IsSpace(s[0]) then 0 else 1 + SpaceBefore(s[1..])
  }

  /** The index after the last character from i on that is not whitespace. */
  function SpaceAfter(s: string, i: nat): (j: nat)
    requires i <= |s|
    ensures i <= j <= |s| && (j > i ==> !IsSpace(s[j - 1]))
    ensures forall k :: j <= k < |s| ==> IsSpace(s[k])
    decreases |s|
  {
    if |s| == i || !IsSpace(s[|s| - 1]) then |s| else SpaceAfter(s[..|s| - 1], i)
  }

  /** str::trim on ASCII whitespace: the slice left after dropping the
      whitespace at both ends. */
  function Trim(s: string): (r: string)
    ensures exists i, j :: (0 <= i <= j <= |s| && r == s[i..j]
      && (forall k :: 0 <= k < i ==> IsSpace(s[k])) && (forall k :: j <= k < |s| ==> IsSpace(s[k])))
    ensures r != [] ==> !IsSpace(r[0]) && !IsSpace(r[|r| - 1])
  {
    var i := SpaceBefore(s);
    var j := SpaceAfter(s, i);
    s[i..j]
  }
}
