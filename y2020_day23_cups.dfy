/**
  Crab Cups (2020, day 23).  The cups stand in a circle and the game keeps
  one successor link per cup.  Each move picks up the three cups after the
  current one, chooses a destination label (one below the current, wrapping
  from 1 to the largest label, skipping picked-up cups), splices the three
  cups in after the destination and advances the current cup by one.

  The ghost field `order` is the circle read from the current cup; the
  successor map is proved to encode exactly that circle, and each move is
  proved to turn the circle into `TickOrder` of the old one.
*/
module CrabCups {

  /** The position after i on a circle of n positions. */
  function Succ(i: nat, n: nat): (j: nat)
    requires i < n
    ensures j < n && (j == i + 1 || (i == n - 1 && j == 0))
  {
    if i + 1 < n then i + 1 else 0
  }

  predicate Distinct(s: seq<int>)
  {
    forall i, j :: 0 <= i < j < |s| ==> s[i] != s[j]
  }

  /** The cups carry the labels 1..n, each once, and there are at least four
      of them (three to pick up besides the current one). */
  ghost predicate Labels(cups: seq<int>)
  {
    |cups| >= 4 && Distinct(cups) && forall c :: c in cups <==> 1 <= c <= |cups|
  }

  /** The successor map links every cup of the circle `o` to the cup after it,
      and has no other keys: the links form one cycle through all cups. */
  ghost predicate Circle(next: map<int, int>, o: seq<int>)
  {
    (forall c :: c in next <==> c in o)
    && forall i {:trigger next[o[i]]} :: 0 <= i < |o| ==> o[i] in next && next[o[i]] == o[Succ(i, |o|)]
  }

  /** The first index at or after i where x occurs, or |s| when it does not. */
  function PositionFrom(s: seq<int>, x: int, i: nat): (r: nat)
    requires i <= |s|
    ensures i <= r <= |s|
    ensures r < |s| ==> s[r] == x
    ensures forall j :: i <= j < r ==> s[j] != x
    decreases |s| - i
  {
    if i == |s| then |s| else if s[i] == x then i else PositionFrom(s, x, i + 1)
  }

  function Position(s: seq<int>, x: int): (r: nat)
    ensures r <= |s| && (r < |s| <==> x in s) && (r < |s| ==> s[r] == x)
  {
    PositionFrom(s, x, 0)
  }

  /** Python's max over a non-empty list. */
  function MaxOf(s: seq<int>): (r: int)
    requires |s| > 0
    ensures r in s && forall x :: x in s ==> x <= r
  {
    if |s| == 1 then s[0]
    else
      var m := MaxOf(s[1..]);
      assert forall x :: x in s ==> x == s[0] || x in s[1..];
      if s[0] >= m then s[0] else m
  }

  lemma LabelsMax(cups: seq<int>)
    requires Labels(cups)
    ensures MaxOf(cups) == |cups|
  {
    assert |cups| in cups;
  }

  // ---------------------------------------------------------------------
  // The destination label

  /** One label down, wrapping from 1 to the largest label m. */
  function Down(c: int, m: int): int
  {
    if c == 1 then m else c - 1
  }

  /** The label k steps down from c. */
  function DownBy(c: int, k: nat, m: int): int
  {
    if k == 0 then c else Down(DownBy(c, k - 1, m), m)
  }

  /** Stepping down k labels is subtracting k modulo m, on labels 1..m. */
  lemma {:induction false} DownByLinear(c: int, k: nat, m: int)
    requires 1 <= c <= m && k <= m
    ensures DownBy(c, k, m) == if c - k >= 1 then c - k else c - k + m
  {
    if k > 0 {
      DownByLinear(c, k - 1, m);
    }
  }

  /** The labels 1..k-1 steps below c are all picked up. */
  ghost predicate Skipped(c: int, m: int, picked: seq<int>, k: nat)
  {
    forall j :: 1 <= j < k ==> DownBy(c, j, m) in picked
  }

  /** The search for the destination from the label k steps below c. */
  function DestinationFrom(c: int, m: int, picked: seq<int>, k: nat): int
    requires 1 <= k <= 4
    decreases 4 - k
  {
    var d := DownBy(c, k, m);
    if d in picked && k < 4 then DestinationFrom(c, m, picked, k + 1) else d
  }

  /** The destination cup for current cup c, largest label m. */
  function Destination(c: int, m: int, picked: seq<int>): int
  {
    DestinationFrom(c, m, picked, 1)
  }

  /** Three picked-up cups cannot hide four different labels below c. */
  lemma Pigeonhole(c: int, m: int, picked: seq<int>)
    requires 1 <= c <= m && m >= 4 && |picked| == 3 && Skipped(c, m, picked, 4)
    ensures DownBy(c, 4, m) !in picked
  {
    DownByLinear(c, 1, m);
    DownByLinear(c, 2, m);
    DownByLinear(c, 3, m);
    DownByLinear(c, 4, m);
    var d1, d2, d3, d4 := DownBy(c, 1, m), DownBy(c, 2, m), DownBy(c, 3, m), DownBy(c, 4, m);
    assert picked == [picked[0], picked[1], picked[2]];
    assert d1 in picked && d2 in picked && d3 in picked;
    assert d1 != d2 && d2 != d3 && d1 != d3;
    assert d4 != d1 && d4 != d2 && d4 != d3;
  }

  lemma {:induction false} DestinationFromSpec(c: int, m: int, picked: seq<int>, k: nat)
    requires 1 <= c <= m && m >= 4 && |picked| == 3
    requires 1 <= k <= 4 && Skipped(c, m, picked, k)
    ensures var d := DestinationFrom(c, m, picked, k);
      exists j :: k <= j <= 4 && d == DownBy(c, j, m) && d !in picked && Skipped(c, m, picked, j)
    decreases 4 - k
  {
    var d := DownBy(c, k, m);
    if d in picked && k < 4 {
      assert Skipped(c, m, picked, k + 1);
      DestinationFromSpec(c, m, picked, k + 1);
    } else {
      if k == 4 {
        Pigeonhole(c, m, picked);
      }
      assert DestinationFrom(c, m, picked, k) == DownBy(c, k, m);
    }
  }

  /** The destination is a label of the circle that was not picked up, and
      it is the first such label going down from the current cup, wrapping
      from 1 to the largest label. */
  lemma DestinationSpec(c: int, m: int, picked: seq<int>)
    requires 1 <= c <= m && m >= 4 && |picked| == 3
    ensures var d := Destination(c, m, picked);
      1 <= d <= m && d !in picked
      && exists k :: 1 <= k <= 4 && d == DownBy(c, k, m) && Skipped(c, m, picked, k)
  {
    DestinationFromSpec(c, m, picked, 1);
    var k :| 1 <= k <= 4 && Destination(c, m, picked) == DownBy(c, k, m) && Skipped(c, m, picked, k);
    DownByLinear(c, k, m);
  }

  // ---------------------------------------------------------------------
  // One move on the circle

  /** Where the picked-up cups go among the cups that stay: right after the
      destination, or right after the current cup when the destination is
      the current cup itself (four cups). */
  function Insertion(o: seq<int>): (k: nat)
    requires |o| >= 4
    ensures k <= |o| - 4
  {
    var d := Destination(o[0], |o|, o[1..4]);
    if d in o[4..] then Position(o[4..], d) + 1 else 0
  }

  /** The circle read from the cup after the current one: the cups that
      stay up to the insertion point, the three picked-up cups, the rest,
      and the old current cup last. */
  function Arrange(o: seq<int>, k: nat): seq<int>
    requires |o| >= 4 && k <= |o| - 4
  {
    o[4..4 + k] + o[1..4] + o[4 + k..] + [o[0]]
  }

  /** Which position of the old circle ends up at position i. */
  function Src(n: nat, k: nat, i: nat): nat
  {
    if i < k then i + 4
    else if i < k + 3 then i - k + 1
    else if i < n - 1 then i + 1
    else 0
  }

  lemma ArrangeIndex(o: seq<int>, k: nat)
    requires |o| >= 4 && k <= |o| - 4
    ensures |Arrange(o, k)| == |o|
    ensures forall i :: 0 <= i < |o| ==> Src(|o|, k, i) < |o| && Arrange(o, k)[i] == o[Src(|o|, k, i)]
  {
  }

  /** Src sends distinct positions to distinct positions. */
  lemma SrcInjective(n: nat, k: nat, i: nat, j: nat)
    requires n >= 4 && k <= n - 4 && i < n && j < n && Src(n, k, i) == Src(n, k, j)
    ensures i == j
  {
  }

  lemma ArrangeLabels(o: seq<int>, k: nat)
    requires Labels(o) && k <= |o| - 4
    ensures Labels(Arrange(o, k))
  {
    var t := Arrange(o, k);
    ArrangeIndex(o, k);
    forall i, j | 0 <= i < j < |t|
      ensures t[i] != t[j]
    {
      if t[i] == t[j] {
        SrcInjective(|o|, k, i, j);
      }
    }
    assert o == [o[0]] + o[1..4] + o[4..4 + k] + o[4 + k..];
    assert multiset(t) == multiset(o);
    forall c
      ensures c in t <==> c in o
    {
      assert c in t <==> c in multiset(t);
      assert c in o <==> c in multiset(o);
    }
  }

  /** One move, as the circle read from the new current cup: the three cups
      after the current one follow the destination, and the old current cup
      comes last. */
  function TickOrder(o: seq<int>): (t: seq<int>)
    requires Labels(o)
    ensures Labels(t) && |t| == |o| && t[|t| - 1] == o[0]
  {
    ArrangeLabels(o, Insertion(o));
    Arrange(o, Insertion(o))
  }

  /** The move's three link updates, in the order the game makes them: the
      current cup is linked past the picked-up cups, the last picked-up cup
      to the destination's old successor, and the destination to the first
      picked-up cup. */
  function Relink(next: map<int, int>, c: int, p0: int, p2: int, d: int): map<int, int>
    requires c in next && p2 in next && d in next
  {
    var n1 := next[c := next[p2]];
    var n2 := n1[p2 := n1[d]];
    n2[d := p0]
  }

  /** The destination is a cup of the circle other than the picked-up ones:
      the cup at position 3 + k when the picked-up cups go in at k > 0, and
      the current cup itself when they go in right after it. */
  lemma InsertionSpec(o: seq<int>)
    requires Labels(o)
    ensures var d, k := Destination(o[0], |o|, o[1..4]), Insertion(o);
      d in o && if k > 0 then d == o[3 + k] else d == o[0]
  {
    var n := |o|;
    var c, d := o[0], Destination(o[0], n, o[1..4]);
    assert c in o;
    DestinationSpec(c, n, o[1..4]);
    assert d in o;
    var k := Insertion(o);
    if k > 0 {
      assert o[4..][k - 1] == d;
    } else {
      assert d !in o[4..];
      assert d != o[1] && d != o[2] && d != o[3];
      assert o == [o[0], o[1], o[2], o[3]] + o[4..];
    }
  }

  /** The three link updates turn a map encoding the circle `o` into one
      encoding the circle after the move; no other link changes. */
  lemma RelinkCircle(next: map<int, int>, o: seq<int>)
    requires Labels(o) && Circle(next, o)
    ensures Destination(o[0], |o|, o[1..4]) in next
    ensures Circle(Relink(next, o[0], o[1], o[3], Destination(o[0], |o|, o[1..4])), TickOrder(o))
  {
    var n := |o|;
    var c, d := o[0], Destination(o[0], n, o[1..4]);
    InsertionSpec(o);
    var k := Insertion(o);
    var t := TickOrder(o);
    ArrangeIndex(o, k);
    RelinkKeys(next, o, d);
    var r := Relink(next, c, o[1], o[3], d);
    forall i | 0 <= i < n
      ensures t[i] in r && r[t[i]] == t[Succ(i, n)]
    {
      RelinkStep(next, o, k, d, i);
    }
  }

  /** Relinking keeps the keys: exactly the cups of the new circle. */
  lemma RelinkKeys(next: map<int, int>, o: seq<int>, d: int)
    requires Labels(o) && Circle(next, o) && d in o
    ensures o[0] in next && o[3] in next && d in next
    ensures forall x :: x in Relink(next, o[0], o[1], o[3], d) <==> x in TickOrder(o)
  {
    var n, t := |o|, TickOrder(o);
    assert o[0] in next && o[3] in next && d in next;
    var r := Relink(next, o[0], o[1], o[3], d);
    assert r.Keys == next.Keys;
    forall x
      ensures x in r <==> x in t
    {
      assert x in t <==> 1 <= x <= n;
      assert x in o <==> 1 <= x <= n;
    }
  }

  /** The link out of the cup at position i of the new circle. */
  lemma RelinkStep(next: map<int, int>, o: seq<int>, k: nat, d: int, i: nat)
    requires |o| >= 4 && Distinct(o) && Circle(next, o) && k <= |o| - 4 && i < |o|
    requires if k > 0 then d == o[3 + k] else d == o[0]
    ensures var r, n := Relink(next, o[0], o[1], o[3], d), |o|;
      o[Src(n, k, i)] in r && r[o[Src(n, k, i)]] == o[Src(n, k, Succ(i, n))]
  {
    var n, c := |o|, o[0];
    var s := Src(n, k, i);
    assert o[0] in next && o[3] in next && d in next;
    if i == n - 1 {
      if k > 0 {
        assert d != c && o[3] != c;
        assert next[o[3]] == o[4];
      } else {
        assert next[o[3]] == o[Succ(3, n)];
      }
    } else if k > 0 && i == k - 1 {
      assert s == 3 + k;
    } else if i == k + 2 {
      assert s == 3;
      if k > 0 {
        assert next[d] == o[Succ(3 + k, n)];
      } else {
        assert next[o[3]] == o[Succ(3, n)];
      }
    } else {
      assert s != 0 && s != 3 && (k > 0 ==> s != 3 + k);
      assert o[s] != c && o[s] != o[3] && o[s] != d;
      assert next[o[s]] == o[Succ(s, n)];
      assert Src(n, k, Succ(i, n)) == Succ(s, n);
    }
  }

  lemma PositionOfDistinct(s: seq<int>, x: int, p: nat)
    requires Distinct(s) && p < |s| && s[p] == x
    ensures Position(s, x) == p
  {
    var r := Position(s, x);
    assert r <= p by {
      assert forall j :: 0 <= j < r ==> s[j] != x;
    }
    if r < p {
      assert s[r] == s[p];
    }
  }

  /** After a move the three picked-up cups follow the destination, in the
      order they were picked up, and the new current cup is the one that
      followed the third picked-up cup (the first of them when the
      destination is the current cup itself). */
  lemma {:induction false} TickPlacesPicked(o: seq<int>)
    requires Labels(o)
    ensures var t, d := TickOrder(o), Destination(o[0], |o|, o[1..4]);
      d in t && Following(t, d)[..3] == o[1..4]
      && t[0] == if d == o[0] then o[1] else o[4]
  {
    var n, t, d := |o|, TickOrder(o), Destination(o[0], |o|, o[1..4]);
    var k := Insertion(o);
    InsertionSpec(o);
    ArrangeIndex(o, k);
    var p := if k > 0 then k - 1 else n - 1;
    assert t[p] == d;
    PositionOfDistinct(t, d, p);
    var f := Following(t, d);
    if k > 0 {
      assert f[..3] == t[k..k + 3];
      assert o[0] != d;
    } else {
      assert f[..3] == t[..3];
    }
    assert f[..3] == o[1..4];
  }

  /** The circle after t moves. */
  function Ticks(o: seq<int>, t: nat): (r: seq<int>)
    requires Labels(o)
    ensures Labels(r) && |r| == |o|
    decreases t
  {
    if t == 0 then o else Ticks(TickOrder(o), t - 1)
  }

  /** Each further move applies TickOrder to the circle reached so far. */
  lemma {:induction false} TicksLast(o: seq<int>, t: nat)
    requires Labels(o)
    ensures Ticks(o, t + 1) == TickOrder(Ticks(o, t))
    decreases t
  {
    if t > 0 {
      TicksLast(TickOrder(o), t - 1);
    }
  }

  /** The cups after x going round the circle, up to but not including x. */
  function Following(o: seq<int>, x: int): (r: seq<int>)
    requires x in o
    ensures |r| == |o| - 1 && forall y :: y in r ==> y in o
  {
    var k := Position(o, x);
    o[k + 1..] + o[..k]
  }

  /** Reading the circle from position k, one link at a time. */
  lemma FollowingLinks(next: map<int, int>, o: seq<int>, x: int)
    requires Labels(o) && Circle(next, o) && x in o
    ensures var g := Following(o, x) + [x];
      g[0] == next[x]
      && (forall j :: 0 <= j < |o| - 1 ==> g[j] != x && g[j] in next && next[g[j]] == g[j + 1])
  {
    var n, k := |o|, Position(o, x);
    var g := Following(o, x) + [x];
    assert forall j :: 0 <= j < n ==> g[j] == o[if k + 1 + j < n then k + 1 + j else k + 1 + j - n];
    forall j | 0 <= j < n - 1
      ensures g[j] != x && g[j] in next && next[g[j]] == g[j + 1]
    {
      var a := if k + 1 + j < n then k + 1 + j else k + 1 + j - n;
      assert g[j] == o[a] && a != k;
      assert g[j + 1] == o[Succ(a, n)];
    }
  }

  /** cup_next of a new game: each cup maps to the one after it in the
      input, the last to the first. */
  function Links(cups: seq<int>): map<int, int>
    requires Distinct(cups)
  {
    var n := |cups|;
    map i | 0 <= i < n :: cups[i] := cups[Succ(i, n)]
  }

  /** The links of a new game form one cycle through all the cups, in
      input order. */
  lemma LinksCircle(cups: seq<int>)
    requires Labels(cups)
    ensures Circle(Links(cups), cups)
  {
    var n, next := |cups|, Links(cups);
    forall c
      ensures c in next <==> c in cups
    {
      if c in cups {
        var i :| 0 <= i < n && cups[i] == c;
        assert c in next;
      }
    }
    forall i | 0 <= i < n
      ensures cups[i] in next && next[cups[i]] == cups[Succ(i, n)]
    {
      var j :| 0 <= j < n && cups[j] == cups[i] && next[cups[i]] == cups[Succ(j, n)];
      assert i == j;
    }
  }

  // ---------------------------------------------------------------------
  // The game

  class CupGame {
    /** cup_next: the cup after each cup. */
    var next: map<int, int>
    var current: int
    var maxCup: int
    /** picked_up; 0 stands for Python's None (no cup is labelled 0). */
    var picked: seq<int>
    /** The circle read from the current cup. */
    ghost var order: seq<int>

    ghost predicate Valid()
      reads this
    {
      Labels(order) && Circle(next, order) && current == order[0]
      && maxCup == |order| && |picked| == 3
    }

    /** A new game on the circle `cups`, its first cup current. */
    constructor (cups: seq<int>)
      requires Labels(cups)
      ensures Valid() && order == cups && picked == [0, 0, 0]
    {
      next := Links(cups);
      current := cups[0];
      maxCup := MaxOf(cups);
      picked := [0, 0, 0];
      order := cups;
      LabelsMax(cups);
      LinksCircle(cups);
    }

    /** The cups after `cup`, in circle order, not including `cup` itself. */
    method IterFrom(cup: int) returns (r: seq<int>)
      requires Valid() && cup in next
      ensures r == Following(order, cup)
    {
      ghost var g := Following(order, cup) + [cup];
      FollowingLinks(next, order, cup);
      var nextCup := next[cup];
      r := [];
      ghost var j := 0;
      while nextCup != cup
        invariant 0 <= j < |order| && nextCup == g[j] && r == g[..j]
        decreases |order| - j
      {
        r := r + [nextCup];
        nextCup := next[nextCup];
        j := j + 1;
      }
      assert j == |order| - 1;
    }

    /** The destination search: one label down from the current cup,
        wrapping from 1 to the largest label, while the label is picked up. */
    method FindDestination() returns (dest: int)
      requires 1 <= current <= maxCup && maxCup >= 4 && |picked| == 3
      ensures dest == Destination(current, maxCup, picked)
      ensures 1 <= dest <= maxCup && dest !in picked
    {
      dest := if current == 1 then maxCup else current - 1;
      ghost var k := 1;
      DownByLinear(current, 1, maxCup);
      while dest in picked
        invariant 1 <= k <= 4 && dest == DownBy(current, k, maxCup) && 1 <= dest <= maxCup
        invariant Skipped(current, maxCup, picked, k)
        invariant DestinationFrom(current, maxCup, picked, k) == Destination(current, maxCup, picked)
        invariant k == 4 ==> dest !in picked
        decreases 4 - k
      {
        dest := if dest == 1 then maxCup else dest - 1;
        k := k + 1;
        DownByLinear(current, k, maxCup);
        if k == 4 {
          Pigeonhole(current, maxCup, picked);
        }
      }
    }

    /** One move: pick up three cups, find the destination, relink, advance. */
    method Tick()
      requires Valid()
      modifies this
      ensures Valid() && order == TickOrder(old(order))
      ensures picked == old(order)[1..4] && maxCup == old(maxCup)
      ensures current == next[old(current)]
    {
      ghost var o := order;
      ghost var next0 := next;
      picked := picked[0 := next[current]];
      picked := picked[1 := next[picked[0]]];
      picked := picked[2 := next[picked[1]]];
      assert picked == o[1..4];
      assert current in o;
      var dest := FindDestination();
      RelinkCircle(next0, o);
      next := next[current := next[picked[2]]];
      next := next[picked[2] := next[dest]];
      next := next[dest := picked[0]];
      assert next == Relink(next0, o[0], o[1], o[3], dest);
      order := TickOrder(o);
      assert next[order[|o| - 1]] == order[0];
      current := next[current];
    }
  }

  /** The labels after cup 1 after t moves on the circle `cups`. */
  method Play(cups: seq<int>, t: nat) returns (game: CupGame)
    requires Labels(cups)
    ensures fresh(game) && game.Valid() && game.order == Ticks(cups, t)
  {
    game := new CupGame(cups);
    var i := 0;
    while i < t
      invariant 0 <= i <= t && game.Valid() && game.order == Ticks(cups, i)
      modifies game
    {
      game.Tick();
      TicksLast(cups, i);
      i := i + 1;
    }
  }

  /** The decimal digit for 0..9. */
  function DigitChar(x: int): char
    requires 0 <= x <= 9
  {
    ('0' as int + x) as char
  }

  /** str(i) joined over single-digit labels. */
  function DigitString(s: seq<int>): (r: string)
    requires forall i :: 0 <= i < |s| ==> 0 <= s[i] <= 9
    ensures |r| == |s| && forall i :: 0 <= i < |s| ==> r[i] == DigitChar(s[i])
  {
    if s == [] then "" else [DigitChar(s[0])] + DigitString(s[1..])
  }

  /** Part one: the labels after cup 1, after 100 moves. */
  method Part1(cups: seq<int>) returns (r: string)
    requires Labels(cups) && |cups| <= 9
    ensures var f := Following(Ticks(cups, 100), 1);
      (forall i :: 0 <= i < |f| ==> 0 <= f[i] <= 9) && r == DigitString(f)
  {
    var game := Play(cups, 100);
    var labels := game.IterFrom(1);
    assert forall i :: 0 <= i < |labels| ==> labels[i] in game.order;
    r := DigitString(labels);
  }

  /** The puzzle's labels padded with max+1..1000000. */
  function Padded(cups: seq<int>): (r: seq<int>)
    requires |cups| > 0
  {
    var m := MaxOf(cups);
    cups + seq(if m < 1000000 then 1000000 - m else 0, i => m + 1 + i)
  }

  /** Padding keeps the labels 1..n and brings them up to a million. */
  lemma PaddedLabels(cups: seq<int>)
    requires Labels(cups)
    ensures Labels(Padded(cups)) && |Padded(cups)| == if |cups| < 1000000 then 1000000 else |cups|
  {
    LabelsMax(cups);
    var r := Padded(cups);
    var n := |cups|;
    assert forall i :: n <= i < |r| ==> r[i] == i + 1;
    assert forall i :: 0 <= i < n ==> r[i] == cups[i] && cups[i] in cups;
    forall c
      ensures c in r <==> 1 <= c <= |r|
    {
      if n < c <= |r| {
        assert r[c - 1] == c;
      } else if 1 <= c <= n {
        assert c in cups;
      }
    }
  }

  /** Part two: the product of the two labels after cup 1, after ten
      million moves on a million cups. */
  method Part2(cups: seq<int>) returns (r: int)
    requires Labels(cups)
    ensures Labels(Padded(cups))
    ensures var f := Following(Ticks(Padded(cups), 10000000), 1);
      |f| >= 2 && r == f[0] * f[1]
  {
    var maxCup := MaxOf(cups);
    var extra := seq(if maxCup < 1000000 then 1000000 - maxCup else 0, i => maxCup + 1 + i);
    var all := cups + extra;
    PaddedLabels(cups);
    assert all == Padded(cups);
    var game := Play(all, 10000000);
    assert 1 in game.order;
    var labels := game.IterFrom(1);
    r := labels[0] * labels[1];
  }
}
