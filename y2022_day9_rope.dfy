/** The rope bridge of 2022 day 9: the head of a rope moves one unit at a
    time, every knot follows the knot before it, and the answer is the
    number of distinct positions the last knot visits. */
module RopeBridge {
  import opened Prelude

  datatype Point = Point(x: int, y: int)

  function Add(a: Point, b: Point): Point
  {
    Point(a.x + b.x, a.y + b.y)
  }

  function Sub(a: Point, b: Point): Point
  {
    Point(a.x - b.x, a.y - b.y)
  }

  /** The distance in which a diagonal step counts as one. */
  function Chebyshev(a: Point, b: Point): nat
  {
    var dx := if a.x >= b.x then a.x - b.x else b.x - a.x;
    var dy := if a.y >= b.y then a.y - b.y else b.y - a.y;
    if dx >= dy then dx else dy
  }

  /** get_direction: R, L, U and D are the four unit steps, with y
      growing downwards; any other word panics. */
  function DirectionOf(word: string): (r: Option<Point>)
    ensures r.Some? ==> Abs(r.value.x) + Abs(r.value.y) == 1
    ensures r.Some? <==> word in {"R", "L", "U", "D"}
  {
    if word == "R" then Some(Point(1, 0))
    else if word == "L" then Some(Point(-1, 0))
    else if word == "U" then Some(Point(0, -1))
    else if word == "D" then Some(Point(0, 1))
    else None
  }

  /** One line of the input: a direction and how many unit steps to take. */
  datatype Motion = Motion(direction: Point, amount: nat)

  /** A line is split at its spaces; the first piece is the direction and
      the second the amount, a u32. Too few pieces, an amount that is not
      a u32 and an unknown direction all panic. */
  function ParseLine(line: string): (r: Option<Motion>)
    ensures r.Some? ==> Abs(r.value.direction.x) + Abs(r.value.direction.y) == 1
    ensures r.Some? ==> r.value.amount < 0x1_0000_0000
  {
    var pieces := Split(line, ' ');
    if |pieces| < 2 then None
    else
      match ParseUnsigned(pieces[1], 0x1_0000_0000)
      case None => None
      case Some(amount) =>
        match DirectionOf(pieces[0])
        case None => None
        case Some(direction) => Some(Motion(direction, amount))
  }

  /** The motions of all the lines, or None when any line panics. */
  function ParseMotions(lines: seq<string>): (r: Option<seq<Motion>>)
    ensures r.Some? ==> |r.value| == |lines|
  {
    if lines == [] then Some([])
    else
      match ParseMotions(lines[..|lines| - 1])
      case None => None
      case Some(motions) =>
        match ParseLine(lines[|lines| - 1])
        case None => None
        case Some(m) => Some(motions + [m])
  }

  /** Motion i is the parse of line i. */
  lemma {:induction false} ParseMotionsLines(lines: seq<string>)
    requires ParseMotions(lines).Some?
    ensures forall i :: 0 <= i < |lines| ==> ParseLine(lines[i]) == Some(ParseMotions(lines).value[i])
  {
    if lines != [] {
      var n := |lines| - 1;
      var motions := ParseMotions(lines).value;
      ParseMotionsLines(lines[..n]);
      assert motions == ParseMotions(lines[..n]).value + [ParseLine(lines[n]).value];
      forall i | 0 <= i < |lines|
        ensures ParseLine(lines[i]) == Some(motions[i])
      {
        if i < n {
          assert lines[..n][i] == lines[i];
        }
      }
    }
  }

  /** The lines parse exactly when every one of them does. */
  lemma {:induction false} ParseMotionsAll(lines: seq<string>)
    ensures ParseMotions(lines).Some? <==> forall i :: 0 <= i < |lines| ==> ParseLine(lines[i]).Some?
  {
    if lines != [] {
      var n := |lines| - 1;
      ParseMotionsAll(lines[..n]);
      if forall i :: 0 <= i < |lines| ==> ParseLine(lines[i]).Some? {
        forall i | 0 <= i < n
          ensures ParseLine(lines[..n][i]).Some?
        {
          assert lines[..n][i] == lines[i];
        }
      }
      if ParseMotions(lines).Some? {
        forall i | 0 <= i < |lines|
          ensures ParseLine(lines[i]).Some?
        {
          if i < n {
            assert lines[..n][i] == lines[i];
          }
        }
      }
    }
  }

  /** The same unit step, count times. */
  function Repeat(d: Point, count: nat): (r: seq<Point>)
    ensures |r| == count && forall i :: 0 <= i < count ==> r[i] == d
  {
    if count == 0 then [] else Repeat(d, count - 1) + [d]
  }

  lemma RepeatSnoc(steps: seq<Point>, d: Point, count: nat)
    ensures steps + Repeat(d, count) + [d] == steps + Repeat(d, count + 1)
  {
  }

  /** The unit steps of the head, motion after motion. */
  function Steps(motions: seq<Motion>): seq<Point>
  {
    if motions == [] then []
    else
      var last := motions[|motions| - 1];
      Steps(motions[..|motions| - 1]) + Repeat(last.direction, last.amount)
  }

  lemma StepsSnoc(motions: seq<Motion>, m: Motion)
    ensures Steps(motions + [m]) == Steps(motions) + Repeat(m.direction, m.amount)
  {
    assert (motions + [m])[..|motions|] == motions;
  }

  predicate IsUnit(d: Point)
  {
    Abs(d.x) + Abs(d.y) == 1
  }

  /** Every head step of parsed motions is a unit step. */
  lemma {:induction false} StepsUnit(motions: seq<Motion>)
    requires forall i :: 0 <= i < |motions| ==> IsUnit(motions[i].direction)
    ensures forall i :: 0 <= i < |Steps(motions)| ==> IsUnit(Steps(motions)[i])
  {
    if motions != [] {
      var n := |motions| - 1;
      StepsUnit(motions[..n]);
      assert Steps(motions) == Steps(motions[..n]) + Repeat(motions[n].direction, motions[n].amount);
    }
  }

  /** One unit towards a difference: -1, 0 or 1 by its sign. */
  function Toward(a: int): int
  {
    if a > 0 then 1 else if a < 0 then -1 else 0
  }

  /** Where a knot goes once the knot before it has moved: when the two
      no longer touch it steps one unit towards the leader along each axis
      on which they differ, and otherwise it stays. */
  function Follow(leader: Point, knot: Point): Point
  {
    if Chebyshev(leader, knot) > 1 then
      Add(knot, Point(Toward(leader.x - knot.x), Toward(leader.y - knot.y)))
    else knot
  }

  /** A knot moves exactly when it no longer touches its leader, and then
      by at most one unit on each axis. A knot at most two away ends up
      touching the leader. */
  lemma FollowMoves(leader: Point, knot: Point)
    ensures Follow(leader, knot) != knot <==> Chebyshev(leader, knot) > 1
    ensures Chebyshev(knot, Follow(leader, knot)) <= 1
    ensures Chebyshev(leader, Follow(leader, knot)) <= Chebyshev(leader, knot)
    ensures Chebyshev(leader, knot) <= 2 ==> Chebyshev(leader, Follow(leader, knot)) <= 1
  {
  }

  /** The knots after the leader has moved to head: each knot of rest
      follows the knot before it, which has already moved. */
  function Chain(head: Point, rest: seq<Point>): (r: seq<Point>)
    ensures |r| == |rest| + 1 && r[0] == head
  {
    if rest == [] then [head]
    else
      var before := Chain(head, rest[..|rest| - 1]);
      before + [Follow(before[|before| - 1], rest[|rest| - 1])]
  }

  /** Chain over one more knot: the new knot follows the last one before. */
  lemma ChainSnoc(head: Point, knots: seq<Point>, idx: nat, before: seq<Point>)
    requires 0 < idx < |knots| && before == Chain(head, knots[1..idx])
    ensures Chain(head, knots[1..idx + 1]) == before + [Follow(before[idx - 1], knots[idx])]
  {
    assert knots[1..idx + 1][..idx - 1] == knots[1..idx];
  }

  /** One unit step of the head, the other knots following it in order. */
  function StepRope(knots: seq<Point>, d: Point): (r: seq<Point>)
    requires |knots| > 0
    ensures |r| == |knots|
    ensures r[0] == Add(knots[0], d)
  {
    Chain(Add(knots[0], d), knots[1..])
  }

  /** n knots, all at the start. */
  function Start(n: nat): (r: seq<Point>)
    ensures |r| == n
  {
    seq(n, _ => Point(0, 0))
  }

  /** The rope of n knots after the head steps. */
  function Rope(n: nat, steps: seq<Point>): (r: seq<Point>)
    requires n > 0
    ensures |r| == n
  {
    if steps == [] then Start(n) else StepRope(Rope(n, steps[..|steps| - 1]), steps[|steps| - 1])
  }

  lemma RopeSnoc(n: nat, steps: seq<Point>, d: Point)
    requires n > 0
    ensures Rope(n, steps + [d]) == StepRope(Rope(n, steps), d)
  {
    assert (steps + [d])[..|steps|] == steps;
  }

  function Tail(knots: seq<Point>): Point
    requires |knots| > 0
  {
    knots[|knots| - 1]
  }

  /** tail_positions: the last knot after every step; the start is not
      recorded before the first step. */
  function Visited(n: nat, steps: seq<Point>): set<Point>
    requires n > 0
  {
    if steps == [] then {} else Visited(n, steps[..|steps| - 1]) + {Tail(Rope(n, steps))}
  }

  lemma VisitedSnoc(n: nat, steps: seq<Point>, d: Point)
    requires n > 0
    ensures Visited(n, steps + [d]) == Visited(n, steps) + {Tail(Rope(n, steps + [d]))}
  {
    assert (steps + [d])[..|steps|] == steps;
  }

  /** The position of the last knot after each step is recorded... */
  lemma {:induction false} VisitedRecorded(n: nat, steps: seq<Point>, i: nat)
    requires n > 0 && 1 <= i <= |steps|
    ensures Tail(Rope(n, steps[..i])) in Visited(n, steps)
  {
    var m := |steps| - 1;
    if i <= m {
      VisitedRecorded(n, steps[..m], i);
      assert steps[..m][..i] == steps[..i];
    } else {
      assert steps[..i] == steps;
    }
  }

  /** ...and nothing else is. */
  lemma {:induction false} VisitedOnlyRecorded(n: nat, steps: seq<Point>, q: Point)
    requires n > 0 && q in Visited(n, steps)
    ensures exists i :: 1 <= i <= |steps| && Tail(Rope(n, steps[..i])) == q
  {
    var m := |steps| - 1;
    if q in Visited(n, steps[..m]) {
      VisitedOnlyRecorded(n, steps[..m], q);
      var i :| 1 <= i <= m && Tail(Rope(n, steps[..m][..i])) == q;
      assert steps[..m][..i] == steps[..i];
    } else {
      assert steps[..|steps|] == steps;
    }
  }

  /** No more positions are recorded than there are steps. */
  lemma {:induction false} VisitedBound(n: nat, steps: seq<Point>)
    requires n > 0
    ensures |Visited(n, steps)| <= |steps|
  {
    if steps != [] {
      VisitedBound(n, steps[..|steps| - 1]);
    }
  }

  /** Neighbouring knots touch. */
  predicate Connected(knots: seq<Point>)
  {
    forall i :: 0 < i < |knots| ==> Chebyshev(knots[i - 1], knots[i]) <= 1
  }

  /** A knot that touched its old leader, whose leader moved by at most a
      unit, ends up touching the new leader, at most a unit from where it
      was. */
  lemma FollowNear(oldLeader: Point, leader: Point, knot: Point)
    requires Chebyshev(oldLeader, leader) <= 1 && Chebyshev(oldLeader, knot) <= 1
    ensures Chebyshev(leader, Follow(leader, knot)) <= 1
    ensures Chebyshev(knot, Follow(leader, knot)) <= 1
  {
    assert Chebyshev(leader, knot) <= 2;
    FollowMoves(leader, knot);
  }

  lemma ConnectedPrefix(knots: seq<Point>, k: nat)
    requires k <= |knots| && Connected(knots)
    ensures Connected(knots[..k])
  {
    assert forall i :: 0 <= i < k ==> knots[..k][i] == knots[i];
  }

  lemma ConnectedSnoc(knots: seq<Point>, last: Point)
    requires |knots| > 0 && Connected(knots) && Chebyshev(knots[|knots| - 1], last) <= 1
    ensures Connected(knots + [last])
  {
    var r := knots + [last];
    forall i | 0 < i < |r|
      ensures Chebyshev(r[i - 1], r[i]) <= 1
    {
      if i < |knots| {
        assert r[i - 1] == knots[i - 1] && r[i] == knots[i];
      }
    }
  }

  /** Knots pairwise at most a unit apart stay so with one more pair. */
  lemma NearSnoc(a: seq<Point>, b: seq<Point>, x: Point, y: Point)
    requires |a| == |b| && forall i :: 0 <= i < |a| ==> Chebyshev(a[i], b[i]) <= 1
    requires Chebyshev(x, y) <= 1
    ensures forall i :: 0 <= i < |a| + 1 ==> Chebyshev((a + [x])[i], (b + [y])[i]) <= 1
  {
    forall i | 0 <= i < |a| + 1
      ensures Chebyshev((a + [x])[i], (b + [y])[i]) <= 1
    {
      if i < |a| {
        assert (a + [x])[i] == a[i] && (b + [y])[i] == b[i];
      }
    }
  }

  /** Two ropes of the same length whose knots are pairwise at most a
      unit apart. */
  predicate Near(a: seq<Point>, b: seq<Point>)
  {
    |a| == |b| && forall i :: 0 <= i < |a| ==> Chebyshev(a[i], b[i]) <= 1
  }

  /** The step of ChainKeeps from m knots to m + 1. */
  lemma ChainKeepsStep(knots: seq<Point>, m: nat, before: seq<Point>, last: Point)
    requires |knots| == m + 1 && m > 0 && Connected(knots)
    requires Connected(before) && Near(knots[..m], before)
    requires last == Follow(before[m - 1], knots[m])
    ensures Connected(before + [last]) && Near(knots, before + [last])
  {
    assert Chebyshev(knots[m - 1], before[m - 1]) <= 1 by {
      assert knots[..m][m - 1] == knots[m - 1];
    }
    assert Chebyshev(knots[m - 1], knots[m]) <= 1;
    FollowNear(knots[m - 1], before[m - 1], knots[m]);
    ConnectedSnoc(before, last);
    NearSnoc(knots[..m], before, knots[m], last);
    assert knots[..m] + [knots[m]] == knots;
  }

  /** After the move the knots stay connected, and each knot is at most a
      unit away from where it was, when the new head is at most a unit
      from the old head of a connected rope. */
  lemma {:induction false} ChainKeeps(head: Point, knots: seq<Point>)
    requires |knots| > 0 && Chebyshev(knots[0], head) <= 1 && Connected(knots)
    ensures Connected(Chain(head, knots[1..])) && Near(knots, Chain(head, knots[1..]))
    decreases |knots|
  {
    if |knots| > 1 {
      var m := |knots| - 1;
      ConnectedPrefix(knots, m);
      ChainKeeps(head, knots[..m]);
      assert knots[..m][1..] == knots[1..m];
      var before := Chain(head, knots[1..m]);
      ChainSnoc(head, knots, m, before);
      assert knots[1..m + 1] == knots[1..];
      ChainKeepsStep(knots, m, before, Follow(before[m - 1], knots[m]));
    }
  }

  /** A unit step of the head keeps the rope connected, and moves every
      knot by at most a unit on each axis. */
  lemma StepKeeps(knots: seq<Point>, d: Point)
    requires |knots| > 0 && Connected(knots) && IsUnit(d)
    ensures Connected(StepRope(knots, d))
    ensures forall i :: 0 <= i < |knots| ==> Chebyshev(knots[i], StepRope(knots, d)[i]) <= 1
  {
    ChainKeeps(Add(knots[0], d), knots);
  }

  /** However the head moves in unit steps, every knot keeps touching the
      knot before it. */
  lemma {:induction false} RopeConnected(n: nat, steps: seq<Point>)
    requires n > 0
    requires forall i :: 0 <= i < |steps| ==> IsUnit(steps[i])
    ensures Connected(Rope(n, steps))
  {
    if steps != [] {
      var m := |steps| - 1;
      RopeConnected(n, steps[..m]);
      StepKeeps(Rope(n, steps[..m]), steps[m]);
    }
  }

  /** With two knots the chain is the moved head and its follower. */
  lemma StepPair(head: Point, tail: Point, d: Point)
    ensures StepRope([head, tail], d) == [Add(head, d), Follow(Add(head, d), tail)]
  {
    assert [head, tail][1..] == [tail];
    assert [tail][..0] == [];
  }

  /** vector.x / vector.x.abs(): an exact division, so truncation and
      Euclidean division agree, and the quotient is the sign. */
  lemma SignQuotient(x: int)
    requires x != 0
    ensures x / Abs(x) == Toward(x)
  {
    if x < 0 {
      assert x == (-x) * -1;
    }
  }

  /** The adjustment as the loops compute it. */
  method Adjust(leader: Point, knot: Point) returns (r: Point)
    ensures r == Follow(leader, knot)
  {
    var vector := Sub(leader, knot);
    r := knot;
    if Max(Abs(vector.x), Abs(vector.y)) > 1 {
      var ax := if vector.x != 0 then vector.x / Abs(vector.x) else 0;
      var ay := if vector.y != 0 then vector.y / Abs(vector.y) else 0;
      if vector.x != 0 { SignQuotient(vector.x); }
      if vector.y != 0 { SignQuotient(vector.y); }
      r := Add(r, Point(ax, ay));
    }
  }

  /** The number of positions the last of n knots visits, or None when the
      input panics. */
  function TailVisits(n: nat, input: string): Option<nat>
    requires n > 0
  {
    match ParseMotions(Lines(input))
    case None => None
    case Some(motions) => Some(|Visited(n, Steps(motions))|)
  }

  /** A line that does not parse makes the whole input panic. */
  lemma ParseFails(lines: seq<string>, i: nat)
    requires i < |lines| && ParseLine(lines[i]).None?
    ensures ParseMotions(lines).None?
  {
    ParseMotionsAll(lines);
  }

  /** The parsed motions of the first i + 1 lines. */
  lemma ParsePrefix(lines: seq<string>, i: nat, motions: seq<Motion>, m: Motion)
    requires i < |lines| && ParseMotions(lines[..i]) == Some(motions) && ParseLine(lines[i]) == Some(m)
    ensures ParseMotions(lines[..i + 1]) == Some(motions + [m])
  {
    var front := lines[..i + 1];
    assert |front| - 1 == i;
    assert front[..|front| - 1] == lines[..i];
    assert front[|front| - 1] == lines[i];
  }

  /** One unit step of part one: the head moves, the tail follows it
      and its position is recorded. */
  method StepTwo(head: Point, tail: Point, positions: set<Point>, direction: Point, ghost steps: seq<Point>)
    returns (head': Point, tail': Point, positions': set<Point>)
    requires Rope(2, steps) == [head, tail] && positions == Visited(2, steps)
    ensures Rope(2, steps + [direction]) == [head', tail']
    ensures positions' == Visited(2, steps + [direction])
  {
    head' := Add(head, direction);
    tail' := Adjust(head', tail);
    RopeSnoc(2, steps, direction);
    VisitedSnoc(2, steps, direction);
    StepPair(head, tail, direction);
    positions' := positions + {tail'};
  }

  /** The inner loop of part one: one motion, step by step. */
  method MotionTwo(head: Point, tail: Point, positions: set<Point>, m: Motion, ghost steps: seq<Point>)
    returns (head': Point, tail': Point, positions': set<Point>)
    requires Rope(2, steps) == [head, tail] && positions == Visited(2, steps)
    ensures Rope(2, steps + Repeat(m.direction, m.amount)) == [head', tail']
    ensures positions' == Visited(2, steps + Repeat(m.direction, m.amount))
  {
    head', tail', positions' := head, tail, positions;
    assert steps + Repeat(m.direction, 0) == steps;
    for j := 0 to m.amount
      invariant Rope(2, steps + Repeat(m.direction, j)) == [head', tail']
      invariant positions' == Visited(2, steps + Repeat(m.direction, j))
    {
      head', tail', positions' := StepTwo(head', tail', positions', m.direction, steps + Repeat(m.direction, j));
      RepeatSnoc(steps, m.direction, j);
    }
  }

  /** part_one: the head and the tail as two points. */
  method PartOne(input: string) returns (r: Option<nat>)
    ensures r == TailVisits(2, input)
  {
    var lines := Lines(input);
    var positions: set<Point> := {};
    var head := Point(0, 0);
    var tail := Point(0, 0);
    ghost var motions: seq<Motion> := [];
    assert Start(2) == [head, tail];
    for i := 0 to |lines|
      invariant ParseMotions(lines[..i]) == Some(motions)
      invariant Rope(2, Steps(motions)) == [head, tail]
      invariant positions == Visited(2, Steps(motions))
    {
      var m := ParseLine(lines[i]);
      if m.None? {
        ParseFails(lines, i);
        return None;
      }
      ParsePrefix(lines, i, motions, m.value);
      StepsSnoc(motions, m.value);
      head, tail, positions := MotionTwo(head, tail, positions, m.value, Steps(motions));
      motions := motions + [m.value];
    }
    assert lines[..|lines|] == lines;
    r := Some(|positions|);
  }

  /** The loop `for idx in 1..rope_knots.len()`: the head takes one step
      and every other knot follows the one before it, in place. */
  method MoveRope(knots: array<Point>, direction: Point)
    requires knots.Length > 0
    modifies knots
    ensures knots[..] == StepRope(old(knots[..]), direction)
  {
    ghost var before := knots[..];
    knots[0] := Add(knots[0], direction);
    ghost var head := knots[0];
    for idx := 1 to knots.Length
      invariant knots[..idx] == Chain(head, before[1..idx])
      invariant knots[idx..] == before[idx..]
    {
      assert knots[idx] == before[idx];
      var next := Adjust(knots[idx - 1], knots[idx]);
      ChainSnoc(head, before, idx, knots[..idx]);
      knots[idx] := next;
      assert knots[..idx + 1] == knots[..idx] + [next];
    }
    assert knots[..] == knots[..knots.Length];
    assert before[1..knots.Length] == before[1..];
  }

  /** One unit step of part two: the rope moves and the position of its
      last knot is recorded. */
  method StepKnots(knots: array<Point>, positions: set<Point>, direction: Point, ghost steps: seq<Point>)
    returns (positions': set<Point>)
    requires knots.Length > 0 && knots[..] == Rope(knots.Length, steps)
    requires positions == Visited(knots.Length, steps)
    modifies knots
    ensures knots[..] == Rope(knots.Length, steps + [direction])
    ensures positions' == Visited(knots.Length, steps + [direction])
  {
    MoveRope(knots, direction);
    RopeSnoc(knots.Length, steps, direction);
    VisitedSnoc(knots.Length, steps, direction);
    positions' := positions + {knots[knots.Length - 1]};
  }

  /** The inner loop of part two: one motion, step by step. */
  method MotionKnots(knots: array<Point>, positions: set<Point>, m: Motion, ghost steps: seq<Point>)
    returns (positions': set<Point>)
    requires knots.Length > 0 && knots[..] == Rope(knots.Length, steps)
    requires positions == Visited(knots.Length, steps)
    modifies knots
    ensures knots[..] == Rope(knots.Length, steps + Repeat(m.direction, m.amount))
    ensures positions' == Visited(knots.Length, steps + Repeat(m.direction, m.amount))
  {
    positions' := positions;
    assert steps + Repeat(m.direction, 0) == steps;
    for j := 0 to m.amount
      invariant knots[..] == Rope(knots.Length, steps + Repeat(m.direction, j))
      invariant positions' == Visited(knots.Length, steps + Repeat(m.direction, j))
    {
      positions' := StepKnots(knots, positions', m.direction, steps + Repeat(m.direction, j));
      RepeatSnoc(steps, m.direction, j);
    }
  }

  /** part_two: ten knots in a vector that is updated in place. */
  method PartTwo(input: string) returns (r: Option<nat>)
    ensures r == TailVisits(10, input)
  {
    var lines := Lines(input);
    var positions: set<Point> := {};
    var knots := new Point[10](_ => Point(0, 0));
    ghost var motions: seq<Motion> := [];
    assert knots[..] == Start(10);
    for i := 0 to |lines|
      invariant ParseMotions(lines[..i]) == Some(motions)
      invariant knots[..] == Rope(10, Steps(motions))
      invariant positions == Visited(10, Steps(motions))
    {
      var m := ParseLine(lines[i]);
      if m.None? {
        ParseFails(lines, i);
        return None;
      }
      ParsePrefix(lines, i, motions, m.value);
      StepsSnoc(motions, m.value);
      positions := MotionKnots(knots, positions, m.value, Steps(motions));
      motions := motions + [m.value];
    }
    assert lines[..|lines|] == lines;
    r := Some(|positions|);
  }

  /** Two words with one space between them split into those words. */
  lemma SplitWords(a: string, b: string)
    requires ' ' !in a && ' ' !in b
    ensures Split(a + " " + b, ' ') == [a, b]
  {
    var s := a + " " + b;
    assert IndexOf(s, ' ') == |a| by {
      assert s[|a|] == ' ';
      assert forall i :: 0 <= i < |a| ==> s[i] == a[i];
      IndexOfFirst(s, |a|);
    }
    assert s[..|a|] == a && s[|a| + 1..] == b;
    assert IndexOf(b, ' ') == |b| by { IndexOfNone(b); }
  }

  lemma IndexOfFirst(s: string, k: nat)
    requires k < |s| && s[k] == ' ' && forall i :: 0 <= i < k ==> s[i] != ' '
    ensures IndexOf(s, ' ') == k
  {
  }

  lemma IndexOfNone(s: string)
    requires ' ' !in s
    ensures IndexOf(s, ' ') == |s|
  {
  }

  /** A line of two words is read word by word. */
  lemma ParseWords(word: string, amount: string)
    requires ' ' !in word && ' ' !in amount
    ensures ParseLine(word + " " + amount) ==
      if ParseUnsigned(amount, 0x1_0000_0000).None? || DirectionOf(word).None? then None
      else Some(Motion(DirectionOf(word).value, ParseUnsigned(amount, 0x1_0000_0000).value))
  {
    SplitWords(word, amount);
  }

  /** The first motions of the puzzle's example, "R 4" and "U 4". */
  lemma ParseExample()
    ensures ParseLine("R 4") == Some(Motion(Point(1, 0), 4))
    ensures ParseLine("U 4") == Some(Motion(Point(0, -1), 4))
  {
    assert ParseUnsigned("4", 0x1_0000_0000) == Some(4) by {
      assert AllDigits("4") && DigitsValue("4") == 4;
    }
    ParseWords("R", "4");
    assert "R" + " " + "4" == "R 4";
    ParseWords("U", "4");
    assert "U" + " " + "4" == "U 4";
  }

  /** An unknown direction, a missing amount and a negative amount panic. */
  lemma ParseRejects()
    ensures ParseLine("X 4") == None && ParseLine("R") == None && ParseLine("R -1") == None
  {
    ParseWords("X", "4");
    assert "X" + " " + "4" == "X 4";
    ParseWords("R", "-1");
    assert "R" + " " + "-1" == "R -1";
    assert ParseUnsigned("-1", 0x1_0000_0000) == None by {
      assert !AllDigits("-1");
    }
    IndexOfNone("R");
  }

  /** A knot diagonal to its leader stays. */
  lemma FollowTouchingExample()
    ensures Follow(Point(1, 1), Point(0, 0)) == Point(0, 0)
  {
    assert Chebyshev(Point(1, 1), Point(0, 0)) == 1;
  }

  /** A knot two behind and one aside is pulled diagonally. */
  lemma FollowDiagonalExample()
    ensures Follow(Point(2, -1), Point(0, 0)) == Point(1, -1)
  {
    assert Chebyshev(Point(2, -1), Point(0, 0)) == 2;
  }
}
