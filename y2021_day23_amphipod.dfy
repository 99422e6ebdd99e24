/** Amphipods of 2021 day 23. A burrow is a row of positions: the hallway
    cells and, at every even position strictly inside the row, a room that
    holds a stack of amphipods, its first element nearest the hallway. An
    amphipod leaves its room for a hallway cell, or goes from anywhere
    straight into its own room once only its own kind is in there, and never
    passes an occupied hallway cell. */
module Amphipod {
  import opened Prelude

  /** The four kinds of amphipod, as the letters the source uses. */
  type Pod = c: char | c == 'A' || c == 'B' || c == 'C' || c == 'D' witness 'A'

  /** One burrow: what every position holds, and the depth of the rooms. */
  datatype State = State(positions: seq<seq<Pod>>, depth: int)

  function Width(s: State): nat
  {
    |s.positions|
  }

  /** The even positions other than both ends of the row are rooms. */
  predicate IsRoom(s: State, x: int)
  {
    x % 2 == 0 && x != 0 && x != Width(s) - 1
  }

  /** A hallway cell with an amphipod on it; rooms never count. */
  predicate IsOccupied(s: State, x: nat)
    requires x < Width(s)
  {
    if IsRoom(s, x) then false else |s.positions[x]| > 0
  }

  /** The room of each kind, from its letter: A, B, C and D live in rooms
      2, 4, 6 and 8. */
  function TargetRoom(pod: Pod): (r: nat)
    ensures pod == 'A' ==> r == 2
    ensures pod == 'B' ==> r == 4
    ensures pod == 'C' ==> r == 6
    ensures pod == 'D' ==> r == 8
  {
    ((pod as int) - ('A' as int) + 1) * 2
  }

  /** Different kinds have different rooms. */
  lemma TargetRoomInjective(p: Pod, q: Pod)
    ensures TargetRoom(p) == TargetRoom(q) <==> p == q
  {
  }

  /** In a row of eleven, the rooms are exactly positions 2, 4, 6 and 8, so
      every kind's room is a room. */
  lemma StandardRooms(s: State, pod: Pod)
    requires Width(s) == 11
    ensures forall x :: 0 <= x < 11 ==> (IsRoom(s, x) <==> (x == 2 || x == 4 || x == 6 || x == 8))
    ensures IsRoom(s, TargetRoom(pod))
  {
  }

  /** The energy one step of each kind costs. */
  function Cost(pod: Pod): nat
  {
    if pod == 'A' then 1 else if pod == 'B' then 10 else if pod == 'C' then 100 else 1000
  }

  /** The energy moving the first amphipod at start to end costs: the
      cells along the hallway, the steps out of a room down to where it
      stands, and the steps into a room down to the first free place, each
      at its kind's price. None where the source fails on an index: start
      outside the row or empty, or end a room outside the row. */
  function MoveCost(s: State, start: nat, end: nat): (r: Option<int>)
    ensures r.None? <==> start >= Width(s) || |s.positions[start]| == 0 || (IsRoom(s, end) && end >= Width(s))
    ensures r.Some? && !IsRoom(s, start) && !IsRoom(s, end) ==>
      r.value == Abs(end - start) * Cost(s.positions[start][0])
  {
    if start >= Width(s) || |s.positions[start]| == 0 || (IsRoom(s, end) && end >= Width(s)) then None
    else
      var out := if IsRoom(s, start) then s.depth - |s.positions[start]| + 1 else 0;
      var into := if IsRoom(s, end) then s.depth - |s.positions[end]| else 0;
      Some((Abs(end - start) + out + into) * Cost(s.positions[start][0]))
  }

  /** The burrow of the first example of move_cost: two B in room 6. */
  const CostExample1 := State([[], [], [], [], [], [], ['B', 'B'], [], [], [], []], 2)
  /** A D in the left end of the hallway, every room empty. */
  const CostExample2 := State([['D'], [], [], [], [], [], [], [], [], [], []], 2)
  /** The unfolded start of the puzzle example, rooms four deep. */
  const Unfolded := State([[], [], ['B', 'D', 'D', 'A'], [], ['C', 'C', 'B', 'D'], [],
    ['B', 'B', 'A', 'C'], [], ['D', 'A', 'C', 'A'], [], []], 4)

  /** The start of the puzzle example, rooms two deep. */
  const Start := State([[], [], ['B', 'A'], [], ['C', 'D'], [], ['B', 'C'], [], ['D', 'A'], [], []], 2)

  /** The three costs move_cost documents. */
  lemma MoveCostExamples()
    ensures MoveCost(CostExample1, 6, 3) == Some(40)
    ensures MoveCost(CostExample2, 0, 8) == Some(10000)
    ensures MoveCost(Unfolded, 8, 10) == Some(3000)
  {
  }

  /** The amphipods of a burrow, wherever they are. */
  function Pods(positions: seq<seq<Pod>>): multiset<Pod>
  {
    if |positions| == 0 then multiset{} else multiset(positions[0]) + Pods(positions[1..])
  }

  /** Replacing what one position holds replaces its amphipods in the whole. */
  lemma {:induction false} PodsUpdate(positions: seq<seq<Pod>>, i: nat, v: seq<Pod>)
    requires i < |positions|
    ensures Pods(positions[i := v]) + multiset(positions[i]) == Pods(positions) + multiset(v)
  {
    var u := positions[i := v];
    if i > 0 {
      PodsUpdate(positions[1..], i - 1, v);
      assert u[1..] == positions[1..][i - 1 := v];
      assert u[0] == positions[0];
      calc {
        Pods(u) + multiset(positions[i]);
        multiset(positions[0]) + Pods(u[1..]) + multiset(positions[1..][i - 1]);
        multiset(positions[0]) + (Pods(positions[1..]) + multiset(v));
        Pods(positions) + multiset(v);
      }
    } else {
      assert u[1..] == positions[1..];
    }
  }

  lemma MultisetCancel(a: multiset<Pod>, b: multiset<Pod>, m: multiset<Pod>)
    requires a + m == b + m
    ensures a == b
  {
    assert forall p :: a[p] == (a + m)[p] - m[p];
    assert forall p :: b[p] == (b + m)[p] - m[p];
  }

  /** The first amphipod at from_idx becomes the first one at to_idx, and
      the move's cost comes along. None where the source fails on an index:
      the cost fails, or to_idx is outside the row. */
  function MovePod(s: State, from: nat, to: nat): (r: Option<(int, State)>)
    ensures r.None? <==> MoveCost(s, from, to).None? || to >= Width(s)
    ensures r.Some? ==> r.value.0 == MoveCost(s, from, to).value
    ensures r.Some? ==> r.value.1.depth == s.depth && Width(r.value.1) == Width(s)
    ensures r.Some? && from != to ==>
      && r.value.1.positions[to] == [s.positions[from][0]] + s.positions[to]
      && r.value.1.positions[from] == s.positions[from][1..]
      && forall x :: 0 <= x < Width(s) && x != from && x != to ==> r.value.1.positions[x] == s.positions[x]
    ensures r.Some? && from == to ==> r.value.1 == s
  {
    match MoveCost(s, from, to)
    case None => None
    case Some(cost) =>
      if to >= Width(s) then None
      else
        var pod := s.positions[from][0];
        assert s.positions[from] == [pod] + s.positions[from][1..];
        var positions := s.positions[from := s.positions[from][1..]];
        var positions := positions[to := [pod] + positions[to]];
        assert from == to ==> positions == s.positions;
        Some((cost, State(positions, s.depth)))
  }

  /** Moving keeps every amphipod of the burrow. */
  lemma MovePodKeepsPods(s: State, from: nat, to: nat)
    requires MovePod(s, from, to).Some?
    ensures Pods(MovePod(s, from, to).value.1.positions) == Pods(s.positions)
  {
    if from != to {
      var pod := s.positions[from][0];
      var mid := s.positions[from := s.positions[from][1..]];
      PodsUpdate(s.positions, from, s.positions[from][1..]);
      PodsUpdate(mid, to, [pod] + mid[to]);
      assert s.positions[from] == [pod] + s.positions[from][1..];
      assert MovePod(s, from, to).value.1.positions == mid[to := [pod] + mid[to]];
      assert multiset([pod] + mid[to]) == multiset{pod} + multiset(mid[to]);
      assert multiset(s.positions[from]) == multiset{pod} + multiset(s.positions[from][1..]);
      MultisetCancel(Pods(mid) + multiset{pod}, Pods(s.positions), multiset(s.positions[from][1..]));
      MultisetCancel(Pods(MovePod(s, from, to).value.1.positions), Pods(mid) + multiset{pod}, multiset(mid[to]));
    }
  }

  /** Moving the amphipod back where it came from restores the burrow, and
      costs the same energy as the move out. */
  lemma MovePodBack(s: State, from: nat, to: nat)
    requires MovePod(s, from, to).Some?
    requires from != to
    ensures MovePod(MovePod(s, from, to).value.1, to, from).Some?
    ensures MovePod(MovePod(s, from, to).value.1, to, from).value.1 == s
    ensures MovePod(MovePod(s, from, to).value.1, to, from).value.0 == MovePod(s, from, to).value.0
  {
    var t := MovePod(s, from, to).value.1;
    var back := MovePod(t, to, from).value.1;
    assert s.positions[from] == [s.positions[from][0]] + s.positions[from][1..];
    assert back.positions == s.positions;
  }

  /** The two moves move_pod documents. */
  lemma MovePodExamples()
    ensures MovePod(Start, 6, 3) == Some((40, State([[], [], ['B', 'A'], ['B'], ['C', 'D'], [], ['C'], [],
      ['D', 'A'], [], []], 2)))
    ensures MovePod(Unfolded, 8, 10) == Some((3000, State([[], [], ['B', 'D', 'D', 'A'], [], ['C', 'C', 'B', 'D'], [],
      ['B', 'B', 'A', 'C'], [], ['A', 'C', 'A'], [], ['D']], 4)))
  {
    var first := MovePod(Start, 6, 3).value.1;
    assert first.positions[3] == ['B'] && first.positions[6] == ['C'];
    assert first.positions == [[], [], ['B', 'A'], ['B'], ['C', 'D'], [], ['C'], [], ['D', 'A'], [], []];
    var second := MovePod(Unfolded, 8, 10).value.1;
    assert second.positions[8] == ['A', 'C', 'A'] && second.positions[10] == ['D'];
    assert second.positions == [[], [], ['B', 'D', 'D', 'A'], [], ['C', 'C', 'B', 'D'], [],
      ['B', 'B', 'A', 'C'], [], ['A', 'C', 'A'], [], ['D']];
  }

  /** Every amphipod stands in its own room. */
  ghost predicate AllHome(s: State)
  {
    forall x, i :: 0 <= x < Width(s) && 0 <= i < |s.positions[x]| ==> TargetRoom(s.positions[x][i]) == x
  }

  /** finished: scans every position and every amphipod on it, and stops at
      the first one away from its room. */
  method Finished(s: State) returns (done: bool)
    ensures done <==> AllHome(s)
  {
    for position := 0 to Width(s)
      invariant forall x, i :: 0 <= x < position && 0 <= i < |s.positions[x]| ==> TargetRoom(s.positions[x][i]) == x
    {
      var pods := s.positions[position];
      for i := 0 to |pods|
        invariant forall j :: 0 <= j < i ==> TargetRoom(pods[j]) == position
      {
        if position != TargetRoom(pods[i]) {
          return false;
        }
      }
    }
    return true;
  }

  /** The sorted burrow. */
  const Sorted := State([[], [], ['A', 'A', 'A', 'A'], [], ['B', 'B', 'B', 'B'], [],
    ['C', 'C', 'C', 'C'], [], ['D', 'D', 'D', 'D'], [], []], 4)

  /** The two burrows finished documents: one with amphipods in the wrong
      rooms, one sorted. */
  lemma FinishedExamples()
    ensures !AllHome(State([[], [], ['A', 'A', 'D', 'A'], [], ['B', 'B', 'B', 'D'], [],
      ['C', 'C', 'A', 'C'], [], ['D', 'D', 'C', 'A'], [], []], 4))
    ensures AllHome(Sorted)
  {
    var s := State([[], [], ['A', 'A', 'D', 'A'], [], ['B', 'B', 'B', 'D'], [],
      ['C', 'C', 'A', 'C'], [], ['D', 'D', 'C', 'A'], [], []], 4);
    assert TargetRoom(s.positions[2][2]) != 2;
  }

  /** A position the source can compute moves for: inside the row, with an
      amphipod, whose room is inside the row too. */
  predicate Movable(s: State, position: nat)
  {
    position < Width(s) && |s.positions[position]| > 0 && TargetRoom(s.positions[position][0]) < Width(s)
  }

  /** A room holding nothing but the given kind, so that kind may go in. */
  predicate RoomPossible(s: State, room: nat, pod: Pod)
    requires room < Width(s)
  {
    forall i :: 0 <= i < |s.positions[room]| ==> s.positions[room][i] == pod
  }

  /** y lies strictly between a and b, on either side. */
  predicate Between(a: int, b: int, y: int)
  {
    (a < y < b) || (b < y < a)
  }

  /** No hallway cell strictly between a and b is occupied. */
  predicate PathClear(s: State, a: nat, b: nat)
  {
    forall y :: 0 <= y < Width(s) && Between(a, b, y) ==> !IsOccupied(s, y)
  }

  /** What a hallway scan stops for: its kind's open room, or an empty
      hallway cell. */
  predicate Stop(s: State, room: nat, ok: bool, x: nat)
    requires x < Width(s)
  {
    (x == room && ok) || (!IsRoom(s, x) && |s.positions[x]| == 0)
  }

  /** Where the amphipod at position may go, as the rules say. One already
      at home with only its kind there stays. One whose room is open and
      reachable goes in and nowhere else. One in the hallway goes nowhere
      else. One in a room may stop at every empty hallway cell it can reach,
      and at its room when that is open. */
  ghost predicate Target(s: State, position: nat, x: int)
    requires Movable(s, position)
  {
    var pod := s.positions[position][0];
    var room := TargetRoom(pod);
    var ok := RoomPossible(s, room, pod);
    if position == room && ok then false
    else if ok && PathClear(s, position, room) then x == room
    else if !IsRoom(s, position) then false
    else 0 <= x < Width(s) && x != position && PathClear(s, position, x) && Stop(s, room, ok, x)
  }

  /** The left hallway scan of possible_moves, from position - 1 down to 0. */
  method ScanLeft(s: State, position: nat, room: nat, ok: bool) returns (moves: seq<int>)
    requires position < Width(s)
    ensures forall y :: y in moves <==> 0 <= y < position && PathClear(s, position, y) && Stop(s, room, ok, y)
  {
    moves := [];
    for x := position downto 0
      invariant forall y :: x <= y < position ==> !IsOccupied(s, y)
      invariant forall y :: y in moves <==> x <= y < position && Stop(s, room, ok, y)
    {
      if x == room && ok {
        moves := moves + [x];
      }
      if IsRoom(s, x) {
        continue;
      }
      if IsOccupied(s, x) {
        break;
      }
      moves := moves + [x];
    }
  }

  /** The right hallway scan of possible_moves, from position + 1 to the end. */
  method ScanRight(s: State, position: nat, room: nat, ok: bool) returns (moves: seq<int>)
    requires position < Width(s)
    ensures forall y :: y in moves <==> position < y < Width(s) && PathClear(s, position, y) && Stop(s, room, ok, y)
  {
    moves := [];
    for x := position + 1 to Width(s)
      invariant forall y :: position < y < x ==> !IsOccupied(s, y)
      invariant forall y :: y in moves <==> position < y < x && Stop(s, room, ok, y)
    {
      if x == room && ok {
        moves := moves + [x];
      }
      if IsRoom(s, x) {
        continue;
      }
      if IsOccupied(s, x) {
        break;
      }
      moves := moves + [x];
    }
  }

  /** possible_moves: the positions the amphipod at position may move to,
      in the order the source yields them. None where the source fails on
      an index. */
  method PossibleMoves(s: State, position: nat) returns (r: Option<seq<int>>)
    ensures r.None? <==> !Movable(s, position)
    ensures r.Some? ==> forall x :: x in r.value <==> Target(s, position, x)
  {
    if !Movable(s, position) {
      return None;
    }
    var pod := s.positions[position][0];
    var room := TargetRoom(pod);
    var ok := forall i :: 0 <= i < |s.positions[room]| ==> s.positions[room][i] == pod;
    if position == room && ok {
      return Some([]);
    }
    if ok {
      var step := if room < position then -1 else 1;
      var x: int := position;
      while x != room
        invariant if room < position then room <= x <= position else position <= x <= room
        invariant forall y :: 0 <= y < Width(s) && ((position < y <= x) || (x <= y < position)) ==> !IsOccupied(s, y)
        decreases Abs(room - x)
      {
        x := x + step;
        if IsRoom(s, x) {
          continue;
        }
        if IsOccupied(s, x) {
          break;
        }
      }
      if x == room {
        return Some([x]);
      }
    }
    if position % 2 != 0 || position == 0 || position == Width(s) - 1 {
      return Some([]);
    }
    var left := ScanLeft(s, position, room, ok);
    var right := ScanRight(s, position, room, ok);
    return Some(left + right);
  }

  /** The unfolded start with an A waiting in the hallway at 5. */
  const Waiting := State([[], [], ['B', 'D', 'D', 'A'], [], ['C', 'C', 'B', 'D'], ['A'],
    ['B', 'B', 'A', 'C'], [], ['D', 'A', 'C', 'A'], [], []], 4)

  /** A burrow where the first C of room 4 can go straight home to room 6. */
  const GoingHome := State([[], [], ['B', 'A'], ['B'], ['C', 'D'], [], ['C'], [], ['D', 'A'], [], []], 2)

  /** With the hallway of a row of eleven empty, nothing blocks any path. */
  lemma EmptyHallway(s: State)
    requires Width(s) == 11
    requires forall x :: 0 <= x < 11 && x != 2 && x != 4 && x != 6 && x != 8 ==> |s.positions[x]| == 0
    ensures forall a: nat, b: nat :: PathClear(s, a, b)
  {
  }

  /** An amphipod in the hallway whose room is not open cannot move. */
  lemma CannotMoveInHall()
    ensures Movable(Waiting, 5)
    ensures forall x :: !Target(Waiting, 5, x)
  {
    assert Waiting.positions[2][0] != 'A';
  }

  /** From a room, an amphipod may go to every hallway cell it can reach:
      the D at the top of room 8 of the unfolded start, and the C at the
      top of room 4 of the start. */
  lemma RoomToHall()
    ensures Movable(Unfolded, 8) && Movable(Start, 4)
    ensures forall x :: Target(Unfolded, 8, x) <==> x in {0, 1, 3, 5, 7, 9, 10}
    ensures forall x :: Target(Start, 4, x) <==> x in {0, 1, 3, 5, 7, 9, 10}
  {
    StandardRooms(Unfolded, 'A');
    StandardRooms(Start, 'A');
    EmptyHallway(Unfolded);
    EmptyHallway(Start);
    assert Unfolded.positions[8][1] != 'D';
    assert Start.positions[6][0] != 'C';
  }

  /** An amphipod whose room is open and reachable goes there only. */
  lemma MoveIntoTarget()
    ensures Movable(GoingHome, 4)
    ensures forall x :: Target(GoingHome, 4, x) <==> x == 6
  {
  }

  /** No amphipod passes another in the hallway. */
  lemma CannotPass()
    ensures Movable(Waiting, 8)
    ensures forall x :: Target(Waiting, 8, x) <==> x in {7, 9, 10}
  {
    StandardRooms(Waiting, 'A');
    assert Waiting.positions[8][1] != 'D';
    assert IsOccupied(Waiting, 5);
    forall x | 0 <= x < 5
      ensures !PathClear(Waiting, 8, x)
    {
      assert Between(8, x, 5);
    }
    forall x | 5 < x < 11
      ensures PathClear(Waiting, 8, x)
    {
    }
  }

  /** An amphipod at home with only its kind does not move. */
  lemma DoneStays()
    ensures Movable(Sorted, 8)
    ensures forall x :: !Target(Sorted, 8, x)
  {
  }

  /** An amphipod in the hallway moves only into its own room. */
  lemma HallwayOnlyHome(s: State, position: nat, x: int)
    requires Movable(s, position)
    requires !IsRoom(s, position)
    requires Target(s, position, x)
    ensures x == TargetRoom(s.positions[position][0])
  {
  }

  /** Every move stays inside the row, and leaves the position. */
  lemma TargetInRow(s: State, position: nat, x: int)
    requires Movable(s, position)
    requires Target(s, position, x)
    ensures 0 <= x < Width(s) && x != position
  {
  }

  /** A move that is not into its kind's room ends on an empty hallway cell. */
  lemma TargetIntoHallway(s: State, position: nat, x: int)
    requires Movable(s, position)
    requires Target(s, position, x)
    requires x != TargetRoom(s.positions[position][0])
    ensures !IsRoom(s, x) && |s.positions[x]| == 0
  {
  }

  /** Once every amphipod is home, none of them moves. */
  lemma FinishedNoMoves(s: State, position: nat, x: int)
    requires AllHome(s)
    requires Movable(s, position)
    ensures !Target(s, position, x)
  {
    var pod := s.positions[position][0];
    var room := TargetRoom(pod);
    assert TargetRoom(s.positions[position][0]) == position;
    forall i | 0 <= i < |s.positions[room]|
      ensures s.positions[room][i] == pod
    {
      TargetRoomInjective(s.positions[room][i], pod);
    }
  }
}
