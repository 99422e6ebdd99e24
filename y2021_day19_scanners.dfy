/** Beacon scanner of 2021 day 19: every scanner reports beacons in its
    own orientation, one of the 24 rotations of space. A scanner is placed
    against another one by trying every rotation and every translation
    that lays one of its beacons on one of the other's, and keeping the
    first whose overlap is exactly 12 beacons. */
module BeaconScanner {
  import opened Prelude

  datatype Vector3 = Vector3(x: int, y: int, z: int)

  function Add(a: Vector3, b: Vector3): Vector3
  {
    Vector3(a.x + b.x, a.y + b.y, a.z + b.z)
  }

  function Sub(a: Vector3, b: Vector3): Vector3
  {
    Vector3(a.x - b.x, a.y - b.y, a.z - b.z)
  }

  /** Subtracting and then adding a vector back restores the first, both
      ways round: the translation between two beacons is recovered. */
  lemma SubAdd(a: Vector3, b: Vector3)
    ensures Add(Sub(a, b), b) == a
    ensures Sub(Add(a, b), b) == a
  {
  }

  /** A quarter turn about the x axis. */
  function Roll(v: Vector3): Vector3
  {
    Vector3(v.x, v.z, -v.y)
  }

  /** A quarter turn about the z axis. */
  function Turn(v: Vector3): Vector3
  {
    Vector3(-v.y, v.x, v.z)
  }

  /** The absolute values of the coordinates, as a multiset. */
  function Magnitudes(v: Vector3): multiset<nat>
  {
    multiset{Abs(v.x), Abs(v.y), Abs(v.z)}
  }

  function Norm(v: Vector3): nat
  {
    Abs(v.x) + Abs(v.y) + Abs(v.z)
  }

  /** roll permutes the coordinates up to sign, so it keeps the norm
      |x| + |y| + |z|, and four rolls give the vector back. */
  lemma RollPermutes(v: Vector3)
    ensures Magnitudes(Roll(v)) == Magnitudes(v) && Norm(Roll(v)) == Norm(v)
    ensures Roll(Roll(Roll(Roll(v)))) == v
  {
    assert Abs(-v.y) == Abs(v.y);
    assert Magnitudes(Roll(v)) == multiset{Abs(v.x), Abs(v.z), Abs(v.y)};
  }

  /** turn permutes the coordinates up to sign, so it keeps the norm, and
      four turns give the vector back. */
  lemma TurnPermutes(v: Vector3)
    ensures Magnitudes(Turn(v)) == Magnitudes(v) && Norm(Turn(v)) == Norm(v)
    ensures Turn(Turn(Turn(Turn(v)))) == v
  {
    assert Abs(-v.y) == Abs(v.y);
    assert Magnitudes(Turn(v)) == multiset{Abs(v.y), Abs(v.x), Abs(v.z)};
  }

  // A rotation that permutes the coordinates up to sign is a signed
  // permutation matrix: each row picks one coordinate, perhaps negated.

  datatype Axis = X | Y | Z
  datatype Entry = Pos(axis: Axis) | Neg(axis: Axis)
  datatype Matrix = Matrix(r0: Entry, r1: Entry, r2: Entry)

  function Coord(v: Vector3, a: Axis): int
  {
    match a
    case X => v.x
    case Y => v.y
    case Z => v.z
  }

  function Pick(v: Vector3, e: Entry): int
  {
    match e
    case Pos(a) => Coord(v, a)
    case Neg(a) => -Coord(v, a)
  }

  function Apply(m: Matrix, v: Vector3): Vector3
  {
    Vector3(Pick(v, m.r0), Pick(v, m.r1), Pick(v, m.r2))
  }

  function Negated(e: Entry): Entry
  {
    match e
    case Pos(a) => Neg(a)
    case Neg(a) => Pos(a)
  }

  /** The matrices of a roll and a turn after m. */
  function RollAfter(m: Matrix): Matrix
  {
    Matrix(m.r0, m.r2, Negated(m.r1))
  }

  function TurnAfter(m: Matrix): Matrix
  {
    Matrix(Negated(m.r1), m.r0, m.r2)
  }

  /** Rolling or turning the image of v is applying the composed matrix. */
  lemma ApplyRollTurn(m: Matrix, v: Vector3)
    ensures Roll(Apply(m, v)) == Apply(RollAfter(m), v)
    ensures Turn(Apply(m, v)) == Apply(TurnAfter(m), v)
  {
    match m.r1
    case Pos(a) =>
    case Neg(a) =>
  }

  const Identity := Matrix(Pos(X), Pos(Y), Pos(Z))

  /** The 24 rotations in the order rotations lists them. */
  const Table: seq<Matrix> := [
    Matrix(Pos(X), Pos(Z), Neg(Y)), Matrix(Neg(Z), Pos(X), Neg(Y)),
    Matrix(Neg(X), Neg(Z), Neg(Y)), Matrix(Pos(Z), Neg(X), Neg(Y)),
    Matrix(Pos(Z), Neg(Y), Pos(X)), Matrix(Pos(Y), Pos(Z), Pos(X)),
    Matrix(Neg(Z), Pos(Y), Pos(X)), Matrix(Neg(Y), Neg(Z), Pos(X)),
    Matrix(Neg(Y), Pos(X), Pos(Z)), Matrix(Neg(X), Neg(Y), Pos(Z)),
    Matrix(Pos(Y), Neg(X), Pos(Z)), Matrix(Pos(X), Pos(Y), Pos(Z)),
    Matrix(Neg(Z), Neg(X), Pos(Y)), Matrix(Pos(X), Neg(Z), Pos(Y)),
    Matrix(Pos(Z), Pos(X), Pos(Y)), Matrix(Neg(X), Pos(Z), Pos(Y)),
    Matrix(Neg(X), Pos(Y), Neg(Z)), Matrix(Neg(Y), Neg(X), Neg(Z)),
    Matrix(Pos(X), Neg(Y), Neg(Z)), Matrix(Pos(Y), Pos(X), Neg(Z)),
    Matrix(Pos(Y), Neg(Z), Neg(X)), Matrix(Pos(Z), Pos(Y), Neg(X)),
    Matrix(Neg(Y), Pos(Z), Neg(X)), Matrix(Neg(Z), Neg(Y), Neg(X))]

  function Rotations(v: Vector3): (r: seq<Vector3>)
    ensures |r| == 24
  {
    seq(24, k requires 0 <= k < 24 => Apply(Table[k], v))
  }

  /** Within a group of four the table turns from one entry to the next. */
  lemma TableTurns(m: nat)
    requires 0 < m < 24 && m != 4 && m != 8 && m != 12 && m != 16 && m != 20
    ensures Table[m] == TurnAfter(Table[m - 1])
  {
    if m < 12 {
      assert m == 1 || m == 2 || m == 3 || m == 5 || m == 6 || m == 7 || m == 9 || m == 10 || m == 11;
    } else {
      assert m == 13 || m == 14 || m == 15 || m == 17 || m == 18 || m == 19 || m == 21 || m == 22 || m == 23;
    }
  }

  /** The second and third groups of a cycle start with a roll after the
      group before them. */
  lemma TableRolls(m: nat)
    requires m == 4 || m == 8 || m == 16 || m == 20
    ensures Table[m] == RollAfter(Table[m - 1])
  {
  }

  /** The first cycle starts with a roll of the identity; it ends on the
      identity, and the second cycle starts with a roll after a roll, a
      turn and a roll of it. */
  lemma TableCycles()
    ensures Table[0] == RollAfter(Identity)
    ensures Table[11] == Identity
    ensures Table[12] == RollAfter(RollAfter(TurnAfter(RollAfter(Identity))))
  {
  }

  /** The three turns after a roll in rotations, each appended. */
  method TurnThree(v: Vector3, vector: Vector3, ghost m: nat) returns (turned: seq<Vector3>)
    requires m == 0 || m == 4 || m == 8 || m == 12 || m == 16 || m == 20
    requires vector == Apply(Table[m], v)
    ensures |turned| == 3
    ensures turned[0] == Apply(Table[m + 1], v)
    ensures turned[1] == Apply(Table[m + 2], v)
    ensures turned[2] == Apply(Table[m + 3], v)
  {
    turned := [];
    var w := vector;
    for i := 0 to 3
      invariant |turned| == i
      invariant w == Apply(Table[m + i], v)
      invariant i > 0 ==> turned[0] == Apply(Table[m + 1], v)
      invariant i > 1 ==> turned[1] == Apply(Table[m + 2], v)
      invariant i > 0 ==> turned[i - 1] == w
    {
      TableTurns(m + i + 1);
      ApplyRollTurn(Table[m + i], v);
      w := Turn(w);
      turned := turned + [w];
    }
  }

  /** rotations: two cycles of three rolls, each roll followed by three
      turns, with a roll, a turn and a roll between the cycles. */
  method RotationsOf(v: Vector3) returns (a: seq<Vector3>)
    ensures a == Rotations(v)
  {
    a := [];
    var vector := v;
    ghost var current := Identity;
    for cycle := 0 to 2
      invariant |a| == 12 * cycle
      invariant a == Rotations(v)[..|a|]
      invariant cycle == 0 ==> current == Identity
      invariant cycle == 1 ==> current == RollAfter(TurnAfter(RollAfter(Identity)))
      invariant vector == Apply(current, v)
    {
      for step := 0 to 3
        invariant |a| == 12 * cycle + 4 * step
        invariant a == Rotations(v)[..|a|]
        invariant step == 0 && cycle == 0 ==> current == Identity
        invariant step == 0 && cycle == 1 ==> current == RollAfter(TurnAfter(RollAfter(Identity)))
        invariant step > 0 ==> current == Table[|a| - 1]
        invariant vector == Apply(current, v)
      {
        ghost var m := |a|;
        if step > 0 {
          TableRolls(m);
        } else {
          TableCycles();
        }
        ApplyRollTurn(current, v);
        vector := Roll(vector);
        var turned := TurnThree(v, vector, m);
        a := a + [vector] + turned;
        vector := turned[2];
        current := Table[m + 3];
        GroupNext(v, m, a);
      }
      TableCycles();
      ApplyRollTurn(current, v);
      ApplyRollTurn(RollAfter(current), v);
      ApplyRollTurn(TurnAfter(RollAfter(current)), v);
      vector := Roll(Turn(Roll(vector)));
      current := RollAfter(TurnAfter(RollAfter(current)));
    }
  }

  /** Appending a group of four entries extends the prefix by four. */
  lemma GroupNext(v: Vector3, m: nat, a: seq<Vector3>)
    requires m + 4 <= 24 && |a| == m + 4
    requires a[..m] == Rotations(v)[..m]
    requires forall i :: m <= i < m + 4 ==> a[i] == Apply(Table[i], v)
    ensures a == Rotations(v)[..m + 4]
  {
  }

  /** Every matrix acts linearly: it maps sums to sums and differences to
      differences. */
  lemma ApplyLinear(m: Matrix, u: Vector3, w: Vector3)
    ensures Apply(m, Add(u, w)) == Add(Apply(m, u), Apply(m, w))
    ensures Apply(m, Sub(u, w)) == Sub(Apply(m, u), Apply(m, w))
  {
    PickLinear(u, w, m.r0);
    PickLinear(u, w, m.r1);
    PickLinear(u, w, m.r2);
  }

  lemma PickLinear(u: Vector3, w: Vector3, e: Entry)
    ensures Pick(Add(u, w), e) == Pick(u, e) + Pick(w, e)
    ensures Pick(Sub(u, w), e) == Pick(u, e) - Pick(w, e)
  {
  }

  /** The rows pick three different coordinates. */
  predicate Permutes(m: Matrix)
  {
    m.r0.axis != m.r1.axis && m.r1.axis != m.r2.axis && m.r0.axis != m.r2.axis
  }

  /** The rows pick x, y and z in a cyclic order. */
  predicate EvenPermutation(m: Matrix)
  {
    (m.r0.axis, m.r1.axis, m.r2.axis) in {(X, Y, Z), (Y, Z, X), (Z, X, Y)}
  }

  function Negations(m: Matrix): nat
  {
    (if m.r0.Neg? then 1 else 0) + (if m.r1.Neg? then 1 else 0) + (if m.r2.Neg? then 1 else 0)
  }

  /** A signed permutation matrix is orthogonal, and its determinant is
      the sign of the permutation times the product of the signs: it is a
      proper rotation when both are even or both are odd. */
  predicate Proper(m: Matrix)
  {
    Permutes(m) && (EvenPermutation(m) <==> Negations(m) % 2 == 0)
  }

  /** Every entry of the table is a proper rotation. */
  lemma TableProper(k: nat)
    requires k < 24
    ensures Proper(Table[k])
  {
  }

  /** No two entries of the table are the same. */
  lemma TableDistinct()
    ensures forall j, k :: 0 <= j < k < 24 ==> Table[j] != Table[k]
  {
  }

  /** The table holds every proper rotation that permutes the coordinates
      up to sign: with its 24 entries different, rotations lists all of
      them. */
  lemma TableComplete(m: Matrix)
    requires Proper(m)
    ensures m in Table
  {
  }

  lemma PickAbs(v: Vector3, e: Entry)
    ensures Abs(Pick(v, e)) == Abs(Coord(v, e.axis))
  {
  }

  /** A matrix that permutes the coordinates keeps the norm. */
  lemma ApplyNorm(m: Matrix, v: Vector3)
    requires Permutes(m)
    ensures Norm(Apply(m, v)) == Norm(v)
  {
    PickAbs(v, m.r0);
    PickAbs(v, m.r1);
    PickAbs(v, m.r2);
    AxesNorm(v, m.r0.axis, m.r1.axis, m.r2.axis);
  }

  lemma AxesNorm(v: Vector3, a0: Axis, a1: Axis, a2: Axis)
    requires a0 != a1 && a1 != a2 && a0 != a2
    ensures Abs(Coord(v, a0)) + Abs(Coord(v, a1)) + Abs(Coord(v, a2)) == Norm(v)
  {
    match a0
    case X => if a1 == Y { assert a2 == Z; } else { assert a2 == Y; }
    case Y => if a1 == X { assert a2 == Z; } else { assert a2 == X; }
    case Z => if a1 == X { assert a2 == Y; } else { assert a2 == X; }
  }

  function SetOf(s: seq<Vector3>): set<Vector3>
  {
    set w | w in s
  }

  /** The beacons of a that b's beacons land on after moving back by the
      relation. */
  function Overlap(a: set<Vector3>, b: seq<Vector3>, relation: Vector3): set<Vector3>
  {
    a * (set v | v in b :: Sub(v, relation))
  }

  /** A beacon overlaps exactly when it is in a and moving it by the
      relation lands on a beacon of b. */
  lemma OverlapMembers(a: set<Vector3>, b: seq<Vector3>, relation: Vector3, w: Vector3)
    ensures w in Overlap(a, b, relation) <==> w in a && Add(w, relation) in b
  {
    if w in a && Add(w, relation) in b {
      SubAdd(w, relation);
    }
  }

  /** The relation that places b's j-th beacon on the i-th beacon of a's
      set, in the order the set yields them. */
  function Relation(b: seq<Vector3>, order: seq<Vector3>, i: nat, j: nat): Vector3
    requires i < |order| && j < |b|
  {
    Sub(b[j], order[i])
  }

  /** find_coordinate_overlap: the first relation, with a's set in the
      outer loop and b in the inner one, whose overlap has exactly n
      beacons; None when there is none. order is the order in which the
      set of a's beacons yields them. */
  method FindCoordinateOverlap(a: seq<Vector3>, b: seq<Vector3>, n: int, order: seq<Vector3>) returns (r: Option<Vector3>)
    requires forall w :: w in order <==> w in a
    ensures r.Some? ==> exists i, j :: (0 <= i < |order| && 0 <= j < |b| && r.value == Relation(b, order, i, j) &&
      |Overlap(SetOf(a), b, r.value)| == n &&
      forall i', j' :: (0 <= i' < |order| && 0 <= j' < |b| && (i' < i || (i' == i && j' < j)) ==>
        |Overlap(SetOf(a), b, Relation(b, order, i', j'))| != n))
    ensures r.None? ==> forall wa, wb :: wa in a && wb in b ==> |Overlap(SetOf(a), b, Sub(wb, wa))| != n
  {
    var coordinates := SetOf(a);
    for i := 0 to |order|
      invariant forall i', j' :: 0 <= i' < i && 0 <= j' < |b| ==> |Overlap(coordinates, b, Relation(b, order, i', j'))| != n
    {
      for j := 0 to |b|
        invariant forall i', j' :: (0 <= i' < |order| && 0 <= j' < |b| && (i' < i || (i' == i && j' < j)) ==>
          |Overlap(coordinates, b, Relation(b, order, i', j'))| != n)
      {
        var relation := Sub(b[j], order[i]);
        var overlap := coordinates * (set v | v in b :: Sub(v, relation));
        if |overlap| == n {
          assert relation == Relation(b, order, i, j);
          return Some(relation);
        }
      }
    }
    forall wa, wb | wa in a && wb in b
      ensures |Overlap(coordinates, b, Sub(wb, wa))| != n
    {
      var i :| 0 <= i < |order| && order[i] == wa;
      var j :| 0 <= j < |b| && b[j] == wb;
      assert Sub(wb, wa) == Relation(b, order, i, j);
    }
    return None;
  }

  /** Whether some pair of beacons of a and b lays b on a with an overlap
      of exactly n. */
  predicate Overlaps(a: seq<Vector3>, b: seq<Vector3>, n: int)
  {
    exists wa, wb :: wa in a && wb in b && |Overlap(SetOf(a), b, Sub(wb, wa))| == n
  }

  /** find_scanner_overlap: the first rotation of scanner b whose beacons
      overlap 12 of scanner a's in its placed rotation, with the relation
      found for it; None when no rotation does. */
  method FindScannerOverlap(scannerA: seq<seq<Vector3>>, rotationA: nat, scannerB: seq<seq<Vector3>>,
    order: seq<Vector3>) returns (r: Option<(Vector3, nat)>)
    requires rotationA < |scannerA|
    requires forall w :: w in order <==> w in scannerA[rotationA]
    ensures r.Some? ==> r.value.1 < |scannerB|
    ensures r.Some? ==> |Overlap(SetOf(scannerA[rotationA]), scannerB[r.value.1], r.value.0)| == 12
    ensures r.Some? ==> forall k :: 0 <= k < r.value.1 ==> !Overlaps(scannerA[rotationA], scannerB[k], 12)
    ensures r.None? ==> forall k :: 0 <= k < |scannerB| ==> !Overlaps(scannerA[rotationA], scannerB[k], 12)
  {
    for rotation := 0 to |scannerB|
      invariant forall k :: 0 <= k < rotation ==> !Overlaps(scannerA[rotationA], scannerB[k], 12)
    {
      var relation := FindCoordinateOverlap(scannerA[rotationA], scannerB[rotation], 12, order);
      if relation.Some? {
        return Some((relation.value, rotation));
      }
    }
    return None;
  }

  /** The Manhattan distance: the sum of the absolute differences of the
      coordinates. */
  function Manhattan(a: Vector3, b: Vector3): (r: nat)
    ensures r == Norm(Sub(a, b))
  {
    Abs(a.x - b.x) + Abs(a.y - b.y) + Abs(a.z - b.z)
  }

  /** The distance does not depend on the order of the two points. */
  lemma ManhattanSymmetric(a: Vector3, b: Vector3)
    ensures Manhattan(a, b) == Manhattan(b, a)
  {
  }

  /** A common rotation of both points keeps their distance: the distances
      between scanners do not depend on the orientation they are seen in. */
  lemma ManhattanRotated(m: Matrix, a: Vector3, b: Vector3)
    requires Permutes(m)
    ensures Manhattan(Apply(m, a), Apply(m, b)) == Manhattan(a, b)
  {
    ApplyNorm(m, Sub(a, b));
    ApplyLinear(m, a, b);
  }

  /** Some ordered pair of different entries is d apart. */
  predicate Attained(placements: seq<Vector3>, d: nat)
  {
    exists i, j :: 0 <= i < |placements| && 0 <= j < |placements| && i != j && Manhattan(placements[i], placements[j]) == d
  }

  /** Every ordered pair of different entries before (i, j), row by row,
      is at most d apart. */
  predicate BoundsBefore(placements: seq<Vector3>, d: nat, i: int, j: int)
  {
    forall i', j' :: (0 <= i' < |placements| && 0 <= j' < |placements| && i' != j' && (i' < i || (i' == i && j' < j))) ==>
      Manhattan(placements[i'], placements[j']) <= d
  }

  /** The inner loop of part_two over the partners of entry i. */
  method RowMax(placements: seq<Vector3>, i: nat, r: Option<nat>) returns (best: Option<nat>)
    requires i < |placements|
    requires r.None? <==> i == 0
    requires r.Some? ==> Attained(placements, r.value) && BoundsBefore(placements, r.value, i, 0)
    ensures best.None? <==> |placements| < 2
    ensures best.Some? ==> Attained(placements, best.value) && BoundsBefore(placements, best.value, i + 1, 0)
  {
    best := r;
    for j := 0 to |placements|
      invariant best.None? <==> (i == 0 && j <= 1)
      invariant best.Some? ==> Attained(placements, best.value) && BoundsBefore(placements, best.value, i, j)
    {
      if i != j {
        var d := Manhattan(placements[i], placements[j]);
        if best.None? || d > best.value {
          best := Some(d);
        }
      }
    }
    assert best.Some? ==> BoundsBefore(placements, best.value, i + 1, 0);
  }

  /** part_two: the largest Manhattan distance between two placements,
      taken over the ordered pairs of different entries; with fewer than
      two placements max has nothing to take and there is no answer. */
  method PartTwo(placements: seq<Vector3>) returns (r: Option<nat>)
    ensures r.None? <==> |placements| < 2
    ensures r.Some? ==> Attained(placements, r.value)
    ensures r.Some? ==> forall i, j :: 0 <= i < |placements| && 0 <= j < |placements| && i != j ==>
      Manhattan(placements[i], placements[j]) <= r.value
  {
    r := None;
    for i := 0 to |placements|
      invariant r.None? <==> (i == 0 || |placements| < 2)
      invariant r.Some? ==> Attained(placements, r.value) && BoundsBefore(placements, r.value, i, 0)
    {
      r := RowMax(placements, i, r);
    }
    assert r.Some? ==> BoundsBefore(placements, r.value, |placements|, 0);
  }
}
