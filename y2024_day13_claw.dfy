/**
  Claw Contraption (2024, day 13).  A machine has two buttons that move
  the claw by fixed offsets and a prize at some position; Machine::solve
  finds how often to press each button by Cramer's rule on the 2x2
  system a * A + b * B == prize, and the parts add up 3 tokens per A press
  and 1 per B press over the machines that have a solution.
*/
module ClawContraption {
  import opened Prelude
  import opened Modular

  /** Point2<usize>. */
  datatype Point = Point(x: nat, y: nat)

  datatype Machine = Machine(a: Point, b: Point, prize: Point)

  const UsizeModulus: int := 0x1_0000_0000_0000_0000

  /** Rust's `as usize` on an i64: two's complement, so a negative value wraps. */
  function AsUsize(v: int): (r: nat)
    ensures r < UsizeModulus
    ensures 0 <= v < UsizeModulus ==> r == v
  {
    v % UsizeModulus
  }

  /** The determinant of the button matrix. */
  function Det(m: Machine): int
  {
    m.a.x * m.b.y - m.a.y * m.b.x
  }

  /** Cramer's numerators for the A and the B presses. */
  function CoefficientA(m: Machine): int
  {
    m.prize.x * m.b.y - m.prize.y * m.b.x
  }

  function CoefficientB(m: Machine): int
  {
    m.prize.y * m.a.x - m.prize.x * m.a.y
  }

  /** a presses of A and b presses of B land the claw on the prize. */
  predicate Reaches(m: Machine, a: int, b: int)
  {
    a * m.a.x + b * m.b.x == m.prize.x && a * m.a.y + b * m.b.y == m.prize.y
  }

  /** Machine::solve. */
  function Solve(m: Machine): (r: Option<Point>)
    ensures Det(m) == 0 ==> r.None?
  {
    var det := Det(m);
    if det == 0 then None
    else if Rem(CoefficientA(m), det) != 0 || Rem(CoefficientB(m), det) != 0 then None
    else Some(Point(AsUsize(TruncDiv(CoefficientA(m), det)), AsUsize(TruncDiv(CoefficientB(m), det))))
  }

  lemma CramerA(m: Machine, a: int, b: int)
    requires Reaches(m, a, b)
    ensures CoefficientA(m) == Det(m) * a
  {
    assert CoefficientA(m) == (a * m.a.x + b * m.b.x) * m.b.y - (a * m.a.y + b * m.b.y) * m.b.x;
  }

  lemma CramerB(m: Machine, a: int, b: int)
    requires Reaches(m, a, b)
    ensures CoefficientB(m) == Det(m) * b
  {
    assert CoefficientB(m) == (a * m.a.y + b * m.b.y) * m.a.x - (a * m.a.x + b * m.b.x) * m.a.y;
  }

  /** The quotients of Cramer's numerators solve the system. */
  lemma CramerSolves(m: Machine, a: int, b: int)
    requires Det(m) != 0 && CoefficientA(m) == Det(m) * a && CoefficientB(m) == Det(m) * b
    ensures Reaches(m, a, b)
  {
    var d := Det(m);
    var (a1, a2, b1, b2, p1, p2) := (m.a.x, m.a.y, m.b.x, m.b.y, m.prize.x, m.prize.y);
    Scale(d, a, b, a1, b1);
    Scale(d, a, b, a2, b2);
    CramerIdentity(a1, a2, b1, b2, p1, p2);
    Cancel(d, a * a1 + b * b1, p1);
    Cancel(d, a * a2 + b * b2, p2);
  }

  lemma Scale(d: int, a: int, b: int, u: int, v: int)
    ensures (d * a) * u + (d * b) * v == d * (a * u + b * v)
  {
  }

  /** Recombining Cramer's numerators with the button offsets gives the prize times the determinant. */
  lemma CramerIdentity(a1: int, a2: int, b1: int, b2: int, p1: int, p2: int)
    ensures (p1 * b2 - p2 * b1) * a1 + (p2 * a1 - p1 * a2) * b1 == (a1 * b2 - a2 * b1) * p1
    ensures (p1 * b2 - p2 * b1) * a2 + (p2 * a1 - p1 * a2) * b2 == (a1 * b2 - a2 * b1) * p2
  {
  }

  lemma Cancel(d: int, u: int, v: int)
    requires d != 0 && d * u == d * v
    ensures u == v
  {
    assert d * (u - v) == 0;
  }

  /** An exact quotient: if x == d * k, Rust's / gives k and % gives 0. */
  lemma ExactQuotient(x: int, d: int, k: int)
    requires d != 0 && x == d * k
    ensures Rem(x, d) == 0 && TruncDiv(x, d) == k
  {
    DividesOf(d, k);
    RemZero(x, d);
    var q := TruncDiv(x, d);
    Cancel(d, q, k);
  }

  /**
    solve is exact for a machine whose determinant is not zero: it answers
    Some exactly when some integer press counts (a, b) reach the prize,
    and then it returns them, cast to usize.
  */
  lemma SolveExact(m: Machine, a: int, b: int)
    requires Det(m) != 0 && Reaches(m, a, b)
    ensures Solve(m) == Some(Point(AsUsize(a), AsUsize(b)))
  {
    CramerA(m, a, b);
    CramerB(m, a, b);
    ExactQuotient(CoefficientA(m), Det(m), a);
    ExactQuotient(CoefficientB(m), Det(m), b);
  }

  /** Whatever solve returns reaches the prize, up to the usize cast of each count. */
  lemma SolveSound(m: Machine)
    requires Solve(m).Some?
    ensures exists a: int, b: int ::
              Reaches(m, a, b) && Solve(m) == Some(Point(AsUsize(a), AsUsize(b)))
  {
    var d := Det(m);
    var a, b := TruncDiv(CoefficientA(m), d), TruncDiv(CoefficientB(m), d);
    CramerSolves(m, a, b);
  }

  /** None for a machine with a non-zero determinant means no integer press counts reach the prize. */
  lemma SolveNone(m: Machine)
    requires Det(m) != 0 && Solve(m).None?
    ensures forall a: int, b: int :: !Reaches(m, a, b)
  {
    forall a: int, b: int
      ensures Reaches(m, a, b) ==> Solve(m).Some?
    {
      if Reaches(m, a, b) {
        SolveExact(m, a, b);
      }
    }
  }

  /**
    Machine::solve as it was evidently meant: only press counts that are
    not negative, otherwise None.
  */
  function SolveCorrected(m: Machine): (r: Option<Point>)
    ensures r.Some? ==> Reaches(m, r.value.x, r.value.y)
    ensures Det(m) != 0 ==> (r.None? <==> forall a: nat, b: nat :: !Reaches(m, a, b))
  {
    var det := Det(m);
    if det == 0 then None
    else if Rem(CoefficientA(m), det) != 0 || Rem(CoefficientB(m), det) != 0 then
      ReachesDivides(m);
      None
    else
      var a, b := TruncDiv(CoefficientA(m), det), TruncDiv(CoefficientB(m), det);
      CramerSolves(m, a, b);
      if a < 0 || b < 0 then
        SolveUnique(m, a, b);
        None
      else Some(Point(a, b))
  }

  /** Cramer's numerators of a reachable prize are multiples of the determinant. */
  lemma ReachesDivides(m: Machine)
    requires Det(m) != 0
    ensures forall a: int, b: int :: Reaches(m, a, b) ==>
      Rem(CoefficientA(m), Det(m)) == 0 && Rem(CoefficientB(m), Det(m)) == 0
  {
    forall a: int, b: int | Reaches(m, a, b)
      ensures Rem(CoefficientA(m), Det(m)) == 0 && Rem(CoefficientB(m), Det(m)) == 0
    {
      CramerA(m, a, b);
      CramerB(m, a, b);
      ExactQuotient(CoefficientA(m), Det(m), a);
      ExactQuotient(CoefficientB(m), Det(m), b);
    }
  }

  /** With a non-zero determinant the solution is unique. */
  lemma SolveUnique(m: Machine, a: int, b: int)
    requires Det(m) != 0 && Reaches(m, a, b)
    ensures forall a': int, b': int :: Reaches(m, a', b') ==> a' == a && b' == b
  {
    forall a': int, b': int | Reaches(m, a', b')
      ensures a' == a && b' == b
    {
      CramerA(m, a, b);
      CramerB(m, a, b);
      CramerA(m, a', b');
      CramerB(m, a', b');
      Cancel(Det(m), a, a');
      Cancel(Det(m), b, b');
    }
  }

  /** When the press counts are not negative, solve and the corrected solve agree. */
  lemma SolveAgrees(m: Machine, a: nat, b: nat)
    requires Det(m) != 0 && Reaches(m, a, b) && a < UsizeModulus && b < UsizeModulus
    ensures Solve(m) == SolveCorrected(m) == Some(Point(a, b))
  {
    SolveExact(m, a, b);
    SolveUnique(m, a, b);
  }

  /** A machine whose only solution presses B -1 times: solve casts it to usize::MAX. */
  lemma SolveNegativeExample()
    ensures Solve(Machine(Point(1, 2), Point(2, 1), Point(0, 3))) == Some(Point(2, UsizeModulus - 1))
    ensures SolveCorrected(Machine(Point(1, 2), Point(2, 1), Point(0, 3))).None?
  {
    var m := Machine(Point(1, 2), Point(2, 1), Point(0, 3));
    assert Reaches(m, 2, -1);
    SolveExact(m, 2, -1);
    SolveUnique(m, 2, -1);
  }

  /** The tokens a solved machine costs: 3 for each A press and 1 for each B press. */
  function Cost(p: Point): nat
  {
    3 * p.x + p.y
  }

  /** The total cost over the machines solve answers Some for. */
  function TotalCost(machines: seq<Machine>): (r: nat)
  {
    if machines == [] then 0
    else
      var rest := TotalCost(machines[..|machines| - 1]);
      match Solve(machines[|machines| - 1])
      case Some(p) => rest + Cost(p)
      case None => rest
  }

  /** Adding one machine adds its cost when solve answers Some. */
  lemma TotalCostSnoc(machines: seq<Machine>, m: Machine)
    ensures TotalCost(machines + [m]) ==
      TotalCost(machines) + (if Solve(m).Some? then Cost(Solve(m).value) else 0)
  {
    assert (machines + [m])[..|machines|] == machines;
  }

  /** part_one's loop. */
  method PartOne(machines: seq<Machine>) returns (total: nat)
    ensures total == TotalCost(machines)
  {
    total := 0;
    for i := 0 to |machines|
      invariant total == TotalCost(machines[..i])
    {
      assert machines[..i + 1][..i] == machines[..i];
      var solution := Solve(machines[i]);
      if solution.Some? {
        total := total + Cost(solution.value);
      }
    }
    assert machines[..|machines|] == machines;
  }

  const PrizeShift: nat := 10000000000000

  /** part_two moves every prize 10000000000000 further along both axes. */
  function Shifted(m: Machine): (r: Machine)
    ensures r.a == m.a && r.b == m.b
    ensures r.prize.x == m.prize.x + PrizeShift && r.prize.y == m.prize.y + PrizeShift
  {
    m.(prize := Point(m.prize.x + PrizeShift, m.prize.y + PrizeShift))
  }

  function ShiftAll(machines: seq<Machine>): (r: seq<Machine>)
    ensures |r| == |machines| && forall i :: 0 <= i < |r| ==> r[i] == Shifted(machines[i])
  {
    seq(|machines|, i requires 0 <= i < |machines| => Shifted(machines[i]))
  }

  /** part_two's loop: shift each prize in place, then add up as part one does. */
  method PartTwo(machines: seq<Machine>) returns (total: nat)
    ensures total == TotalCost(ShiftAll(machines))
  {
    var shifted := machines;
    total := 0;
    for i := 0 to |machines|
      invariant |shifted| == |machines|
      invariant forall j :: 0 <= j < i ==> shifted[j] == Shifted(machines[j])
      invariant forall j :: i <= j < |machines| ==> shifted[j] == machines[j]
      invariant total == TotalCost(shifted[..i])
    {
      shifted := shifted[i := Shifted(shifted[i])];
      assert shifted[..i + 1][..i] == shifted[..i];
      var solution := Solve(shifted[i]);
      if solution.Some? {
        total := total + Cost(solution.value);
      }
    }
    assert shifted == ShiftAll(machines);
    assert shifted[..|machines|] == shifted;
  }

  /** The four machines of the puzzle's worked example. */
  const Example: seq<Machine> := [
    Machine(Point(94, 34), Point(22, 67), Point(8400, 5400)),
    Machine(Point(26, 66), Point(67, 21), Point(12748, 12176)),
    Machine(Point(17, 86), Point(84, 37), Point(7870, 6450)),
    Machine(Point(69, 23), Point(27, 71), Point(18641, 10279))
  ]

  /** test_part_one: 280 tokens for the first machine, 200 for the third, none for the others. */
  lemma PartOneExample()
    ensures TotalCost(Example) == 480
  {
    assert Solve(Example[0]) == Some(Point(80, 40)) by {
      SolveExact(Example[0], 80, 40);
    }
    assert Solve(Example[1]).None?;
    assert Solve(Example[2]) == Some(Point(38, 86)) by {
      SolveExact(Example[2], 38, 86);
    }
    assert Solve(Example[3]).None?;
    TotalCostSnoc(Example[..0], Example[0]);
    assert Example[..0] + [Example[0]] == Example[..1];
    TotalCostSnoc(Example[..1], Example[1]);
    assert Example[..1] + [Example[1]] == Example[..2];
    TotalCostSnoc(Example[..2], Example[2]);
    assert Example[..2] + [Example[2]] == Example[..3];
    TotalCostSnoc(Example[..3], Example[3]);
    assert Example[..3] + [Example[3]] == Example;
  }

  /** test_part_two: with the prizes moved, the second and fourth machines are the solvable ones. */
  lemma PartTwoExample()
    ensures TotalCost(ShiftAll(Example)) == 875318608908
  {
    var s := ShiftAll(Example);
    assert Solve(s[0]).None?;
    assert Solve(s[1]) == Some(Point(118679050709, 103199174542)) by {
      SolveExact(s[1], 118679050709, 103199174542);
    }
    assert Solve(s[2]).None?;
    assert Solve(s[3]) == Some(Point(102851800151, 107526881786)) by {
      SolveExact(s[3], 102851800151, 107526881786);
    }
    TotalCostSnoc(s[..0], s[0]);
    assert s[..0] + [s[0]] == s[..1];
    TotalCostSnoc(s[..1], s[1]);
    assert s[..1] + [s[1]] == s[..2];
    TotalCostSnoc(s[..2], s[2]);
    assert s[..2] + [s[2]] == s[..3];
    TotalCostSnoc(s[..3], s[3]);
    assert s[..3] + [s[3]] == s;
  }
}
