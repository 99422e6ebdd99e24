/** The 3-bit computer of 2024 day 17: three registers, an instruction
    pointer over a program of 3-bit numbers, and an output list.

    The registers are i32 values parsed from digits, so they start
    non-negative; every instruction keeps them non-negative and never widens
    them (XOR, floor division by a power of two and "% 8"), so they are
    modelled as nat. */
module ThreeBitComputer {
  import opened Prelude

  /** Everything the run loop reads and writes besides the program. */
  datatype State = State(a: nat, b: nat, c: nat, ip: nat, output: seq<nat>)

  datatype RunResult = Halted(s: State) | Panicked | OutOfFuel(s: State)

  /** Input::combo_operand: 0-3 are themselves, 4-6 read A, B and C, and
      anything else panics (None). */
  function Combo(s: State, value: nat): (r: Option<nat>)
    ensures value <= 3 ==> r == Some(value)
    ensures value == 4 ==> r == Some(s.a)
    ensures value == 5 ==> r == Some(s.b)
    ensures value == 6 ==> r == Some(s.c)
    ensures value >= 7 ==> r.None?
  {
    if value <= 3 then Some(value)
    else if value == 4 then Some(s.a)
    else if value == 5 then Some(s.b)
    else if value == 6 then Some(s.c)
    else None
  }

  /** Input::literal_operand: 0-7 are themselves, anything else panics. */
  function Literal(value: nat): (r: Option<nat>)
    ensures r.Some? <==> value <= 7
    ensures r.Some? ==> r.value == value
  {
    if value <= 7 then Some(value) else None
  }

  /** Input::div: A divided by 2 to the combo operand, rounded down. The
      denominator is a u64 power of two, so an exponent of 64 or more
      overflows and panics. */
  function Div(s: State, operand: nat): (r: Option<nat>)
    ensures r.Some? <==> Combo(s, operand).Some? && Combo(s, operand).value < 64
    ensures r.Some? ==>
      var d := Pow(2, Combo(s, operand).value);
      d > 0 && r.value * d <= s.a < (r.value + 1) * d
  {
    match Combo(s, operand)
    case None => None
    case Some(k) =>
      if k >= 64 then None
      else
        ShiftMeaning(s.a, k);
        Some(ShiftRight(s.a, k))
  }

  /** One instruction: the eight opcodes adv, bxl, bst, jnz, bxc, out, bdv
      and cdv; any other opcode panics. */
  function Execute(s: State, opcode: nat, operand: nat): (r: Option<State>)
    ensures opcode > 7 ==> r.None?
    ensures r.Some? && opcode != 3 ==> r.value.ip == s.ip + 2
    ensures opcode == 3 ==>
      (r.Some? <==> (s.a != 0 ==> operand <= 7))
      && (r.Some? ==> r.value == s.(ip := if s.a != 0 then operand else s.ip + 2))
    ensures opcode == 5 ==>
      (r.Some? <==> Combo(s, operand).Some?)
      && (r.Some? ==> r.value.output == s.output + [Combo(s, operand).value % 8])
    ensures r.Some? && opcode != 5 ==> r.value.output == s.output
  {
    var next := s.ip + 2;
    match opcode
    case 0 =>
      var v :- Div(s, operand);
      Some(s.(a := v, ip := next))
    case 1 =>
      var v :- Literal(operand);
      Some(s.(b := Xor(s.b, v), ip := next))
    case 2 =>
      var v :- Combo(s, operand);
      Some(s.(b := v % 8, ip := next))
    case 3 =>
      if s.a != 0 then
        var v :- Literal(operand);
        Some(s.(ip := v))
      else Some(s.(ip := next))
    case 4 =>
      Some(s.(b := Xor(s.b, s.c), ip := next))
    case 5 =>
      var v :- Combo(s, operand);
      Some(s.(output := s.output + [v % 8], ip := next))
    case 6 =>
      var v :- Div(s, operand);
      Some(s.(b := v, ip := next))
    case 7 =>
      var v :- Div(s, operand);
      Some(s.(c := v, ip := next))
    case _ => None
  }

  /** One pass of the loop in Input::run, at an ip inside the program. The
      operand is read at ip + 1, which panics past the end. */
  function Step(program: seq<nat>, s: State): Option<State>
    requires s.ip < |program|
  {
    if s.ip + 1 >= |program| then None
    else Execute(s, program[s.ip], program[s.ip + 1])
  }

  /** Input::run from a state, for at most fuel instructions. */
  function RunFrom(program: seq<nat>, s: State, fuel: nat): (r: RunResult)
    ensures r.Halted? ==> r.s.ip >= |program|
    decreases fuel
  {
    if fuel == 0 then OutOfFuel(s)
    else if s.ip >= |program| then Halted(s)
    else match Step(program, s)
      case None => Panicked
      case Some(t) => RunFrom(program, t, fuel - 1)
  }

  /** The loop stops exactly when ip is at or past the end of the program. */
  lemma RunStopsPastEnd(program: seq<nat>, s: State, fuel: nat)
    requires fuel > 0
    ensures RunFrom(program, s, fuel).Halted? && RunFrom(program, s, fuel).s == s <==> s.ip >= |program|
  {
    if s.ip < |program| {
      var r := RunFrom(program, s, fuel);
      if r.Halted? {
        assert r.s.ip >= |program|;
      }
    }
  }

  predicate Octal(output: seq<nat>)
  {
    forall i :: 0 <= i < |output| ==> output[i] < 8
  }

  /** out only ever appends a value in 0..7. */
  lemma {:induction false} RunOutputsOctal(program: seq<nat>, s: State, fuel: nat)
    requires Octal(s.output)
    ensures var r := RunFrom(program, s, fuel); !r.Panicked? ==> Octal(r.s.output)
    decreases fuel
  {
    if fuel > 0 && s.ip < |program| {
      match Step(program, s)
      case None =>
      case Some(t) =>
        assert Octal(t.output);
        RunOutputsOctal(program, t, fuel - 1);
    }
  }

  /** C=9 with program 2,6 sets B to 1. */
  lemma ProgramOne()
    ensures var r := RunFrom([2, 6], State(0, 0, 9, 0, []), 2); r.Halted? && r.s.b == 1
  {
    assert RunFrom([2, 6], State(0, 0, 9, 0, []), 2) == RunFrom([2, 6], State(0, 1, 9, 2, []), 1);
  }

  /** A=10 with program 5,0,5,1,5,4 outputs 0,1,2. */
  lemma ProgramTwo()
    ensures var r := RunFrom([5, 0, 5, 1, 5, 4], State(10, 0, 0, 0, []), 4);
      r.Halted? && r.s.output == [0, 1, 2]
  {
    var p := [5, 0, 5, 1, 5, 4];
    assert RunFrom(p, State(10, 0, 0, 0, []), 4) == RunFrom(p, State(10, 0, 0, 2, [0]), 3);
    assert RunFrom(p, State(10, 0, 0, 2, [0]), 3) == RunFrom(p, State(10, 0, 0, 4, [0, 1]), 2);
    assert RunFrom(p, State(10, 0, 0, 4, [0, 1]), 2) == RunFrom(p, State(10, 0, 0, 6, [0, 1, 2]), 1);
  }

  /** B=29 with program 1,7 sets B to 26. */
  lemma ProgramFour()
    ensures var r := RunFrom([1, 7], State(0, 29, 0, 0, []), 2); r.Halted? && r.s.b == 26
  {
    assert Xor(7, 1) == 6;
    assert Xor(14, 3) == 13;
    assert Xor(29, 7) == 26;
    assert RunFrom([1, 7], State(0, 29, 0, 0, []), 2) == RunFrom([1, 7], State(0, 26, 0, 2, []), 1);
  }

  /** B=2024 and C=43690 with program 4,0 sets B to 44354. */
  lemma ProgramFive()
    ensures var r := RunFrom([4, 0], State(0, 2024, 43690, 0, []), 2); r.Halted? && r.s.b == 44354
  {
    assert Xor(1, 42) == 43;
    assert Xor(3, 85) == 86;
    assert Xor(7, 170) == 173;
    assert Xor(15, 341) == 346;
    assert Xor(31, 682) == 693;
    assert Xor(63, 1365) == 1386;
    assert Xor(126, 2730) == 2772;
    assert Xor(253, 5461) == 5544;
    assert Xor(506, 10922) == 11088;
    assert Xor(1012, 21845) == 22177;
    assert Xor(2024, 43690) == 44354;
    assert RunFrom([4, 0], State(0, 2024, 43690, 0, []), 2) == RunFrom([4, 0], State(0, 44354, 43690, 2, []), 1);
  }

  /** Input::get_output: the value one pass of the puzzle's own program
      prints for a given A. */
  function GetOutput(a: nat): (r: nat)
    ensures r < 8
  {
    var p := Xor(a % 8, 3);
    Xor(Xor(p, ShiftRight(a, p)), 5) % 8
  }

  /** a >> p on unbounded non-negative integers. */
  function ShiftRight(a: nat, p: nat): nat
  {
    PowPositive(2, p);
    a / Pow(2, p)
  }

  lemma ShiftMeaning(a: nat, p: nat)
    ensures Pow(2, p) > 0
    ensures ShiftRight(a, p) * Pow(2, p) <= a < (ShiftRight(a, p) + 1) * Pow(2, p)
  {
    PowPositive(2, p);
  }

  /** The n values printed for A, shifting A right by three bits after each. */
  function Outputs(a: nat, n: nat): (r: seq<nat>)
    ensures |r| == n
  {
    if n == 0 then [] else [GetOutput(a)] + Outputs(a / 8, n - 1)
  }

  /** (a << 3) + i in find_identity. */
  function Child(a: nat, i: nat): nat
  {
    a * 8 + i
  }

  /** The values of A below 8^k that print the last k values of program. */
  ghost function Solutions(program: seq<nat>, k: nat): set<nat>
    requires k <= |program|
  {
    set x: nat | x < Pow(8, k) && Outputs(x, k) == program[|program| - k..]
  }

  /** The children of a that the inner loop of find_identity keeps, among
      the first count. */
  ghost function Kept(a: nat, count: nat, target: nat): set<nat>
  {
    set i | 0 <= i < count && GetOutput(Child(a, i)) == target :: Child(a, i)
  }

  /** The candidates of one round of find_identity: three more bits under
      each previous candidate, kept when they print target. */
  ghost function Extend(current: set<nat>, target: nat): set<nat>
  {
    set a, i | a in current && 0 <= i < 8 && GetOutput(Child(a, i)) == target :: Child(a, i)
  }

  lemma ExtendAdd(done: set<nat>, a: nat, target: nat)
    ensures Extend(done + {a}, target) == Extend(done, target) + Kept(a, 8, target)
  {
  }

  lemma ChildBound(x: nat, bound: nat)
    ensures x < 8 * bound <==> x / 8 < bound
    ensures x == Child(x / 8, x % 8) && x % 8 < 8
  {
  }

  lemma ChildParts(a: nat, i: nat)
    requires i < 8
    ensures Child(a, i) / 8 == a && Child(a, i) % 8 == i
  {
  }

  /** A kept child of a solution for the last k values solves the last k + 1. */
  lemma ExtendSound(program: seq<nat>, k: nat, a: nat, i: nat)
    requires k < |program| && i < 8
    requires a in Solutions(program, k)
    requires GetOutput(Child(a, i)) == program[|program| - k - 1]
    ensures Child(a, i) in Solutions(program, k + 1)
  {
    var n := |program|;
    var x := Child(a, i);
    assert program[n - k - 1..] == [program[n - k - 1]] + program[n - k..];
    assert Pow(8, k + 1) == 8 * Pow(8, k);
    ChildParts(a, i);
    ChildBound(x, Pow(8, k));
    assert Outputs(x, k + 1) == [GetOutput(x)] + Outputs(a, k);
  }

  /** Every solution for the last k + 1 values is a kept child of one for k. */
  lemma ExtendComplete(program: seq<nat>, k: nat, x: nat)
    requires k < |program|
    requires x in Solutions(program, k + 1)
    ensures x / 8 in Solutions(program, k)
    ensures x == Child(x / 8, x % 8) && x % 8 < 8
    ensures GetOutput(x) == program[|program| - k - 1]
  {
    var n := |program|;
    var a := x / 8;
    var out := Outputs(x, k + 1);
    assert out == program[n - k - 1..];
    assert out == [GetOutput(x)] + Outputs(a, k);
    assert out[0] == program[n - k - 1];
    assert Outputs(a, k) == out[1..] == program[n - k..];
    assert x < Pow(8, k + 1) == 8 * Pow(8, k);
    ChildBound(x, Pow(8, k));
    assert a < Pow(8, k);
  }

  lemma ExtendSolutions(program: seq<nat>, k: nat)
    requires k < |program|
    ensures Extend(Solutions(program, k), program[|program| - k - 1]) == Solutions(program, k + 1)
  {
    var target := program[|program| - k - 1];
    var e := Extend(Solutions(program, k), target);
    forall x | x in e
      ensures x in Solutions(program, k + 1)
    {
      var a, i :| a in Solutions(program, k) && 0 <= i < 8 && GetOutput(Child(a, i)) == target && x == Child(a, i);
      ExtendSound(program, k, a, i);
    }
    forall x | x in Solutions(program, k + 1)
      ensures x in e
    {
      ExtendComplete(program, k, x);
    }
  }

  /** Input::find_identity: None is the panic "No solution found". */
  method FindIdentity(program: seq<nat>) returns (r: Option<nat>)
    ensures var all := Solutions(program, |program|);
      && (r.None? <==> all == {})
      && (r.Some? ==> r.value in all && forall x :: x in all ==> r.value <= x)
  {
    var current: set<nat> := {0};
    var k := 0;
    assert Outputs(0, 0) == program[|program|..];
    assert 0 in Solutions(program, 0);
    assert Solutions(program, 0) == {0};
    while k < |program|
      invariant k <= |program|
      invariant current == Solutions(program, k)
      invariant current != {}
    {
      var target := program[|program| - k - 1];
      var next := ExtendAll(current, target);
      ExtendSolutions(program, k);
      if next == {} {
        EmptyStaysEmpty(program, k + 1);
        return None;
      }
      current := next;
      k := k + 1;
    }
    var m := Minimum(current);
    return Some(m);
  }

  /** Once a round has no candidates, no later round has any. */
  lemma {:induction false} EmptyStaysEmpty(program: seq<nat>, k: nat)
    requires k <= |program|
    requires Solutions(program, k) == {}
    ensures Solutions(program, |program|) == {}
    decreases |program| - k
  {
    if k < |program| {
      ExtendSolutions(program, k);
      EmptyStaysEmpty(program, k + 1);
    }
  }

  /** The two inner loops of find_identity. */
  method ExtendAll(current: set<nat>, target: nat) returns (next: set<nat>)
    ensures next == Extend(current, target)
  {
    next := {};
    var todo := current;
    while todo != {}
      invariant todo <= current
      invariant next == Extend(current - todo, target)
      decreases todo
    {
      var a :| a in todo;
      var i := 0;
      ghost var before := next;
      while i < 8
        invariant 0 <= i <= 8
        invariant next == before + Kept(a, i, target)
      {
        if GetOutput(Child(a, i)) == target {
          next := next + {Child(a, i)};
        }
        assert Kept(a, i + 1, target)
          == Kept(a, i, target) + (if GetOutput(Child(a, i)) == target then {Child(a, i)} else {});
        i := i + 1;
      }
      ExtendAdd(current - todo, a, target);
      assert current - (todo - {a}) == (current - todo) + {a};
      todo := todo - {a};
    }
  }

  method Minimum(s: set<nat>) returns (m: nat)
    requires s != {}
    ensures m in s && forall x :: x in s ==> m <= x
  {
    m :| m in s;
    var todo := s - {m};
    while todo != {}
      invariant todo <= s && m in s && m !in todo
      invariant forall x :: x in s && x !in todo ==> m <= x
      decreases todo
    {
      var x :| x in todo;
      if x < m {
        m := x;
      }
      todo := todo - {x};
    }
  }

  /** The Input struct: registers, instruction pointer, program and output. */
  class Computer {
    var a: nat
    var b: nat
    var c: nat
    var ip: nat
    var program: seq<nat>
    var output: seq<nat>

    function Snapshot(): State
      reads this
    {
      State(a, b, c, ip, output)
    }

    constructor(a: nat, b: nat, c: nat, program: seq<nat>)
      ensures Snapshot() == State(a, b, c, 0, []) && this.program == program
    {
      this.a, this.b, this.c, this.ip := a, b, c, 0;
      this.program, this.output := program, [];
    }

    method ComboOperand(value: nat) returns (r: Option<nat>)
      ensures r == Combo(Snapshot(), value)
    {
      if value <= 3 {
        r := Some(value);
      } else if value == 4 {
        r := Some(a);
      } else if value == 5 {
        r := Some(b);
      } else if value == 6 {
        r := Some(c);
      } else {
        r := None;
      }
    }

    method Divide(operand: nat) returns (r: Option<nat>)
      ensures r == Div(Snapshot(), operand)
    {
      var k := ComboOperand(operand);
      if k.None? || k.value >= 64 {
        return None;
      }
      assert Combo(Snapshot(), operand) == k;
      PowPositive(2, k.value);
      var denominator := Pow(2, k.value);
      var quotient := a / denominator;
      assert quotient == ShiftRight(a, k.value);
      return Some(quotient);
    }

    /** adv, bdv and cdv: the quotient lands in A, B or C (register 0, 1, 2). */
    method DivideInto(register: nat, operand: nat) returns (ok: bool)
      requires register <= 2
      modifies this
      ensures var r := Execute(old(Snapshot()), [0, 6, 7][register], operand);
        ok == r.Some? && (ok ==> Snapshot() == r.value)
      ensures program == old(program)
    {
      var v := Divide(operand);
      if v.None? {
        return false;
      }
      if register == 0 {
        a := v.value;
      } else if register == 1 {
        b := v.value;
      } else {
        c := v.value;
      }
      ip := ip + 2;
      return true;
    }

    method Bxl(operand: nat) returns (ok: bool)
      modifies this
      ensures var r := Execute(old(Snapshot()), 1, operand);
        ok == r.Some? && (ok ==> Snapshot() == r.value)
      ensures program == old(program)
    {
      if operand > 7 {
        return false;
      }
      b := Xor(b, operand);
      ip := ip + 2;
      return true;
    }

    method Bst(operand: nat) returns (ok: bool)
      modifies this
      ensures var r := Execute(old(Snapshot()), 2, operand);
        ok == r.Some? && (ok ==> Snapshot() == r.value)
      ensures program == old(program)
    {
      var v := ComboOperand(operand);
      if v.None? {
        return false;
      }
      b := v.value % 8;
      ip := ip + 2;
      return true;
    }

    method Jnz(operand: nat) returns (ok: bool)
      modifies this
      ensures var r := Execute(old(Snapshot()), 3, operand);
        ok == r.Some? && (ok ==> Snapshot() == r.value)
      ensures program == old(program)
    {
      if a != 0 {
        if operand > 7 {
          return false;
        }
        ip := operand;
      } else {
        ip := ip + 2;
      }
      return true;
    }

    method Bxc() returns (ok: bool)
      modifies this
      ensures var r := Execute(old(Snapshot()), 4, 0);
        ok == r.Some? && (ok ==> Snapshot() == r.value)
      ensures program == old(program)
    {
      b := Xor(b, c);
      ip := ip + 2;
      return true;
    }

    method Out(operand: nat) returns (ok: bool)
      modifies this
      ensures var r := Execute(old(Snapshot()), 5, operand);
        ok == r.Some? && (ok ==> Snapshot() == r.value)
      ensures program == old(program)
    {
      var v := ComboOperand(operand);
      if v.None? {
        return false;
      }
      output := output + [v.value % 8];
      ip := ip + 2;
      return true;
    }

    /** Input::run, for at most fuel instructions: it restarts at ip 0 and
        loops until ip leaves the program. */
    method Run(fuel: nat) returns (halted: bool, panicked: bool)
      modifies this
      ensures var r := RunFrom(program, old(Snapshot()).(ip := 0), fuel);
        && (halted <==> r.Halted?) && (panicked <==> r.Panicked?)
        && (!panicked ==> Snapshot() == r.s)
      ensures program == old(program)
    {
      ip := 0;
      var budget := fuel;
      ghost var goal := RunFrom(program, Snapshot(), fuel);
      while budget > 0
        invariant program == old(program)
        invariant RunFrom(program, Snapshot(), budget) == goal
        decreases budget
      {
        if ip >= |program| {
          return true, false;
        }
        if ip + 1 >= |program| {
          return false, true;
        }
        var opcode, operand := program[ip], program[ip + 1];
        ghost var before := Snapshot();
        var ok;
        if opcode == 0 {
          ok := DivideInto(0, operand);
        } else if opcode == 1 {
          ok := Bxl(operand);
        } else if opcode == 2 {
          ok := Bst(operand);
        } else if opcode == 3 {
          ok := Jnz(operand);
        } else if opcode == 4 {
          ok := Bxc();
          assert Execute(before, 4, 0) == Execute(before, 4, operand);
        } else if opcode == 5 {
          ok := Out(operand);
        } else if opcode == 6 {
          ok := DivideInto(1, operand);
        } else if opcode == 7 {
          ok := DivideInto(2, operand);
        } else {
          return false, true;
        }
        assert Step(program, before) == Execute(before, opcode, operand);
        if !ok {
          return false, true;
        }
        budget := budget - 1;
      }
      halted, panicked := false, false;
    }
  }
}
