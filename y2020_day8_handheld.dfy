/** The handheld game console of 2020 day 8: an accumulator, a program
    counter and the three instructions acc, jmp and nop. Indexing follows
    Python, so a negative program counter down to -len reads from the end
    and anything else outside the program raises IndexError. */
module HandheldConsole {
  import opened Prelude

  datatype OpCode = NoOp | Accumulate | Jump

  datatype Instruction = Instruction(opcode: OpCode, argument: int)

  /** The accumulator ("memory") and the program counter. */
  datatype State = State(memory: int, pc: int)

  /** Instruction.execute. */
  function Execute(ins: Instruction, s: State): (r: State)
    ensures ins.opcode == Accumulate ==> r.memory == s.memory + ins.argument
    ensures ins.opcode != Accumulate ==> r.memory == s.memory
    ensures ins.opcode == Jump ==> r.pc == s.pc + ins.argument
    ensures ins.opcode != Jump ==> r.pc == s.pc + 1
  {
    match ins.opcode
    case Accumulate => State(s.memory + ins.argument, s.pc + 1)
    case Jump => State(s.memory, s.pc + ins.argument)
    case NoOp => State(s.memory, s.pc + 1)
  }

  /** program[pc] in Python; None is IndexError. */
  function Fetch(program: seq<Instruction>, pc: int): (r: Option<Instruction>)
    ensures r.Some? <==> -|program| <= pc < |program|
    ensures 0 <= pc < |program| ==> r == Some(program[pc])
    ensures -|program| <= pc < 0 ==> r == Some(program[|program| + pc])
  {
    if 0 <= pc < |program| then Some(program[pc])
    else if -|program| <= pc < 0 then Some(program[|program| + pc])
    else None
  }

  /** The state after n steps of iter_program from accumulator 0 and pc 0;
      None when a fetch on the way raised IndexError. */
  function Iterate(program: seq<Instruction>, n: nat): Option<State>
  {
    if n == 0 then Some(State(0, 0))
    else match Iterate(program, n - 1)
      case None => None
      case Some(s) =>
        match Fetch(program, s.pc)
        case None => None
        case Some(ins) => Some(Execute(ins, s))
  }

  /** The first k + 1 states exist, their program counters are pairwise
      different and no step has reached the end of the program (the
      starting counter is never compared with the length). */
  ghost predicate FreshUpTo(program: seq<Instruction>, k: nat)
  {
    && (forall i :: 0 <= i <= k ==> Iterate(program, i).Some?)
    && (forall i :: 0 < i <= k ==> Iterate(program, i).value.pc != |program|)
    && (forall i, j :: 0 <= i < j <= k ==> Iterate(program, i).value.pc != Iterate(program, j).value.pc)
  }

  /** Step k lands on the program counter of an earlier step. */
  ghost predicate Revisits(program: seq<Instruction>, k: nat)
    requires k > 0
    requires FreshUpTo(program, k - 1) && Iterate(program, k).Some?
  {
    exists i :: 0 <= i < k && Iterate(program, i).value.pc == Iterate(program, k).value.pc
  }

  datatype LoopResult = Loops(accumulator: int) | Terminates(accumulator: int) | IndexError

  /** What find_loop returns, in terms of the states iter_program yields:
      (True, acc) when step k revisits an earlier pc, acc being the
      accumulator before that step; (False, acc) when step k reaches the
      end of the program; IndexError when step k + 1 could not fetch. */
  ghost predicate Outcome(program: seq<Instruction>, r: LoopResult)
  {
    if r.Loops? then
      exists k: nat :: k > 0 && FreshUpTo(program, k - 1) && Iterate(program, k).Some?
        && r.accumulator == Iterate(program, k - 1).value.memory
        && Revisits(program, k)
    else if r.Terminates? then
      exists k: nat :: k > 0 && FreshUpTo(program, k - 1) && Iterate(program, k).Some?
        && Iterate(program, k).value.pc == |program|
        && r.accumulator == Iterate(program, k).value.memory
    else
      exists k: nat :: FreshUpTo(program, k) && Iterate(program, k + 1).None?
  }

  /** Every program counter find_loop executes lies in -len..len-1. */
  ghost predicate Executable(program: seq<Instruction>, executed: set<int>)
  {
    forall pc :: pc in executed ==> -|program| <= pc < |program|
  }

  /** One more state that is new and not at the end keeps the run fresh. */
  lemma FreshExtend(program: seq<Instruction>, k: nat)
    requires k > 0 && FreshUpTo(program, k - 1) && Iterate(program, k).Some?
    requires Iterate(program, k).value.pc != |program|
    requires forall i :: 0 <= i < k ==> Iterate(program, i).value.pc != Iterate(program, k).value.pc
    ensures FreshUpTo(program, k)
  {
  }

  /** The program counters of a sequence of states. */
  ghost function Counters(trace: seq<State>): set<int>
  {
    if trace == [] then {} else Counters(trace[..|trace| - 1]) + {trace[|trace| - 1].pc}
  }

  lemma {:induction false} CountersMember(trace: seq<State>, x: int)
    requires x in Counters(trace)
    ensures exists i :: 0 <= i < |trace| && trace[i].pc == x
  {
    var n := |trace| - 1;
    if trace[n].pc != x {
      CountersMember(trace[..n], x);
    }
  }

  lemma {:induction false} CountersContain(trace: seq<State>, i: nat)
    requires i < |trace|
    ensures trace[i].pc in Counters(trace)
  {
    var n := |trace| - 1;
    if i < n {
      CountersContain(trace[..n], i);
    }
  }

  /** A next state whose counter is among those of the trace revisits it. */
  lemma RevisitFound(program: seq<Instruction>, trace: seq<State>, next: State)
    requires |trace| > 0 && forall i :: 0 <= i < |trace| ==> Iterate(program, i) == Some(trace[i])
    requires FreshUpTo(program, |trace| - 1) && Iterate(program, |trace|) == Some(next)
    requires next.pc in Counters(trace)
    ensures Revisits(program, |trace|)
  {
    CountersMember(trace, next.pc);
    var i :| 0 <= i < |trace| && trace[i].pc == next.pc;
    assert Iterate(program, i).value.pc == Iterate(program, |trace|).value.pc;
  }

  /** A next state with a new counter, not at the end, extends the trace. */
  lemma TraceExtend(program: seq<Instruction>, trace: seq<State>, next: State)
    requires |trace| > 0 && forall i :: 0 <= i < |trace| ==> Iterate(program, i) == Some(trace[i])
    requires FreshUpTo(program, |trace| - 1) && Iterate(program, |trace|) == Some(next)
    requires next.pc !in Counters(trace) && next.pc != |program|
    ensures FreshUpTo(program, |trace|)
    ensures forall i :: 0 <= i < |trace| + 1 ==> Iterate(program, i) == Some((trace + [next])[i])
    ensures Counters(trace + [next]) == Counters(trace) + {next.pc}
  {
    var k := |trace|;
    forall i | 0 <= i < k
      ensures Iterate(program, i).value.pc != Iterate(program, k).value.pc
    {
      CountersContain(trace, i);
    }
    FreshExtend(program, k);
    assert (trace + [next])[..k] == trace;
  }

  /** find_loop: run until a program counter repeats or the program ends. */
  method FindLoop(program: seq<Instruction>) returns (r: LoopResult)
    ensures Outcome(program, r)
  {
    var seen: set<int> := {0};
    var accumulator := 0;
    var s := State(0, 0);
    ghost var trace: seq<State> := [s];
    ghost var executed: set<int> := {};
    while true
      invariant |trace| > 0 && s == trace[|trace| - 1] && accumulator == s.memory
      invariant forall i :: 0 <= i < |trace| ==> Iterate(program, i) == Some(trace[i])
      invariant FreshUpTo(program, |trace| - 1)
      invariant seen == Counters(trace)
      invariant executed == seen - {s.pc} && Executable(program, executed)
      invariant |executed| <= 2 * |program|
      decreases 2 * |program| - |executed|
    {
      ghost var k := |trace|;
      var ins := Fetch(program, s.pc);
      if ins.None? {
        assert Iterate(program, k).None?;
        return IndexError;
      }
      var next := Execute(ins.value, s);
      assert Iterate(program, k) == Some(next);
      if next.pc in seen {
        RevisitFound(program, trace, next);
        return Loops(accumulator);
      }
      if next.pc == |program| {
        return Terminates(next.memory);
      }
      TraceExtend(program, trace, next);
      accumulator := next.memory;
      executed := executed + {s.pc};
      CardinalityBound(executed, -|program|, |program|);
      seen := seen + {next.pc};
      trace := trace + [next];
      s := next;
    }
  }

  /** The program with instruction idx switched between nop and jmp; acc
      stays as it is. */
  function Flip(program: seq<Instruction>, idx: nat): (r: seq<Instruction>)
    requires idx < |program|
    ensures |r| == |program|
    ensures forall i :: 0 <= i < |r| && i != idx ==> r[i] == program[i]
    ensures r[idx].argument == program[idx].argument
    ensures program[idx].opcode == NoOp ==> r[idx].opcode == Jump
    ensures program[idx].opcode != NoOp ==> r[idx].opcode == NoOp
  {
    var op := if program[idx].opcode == NoOp then Jump else NoOp;
    program[..idx] + [Instruction(op, program[idx].argument)] + program[idx + 1..]
  }

  predicate Replaceable(ins: Instruction)
  {
    ins.opcode == NoOp || ins.opcode == Jump
  }

  datatype RepairResult = Repaired(accumulator: int) | NotRepaired | Raised

  /** part2: try each nop or jmp in turn, switched, and return the
      accumulator of the first switched program that ends. An IndexError
      from find_loop propagates (Raised); running out of candidates falls
      off the end of the function (NotRepaired). */
  method Repair(program: seq<Instruction>) returns (r: RepairResult)
    ensures r.Repaired? ==> exists idx ::
      0 <= idx < |program| && Replaceable(program[idx])
      && Outcome(Flip(program, idx), Terminates(r.accumulator))
      && forall j :: 0 <= j < idx && Replaceable(program[j]) ==>
        exists acc :: Outcome(Flip(program, j), Loops(acc))
    ensures r.NotRepaired? ==> forall j :: 0 <= j < |program| && Replaceable(program[j]) ==>
      exists acc :: Outcome(Flip(program, j), Loops(acc))
    ensures r.Raised? ==> exists idx ::
      0 <= idx < |program| && Replaceable(program[idx])
      && Outcome(Flip(program, idx), IndexError)
      && forall j :: 0 <= j < idx && Replaceable(program[j]) ==>
        exists acc :: Outcome(Flip(program, j), Loops(acc))
  {
    var idx := 0;
    while idx < |program|
      invariant idx <= |program|
      invariant forall j :: 0 <= j < idx && Replaceable(program[j]) ==>
        exists acc :: Outcome(Flip(program, j), Loops(acc))
    {
      if Replaceable(program[idx]) {
        var modified := Flip(program, idx);
        var outcome := FindLoop(modified);
        match outcome
        case Loops(acc) =>
        case Terminates(acc) => return Repaired(acc);
        case IndexError => return Raised;
      }
      idx := idx + 1;
    }
    return NotRepaired;
  }
}
