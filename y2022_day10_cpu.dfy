/** The cycle-timed CPU of 2022 day 10: noop takes one cycle, addx takes two
    and changes the register only when its second cycle ends. The iterator
    yields the CPU as it is during each cycle, before that cycle's effect. */
module CycleCpu {
  import opened Prelude

  datatype OpCode = NoOp | AddX

  datatype Instruction = Instruction(opCode: OpCode, parameter: int)

  /** The i64 range of the parameter. */
  predicate InI64(v: int)
  {
    -0x8000_0000_0000_0000 <= v < 0x8000_0000_0000_0000
  }

  /** The line starts with "noop". */
  predicate IsNoOp(line: string)
  {
    |line| >= 4 && line[..4] == "noop"
  }

  /** Instruction::from: a line starting with "noop" is a noop; otherwise the
      first two space-separated words must be "addx" and an i64. None is
      one of its panics. */
  function FromLine(line: string): (r: Option<Instruction>)
    ensures IsNoOp(line) ==> r == Some(Instruction(NoOp, 0))
    ensures !IsNoOp(line) && r.Some? ==>
      var words := Split(line, ' ');
      && |words| >= 2 && words[0] == "addx"
      && r.value.opCode == AddX && ParseInt(words[1]) == Some(r.value.parameter)
      && InI64(r.value.parameter)
    ensures !IsNoOp(line) && r.None? ==>
      var words := Split(line, ' ');
      |words| < 2 || words[0] != "addx" || ParseInt(words[1]).None? || !InI64(ParseInt(words[1]).value)
  {
    if IsNoOp(line) then Some(Instruction(NoOp, 0))
    else
      var words := Split(line, ' ');
      if |words| < 2 then None
      else match ParseInt(words[1])
        case None => None
        case Some(v) =>
          if !InI64(v) then None
          else if words[0] == "addx" then Some(Instruction(AddX, v))
          else None
  }

  datatype Cpu = Cpu(cycle: nat, register: int)

  /** The states the iterator yields for a program from a CPU: one per noop,
      two per addx with the register changed after the second. */
  function Cycles(cpu: Cpu, program: seq<Instruction>): seq<Cpu>
    decreases program
  {
    if program == [] then []
    else match program[0].opCode
      case NoOp => [cpu] + Cycles(Cpu(cpu.cycle + 1, cpu.register), program[1..])
      case AddX =>
        [cpu, Cpu(cpu.cycle + 1, cpu.register)]
          + Cycles(Cpu(cpu.cycle + 2, cpu.register + program[0].parameter), program[1..])
  }

  /** The number of cycles a program takes. */
  function Duration(program: seq<Instruction>): nat
  {
    if program == [] then 0 else Duration(program[1..]) + if program[0].opCode == NoOp then 1 else 2
  }

  /** One state per cycle, and the cycle counter rises by exactly one each
      time. */
  lemma {:induction false} CyclesCount(cpu: Cpu, program: seq<Instruction>)
    ensures |Cycles(cpu, program)| == Duration(program)
    ensures forall i :: 0 <= i < |Cycles(cpu, program)| ==> Cycles(cpu, program)[i].cycle == cpu.cycle + i
    decreases program
  {
    if program != [] {
      var rest := program[1..];
      match program[0].opCode
      case NoOp => CyclesCount(Cpu(cpu.cycle + 1, cpu.register), rest);
      case AddX => CyclesCount(Cpu(cpu.cycle + 2, cpu.register + program[0].parameter), rest);
    }
  }

  /** The register a state shows is the start value plus the parameters of
      the addx instructions that finished before that cycle. */
  lemma {:induction false} RegisterLagsOneInstruction(cpu: Cpu, program: seq<Instruction>)
    requires program != [] && program[0].opCode == AddX
    ensures |Cycles(cpu, program)| >= 2
    ensures Cycles(cpu, program)[0].register == cpu.register
    ensures Cycles(cpu, program)[1].register == cpu.register
    ensures |Cycles(cpu, program)| > 2 ==> Cycles(cpu, program)[2].register == cpu.register + program[0].parameter
  {
    var next := Cpu(cpu.cycle + 2, cpu.register + program[0].parameter);
    if program[1..] != [] {
      match program[1].opCode
      case NoOp =>
        assert Cycles(next, program[1..])[0] == next;
      case AddX =>
        assert Cycles(next, program[1..])[0] == next;
    }
  }

  /** The small example "noop", "addx 3", "addx -5": the register reads
      1, 1, 1, 4, 4 during cycles 1 to 5. */
  lemma SmallExample()
    ensures var states := Cycles(Cpu(1, 1), [Instruction(NoOp, 0), Instruction(AddX, 3), Instruction(AddX, -5)]);
      states == [Cpu(1, 1), Cpu(2, 1), Cpu(3, 1), Cpu(4, 4), Cpu(5, 4)]
  {
  }

  /** CPUIterator: the instruction queue, the addx in progress, the number
      of its cycles already spent, and the CPU. */
  class CpuIterator {
    var program: seq<Instruction>
    var currentInstruction: Option<Instruction>
    var instructionCounter: nat
    var cpu: Cpu

    /** Between calls an instruction is in progress only halfway through
        an addx. */
    predicate Valid()
      reads this
    {
      && (currentInstruction.None? ==> instructionCounter == 0)
      && (currentInstruction.Some? ==> currentInstruction.value.opCode == AddX && instructionCounter == 1)
    }

    /** The states the iterator has still to yield. */
    function Remaining(): seq<Cpu>
      reads this
    {
      match currentInstruction
      case None => Cycles(cpu, program)
      case Some(ins) => [cpu] + Cycles(Cpu(cpu.cycle + 1, cpu.register + ins.parameter), program)
    }

    /** Cpu::interpret with the lines already turned into instructions. */
    constructor(start: Cpu, program: seq<Instruction>)
      ensures Valid() && Remaining() == Cycles(start, program)
    {
      this.program := program;
      currentInstruction := None;
      instructionCounter := 0;
      cpu := start;
    }

    /** Iterator::next: the iterator yields exactly the states of Cycles in
        order and then None. */
    method Next() returns (r: Option<Cpu>)
      requires Valid()
      modifies this
      ensures Valid()
      ensures old(Remaining()) == [] ==> r.None? && Remaining() == []
      ensures old(Remaining()) != [] ==> r == Some(old(Remaining())[0]) && Remaining() == old(Remaining())[1..]
    {
      var nextInstruction := currentInstruction;
      if currentInstruction.None? {
        if program == [] {
          return None;
        }
        nextInstruction := Some(program[0]);
        program := program[1..];
      }
      var instruction := nextInstruction.value;
      var result := cpu;
      match instruction.opCode {
        case NoOp =>
          cpu := cpu.(cycle := cpu.cycle + 1);
          instructionCounter := 0;
          currentInstruction := None;
        case AddX =>
          cpu := cpu.(cycle := cpu.cycle + 1);
          instructionCounter := instructionCounter + 1;
          if instructionCounter == 2 {
            cpu := cpu.(register := cpu.register + instruction.parameter);
            instructionCounter := 0;
            currentInstruction := None;
          } else {
            currentInstruction := nextInstruction;
          }
      }
      return Some(result);
    }
  }

  /** Moving the state just yielded from the remaining states to those seen. */
  lemma TakeOne(seen: seq<Cpu>, state: Cpu, before: seq<Cpu>, after: seq<Cpu>)
    requires before != [] && state == before[0] && after == before[1..]
    ensures (seen + [state]) + after == seen + before
  {
    assert before == [state] + after;
  }

  /** Draining the iterator yields Cycles(start, program), the test's
      for_each over every state. */
  method Drain(start: Cpu, program: seq<Instruction>) returns (states: seq<Cpu>)
    ensures states == Cycles(start, program)
  {
    var it := new CpuIterator(start, program);
    states := [];
    while true
      invariant it.Valid()
      invariant states + it.Remaining() == Cycles(start, program)
      decreases |it.Remaining()|
    {
      ghost var before := it.Remaining();
      var r := it.Next();
      if r.None? {
        assert states + [] == states;
        return;
      }
      TakeOne(states, r.value, before, it.Remaining());
      states := states + [r.value];
    }
  }

  /** The signal strength part_one adds up: cycle times register for every
      state whose cycle is 20 modulo 40. */
  function SignalStrength(states: seq<Cpu>): int
  {
    if states == [] then 0
    else
      SignalStrength(states[..|states| - 1]) + Strength(states[|states| - 1])
  }

  /** The strength one state contributes. */
  function Strength(state: Cpu): int
  {
    if state.cycle % 40 == 20 then state.cycle * state.register else 0
  }

  /** part_one: sum the signal strengths the iterator yields. */
  method PartOne(program: seq<Instruction>) returns (total: int)
    ensures total == SignalStrength(Cycles(Cpu(1, 1), program))
  {
    var it := new CpuIterator(Cpu(1, 1), program);
    ghost var seen: seq<Cpu> := [];
    total := 0;
    while true
      invariant it.Valid()
      invariant seen + it.Remaining() == Cycles(Cpu(1, 1), program)
      invariant total == SignalStrength(seen)
      decreases |it.Remaining()|
    {
      ghost var before := it.Remaining();
      var r := it.Next();
      if r.None? {
        assert seen + [] == seen;
        return;
      }
      var state := r.value;
      TakeOne(seen, state, before, it.Remaining());
      if state.cycle % 40 == 20 {
        total := total + state.cycle * state.register;
      }
      assert total == SignalStrength(seen) + Strength(state);
      assert (seen + [state])[..|seen|] == seen;
      seen := seen + [state];
    }
  }

  lemma SplitAddX()
    ensures Split("addx -5", ' ') == ["addx", "-5"]
  {
    assert IndexOf("addx -5", ' ') == 4;
    assert IndexOf("-5", ' ') == 2;
    assert "addx -5"[5..] == "-5" && "addx -5"[..4] == "addx";
    assert Split("-5", ' ') == ["-5"];
  }

  lemma ParseMinusFive()
    ensures ParseInt("-5") == Some(-5)
  {
    assert "-5"[1..] == "5";
    assert DigitsValue("5") == 5;
  }

  /** Parsing a line of the small example. */
  lemma ParseAddX()
    ensures FromLine("addx -5") == Some(Instruction(AddX, -5))
  {
    assert "addx -5"[..4][0] != "noop"[0];
    SplitAddX();
    ParseMinusFive();
  }

  lemma SplitSubX()
    ensures Split("subx 1", ' ') == ["subx", "1"]
  {
    assert IndexOf("subx 1", ' ') == 4;
    assert IndexOf("1", ' ') == 1;
    assert "subx 1"[5..] == "1" && "subx 1"[..4] == "subx";
    assert Split("1", ' ') == ["1"];
  }

  /** An unknown operation is a panic. */
  lemma ParseUnknown()
    ensures FromLine("subx 1") == None
  {
    assert "subx 1"[..4][0] != "noop"[0];
    SplitSubX();
    assert ParseInt("1").Some?;
  }
}
