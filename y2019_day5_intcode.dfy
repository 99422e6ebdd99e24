/** The first Intcode computer (opcodes 1-8 and 99, position and immediate
    modes). Memory never grows: every access outside the program panics,
    and so does a Read when the input is used up. */
module IntcodeDay5 {
  import opened Prelude

  datatype OpCode = Add | Multiply | Read | Output | JumpIfTrue | JumpIfFalse | LessThan | Equals | Exit

  datatype Instruction = Instruction(operation: OpCode, immediate1: bool, immediate2: bool, immediate3: bool)

  /** OpCode::from; None is the panic on an unknown opcode. */
  function DecodeOpCode(x: int): (r: Option<OpCode>)
    ensures r.Some? <==> (1 <= x <= 8 || x == 99)
  {
    match x
    case 1 => Some(Add)
    case 2 => Some(Multiply)
    case 3 => Some(Read)
    case 4 => Some(Output)
    case 5 => Some(JumpIfTrue)
    case 6 => Some(JumpIfFalse)
    case 7 => Some(LessThan)
    case 8 => Some(Equals)
    case 99 => Some(Exit)
    case _ => None
  }

  /** Instruction::from. Rust's remainder of a negative word is negative,
      which matches no opcode, so only non-negative words decode. A flag is
      set by any non-zero mode digit. */
  function Decode(x: int): (r: Option<Instruction>)
    ensures r.Some? <==> x >= 0 && DecodeOpCode(x % 100).Some?
    ensures r.Some? ==>
      && Some(r.value.operation) == DecodeOpCode(x % 100)
      && (r.value.immediate1 <==> (x / 100) % 10 > 0)
      && (r.value.immediate2 <==> (x / 1000) % 10 > 0)
      && (r.value.immediate3 <==> (x / 10000) % 10 > 0)
  {
    if x < 0 then None
    else
      var operation :- DecodeOpCode(x % 100);
      var i := x / 100;
      var mode1 := i % 10 > 0;
      var i := i / 10;
      var mode2 := i % 10 > 0;
      var i := i / 10;
      var mode3 := i % 10 > 0;
      assert x / 100 / 10 == x / 1000 && x / 100 / 10 / 10 == x / 10000;
      Some(Instruction(operation, mode1, mode2, mode3))
  }

  /** IntCode::read: the cell itself when immediate, else the cell it points
      to. None is an index out of range (a negative pointer included). */
  function ReadAt(program: seq<int>, pointer: nat, immediate: bool): (r: Option<int>)
    ensures r.Some? && immediate ==> pointer < |program| && r.value == program[pointer]
    ensures r.Some? && !immediate ==>
      pointer < |program| && 0 <= program[pointer] < |program| && r.value == program[program[pointer]]
    ensures r.None? <==> pointer >= |program| || (!immediate && !(0 <= program[pointer] < |program|))
  {
    if pointer >= |program| then None
    else if immediate then Some(program[pointer])
    else
      var address := program[pointer];
      if 0 <= address < |program| then Some(program[address]) else None
  }

  /** IntCode::write: always through the pointer cell. */
  function WriteAt(program: seq<int>, pointer: nat, value: int): (r: Option<seq<int>>)
    ensures r.Some? <==> pointer < |program| && 0 <= program[pointer] < |program|
    ensures r.Some? ==> r.value == program[program[pointer] := value]
  {
    if pointer >= |program| then None
    else
      var address := program[pointer];
      if 0 <= address < |program| then Some(program[address := value]) else None
  }

  /** Everything IntCode::run keeps between instructions. */
  datatype Machine = Machine(program: seq<int>, pc: nat, inputCounter: nat, output: seq<int>)

  /** What one instruction tells the run loop. */
  datatype Signal = Continue | Halt | Fault

  datatype RunResult = Halted(m: Machine) | Panicked | OutOfFuel(m: Machine)

  /** The value the three-operand opcodes store: opcodes 1, 2, 7 and 8. */
  function Combine(op: OpCode, a: int, b: int): int
  {
    match op
    case Add => a + b
    case Multiply => a * b
    case LessThan => if a < b then 1 else 0
    case Equals => if a == b then 1 else 0
    case _ => 0
  }

  /** IntCode::run from a machine state, for at most fuel instructions. */
  function RunFrom(m: Machine, input: seq<int>, fuel: nat): RunResult
    decreases fuel, 1
  {
    if fuel == 0 then OutOfFuel(m)
    else if m.pc >= |m.program| then Panicked
    else match Decode(m.program[m.pc])
      case None => Panicked
      case Some(ins) => Execute(m, ins, input, fuel)
  }

  function Execute(m: Machine, ins: Instruction, input: seq<int>, fuel: nat): RunResult
    requires fuel > 0
    decreases fuel, 0
  {
    var pc := m.pc;
    match ins.operation
    case Exit => Halted(m)
    case Read =>
      if m.inputCounter >= |input| then Panicked
      else (match WriteAt(m.program, pc + 1, input[m.inputCounter])
        case None => Panicked
        case Some(p) => RunFrom(m.(program := p, pc := pc + 2, inputCounter := m.inputCounter + 1), input, fuel - 1))
    case Output =>
      (match ReadAt(m.program, pc + 1, ins.immediate1)
        case None => Panicked
        case Some(v) => RunFrom(m.(pc := pc + 2, output := m.output + [v]), input, fuel - 1))
    case JumpIfTrue =>
      (match ReadAt(m.program, pc + 1, ins.immediate1)
        case None => Panicked
        case Some(v) =>
          if v != 0 then
            (match ReadAt(m.program, pc + 2, ins.immediate2)
              case None => Panicked
              case Some(t) => if t < 0 then Panicked else RunFrom(m.(pc := t), input, fuel - 1))
          else RunFrom(m.(pc := pc + 3), input, fuel - 1))
    case JumpIfFalse =>
      (match ReadAt(m.program, pc + 1, ins.immediate1)
        case None => Panicked
        case Some(v) =>
          if v == 0 then
            (match ReadAt(m.program, pc + 2, ins.immediate2)
              case None => Panicked
              case Some(t) => if t < 0 then Panicked else RunFrom(m.(pc := t), input, fuel - 1))
          else RunFrom(m.(pc := pc + 3), input, fuel - 1))
    case _ =>
      (match ReadAt(m.program, pc + 1, ins.immediate1)
        case None => Panicked
        case Some(a) =>
          match ReadAt(m.program, pc + 2, ins.immediate2)
          case None => Panicked
          case Some(b) =>
            var result := Combine(ins.operation, a, b);
            match WriteAt(m.program, pc + 3, result)
            case None => Panicked
            case Some(p) => RunFrom(m.(program := p, pc := pc + 4), input, fuel - 1))
  }

  class IntCode {
    var program: seq<int>

    constructor (program: seq<int>)
      ensures this.program == program
    {
      this.program := program;
    }

    method ReadOperand(pointer: nat, immediate: bool) returns (r: Option<int>)
      ensures r == ReadAt(program, pointer, immediate)
    {
      if pointer >= |program| {
        return None;
      }
      if immediate {
        return Some(program[pointer]);
      }
      var address := program[pointer];
      if address < 0 || address >= |program| {
        return None;
      }
      r := Some(program[address]);
    }

    method WriteOperand(pointer: nat, value: int) returns (ok: bool)
      modifies this
      ensures var w := WriteAt(old(program), pointer, value);
        (ok <==> w.Some?) && (ok ==> program == w.value) && (!ok ==> program == old(program))
    {
      if pointer >= |program| {
        return false;
      }
      var address := program[pointer];
      if address < 0 || address >= |program| {
        return false;
      }
      program := program[address := value];
      ok := true;
    }

    /** IntCode::run, executing at most fuel instructions. halted is a run
        that reached opcode 99, panicked one that hit a panic; neither is
        a run that used up its fuel. */
    method Run(input: seq<int>, fuel: nat) returns (output: seq<int>, halted: bool, panicked: bool)
      modifies this
      ensures var r := RunFrom(Machine(old(program), 0, 0, []), input, fuel);
        && (halted <==> r.Halted?) && (panicked <==> r.Panicked?)
        && (!panicked ==> program == r.m.program && output == r.m.output)
    {
      var pc: nat := 0;
      var inputCounter: nat := 0;
      output := [];
      var budget := fuel;
      ghost var goal := RunFrom(Machine(program, 0, 0, []), input, fuel);
      while budget > 0
        invariant RunFrom(Machine(program, pc, inputCounter, output), input, budget) == goal
        decreases budget
      {
        ghost var m := Machine(program, pc, inputCounter, output);
        if pc >= |program| {
          return output, false, true;
        }
        var decoded := Decode(program[pc]);
        if decoded.None? {
          return output, false, true;
        }
        var ins := decoded.value;
        assert goal == Execute(m, ins, input, budget);
        var signal;
        signal, pc, inputCounter, output := Step(ins, pc, inputCounter, output, input, budget);
        match signal {
          case Continue =>
          case Halt => return output, true, false;
          case Fault => return output, false, true;
        }
        budget := budget - 1;
      }
      halted, panicked := false, false;
    }

    /** One pass of the loop body of IntCode::run after decoding. */
    method Step(ins: Instruction, pc: nat, inputCounter: nat, output: seq<int>, input: seq<int>, budget: nat)
      returns (signal: Signal, pc': nat, inputCounter': nat, output': seq<int>)
      requires budget > 0
      modifies this
      ensures var e := Execute(Machine(old(program), pc, inputCounter, output), ins, input, budget);
        && (signal.Continue? ==> e == RunFrom(Machine(program, pc', inputCounter', output'), input, budget - 1))
        && (signal.Halt? ==> e == Halted(Machine(program, pc', inputCounter', output')))
        && (signal.Fault? ==> e == Panicked)
    {
      pc', inputCounter', output' := pc, inputCounter, output;
      signal := Fault;
      match ins.operation {
        case Exit =>
          signal := Halt;
        case Read =>
          if inputCounter >= |input| {
            return;
          }
          var result := input[inputCounter];
          inputCounter' := inputCounter + 1;
          var ok := WriteOperand(pc + 1, result);
          if ok {
            signal, pc' := Continue, pc + 2;
          }
        case Output =>
          var result := ReadOperand(pc + 1, ins.immediate1);
          if result.Some? {
            output' := output + [result.value];
            signal, pc' := Continue, pc + 2;
          }
        case JumpIfTrue =>
          signal, pc' := JumpIf(ins, pc, true);
        case JumpIfFalse =>
          signal, pc' := JumpIf(ins, pc, false);
        case _ =>
          var a := ReadOperand(pc + 1, ins.immediate1);
          if a.None? {
            return;
          }
          var b := ReadOperand(pc + 2, ins.immediate2);
          if b.None? {
            return;
          }
          var result := Combine(ins.operation, a.value, b.value);
          var ok := WriteOperand(pc + 3, result);
          if ok {
            signal, pc' := Continue, pc + 4;
          }
      }
    }

    /** JumpIfTrue (whenNonZero) and JumpIfFalse. */
    method JumpIf(ins: Instruction, pc: nat, whenNonZero: bool) returns (signal: Signal, pc': nat)
      ensures signal.Continue? || signal.Fault?
      ensures var v := ReadAt(program, pc + 1, ins.immediate1);
        var t := ReadAt(program, pc + 2, ins.immediate2);
        && (signal.Continue? <==> v.Some? && ((v.value != 0) == whenNonZero ==> t.Some? && t.value >= 0))
        && (signal.Continue? ==> pc' == if (v.value != 0) == whenNonZero then t.value else pc + 3)
    {
      var value := ReadOperand(pc + 1, ins.immediate1);
      if value.None? {
        return Fault, pc;
      }
      if (value.value != 0) == whenNonZero {
        var target := ReadOperand(pc + 2, ins.immediate2);
        if target.None? || target.value < 0 {
          return Fault, pc;
        }
        return Continue, target.value;
      }
      return Continue, pc + 3;
    }
  }

  /** The immediate flag of each operand is set exactly when its mode digit is positive. */
  lemma ImmediateFlags(x: nat)
    requires DecodeOpCode(x % 100).Some?
    ensures Decode(x).Some?
    ensures Decode(x).value.immediate1 <==> (x / 100) % 10 > 0
  {
  }

  /** Running from an opcode 3 stores the next input and moves on by two. */
  lemma ReadStep(m: Machine, input: seq<int>, fuel: nat, ins: Instruction, p: seq<int>)
    requires fuel > 0 && m.pc < |m.program| && Decode(m.program[m.pc]) == Some(ins) && ins.operation == Read
    requires m.inputCounter < |input|
    requires WriteAt(m.program, m.pc + 1, input[m.inputCounter]) == Some(p)
    ensures RunFrom(m, input, fuel)
      == RunFrom(m.(program := p, pc := m.pc + 2, inputCounter := m.inputCounter + 1), input, fuel - 1)
  {
  }

  /** Running from an opcode 4 appends the operand to the output. */
  lemma OutputStep(m: Machine, input: seq<int>, fuel: nat, ins: Instruction, v: int)
    requires fuel > 0 && m.pc < |m.program| && Decode(m.program[m.pc]) == Some(ins) && ins.operation == Output
    requires ReadAt(m.program, m.pc + 1, ins.immediate1) == Some(v)
    ensures RunFrom(m, input, fuel) == RunFrom(m.(pc := m.pc + 2, output := m.output + [v]), input, fuel - 1)
  {
  }

  /** Running from opcode 1, 2, 7 or 8 stores the combined operands and moves on by four. */
  lemma CombineStep(m: Machine, input: seq<int>, fuel: nat, ins: Instruction, a: int, b: int, p: seq<int>)
    requires fuel > 0 && m.pc < |m.program| && Decode(m.program[m.pc]) == Some(ins)
    requires ins.operation in {Add, Multiply, LessThan, Equals}
    requires ReadAt(m.program, m.pc + 1, ins.immediate1) == Some(a)
    requires ReadAt(m.program, m.pc + 2, ins.immediate2) == Some(b)
    requires WriteAt(m.program, m.pc + 3, Combine(ins.operation, a, b)) == Some(p)
    ensures RunFrom(m, input, fuel) == RunFrom(m.(program := p, pc := m.pc + 4), input, fuel - 1)
  {
  }

  /** Running from opcode 99 halts with the machine as it is. */
  lemma ExitStep(m: Machine, input: seq<int>, fuel: nat)
    requires fuel > 0 && m.pc < |m.program|
    requires Decode(m.program[m.pc]) == Some(Instruction(Exit, false, false, false))
    ensures RunFrom(m, input, fuel) == Halted(m)
  {
  }

  /** "3,0,4,0,99" echoes its one input, whatever it is. */
  lemma EchoProgram(x: int)
    ensures var r := RunFrom(Machine([3, 0, 4, 0, 99], 0, 0, []), [x], 3);
      r.Halted? && r.m.output == [x]
  {
    var p0 := [3, 0, 4, 0, 99];
    var p1 := p0[0 := x];
    assert Decode(3) == Some(Instruction(Read, false, false, false));
    ReadStep(Machine(p0, 0, 0, []), [x], 3, Instruction(Read, false, false, false), p1);
    assert Decode(4) == Some(Instruction(Output, false, false, false));
    assert ReadAt(p1, 3, false) == Some(x);
    OutputStep(Machine(p1, 2, 1, []), [x], 2, Instruction(Output, false, false, false), x);
    assert Decode(99) == Some(Instruction(Exit, false, false, false));
    ExitStep(Machine(p1, 4, 1, [x]), [x], 1);
  }

  /** "1002,4,3,4,33" multiplies 33 by the immediate 3 and stores 99 in cell 4,
      which then halts the program. */
  lemma MultiplyImmediateProgram()
    ensures var r := RunFrom(Machine([1002, 4, 3, 4, 33], 0, 0, []), [], 2);
      r == Halted(Machine([1002, 4, 3, 4, 99], 4, 0, []))
  {
    var p0 := [1002, 4, 3, 4, 33];
    var ins := Instruction(Multiply, false, true, false);
    assert Decode(1002) == Some(ins);
    assert ReadAt(p0, 1, false) == Some(33);
    assert ReadAt(p0, 2, true) == Some(3);
    assert Combine(Multiply, 33, 3) == 99;
    assert p0[4 := 99] == [1002, 4, 3, 4, 99];
    CombineStep(Machine(p0, 0, 0, []), [], 2, ins, 33, 3, [1002, 4, 3, 4, 99]);
    assert Decode(99) == Some(Instruction(Exit, false, false, false));
    ExitStep(Machine([1002, 4, 3, 4, 99], 4, 0, []), [], 1);
  }

  /** The comparison step of "3,9,8,9,10,9,4,9,99,-1,8" once the input x is in cell 9. */
  lemma EqualToEightCompare(x: int, p1: seq<int>)
    requires p1 == [3, 9, 8, 9, 10, 9, 4, 9, 99, -1, 8][9 := x]
    ensures RunFrom(Machine(p1, 2, 1, []), [x], 3)
      == RunFrom(Machine(p1[9 := if x == 8 then 1 else 0], 6, 1, []), [x], 2)
  {
    var ins := Instruction(Equals, false, false, false);
    assert Decode(8) == Some(ins);
    assert ReadAt(p1, 3, false) == Some(x);
    assert ReadAt(p1, 4, false) == Some(8);
    CombineStep(Machine(p1, 2, 1, []), [x], 3, ins, x, 8, p1[9 := Combine(Equals, x, 8)]);
  }

  /** The last two steps of a comparison example: print cell at, then halt. */
  lemma PrintAndHalt(x: int, p: seq<int>, at: nat, e: int)
    requires |p| == 9 || |p| == 11
    requires p[6] == 4 && p[7] == at && at < |p| && p[at] == e && p[8] == 99
    ensures var r := RunFrom(Machine(p, 6, 1, []), [x], 2);
      r.Halted? && r.m.output == [e]
  {
    assert Decode(4) == Some(Instruction(Output, false, false, false));
    OutputStep(Machine(p, 6, 1, []), [x], 2, Instruction(Output, false, false, false), e);
    assert Decode(99) == Some(Instruction(Exit, false, false, false));
    ExitStep(Machine(p, 8, 1, [e]), [x], 1);
  }

  /** The run of "3,9,8,9,10,9,4,9,99,-1,8" on input x, with the program
      given by name so that its cells are only looked up where needed. */
  lemma EqualToEightRun(x: int, p0: seq<int>)
    requires p0 == [3, 9, 8, 9, 10, 9, 4, 9, 99, -1, 8]
    ensures var r := RunFrom(Machine(p0, 0, 0, []), [x], 4);
      r.Halted? && r.m.output == [if x == 8 then 1 else 0]
  {
    var p1 := p0[9 := x];
    assert Decode(3) == Some(Instruction(Read, false, false, false));
    ReadStep(Machine(p0, 0, 0, []), [x], 4, Instruction(Read, false, false, false), p1);
    EqualToEightCompare(x, p1);
    PrintAndHalt(x, p1[9 := if x == 8 then 1 else 0], 9, if x == 8 then 1 else 0);
  }

  /** "3,9,8,9,10,9,4,9,99,-1,8" outputs 1 when its input equals 8, else 0. */
  lemma EqualToEightPosition(x: int)
    ensures var r := RunFrom(Machine([3, 9, 8, 9, 10, 9, 4, 9, 99, -1, 8], 0, 0, []), [x], 4);
      r.Halted? && r.m.output == [if x == 8 then 1 else 0]
  {
    EqualToEightRun(x, [3, 9, 8, 9, 10, 9, 4, 9, 99, -1, 8]);
  }

  /** The comparison step of "3,3,1107,-1,8,3,4,3,99" once the input x is in cell 3. */
  lemma LessThanEightCompare(x: int, p1: seq<int>)
    requires p1 == [3, 3, 1107, -1, 8, 3, 4, 3, 99][3 := x]
    ensures RunFrom(Machine(p1, 2, 1, []), [x], 3)
      == RunFrom(Machine(p1[3 := if x < 8 then 1 else 0], 6, 1, []), [x], 2)
  {
    var ins := Instruction(LessThan, true, true, false);
    assert Decode(1107) == Some(ins);
    assert ReadAt(p1, 3, true) == Some(x);
    assert ReadAt(p1, 4, true) == Some(8);
    CombineStep(Machine(p1, 2, 1, []), [x], 3, ins, x, 8, p1[3 := Combine(LessThan, x, 8)]);
  }

  /** The run of "3,3,1107,-1,8,3,4,3,99" on input x. */
  lemma LessThanEightRun(x: int, p0: seq<int>)
    requires p0 == [3, 3, 1107, -1, 8, 3, 4, 3, 99]
    ensures var r := RunFrom(Machine(p0, 0, 0, []), [x], 4);
      r.Halted? && r.m.output == [if x < 8 then 1 else 0]
  {
    var p1 := p0[3 := x];
    assert Decode(3) == Some(Instruction(Read, false, false, false));
    ReadStep(Machine(p0, 0, 0, []), [x], 4, Instruction(Read, false, false, false), p1);
    LessThanEightCompare(x, p1);
    PrintAndHalt(x, p1[3 := if x < 8 then 1 else 0], 3, if x < 8 then 1 else 0);
  }

  /** "3,3,1107,-1,8,3,4,3,99" outputs 1 when its input is below 8, else 0. */
  lemma LessThanEightImmediate(x: int)
    ensures var r := RunFrom(Machine([3, 3, 1107, -1, 8, 3, 4, 3, 99], 0, 0, []), [x], 4);
      r.Halted? && r.m.output == [if x < 8 then 1 else 0]
  {
    LessThanEightRun(x, [3, 3, 1107, -1, 8, 3, 4, 3, 99]);
  }

  /** The comparison step of "3,3,1108,-1,8,3,4,3,99" once the input x is in cell 3. */
  lemma EqualToEightImmediateCompare(x: int, p1: seq<int>)
    requires p1 == [3, 3, 1108, -1, 8, 3, 4, 3, 99][3 := x]
    ensures RunFrom(Machine(p1, 2, 1, []), [x], 3)
      == RunFrom(Machine(p1[3 := if x == 8 then 1 else 0], 6, 1, []), [x], 2)
  {
    var ins := Instruction(Equals, true, true, false);
    assert Decode(1108) == Some(ins);
    assert ReadAt(p1, 3, true) == Some(x);
    assert ReadAt(p1, 4, true) == Some(8);
    CombineStep(Machine(p1, 2, 1, []), [x], 3, ins, x, 8, p1[3 := Combine(Equals, x, 8)]);
  }

  /** The run of "3,3,1108,-1,8,3,4,3,99" on input x. */
  lemma EqualToEightImmediateRun(x: int, p0: seq<int>)
    requires p0 == [3, 3, 1108, -1, 8, 3, 4, 3, 99]
    ensures var r := RunFrom(Machine(p0, 0, 0, []), [x], 4);
      r.Halted? && r.m.output == [if x == 8 then 1 else 0]
  {
    var p1 := p0[3 := x];
    assert Decode(3) == Some(Instruction(Read, false, false, false));
    ReadStep(Machine(p0, 0, 0, []), [x], 4, Instruction(Read, false, false, false), p1);
    EqualToEightImmediateCompare(x, p1);
    PrintAndHalt(x, p1[3 := if x == 8 then 1 else 0], 3, if x == 8 then 1 else 0);
  }

  /** "3,3,1108,-1,8,3,4,3,99" outputs 1 when its input equals 8, else 0. */
  lemma EqualToEightImmediate(x: int)
    ensures var r := RunFrom(Machine([3, 3, 1108, -1, 8, 3, 4, 3, 99], 0, 0, []), [x], 4);
      r.Halted? && r.m.output == [if x == 8 then 1 else 0]
  {
    EqualToEightImmediateRun(x, [3, 3, 1108, -1, 8, 3, 4, 3, 99]);
  }

  /** The comparison step of "3,9,7,9,10,9,4,9,99,-1,8" once the input x is in cell 9. */
  lemma LessThanEightPositionCompare(x: int, p1: seq<int>)
    requires p1 == [3, 9, 7, 9, 10, 9, 4, 9, 99, -1, 8][9 := x]
    ensures RunFrom(Machine(p1, 2, 1, []), [x], 3)
      == RunFrom(Machine(p1[9 := if x < 8 then 1 else 0], 6, 1, []), [x], 2)
  {
    var ins := Instruction(LessThan, false, false, false);
    assert Decode(7) == Some(ins);
    assert ReadAt(p1, 3, false) == Some(x);
    assert ReadAt(p1, 4, false) == Some(8);
    CombineStep(Machine(p1, 2, 1, []), [x], 3, ins, x, 8, p1[9 := Combine(LessThan, x, 8)]);
  }

  /** The run of "3,9,7,9,10,9,4,9,99,-1,8" on input x. */
  lemma LessThanEightPositionRun(x: int, p0: seq<int>)
    requires p0 == [3, 9, 7, 9, 10, 9, 4, 9, 99, -1, 8]
    ensures var r := RunFrom(Machine(p0, 0, 0, []), [x], 4);
      r.Halted? && r.m.output == [if x < 8 then 1 else 0]
  {
    var p1 := p0[9 := x];
    assert Decode(3) == Some(Instruction(Read, false, false, false));
    ReadStep(Machine(p0, 0, 0, []), [x], 4, Instruction(Read, false, false, false), p1);
    LessThanEightPositionCompare(x, p1);
    PrintAndHalt(x, p1[9 := if x < 8 then 1 else 0], 9, if x < 8 then 1 else 0);
  }

  /** "3,9,7,9,10,9,4,9,99,-1,8" outputs 1 when its input is below 8, else 0. */
  lemma LessThanEightPosition(x: int)
    ensures var r := RunFrom(Machine([3, 9, 7, 9, 10, 9, 4, 9, 99, -1, 8], 0, 0, []), [x], 4);
      r.Halted? && r.m.output == [if x < 8 then 1 else 0]
  {
    LessThanEightPositionRun(x, [3, 9, 7, 9, 10, 9, 4, 9, 99, -1, 8]);
  }

  /** "1101,100,-1,4,0" adds the immediates 100 and -1 and stores 99 in cell 4,
      which then halts the program. */
  lemma NegativeValues()
    ensures var r := RunFrom(Machine([1101, 100, -1, 4, 0], 0, 0, []), [], 2);
      r == Halted(Machine([1101, 100, -1, 4, 99], 4, 0, []))
  {
    var p0 := [1101, 100, -1, 4, 0];
    var ins := Instruction(Add, true, true, false);
    assert Decode(1101) == Some(ins);
    assert ReadAt(p0, 1, true) == Some(100);
    assert ReadAt(p0, 2, true) == Some(-1);
    assert Combine(Add, 100, -1) == 99;
    assert p0[4 := 99] == [1101, 100, -1, 4, 99];
    CombineStep(Machine(p0, 0, 0, []), [], 2, ins, 100, -1, [1101, 100, -1, 4, 99]);
    assert Decode(99) == Some(Instruction(Exit, false, false, false));
    ExitStep(Machine([1101, 100, -1, 4, 99], 4, 0, []), [], 1);
  }

  /** Running from opcode 5 or 6 jumps to the second operand when the first
      operand's test holds, and otherwise moves on by three. */
  lemma JumpStep(m: Machine, input: seq<int>, fuel: nat, ins: Instruction, v: int, t: int)
    requires fuel > 0 && m.pc < |m.program| && Decode(m.program[m.pc]) == Some(ins)
    requires ins.operation == JumpIfTrue || ins.operation == JumpIfFalse
    requires ReadAt(m.program, m.pc + 1, ins.immediate1) == Some(v)
    requires (v != 0) == (ins.operation == JumpIfTrue) ==>
      ReadAt(m.program, m.pc + 2, ins.immediate2) == Some(t) && t >= 0
    ensures RunFrom(m, input, fuel)
      == RunFrom(m.(pc := if (v != 0) == (ins.operation == JumpIfTrue) then t else m.pc + 3), input, fuel - 1)
  {
  }

  /** The program of test_jump_position_mode. */
  const JumpPositionProgram: seq<int> := [3, 12, 6, 12, 15, 1, 13, 14, 13, 4, 13, 99, -1, 0, 1, 9]

  /** The jump of the position-mode jump program once the input x is in cell 12:
      on zero to the print at 9, otherwise on to the addition at 5. */
  lemma JumpPositionJump(x: int, p1: seq<int>)
    requires p1 == JumpPositionProgram[12 := x]
    ensures RunFrom(Machine(p1, 2, 1, []), [x], 4)
      == RunFrom(Machine(p1, if x == 0 then 9 else 5, 1, []), [x], 3)
  {
    var jump := Instruction(JumpIfFalse, false, false, false);
    assert Decode(6) == Some(jump);
    assert ReadAt(p1, 3, false) == Some(x);
    assert ReadAt(p1, 4, false) == Some(9);
    JumpStep(Machine(p1, 2, 1, []), [x], 4, jump, x, 9);
  }

  /** The addition at 5 sets cell 13 to 0 + 1. */
  lemma JumpPositionAdd(x: int, p1: seq<int>)
    requires p1 == JumpPositionProgram[12 := x]
    ensures RunFrom(Machine(p1, 5, 1, []), [x], 3) == RunFrom(Machine(p1[13 := 1], 9, 1, []), [x], 2)
  {
    var add := Instruction(Add, false, false, false);
    assert Decode(1) == Some(add);
    assert ReadAt(p1, 6, false) == Some(0);
    assert ReadAt(p1, 7, false) == Some(1);
    assert WriteAt(p1, 8, 1) == Some(p1[13 := 1]);
    CombineStep(Machine(p1, 5, 1, []), [x], 3, add, 0, 1, p1[13 := 1]);
  }

  /** Printing cell 13 and halting, the last two instructions of the jump examples. */
  lemma PrintThenHalt(m: Machine, input: seq<int>, fuel: nat)
    requires fuel >= 2 && m.pc + 2 < |m.program|
    requires m.program[m.pc] == 4 && m.program[m.pc + 2] == 99
    requires 0 <= m.program[m.pc + 1] < |m.program|
    ensures RunFrom(m, input, fuel)
      == Halted(m.(pc := m.pc + 2, output := m.output + [m.program[m.program[m.pc + 1]]]))
  {
    var out := Instruction(Output, false, false, false);
    assert Decode(4) == Some(out);
    OutputStep(m, input, fuel, out, m.program[m.program[m.pc + 1]]);
    assert Decode(99) == Some(Instruction(Exit, false, false, false));
    ExitStep(m.(pc := m.pc + 2, output := m.output + [m.program[m.program[m.pc + 1]]]), input, fuel - 1);
  }

  /** What follows the jump on a zero input: print cell 13, still 0, and halt. */
  lemma JumpPositionZero(p1: seq<int>)
    requires p1 == JumpPositionProgram[12 := 0]
    ensures RunFrom(Machine(p1, 9, 1, []), [0], 3) == Halted(Machine(p1, 11, 1, [0]))
  {
    PrintThenHalt(Machine(p1, 9, 1, []), [0], 3);
  }

  /** What follows the jump on a non-zero input: set cell 13 to 1, print it and halt. */
  lemma JumpPositionNonZero(x: int, p1: seq<int>)
    requires p1 == JumpPositionProgram[12 := x]
    ensures RunFrom(Machine(p1, 5, 1, []), [x], 3) == Halted(Machine(p1[13 := 1], 11, 1, [1]))
  {
    JumpPositionAdd(x, p1);
    PrintThenHalt(Machine(p1[13 := 1], 9, 1, []), [x], 2);
  }

  /** The run of the position-mode jump program on input x. */
  lemma JumpPositionRun(x: int, p0: seq<int>)
    requires p0 == JumpPositionProgram
    ensures var r := RunFrom(Machine(p0, 0, 0, []), [x], 5);
      r.Halted? && r.m.output == [if x == 0 then 0 else 1]
  {
    var p1 := p0[12 := x];
    assert Decode(3) == Some(Instruction(Read, false, false, false));
    ReadStep(Machine(p0, 0, 0, []), [x], 5, Instruction(Read, false, false, false), p1);
    JumpPositionJump(x, p1);
    if x == 0 {
      JumpPositionZero(p1);
    } else {
      JumpPositionNonZero(x, p1);
    }
  }

  /** "3,12,6,12,15,1,13,14,13,4,13,99,-1,0,1,9" outputs 0 when its input is 0
      and 1 otherwise. */
  lemma JumpPositionMode(x: int)
    ensures var r := RunFrom(Machine(JumpPositionProgram, 0, 0, []), [x], 5);
      r.Halted? && r.m.output == [if x == 0 then 0 else 1]
  {
    JumpPositionRun(x, JumpPositionProgram);
  }

  /** The program of test_jump_immediate_mode. */
  const JumpImmediateProgram: seq<int> := [3, 3, 1105, -1, 9, 1101, 0, 0, 12, 4, 12, 99, 1]

  /** The jump of the immediate-mode jump program once the input x is in cell 3:
      on non-zero to the print at 9, otherwise on to the addition at 5. */
  lemma JumpImmediateJump(x: int, p1: seq<int>)
    requires p1 == JumpImmediateProgram[3 := x]
    ensures RunFrom(Machine(p1, 2, 1, []), [x], 4)
      == RunFrom(Machine(p1, if x != 0 then 9 else 5, 1, []), [x], 3)
  {
    var jump := Instruction(JumpIfTrue, true, true, false);
    assert Decode(1105) == Some(jump);
    assert ReadAt(p1, 3, true) == Some(x);
    assert ReadAt(p1, 4, true) == Some(9);
    JumpStep(Machine(p1, 2, 1, []), [x], 4, jump, x, 9);
  }

  /** The addition at 5 sets cell 12 to 0 + 0. */
  lemma JumpImmediateAdd(x: int, p1: seq<int>)
    requires p1 == JumpImmediateProgram[3 := x]
    ensures RunFrom(Machine(p1, 5, 1, []), [x], 3) == RunFrom(Machine(p1[12 := 0], 9, 1, []), [x], 2)
  {
    var add := Instruction(Add, true, true, false);
    assert Decode(1101) == Some(add);
    assert ReadAt(p1, 6, true) == Some(0);
    assert ReadAt(p1, 7, true) == Some(0);
    assert WriteAt(p1, 8, 0) == Some(p1[12 := 0]);
    CombineStep(Machine(p1, 5, 1, []), [x], 3, add, 0, 0, p1[12 := 0]);
  }

  /** The run of the immediate-mode jump program on input x. */
  lemma JumpImmediateRun(x: int, p0: seq<int>)
    requires p0 == JumpImmediateProgram
    ensures var r := RunFrom(Machine(p0, 0, 0, []), [x], 5);
      r.Halted? && r.m.output == [if x == 0 then 0 else 1]
  {
    var p1 := p0[3 := x];
    assert Decode(3) == Some(Instruction(Read, false, false, false));
    ReadStep(Machine(p0, 0, 0, []), [x], 5, Instruction(Read, false, false, false), p1);
    JumpImmediateJump(x, p1);
    if x != 0 {
      assert p1[10] == 12 && p1[12] == 1;
      PrintThenHalt(Machine(p1, 9, 1, []), [x], 3);
    } else {
      JumpImmediateAdd(x, p1);
      assert p1[12 := 0][10] == 12;
      PrintThenHalt(Machine(p1[12 := 0], 9, 1, []), [x], 2);
    }
  }

  /** "3,3,1105,-1,9,1101,0,0,12,4,12,99,1" outputs 0 when its input is 0 and
      1 otherwise. */
  lemma JumpImmediateMode(x: int)
    ensures var r := RunFrom(Machine(JumpImmediateProgram, 0, 0, []), [x], 5);
      r.Halted? && r.m.output == [if x == 0 then 0 else 1]
  {
    JumpImmediateRun(x, JumpImmediateProgram);
  }

  /** The program of test_large_program, written region by region: cells 20
      and 21 are its working cells and cells 19 and 45 are never read. */
  const CompareToEightProgram: seq<int> :=
    [3, 21, 1008, 21, 8, 20, 1005, 20, 22] + [107, 8, 21, 20, 1006, 20, 31, 1106, 0, 36] + [98, 0, 0]
    + [1002, 21, 125, 20, 4, 20, 1105, 1, 46] + [104, 999, 1105, 1, 46] + [1101, 1000, 1, 20, 4, 20, 1105, 1, 46]
    + [98, 99]

  /** Its code, region by region. The input and the first test, with the jump it guards. */
  predicate StartCode(p: seq<int>)
  {
    |p| == 47 && p[..9] == [3, 21, 1008, 21, 8, 20, 1005, 20, 22]
  }

  /** The second test, the jump it guards and the jump to the above-8 branch. */
  predicate TestCode(p: seq<int>)
  {
    |p| == 47 && p[9..19] == [107, 8, 21, 20, 1006, 20, 31, 1106, 0, 36]
  }

  /** The branch for input 8. */
  predicate EqualCode(p: seq<int>)
  {
    |p| == 47 && p[22..31] == [1002, 21, 125, 20, 4, 20, 1105, 1, 46]
  }

  /** The branch for an input below 8. */
  predicate BelowCode(p: seq<int>)
  {
    |p| == 47 && p[31..36] == [104, 999, 1105, 1, 46]
  }

  /** The branch for an input above 8. */
  predicate AboveCode(p: seq<int>)
  {
    |p| == 47 && p[36..45] == [1101, 1000, 1, 20, 4, 20, 1105, 1, 46]
  }

  /** The final 99. */
  predicate TailCode(p: seq<int>)
  {
    |p| == 47 && p[46] == 99
  }

  predicate CompareToEightCode(p: seq<int>)
  {
    StartCode(p) && TestCode(p) && EqualCode(p) && BelowCode(p) && AboveCode(p) && TailCode(p)
  }

  lemma StartCells(p: seq<int>)
    requires StartCode(p)
    ensures p[0] == 3 && p[1] == 21 && p[2] == 1008 && p[3] == 21 && p[4] == 8 && p[5] == 20
    ensures p[6] == 1005 && p[7] == 20 && p[8] == 22
  {
    assert forall k :: 0 <= k < 9 ==> p[k] == p[..9][k];
  }

  lemma TestCells(p: seq<int>)
    requires TestCode(p)
    ensures p[9] == 107 && p[10] == 8 && p[11] == 21 && p[12] == 20
    ensures p[13] == 1006 && p[14] == 20 && p[15] == 31 && p[16] == 1106 && p[17] == 0 && p[18] == 36
  {
    assert forall k :: 9 <= k < 19 ==> p[k] == p[9..19][k - 9];
  }

  lemma EqualCells(p: seq<int>)
    requires EqualCode(p)
    ensures p[22] == 1002 && p[23] == 21 && p[24] == 125 && p[25] == 20
    ensures p[26] == 4 && p[27] == 20 && p[28] == 1105 && p[29] == 1 && p[30] == 46
  {
    assert forall k :: 22 <= k < 31 ==> p[k] == p[22..31][k - 22];
  }

  lemma BelowCells(p: seq<int>)
    requires BelowCode(p)
    ensures p[31] == 104 && p[32] == 999 && p[33] == 1105 && p[34] == 1 && p[35] == 46
  {
    assert forall k :: 31 <= k < 36 ==> p[k] == p[31..36][k - 31];
  }

  lemma AboveCells(p: seq<int>)
    requires AboveCode(p)
    ensures p[36] == 1101 && p[37] == 1000 && p[38] == 1 && p[39] == 20
    ensures p[40] == 4 && p[41] == 20 && p[42] == 1105 && p[43] == 1 && p[44] == 46
  {
    assert forall k :: 36 <= k < 45 ==> p[k] == p[36..45][k - 36];
  }

  /** Writing the working cells 20 and 21 keeps the code. */
  lemma CompareToEightKept(p: seq<int>, i: nat, v: int)
    requires |p| == 47 && (i == 20 || i == 21)
    ensures StartCode(p) ==> StartCode(p[i := v])
    ensures TestCode(p) ==> TestCode(p[i := v])
    ensures EqualCode(p) ==> EqualCode(p[i := v])
    ensures BelowCode(p) ==> BelowCode(p[i := v])
    ensures AboveCode(p) ==> AboveCode(p[i := v])
    ensures TailCode(p) ==> TailCode(p[i := v])
  {
    var q := p[i := v];
    assert q[..9] == p[..9] && q[9..19] == p[9..19];
    assert q[22..31] == p[22..31] && q[31..36] == p[31..36] && q[36..45] == p[36..45];
  }

  /** Storing the input in cell 21 keeps the whole code. */
  lemma CompareToEightInput(p: seq<int>, x: int)
    requires CompareToEightCode(p)
    ensures CompareToEightCode(p[21 := x]) && p[21 := x][21] == x
  {
    CompareToEightKept(p, 21, x);
  }

  /** The literal program has that code. */
  lemma CompareToEightProgramCode()
    ensures CompareToEightCode(CompareToEightProgram)
  {
    var p := CompareToEightProgram;
    assert p[..9] == [3, 21, 1008, 21, 8, 20, 1005, 20, 22];
    assert p[9..19] == [107, 8, 21, 20, 1006, 20, 31, 1106, 0, 36];
    assert p[22..31] == [1002, 21, 125, 20, 4, 20, 1105, 1, 46];
    assert p[31..36] == [104, 999, 1105, 1, 46];
    assert p[36..45] == [1101, 1000, 1, 20, 4, 20, 1105, 1, 46];
  }

  /** The instruction words of the compare-to-8 program, decoded. */
  lemma DecodeCompareToEight()
    ensures Decode(3) == Some(Instruction(Read, false, false, false))
    ensures Decode(4) == Some(Instruction(Output, false, false, false))
    ensures Decode(99) == Some(Instruction(Exit, false, false, false))
    ensures Decode(104) == Some(Instruction(Output, true, false, false))
    ensures Decode(107) == Some(Instruction(LessThan, true, false, false))
    ensures Decode(1002) == Some(Instruction(Multiply, false, true, false))
    ensures Decode(1005) == Some(Instruction(JumpIfTrue, false, true, false))
    ensures Decode(1006) == Some(Instruction(JumpIfFalse, false, true, false))
    ensures Decode(1008) == Some(Instruction(Equals, false, true, false))
    ensures Decode(1101) == Some(Instruction(Add, true, true, false))
    ensures Decode(1105) == Some(Instruction(JumpIfTrue, true, true, false))
    ensures Decode(1106) == Some(Instruction(JumpIfFalse, true, true, false))
  {
  }

  /** "3,21" at 0 stores the input in cell 21. */
  lemma EightRead(m: Machine, x: int, fuel: nat)
    requires fuel > 0 && m.pc == 0 && m.inputCounter == 0 && StartCode(m.program)
    ensures RunFrom(m, [x], fuel)
      == RunFrom(m.(program := m.program[21 := x], pc := 2, inputCounter := 1), [x], fuel - 1)
  {
    StartCells(m.program);
    DecodeCompareToEight();
    ReadStep(m, [x], fuel, Instruction(Read, false, false, false), m.program[21 := x]);
  }

  /** "1008,21,8,20" at 2 sets cell 20 to whether cell 21 equals 8. */
  lemma EightEquals(m: Machine, input: seq<int>, fuel: nat, e: int)
    requires fuel > 0 && m.pc == 2 && StartCode(m.program)
    requires e == if m.program[21] == 8 then 1 else 0
    ensures RunFrom(m, input, fuel) == RunFrom(m.(program := m.program[20 := e], pc := 6), input, fuel - 1)
  {
    var p := m.program;
    StartCells(p);
    DecodeCompareToEight();
    CombineStep(m, input, fuel, Instruction(Equals, false, true, false), p[21], 8, p[20 := e]);
  }

  /** "1005,20,22" at 6 jumps to 22 when cell 20 is not 0. */
  lemma EightJumpEqual(m: Machine, input: seq<int>, fuel: nat, next: nat)
    requires fuel > 0 && m.pc == 6 && StartCode(m.program)
    requires next == if m.program[20] != 0 then 22 else 9
    ensures RunFrom(m, input, fuel) == RunFrom(m.(pc := next), input, fuel - 1)
  {
    StartCells(m.program);
    DecodeCompareToEight();
    JumpStep(m, input, fuel, Instruction(JumpIfTrue, false, true, false), m.program[20], 22);
  }

  /** "107,8,21,20" at 9 sets cell 20 to whether 8 is below cell 21. */
  lemma EightLess(m: Machine, input: seq<int>, fuel: nat, b: int)
    requires fuel > 0 && m.pc == 9 && TestCode(m.program)
    requires b == if 8 < m.program[21] then 1 else 0
    ensures RunFrom(m, input, fuel) == RunFrom(m.(program := m.program[20 := b], pc := 13), input, fuel - 1)
  {
    var p := m.program;
    TestCells(p);
    DecodeCompareToEight();
    CombineStep(m, input, fuel, Instruction(LessThan, true, false, false), 8, p[21], p[20 := b]);
  }

  /** "1006,20,31" at 13 jumps to 31 when cell 20 is 0. */
  lemma EightJumpBelow(m: Machine, input: seq<int>, fuel: nat, next: nat)
    requires fuel > 0 && m.pc == 13 && TestCode(m.program)
    requires next == if m.program[20] == 0 then 31 else 16
    ensures RunFrom(m, input, fuel) == RunFrom(m.(pc := next), input, fuel - 1)
  {
    TestCells(m.program);
    DecodeCompareToEight();
    JumpStep(m, input, fuel, Instruction(JumpIfFalse, false, true, false), m.program[20], 31);
  }

  /** "1106,0,36" at 16 always jumps to 36. */
  lemma EightJumpAbove(m: Machine, input: seq<int>, fuel: nat)
    requires fuel > 0 && m.pc == 16 && TestCode(m.program)
    ensures RunFrom(m, input, fuel) == RunFrom(m.(pc := 36), input, fuel - 1)
  {
    TestCells(m.program);
    DecodeCompareToEight();
    JumpStep(m, input, fuel, Instruction(JumpIfFalse, true, true, false), 0, 36);
  }

  /** "1002,21,125,20" at 22 stores cell 21 times 125 in cell 20. */
  lemma EightTimes(m: Machine, input: seq<int>, fuel: nat, v: int)
    requires fuel > 0 && m.pc == 22 && EqualCode(m.program) && v == m.program[21] * 125
    ensures RunFrom(m, input, fuel) == RunFrom(m.(program := m.program[20 := v], pc := 26), input, fuel - 1)
  {
    var p := m.program;
    EqualCells(p);
    DecodeCompareToEight();
    CombineStep(m, input, fuel, Instruction(Multiply, false, true, false), p[21], 125, p[20 := v]);
  }

  /** "1101,1000,1,20" at 36 stores 1001 in cell 20. */
  lemma EightPlus(m: Machine, input: seq<int>, fuel: nat)
    requires fuel > 0 && m.pc == 36 && AboveCode(m.program)
    ensures RunFrom(m, input, fuel) == RunFrom(m.(program := m.program[20 := 1001], pc := 40), input, fuel - 1)
  {
    AboveCells(m.program);
    DecodeCompareToEight();
    CombineStep(m, input, fuel, Instruction(Add, true, true, false), 1000, 1, m.program[20 := 1001]);
  }

  /** Each branch ends by printing, "4,20" or "104,v", and jumping to 46 with "1105,1,46". */
  lemma EightPrintThenJump(m: Machine, input: seq<int>, fuel: nat, v: int)
    requires fuel >= 2 && |m.program| == 47 && m.pc + 4 < 47
    requires (m.program[m.pc] == 4 && m.program[m.pc + 1] == 20 && v == m.program[20])
      || (m.program[m.pc] == 104 && m.program[m.pc + 1] == v)
    requires m.program[m.pc + 2] == 1105 && m.program[m.pc + 3] == 1 && m.program[m.pc + 4] == 46
    ensures RunFrom(m, input, fuel) == RunFrom(m.(pc := 46, output := m.output + [v]), input, fuel - 2)
  {
    DecodeCompareToEight();
    OutputStep(m, input, fuel, Decode(m.program[m.pc]).value, v);
    var m1 := m.(pc := m.pc + 2, output := m.output + [v]);
    JumpStep(m1, input, fuel - 1, Instruction(JumpIfTrue, true, true, false), 1, 46);
  }

  /** The 99 at 46 halts. */
  lemma EightHalt(m: Machine, input: seq<int>, fuel: nat)
    requires fuel > 0 && m.pc == 46 && TailCode(m.program)
    ensures RunFrom(m, input, fuel) == Halted(m)
  {
    DecodeCompareToEight();
    ExitStep(m, input, fuel);
  }

  /** The run halts, having printed out. */
  predicate HaltsPrinting(r: RunResult, out: seq<int>)
  {
    r.Halted? && r.m.output == out
  }

  /** Input 8, at 26: print cell 20 and halt. */
  lemma CompareToEightEqualEnd(m: Machine, input: seq<int>, fuel: nat)
    requires fuel >= 3 && m.pc == 26 && EqualCode(m.program) && TailCode(m.program)
    ensures HaltsPrinting(RunFrom(m, input, fuel), m.output + [m.program[20]])
  {
    EqualCells(m.program);
    EightPrintThenJump(m, input, fuel, m.program[20]);
    EightHalt(m.(pc := 46, output := m.output + [m.program[20]]), input, fuel - 2);
  }

  /** Input 8, at 22: store 8 * 125 = 1000 in cell 20. */
  lemma CompareToEightTimes(m: Machine, input: seq<int>, fuel: nat)
    requires fuel >= 4 && m.pc == 22 && EqualCode(m.program) && TailCode(m.program) && m.program[21] == 8
    ensures HaltsPrinting(RunFrom(m, input, fuel), m.output + [1000])
  {
    EightTimes(m, input, fuel, 1000);
    CompareToEightKept(m.program, 20, 1000);
    CompareToEightEqualEnd(m.(program := m.program[20 := 1000], pc := 26), input, fuel - 1);
  }

  /** Input 8, at 6: cell 20 is 1, so jump to 22. */
  lemma CompareToEightEqual(m: Machine, input: seq<int>, fuel: nat)
    requires fuel >= 5 && m.pc == 6 && StartCode(m.program) && EqualCode(m.program) && TailCode(m.program)
    requires m.program[21] == 8 && m.program[20] == 1
    ensures HaltsPrinting(RunFrom(m, input, fuel), m.output + [1000])
  {
    EightJumpEqual(m, input, fuel, 22);
    CompareToEightTimes(m.(pc := 22), input, fuel - 1);
  }

  /** Input below 8, at 31: print 999 and halt. */
  lemma CompareToEightBelowEnd(m: Machine, input: seq<int>, fuel: nat)
    requires fuel >= 3 && m.pc == 31 && BelowCode(m.program) && TailCode(m.program)
    ensures HaltsPrinting(RunFrom(m, input, fuel), m.output + [999])
  {
    BelowCells(m.program);
    EightPrintThenJump(m, input, fuel, 999);
    EightHalt(m.(pc := 46, output := m.output + [999]), input, fuel - 2);
  }

  /** Input below 8, at 13: cell 20 is 0, so jump to 31. */
  lemma CompareToEightBelow(m: Machine, input: seq<int>, fuel: nat)
    requires fuel >= 4 && m.pc == 13 && TestCode(m.program) && BelowCode(m.program) && TailCode(m.program)
    requires m.program[20] == 0
    ensures HaltsPrinting(RunFrom(m, input, fuel), m.output + [999])
  {
    EightJumpBelow(m, input, fuel, 31);
    CompareToEightBelowEnd(m.(pc := 31), input, fuel - 1);
  }

  /** Input above 8, at 40: print cell 20 and halt. */
  lemma CompareToEightAboveEnd(m: Machine, input: seq<int>, fuel: nat)
    requires fuel >= 3 && m.pc == 40 && AboveCode(m.program) && TailCode(m.program)
    ensures HaltsPrinting(RunFrom(m, input, fuel), m.output + [m.program[20]])
  {
    AboveCells(m.program);
    EightPrintThenJump(m, input, fuel, m.program[20]);
    EightHalt(m.(pc := 46, output := m.output + [m.program[20]]), input, fuel - 2);
  }

  /** Input above 8, at 36: store 1001 in cell 20. */
  lemma CompareToEightPlus(m: Machine, input: seq<int>, fuel: nat)
    requires fuel >= 4 && m.pc == 36 && AboveCode(m.program) && TailCode(m.program)
    ensures HaltsPrinting(RunFrom(m, input, fuel), m.output + [1001])
  {
    EightPlus(m, input, fuel);
    CompareToEightKept(m.program, 20, 1001);
    CompareToEightAboveEnd(m.(program := m.program[20 := 1001], pc := 40), input, fuel - 1);
  }

  /** Input above 8, at 16: jump to 36. */
  lemma CompareToEightSkip(m: Machine, input: seq<int>, fuel: nat)
    requires fuel >= 5 && m.pc == 16 && TestCode(m.program) && AboveCode(m.program) && TailCode(m.program)
    ensures HaltsPrinting(RunFrom(m, input, fuel), m.output + [1001])
  {
    EightJumpAbove(m, input, fuel);
    CompareToEightPlus(m.(pc := 36), input, fuel - 1);
  }

  /** Input above 8, at 13: cell 20 is 1, so go on to 16. */
  lemma CompareToEightAbove(m: Machine, input: seq<int>, fuel: nat)
    requires fuel >= 6 && m.pc == 13 && TestCode(m.program) && AboveCode(m.program) && TailCode(m.program)
    requires m.program[20] == 1
    ensures HaltsPrinting(RunFrom(m, input, fuel), m.output + [1001])
  {
    EightJumpBelow(m, input, fuel, 16);
    CompareToEightSkip(m.(pc := 16), input, fuel - 1);
  }

  /** Input below 8, at 9: 8 is not below it, so cell 20 becomes 0. */
  lemma CompareToEightTestBelow(m: Machine, input: seq<int>, fuel: nat)
    requires fuel >= 5 && m.pc == 9 && TestCode(m.program) && BelowCode(m.program) && TailCode(m.program)
    requires m.program[21] < 8
    ensures HaltsPrinting(RunFrom(m, input, fuel), m.output + [999])
  {
    EightLess(m, input, fuel, 0);
    CompareToEightKept(m.program, 20, 0);
    CompareToEightBelow(m.(program := m.program[20 := 0], pc := 13), input, fuel - 1);
  }

  /** Input above 8, at 9: 8 is below it, so cell 20 becomes 1. */
  lemma CompareToEightTestAbove(m: Machine, input: seq<int>, fuel: nat)
    requires fuel >= 7 && m.pc == 9 && TestCode(m.program) && AboveCode(m.program) && TailCode(m.program)
    requires m.program[21] > 8
    ensures HaltsPrinting(RunFrom(m, input, fuel), m.output + [1001])
  {
    EightLess(m, input, fuel, 1);
    CompareToEightKept(m.program, 20, 1);
    CompareToEightAbove(m.(program := m.program[20 := 1], pc := 13), input, fuel - 1);
  }

  /** Input other than 8, at 6: cell 20 is 0, so no jump. */
  lemma CompareToEightOther(m: Machine, input: seq<int>, fuel: nat)
    requires fuel >= 8 && m.pc == 6 && StartCode(m.program) && TestCode(m.program)
    requires BelowCode(m.program) && AboveCode(m.program) && TailCode(m.program)
    requires m.program[21] != 8 && m.program[20] == 0
    ensures HaltsPrinting(RunFrom(m, input, fuel), m.output + [if m.program[21] < 8 then 999 else 1001])
  {
    EightJumpEqual(m, input, fuel, 9);
    if m.program[21] < 8 {
      CompareToEightTestBelow(m.(pc := 9), input, fuel - 1);
    } else {
      CompareToEightTestAbove(m.(pc := 9), input, fuel - 1);
    }
  }

  /** Input 8, at 2: cell 20 becomes 1. */
  lemma CompareToEightCompareEqual(m: Machine, input: seq<int>, fuel: nat)
    requires fuel >= 6 && m.pc == 2 && StartCode(m.program) && EqualCode(m.program) && TailCode(m.program)
    requires m.program[21] == 8
    ensures HaltsPrinting(RunFrom(m, input, fuel), m.output + [1000])
  {
    EightEquals(m, input, fuel, 1);
    CompareToEightKept(m.program, 20, 1);
    CompareToEightEqual(m.(program := m.program[20 := 1], pc := 6), input, fuel - 1);
  }

  /** Input other than 8, at 2: cell 20 becomes 0. */
  lemma CompareToEightCompareOther(m: Machine, input: seq<int>, fuel: nat)
    requires fuel >= 9 && m.pc == 2 && StartCode(m.program) && TestCode(m.program)
    requires BelowCode(m.program) && AboveCode(m.program) && TailCode(m.program)
    requires m.program[21] != 8
    ensures HaltsPrinting(RunFrom(m, input, fuel), m.output + [if m.program[21] < 8 then 999 else 1001])
  {
    EightEquals(m, input, fuel, 0);
    CompareToEightKept(m.program, 20, 0);
    CompareToEightOther(m.(program := m.program[20 := 0], pc := 6), input, fuel - 1);
  }

  /** At 2, with the input in cell 21. */
  lemma CompareToEightCompare(m: Machine, input: seq<int>, fuel: nat)
    requires fuel >= 9 && m.pc == 2 && CompareToEightCode(m.program)
    ensures var x := m.program[21];
      HaltsPrinting(RunFrom(m, input, fuel), m.output + [if x < 8 then 999 else if x == 8 then 1000 else 1001])
  {
    if m.program[21] == 8 {
      CompareToEightCompareEqual(m, input, fuel);
    } else {
      CompareToEightCompareOther(m, input, fuel);
    }
  }

  /** The run of the compare-to-8 program on input x. */
  lemma CompareToEightRun(x: int, p0: seq<int>, fuel: nat)
    requires fuel >= 10 && CompareToEightCode(p0)
    ensures HaltsPrinting(RunFrom(Machine(p0, 0, 0, []), [x], fuel), [if x < 8 then 999 else if x == 8 then 1000 else 1001])
  {
    var m := Machine(p0, 0, 0, []);
    EightRead(m, x, fuel);
    CompareToEightInput(p0, x);
    CompareToEightCompare(m.(program := m.program[21 := x], pc := 2, inputCounter := 1), [x], fuel - 1);
  }

  /** The compare-to-8 program of test_large_program outputs 999 for an input
      below 8, 1000 for 8 and 1001 above 8, given the ten steps its longest
      path takes. */
  lemma CompareToEight(x: int, fuel: nat)
    requires fuel >= 10
    ensures var r := RunFrom(Machine(CompareToEightProgram, 0, 0, []), [x], fuel);
      r.Halted? && r.m.output == [if x < 8 then 999 else if x == 8 then 1000 else 1001]
  {
    CompareToEightProgramCode();
    CompareToEightRun(x, CompareToEightProgram, fuel);
  }
}
