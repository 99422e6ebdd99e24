/** The Intcode computer with relative addressing (opcodes 1-9 and 99),
    run against an input stream and an output stream. Memory grows with
    zeros whenever an operand or a write goes past its end. */
module Intcode {
  import opened Prelude

  datatype OpCode =
    | Add | Multiply | Read | Output | JumpIfTrue | JumpIfFalse
    | LessThan | Equals | SetRelative | Exit

  datatype ParameterMode = Position | Absolute | Relative

  datatype Instruction = Instruction(operation: OpCode, mode1: ParameterMode, mode2: ParameterMode, mode3: ParameterMode)
  {
    function Mode(offset: nat): ParameterMode
      requires 1 <= offset <= 3
    {
      if offset == 1 then mode1 else if offset == 2 then mode2 else mode3
    }
  }

  datatype ComputerState = Idle | Halted | Paused

  /** OpCode::from; None is the panic on an unknown opcode. */
  function DecodeOpCode(x: int): (r: Option<OpCode>)
    ensures r.Some? <==> (1 <= x <= 9 || x == 99)
    ensures r == Some(Exit) <==> x == 99
  {
    match x
    case 1 => Some(Add)
    case 2 => Some(Multiply)
    case 3 => Some(Read)
    case 4 => Some(Output)
    case 5 => Some(JumpIfTrue)
    case 6 => Some(JumpIfFalse)
    case 7 => Some(LessThan)
    case 8 => Some(Equals)
    case 9 => Some(SetRelative)
    case 99 => Some(Exit)
    case _ => None
  }

  /** ParameterMode::from; None is the panic on a mode digit other than 0, 1, 2. */
  function DecodeMode(d: int): (r: Option<ParameterMode>)
    ensures r.Some? <==> 0 <= d <= 2
    ensures r == Some(Position) <==> d == 0
    ensures r == Some(Absolute) <==> d == 1
    ensures r == Some(Relative) <==> d == 2
  {
    if d == 0 then Some(Position)
    else if d == 1 then Some(Absolute)
    else if d == 2 then Some(Relative)
    else None
  }

  /** The k-th decimal digit of a non-negative number, counted from the right from 0. */
  function DecimalDigit(x: nat, k: nat): (d: nat)
    ensures d < 10
  {
    if k == 0 then x % 10 else DecimalDigit(x / 10, k - 1)
  }

  /** Instruction::from. A negative word has a negative remainder, which the
      cast to usize turns into a value no opcode matches, so it panics. */
  function Decode(x: int): (r: Option<Instruction>)
    ensures r.Some? <==>
      x >= 0 && DecodeOpCode(x % 100).Some? &&
      DecodeMode(DecimalDigit(x, 2)).Some? && DecodeMode(DecimalDigit(x, 3)).Some? &&
      DecodeMode(DecimalDigit(x, 4)).Some?
    ensures r.Some? ==>
      && Some(r.value.operation) == DecodeOpCode(x % 100)
      && Some(r.value.mode1) == DecodeMode(DecimalDigit(x, 2))
      && Some(r.value.mode2) == DecodeMode(DecimalDigit(x, 3))
      && Some(r.value.mode3) == DecodeMode(DecimalDigit(x, 4))
  {
    if x < 0 then None
    else
      DigitsByDivision(x);
      var operation :- DecodeOpCode(x % 100);
      var i := x / 100;
      var mode1 :- DecodeMode(i % 10);
      var i := i / 10;
      var mode2 :- DecodeMode(i % 10);
      var i := i / 10;
      var mode3 :- DecodeMode(i % 10);
      Some(Instruction(operation, mode1, mode2, mode3))
  }

  lemma DigitsByDivision(x: nat)
    ensures DecimalDigit(x, 2) == (x / 100) % 10
    ensures DecimalDigit(x, 3) == (x / 100 / 10) % 10
    ensures DecimalDigit(x, 4) == (x / 100 / 10 / 10) % 10
  {
    assert DecimalDigit(x, 2) == DecimalDigit(x / 10 / 10, 0);
    assert DecimalDigit(x, 3) == DecimalDigit(x / 10 / 10 / 10, 0);
    assert DecimalDigit(x, 4) == DecimalDigit(x / 10 / 10 / 10 / 10, 0);
    assert x / 10 / 10 == x / 100;
    assert x / 100 / 10 == x / 10 / 10 / 10;
    assert x / 100 / 10 / 10 == x / 10 / 10 / 10 / 10;
  }

  /** The cell at a position, zero past the end of memory. */
  function Load(memory: seq<int>, position: nat): int
  {
    if position < |memory| then memory[position] else 0
  }

  /** Memory resized with zeros so that it has a cell at the position. */
  function Grow(memory: seq<int>, position: nat): (r: seq<int>)
    ensures |r| == if position < |memory| then |memory| else position + 1
    ensures memory <= r
    ensures forall i :: |memory| <= i < |r| ==> r[i] == 0
  {
    if position < |memory| then memory else memory + seq(position + 1 - |memory|, _ => 0)
  }

  /** Memory after writing a value at a position. */
  function Store(memory: seq<int>, position: nat, value: int): (r: seq<int>)
    ensures |r| >= position + 1 && |r| >= |memory|
    ensures r[position] == value
    ensures forall i :: 0 <= i < |r| && i != position ==> r[i] == Load(memory, i)
  {
    Grow(memory, position)[position := value]
  }

  /** What the computer keeps: memory, program counter and relative base. */
  datatype Machine = Machine(memory: seq<int>, pc: nat, relativeBase: int)

  /** A value read through an operand, and the machine after the read. */
  datatype Loaded = Loaded(value: int, m: Machine)

  /** Computer::get_address. None stands for a negative address: the cast
      to usize wraps it to a huge index, and the memory resize or the
      indexing that follows panics. */
  function Address(m: Machine, offset: nat, ins: Instruction): (r: Option<(nat, Machine)>)
    requires 1 <= offset <= 3
    ensures r.Some? ==> r.value.1.pc == m.pc && r.value.1.relativeBase == m.relativeBase
    ensures r.Some? ==> |r.value.1.memory| >= |m.memory|
    ensures r.Some? ==> forall i :: 0 <= i < |r.value.1.memory| ==> r.value.1.memory[i] == Load(m.memory, i)
  {
    var cell := m.pc + offset;
    var grown := m.(memory := Grow(m.memory, cell));
    match ins.Mode(offset)
    case Position =>
      var a := Load(m.memory, cell);
      if a < 0 then None else Some((a, grown))
    case Absolute => Some((cell, m))
    case Relative =>
      var a := Load(m.memory, cell) + m.relativeBase;
      if a < 0 then None else Some((a, grown))
  }

  /** Computer::read: the operand's value. */
  function Param(m: Machine, offset: nat, ins: Instruction): (r: Option<Loaded>)
    requires 1 <= offset <= 3
    ensures r.Some? ==> r.value.m.pc == m.pc && r.value.m.relativeBase == m.relativeBase
    ensures r.Some? ==> |r.value.m.memory| >= |m.memory|
  {
    var (a, m1) :- Address(m, offset, ins);
    Some(Loaded(Load(m1.memory, a), m1.(memory := Grow(m1.memory, a))))
  }

  /** Computer::write: store a value through the operand. */
  function Put(m: Machine, offset: nat, ins: Instruction, value: int): (r: Option<Machine>)
    requires 1 <= offset <= 3
    ensures r.Some? ==> r.value.pc == m.pc && r.value.relativeBase == m.relativeBase
  {
    var (a, m1) :- Address(m, offset, ins);
    Some(m1.(memory := Store(m1.memory, a, value)))
  }

  /** Machine and both streams between two instructions. */
  datatype Config = Config(m: Machine, input: seq<int>, output: seq<int>)

  function Arith(op: OpCode, a: int, b: int): int
  {
    match op
    case Add => a + b
    case Multiply => a * b
    case LessThan => if a < b then 1 else 0
    case Equals => if a == b then 1 else 0
    case _ => 0
  }

  /** How run_io ends: it breaks with Paused or Halted, it panics, or (in
      this model only) the instruction budget runs out. Run(c, 1) is a
      single trip round the loop; OutOfFuel then carries the next state. */
  datatype RunResult = Stopped(state: ComputerState, c: Config) | Panicked | OutOfFuel(c: Config)

  /** Computer::run_io for at most fuel instructions: fetch (indexing memory
      directly, so a pc past the end panics), decode, execute, repeat. */
  function Run(c: Config, fuel: nat): RunResult
    decreases fuel, 2
  {
    if fuel == 0 then OutOfFuel(c)
    else if c.m.pc >= |c.m.memory| then Panicked
    else match Decode(c.m.memory[c.m.pc])
      case None => Panicked
      case Some(ins) => Execute(c, ins, fuel)
  }

  function Execute(c: Config, ins: Instruction, fuel: nat): RunResult
    requires fuel > 0
    decreases fuel, 1
  {
    match ins.operation
    case Add => ThreeOperand(c, ins, fuel)
    case Multiply => ThreeOperand(c, ins, fuel)
    case LessThan => ThreeOperand(c, ins, fuel)
    case Equals => ThreeOperand(c, ins, fuel)
    case Read => ReadInput(c, ins, fuel)
    case Output => WriteOutput(c, ins, fuel)
    case JumpIfTrue => Jump(c, ins, true, fuel)
    case JumpIfFalse => Jump(c, ins, false, fuel)
    case SetRelative => AdjustBase(c, ins, fuel)
    case Exit => Stopped(Halted, c)
  }

  /** Add, Multiply, LessThan and Equals: two reads, one write, pc + 4. */
  function ThreeOperand(c: Config, ins: Instruction, fuel: nat): RunResult
    requires fuel > 0
    decreases fuel, 0
  {
    match Param(c.m, 1, ins)
    case None => Panicked
    case Some(a) =>
      match Param(a.m, 2, ins)
      case None => Panicked
      case Some(b) =>
        match Put(b.m, 3, ins, Arith(ins.operation, a.value, b.value))
        case None => Panicked
        case Some(m1) => Run(c.(m := m1.(pc := m1.pc + 4)), fuel - 1)
  }

  /** Read: an empty input breaks the loop as Paused with nothing changed. */
  function ReadInput(c: Config, ins: Instruction, fuel: nat): RunResult
    requires fuel > 0
    decreases fuel, 0
  {
    if c.input == [] then Stopped(Paused, c)
    else match Put(c.m, 1, ins, c.input[0])
      case None => Panicked
      case Some(m1) => Run(Config(m1.(pc := m1.pc + 2), c.input[1..], c.output), fuel - 1)
  }

  function WriteOutput(c: Config, ins: Instruction, fuel: nat): RunResult
    requires fuel > 0
    decreases fuel, 0
  {
    match Param(c.m, 1, ins)
    case None => Panicked
    case Some(r) => Run(Config(r.m.(pc := r.m.pc + 2), c.input, c.output + [r.value]), fuel - 1)
  }

  /** SetRelative: the operand is added to the relative base. */
  function AdjustBase(c: Config, ins: Instruction, fuel: nat): RunResult
    requires fuel > 0
    decreases fuel, 0
  {
    match Param(c.m, 1, ins)
    case None => Panicked
    case Some(r) =>
      Run(c.(m := r.m.(pc := r.m.pc + 2, relativeBase := r.m.relativeBase + r.value)), fuel - 1)
  }

  /** JumpIfTrue (whenNonZero) and JumpIfFalse. A negative target wraps to
      a huge pc under the usize cast, and the next instruction fetch then
      panics. */
  function Jump(c: Config, ins: Instruction, whenNonZero: bool, fuel: nat): RunResult
    requires fuel > 0
    decreases fuel, 0
  {
    match Param(c.m, 1, ins)
    case None => Panicked
    case Some(v) =>
      if (v.value != 0) == whenNonZero then
        match Param(v.m, 2, ins)
        case None => Panicked
        case Some(t) => if t.value < 0 then Panicked else Run(c.(m := t.m.(pc := t.value)), fuel - 1)
      else Run(c.(m := v.m.(pc := v.m.pc + 3)), fuel - 1)
  }

  /** What one step tells the run loop. */
  datatype Signal = Continue | Stop(state: ComputerState) | Fault

  /** Stream: a first-in first-out queue of values. */
  class Stream {
    var data: seq<int>

    constructor ()
      ensures data == []
    {
      data := [];
    }

    method Read() returns (r: Option<int>)
      modifies this
      ensures old(data) == [] ==> r == None && data == []
      ensures old(data) != [] ==> r == Some(old(data)[0]) && data == old(data)[1..]
    {
      if data == [] {
        r := None;
      } else {
        r := Some(data[0]);
        data := data[1..];
      }
    }

    method Write(value: int)
      modifies this
      ensures data == old(data) + [value]
    {
      data := data + [value];
    }
  }

  /** Values come out of a stream in the order they went in. */
  method StreamIsFifo(x: int, y: int)
  {
    var s := new Stream();
    s.Write(x);
    s.Write(y);
    var a := s.Read();
    var b := s.Read();
    var c := s.Read();
    assert a == Some(x) && b == Some(y) && c == None;
  }

  class Computer {
    var memory: seq<int>
    var pc: nat
    var state: ComputerState
    var relativeBase: int

    function Snapshot(): Machine
      reads this
    {
      Machine(memory, pc, relativeBase)
    }

    constructor (program: seq<int>)
      ensures memory == program && pc == 0 && state == Idle && relativeBase == 0
    {
      memory := program;
      pc := 0;
      state := Idle;
      relativeBase := 0;
    }

    /** Computer::_read: grows memory so the position exists and returns its cell. */
    method ReadCell(position: nat) returns (v: int)
      modifies this
      ensures v == Load(old(memory), position)
      ensures memory == Grow(old(memory), position)
      ensures |memory| > position && memory[position] == v
      ensures pc == old(pc) && relativeBase == old(relativeBase) && state == old(state)
    {
      if position >= |memory| {
        memory := memory + seq(position + 1 - |memory|, _ => 0);
      }
      v := memory[position];
    }

    method GetAddress(offset: nat, ins: Instruction) returns (r: Option<nat>)
      requires 1 <= offset <= 3
      modifies this
      ensures var a := Address(old(Snapshot()), offset, ins);
        (a.None? <==> r.None?) && (a.Some? ==> r.value == a.value.0 && Snapshot() == a.value.1)
      ensures state == old(state)
    {
      match ins.Mode(offset)
      case Position =>
        var a := ReadCell(pc + offset);
        r := if a < 0 then None else Some(a);
      case Absolute =>
        r := Some(pc + offset);
      case Relative =>
        var a := ReadCell(pc + offset);
        r := if a + relativeBase < 0 then None else Some(a + relativeBase);
    }

    method ReadParam(offset: nat, ins: Instruction) returns (r: Option<int>)
      requires 1 <= offset <= 3
      modifies this
      ensures var p := Param(old(Snapshot()), offset, ins);
        (p.None? <==> r.None?) && (p.Some? ==> r.value == p.value.value && Snapshot() == p.value.m)
      ensures state == old(state)
    {
      var address := GetAddress(offset, ins);
      match address
      case None => r := None;
      case Some(a) =>
        var v := ReadCell(a);
        r := Some(v);
    }

    method WriteParam(offset: nat, ins: Instruction, value: int) returns (ok: bool)
      requires 1 <= offset <= 3
      modifies this
      ensures var p := Put(old(Snapshot()), offset, ins, value);
        (p.None? <==> !ok) && (p.Some? ==> Snapshot() == p.value)
      ensures state == old(state)
    {
      var address := GetAddress(offset, ins);
      match address
      case None => ok := false;
      case Some(a) =>
        if a >= |memory| {
          memory := memory + seq(a + 1 - |memory|, _ => 0);
        }
        memory := memory[a := value];
        ok := true;
    }

    function Current(input: Stream, output: Stream): Config
      reads this, input, output
    {
      Config(Snapshot(), input.data, output.data)
    }

    /** Computer::run: feed the values through a fresh input stream, run,
        and return what the output stream collected. */
    method RunList(values: seq<int>, fuel: nat) returns (outputs: seq<int>, panicked: bool)
      modifies this
      ensures var r := Run(Config(old(Snapshot()), values, []), fuel);
        && (panicked <==> r.Panicked?)
        && (r.Stopped? ==> state == r.state && outputs == r.c.output && Snapshot() == r.c.m)
        && (r.OutOfFuel? ==> outputs == r.c.output && Snapshot() == r.c.m)
    {
      var input := new Stream();
      var i := 0;
      while i < |values|
        invariant i <= |values| && input.data == values[..i]
        modifies input
      {
        input.Write(values[i]);
        i := i + 1;
      }
      assert values[..i] == values;
      var output := new Stream();
      panicked := RunIo(input, output, fuel);
      outputs := output.data;
    }

    /** Computer::run_io for at most fuel instructions. On a break the
        computer's state becomes Paused or Halted; panicked is the source's
        panic; a run that uses up its fuel leaves the state as it was. */
    method RunIo(input: Stream, output: Stream, fuel: nat) returns (panicked: bool)
      requires input != output
      modifies this, input, output
      ensures var r := Run(old(Current(input, output)), fuel);
        && (panicked <==> r.Panicked?)
        && (r.Stopped? ==> state == r.state && Current(input, output) == r.c)
        && (r.OutOfFuel? ==> state == old(state) && Current(input, output) == r.c)
    {
      var budget := fuel;
      panicked := false;
      while budget > 0
        invariant Run(Current(input, output), budget) == Run(old(Current(input, output)), fuel)
        invariant state == old(state)
        decreases budget
      {
        var signal := StepOnce(input, output, budget);
        if signal.Stop? {
          state := signal.state;
          return;
        } else if signal.Fault? {
          panicked := true;
          return;
        }
        budget := budget - 1;
      }
    }

    /** One fetch, decode and execute, stated in terms of the rest of the run. */
    method StepOnce(input: Stream, output: Stream, budget: nat) returns (signal: Signal)
      requires input != output && budget > 0
      modifies this, input, output
      ensures signal.Continue? ==> Run(old(Current(input, output)), budget) == Run(Current(input, output), budget - 1)
      ensures signal.Stop? ==> Run(old(Current(input, output)), budget) == Stopped(signal.state, Current(input, output))
      ensures signal.Fault? ==> Run(old(Current(input, output)), budget) == Panicked
      ensures state == old(state)
    {
      ghost var before := Current(input, output);
      if pc >= |memory| {
        return Fault;
      }
      var decoded := Decode(memory[pc]);
      if decoded.None? {
        return Fault;
      }
      var ins := decoded.value;
      assert Run(before, budget) == Execute(before, ins, budget);
      match ins.operation {
        case Add => signal := Binary(ins, input, output, budget);
        case Multiply => signal := Binary(ins, input, output, budget);
        case LessThan => signal := Binary(ins, input, output, budget);
        case Equals => signal := Binary(ins, input, output, budget);
        case Read => signal := ReadOp(ins, input, output, budget);
        case Output => signal := OutputOp(ins, input, output, budget);
        case JumpIfTrue => signal := JumpIf(ins, true, input, output, budget);
        case JumpIfFalse => signal := JumpIf(ins, false, input, output, budget);
        case SetRelative => signal := SetRelativeOp(ins, input, output, budget);
        case Exit => signal := Stop(Halted);
      }
    }

    /** The shared body of Add, Multiply, LessThan and Equals. */
    method Binary(ins: Instruction, input: Stream, output: Stream, budget: nat) returns (signal: Signal)
      requires budget > 0
      modifies this
      ensures signal.Continue? || signal.Fault?
      ensures signal.Continue? ==> ThreeOperand(old(Current(input, output)), ins, budget) == Run(Current(input, output), budget - 1)
      ensures signal.Fault? ==> ThreeOperand(old(Current(input, output)), ins, budget) == Panicked
      ensures state == old(state)
    {
      ghost var c := Current(input, output);
      var a := ReadParam(1, ins);
      if a.None? {
        return Fault;
      }
      ghost var pa := Param(c.m, 1, ins).value;
      var b := ReadParam(2, ins);
      if b.None? {
        return Fault;
      }
      ghost var pb := Param(pa.m, 2, ins).value;
      var ok := WriteParam(3, ins, Arith(ins.operation, a.value, b.value));
      if !ok {
        return Fault;
      }
      ghost var m1 := Put(pb.m, 3, ins, Arith(ins.operation, pa.value, pb.value)).value;
      pc := pc + 4;
      assert Current(input, output) == c.(m := m1.(pc := m1.pc + 4));
      signal := Continue;
    }

    method ReadOp(ins: Instruction, input: Stream, output: Stream, budget: nat) returns (signal: Signal)
      requires input != output && budget > 0
      modifies this, input
      ensures signal.Continue? ==> ReadInput(old(Current(input, output)), ins, budget) == Run(Current(input, output), budget - 1)
      ensures signal.Stop? ==> ReadInput(old(Current(input, output)), ins, budget) == Stopped(signal.state, Current(input, output))
      ensures signal.Fault? ==> ReadInput(old(Current(input, output)), ins, budget) == Panicked
      ensures state == old(state)
    {
      var value := input.Read();
      if value.None? {
        return Stop(Paused);
      }
      var ok := WriteParam(1, ins, value.value);
      if !ok {
        return Fault;
      }
      pc := pc + 2;
      signal := Continue;
    }

    method OutputOp(ins: Instruction, input: Stream, output: Stream, budget: nat) returns (signal: Signal)
      requires input != output && budget > 0
      modifies this, output
      ensures signal.Continue? || signal.Fault?
      ensures signal.Continue? ==> WriteOutput(old(Current(input, output)), ins, budget) == Run(Current(input, output), budget - 1)
      ensures signal.Fault? ==> WriteOutput(old(Current(input, output)), ins, budget) == Panicked
      ensures state == old(state)
    {
      var value := ReadParam(1, ins);
      if value.None? {
        return Fault;
      }
      output.Write(value.value);
      pc := pc + 2;
      signal := Continue;
    }

    method SetRelativeOp(ins: Instruction, input: Stream, output: Stream, budget: nat) returns (signal: Signal)
      requires budget > 0
      modifies this
      ensures signal.Continue? || signal.Fault?
      ensures signal.Continue? ==> AdjustBase(old(Current(input, output)), ins, budget) == Run(Current(input, output), budget - 1)
      ensures signal.Fault? ==> AdjustBase(old(Current(input, output)), ins, budget) == Panicked
      ensures state == old(state)
    {
      ghost var c := Current(input, output);
      var value := ReadParam(1, ins);
      if value.None? {
        return Fault;
      }
      ghost var r := Param(c.m, 1, ins).value;
      relativeBase := relativeBase + value.value;
      pc := pc + 2;
      assert Current(input, output) == c.(m := r.m.(pc := r.m.pc + 2, relativeBase := r.m.relativeBase + r.value));
      signal := Continue;
    }

    method JumpIf(ins: Instruction, whenNonZero: bool, input: Stream, output: Stream, budget: nat) returns (signal: Signal)
      requires budget > 0
      modifies this
      ensures signal.Continue? || signal.Fault?
      ensures signal.Continue? ==> Jump(old(Current(input, output)), ins, whenNonZero, budget) == Run(Current(input, output), budget - 1)
      ensures signal.Fault? ==> Jump(old(Current(input, output)), ins, whenNonZero, budget) == Panicked
      ensures state == old(state)
    {
      var value := ReadParam(1, ins);
      if value.None? {
        return Fault;
      }
      if (value.value != 0) == whenNonZero {
        var target := ReadParam(2, ins);
        if target.None? || target.value < 0 {
          return Fault;
        }
        pc := target.value;
      } else {
        pc := pc + 3;
      }
      signal := Continue;
    }
  }

  /** Reading past the end returns 0 and leaves memory long enough to hold the position. */
  lemma ReadPastEnd(m: Machine, position: nat)
    requires position >= |m.memory|
    ensures Load(m.memory, position) == 0
    ensures |Grow(m.memory, position)| == position + 1
    ensures Grow(m.memory, position)[position] == 0
  {
  }

  /** A write at address a leaves at least a + 1 cells and the value at a. */
  lemma WriteLands(m: Machine, offset: nat, ins: Instruction, value: int)
    requires 1 <= offset <= 3
    requires Put(m, offset, ins, value).Some?
    ensures var a := Address(m, offset, ins).value.0;
      var mem := Put(m, offset, ins, value).value.memory;
      |mem| >= a + 1 && mem[a] == value
  {
  }

  /** A Read with no input pauses without moving pc; opcode 99 halts. */
  lemma ReadOnEmptyInputPauses(c: Config, fuel: nat)
    requires fuel > 0 && c.m.pc < |c.m.memory|
    requires Decode(c.m.memory[c.m.pc]).Some? && Decode(c.m.memory[c.m.pc]).value.operation == Read
    requires c.input == []
    ensures Run(c, fuel) == Stopped(Paused, c)
  {
    var ins := Decode(c.m.memory[c.m.pc]).value;
    assert Run(c, fuel) == Execute(c, ins, fuel) == ReadInput(c, ins, fuel);
  }

  lemma ExitHalts(c: Config, fuel: nat)
    requires fuel > 0 && c.m.pc < |c.m.memory| && c.m.memory[c.m.pc] == 99
    ensures Run(c, fuel) == Stopped(Halted, c)
  {
    assert Decode(99) == Some(Instruction(Exit, Position, Position, Position));
  }

  /** Arithmetic and comparison instructions advance pc by 4; a jump whose
      condition fails advances it by 3. */
  lemma PcAdvance(c: Config)
    requires c.m.pc < |c.m.memory| && Decode(c.m.memory[c.m.pc]).Some?
    ensures var ins := Decode(c.m.memory[c.m.pc]).value;
      ins.operation in {Add, Multiply, LessThan, Equals} && Run(c, 1).OutOfFuel? ==>
        Run(c, 1).c.m.pc == c.m.pc + 4
    ensures var ins := Decode(c.m.memory[c.m.pc]).value;
      ins.operation in {JumpIfTrue, JumpIfFalse} && Param(c.m, 1, ins).Some? &&
      (Param(c.m, 1, ins).value.value != 0) != (ins.operation == JumpIfTrue) ==>
        Run(c, 1) == OutOfFuel(c.(m := Param(c.m, 1, ins).value.m.(pc := c.m.pc + 3)))
  {
    var ins := Decode(c.m.memory[c.m.pc]).value;
    assert Run(c, 1) == Execute(c, ins, 1);
  }

  /** The relative-base example: with base 2000, "109,19,204,-34,99" moves the
      base to 2019 and outputs the zero found past the end of memory. */
  lemma RelativeBaseExample()
    ensures var r := Run(Config(Machine([109, 19, 204, -34, 99], 0, 2000), [], []), 3);
      r.Stopped? && r.state == Halted && r.c.m.relativeBase == 2019 && r.c.output == [0]
  {
    var m0 := Machine([109, 19, 204, -34, 99], 0, 2000);
    var i0 := Instruction(SetRelative, Absolute, Position, Position);
    DecodeSetRelative();
    ParamAbsolute(m0, i0);
    AdjustStep(Config(m0, [], []), 3, i0, Loaded(19, m0));
    var c1 := Config(Machine([109, 19, 204, -34, 99], 2, 2019), [], []);
    var mem2 := Grow([109, 19, 204, -34, 99], 1985);
    RelativeBaseSecond(c1, mem2);
    var c2 := Config(Machine(mem2, 4, 2019), [], [0]);
    assert mem2[4] == 99;
    ExitHalts(c2, 1);
  }

  /** Running from opcode 9 adds the operand to the relative base and moves on by two. */
  lemma AdjustStep(c: Config, fuel: nat, ins: Instruction, r: Loaded)
    requires fuel > 0 && c.m.pc < |c.m.memory| && Decode(c.m.memory[c.m.pc]) == Some(ins)
    requires ins.operation == SetRelative && Param(c.m, 1, ins) == Some(r)
    ensures Run(c, fuel) == Run(c.(m := r.m.(pc := r.m.pc + 2, relativeBase := r.m.relativeBase + r.value)), fuel - 1)
  {
    assert Run(c, fuel) == Execute(c, ins, fuel) == AdjustBase(c, ins, fuel);
  }

  /** Running from opcode 4 appends the operand to the output and moves on by two. */
  lemma OutputStep(c: Config, fuel: nat, ins: Instruction, r: Loaded)
    requires fuel > 0 && c.m.pc < |c.m.memory| && Decode(c.m.memory[c.m.pc]) == Some(ins)
    requires ins.operation == Output && Param(c.m, 1, ins) == Some(r)
    ensures Run(c, fuel) == Run(Config(r.m.(pc := r.m.pc + 2), c.input, c.output + [r.value]), fuel - 1)
  {
    assert Run(c, fuel) == Execute(c, ins, fuel) == WriteOutput(c, ins, fuel);
  }

  lemma DecodeSetRelative()
    ensures Decode(109) == Some(Instruction(SetRelative, Absolute, Position, Position))
  {
  }

  lemma ParamAbsolute(m0: Machine, i0: Instruction)
    requires m0 == Machine([109, 19, 204, -34, 99], 0, 2000)
    requires i0 == Instruction(SetRelative, Absolute, Position, Position)
    ensures Param(m0, 1, i0) == Some(Loaded(19, m0))
  {
    assert Address(m0, 1, i0) == Some((1, m0));
  }

  lemma RelativeBaseSecond(c1: Config, mem2: seq<int>)
    requires c1 == Config(Machine([109, 19, 204, -34, 99], 2, 2019), [], [])
    requires mem2 == Grow([109, 19, 204, -34, 99], 1985)
    ensures Run(c1, 2) == Run(Config(Machine(mem2, 4, 2019), [], [0]), 1)
  {
    var i1 := Instruction(Output, Relative, Position, Position);
    assert Decode(204) == Some(i1);
    assert Address(c1.m, 1, i1) == Some((1985, c1.m));
    assert Param(c1.m, 1, i1) == Some(Loaded(0, c1.m.(memory := mem2)));
    OutputStep(c1, 2, i1, Loaded(0, c1.m.(memory := mem2)));
  }

  /** Running from opcode 1, 2, 7 or 8 stores the combined operands through the
      third operand and moves on by four. */
  lemma ThreeOperandStep(c: Config, fuel: nat, ins: Instruction, a: Loaded, b: Loaded, m1: Machine)
    requires fuel > 0 && c.m.pc < |c.m.memory| && Decode(c.m.memory[c.m.pc]) == Some(ins)
    requires ins.operation in {Add, Multiply, LessThan, Equals}
    requires Param(c.m, 1, ins) == Some(a) && Param(a.m, 2, ins) == Some(b)
    requires Put(b.m, 3, ins, Arith(ins.operation, a.value, b.value)) == Some(m1)
    ensures Run(c, fuel) == Run(c.(m := m1.(pc := m1.pc + 4)), fuel - 1)
  {
    assert Run(c, fuel) == Execute(c, ins, fuel) == ThreeOperand(c, ins, fuel);
  }

  lemma DecodeLargeProduct()
    ensures Decode(1102) == Some(Instruction(Multiply, Absolute, Absolute, Position))
    ensures Decode(4) == Some(Instruction(Output, Position, Position, Position))
  {
  }

  /** The product step of "1102,x,y,7,4,7,99,0". */
  lemma ProductMultiply(c0: Config, x: int, y: int)
    requires c0.m.memory == [1102, x, y, 7, 4, 7, 99, 0] && c0.m.pc == 0
    ensures Run(c0, 3) == Run(c0.(m := c0.m.(memory := c0.m.memory[7 := x * y], pc := 4)), 2)
  {
    var ins := Instruction(Multiply, Absolute, Absolute, Position);
    DecodeLargeProduct();
    assert Address(c0.m, 1, ins) == Some((1, c0.m));
    assert Address(c0.m, 2, ins) == Some((2, c0.m));
    assert Address(c0.m, 3, ins) == Some((7, c0.m));
    var m1 := c0.m.(memory := c0.m.memory[7 := x * y]);
    assert Put(c0.m, 3, ins, x * y) == Some(m1);
    ThreeOperandStep(c0, 3, ins, Loaded(x, c0.m), Loaded(y, c0.m), m1);
  }

  /** The output step of the same program, once the product is in cell 7. */
  lemma ProductOutput(c1: Config, x: int, y: int)
    requires c1.m.memory == [1102, x, y, 7, 4, 7, 99, 0][7 := x * y] && c1.m.pc == 4
    ensures Run(c1, 2) == Run(Config(c1.m.(pc := 6), c1.input, c1.output + [x * y]), 1)
  {
    var ins := Instruction(Output, Position, Position, Position);
    DecodeLargeProduct();
    assert Address(c1.m, 1, ins) == Some((7, c1.m));
    OutputStep(c1, 2, ins, Loaded(x * y, c1.m));
  }

  /** "1102,x,y,7,4,7,99,0" multiplies its two immediates into cell 7,
      outputs the product and halts. */
  lemma ProductRun(c0: Config, x: int, y: int)
    requires c0.m.memory == [1102, x, y, 7, 4, 7, 99, 0] && c0.m.pc == 0
    ensures var r := Run(c0, 3);
      r.Stopped? && r.state == Halted && r.c.output == c0.output + [x * y]
  {
    ProductMultiply(c0, x, y);
    var c1 := c0.(m := c0.m.(memory := c0.m.memory[7 := x * y], pc := 4));
    ProductOutput(c1, x, y);
    ExitHalts(Config(c1.m.(pc := 6), c1.input, c1.output + [x * y]), 1);
  }

  /** "1102,34915192,34915192,7,4,7,99,0" multiplies 34915192 by itself and
      outputs the sixteen-digit product 1219070632396864. */
  lemma LargeProductExample()
    ensures var r := Run(Config(Machine([1102, 34915192, 34915192, 7, 4, 7, 99, 0], 0, 0), [], []), 3);
      r.Stopped? && r.state == Halted && r.c.output == [1219070632396864]
  {
    ProductRun(Config(Machine([1102, 34915192, 34915192, 7, 4, 7, 99, 0], 0, 0), [], []), 34915192, 34915192);
  }

  /** "104,v,99" outputs v and halts, whatever v is. */
  lemma OutputImmediateRun(c0: Config, v: int)
    requires c0.m.memory == [104, v, 99] && c0.m.pc == 0
    ensures var r := Run(c0, 2);
      r.Stopped? && r.state == Halted && r.c.output == c0.output + [v]
  {
    var ins := Instruction(Output, Absolute, Position, Position);
    assert Decode(104) == Some(ins);
    assert Address(c0.m, 1, ins) == Some((1, c0.m));
    OutputStep(c0, 2, ins, Loaded(v, c0.m));
    ExitHalts(Config(c0.m.(pc := 2), c0.input, c0.output + [v]), 1);
  }

  /** "104,1125899906842624,99" outputs its immediate operand 1125899906842624,
      sixteen digits wide. */
  lemma LargeImmediateExample()
    ensures var r := Run(Config(Machine([104, 1125899906842624, 99], 0, 0), [], []), 2);
      r.Stopped? && r.state == Halted && r.c.output == [1125899906842624]
  {
    OutputImmediateRun(Config(Machine([104, 1125899906842624, 99], 0, 0), [], []), 1125899906842624);
  }
}
