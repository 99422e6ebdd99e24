# Advent of Code solutions, modelled in Dafny

Each module models one puzzle solution of the archive. Prelude holds the shared options, powers and string parsing; Modular holds Rust's truncating remainder and the congruence lemmas that relate it to Dafny's Euclidean one.

## Model

| member | source | states |
|---|---|---|
| Snafu.Value | 2022/src/bin/25.rs:9-15 | the loop's total is the sum of each digit times five to the power of its position from the right |
| Snafu.FromDecimal | 2022/src/bin/25.rs:17-34 | digits lie in -2..2, their value is the input for positive inputs, the leading digit is 1 or 2, and a non-positive input gives no digits |
| Snafu.PlaceValueAppend | 2022/src/bin/25.rs:9-15 | appending a digit on the right multiplies the value by five and adds the digit |
| Snafu.Encode | 2022/src/bin/25.rs:36-45 | each digit becomes the symbol that decodes back to it |
| Snafu.FromStr | 2022/src/bin/25.rs:48-65 | panics (None) exactly when some character is not one of = - 0 1 2; otherwise each symbol becomes the digit that encodes back to it |
| Snafu.EncodeFromStr | 2022/src/bin/25.rs:36-65 | a string over the alphabet reads and writes back to itself |
| Snafu.FromStrEncode | 2022/src/bin/25.rs:36-65 | digits in -2..2 write and read back to themselves |
| Snafu.ReadDigits | 2022/src/bin/25.rs:48-65 | the string that writes out the digits reads as those digits |
| Snafu.ExampleOne | 2022/src/bin/25.rs:106 | "1" is 1 |
| Snafu.ExampleYear | 2022/src/bin/25.rs:108 | "1=11-2" is 2022 |
| Snafu.ExampleLarge | 2022/src/bin/25.rs:109 | "1-0---0" is 12345 |
| Snafu.ExampleSmall | 2022/src/bin/25.rs:110 | "2=-01" is 976 |
| Snafu.ExampleBad | 2022/src/bin/25.rs:59-60 | a character outside the alphabet reaches unreachable!() and panics |
| Intcode.Decode | 2019/src/day9/intcode.rs:68-83 | the opcode is the word modulo 100 and the three modes are its next three decimal digits; a negative word, an unknown opcode or a mode digit above 2 panics |
| Intcode.DecodeOpCode | 2019/src/day9/intcode.rs:44-59 | codes 1-9 and 99 name the ten operations and every other code panics |
| Intcode.DecodeMode | 2019/src/day9/intcode.rs:92-101 | digits 0, 1 and 2 are position, absolute and relative mode, and any other digit panics |
| Intcode.Grow | 2019/src/day9/intcode.rs:252-257 | resizing keeps the old cells, reaches one past the position, and fills the new cells with zeros |
| Intcode.Store | 2019/src/day9/intcode.rs:244-250 | after a write the memory has a cell at the address holding the value, and every other cell reads as before |
| Intcode.Address | 2019/src/day9/intcode.rs:259-266 | resolving an operand leaves pc and the relative base alone and only grows memory, without changing what any cell reads as |
| Intcode.Param | 2019/src/day9/intcode.rs:239-242 | reading an operand leaves pc and the relative base alone and never shrinks memory |
| Intcode.Put | 2019/src/day9/intcode.rs:244-250 | writing an operand leaves pc and the relative base alone |
| Intcode.Stream.constructor | 2019/src/day9/intcode.rs:274-278 | a new stream is empty |
| Intcode.Stream.Read | 2019/src/day9/intcode.rs:280-282 | reading an empty stream gives None; otherwise it gives the front value and drops it |
| Intcode.Stream.Write | 2019/src/day9/intcode.rs:284-286 | writing appends the value at the back, so values are read in write order |
| Intcode.Computer.constructor | 2019/src/day9/intcode.rs:121-130 | a new computer holds the program, pc 0, relative base 0 and state Idle |
| Intcode.Computer.ReadCell | 2019/src/day9/intcode.rs:252-257 | reading a cell grows memory to cover it and returns its value, zero past the old end |
| Intcode.Computer.GetAddress | 2019/src/day9/intcode.rs:259-266 | the address and the memory after resolving it are those of Intcode.Address |
| Intcode.Computer.ReadParam | 2019/src/day9/intcode.rs:239-242 | the value and the memory after reading are those of Intcode.Param |
| Intcode.Computer.WriteParam | 2019/src/day9/intcode.rs:244-250 | the memory after writing is that of Intcode.Put |
| Intcode.Computer.RunList | 2019/src/day9/intcode.rs:148-154 | run feeds its values in order through a fresh input stream and returns the output of run_io |
| Intcode.Computer.RunIo | 2019/src/day9/intcode.rs:166-235 | the loop ends, panics or runs out of budget as Intcode.Run says, leaving the state Paused or Halted on a break and the memory, pc, relative base and both streams as Run computes |
| Intcode.Computer.StepOnce | 2019/src/day9/intcode.rs:169-233 | one fetch, decode and execute turns the configuration into the one Run continues from, or stops or panics as Run does |
| Intcode.Computer.Binary | 2019/src/day9/intcode.rs:172-227 | add, multiply, less-than and equals store their result through the third operand and move pc on by 4, as Run does |
| Intcode.Computer.ReadOp | 2019/src/day9/intcode.rs:182-190 | input consumes one value and stores it, or pauses on an empty stream, as Run does |
| Intcode.Computer.OutputOp | 2019/src/day9/intcode.rs:191-195 | output appends the operand's value to the output stream, as Run does |
| Intcode.Computer.SetRelativeOp | 2019/src/day9/intcode.rs:228-231 | opcode 9 adds its operand to the relative base, as Run does |
| Intcode.Computer.JumpIf | 2019/src/day9/intcode.rs:196-211 | a jump whose condition holds sets pc to the second operand, and otherwise pc moves on by 3, as Run does |
| Intcode.ReadPastEnd | 2019/src/day9/intcode.rs:252-257 | a read past the end returns 0 and leaves memory exactly long enough to hold the position |
| Intcode.WriteLands | 2019/src/day9/intcode.rs:244-250 | after a write to address a, memory has at least a + 1 cells and cell a holds the value |
| Intcode.ReadOnEmptyInputPauses | 2019/src/day9/intcode.rs:182-189 | an input instruction on an empty stream stops the loop in Paused with nothing changed, pc included |
| Intcode.ExitHalts | 2019/src/day9/intcode.rs:232 | opcode 99 stops the loop in Halted with nothing changed |
| Intcode.PcAdvance | 2019/src/day9/intcode.rs:172-227 | arithmetic and comparison instructions move pc on by 4, and a jump whose condition fails moves it on by 3 |
| Intcode.RelativeBaseExample | 2019/src/day9/intcode.rs:298-306 | with base 2000, "109,19,204,-34,99" halts with base 2019 and outputs the 0 it reads past the end of memory |
| Intcode.ThreeOperandStep | 2019/src/day9/intcode.rs:172-181 | an add, multiply, less-than or equals instruction stores the combination of its two operands at its third and continues four cells on |
| Intcode.ProductRun | 2019/src/day9/intcode.rs:316-322 | "1102,x,y,7,4,7,99,0" halts after three steps with x * y appended to the output, for any x and y |
| Intcode.LargeProductExample | 2019/src/day9/intcode.rs:316-322 | "1102,34915192,34915192,7,4,7,99,0" halts with the single output 1219070632396864, a 16-digit number |
| Intcode.OutputImmediateRun | 2019/src/day9/intcode.rs:324-330 | "104,v,99" halts after two steps with v appended to the output, for any v |
| Intcode.LargeImmediateExample | 2019/src/day9/intcode.rs:324-330 | "104,1125899906842624,99" halts with the single output 1125899906842624, a 16-digit number |
| Intcode.RelativeBaseSecond | 2019/src/day9/intcode.rs:191-266 | in that example, opcode 204 reads relative cell 1985, which lies past the end and reads as 0, and outputs it |
| IntcodeDay5.Decode | 2019/src/day5.rs:45-60 | the opcode is the word modulo 100 and immediate flag i is set iff decimal digit i + 2 of the word is above 0 |
| IntcodeDay5.ReadAt | 2019/src/day5.rs:132-138 | read(p, true) is program[p], read(p, false) is program[program[p]], and either panics when an index falls outside the program |
| IntcodeDay5.WriteAt | 2019/src/day5.rs:140-143 | write stores the value at the cell program[p] points to and changes nothing else, or panics when that cell is outside the program |
| IntcodeDay5.IntCode.ReadOperand | 2019/src/day5.rs:132-138 | the method reads exactly what IntcodeDay5.ReadAt says |
| IntcodeDay5.IntCode.WriteOperand | 2019/src/day5.rs:140-143 | the program afterwards is the one IntcodeDay5.WriteAt computes |
| IntcodeDay5.IntCode.Run | 2019/src/day5.rs:63-130 | run starts at pc 0 with no input consumed, and ends, panics or runs out of budget as IntcodeDay5.RunFrom says, with the same output and program |
| IntcodeDay5.IntCode.Step | 2019/src/day5.rs:71-125 | one instruction changes the program, pc, input counter and output into the state RunFrom continues from |
| IntcodeDay5.IntCode.JumpIf | 2019/src/day5.rs:93-108 | a jump takes its second operand as pc when the first operand's test holds, and otherwise moves on by 3 |
| IntcodeDay5.ImmediateFlags | 2019/src/day5.rs:45-60 | the first immediate flag is set iff the hundreds digit is above 0 |
| IntcodeDay5.EchoProgram | 2019/src/day5.rs:184-193 | "3,0,4,0,99" halts and outputs its one input, whatever it is |
| IntcodeDay5.MultiplyImmediateProgram | 2019/src/day5.rs:195-202 | "1002,4,3,4,33" stores 99 in cell 4 and then halts |
| IntcodeDay5.EqualToEightPosition | 2019/src/day5.rs:213-222 | "3,9,8,9,10,9,4,9,99,-1,8" outputs 1 when its input is 8 and 0 otherwise |
| IntcodeDay5.LessThanEightImmediate | 2019/src/day5.rs:246-255 | "3,3,1107,-1,8,3,4,3,99" outputs 1 when its input is below 8 and 0 otherwise |
| ThreeBitComputer.Combo | 2024/src/bin/17.rs:37-48 | combo operands 0-3 are literal, 4-6 read A, B and C, and 7 or above panics |
| ThreeBitComputer.Literal | 2024/src/bin/17.rs:50-62 | literal operands 0-7 are themselves and anything above panics |
| ThreeBitComputer.Div | 2024/src/bin/17.rs:64-68 | the quotient is A divided by 2 to the combo operand, rounded down, and a power of 64 or more overflows the u64 and panics |
| ThreeBitComputer.Execute | 2024/src/bin/17.rs:70-130 | every instruction but jnz moves ip on by 2; jnz jumps to its operand iff A != 0 and otherwise moves on by 2; out appends the combo operand mod 8 and no other instruction touches the output; opcodes above 7 panic |
| ThreeBitComputer.RunFrom | 2024/src/bin/17.rs:113-133 | a halted run has ip at or past the end of the program |
| ThreeBitComputer.RunStopsPastEnd | 2024/src/bin/17.rs:116-118 | the loop stops at once, with nothing changed, exactly when ip is at or past the end of the program |
| ThreeBitComputer.RunOutputsOctal | 2024/src/bin/17.rs:98-101 | every value in the output of a run that does not panic is in 0..7 |
| ThreeBitComputer.ProgramOne | 2024/src/bin/17.rs:214-226 | C=9 with program 2,6 sets B to 1 |
| ThreeBitComputer.ProgramTwo | 2024/src/bin/17.rs:228-240 | A=10 with program 5,0,5,1,5,4 outputs 0,1,2 |
| ThreeBitComputer.ProgramFour | 2024/src/bin/17.rs:256-268 | B=29 with program 1,7 sets B to 26 |
| ThreeBitComputer.ProgramFive | 2024/src/bin/17.rs:270-282 | B=2024 and C=43690 with program 4,0 sets B to 44354 |
| ThreeBitComputer.GetOutput | 2024/src/bin/17.rs:135-139 | the printed value is in 0..7 |
| ThreeBitComputer.Outputs | 2024/src/bin/17.rs:156-163 | n passes of the flattened program print n values |
| ThreeBitComputer.ExtendSolutions | 2024/src/bin/17.rs:166-181 | appending three bits under every value that prints the last k program values, and keeping those that print the value before, gives exactly the values below 8^(k+1) that print the last k + 1 |
| ThreeBitComputer.EmptyStaysEmpty | 2024/src/bin/17.rs:177-179 | once a round has no candidates, no value prints the whole program |
| ThreeBitComputer.FindIdentity | 2024/src/bin/17.rs:141-183 | find_identity panics iff no A below 8^n prints the program through get_output, and otherwise returns the least such A |
| ThreeBitComputer.ExtendAll | 2024/src/bin/17.rs:167-176 | the inner loops collect exactly the kept children of every candidate |
| ThreeBitComputer.Minimum | 2024/src/bin/17.rs:182 | the result is an element of the set and no element is smaller |
| ThreeBitComputer.Computer.constructor | 2024/src/bin/17.rs:25-32 | the new computer holds the registers and program, ip 0 and an empty output |
| ThreeBitComputer.Computer.ComboOperand | 2024/src/bin/17.rs:37-48 | the method returns what ThreeBitComputer.Combo says |
| ThreeBitComputer.Computer.Divide | 2024/src/bin/17.rs:64-68 | the method returns what ThreeBitComputer.Div says |
| ThreeBitComputer.Computer.DivideInto | 2024/src/bin/17.rs:70-111 | adv, bdv and cdv change the registers and ip as Execute does |
| ThreeBitComputer.Computer.Bxl | 2024/src/bin/17.rs:75-78 | bxl changes B and ip as Execute does |
| ThreeBitComputer.Computer.Bst | 2024/src/bin/17.rs:80-83 | bst changes B and ip as Execute does |
| ThreeBitComputer.Computer.Jnz | 2024/src/bin/17.rs:85-91 | jnz changes ip as Execute does |
| ThreeBitComputer.Computer.Bxc | 2024/src/bin/17.rs:93-96 | bxc changes B and ip as Execute does |
| ThreeBitComputer.Computer.Out | 2024/src/bin/17.rs:98-101 | out changes the output and ip as Execute does |
| ThreeBitComputer.Computer.Run | 2024/src/bin/17.rs:113-133 | run restarts at ip 0 and ends, panics or runs out of budget as RunFrom says, with the registers, ip and output RunFrom computes |
| IntcodeDay5.DecodeOpCode | 2019/src/day5.rs:22-37 | codes 1-8 and 99 name the nine operations and every other code panics |
| HandheldConsole.Execute | y2020/8/code.py:38-46 | acc adds its argument to the accumulator and moves on by one; jmp moves the counter by its argument; nop moves on by one; only acc touches the accumulator |
| HandheldConsole.Fetch | y2020/8/code.py:51 | an instruction is found exactly for counters in -len..len-1, negative ones counting from the end as Python indexing does, and anything else raises IndexError |
| HandheldConsole.FreshExtend | y2020/8/code.py:57-65 | a new step that neither revisits a counter nor reaches the end keeps the run free of repeats |
| HandheldConsole.CountersMember | y2020/8/code.py:58-64 | every counter in the seen set belongs to some state of the run so far |
| HandheldConsole.CountersContain | y2020/8/code.py:58-64 | every state of the run so far has its counter in the seen set |
| HandheldConsole.FindLoop | y2020/8/code.py:49-65 | find_loop returns (True, acc) at the first step that revisits a counter, acc being the accumulator before that step; (False, acc) at the first step that reaches the end, with the accumulator after it; and raises IndexError when a step before either fetches outside the program |
| HandheldConsole.Flip | y2020/8/code.py:80-86 | the copy switches nop to jmp or jmp to nop at idx, keeps its argument, and leaves every other instruction as it was |
| HandheldConsole.Repair | y2020/8/code.py:73-89 | part2 returns the accumulator of the first switched nop or jmp whose program ends, every earlier candidate looping; it returns None when every candidate loops and raises when find_loop raises |
| CycleCpu.FromLine | 2022/src/bin/10.rs:18-37 | a line starting with "noop" is a noop with parameter 0; any other line parses only when its first two space-separated words are "addx" and an i64, giving an addx of that value; every other line is a panic (None) |
| CycleCpu.ParseAddX | 2022/src/bin/10.rs:25-31 | "addx -5" parses to an addx with parameter -5 |
| CycleCpu.ParseUnknown | 2022/src/bin/10.rs:32 | a line with an unknown operation such as "subx 1" is a panic |
| CycleCpu.CyclesCount | 2022/src/bin/10.rs:89-106 | a program yields one state per noop and two per addx, and the cycle counter of the i-th state is the starting cycle plus i |
| CycleCpu.RegisterLagsOneInstruction | 2022/src/bin/10.rs:85-101 | both states of an addx show the register as it was before it; the state after them shows the register plus the parameter |
| CycleCpu.SmallExample | 2022/src/bin/10.rs:161-175 | "noop", "addx 3", "addx -5" from cycle 1 and register 1 yields registers 1, 1, 1, 4, 4 at cycles 1 to 5 |
| CycleCpu.CpuIterator.constructor | 2022/src/bin/10.rs:46-65 | interpret starts with no instruction in progress, so the states still to come are exactly those of the whole program |
| CycleCpu.CpuIterator.Next | 2022/src/bin/10.rs:77-112 | next yields the first of the states still to come (the CPU before that cycle's effect) and drops it; with none left it yields None and nothing changes |
| CycleCpu.Drain | 2022/src/bin/10.rs:161-175 | iterating to the end yields exactly the states of the program |
| CycleCpu.PartOne | 2022/src/bin/10.rs:114-124 | part_one sums cycle times register over the yielded states whose cycle is 20 modulo 40 |
| MullItOver.ApplyToken | 2024/src/bin/03.rs:31-45 | a mul adds x times y to the sum only while enabled and otherwise changes nothing; do sets enabled and don't clears it, both keeping the sum |
| MullItOver.EnabledBeforePrefix | 2024/src/bin/03.rs:31-45 | whether a token is enabled depends only on the tokens before it |
| MullItOver.EnabledStep | 2024/src/bin/03.rs:38-43 | after a do multiplication is enabled, after a don't it is not, and a mul leaves it as it was |
| MullItOver.InterpretMeaning | 2024/src/bin/03.rs:72-81 | interpreting from the start state gives the sum of the products of exactly those mul tokens before which every don't is followed by a do, and ends enabled iff every don't is followed by a do |
| MullItOver.State.constructor | 2024/src/bin/03.rs:74-77 | the interpreter starts enabled with sum 0 |
| MullItOver.State.Apply | 2024/src/bin/03.rs:31-45 | apply changes the state exactly as ApplyToken says |
| MullItOver.PartTwo | 2024/src/bin/03.rs:72-81 | part_two applies every token in order and returns the sum of the enabled products |
| MullItOver.ExampleSum | 2024/src/bin/03.rs:95-100 | the tokens of the part-two example sum to 48 |
| Aplenty.DestinationFrom | 2023/src/bin/19.rs:12-20 | "A" is accept, "R" is reject, and any other name is the workflow of that name |
| Aplenty.KeyIndex | 2023/src/bin/19.rs:287-293 | x, m, a and s are the rating positions 0 to 3; any other key is the "Invalid key" panic |
| Aplenty.RuleOutcome | 2023/src/bin/19.rs:48-66 | a rule yields its destination iff the part's rating is below the threshold (less-than rule) or above it (greater-than rule), and panics on an invalid key |
| Aplenty.FirstMatch | 2023/src/bin/19.rs:75-83 | a workflow's outcome comes from the first rule that fires, every earlier rule not firing; when none fires it is the final destination |
| Aplenty.IntervalClamp | 2023/src/bin/19.rs:233-246 | clamp returns the intersection with min..max, holding exactly the values in both, or None when that is empty |
| Aplenty.NewPart | 2023/src/bin/19.rs:254-263 | new gives the same interval min..max for all four ratings |
| Aplenty.With | 2023/src/bin/19.rs:274 | replacing the interval at an index changes that interval and no other |
| Aplenty.PartClamp | 2023/src/bin/19.rs:265-279 | clamp with less_than and value 0 is None; otherwise it caps the chosen interval's max at value - 1 (less than) or raises its min to value + 1 (greater than), is None iff that leaves it empty, and leaves the other three intervals unchanged |
| Aplenty.ClampMeaning | 2023/src/bin/19.rs:265-279 | the clamped box holds exactly the parts of the box whose chosen rating passes the comparison, and None means no part of the box passes |
| Aplenty.Split | 2023/src/bin/19.rs:281-304 | split maps the key to its index (panicking on any other key), clamps for the rule's comparison and clamps again for the reversed comparison with the threshold moved by one, saturating at 0 |
| Aplenty.SplitMeaning | 2023/src/bin/19.rs:281-304 | the passing box holds exactly the parts that pass; the non-passing box holds only parts that fail, and holds every failing part except a rating of 0 under a less-than rule with threshold 0 |
| Aplenty.SplitDropsZero | 2023/src/bin/19.rs:294-298 | splitting 0..10 on x < 0 gives no passing box and a non-passing box starting at 1 |
| Aplenty.PrependAssociative | 2023/src/bin/19.rs:85-99 | pushing pieces in two steps is pushing them in one |
| Aplenty.Head | 2023/src/bin/19.rs:90-92 | a rule pushes one piece, bound for its destination, exactly when its passing box exists |
| Aplenty.PiecesCover | 2023/src/bin/19.rs:85-99 | every part of the box with positive ratings lies in some piece that interval returns whose destination is the one outcome gives the part |
| Aplenty.TestWorkflowPieces | 2023/src/bin/19.rs:373-379 | "test{x<5:A,x>9:R,A}" on 0..10 gives three pieces: x in 0..4 accepted, x = 10 rejected, x in 5..9 accepted |
| Aplenty.OverlapAsWritten | 2023/src/bin/19.rs:88-97 | as written, "w{x<5:A,x>2:R,A}" on 0..10 sends x in 5..10 both to R and to A |
| Aplenty.PiecesCorrectedInside | 2023/src/bin/19.rs:85-99 | with remainders that can run out, every piece lies inside the box it was cut from |
| Aplenty.PiecesCorrectedCover | 2023/src/bin/19.rs:85-99 | with remainders that can run out, every part of the box with positive ratings lies in a piece bound for its outcome |
| Aplenty.PiecesCorrectedDisjoint | 2023/src/bin/19.rs:85-99 | with remainders that can run out, no part lies in two pieces |
| Aplenty.ConcatDisjoint | 2023/src/bin/19.rs:90-95 | a first piece sharing no part with the later ones keeps the list disjoint |
| Aplenty.PiecesExactlyOne | 2023/src/bin/19.rs:85-99 | with remainders that can run out, every part of the box with positive ratings lies in exactly one piece, bound for the destination outcome gives it |
| Aplenty.OverlapCorrected | 2023/src/bin/19.rs:88-97 | with remainders that can run out, "w{x<5:A,x>2:R,A}" on 0..10 gives x in 0..4 to A and x in 5..10 to R and nothing more |
| Aplenty.WorkflowInterval | 2023/src/bin/19.rs:85-99 | the loop over the rules returns the pieces as written, or panics on an invalid key |
| Aplenty.PassFrom | 2023/src/bin/19.rs:171-189 | pass ends in accept, reject or the name of a location that has no workflow, and a location without a workflow is returned at once |
| Aplenty.PassFuelMonotone | 2023/src/bin/19.rs:174-187 | a pass that finished within some number of workflow visits gives the same result with any larger budget |
| Aplenty.Pass | 2023/src/bin/19.rs:172-189 | the while loop from "in" returns what PassFrom gives |
| Aplenty.IntervalClampTest | 2023/src/bin/19.rs:350-358 | 0..10 clamped to 5..15 is 5..10, and 5..10 clamped to 15..20 is empty |
| Aplenty.PartClampTest | 2023/src/bin/19.rs:360-370 | x < 5 on 0..10 narrows x to 0..4, and m < 0 leaves nothing |
| Aplenty.PartClampTestAsWritten | 2023/src/bin/19.rs:366-368 | x > 5 on 0..10 leaves the interval at index 1 at 0..10, not the 6..10 the test expects there |
| Aplenty.PartClampTestCorrected | 2023/src/bin/19.rs:366-368 | x > 5 on 0..10 makes the interval at index 0 6..10 |
| SeedAlmanac.OverlapsMeaning | 2023/src/bin/05.rs:174-179 | for non-empty ranges, overlaps holds exactly when the two ranges share a value |
| SeedAlmanac.OverlapTests | 2023/src/bin/05.rs:215-226 | the five cases of test_overlap_range: overlap at the start, at the end, inside, and none after or before |
| SeedAlmanac.MappingFrom | 2023/src/bin/05.rs:121-143 | the mapping's range is source_start..source_start+len-1, it sends every value v of it to v - source_start + destination_start, and the u64 underflow at source_start = len = 0 is a panic |
| SeedAlmanac.ApplyMapping | 2023/src/bin/05.rs:146-155 | None exactly outside the range; inside, the value moved down by diff when negative and up otherwise |
| SeedAlmanac.MapApply | 2023/src/bin/05.rs:67-74 | a value no mapping holds is returned unchanged |
| SeedAlmanac.MapApplyFirst | 2023/src/bin/05.rs:67-74 | the mapping that decides is the first one whose range holds the value |
| SeedAlmanac.Insert | 2023/src/bin/05.rs:59 | inserting into mappings sorted by start keeps them sorted, adds exactly the new mapping to the multiset and nothing else |
| SeedAlmanac.SortByStart | 2023/src/bin/05.rs:59 | the sort by range start yields mappings sorted by start that are a permutation of the input |
| SeedAlmanac.ApplyAllAppend | 2023/src/bin/05.rs:34-40 | applying maps a then maps b is applying a + b, so the almanac is the composition of its maps in order |
| SeedAlmanac.AlmanacApply | 2023/src/bin/05.rs:34-40 | the loop sends the seed through each map in order, which is ApplyAll |
| SeedAlmanac.ApplyMap | 2023/src/bin/05.rs:76-111 | the loops over ranges and overlapping mappings yield the as-written ranges, or the unwrap panic of Mapping::apply |
| SeedAlmanac.SegmentsExact | 2023/src/bin/05.rs:76-111 | with the correction, for mappings sorted by start, pairwise disjoint and non-empty, and a non-empty range, a value lies in the output ranges exactly when Map::apply gives it for some value of the range |
| SeedAlmanac.ApplyMapAsWrittenExample | 2023/src/bin/05.rs:100-103 | as written, mapping "100 0 5" sends 0..10 to 100..104 and 4..10, although no value of 0..10 maps to 4; a lone 7..7 that no mapping touches yields nothing |
| SeedAlmanac.SegmentsExample | 2023/src/bin/05.rs:100-103 | with the correction the same inputs yield 100..104 and 5..10, and 7..7 |
| LensLibrary.HashOf | 2023/src/bin/15.rs:18-27 | the HASH of any string is below 256 |
| LensLibrary.HashStepFitsU32 | 2023/src/bin/15.rs:21-24 | with the hash below 256, the u32 sum and product of one step cannot overflow for any char |
| LensLibrary.Hash | 2023/src/bin/15.rs:18-27 | the character loop computes HashOf, which is below 256 |
| LensLibrary.HashExample | 2023/src/bin/15.rs:18-27 | HASH hashes to 52, the worked example of the puzzle |
| LensLibrary.ChecksumBound | 2023/src/bin/15.rs:29-31 | the checksum is at most 255 per part |
| LensLibrary.Checksum | 2023/src/bin/15.rs:29-31 | the loop adds the hash of every part, which is ChecksumOf |
| LensLibrary.PartsOf | 2023/src/bin/15.rs:10-15 | one part per comma-separated piece, each trimmed |
| LensLibrary.PartOne | 2023/src/bin/15.rs:125-128 | part_one is the checksum of the parts of the input, at most 255 per part |
| LensLibrary.ExampleChecksum | 2023/src/bin/15.rs:141-145 | the example sequence has checksum 1320 |
| LensLibrary.Retain | 2023/src/bin/15.rs:68 | no lens with the label is left, and a box without the label is unchanged |
| LensLibrary.RetainMembers | 2023/src/bin/15.rs:68 | a lens is in the retained box exactly when it is in the box and has another label |
| LensLibrary.RetainDistinct | 2023/src/bin/15.rs:68 | retaining keeps a box free of repeated labels |
| LensLibrary.RetainOne | 2023/src/bin/15.rs:68 | in a box with distinct labels, retain cuts out the one lens with the label and keeps the others in order |
| LensLibrary.SetFocal | 2023/src/bin/15.rs:76-80 | the find-and-update keeps the box's length and every label in place |
| LensLibrary.SetFocalAt | 2023/src/bin/15.rs:76-80 | it replaces exactly the first lens with the label by one with the new focal length |
| LensLibrary.EmptyValid | 2023/src/bin/15.rs:45-51 | 256 empty boxes and an empty index satisfy the invariant |
| LensLibrary.OnlyHome | 2023/src/bin/15.rs:66-89 | under the invariant a label is in no box other than the one its hash names |
| LensLibrary.Unindexed | 2023/src/bin/15.rs:66-89 | under the invariant a label missing from the index is in no box |
| LensLibrary.IndexedIff | 2023/src/bin/15.rs:66-89 | under the invariant a label is in the index exactly when the box its hash names holds it |
| LensLibrary.RemoveLensOn | 2023/src/bin/15.rs:66-71 | remove_lens keeps the invariant, deletes the label from the index and from every box, leaves the other lenses in order, and an absent label changes nothing |
| LensLibrary.AddLensOn | 2023/src/bin/15.rs:73-89 | add_lens keeps the invariant and changes only box hash(label); an indexed label gets the new focal length in place with the box's order and the index unchanged; a new label is appended to its box and recorded with that box number |
| LensLibrary.StepEffect | 2023/src/bin/15.rs:53-89 | a step changes only the box its label hashes to: a removal filters that box, an addition updates the lens already there or appends a new one |
| LensLibrary.ParseStep | 2023/src/bin/15.rs:55-61 | a part holding '-' removes the label before its first '-'; any other part must split at '=' into exactly two pieces, a label and a u32, and otherwise is an unwrap panic |
| LensLibrary.ParseSteps | 2023/src/bin/15.rs:53-64 | the parts parse exactly when each one does, one step per part in order |
| LensLibrary.ParseRemoveExample | 2023/src/bin/15.rs:55-61 | the example part "cm-" removes the label cm |
| LensLibrary.ParseAddExample | 2023/src/bin/15.rs:55-61 | the example part "rn=1" adds the label rn with focal length 1 |
| LensLibrary.ParseMissingFocal | 2023/src/bin/15.rs:55-61 | a part "rn=" with no focal length is a panic |
| LensLibrary.ApplyStep | 2023/src/bin/15.rs:53-64 | applying a step keeps the invariant |
| LensLibrary.RunSteps | 2023/src/bin/15.rs:53-64 | applying steps in order keeps the invariant |
| LensLibrary.PowerAppend | 2023/src/bin/15.rs:91-106 | appending a lens to box b adds (b+1) times its new slot number times its focal length to the power |
| LensLibrary.PowerOfEmpty | 2023/src/bin/15.rs:91-106 | empty boxes have no power |
| LensLibrary.PowerOfPrefix | 2023/src/bin/15.rs:91-106 | trailing empty boxes add nothing to the power |
| LensLibrary.FindLens | 2023/src/bin/15.rs:76-79 | find returns the index of the first lens with the label |
| LensLibrary.LensSlots.constructor | 2023/src/bin/15.rs:45-51 | new gives 256 empty boxes and an empty index, which satisfy the invariant |
| LensLibrary.LensSlots.RemoveLens | 2023/src/bin/15.rs:66-71 | the in-place remove_lens keeps the invariant and leaves the state RemoveLensOn gives |
| LensLibrary.LensSlots.AddLens | 2023/src/bin/15.rs:73-89 | the in-place add_lens keeps the invariant and leaves the state AddLensOn gives |
| LensLibrary.LensSlots.Initialize | 2023/src/bin/15.rs:53-64 | initialize succeeds exactly when every part parses, and then it leaves the state of running the parsed steps in order |
| LensLibrary.LensSlots.Power | 2023/src/bin/15.rs:91-106 | the nested loops add (box+1)*(slot+1)*focal over every lens, which is PowerOf |
| LensLibrary.PartTwo | 2023/src/bin/15.rs:130-135 | part_two gives a power exactly when the input parses, and it is the power of the boxes after running the steps on empty boxes |
| LensLibrary.ExampleRun | 2023/src/bin/15.rs:147-151 | after the example sequence box 0 holds rn 1 and cm 2, box 3 holds ot 7, ab 5 and pc 6, and all other boxes are empty |
| LensLibrary.ExamplePower | 2023/src/bin/15.rs:147-151 | the example sequence gives focusing power 145 |
| HotSprings.Count | 2023/src/bin/12.rs:58-76 | an empty record counts 1 with no groups left and 0 with groups left; a '#' with no groups left counts 0 |
| HotSprings.TryPlace | 2023/src/bin/12.rs:81-98 | placing a group gives 0 when too few springs are left, when a '.' lies inside the group or when a '#' follows it |
| HotSprings.CountRunsAppend | 2023/src/bin/12.rs:58-76 | counting matching rows over two lists of rows adds up |
| HotSprings.CountRunsDamaged | 2023/src/bin/12.rs:61-63 | a '#' in front of every row lengthens the current run by one |
| HotSprings.CountRunsOperational | 2023/src/bin/12.rs:59 | a '.' in front of every row closes the current run, which must then be the next group |
| HotSprings.WaysEnd | 2023/src/bin/12.rs:73-74 | at the end of the record the only row is empty, and it matches when the run just closed is all the groups left |
| HotSprings.WaysStep | 2023/src/bin/12.rs:58-72 | the rows of a record split by its first spring: '#' extends the run, '.' closes it, '?' is both |
| HotSprings.BlockedShift | 2023/src/bin/12.rs:87-96 | a group that still needs springs, on a record whose first spring can be damaged, needs one spring fewer after it, with the same resume point |
| HotSprings.WaysInRun | 2023/src/bin/12.rs:81-98 | inside a run, the rows that match are those that finish the first group where _try_place puts it, and none when the run is longer than the group |
| HotSprings.TryPlaceIsRest | 2023/src/bin/12.rs:81-98 | _try_place counts exactly the rows in which the first group starts at the front of the record |
| HotSprings.CountIsArrangements | 2023/src/bin/12.rs:50-98 | for a record of '.', '#' and '?' and positive groups, the count is the number of ways to fill in every '?' so that the runs of '#' are exactly the groups |
| HotSprings.SuffixDrop | 2023/src/bin/12.rs:55-77 | a suffix of a suffix is a suffix, so every sub-call is keyed by the lengths it has left |
| HotSprings.Combinations | 2023/src/bin/12.rs:50-79 | the memoized _combinations returns the memo-free count and leaves every filled memo entry holding the count for its numbers of groups and springs left |
| HotSprings.TryPlaceMemo | 2023/src/bin/12.rs:81-98 | the memoized _try_place returns the memo-free TryPlace and keeps the memo sound |
| HotSprings.CombinationsOf | 2023/src/bin/12.rs:45-48 | combinations with a fresh table is the memo-free count, which is the number of arrangements for a well-formed record and positive groups |
| HotSprings.Expand | 2023/src/bin/12.rs:26-44 | expand fails exactly at factor 0, where the usize subtraction underflows |
| HotSprings.CycleJoined | 2023/src/bin/12.rs:27-35 | the record with '?' pushed, cycled to (length + 1) * factor - 1 springs, is factor copies joined with '?' |
| HotSprings.CycleRepeated | 2023/src/bin/12.rs:36-42 | the groups cycled to length * factor are factor copies of the groups |
| HotSprings.ExpandMeaning | 2023/src/bin/12.rs:26-44 | expand(f) joins f copies of the record with '?' and repeats the groups f times |
| HotSprings.ExpandExample | 2023/src/bin/12.rs:26-44 | expand(2) turns "#" with groups 1 into "#?#" with groups 1, 1 |
| HotSprings.SimpleSchematic | 2023/src/bin/12.rs:127-131 | "???.### 1,1,3" has exactly one arrangement |
| ParabolicDish.SettleSnoc | 2023/src/bin/14.rs:77-89 | one more cell in a column moves the cursor as tilt_north's current_top does (a block puts it just past itself, a rock one further), and a rock lands on the cursor's cell |
| ParabolicDish.SettleBlocks | 2023/src/bin/14.rs:75-92 | tilting a column leaves every block where it was |
| ParabolicDish.SettleSettles | 2023/src/bin/14.rs:75-92 | after tilting, no rock has an empty cell on its north side |
| ParabolicDish.SettleRockCount | 2023/src/bin/14.rs:75-92 | tilting a column keeps the number of rocks |
| ParabolicDish.SettleIdempotent | 2023/src/bin/14.rs:75-92 | tilting a column a second time changes nothing |
| ParabolicDish.SettleBackCons | 2023/src/bin/14.rs:96-110 | one more cell at the front moves tilt_south's current_bottom cursor the way the loop does, and a rock lands on it |
| ParabolicDish.SettleBackBlocks | 2023/src/bin/14.rs:94-113 | tilting a column south leaves every block where it was |
| ParabolicDish.SettleBackRockCount | 2023/src/bin/14.rs:94-113 | tilting a column south keeps the number of rocks |
| ParabolicDish.SettleBackSettles | 2023/src/bin/14.rs:94-113 | after tilting south, no rock has an empty cell on its south side |
| ParabolicDish.CycleSteps | 2023/src/bin/14.rs:68-73 | a spin cycle tilts north, then west, then south, then east |
| ParabolicDish.TiltedNorthColumns | 2023/src/bin/14.rs:75-92 | tilting the grid north keeps the rocks of every column, leaves every column settled and keeps every block |
| ParabolicDish.TiltedSouthColumns | 2023/src/bin/14.rs:94-113 | tilting the grid south keeps the rocks of every column and every block |
| ParabolicDish.TiltedRows | 2023/src/bin/14.rs:115-153 | tilting west or east keeps the rocks of every row and every block |
| ParabolicDish.CycleKeepsBlocks | 2023/src/bin/14.rs:68-73 | a spin cycle leaves every block where it was |
| ParabolicDish.TiltedNorthIdempotent | 2023/src/bin/14.rs:75-92 | tilting north twice is the same as tilting once |
| ParabolicDish.TiltedRowsLoad | 2023/src/bin/14.rs:155-170 | tilting west or east does not change the load on the north beams |
| ParabolicDish.LoadBound | 2023/src/bin/14.rs:155-170 | the load is at most the height times the number of rocks |
| ParabolicDish.TileOf | 2023/src/bin/14.rs:47-53 | a character becomes a tile exactly when it is one of '.', '#' and 'O'; any other is the panic |
| ParabolicDish.CharOf | 2023/src/bin/14.rs:13-21 | the character a tile is printed as parses back to that tile |
| ParabolicDish.ParseRow | 2023/src/bin/14.rs:46-55 | a line parses to one tile per character, and fails exactly when some character is not a tile |
| ParabolicDish.ParseRows | 2023/src/bin/14.rs:44-56 | the lines parse row by row, and fail exactly when some line fails |
| ParabolicDish.Parse | 2023/src/bin/14.rs:42-65 | a parsed dish has at least one row, rows as wide as the first and one row per line of the input |
| ParabolicDish.RowText | 2023/src/bin/14.rs:30-40 | a row prints as one character per tile |
| ParabolicDish.RenderLength | 2023/src/bin/14.rs:30-40 | the printed dish has width + 1 characters per row, the newline included |
| ParabolicDish.RenderInjective | 2023/src/bin/14.rs:182-195 | two dishes of the same width that print the same are the same grid, so keying the table on the grid rather than on its text finds the same repeats |
| ParabolicDish.IteratePeriodic | 2023/src/bin/14.rs:194-200 | once state a + p equals state a, any whole number of periods can be skipped |
| ParabolicDish.SkipPeriods | 2023/src/bin/14.rs:194-200 | when spin `last` repeats spin `first`, running (n - first) mod (last - first) more cycles from `last` gives spin n |
| ParabolicDish.SpinShape | 2023/src/bin/14.rs:68-73 | spinning keeps the grid rectangular and its height |
| ParabolicDish.Dish.constructor | 2023/src/bin/14.rs:42-65 | the dish holds the parsed rows, the width of the first row and the number of rows |
| ParabolicDish.Dish.Weight | 2023/src/bin/14.rs:155-170 | the weight is at most the height times the number of rocks |
| ParabolicDish.Dish.TiltColumnNorth | 2023/src/bin/14.rs:76-91 | one column of the dish becomes its settled form and the other columns stay as they were |
| ParabolicDish.Dish.TiltNorth | 2023/src/bin/14.rs:75-92 | the new grid is the north tilt of the old one |
| ParabolicDish.Dish.TiltColumnSouth | 2023/src/bin/14.rs:95-112 | one column becomes its south-settled form and the other columns stay as they were |
| ParabolicDish.Dish.TiltSouth | 2023/src/bin/14.rs:94-113 | the new grid is the south tilt of the old one |
| ParabolicDish.Dish.TiltRowWest | 2023/src/bin/14.rs:116-131 | one row becomes its settled form and the other rows stay as they were |
| ParabolicDish.Dish.TiltWest | 2023/src/bin/14.rs:115-132 | the new grid is the west tilt of the old one |
| ParabolicDish.Dish.TiltRowEast | 2023/src/bin/14.rs:135-152 | one row becomes its east-settled form and the other rows stay as they were |
| ParabolicDish.Dish.TiltEast | 2023/src/bin/14.rs:134-153 | the new grid is the east tilt of the old one |
| ParabolicDish.Dish.Cycle | 2023/src/bin/14.rs:68-73 | the new grid is the old one after one spin cycle |
| ParabolicDish.Dish.SpinMore | 2023/src/bin/14.rs:198-200 | k more cycles take spin n to spin n + k |
| ParabolicDish.Dish.SkipToEnd | 2023/src/bin/14.rs:194-201 | once spin `last` repeats spin `first`, the weight after the remaining cycles is the load after n cycles |
| ParabolicDish.FirstRepeat | 2023/src/bin/14.rs:182-195 | the loop stops at the first spin equal to an earlier one, whose first index it returns; when none repeats within n cycles, all of spins 0..n are distinct |
| ParabolicDish.SeenDistinct | 2023/src/bin/14.rs:182-193 | a table holding each of spins 0..n at its own index shows that those spins are pairwise different |
| ParabolicDish.SpinLoad | 2023/src/bin/14.rs:180-201 | the result is the load after n cycles; it is missing exactly when the width is zero or no spin repeats within n cycles (the source panics then) |
| ParabolicDish.PartOne | 2023/src/bin/14.rs:173-177 | the load of the north tilt of the parsed dish, or None when the input does not parse |
| ParabolicDish.PartTwo | 2023/src/bin/14.rs:179-202 | the load after 1000000000 spin cycles, or None when the input does not parse, the width is zero or no spin repeats |
| DiskFragmenter.DigitSizes | 2024/src/bin/09.rs:39-40 | every character of the map is read as its decimal digit value; None exactly when some character is not a digit (where to_digit(10).unwrap() panics) |
| DiskFragmenter.KindAt | 2024/src/bin/09.rs:41-50 | the digit at an even index is file index/2, the digit at an odd index is free space |
| DiskFragmenter.Fill | 2024/src/bin/09.rs:51-53 | the inner push loop adds exactly that many copies of the block |
| DiskFragmenter.LayoutLength | 2024/src/bin/09.rs:38-55 | the disk has as many blocks as the digits of the map add up to |
| DiskFragmenter.LayoutBlocks | 2024/src/bin/09.rs:38-55 | the j-th block written for digit idx sits right after the blocks of the digits before it and has the kind of idx |
| DiskFragmenter.FileListLength | 2024/src/bin/09.rs:38-55 | one file is recorded per even index of the map |
| DiskFragmenter.FileListAt | 2024/src/bin/09.rs:41-47 | file k has id k, the size of digit 2k, and starts at the number of blocks pushed before that digit |
| DiskFragmenter.FileListValid | 2024/src/bin/09.rs:38-55 | the recorded files are in disk order, none running into the next, with distinct ids |
| DiskFragmenter.Disk.constructor | 2024/src/bin/09.rs:35-57 | Disk::from builds exactly the block layout and the file list of the map |
| DiskFragmenter.Disk.Swap | 2024/src/bin/09.rs:71-71 | Vec::swap exchanges two blocks and keeps the multiset of blocks |
| DiskFragmenter.AllFreeFails | 2024/src/bin/09.rs:62-67 | a disk of two or more blocks, all free, is one on which the right cursor runs below zero |
| DiskFragmenter.Disk.Compact | 2024/src/bin/09.rs:60-75 | compact succeeds exactly when the disk is neither empty nor two or more all-free blocks; it then leaves a permutation of the blocks with no free block before a file block, and the file list unchanged |
| DiskFragmenter.ChecksumSnoc | 2024/src/bin/09.rs:106-115 | one more block adds its position times its id to the checksum, or nothing when free |
| DiskFragmenter.ChecksumFill | 2024/src/bin/09.rs:106-127 | a run of blocks of one file adds the per-position sum that block_checksum computes for it; a run of free blocks adds nothing |
| DiskFragmenter.LayoutChecksums | 2024/src/bin/09.rs:106-127 | on the disk as read, block_checksum over the file list equals checksum over the blocks |
| DiskFragmenter.FirstFit | 2024/src/bin/09.rs:80-91 | the scan stops at the first file left of the moving one whose following gap holds it, every earlier such gap being too small; it reports when a gap is negative (the usize subtraction underflows) |
| DiskFragmenter.Position | 2024/src/bin/09.rs:92-92 | the index of the first file with that id, or None when there is none |
| DiskFragmenter.RemoveInsert | 2024/src/bin/09.rs:93-101 | remove then insert keeps the number of files and puts the new file at the insertion index |
| DiskFragmenter.Disk.Relocate | 2024/src/bin/09.rs:79-103 | one pass of the inner loop changes the file list exactly as MoveFile says, or fails where the source panics, and leaves the blocks alone |
| DiskFragmenter.Disk.CompactBlocks | 2024/src/bin/09.rs:77-104 | the files, last first, are moved one by one as MoveAll says; the blocks are not touched |
| DiskFragmenter.MoveFileSound | 2024/src/bin/09.rs:79-103 | moving a file of a valid list never panics, keeps the list ordered with distinct ids, keeps every other file as it was and moves no file right |
| DiskFragmenter.MoveAllSound | 2024/src/bin/09.rs:78-104 | moving files of a valid list in turn, each once, never panics and moves no file right |
| DiskFragmenter.CompactBlocksSound | 2024/src/bin/09.rs:77-104 | on the files of any disk map compact_blocks never panics, and leaves a valid list of the same files, none moved right |
| DiskFragmenter.PartOne | 2024/src/bin/09.rs:130-134 | None when the map has a non-digit or compact panics; otherwise the checksum of a compacted permutation of the blocks |
| DiskFragmenter.PartTwo | 2024/src/bin/09.rs:136-140 | None exactly when the map has a non-digit; otherwise the block checksum of the moved file list, which exists |
| DistressSignal.Flush | 2022/src/bin/13.rs:34-36 | a number in progress is pushed onto the current list as a Single and the accumulator is cleared; the stack is unchanged |
| DistressSignal.Accumulate | 2022/src/bin/13.rs:25-31 | a digit starts a number or is appended to it (curr * 10 + digit), and the byte overflows (None) exactly when the value reaches 256 |
| DistressSignal.AccumulateAsWritten | 2022/src/bin/13.rs:27-29 | evaluated left to right, curr * 10 + c overflows a u8 exactly when curr * 10 + the byte code of c is 256 or more |
| DistressSignal.AccumulateOverflows | 2022/src/bin/13.rs:27-29 | reading 208 overflows as written, while the intended arithmetic yields 208 |
| DistressSignal.Parse | 2022/src/bin/13.rs:17-18 | every parsed packet is a list, and a string shorter than two bytes, whose slicing panics, fails |
| DistressSignal.FromStr | 2022/src/bin/13.rs:17-65 | the byte loop over the stack, the list being built and the number in progress computes Parse |
| DistressSignal.UnclosedList | 2022/src/bin/13.rs:62-64 | an unclosed '[' is not noticed: "[[1]" yields the list opened last, [1] |
| DistressSignal.UnmatchedClose | 2022/src/bin/13.rs:55 | a ']' without its '[' fails at the stack's pop, as "[1]]" does |
| DistressSignal.RunAppend | 2022/src/bin/13.rs:23 | the byte loop over a + b is the loop over a followed by the loop over b, stopping at the first failure |
| DistressSignal.RunNat | 2022/src/bin/13.rs:25-31 | the decimal digits of a u8 number leave exactly that number in progress |
| DistressSignal.RunSignal | 2022/src/bin/13.rs:38-57 | reading a written packet whose numbers fit in a u8 leaves it pending on the current list |
| DistressSignal.RunItems | 2022/src/bin/13.rs:32-57 | reading comma-separated written items puts all of them, in order, on the current list |
| DistressSignal.RenderAscii | 2022/src/bin/13.rs:58 | a written packet holds no byte the parser rejects as unexpected |
| DistressSignal.ParseRender | 2022/src/bin/13.rs:14-66 | from_str reads back every list packet written out, when its numbers fit in a u8 |
| DistressSignal.CompareNat | 2022/src/bin/13.rs:83 | two numbers compare as numbers: Less iff smaller, Equal iff the same |
| DistressSignal.CompareAsList | 2022/src/bin/13.rs:82-93 | every comparison is the slice comparison of what the two sides stand for, a number standing for the one-element list holding it |
| DistressSignal.CompareListPrefix | 2022/src/bin/13.rs:84 | a common prefix of pairwise Equal elements leaves the slice comparison unchanged |
| DistressSignal.CompareListFirstDifference | 2022/src/bin/13.rs:84 | the first element pair that is not Equal decides the slice comparison |
| DistressSignal.CompareListShorter | 2022/src/bin/13.rs:84 | a shorter slice whose elements equal the other's first ones is Less |
| DistressSignal.CompareListEqual | 2022/src/bin/13.rs:84 | two slices are Equal exactly when they have the same length and are pairwise Equal |
| DistressSignal.CompareRefl | 2022/src/bin/13.rs:80-95 | every packet is Equal to itself |
| DistressSignal.CompareFlip | 2022/src/bin/13.rs:80-95 | swapping the two sides flips the ordering, so cmp is antisymmetric |
| DistressSignal.CompareTrans | 2022/src/bin/13.rs:80-95 | "not greater" is transitive, and Equal at the ends needs Equal at both steps |
| DistressSignal.EqualIsNotIdentity | 2022/src/bin/13.rs:68-72 | eq is cmp == Equal, so 2, [2] and [[2]] are all equal though they differ as values |
| DistressSignal.ParsePairs | 2022/src/bin/13.rs:98-104 | one pair per blank-line separated group |
| DistressSignal.InOrderSumBound | 2022/src/bin/13.rs:106-114 | the sum of the 1-based indices of pairs with first <= second is at most 1 + ... + n, and equals it exactly when every pair is in order |
| DistressSignal.ParseAll | 2022/src/bin/13.rs:119-125 | the packets of the non-empty lines are all lists |
| DistressSignal.DividersAreTheOnlyNumbers | 2022/src/bin/13.rs:126-131 | no parsed packet is Single(2) or Single(6), so the filter picks out exactly the two dividers |
| DistressSignal.CountAppend | 2022/src/bin/13.rs:126-127 | the number of packets not greater than a divider adds up over concatenation |
| DistressSignal.CountPermutation | 2022/src/bin/13.rs:128 | sorting does not change how many packets are not greater than a divider |
| DistressSignal.CountPrefix | 2022/src/bin/13.rs:128-133 | in a sorted list a packet every later one exceeds stands right after all the packets not greater than it |
| DistressSignal.CountWithDividers | 2022/src/bin/13.rs:126-127 | with both dividers pushed, 2 counts itself and 6 counts both dividers |
| DistressSignal.DividerPositions | 2022/src/bin/13.rs:126-134 | after the stable sort the 1-based positions of 2 and 6 are 1 + the packets not above 2 and 2 + the packets not above 6, the factors PartTwo multiplies |
| Snailfish.AddLeft | y2021/18/code.py:20-34 | the leftmost regular number grows by n and nothing else changes: the row of numbers is the old row with n added to its first entry, every depth and the height stay as they were, and None leaves the number alone |
| Snailfish.AddRight | y2021/18/code.py:37-51 | the rightmost regular number grows by n and nothing else changes: the row of numbers is the old row with n added to its last entry, every depth and the height stay as they were, and None leaves the number alone |
| Snailfish.AddLeftExample | y2021/18/code.py:24-28 | add_left([1,[2,3]], 5) is [6,[2,3]] and add_left([[1,2],[2,3]], 5) is [[6,2],[2,3]] |
| Snailfish.AddRightExample | y2021/18/code.py:41-45 | add_right([1,[2,3]], 5) is [1,[2,8]] and add_right([[1,2],[2,3]], 5) is [[1,2],[2,8]] |
| Snailfish.Explode | y2021/18/code.py:54-83 | a pair explodes exactly when some pair sits four deep; without an explosion the number comes back unchanged with nothing to add on either side; the height never grows |
| Snailfish.AddLeftSum | y2021/18/code.py:30-34 | add_left raises the sum of the regular numbers by exactly what it adds |
| Snailfish.AddRightSum | y2021/18/code.py:47-51 | add_right raises the sum of the regular numbers by exactly what it adds |
| Snailfish.ExplodeKeepsSum | y2021/18/code.py:73-82 | explode loses nothing: the new sum plus what is handed back on the left and on the right is the old sum |
| Snailfish.ExplodeCount | y2021/18/code.py:73-82 | an explosion replaces the pair's two regular numbers by a single 0, so the number has one regular number fewer |
| Snailfish.ExplodeExamples | y2021/18/code.py:61-68 | the three docstring cases of explode, including the one written with `>>` |
| Snailfish.FirstBig | y2021/18/code.py:86-88 | the index of the first regular number of ten or more, or the length of the row when there is none |
| Snailfish.Split | y2021/18/code.py:86-105 | once a split has happened nothing more changes, and a split raises the height by at most one |
| Snailfish.SplitLeaves | y2021/18/code.py:96-105 | split acts on the row of regular numbers: it reports a split exactly when some number is ten or more, and then the first such number n is replaced by floor(n/2), ceil(n/2) one level deeper, while every other number and depth stays |
| Snailfish.SplitNone | y2021/18/code.py:101-105 | a number whose regular numbers are all below ten is not split and comes back unchanged |
| Snailfish.SplitFirstExample | y2021/18/code.py:90-91 | split of [[[[0,7],4],[15,[0,13]]],[1,1]] splits the 15 into [7,8] |
| Snailfish.SplitSecondExample | y2021/18/code.py:93-94 | split of [[[[0,7],4],[[7,8],[0,13]]],[1,1]] splits the 13 into [6,7] |
| Snailfish.Round | y2021/18/code.py:120-123 | one round of add's loop keeps the height within five, so explode's depth bound holds in every round |
| Snailfish.ReduceSound | y2021/18/code.py:118-124 | the loop stops only at a reduced number: no pair four deep and no regular number of ten or more |
| Snailfish.ReduceReduced | y2021/18/code.py:118-124 | a number that is already reduced comes out of the loop unchanged |
| Snailfish.ReduceMoreFuel | y2021/18/code.py:120-123 | once the loop has ended within some number of rounds, more rounds give the same result |
| Snailfish.Add | y2021/18/code.py:108-124 | add's loop computes the reduction of the pair of the two numbers, and what it returns is reduced |
| Snailfish.AddFirstExample | y2021/18/code.py:112-113 | add([[[[1,1],[2,2]],[3,3]],[4,4]], [5,5]) is [[[[3,0],[5,3]],[4,4]],[5,5]] |
| Snailfish.AddSecondExample | y2021/18/code.py:115-116 | add([[[[3,0],[5,3]],[4,4]],[5,5]], [6,6]) is [[[[5,0],[7,4]],[5,5]],[6,6]] |
| Snailfish.MagnitudeBounds | y2021/18/code.py:127-143 | the magnitude, 3 times the left part's plus 2 times the right part's, lies between the sum of the regular numbers and 3^height times that sum |
| Snailfish.MagnitudeFirstExample | y2021/18/code.py:131-132 | magnitude([[1,2],[[3,4],5]]) is 143 |
| Snailfish.MagnitudeSecondExample | y2021/18/code.py:134-135 | magnitude([[[[0,7],4],[[7,8],[6,0]]],[8,1]]) is 1384 |
| Snailfish.MagnitudeThirdExample | y2021/18/code.py:137-138 | magnitude([[[[5,0],[7,4]],[5,5]],[6,6]]) is 1137 |
| Snailfish.SumAll | y2021/18/code.py:149 | folding add over the numbers fails on an empty list, as reduce does, and a sum of two or more numbers is reduced |
| Snailfish.PartOne | y2021/18/code.py:146-149 | part_one gives a magnitude exactly when the sum exists, and for two or more numbers it is at most 81 times the sum of the regular numbers, because a reduced number is at most four deep |
| SyntaxScoring.Closer | y2021/d10/code.py:25 | each opener is paired with a closer, which is never itself an opener |
| SyntaxScoring.InvalidPoints | y2021/d10/code.py:26 | the points table has an entry exactly for the four closers |
| SyntaxScoring.IncompletePoints | y2021/d10/code.py:27 | every opener is worth a base-5 digit from 1 to 4 |
| SyntaxScoring.ScanOf | y2021/d10/code.py:30-39 | the scan of any line that stays open leaves only openers on the stack |
| SyntaxScoring.ScanStuck | y2021/d10/code.py:36-38 | after a mismatch or a pop from the empty stack, no further characters change the outcome |
| SyntaxScoring.Validate | y2021/d10/code.py:30-39 | the stack loop returns the points of the first mismatching closer, 0 when no closer mismatches, and fails where a closer meets the empty stack or a non-closer has no points |
| SyntaxScoring.ScoreStack | y2021/d10/code.py:51-55 | the loop over the reversed stack computes the base-5 stack score with the innermost opener as the leading digit |
| SyntaxScoring.Complete | y2021/d10/code.py:42-55 | the stack loop gives 0 for a corrupted line and the stack score for an open one, and fails where a closer meets the empty stack |
| SyntaxScoring.FirstMismatch | y2021/d10/code.py:35-38 | a closer that meets a non-matching opener fixes validate to its points and complete to 0, whatever follows |
| SyntaxScoring.CorruptHasFirstMismatch | y2021/d10/code.py:36-38 | a corrupted line has a position where the scan was open just before and the character there is the one scored |
| SyntaxScoring.CompletionCloses | y2021/d10/code.py:51-55 | appending the closers of the remaining stack, innermost first, leaves the line open on the empty stack |
| SyntaxScoring.StackScoreIsCompletionScore | y2021/d10/code.py:51-55 | the base-5 stack score equals the puzzle's score of the completion string: times 5 plus the closer's value, closer by closer |
| SyntaxScoring.StackScorePositive | y2021/d10/code.py:51-55 | a stack score is positive exactly when openers remain |
| SyntaxScoring.StackScoreInjective | y2021/d10/code.py:51-55 | two stacks with the same score are equal |
| SyntaxScoring.ScanExamples | y2021/d10/code.py:30-55 | "(]" is worth 57 and completes to 0; "([" is worth 0 and completes to 11; "()" gives 0 for both |
| SyntaxScoring.ScoreExample | y2021/d10/code.py:51-55 | the stack "[({([[{{" scores 288957 |
| SyntaxScoring.PartOne | y2021/d10/code.py:13-14 | the sum is defined exactly when validate succeeds on every line |
| SyntaxScoring.PositiveScores | y2021/d10/code.py:18-20 | the filtered scores are all positive and are defined exactly when complete succeeds on every line |
| SyntaxScoring.Sort | y2021/d10/code.py:18 | sorted returns an increasing permutation of the scores |
| SyntaxScoring.SortedUnique | y2021/d10/code.py:18 | two increasing permutations of the same scores are equal, so the sort used does not matter |
| SyntaxScoring.PartTwoMedian | y2021/d10/code.py:17-21 | the answer is one of the positive scores, with at most half of them below it and at most half above |
| SyntaxScoring.PartTwoDefined | y2021/d10/code.py:17-21 | an answer exists exactly when complete succeeds on every line and at least one score is positive |
| PacketDecoder.Reader.ReadBits | 2021/y2021/d16/code.py:96-97 | read(n) returns the next n bits, or all that remain when fewer are left, and moves the position past exactly those bits |
| PacketDecoder.ParseLiteralGroups | 2021/y2021/d16/code.py:100-104 | the loop reads 5-bit groups up to and including the first whose leading bit is 0 and returns their joined payload bits, as ParseGroups defines; an empty read fails |
| PacketDecoder.Parse | 2021/y2021/d16/code.py:94-119 | reads a 3-bit version and a 3-bit type, then literal groups for type 4 and operator contents otherwise; the packet and the final position are those of ParseAt, and it fails exactly where ParseAt does |
| PacketDecoder.ParseSubpackets | 2021/y2021/d16/code.py:105-117 | a length-type bit 0 selects a 15-bit count of sub-packet bits, anything else an 11-bit count of sub-packets; the result and position are those of ParseOperator |
| PacketDecoder.ParseByBits | 2021/y2021/d16/code.py:108-112 | sub-packets are parsed while the position is below the bit limit; the result is that of ParseUntil |
| PacketDecoder.ParseByCount | 2021/y2021/d16/code.py:113-116 | exactly the counted number of sub-packets is parsed; the result is that of ParseCount |
| PacketDecoder.Decode | 2021/y2021/d16/code.py:29-39 | packets are parsed one after another from bit 0 until a parse fails, as DecodeFrom defines |
| PacketDecoder.ParseAt | 2021/y2021/d16/code.py:94-119 | a successful parse ends at least two bits after its start and within the input |
| PacketDecoder.ParseCount | 2021/y2021/d16/code.py:113-116 | a successful parse returns exactly the requested number of sub-packets and ends within the input |
| PacketDecoder.ParsedHeader | 2021/y2021/d16/code.py:96-97 | every parsed packet has a version below 8, and a parsed operator has a type below 8 other than 4 |
| PacketDecoder.VersionSum | 2021/y2021/d16/code.py:70-73 | version() is at least the packet's own version |
| PacketDecoder.VersionSumIsTotal | 2021/y2021/d16/code.py:70-73 | version() equals the total of the versions of the packet and every packet nested in it, listed in transmission order |
| PacketDecoder.PartOne | 2021/y2021/d16/code.py:18-20 | part one is the total of every version anywhere in the decoded packets |
| PacketDecoder.Values | 2021/y2021/d16/code.py:76-83 | the sub-packet values, one per sub-packet, and None when any of them raises |
| PacketDecoder.ValuesAt | 2021/y2021/d16/code.py:76-83 | the i-th listed value is the value of the i-th sub-packet |
| PacketDecoder.Minimum | 2021/y2021/d16/code.py:80-81 | the minimum is one of the values and no value is below it |
| PacketDecoder.Maximum | 2021/y2021/d16/code.py:82-83 | the maximum is one of the values and no value is above it |
| PacketDecoder.ValueByType | 2021/y2021/d16/code.py:75-92 | a valued operator has a type below 8 other than 4; product, minimum and maximum need a sub-packet; types 5, 6 and 7 need two and give 1 exactly when the first value is greater than, less than or equal to the second, 0 otherwise; a minimum is at most and a maximum at least every sub-packet value |
| PacketDecoder.HexDigit | 2021/y2021/d16/code.py:11 | int(c, 16) gives a value below 16, None for a character that is not a hexadecimal digit |
| PacketDecoder.HexBits | 2021/y2021/d16/code.py:11 | four bits per hexadecimal character, None when a character is not a digit |
| PacketDecoder.ToBitsValue | 2021/y2021/d16/code.py:11 | the w-bit binary form of a number below 2 to the w reads back as that number |
| PacketDecoder.BinValueConcat | 2021/y2021/d16/code.py:104 | the binary value of two bit strings joined is the first value shifted by the second's length plus the second value |
| PacketDecoder.BinValueBound | 2021/y2021/d16/code.py:96-97 | a string of n bits has a value below 2 to the n |
| PacketDecoder.GroupsParse | 2021/y2021/d16/code.py:100-104 | the groups written for a literal's hexadecimal digits parse back to the digits' 4-bit payloads and end five bits per digit later |
| PacketDecoder.EncodeParse | 2021/y2021/d16/code.py:94-119 | parsing the encoding of a packet whose fields fit their widths, with either length type throughout, gives back the packet and stops right after its bits, whatever follows |
| PacketDecoder.ParseEncoded | 2021/y2021/d16/code.py:94-119 | a transmission that starts with a packet's encoding parses back to that packet from bit 0 |
| PacketDecoder.ChainCount | 2021/y2021/d16/code.py:114-116 | packets that parse one after the other are read back by counting them |
| PacketDecoder.ChainUntil | 2021/y2021/d16/code.py:109-112 | packets that parse one after the other up to a position are read back by bit limit when the limit is that position |
| Polymer.Lower | 2018/5/code.py:11 | lower-casing yields no upper-case letter, and yields a lower-case letter exactly for letters |
| Polymer.ReactsIff | 2018/5/code.py:10-11 | two units react exactly when the first is a letter and the second is the same letter in the other case |
| Polymer.ReactsUnique | 2018/5/code.py:10-11 | a unit reacts with at most one other unit |
| Polymer.ReactPolymer | 2018/5/code.py:13-19 | the loop's result stack is the fully reacted polymer that React defines as the fold of push-or-pop over the units |
| Polymer.ReactInert | 2018/5/code.py:13-19 | no two adjacent units of the reacted polymer react |
| Polymer.ReactLength | 2018/5/code.py:13-19 | the reacted polymer is no longer than the input and has the same parity of length, since each reaction removes two units |
| Polymer.StackFromLength | 2018/5/code.py:14-18 | each step pushes one unit or pops one, so the stack length keeps the parity of the units consumed and never exceeds them |
| Polymer.StackFromConcat | 2018/5/code.py:14-18 | reacting a polymer in two halves, the second on top of the first's stack, is reacting the whole |
| Polymer.ReactFixed | 2018/5/code.py:13-19 | react returns its input unchanged exactly when no adjacent pair in it reacts |
| Polymer.ReactIdempotent | 2018/5/code.py:13-19 | reacting a reacted polymer changes nothing |
| Polymer.PushPair | 2018/5/code.py:14-18 | a reacting pair pushed onto a reacted stack leaves the stack as it was |
| Polymer.ReactRemovesPair | 2018/5/code.py:13-19 | destroying any adjacent reacting pair first does not change the reacted polymer, so the result does not depend on the order of reactions |
| Polymer.RemoveUnitAvoids | 2018/5/code.py:29 | after the two replace calls no unit equal to the letter or its upper case is left |
| Polymer.RemoveUnitKeeps | 2018/5/code.py:29 | every other unit occurs as often as before |
| Polymer.RemoveUnitLength | 2018/5/code.py:29 | removal never lengthens the polymer |
| Polymer.RemoveUnitConcat | 2018/5/code.py:29 | removal works unit by unit: removing from a concatenation is concatenating the removals |
| Polymer.ShortestOver | 2018/5/code.py:26-32 | the loop's minimum is one of the candidate lengths and at most every one of them |
| Polymer.ShortestAfterRemoval | 2018/5/code.py:24-34 | part two is the smallest reacted length over removing each of the 26 letters |
| PolymerInPlace.ReactingIsReacts | src/day5.rs:67 | equal upper cases of two different units is the same relation as the stack version's reacts |
| PolymerInPlace.RemoveAt | src/day5.rs:68-69 | Vec::remove shortens the buffer by one, keeps the units before i and shifts the rest down |
| PolymerInPlace.React | src/day5.rs:61-79 | removing reacting pairs in place and stepping back after each removal gives the stack version's reacted polymer, with no reacting pair left, no longer than the input and of the same parity |
| PolymerInPlace.StripUnit | src/day5.rs:40-50 | the in-place removal loop leaves exactly the polymer without the candidate in either case |
| PolymerInPlace.BestRemovalOver | src/day5.rs:36-58 | the best length is at most the input length and at most every candidate's reacted length, and unless it is the input length it is the length for the reported best unit |
| PolymerInPlace.BestRemoval | src/day5.rs:36-58 | the same over the 26 letters a to z |
| PolymerInPlace.LengthsBounded | src/day5.rs:37 | every candidate's reacted length is at most the input length |
| PolymerInPlace.SameMinimum | src/day5.rs:36-58 | the best length of part2, which starts from the input length, equals the minimum of the stack version, which starts from the first candidate |
| SlamShuffle.ParseI128 | 2019/src/day22.rs:17 | parse::<i128> succeeds exactly on an optional sign and digits whose value lies in the i128 range, and gives that value |
| SlamShuffle.FromStr | 2019/src/day22.rs:14-28 | a line is the error exactly when it contains none of "cut ", "deal with increment " and "deal into new stack"; it panics only when the first phrase it contains is a counted one and the text after the first 4 or 20 characters is not an i128 |
| SlamShuffle.FromStrCut | 2019/src/day22.rs:15-18 | "cut " followed by any i128 reads as a cut of that many cards |
| SlamShuffle.FromStrIncrement | 2019/src/day22.rs:19-22 | "deal with increment " followed by any i128 reads as a deal with that increment, because such a line cannot contain "cut " |
| SlamShuffle.FromStrDeal | 2019/src/day22.rs:23-24 | "deal into new stack" reads as the new stack deal, because it contains neither counted phrase |
| SlamShuffle.FromStrOthers | 2019/src/day22.rs:14-28 | a line naming no technique is the error; "cut x" panics, and so does "a cut 5", whose count is taken from the fifth character on |
| SlamShuffle.FromStrExample | 2019/src/day22.rs:144-148 | the first lines of the test's deck read as a new stack, cut -2, increment 7 and cut 8 |
| SlamShuffle.Track | 2019/src/day22.rs:50-54 | each technique moves a position to a position in 0..n-1 |
| SlamShuffle.DealMovesCard | 2019/src/day22.rs:51 | dealing into a new stack reverses the deck, so the card at p is found at n-1-p |
| SlamShuffle.CutMovesCard | 2019/src/day22.rs:52 | cutting count cards, from the top or for a negative count from the bottom, moves the card at p to p - count modulo n |
| SlamShuffle.IncrementMovesCard | 2019/src/day22.rs:53 | dealing with an increment that has an inverse modulo n moves the card at p to p * count modulo n |
| SlamShuffle.Part1Congruent | 2019/src/day22.rs:47-59 | part1's fold with Rust's truncating remainder is congruent modulo n to the card's position after the whole list |
| SlamShuffle.Part1Corrected | 2019/src/day22.rs:47-59 | the position of card 2019 after the shuffle of 10007 cards, in 0..10006, and equal to part1's answer taken modulo 10007 |
| SlamShuffle.Part1NegativeExample | 2019/src/day22.rs:52 | a single cut of 3000 cards makes part1 answer -981, while the card is at 9026 |
| SlamShuffle.ModPow | 2019/src/day22.rs:113-130 | modular_pow returns a value exactly when the modulus is 1, or is nonzero with (m-1)^2 inside i128; for the modulus 1 the value is 0 |
| SlamShuffle.ModularPow | 2019/src/day22.rs:113-130 | the square-and-multiply loop returns modular_pow's value; for m >= 2 and a non-negative exponent it is congruent to base^exponent modulo m and below m in magnitude |
| SlamShuffle.PowLoopCorrect | 2019/src/day22.rs:122-128 | each step of the loop keeps result * base^exponent modulo m |
| SlamShuffle.PowLoopBound | 2019/src/day22.rs:122-128 | the result stays below the modulus in magnitude |
| SlamShuffle.LoopProductsFit | 2019/src/day22.rs:117 | once (m-1)^2 fits in i128, the product of two numbers below m in magnitude does too, so the loop never overflows |
| SlamShuffle.ModPowCorrect | 2019/src/day22.rs:113-130 | modular_pow(base, exponent, m) is congruent to base^exponent modulo m for every m >= 2 whose square fits |
| SlamShuffle.ModPowExample | 2019/src/day22.rs:138-140 | modular_pow(4, 13, 497) == 445 |
| SlamShuffle.CombineStep | 2019/src/day22.rs:76-85 | a step of Combine::new keeps both coefficients below the modulus in magnitude |
| SlamShuffle.CutUndoes | 2019/src/day22.rs:77 | adding the count to b undoes a cut: the cut sends the new map's position to the old one |
| SlamShuffle.DealUndoes | 2019/src/day22.rs:82 | negating a and mapping b to -b-1 undoes a new stack |
| SlamShuffle.IncrementUndoes | 2019/src/day22.rs:78-81 | multiplying both coefficients by the count's inverse undoes a deal with that increment |
| SlamShuffle.StepUndoes | 2019/src/day22.rs:75-86 | each step of the fold undoes its technique after the ones that follow it |
| SlamShuffle.CombineUndoes | 2019/src/day22.rs:74-87 | Combine::new gives the inverse of the whole shuffle: the card at position y afterwards was at a*y+b before, modulo m |
| SlamShuffle.IterateUndoes | 2019/src/day22.rs:61-68 | applying the combined map k times to y gives the position that k shuffles bring to y |
| SlamShuffle.IterateClosed | 2019/src/day22.rs:89-95 | the map applied k times is congruent to a^k * y + b * (a^k - 1) * inv, where inv is an inverse of a - 1 |
| SlamShuffle.RemNormalized | 2019/src/day22.rs:94 | adding the modulus to Rust's remainder and reducing again gives the remainder in 0..m-1 |
| SlamShuffle.ApplyTimesIterates | 2019/src/day22.rs:89-95 | apply_times equals the combined map applied times times to x, in 0..m-1 |
| SlamShuffle.Part2Meaning | 2019/src/day22.rs:61-69 | part2's answer is the card that lands on position 2020 after 101741582076661 shuffles of 119315717514047 cards |
| Modular.FloorDiv | 2021/utils/utils.py:44 | Python's // rounds down: the remainder lies in 0..m-1 for a positive divisor and in m+1..0 for a negative one |
| Modular.GcdDivides | 2021/utils/utils.py:35 | math.gcd divides both numbers |
| Modular.GcdGreatest | 2021/utils/utils.py:35 | every common divisor of the two numbers divides math.gcd |
| PuzzleUtils.Windows | 2021/utils/utils.py:9-16 | for n > 0 the windows are the len-n+1 runs s[i..i+n], and there are none when the input is shorter; for n == 0 there is the empty tuple and then every element on its own |
| PuzzleUtils.WindowsShift | 2021/utils/utils.py:14-16 | each window is the previous one without its first element and with the next element appended |
| PuzzleUtils.WindowsSnoc | 2021/utils/utils.py:14-16 | one more input element adds exactly the window that ends with it |
| PuzzleUtils.Window | 2021/utils/utils.py:9-16 | the generator's loop yields exactly Windows(s, n); a negative n is the error islice raises |
| PuzzleUtils.Lcm | 2021/utils/utils.py:31-35 | the ZeroDivisionError (None) happens exactly when both numbers are zero |
| PuzzleUtils.LcmTimesGcd | 2021/utils/utils.py:35 | lcm * gcd == abs(a * b), and lcm is abs(a) // gcd times abs(b), so the division is exact |
| PuzzleUtils.LcmCommon | 2021/utils/utils.py:31-35 | lcm is a multiple of a and of b |
| PuzzleUtils.LcmLeast | 2021/utils/utils.py:31-35 | lcm divides every common multiple of a and b, so it is the least one |
| PuzzleUtils.Egcd | 2021/utils/utils.py:38-47 | the loop returns (g, x, y) with a*x + b*y == g and abs(g) == gcd(a, b), and g == gcd(a, b) when both inputs are non-negative |
| PuzzleUtils.BezoutStep | 2021/utils/utils.py:44-46 | the updates of x0, x1, y0 and y1 keep both numbers combinations of the inputs |
| PuzzleUtils.GcdStep | 2021/utils/utils.py:44 | the divmod step keeps the gcd of the pair |
| PuzzleUtils.EgcdLoopSound | 2021/utils/utils.py:43-47 | from any pair that keeps those invariants the loop ends with a Bezout identity for the gcd |
| PuzzleUtils.EgcdSound | 2021/utils/utils.py:38-47 | egcd's (g, x, y) satisfy a*x + b*y == g with abs(g) == gcd(a, b), and g == gcd(a, b) for non-negative inputs |
| PuzzleUtils.EgcdNegativeExample | 2021/utils/utils.py:40 | egcd(-4, 6) returns g = -2 although gcd(-4, 6) is 2 |
| PuzzleUtils.EgcdCorrected | 2021/utils/utils.py:38-47 | with the signs turned, g == gcd(a, b) and a*x + b*y == g for every input, and the result is egcd's own for non-negative inputs |
| ShuttleSearch.CombinePeriods | 2020/13/code.py:39-46 | combining two constraints divides by zero only when one of the periods is 0; an aligned result has a non-zero period and a phase smaller than it in magnitude |
| ShuttleSearch.CombineSound | 2020/13/code.py:40-45 | for positive periods there is no division by zero; ValueError is raised exactly when gcd(a, b) does not divide the phase difference, and then no time meets both constraints; otherwise the combined period is lcm(a, b), the combined phase lies in 0..period-1, and a time meets both constraints if and only if it is congruent to the combined phase modulo the combined period |
| ShuttleSearch.FoldStep | 2020/13/code.py:34-35 | one step of the fold: an aligned pair carries on with the next bus, and ValueError or a zero division ends the fold |
| ShuttleSearch.FoldSound | 2020/13/code.py:33-35 | the fold keeps its invariant: the accumulated (period, phase) describes exactly the times that meet every bus seen so far; if ValueError ends it, no time meets all the buses |
| ShuttleSearch.Part2Loop | 2020/13/code.py:32-36 | the loop from (1, 0) over the buses, stopping at the first ValueError, gives the answer of the part-two fold |
| ShuttleSearch.Part2Earliest | 2020/13/code.py:32-36 | for positive bus ids part two never divides by zero; its answer is the earliest non-negative timestamp t at which each bus id divides t plus the bus's offset, and ValueError comes only when no timestamp works |
| Modular.TruncDiv | 2024/src/bin/13.rs:25-26 | Rust's / truncates toward zero: the dividend is the divisor times the quotient plus Rust's remainder |
| Modular.RemZero | 2024/src/bin/13.rs:22 | Rust's remainder is zero exactly when the divisor divides the dividend, whatever the signs |
| ClawContraption.AsUsize | 2024/src/bin/13.rs:27 | the usize cast gives a value below 2^64 and keeps every value already in range |
| ClawContraption.Solve | 2024/src/bin/13.rs:16-19 | a zero determinant gives None |
| ClawContraption.SolveExact | 2024/src/bin/13.rs:12-28 | when the determinant is not zero and some integer press counts (a, b) reach the prize, both divisibility tests pass and solve returns (a, b) cast to usize |
| ClawContraption.ReachesDivides | 2024/src/bin/13.rs:20-24 | when some integer press counts reach the prize, both of Cramer's numerators leave no remainder modulo the determinant |
| ClawContraption.SolveSound | 2024/src/bin/13.rs:20-27 | whatever solve returns is, up to the usize cast of each count, a pair of integer press counts that lands the claw on the prize |
| ClawContraption.SolveNone | 2024/src/bin/13.rs:22-24 | None for a machine with a non-zero determinant means no integer press counts reach the prize |
| ClawContraption.SolveUnique | 2024/src/bin/13.rs:16-26 | with a non-zero determinant at most one pair of press counts reaches the prize |
| ClawContraption.SolveCorrected | 2024/src/bin/13.rs:25-27 | a returned pair of non-negative press counts reaches the prize, and for a non-zero determinant None comes exactly when no non-negative press counts do |
| ClawContraption.SolveAgrees | 2024/src/bin/13.rs:25-27 | when non-negative press counts below 2^64 reach the prize, solve and the corrected solve both return them |
| ClawContraption.SolveNegativeExample | 2024/src/bin/13.rs:27 | buttons (1, 2) and (2, 1) with the prize at (0, 3): solve returns (2, 2^64 - 1), while the corrected solve returns None |
| ClawContraption.TotalCostSnoc | 2024/src/bin/13.rs:55-60 | one more machine adds 3 tokens per A press and 1 per B press when solve answers Some, and nothing otherwise |
| ClawContraption.PartOne | 2024/src/bin/13.rs:52-62 | the loop adds up the cost of every machine solve answers Some for |
| ClawContraption.PartTwo | 2024/src/bin/13.rs:64-76 | the loop moves every prize 10000000000000 further on both axes and then adds up the costs as part one does |
| ClawContraption.PartOneExample | 2024/src/bin/13.rs:82-86 | the example's total cost is 480 |
| ClawContraption.PartTwoExample | 2024/src/bin/13.rs:88-92 | with the prizes moved, the example's total cost is 875318608908 |
| GroveMixing.RotateIndex | 2022/src/bin/20.rs:21 | after rotate_left(k) position t holds the entry that stood k places further round the circle |
| GroveMixing.RotatePermutes | 2022/src/bin/20.rs:21 | rotate_left keeps every entry of the deque, as often as it occurs |
| GroveMixing.Find | 2022/src/bin/20.rs:15-19 | the first position holding the original index, or none when no entry has it |
| GroveMixing.Shift | 2022/src/bin/20.rs:23 | the rotation computed with rem_euclid lies below the length of the deque after the pop |
| GroveMixing.Move | 2022/src/bin/20.rs:14-27 | one move keeps the length, and panics exactly when the index is missing or the deque has one entry only |
| GroveMixing.MovePlaces | 2022/src/bin/20.rs:20-27 | after a move the moved entry is at the front and the entry t places after it is the one that stood 1 + (t - 1 + val * key rem_euclid (n - 1)) mod (n - 1) places after it before, so the others keep their circular order |
| GroveMixing.MovePermutes | 2022/src/bin/20.rs:20-27 | a move keeps the multiset of entries |
| GroveMixing.IndexedPermutation | 2022/src/bin/20.rs:13-19 | a rearranged deque still holds every original index below its length |
| GroveMixing.MoveIndexed | 2022/src/bin/20.rs:13-27 | in a deque holding every original index, a move finds its entry, panics only for a one-entry deque and keeps every index |
| GroveMixing.MixDefined | 2022/src/bin/20.rs:13-28 | the first k moves of a round succeed unless the deque has one entry, and keep every original index |
| GroveMixing.MixPermutes | 2022/src/bin/20.rs:13-28 | the moves of a round keep the multiset of entries |
| GroveMixing.DecodeDefined | 2022/src/bin/20.rs:10-31 | decode panics exactly for a one-entry file with at least one round, and keeps every original index |
| GroveMixing.DecodePermutes | 2022/src/bin/20.rs:10-31 | any number of rounds keeps the multiset of (original index, value) entries |
| GroveMixing.Enumerate | 2022/src/bin/20.rs:70-74 | the i-th line becomes the entry (i, value), so the file holds every original index once |
| GroveMixing.FindZero | 2022/src/bin/20.rs:34-38 | the first position holding the value 0, or none when there is no 0 |
| GroveMixing.IterZero | 2022/src/bin/20.rs:33-44 | iter_zero is defined exactly when the file holds a 0; it yields as many values as the file holds, starting with the 0 |
| GroveMixing.IterZeroPlaces | 2022/src/bin/20.rs:39-43 | the i-th value yielded is the one i places round the circle from the first 0 |
| GroveMixing.IterZeroPermutes | 2022/src/bin/20.rs:39-43 | iter_zero yields every value of the file, as often as it occurs |
| GroveMixing.Get | 2022/src/bin/20.rs:54-57 | get(idx) panics exactly for an empty file or one without a 0, and otherwise is the value (idx mod len) places round from the 0 |
| GroveMixing.GroveSum | 2022/src/bin/20.rs:46-52 | the coordinates' sum is the values 1000, 2000 and 3000 places round from the 0, each reduced modulo the length |
| GroveMixing.SolveDefined | 2022/src/bin/20.rs:81-96 | an answer exists exactly when the file holds a 0 and, with rounds to do, more than one number |
| GroveMixing.EncodedFile.constructor | 2022/src/bin/20.rs:70-77 | from_str stores the enumerated lines, every original index present |
| GroveMixing.EncodedFile.Position | 2022/src/bin/20.rs:15-19 | the position search returns what Find specifies |
| GroveMixing.EncodedFile.MoveEntry | 2022/src/bin/20.rs:14-27 | one pass of the inner loop leaves the deque as Move specifies, keeping every original index, and fails only on a one-entry deque |
| GroveMixing.EncodedFile.Decode | 2022/src/bin/20.rs:10-31 | the nested loops leave the deque as the specified rounds of moves do, and fail exactly for a one-entry file with at least one round |
| GroveMixing.PartOne | 2022/src/bin/20.rs:81-87 | one round with key 1 and the coordinates' sum, None where the source panics |
| GroveMixing.PartTwo | 2022/src/bin/20.rs:89-96 | ten rounds with key 811589153 and the coordinates' sum times the key, None where the source panics |
| CrabCups.LinksCircle | 2020/23/code.py:16-19 | the cup_next dict built from the input links each cup to the next one in input order and the last to the first, and has no other keys: one cycle through all cups |
| CrabCups.MaxOf | 2020/23/code.py:21 | max of the cups is one of them and no cup exceeds it |
| CrabCups.CupGame.constructor | 2020/23/code.py:15-22 | a new game encodes the input circle with its first cup current, max_cup the largest label and nothing picked up |
| CrabCups.CupGame.IterFrom | 2020/23/code.py:24-28 | iter_from(cup) yields every other cup once, in circle order starting after cup, and stops when it reaches cup again |
| CrabCups.DestinationSpec | 2020/23/code.py:41-43 | the destination label is in 1..max_cup, is not picked up, and is the first label going down from the current one (wrapping from 1 to max_cup) that is not picked up, at most four steps down |
| CrabCups.Pigeonhole | 2020/23/code.py:42-43 | three picked-up cups cannot cover four different labels below the current one, so the destination loop stops within four steps |
| CrabCups.CupGame.FindDestination | 2020/23/code.py:41-43 | the while loop returns the destination label, which is in 1..max_cup and not picked up |
| CrabCups.TickOrder | 2020/23/code.py:34-52 | the circle after a move is again a circle over the labels 1..n, with the old current cup last before the new current |
| CrabCups.TickPlacesPicked | 2020/23/code.py:46-52 | after a move the three picked-up cups follow the destination in pick-up order, and the new current cup is the one that followed the third picked-up cup |
| CrabCups.RelinkCircle | 2020/23/code.py:46-49 | the three dict updates, in the source's order, turn the links of the old circle into exactly the links of the circle after the move |
| CrabCups.CupGame.Tick | 2020/23/code.py:34-52 | tick picks up the three cups after the current one, keeps the links a single cycle equal to the moved circle, and makes the new current cup the successor of the old one |
| CrabCups.TicksLast | 2020/23/code.py:59-60 | t + 1 moves are one more move after t moves |
| CrabCups.Play | 2020/23/code.py:57-60 | the game after t calls of tick holds the circle after t moves |
| CrabCups.Part1 | 2020/23/code.py:55-63 | part one is the digits of the cups after cup 1, in circle order, after 100 moves |
| CrabCups.PaddedLabels | 2020/23/code.py:67-72 | padding the cups with max+1..1000000 gives the labels 1..1000000 (or the input when it is already longer) |
| CrabCups.Part2 | 2020/23/code.py:66-77 | part two is the product of the two cups after cup 1 after ten million moves on the padded circle |
| PyroclasticFlow.NewBlock | 2022/src/bin/17.rs:23-31 | the height is a y of some point and no point lies higher; the unwrap of an empty maximum panics (None) exactly when there are no points |
| PyroclasticFlow.LineFits | 2022/src/bin/17.rs:33-38 | the line block has height 0 and fits the chamber |
| PyroclasticFlow.PlusFits | 2022/src/bin/17.rs:39-45 | the plus block has height 2 and fits the chamber |
| PyroclasticFlow.CornerFits | 2022/src/bin/17.rs:46-52 | the L block has height 2 and fits the chamber |
| PyroclasticFlow.ColumnFits | 2022/src/bin/17.rs:53-58 | the column block has height 3 and fits the chamber |
| PyroclasticFlow.BoxFits | 2022/src/bin/17.rs:59-64 | the box block has height 1 and fits the chamber |
| PyroclasticFlow.BlocksFit | 2022/src/bin/17.rs:32-72 | each of the five blocks has cells only in columns 0..4 and rows 0..height |
| PyroclasticFlow.CollidesIff | 2022/src/bin/17.rs:167-190 | a move collides exactly when some moved cell is left of x 0, right of x 6, below y 0, or on a solid materialized cell |
| PyroclasticFlow.CollisionExamples | 2022/src/bin/17.rs:306-341 | the five has_collision test results on the row ..#.... |
| PyroclasticFlow.Place | 2022/src/bin/17.rs:122-136 | the rows after materializing number the larger of the old count and the block's top row plus one, each of seven cells |
| PyroclasticFlow.PlaceCells | 2022/src/bin/17.rs:122-136 | materializing keeps every solid cell, makes every block cell solid, and makes no other cell solid |
| PyroclasticFlow.Fall | 2022/src/bin/17.rs:146-163 | the loop ends with the block at a free position from which it cannot fall, after at least one push, with the jet index below the stream length |
| PyroclasticFlow.FallTime | 2022/src/bin/17.rs:147-148 | the jet index after the fall is the start index plus the number of pushes, modulo the stream length |
| PyroclasticFlow.FallContinues | 2022/src/bin/17.rs:146-158 | a round whose fall is free continues from one row lower at the next jet |
| PyroclasticFlow.FallStops | 2022/src/bin/17.rs:156-162 | a round whose fall is blocked ends at the pushed position and the next jet |
| PyroclasticFlow.FallLands | 2022/src/bin/17.rs:142-163 | a block never rises and comes to rest no higher than the top of the tower |
| PyroclasticFlow.StartFree | 2022/src/bin/17.rs:142-145 | a fitting block is free at x 2, three rows above the tower |
| PyroclasticFlow.FreeInside | 2022/src/bin/17.rs:180-188 | every cell of a block at a free position lies between the walls and above the floor, so the indexing of materialize is in bounds |
| PyroclasticFlow.Drop | 2022/src/bin/17.rs:138-165 | dropping a block leaves seven-cell rows and a jet index below the stream length |
| PyroclasticFlow.DropGrowth | 2022/src/bin/17.rs:122-165 | a dropped block never lowers the tower and raises it by at most its height plus one |
| PyroclasticFlow.Towers | 2022/src/bin/17.rs:207-213 | the state after n blocks of the cycle has seven-cell rows and a jet index below the stream length |
| PyroclasticFlow.TowersNext | 2022/src/bin/17.rs:209-211 | block n of the cycle is shape n mod 5, and the state after n + 1 blocks drops it onto the state after n |
| PyroclasticFlow.TowersHeight | 2022/src/bin/17.rs:207-213 | the tower never shrinks and grows by at most four rows per block |
| PyroclasticFlow.ParseJets | 2022/src/bin/17.rs:85-100 | panics (None) exactly when some character is neither whitespace nor '<' nor '>'; otherwise no parsed movement is Down |
| PyroclasticFlow.JetText | 2022/src/bin/17.rs:85-100 | the text of a jet stream has one character per jet |
| PyroclasticFlow.ParseJetText | 2022/src/bin/17.rs:85-100 | reading the text of a jet stream, with or without the input's trailing newline, gives the stream back |
| PyroclasticFlow.ParseExamples | 2022/src/bin/17.rs:85-100 | whitespace alone gives no jets, "<>" gives left then right, "<x>" panics |
| PyroclasticFlow.Chamber.constructor | 2022/src/bin/17.rs:95-99 | an empty chamber with the parsed jets at time 0 |
| PyroclasticFlow.Chamber.HasCollision | 2022/src/bin/17.rs:167-190 | the method's answer is Collides on the materialized rows |
| PyroclasticFlow.Chamber.GrowTo | 2022/src/bin/17.rs:128-131 | the rows are kept and empty rows are pushed until the top row exists |
| PyroclasticFlow.Chamber.SetCells | 2022/src/bin/17.rs:132-135 | a cell is solid afterwards iff it was solid or is a block cell |
| PyroclasticFlow.Chamber.Materialize | 2022/src/bin/17.rs:122-136 | the rows afterwards equal Place, the jets and the clock are unchanged |
| PyroclasticFlow.Chamber.Settle | 2022/src/bin/17.rs:146-163 | the loop ends at Fall's landing position and jet index, with the rows unchanged |
| PyroclasticFlow.Chamber.DropBlock | 2022/src/bin/17.rs:138-165 | the rows and the clock afterwards equal Drop of the old ones |
| PyroclasticFlow.PartOne | 2022/src/bin/17.rs:207-213 | panics (None) iff a character is unknown or the jet stream is empty; otherwise the rows after 2022 blocks, at most 8088 |
| IntcodeDay5.EqualToEightImmediate | 2019/src/day5.rs:224-233 | "3,3,1108,-1,8,3,4,3,99" outputs 1 when its input is 8 and 0 otherwise |
| IntcodeDay5.LessThanEightPosition | 2019/src/day5.rs:235-244 | "3,9,7,9,10,9,4,9,99,-1,8" outputs 1 when its input is below 8 and 0 otherwise |
| IntcodeDay5.NegativeValues | 2019/src/day5.rs:205-211 | "1101,100,-1,4,0" adds 100 and -1 into cell 4, leaving 99 there, and then halts |
| IntcodeDay5.JumpStep | 2019/src/day5.rs:93-108 | a jump whose first operand's test holds continues from its second operand, and one whose test fails continues three cells on |
| IntcodeDay5.PrintThenHalt | 2019/src/day5.rs:88-92 | "4,a" followed by 99 halts with the cell a points to appended to the output |
| IntcodeDay5.JumpPositionMode | 2019/src/day5.rs:257-264 | "3,12,6,12,15,1,13,14,13,4,13,99,-1,0,1,9" outputs 0 when its input is 0 and 1 otherwise |
| IntcodeDay5.JumpImmediateMode | 2019/src/day5.rs:266-273 | "3,3,1105,-1,9,1101,0,0,12,4,12,99,1" outputs 0 when its input is 0 and 1 otherwise |
| IntcodeDay5.CompareToEightRun | 2019/src/day5.rs:276-284 | any program holding the code of the compare-to-8 program, started on input x with ten or more steps, halts with the single output 999, 1000 or 1001 as x is below, equal to or above 8 |
| IntcodeDay5.CompareToEight | 2019/src/day5.rs:276-284 | the 47-cell program of test_large_program halts with the single output 999 for an input below 8, 1000 for 8 and 1001 above 8 |
| DistressSignal.Step | 2022/src/bin/13.rs:24-61 | a byte panics exactly when it is a digit that overflows the number, a ']' with no enclosing list, or any byte other than a digit, ',', '[' or ']'; otherwise '[' deepens the stack by one, ']' pops one, and the rest leave its depth alone |
| DistressSignal.Run | 2022/src/bin/13.rs:23-61 | when the loop gets through, the stack has grown by the number of '[' bytes and shrunk by the number of ']' bytes |
| DistressSignal.Render | 2022/src/bin/13.rs:14-66 | a written number is a non-empty run of decimal digits and a written list starts with '[' and ends with ']' |
| DistressSignal.CountUpTo | 2022/src/bin/13.rs:126-133 | no more packets are counted than there are |
| DistressSignal.PartOne | 2022/src/bin/13.rs:97-115 | an answer exactly when every group parses as a pair; it is at most 1 + ... + n for n pairs, and reaches that exactly when every pair is in order |
| DistressSignal.PartTwo | 2022/src/bin/13.rs:117-135 | an answer exactly when every non-empty line parses; it lies between 2 (both dividers first) and (n + 2)^2 for n packets |
| SecureContainer.Digits | 2019/src/day4.rs:8-18 | the digits are decimal digits, at least one, with no leading zero, and they stand for the number; one digit exactly below 10 and two exactly from 10 to 99 |
| SecureContainer.ValueLower | 2019/src/day4.rs:8-18 | digits without a leading zero stand for at least 1, and for at least 10 once there are two of them |
| SecureContainer.DigitsValue | 2019/src/day4.rs:8-18 | digits reads back every digit sequence without a leading zero, so digits is one-to-one and onto such sequences |
| SecureContainer.TwoDigits | 2019/src/day4.rs:8-18 | a two-digit number's digits are its tens and its units |
| SecureContainer.PairsOrderedSorted | 2019/src/day4.rs:20-22 | every adjacent window in order holds exactly when the whole digit sequence is sorted |
| SecureContainer.GroupOf | 2019/src/day4.rs:28-37 | the tests panic exactly for fewer than two digits or two equal digits, answer false for two different digits, and otherwise compute middle, left_edge or right_edge |
| SecureContainer.RepeatedDigitGroup | 2019/src/day4.rs:28-37 | repeated_digit_group panics exactly for one-digit numbers and for 11, 22, ..., 99 |
| SecureContainer.GroupMeansExactPair | 2019/src/day4.rs:28-37 | from three digits on, the answer is whether some run of equal digits has length exactly two |
| SecureContainer.GroupTestExactPair | 2019/src/day4.rs:30-36 | the inner windows and the two edge tests together find exactly the runs of length two |
| SecureContainer.GroupImpliesRepeated | 2019/src/day4.rs:24-37 | a number that passes repeated_digit_group also passes repeated_digit |
| SecureContainer.Digits112233 | 2019/src/day4.rs:85 | the digits of 112233 are 1, 1, 2, 2, 3, 3 |
| SecureContainer.Digits123444 | 2019/src/day4.rs:86 | the digits of 123444 are 1, 2, 3, 4, 4, 4 |
| SecureContainer.Digits111122 | 2019/src/day4.rs:87 | the digits of 111122 are 1, 1, 1, 1, 2, 2 |
| SecureContainer.GroupExampleAllPairs | 2019/src/day4.rs:85 | 112233 passes repeated_digit_group |
| SecureContainer.GroupExampleTriple | 2019/src/day4.rs:86 | 123444 fails repeated_digit_group |
| SecureContainer.GroupExampleQuadAndPair | 2019/src/day4.rs:87 | 111122 passes repeated_digit_group |
| SecureContainer.CountOne | 2019/src/day4.rs:55-65 | the count of part1 is at most the size of the range |
| SecureContainer.CountTwoBelowOne | 2019/src/day4.rs:55-77 | when part2 does not panic, it counts no more passwords than part1 |
| SecureContainer.CountTwoNone | 2019/src/day4.rs:67-77 | once a non-decreasing number of the range panics, so does the whole of part2 |
| SecureContainer.PartOne | 2019/src/day4.rs:55-65 | the loop counts the non-decreasing numbers with a repeated digit in number1..=number2 |
| SecureContainer.PartTwo | 2019/src/day4.rs:67-77 | the loop counts the non-decreasing numbers that pass repeated_digit_group, and panics (None) at the first non-decreasing number that makes it panic |
| PlutonianPebbles.Blink | 2024/src/bin/11.rs:35-47 | one blink gives one or two stones: 1 for 0, the two halves of an even-length number, otherwise the number times 2024 |
| PlutonianPebbles.SplitHalves | 2024/src/bin/11.rs:38-44 | an even-length number splits into a left half of exactly half its digits and a right half below 10^half, and left * 10^half + right gives the number back |
| PlutonianPebbles.DecimalLengthBounds | 2024/src/bin/11.rs:38 | the length of the decimal string is the k with 10^(k-1) <= n < 10^k |
| PlutonianPebbles.DecimalLengthOf | 2024/src/bin/11.rs:38 | every number in [10^(k-1), 10^k) has a decimal string of length k |
| PlutonianPebbles.NextStones | 2024/src/bin/11.rs:35-47 | the next vector built push by push is the blink of the stone |
| PlutonianPebbles.Memory.BlinkStone | 2024/src/bin/11.rs:28-54 | the result is the number of stones the stone becomes after count blinks (1 for count 0), the memory keeps every entry it had, and every entry stays the count of its (stone, count) |
| PlutonianPebbles.Memory.BlinkEach | 2024/src/bin/11.rs:48-51 | summing blink_stone over several stones with one memory gives the total count of those stones |
| PlutonianPebbles.BlinkMany | 2024/src/bin/11.rs:20-26 | a fresh memory summed over all stones gives the number of stones after count blinks, the length of the full expansion |
| PlutonianPebbles.TotalAppend | 2024/src/bin/11.rs:20-26 | the count of two runs of stones side by side is the sum of their counts |
| PlutonianPebbles.TotalZero | 2024/src/bin/11.rs:29-31 | with no blink left each stone counts once |
| PlutonianPebbles.TotalBlinkAll | 2024/src/bin/11.rs:48-51 | counting the blinked stones with one blink fewer equals counting the stones themselves |
| PlutonianPebbles.TotalExpand | 2024/src/bin/11.rs:20-54 | the memoised count equals the number of stones of the expansion blink by blink |
| PlutonianPebbles.CountExpand | 2024/src/bin/11.rs:28-54 | blink_stone's value is the number of stones that one stone becomes |
| PlutonianPebbles.PartOne | 2024/src/bin/11.rs:57-60 | part_one is the number of stones after 25 blinks |
| PlutonianPebbles.PartTwo | 2024/src/bin/11.rs:62-65 | part_two is the number of stones after 75 blinks |
| PlutonianPebbles.BlinkExamples | 2024/src/bin/11.rs:35-47 | 125 becomes 253000, 17 becomes 1 and 7, 253000 becomes 253 and 0, 1000 becomes 10 and 0 (the right half without its leading zeros), 0 becomes 1 |
| PlutonianPebbles.ExpandExample | 2024/src/bin/11.rs:72-75 | the test input "125 17" is 253000 1 7 after one blink and 253 0 2024 14168 after two, four stones |
| MirageMaintenance.Predict | 2023/src/bin/09.rs:28-41 | a reading with no non-zero value predicts 0 |
| MirageMaintenance.PredictReadings | 2023/src/bin/09.rs:28-41 | _predict returns the extrapolated value of the reading |
| MirageMaintenance.DifferencesOf | 2023/src/bin/09.rs:32-38 | the loop pushes, for each reading after the first, that reading minus the one before it |
| MirageMaintenance.ExtendDifferences | 2023/src/bin/09.rs:31-39 | appending the prediction to a non-zero reading appends the prediction of its differences to its differences: the difference table grows by one column |
| MirageMaintenance.PredictConstant | 2023/src/bin/09.rs:28-41 | a run of one value c predicts c |
| MirageMaintenance.PredictArithmetic | 2023/src/bin/09.rs:28-41 | an arithmetic progression of n >= 2 terms a, a + d, … predicts a + n * d |
| MirageMaintenance.PredictNegate | 2023/src/bin/09.rs:28-41 | negating every reading negates the prediction |
| MirageMaintenance.DifferencesReverse | 2023/src/bin/09.rs:23-26 | the differences of the reversed reading are the reversed differences, negated |
| MirageMaintenance.PreviousRule | 2023/src/bin/09.rs:23-26 | predict_previous of a non-zero reading is its first value minus predict_previous of its differences |
| MirageMaintenance.PredictZeros | 2023/src/bin/09.rs:29-30 | an all-zero reading predicts 0 forwards and backwards |
| MirageMaintenance.PreviousExample | 2023/src/bin/09.rs:78-82 | the reading 10 13 16 21 30 45 has previous value 5 |
| MirageMaintenance.FirstExample | 2023/src/bin/09.rs:66-76 | 0 3 6 9 12 15 predicts 18 and has previous value -3 |
| MirageMaintenance.SecondExample | 2023/src/bin/09.rs:66-76 | 1 3 6 10 15 21 predicts 28 and has previous value 0 |
| MirageMaintenance.ThirdExample | 2023/src/bin/09.rs:66-76 | 10 13 16 21 30 45 predicts 68 |
| MirageMaintenance.PartsOfThree | 2023/src/bin/09.rs:44-60 | part_one and part_two of three readings add up their predictions and previous values |
| MirageMaintenance.PartsExample | 2023/src/bin/09.rs:66-76 | on the puzzle's three example readings part_one gives 114 and part_two gives 2 |
| MonkeyMath.Compute | 2022/src/bin/21.rs:18-23 | the literal arithmetic gives the sum, difference, quotient or product, and panics exactly on u64 overflow, underflow or division by zero |
| MonkeyMath.Apply | 2022/src/bin/21.rs:15-33 | two literals combine into the literal of the arithmetic (or panic); any other pair of operands becomes an Op node over them |
| MonkeyMath.InverseOp | 2022/src/bin/21.rs:35-42 | invert never returns the operation itself, and keeps additive operations additive |
| MonkeyMath.InverseInvolution | 2022/src/bin/21.rs:35-42 | invert applied twice gives the operation back |
| MonkeyMath.OperationRoundTrip | 2022/src/bin/21.rs:88-100 | from_str reads back each operation's symbol, only that symbol, and fails on every other string |
| MonkeyMath.Value | 2022/src/bin/21.rs:54-59 | value is Some exactly for a literal, and gives its number |
| MonkeyMath.InvertNonLiteral | 2022/src/bin/21.rs:61-85 | once the target is not a literal, invert never produces a literal again |
| MonkeyMath.InvertSound | 2022/src/bin/21.rs:61-85 | when invert ends in a literal x and every step checks forward, putting x in for the unknown makes the expression evaluate to the target |
| MonkeyMath.SafeChecked | 2022/src/bin/21.rs:66-81 | sums, differences and division by a non-zero literal always check forward |
| MonkeyMath.LeftStep | 2022/src/bin/21.rs:68-75 | solving c + x == v or c - x == v, the value found for x gives v back |
| MonkeyMath.RightStep | 2022/src/bin/21.rs:78-80 | solving x + c == v, x - c == v or x / c == v with c non-zero, the value found for x gives v back |
| MonkeyMath.MulInexact | 2022/src/bin/21.rs:70-71 | for a multiplication the inversion need not solve the equation: 2 * x == 7 inverts to 3 |
| MonkeyMath.Plug | 2022/src/bin/21.rs:61-85 | the expression with every unknown replaced by a literal has no unknown left |
| MonkeyMath.ApplyNormal | 2022/src/bin/21.rs:15-33 | apply keeps expressions normal: without variables, and with Op nodes only over an operand that holds an unknown |
| MonkeyMath.EvalNormal | 2022/src/bin/21.rs:107-118 | eval resolves every variable through the map and combines literals as far as it can, leaving only Op nodes over an unknown |
| MonkeyMath.NormalLiteral | 2022/src/bin/21.rs:107-118 | a normal expression without an unknown is a literal |
| MonkeyMath.NoUnknownEval | 2022/src/bin/21.rs:107-118 | with no unknown in the expression or the equations, eval's result holds none |
| MonkeyMath.EvalPlug | 2022/src/bin/21.rs:107-118 | evaluating with humn as the unknown and then putting x in for it gives what evaluating with humn equal to x gives |
| MonkeyMath.PartOneNumber | 2022/src/bin/21.rs:152-158 | for parsed equations, part_one is Some exactly when root evaluates, and is then root's number |
| MonkeyMath.PartTwoSound | 2022/src/bin/21.rs:160-172 | part_two's answer balances root: with humn equal to it both operands of root evaluate to the same number, when the left side needs only inversions that check |
| MonkeyMath.InvertSubExamples | 2022/src/bin/21.rs:203-222 | 13 - x == 7 inverts to 6 and x - 10 == 11 to 21 |
| MonkeyMath.InvertDivExamples | 2022/src/bin/21.rs:223-242 | 6 / x == 3 inverts to 2 and x / 5 == 3 to 15 |
| MonkeyMarket.PruneValue | 2024/src/bin/22.rs:43-45 | prune leaves a value below 2^24 |
| MonkeyMarket.Evolve | 2024/src/bin/22.rs:47-54 | a step, three mixes each followed by a prune, leaves a value below 2^24 |
| MonkeyMarket.EvolveN | 2024/src/bin/22.rs:56-60 | after at least one step the secret is below 2^24 |
| MonkeyMarket.SecretNumber.Prune | 2024/src/bin/22.rs:43-45 | the new value is the old one pruned |
| MonkeyMarket.SecretNumber.Step | 2024/src/bin/22.rs:47-54 | the new value is the old one evolved by one step |
| MonkeyMarket.SecretNumber.Nth | 2024/src/bin/22.rs:56-60 | the new value is the old one evolved by n steps |
| MonkeyMarket.SecretNumber.constructor | 2024/src/bin/22.rs:39-41 | the new number holds the given value |
| MonkeyMarket.PriceOf | 2024/src/bin/22.rs:62-64 | a price is a digit 0 to 9 |
| MonkeyMarket.SecretNumber.SecretPrice | 2024/src/bin/22.rs:62-64 | the price of the value held is a digit 0 to 9 |
| MonkeyMarket.ChangeAt | 2024/src/bin/22.rs:69-74 | a change pairs a price 0 to 9 with a difference between -9 and 9 |
| MonkeyMarket.SecretNumber.NextChange | 2024/src/bin/22.rs:69-74 | one round of the loop of price_changes moves the copy one step on and yields the change after that step |
| MonkeyMarket.SecretNumber.PriceChanges | 2024/src/bin/22.rs:66-76 | price_changes leaves the number as it is and returns, for each of num steps of a copy, the price after the step and its difference from the price before it |
| MonkeyMarket.ChangesIndex | 2024/src/bin/22.rs:66-76 | the i-th change is the one after step i + 1, however many steps are taken |
| MonkeyMarket.ChangesPrefix | 2024/src/bin/22.rs:66-76 | the changes of k steps are the first k changes of any longer run |
| MonkeyMarket.ChangesTelescope | 2024/src/bin/22.rs:66-76 | the first k changes add up to the price after k steps minus the starting price |
| MonkeyMarket.SecretNumber.SequenceScores | 2024/src/bin/22.rs:78-96 | sequence_scores panics exactly when fewer than three changes are taken, and otherwise keeps for each window of four changes the price after its first occurrence |
| MonkeyMarket.FirstScoresMeaning | 2024/src/bin/22.rs:78-96 | a window is kept exactly when it occurs, and its score is the price at the end of its first occurrence |
| MonkeyMarket.FirstScoresPrices | 2024/src/bin/22.rs:78-96 | every kept score is a price 0 to 9 |
| MonkeyMarket.AddScores | 2024/src/bin/22.rs:13-17 | merging one buyer's scores keeps every window of either map and adds the buyer's score to the running total, a new window starting from 0 |
| MonkeyMarket.MaxValue | 2024/src/bin/22.rs:19 | the maximum of the values is one of them and at least every other; it panics (None) exactly on an empty map |
| MonkeyMarket.BananasNonNegative | 2024/src/bin/22.rs:10-20 | no window earns a negative number of bananas |
| MonkeyMarket.BestSequence | 2024/src/bin/22.rs:10-20 | best_sequence panics exactly when there are no buyers or at most three changes each, and otherwise returns the bananas of a window that earns at least as many as any other, a number that is not negative |
| MonkeyMarket.AsNumber | 2024/src/bin/22.rs:104-107 | a secret read as a number lies in the u64 range |
| MonkeyMarket.PartOne | 2024/src/bin/22.rs:99-110 | part_one adds up every buyer's secret after 2000 steps |
| MonkeyMarket.PartTwo | 2024/src/bin/22.rs:112-116 | part_two is the most bananas any window earns over 2000 changes per buyer, and fails only without buyers |
| MonkeyMarket.EvolveExample | 2024/src/bin/22.rs:134-138 | 123 steps to 15887950, 16495136, 527345, 704524 and 1553684, and after ten steps to 5908254 |
| MonkeyMarket.PriceExample | 2024/src/bin/22.rs:134-138 | those secrets have the prices 3, 0, 6, 5 and 4 |
| MonkeyMarket.ChangesExample | 2024/src/bin/22.rs:134-138 | the first four changes of 123 are -3, 6, -1 and -1, to the prices 0, 6, 5 and 4 |
| WarehouseWoes.Delta | 2024/src/bin/15.rs:37-42 | each instruction is a unit step along exactly one axis |
| WarehouseWoes.DirectionOf | 2024/src/bin/15.rs:37-42 | a character read as an instruction is the symbol of that direction; any other character is skipped |
| WarehouseWoes.Instructions | 2024/src/bin/15.rs:34-44 | the moves are at most as many as the characters, other characters being dropped |
| WarehouseWoes.InstructionsAppend | 2024/src/bin/15.rs:34-44 | reading two texts one after the other gives the moves of the first followed by those of the second |
| WarehouseWoes.InstructionsOfSymbols | 2024/src/bin/15.rs:37-42 | writing moves as their symbols and reading them back gives the same moves |
| WarehouseWoes.Set | 2024/src/bin/15.rs:78-82 | writing one cell keeps the grid's shape and changes that cell and no other |
| WarehouseWoes.MaxWidth | 2024/src/bin/15.rs:16-32 | no row of the grid is wider than this bound |
| WarehouseWoes.CountSet | 2024/src/bin/15.rs:78-82 | writing a cell changes the count of a symbol only by the cell's old and new contents |
| WarehouseWoes.CountRowSet | 2024/src/bin/15.rs:78-82 | the same within one row |
| WarehouseWoes.GpsSet | 2024/src/bin/15.rs:196-212 | writing a cell changes the GPS sum 100*y+x only by that cell's old and new contents |
| WarehouseWoes.GpsRowSet | 2024/src/bin/15.rs:196-212 | the same within one row |
| WarehouseWoes.ScanSound | 2024/src/bin/15.rs:71-77 | the scan from a box ends on the first in-grid cell along the direction that is not a box, every cell before it holding a box |
| WarehouseWoes.StepFree | 2024/src/bin/15.rs:68-70 | a free cell ahead moves the robot onto it and leaves the grid as it was |
| WarehouseWoes.StepBlocked | 2024/src/bin/15.rs:71-84 | a wall ahead, or a line of boxes ending on something other than a free cell, leaves the robot and the grid as they were |
| WarehouseWoes.StepPush | 2024/src/bin/15.rs:71-83 | pushing a line of boxes empties the first cell, puts a box on the free cell at the end and moves the robot one step; the box count stays the same and the GPS sum changes by the two cells only |
| WarehouseWoes.StepKeeps | 2024/src/bin/15.rs:64-87 | one step keeps the robot on a free cell of the grid, and keeps the grid's shape, its walls and its number of boxes |
| WarehouseWoes.RunKeeps | 2024/src/bin/15.rs:64-87 | so does the whole run of instructions |
| WarehouseWoes.RunPanicked | 2024/src/bin/15.rs:64-87 | once a step panics, by leaving the grid, the whole run panics |
| WarehouseWoes.ParseGrid | 2024/src/bin/15.rs:16-32 | the grid has the shape of the lines, and every cell is the input's character except that the robot's '@' becomes '.' |
| WarehouseWoes.LastRobot | 2024/src/bin/15.rs:20-29 | the position found in a row holds '@' and is its last one; none is found in a row without '@' |
| WarehouseWoes.RobotInSound | 2024/src/bin/15.rs:15-32 | the robot starts on an '@' of the input, the last one in reading order; without '@' none is found |
| WarehouseWoes.ParseValid | 2024/src/bin/15.rs:12-52 | with an '@' in the input, the parsed robot stands on a free cell and no '@' is left in the grid |
| WarehouseWoes.WidenCell | 2024/src/bin/15.rs:89-110 | a tile of the map becomes two characters, anything else is copied as one |
| WarehouseWoes.Widen | 2024/src/bin/15.rs:89-110 | widening keeps the number of rows |
| WarehouseWoes.WidenRowCells | 2024/src/bin/15.rs:89-110 | a row of tiles becomes twice as wide, cell x becoming cells 2x and 2x+1 |
| WarehouseWoes.WidenRowCounts | 2024/src/bin/15.rs:89-110 | in a row every box becomes one '[' and every wall two walls |
| WarehouseWoes.WidenCounts | 2024/src/bin/15.rs:89-110 | the wide grid has one box '[' per box and twice the walls |
| WarehouseWoes.CellCounts | 2024/src/bin/15.rs:89-110 | the same for a single cell |
| WarehouseWoes.WidenAt | 2024/src/bin/15.rs:89-110 | cells 2x and 2x+1 of a wide row are the two halves of cell x |
| WarehouseWoes.WidenValid | 2024/src/bin/15.rs:89-110 | the robot moved to x*2 stands on a free cell, and so does the cell to its right |
| WarehouseWoes.OtherHalf | 2024/src/bin/15.rs:121-127 | the other half of a box is on the same row |
| WarehouseWoes.RoundRows | 2024/src/bin/15.rs:149-176 | one round of the vertical search finds boxes only on the next row, which is then inside the grid |
| WarehouseWoes.MoveCell | 2024/src/bin/15.rs:181-186 | moving one cell keeps the shape, leaves '.' behind and copies the cell one step ahead; no other cell changes |
| WarehouseWoes.ScanHalvesLine | 2024/src/bin/15.rs:131-141 | the sideways search visits consecutive cells in the grid along the direction and stops on the next one |
| WarehouseWoes.SidewaysLine | 2024/src/bin/15.rs:121-141 | a sideways push finds at least both halves of the first box, in consecutive cells from the cell ahead |
| WarehouseWoes.MoveLine | 2024/src/bin/15.rs:179-188 | moving a line of consecutive cells, last first, shifts each cell one step along, empties the first and changes nothing off the line |
| WarehouseWoes.StepWideSideways | 2024/src/bin/15.rs:114-191 | an unblocked sideways push moves the robot one step and shifts the whole line of box halves one cell along |
| WarehouseWoes.StepWideFree | 2024/src/bin/15.rs:116-118 | a free cell ahead moves the robot onto it and leaves the grid as it was |
| WarehouseWoes.StepWideBlocked | 2024/src/bin/15.rs:119-190 | a wall ahead, or a blocked push, leaves the robot and the grid as they were |
| WarehouseWoes.MoveAllKeeps | 2024/src/bin/15.rs:179-188 | moving the boxes keeps the grid's shape and frees the cell the robot steps on |
| WarehouseWoes.RoundFirst | 2024/src/bin/15.rs:149-176 | a search round keeps the boxes already found in front |
| WarehouseWoes.CollectFirst | 2024/src/bin/15.rs:149-176 | so does the whole vertical search |
| WarehouseWoes.PushedFirst | 2024/src/bin/15.rs:121-177 | the first box to move is the cell ahead of the robot |
| WarehouseWoes.StepWideKeeps | 2024/src/bin/15.rs:114-191 | a wide step keeps the robot on a free cell of the grid and keeps the grid's shape |
| WarehouseWoes.RunWideKeeps | 2024/src/bin/15.rs:112-193 | so does the whole wide run |
| WarehouseWoes.Warehouse.constructor | 2024/src/bin/15.rs:46-50 | the warehouse holds the grid, robot and instructions given |
| WarehouseWoes.Warehouse.StepPart1 | 2024/src/bin/15.rs:65-86 | one instruction of part one changes the grid and the robot as the step function says, and fails exactly when it panics |
| WarehouseWoes.Warehouse.RunInstructions | 2024/src/bin/15.rs:64-87 | the loop over the instructions ends in the state of the run, and fails exactly when the run panics |
| WarehouseWoes.Warehouse.ToPart2 | 2024/src/bin/15.rs:89-110 | a new warehouse with the widened grid, the robot at x*2 and the same instructions |
| WarehouseWoes.Warehouse.MoveBoxes | 2024/src/bin/15.rs:179-188 | the reverse loop moves the boxes as the move function says, changing neither the robot nor the instructions |
| WarehouseWoes.Warehouse.StepPart2 | 2024/src/bin/15.rs:114-191 | one instruction of part two changes the grid and the robot as the wide step says, and fails exactly when it panics |
| WarehouseWoes.Warehouse.RunInstructionsPart2 | 2024/src/bin/15.rs:112-193 | the loop ends in the state of the wide run, and fails exactly when it panics |
| WarehouseWoes.BoxesToMove | 2024/src/bin/15.rs:121-177 | the boxes found and the blocked flag are those of the push function, and the search fails exactly when it leaves the grid |
| WarehouseWoes.SidewaysBoxes | 2024/src/bin/15.rs:131-141 | the same for a sideways push |
| WarehouseWoes.UpDownBoxes | 2024/src/bin/15.rs:143-177 | the same for a vertical push |
| WarehouseWoes.NextRow | 2024/src/bin/15.rs:152-174 | one pass over the current row gives the next row, the boxes and the blocked flag of one search round |
| WarehouseWoes.PartOne | 2024/src/bin/15.rs:196-212 | the sum of 100*y+x over the boxes after running the instructions on the parsed map, or nothing when the run panics |
| WarehouseWoes.PartTwo | 2024/src/bin/15.rs:214-230 | the same over the '[' halves after running on the widened map |
| Prelude.LinesEnds | 2022/src/bin/09.rs:22 | str::lines ends a line at "\r\n" or at '\n', drops the '\r' only when '\n' follows it, and needs no end on the last line |
| Prelude.LinesCrlfExample | 2023/src/bin/07.rs:125 | the hand line "32T3K 765\r\n" reads as the one line "32T3K 765" |
| Prelude.LinesLoneCrExample | 2023/src/bin/14.rs:45 | a '\r' that no '\n' follows stays in its line |
| RopeBridge.DirectionOf | 2022/src/bin/09.rs:8-16 | R, L, U and D give the four unit steps (y grows downwards) and any other word panics; a step found is a unit step |
| RopeBridge.ParseLine | 2022/src/bin/09.rs:23-25 | a parsed motion has a unit direction and an amount below 2^32 |
| RopeBridge.ParseWords | 2022/src/bin/09.rs:23-25 | a line of two words is the direction of the first and the u32 of the second, and panics when either does not parse |
| RopeBridge.ParseMotions | 2022/src/bin/09.rs:22-25 | the motions read number as many as the lines |
| RopeBridge.ParseMotionsLines | 2022/src/bin/09.rs:22-25 | motion i is the parse of line i |
| RopeBridge.ParseMotionsAll | 2022/src/bin/09.rs:22-25 | the input parses exactly when every line does |
| RopeBridge.ParseFails | 2022/src/bin/09.rs:22-25 | one bad line makes the whole input panic |
| RopeBridge.Repeat | 2022/src/bin/09.rs:26 | `for _ in 0..amount` repeats the direction amount times |
| RopeBridge.StepsUnit | 2022/src/bin/09.rs:26-27 | every step of the head is a unit step |
| RopeBridge.FollowMoves | 2022/src/bin/09.rs:28-36 | a knot moves exactly when its leader is more than one away in the Chebyshev distance, by at most a unit on each axis, never away from the leader, and touches the leader again when it was at most two away |
| RopeBridge.FollowNear | 2022/src/bin/09.rs:54-63 | a knot that touched its old leader, whose leader moved by at most a unit, touches the new leader after following |
| RopeBridge.SignQuotient | 2022/src/bin/09.rs:31-32 | vector.x / vector.x.abs() is the sign of a non-zero difference |
| RopeBridge.Adjust | 2022/src/bin/09.rs:28-36 | the adjustment computed with the divisions is the follow rule |
| RopeBridge.Chain | 2022/src/bin/09.rs:54-63 | every knot is followed in order, the head unchanged |
| RopeBridge.StepRope | 2022/src/bin/09.rs:52-63 | one step moves the head by the direction and keeps the number of knots |
| RopeBridge.StepPair | 2022/src/bin/09.rs:27-36 | with two knots a step is the moved head and the tail following it |
| RopeBridge.ChainKeeps | 2022/src/bin/09.rs:54-63 | when the head moves at most a unit, the knots stay connected and each moves at most a unit |
| RopeBridge.StepKeeps | 2022/src/bin/09.rs:50-63 | a unit step of the head keeps every knot touching the one before it and moves each knot at most a unit on each axis |
| RopeBridge.RopeConnected | 2022/src/bin/09.rs:43-68 | after any number of head steps the knots of the rope still touch |
| RopeBridge.Start | 2022/src/bin/09.rs:45 | n knots at the start |
| RopeBridge.Rope | 2022/src/bin/09.rs:50-63 | the rope keeps its n knots |
| RopeBridge.VisitedRecorded | 2022/src/bin/09.rs:37-64 | the position of the last knot after every step is recorded |
| RopeBridge.VisitedOnlyRecorded | 2022/src/bin/09.rs:37-64 | every recorded position is that of the last knot after some step |
| RopeBridge.VisitedBound | 2022/src/bin/09.rs:37-40 | no more positions are recorded than there are steps |
| RopeBridge.StepTwo | 2022/src/bin/09.rs:27-37 | one step of part one gives the rope and the record of the specification |
| RopeBridge.MotionTwo | 2022/src/bin/09.rs:26-38 | the inner loop of part one performs one motion's steps |
| RopeBridge.PartOne | 2022/src/bin/09.rs:18-41 | the answer is the number of positions the tail of a two-knot rope visits, or a panic when a line does not parse |
| RopeBridge.MoveRope | 2022/src/bin/09.rs:51-63 | the in-place update of the knots vector is one step of the rope |
| RopeBridge.StepKnots | 2022/src/bin/09.rs:51-64 | one step of part two gives the rope and the record of the specification |
| RopeBridge.MotionKnots | 2022/src/bin/09.rs:50-65 | the inner loop of part two performs one motion's steps |
| RopeBridge.PartTwo | 2022/src/bin/09.rs:43-68 | the same for a rope of ten knots |
| RopeBridge.ParseExample | 2022/src/bin/09.rs:23-25 | "R 4" and "U 4" are four steps right and four steps up |
| RopeBridge.ParseRejects | 2022/src/bin/09.rs:8-25 | "X 4", "R" and "R -1" panic |
| RopeBridge.FollowTouchingExample | 2022/src/bin/09.rs:28-36 | a knot diagonal to its leader stays |
| RopeBridge.FollowDiagonalExample | 2022/src/bin/09.rs:28-36 | a knot two behind and one aside is pulled diagonally |
| CamelCards.Discriminant | 2023/src/bin/07.rs:8-17 | the hand types carry the discriminants 1 (high card) to 7 (five of a kind) |
| CamelCards.DiscriminantInjective | 2023/src/bin/07.rs:8-17 | derived Ord compares types by discriminant, and two types share one only when they are the same |
| CamelCards.ParseHand | 2023/src/bin/07.rs:26-36 | a hand is read only when the first space follows exactly five cards and the rest is a u32; the cards are the five characters before that space |
| CamelCards.ParseHands | 2023/src/bin/07.rs:123-128 | one hand per line, each of five cards; a line that does not parse panics |
| CamelCards.Distinct | 2023/src/bin/07.rs:56-66 | the different cards of a hand, without repeats, are exactly the cards occurring in it, and are empty only for no cards |
| CamelCards.Suits | 2023/src/bin/07.rs:56-66 | the map built in the loop has a key for exactly the cards of the hand, each mapped to how often it occurs |
| CamelCards.CountsSum | 2023/src/bin/07.rs:56-66 | the counts of the different cards add up to the number of cards, 5 for a hand |
| CamelCards.SumCountsAdd | 2023/src/bin/07.rs:58-64 | counting one more card raises the total of the listed cards by one exactly when that card is listed |
| CamelCards.MaxCountIs | 2023/src/bin/07.rs:89 | the largest count is at least every listed count and is the count of some listed card, 0 when none is listed |
| CamelCards.MaxValue | 2023/src/bin/07.rs:89 | values().max() over the map is at least every value and is one of them, and unwrap_or(0) gives 0 for an empty map |
| CamelCards.MapCounts | 2023/src/bin/07.rs:87-92 | the size of a map of counts is the number of different cards and its largest value is the largest count |
| CamelCards.SumCountsLower | 2023/src/bin/07.rs:87-92 | cards that each occur account for at least their largest count plus one for each other kind |
| CamelCards.SumCountsUpper | 2023/src/bin/07.rs:87-92 | cards account for at most their number of kinds times the largest count |
| CamelCards.CountFacts | 2023/src/bin/07.rs:87-92 | the number of kinds k and the largest count m of n cards satisfy m + k - 1 <= n <= k * m, with k = 0 only without cards |
| CamelCards.SuitCountPartOne | 2023/src/bin/07.rs:87-92 | suit_count of part one is the number of different cards and the largest count |
| CamelCards.SuitCountPartTwo | 2023/src/bin/07.rs:108-115 | suit_count of part two is the number of different cards besides J and their largest count (0 when none are left) plus the number of jokers |
| CamelCards.WithoutCounts | 2023/src/bin/07.rs:110-111 | removing J leaves every other card as often as it was and no J |
| CamelCards.JokersSplit | 2023/src/bin/07.rs:110-111 | the remaining cards and the jokers are together all the cards |
| CamelCards.TableCovers | 2023/src/bin/07.rs:42-54 | every count a group of cards with some jokers can give is one of the table's eight pairs |
| CamelCards.StrengthTotal | 2023/src/bin/07.rs:42-54 | for five cards strength never reaches the panic arm, in either part |
| CamelCards.StrengthTotalOne | 2023/src/bin/07.rs:42-54 | for five cards the part-one count is in the table |
| CamelCards.StrengthTotalTwo | 2023/src/bin/07.rs:42-54 | for five cards the part-two count, jokers added, is in the table |
| CamelCards.StrengthOf | 2023/src/bin/07.rs:42-54 | strength computed through the suits map is the type the table gives for the count |
| CamelCards.NoJokerSameType | 2023/src/bin/07.rs:87-115 | a hand without J has the same type in both parts |
| CamelCards.AllJokers | 2023/src/bin/07.rs:174-187 | JJJJJ leaves no other card, counts as (0, 5) and is five of a kind in part two |
| CamelCards.StrengthTwoFrom | 2023/src/bin/07.rs:108-115 | the part-two type comes from the kinds besides J, their largest count and the jokers |
| CamelCards.FiveOfAKindExample | 2023/src/bin/07.rs:174-187 | AAAAA, JJJJJ, AAAAJ, AAAJJ, AAJJJ and AJJJJ, each in any order, are five of a kind in part two |
| CamelCards.FourOfAKindExample | 2023/src/bin/07.rs:189-200 | AAAA1, AAAJ1, AAJJ1 and AJJJ1, each in any order, are four of a kind in part two |
| CamelCards.FullHouseExample | 2023/src/bin/07.rs:202-211 | AAAKK and AAKKJ, each in any order, are full houses in part two |
| CamelCards.ThreeOfAKindExample | 2023/src/bin/07.rs:213-223 | AAAKQ, AAJ12 and AJJ12, each in any order, are three of a kind in part two |
| CamelCards.TwoPairsExample | 2023/src/bin/07.rs:225-231 | AAKK1 in any order is two pairs in part two |
| CamelCards.OnePairExample | 2023/src/bin/07.rs:233-242 | AA123 and AJ123, each in any order, are one pair in part two |
| CamelCards.HighCardExample | 2023/src/bin/07.rs:244-250 | A1234 in any order is a high card in part two |
| CamelCards.CardValue | 2023/src/bin/07.rs:74-106 | T, Q, K and A are 10, 12, 13 and 14, J is 11 in part one and 1 in part two, a digit is its value and any other card panics; a value is at most 14 |
| CamelCards.Values | 2023/src/bin/07.rs:76-83 | every card gets its value, and the hand panics exactly when some card has none |
| CamelCards.Weight | 2023/src/bin/07.rs:84 | the weight of each position is at least 1 |
| CamelCards.WeightIsShift | 2023/src/bin/07.rs:84 | the weight of card idx is 2^(20 - 4 idx), the factor of the shift |
| CamelCards.ShiftedBound | 2023/src/bin/07.rs:84 | values below 16 from position idx on sum to less than 16 times the weight of idx |
| CamelCards.ShiftedOrder | 2023/src/bin/07.rs:84 | for values below 16, comparing the shifted sums from idx on is comparing the values one by one from idx |
| CamelCards.CardValuesOrder | 2023/src/bin/07.rs:75-106 | card_values of one hand is below another's exactly when its cards' values are lexicographically smaller |
| CamelCards.CompareExample | 2023/src/bin/07.rs:252-257 | JKKK2 has values 1 13 13 13 2 and QQQQ2 has 12 12 12 12 2 in part two, so JKKK2 is weaker |
| CamelCards.Insert | 2023/src/bin/07.rs:135-139 | inserting adds exactly the hand to the sequence |
| CamelCards.SortBy | 2023/src/bin/07.rs:135-139 | the sort is a permutation of the hands |
| CamelCards.InsertSorted | 2023/src/bin/07.rs:135-139 | inserting into hands sorted by key keeps them sorted |
| CamelCards.SortSorted | 2023/src/bin/07.rs:135-139 | the sorted hands are in order of their keys |
| CamelCards.SortKeepsSorted | 2023/src/bin/07.rs:135-139 | hands already in key order are left as they are |
| CamelCards.SortIdempotent | 2023/src/bin/07.rs:135-139 | sorting sorted hands changes nothing |
| CamelCards.Ranked | 2023/src/bin/07.rs:135-139 | the ranked hands are a permutation of the hands |
| CamelCards.RankedByKey | 2023/src/bin/07.rs:135-139 | the ranked hands all have keys and are ordered by type and then by card values |
| CamelCards.WinningsAtLeastBids | 2023/src/bin/07.rs:140-144 | with ranks from 1, the winnings are at least the sum of the bids |
| CamelCards.Game.constructor | 2023/src/bin/07.rs:123-128 | a game holds its hands |
| CamelCards.Game.Solve | 2023/src/bin/07.rs:134-145 | solve sorts the hands in place into the ranked order and returns the sum of (rank + 1) * bid; a card without a value panics and leaves the hands |
| CamelCards.PartOneAnswer | 2023/src/bin/07.rs:148-151 | part one is the winnings of the parsed hands with J worth 11 |
| CamelCards.PartTwoAnswer | 2023/src/bin/07.rs:153-156 | part two is the winnings of the parsed hands with J as a joker worth 1 |
| ReactorReboot.CountSign | y2021/22/code.py:25-31 | a box with cubes counts at least 1 when it switches on and at most -1 when it switches off |
| ReactorReboot.Clip | y2021/22/code.py:33-48 | clip keeps the sign, holds exactly the cubes of the box inside [lo, hi] on every axis and lies inside that region; None only when no cube of the box is in the region |
| ReactorReboot.Intersect | y2021/22/code.py:50-82 | intersect has cubes and holds exactly the cubes common to both boxes; it is None exactly when they share no cube; its sign is the opposite of the first box's when the signs agree and the other box's otherwise |
| ReactorReboot.IntersectCancels | y2021/22/code.py:62-66 | with signs of 1 and -1 the overlap always has the sign opposite to the first box |
| ReactorReboot.IntersectExamples | y2021/22/code.py:52-61 | the three doctests of intersect give the boxes they list |
| ReactorReboot.StepAdds | y2021/22/code.py:120-131 | the inner loop adds the step when it switches on and then every nonempty overlap with a listed box, in list order |
| ReactorReboot.Reboot | y2021/22/code.py:112-132 | the loop over the steps lists, after every step, what the step adds to the boxes listed before it |
| ReactorReboot.OverlapsWeight | y2021/22/code.py:120-131 | the overlaps cancel the listed boxes on the step's box and weigh nothing outside it |
| ReactorReboot.RebootedWeight | y2021/22/code.py:112-132 | with signs of 1 and -1, the signed boxes listed weigh 1 on a cube the last step containing it switched on and 0 on every other cube |
| ReactorReboot.TotalIsGridSum | y2021/22/code.py:25-31 | the sum of the counts of boxes inside a grid is the sum of their signed weights over every cube of the grid |
| ReactorReboot.GridBox | y2021/22/code.py:25-31 | a box with cubes counts its sign once for each of its cubes |
| ReactorReboot.RebootedInside | y2021/22/code.py:112-132 | every box reboot lists has cubes and lies inside any grid that holds all the steps |
| ReactorReboot.TotalCountsLit | y2021/22/code.py:157-161 | for steps with cubes and signs of 1 and -1, the sum of the counts after reboot is the number of cubes the steps leave on |
| ReactorReboot.PartTwo | y2021/22/code.py:157-161 | part_two is the sum of the counts of the boxes reboot lists for all the steps |
| ReactorReboot.ClipStepsLit | y2021/22/code.py:146-152 | the clipped steps keep their signs and leave on exactly the cubes of the region -50..50 that the steps leave on |
| ReactorReboot.ClipStepsInside | y2021/22/code.py:146-152 | the clipped steps with cubes lie inside the region -50..50 |
| ReactorReboot.PartOne | y2021/22/code.py:146-154 | part_one is the sum of the counts of the boxes reboot lists for the clipped steps |
| ReactorReboot.PartOneWeight | y2021/22/code.py:146-154 | after part one's reboot a cube weighs 1 when it is in the region and the steps leave it on, and 0 otherwise |
| ReactorReboot.PartOneCountsLit | y2021/22/code.py:146-154 | for steps with cubes and signs of 1 and -1, part_one's sum is the number of cubes of the region -50..50 the steps leave on |
| ReactorReboot.RebootExample | y2021/22/code.py:116-117 | the counts of the boxes reboot lists for the four steps of the small example sum to 39 |
| BeaconScanner.SubAdd | y2021/19/code.py:17-21 | adding back a difference gives the first vector, and subtracting back a sum gives it too |
| BeaconScanner.RollPermutes | y2021/19/code.py:23-24 | roll permutes the coordinates up to sign: the same absolute values and the same norm, and four rolls give the vector back |
| BeaconScanner.TurnPermutes | y2021/19/code.py:26-27 | turn permutes the coordinates up to sign: the same absolute values and the same norm, and four turns give the vector back |
| BeaconScanner.ApplyRollTurn | y2021/19/code.py:23-27 | a roll or a turn after a signed permutation is the composed signed permutation |
| BeaconScanner.RotationsOf | y2021/19/code.py:29-46 | the loop of two cycles of three rolls, each followed by three turns, lists the 24 rotations of the table in order, so 24 vectors |
| BeaconScanner.TurnThree | y2021/19/code.py:42-44 | the three turns after a roll give the next three entries of the table |
| BeaconScanner.TableProper | y2021/19/code.py:29-35 | every one of the 24 entries permutes the coordinates and is a proper rotation (determinant 1) |
| BeaconScanner.TableDistinct | y2021/19/code.py:29-35 | the 24 entries are pairwise different |
| BeaconScanner.TableComplete | y2021/19/code.py:29-35 | every proper rotation that permutes the coordinates up to sign is among the entries, so rotations generates all of them |
| BeaconScanner.ApplyLinear | y2021/19/code.py:29-35 | each rotation maps sums to sums and differences to differences |
| BeaconScanner.ApplyNorm | y2021/19/code.py:23-27 | a signed permutation of the coordinates keeps abs(x) + abs(y) + abs(z) |
| BeaconScanner.OverlapMembers | y2021/19/code.py:118-121 | a beacon overlaps exactly when it is one of a's and moving it by the relation lands on one of b's |
| BeaconScanner.FindCoordinateOverlap | y2021/19/code.py:111-123 | the relation returned lays one of b's beacons on one of a's with an overlap of exactly n, and every pair tried before it, a's set in the outer loop and b in the inner, has an overlap of another size; None exactly when no pair gives n |
| BeaconScanner.FindScannerOverlap | y2021/19/code.py:126-136 | the rotation returned is the first of scanner b's whose beacons overlap 12 of scanner a's, with a relation of that overlap; None when no rotation does |
| BeaconScanner.ManhattanSymmetric | y2021/19/code.py:55-59 | the distance does not depend on the order of the two points |
| BeaconScanner.ManhattanRotated | y2021/19/code.py:55-59 | rotating both points the same way keeps their distance |
| BeaconScanner.RowMax | y2021/19/code.py:56-59 | the pairs of one entry with every other entry raise the running maximum to the largest distance seen so far |
| BeaconScanner.PartTwo | y2021/19/code.py:55-59 | part_two is a distance some ordered pair of different placements attains and that no pair exceeds; None when fewer than two placements leave max nothing to take |
| Amphipod.TargetRoom | y2021/d23/code.py:47-49 | the room of a kind, computed from its letter, is 2, 4, 6 or 8 for A, B, C or D |
| Amphipod.TargetRoomInjective | y2021/d23/code.py:47-49 | two kinds share a room exactly when they are the same kind |
| Amphipod.StandardRooms | y2021/d23/code.py:25-26 | in a row of eleven, the rooms are exactly 2, 4, 6 and 8, so every kind's room is a room |
| Amphipod.MoveCost | y2021/d23/code.py:51-75 | the cost fails exactly where the source indexes outside the row or an empty start; a move along the hallway costs its length at the kind's price |
| Amphipod.MoveCostExamples | y2021/d23/code.py:52-64 | the documented costs 40, 10000 and 3000 |
| Amphipod.MovePod | y2021/d23/code.py:193-212 | the start's first amphipod becomes the end's first and the start keeps the rest; every other position and the depth are unchanged, and the cost is move_cost's; a move onto itself changes nothing |
| Amphipod.MovePodKeepsPods | y2021/d23/code.py:205-212 | a move keeps the multiset of amphipods in the burrow |
| Amphipod.MovePodBack | y2021/d23/code.py:193-212 | moving the amphipod back restores the burrow and costs as much as the move out |
| Amphipod.MovePodExamples | y2021/d23/code.py:194-203 | the two documented moves, with costs 40 and 3000 and the burrows they give |
| Amphipod.Finished | y2021/d23/code.py:170-191 | the scan returns true exactly when every amphipod stands in its own room |
| Amphipod.FinishedExamples | y2021/d23/code.py:171-184 | the documented unsorted burrow is not finished and the sorted one is |
| Amphipod.ScanLeft | y2021/d23/code.py:151-159 | the left scan yields exactly the cells left of the position, reachable past no occupied hallway cell, that are empty hallway cells or the kind's open room |
| Amphipod.ScanRight | y2021/d23/code.py:160-168 | the right scan yields exactly the cells right of the position, reachable past no occupied hallway cell, that are empty hallway cells or the kind's open room |
| Amphipod.PossibleMoves | y2021/d23/code.py:77-168 | fails exactly where the source indexes outside the row or an empty position; otherwise yields exactly the targets the rules allow: none at home, only the room when open and reachable, none from the hallway otherwise, else every reachable empty hallway cell |
| Amphipod.HallwayOnlyHome | y2021/d23/code.py:148-150 | an amphipod in the hallway moves into its own room or not at all |
| Amphipod.TargetInRow | y2021/d23/code.py:127-168 | every move ends inside the row and away from where it started |
| Amphipod.TargetIntoHallway | y2021/d23/code.py:127-168 | a move not into the kind's room ends on an empty hallway cell |
| Amphipod.FinishedNoMoves | y2021/d23/code.py:131-133 | once every amphipod is home, none of them has a move |
| Amphipod.CannotMoveInHall | y2021/d23/code.py:79-85 | the documented amphipod in the hallway with a closed room has no move |
| Amphipod.RoomToHall | y2021/d23/code.py:87-100 | the two documented amphipods leaving a room reach exactly 0, 1, 3, 5, 7, 9 and 10 |
| Amphipod.MoveIntoTarget | y2021/d23/code.py:102-108 | the documented amphipod with an open, reachable room goes to room 6 only |
| Amphipod.CannotPass | y2021/d23/code.py:110-116 | the documented amphipod blocked at 5 reaches exactly 7, 9 and 10 |
| Amphipod.DoneStays | y2021/d23/code.py:118-124 | the documented amphipod at home in the sorted burrow has no move |
| BeaconScanner.Rotations | y2021/19/code.py:33-34 | every vector has 24 rotations, as the doctest shows |

## Left out
- Intcode, IntcodeDay5, ThreeBitComputer, HandheldConsole: a run that may not end is given a step budget (fuel); a run that exhausts it is reported as such rather than continuing forever.
- Intcode, IntcodeDay5: memory cells, the relative base and the program counter are unbounded integers; overflow of the day-9 i128 cells and relative base, of the usize program counter and of the day-5 isize cells is not modelled.
- Intcode: an i128 address or jump target of 2^64 or more is reduced modulo 2^64 by the source's `as usize` cast; the model instead grows memory to, or jumps to, the full value.
- Intcode, IntcodeDay5: a negative address cast with `as usize` becomes a huge index, and the model reports it as the panic that follows (out of bounds or capacity overflow).
- Intcode, IntcodeDay5: a jump to a negative target is reported as a panic at the jump, one step before the source would fail on the next fetch.
- ThreeBitComputer: registers are unbounded naturals; u64 overflow is modelled only for the shift amount of the division instructions (64 or more is a panic).
- ThreeBitComputer.FindIdentity: the search extends candidates by the three-bit child rule against the outputs of a given program; that this rule matches the program's own "adv 3" loop shape is assumed by the source and not proved.
- ThreeBitComputer: test_program_3 and part_one are not modelled beyond the program runs they perform.
- HandheldConsole: parsing the puzzle text into instructions is not modelled.
- Prelude.ParseInt: accepts any number of digits; the i64 range of the source's parse is checked where it matters (CycleCpu.InI64).
- Reading the puzzle and example files, printing, and the solve/part wrappers that only do that are not modelled.
- CycleCpu: the register is an unbounded integer; i64 overflow of the register and of the signal strength is not modelled.
- CycleCpu: part_two renders pixels to text and prints them; its result is a constant string, so it is not modelled.
- MullItOver: the sum is an unbounded natural; u32 overflow of the products and the sum is not modelled.
- MullItOver: the regular-expression tokenizer of Program::from and part_one's regular-expression scan are not modelled; the interpreter takes the tokens directly.
- Aplenty: ratings and thresholds are unbounded naturals, so the u32 overflow of `value + 1` in clamp at u32::MAX and the saturation of `saturating_add(1)` are not modelled.
- Aplenty.SplitMeaning: states that the non-passing box holds every failing part only when the rating is positive, the threshold is positive or the rule is a greater-than rule, because split's saturating `value - 1` drops rating 0 under "< 0"; PiecesCover and PiecesExactlyOne require positive ratings for the same reason (part two starts from 1..4000).
- Aplenty: parsing of rules, workflows, parts and the system (Rule::from, Workflow::from, Part::from, System::from) is not modelled; rules and workflows are built directly.
- Aplenty: System::accepted, accepted_intervals, part_one and part_two (a filter over pass, a work list over interval, and sums over their results) are not modelled.
- Aplenty.Pass: a workflow graph with a cycle would loop forever in the source; the model gives pass a budget of workflow visits.
- SeedAlmanac: values are unbounded naturals; u64 overflow of `source_start + range - 1`, of `value + diff` and of part two's `one + two - 1` is not modelled (the underflow of Mapping::from at 0 is).
- SeedAlmanac: Almanac::from and the line splitting of Map::from and Mapping::from are not modelled; mappings are built from their three numbers.
- SeedAlmanac: part_one, part_two and Almanac::apply_ranges (a minimum over Almanac::apply, the pairing of seeds into ranges, and a fold of Map::apply_map) are not modelled beyond the operations they call.
- SeedAlmanac.SegmentsExact: assumes the mappings of a map are disjoint and non-empty, which the puzzle input promises and the source relies on without checking.
- LensLibrary.ChecksumOf: values are unbounded naturals; the u32 sum of checksum could overflow only past about sixteen million parts, and the model does not wrap it.
- LensLibrary.PowerOf: the u32 products and sums of power are not wrapped; with focal lengths below 2^32 they can overflow in the source, a case the puzzle input never reaches.
- LensLibrary.PartsOf: trimming removes ASCII whitespace only (space, tab, newline, carriage return), not all the Unicode whitespace str::trim removes.
- LensLibrary: the Display impl of LensSlots (debug printing) and the reading of the example file in the tests are not modelled; the example tests are stated on the parsed sequence.
- LensLibrary.LensSlots.Initialize: the Rust code panics on a part that does not parse, after running the parts before it; the model returns false, and its contract only describes the state on success.
- HotSprings: SpringCondition::from (splitting a line at whitespace and the groups at commas), part_one and part_two (sums over the lines of the input) are not modelled; records and groups are given as values.
- HotSprings: counts are unbounded naturals; the u64 additions of _combinations are not wrapped.
- HotSprings: the expanded example ".??..??...?##." with 16384 arrangements and the file examples (21 and 525152) are not proved; evaluating them takes the verifier too long.
- HotSprings.CountIsArrangements: holds only for groups of positive length; a group of length 0 makes _try_place skip one '?', which no filling does.
- ParabolicDish.Parse: the source takes the width from the first line and does not check the others; the model rejects ragged rows (a shorter row makes the source's indexing panic, and a longer one has cells the tilts never move but weight still counts).
- ParabolicDish.Dish.Weight: the source sums per-row usize totals into a u32; the model's load is unbounded (LoadBound bounds it by height times rocks).
- ParabolicDish.FirstRepeat: the source keys its HashMap on the printed text of the dish, and the model keys on the grid; RenderInjective shows that both find the same repeats.
- ParabolicDish.SpinLoad: the source panics on a zero width (usize underflow in tilt_east) and divides by zero when no spin repeats; the model returns None in both cases.
- ParabolicDish: the tests test_part_one (136), test_part_two (64) and test_part_two_first_cycles read the example input file, which is not part of this model. Evaluating tilts on a literal 10 by 10 grid is also beyond the verifier's budget.
- DiskFragmenter: checksums are unbounded naturals; the source's usize products and u64 sums are not modelled.
- DiskFragmenter.Disk.Compact: the result is characterised by being a compacted permutation of the blocks, not block by block; moving file blocks from the right in order is not stated.
- DiskFragmenter.PartOne: follows Disk.Compact, so its answer is stated only as the checksum of some compacted permutation of the blocks; two such permutations can differ in checksum, so the exact value of part_one is not pinned down.
- DiskFragmenter.DigitSizes: a trailing newline in the input is a non-digit and fails, as it panics in the source.
- DiskFragmenter: the Display impl for Disk is debugging output and is not modelled.
- DiskFragmenter: the tests (1928 and 2858) read the example input file, which is not part of this model.
- DistressSignal: splitting the input on blank lines and into lines is taken as given; PartOne takes each group's lines and PartTwo all the lines.
- DistressSignal.ParsePairs: only the first two lines of a group are parsed, as next_tuple reads only those; a third line is never looked at.
- DistressSignal.DividerPositions: data.sort() is the standard library's stable sort, which is not modelled; the lemma characterises every sorted arrangement in which each divider follows the packets equal to it, which is what stability gives.
- DistressSignal.Parse: a panic (number overflow, unexpected byte, unmatched ']', too short a line) is None; the Err result is never produced by from_str.
- DistressSignal.Parse: is built on the corrected digit accumulation (Accumulate), so numbers 208..255 parse and only numbers of 256 and up are None; the source as written overflows u8 in `curr * 10 + c - b'0'` from 208 up, a panic in debug builds and a wrapped but correct value in release builds (see Findings; AccumulateAsWritten models it).
- DistressSignal.FromStr: the byte loop uses the same corrected accumulation, so it does not model from_str as written for numbers 208..255, which panic in debug builds.
- DistressSignal: the tests (13 and 140) read the example input file, which is not part of this model.
- Snailfish.Explode: the proved facts are which numbers explode and that the amount is kept; that the leftmost pair four deep is the one that explodes, and that its numbers go to the nearest neighbours, is shown only on the docstring examples.
- Snailfish.Explode: the depth bound (height plus depth at most five) is required; it holds for every number add passes in, since inputs and sums are reduced; the source would index into a list held in a pair four deep.
- Snailfish.Split: the source writes the new children back into the nested lists in place; the model returns the new tree as a value. Only a regular number of ten or more is replaced, and the subtrees shared with the inputs hold none, so the writes are not observable.
- Snailfish.Reduce: the loop is given a number of rounds (fuel), with None when they run out, because its termination is not proved.
- Snailfish.PartOne: parsing the lines with eval, the timing decorator and printing are left out; the numbers come in as trees.
- y2021/18/code.py part_two (the largest magnitude over ordered pairs) is not modelled.
- SyntaxScoring.Validate: an exception (a pop from the empty stack, a missing points entry) is modelled as None; the exception types are not distinguished.
- SyntaxScoring.Sort: Python's sorted is modelled by an insertion sort; SortedUnique shows the result does not depend on the algorithm.
- SyntaxScoring: run, its print calls and the splitting of the input into lines are left out.
- PacketDecoder.Parse: the exceptions Packet.parse raises (int of an empty read, indexing into an empty group) are modelled as None; decode catches every exception, so their types do not matter.
- PacketDecoder.Decode: `while reader` is always true for a StringIO, so the loop ends only when a parse raises; the model keeps this, and zero padding at the end can therefore still parse as extra version-0 packets with no sub-packets.
- PacketDecoder.Value: the packet data is typed (Literal or Operator), so an operator of type 4, which Packet.parse never builds, has no value in the model.
- PacketDecoder: Packet.__repr__, the print calls in run, part_two and decode, and reading the puzzle input are left out; run's hexadecimal conversion is HexBits.
- PacketDecoder.Encode: the solution has no encoder; Encode is a reference definition that the parse round trip is stated against.
- Polymer.Reacts: str.lower and str.islower are modelled on ASCII only; Python's Unicode case rules for other letters are not modelled.
- Polymer: reading input.txt, the prints of both parts and min_polymer, which is assigned but never used, are left out.
- PolymerInPlace: parse (reading the file), the debug and info logging and part1, which only reports react's length, are left out.
- SlamShuffle.CombineUndoes: takes as a hypothesis that modular_pow(count, m - 2, m) is an inverse of each increment, which Fermat's little theorem gives for a prime m; the theorem is not proved here.
- SlamShuffle.Part2Meaning: takes the same inverse hypothesis for the increments and for a - 1, so it says what part2 computes for a deck size that behaves as a prime, without proving 119315717514047 prime.
- SlamShuffle: numbers are unbounded; i128 overflow of the parsed counts, of b + count and of the products in Combine and apply_times is not modelled (LoopProductsFit covers the loop of modular_pow only).
- SlamShuffle.IncrementDeck: the deck after a deal with an increment is given through an inverse of the count, not by laying the cards out on a table one by one.
- SlamShuffle: solve's file reading, timing and printing are left out; a line that fails to read shows up as Parsed.Panic or NotKnown, which unwrap turns into a panic.
- PuzzleUtils: the timed decorator is left out; it reads the clock and prints.
- PuzzleUtils.Window: the generator is modelled by the list of what it yields; its laziness over an unbounded iterable is not modelled.
- ShuttleSearch: run's reading of the input (the split on new lines and commas and int of each field) is left out; the buses come in as (id, offset) pairs.
- ShuttleSearch: part1 is left out; its waiting time rounds a floating-point quotient.
- ShuttleSearch.CombinePeriods: the script imports egcd from a utils module; 2020/utils/utils.py has no egcd, so the model uses the one in 2021/utils/utils.py (PuzzleUtils.EgcdLoop).
- ClawContraption: Input::from's regular expression over the puzzle text is left out; the machines come in as values.
- ClawContraption: numbers are unbounded; i64 overflow in the determinant and the numerators, and usize overflow of total_cost, are not modelled.
- ClawContraption.PartOneExample: the example file the tests read is not part of this model; Example holds the four machines of the puzzle's published example, whose totals agree with the tests' 480 and 875318608908.
- GroveMixing: from_str's parse of each line as i64 is not modelled; the file is given as its list of integers.
- GroveMixing: the Debug formatting of the decoded file is output only and is not modelled.
- GroveMixing: i64 overflow of value times decryption key is not modelled; integers are unbounded.
- GroveMixing.PartOne: the puzzle example's answers (3 and 1623178306) are not proved; evaluating the moves on literal deques needs more than the verifier's resource budget.
- CrabCups: the input must be a permutation of the labels 1..n with n at least 4 (Labels); with fewer than four cups the destination loop never ends, and with a missing label tick can raise KeyError; neither case is modelled.
- CrabCups: run's parsing of the input digits and the printing are left out; the debug flag and log only print and are not modelled.
- CrabCups: the timed decorator on part2 reads the clock and prints; it is left out.
- CrabCups.CupGame.IterFrom: the generator is modelled by the list of everything it yields; part2 takes the first two of that list instead of stopping after two.
- CrabCups.Part1: requires at most nine cups, so that str of each label is one decimal digit; labels parsed from single digits always satisfy it.
- PyroclasticFlow: part_two and get_block_snapshot (the cycle detection over a hash map of snapshots) are not modelled; the answer depends on when a snapshot first repeats, which has no closed form to prove against.
- PyroclasticFlow: the example results 3068 and 1514285714288 are not proved; the example input file is not part of this model, and evaluating 2022 falls in the verifier is out of reach.
- PyroclasticFlow: the Debug printer, and the test_drop_block and test_materialize tests, which only print, are not modelled.
- PyroclasticFlow: i32 positions and usize lengths are unbounded integers; the tower stays under 8088 rows, far from either bound.
- PyroclasticFlow.Chamber.DropBlock: requires a block that fits the chamber (cells in columns 0..4, rows 0..height); only the five built-in blocks are ever dropped, and all fit.
- Snafu: value and from_decimal compute in i64; the model's integers are unbounded, so the overflow of a numeral of more than 27 digits, or of a sum past 2^63, is not modelled.
- Snafu: part_one (summing the lines) and the other test_examples values are not modelled; the four listed examples stand for them.
- SecureContainer: parse and solve read the range from a file and part1 and part2 only log their counts, so the model takes the two bounds as parameters and returns the counts.
- SecureContainer: usize is unbounded here; numbers larger than usize::MAX are not excluded.
- PlutonianPebbles: Input::from's whitespace split and unwrapping parse are not modelled; the stones are given as a list of numbers.
- PlutonianPebbles: u64 overflow of stone * 2024 and of the sums is not modelled; integers are unbounded.
- PlutonianPebbles.ExpandExample: the test's 55312 after 25 blinks is not proved, since evaluating 25 blinks on literals is beyond the verifier's budget; the first two blinks of the same input are proved instead.
- MirageMaintenance: the From parse of a line (split_whitespace and unwrapping i32 parse) and the splitting into lines are not modelled; the readings are given as lists of integers.
- MirageMaintenance: i32 overflow of the differences and the sums is not modelled; integers are unbounded.
- MirageMaintenance.PartsExample: the example file the tests read is not part of this model; the lemma takes the three readings of the puzzle's published example, whose totals agree with the tests' 114 and 2.
- MonkeyMath: Equations::from_str (splitting each line at ": " and at spaces) is not modelled; the equations are given as a map from names to expressions with Variable operands, as it builds them.
- MonkeyMath: u64 arithmetic follows a debug build, where overflow panics (None); a release build would wrap instead, which is not modelled.
- MonkeyMath.Eval: takes a fuel bound on the variables resolved along one path, because equations with a cycle make eval recurse without end; running out of fuel gives None, like a panic.
- MonkeyMath.PartTwoSound: holds only when the left side of root needs no multiplication and no c / x step; MulInexact shows that those inversions can miss when the division is not exact.
- MonkeyMath: the example file behind test_part_one and test_part_two (152 and 301) is not part of this model; the test_invert equations are proved instead.
- MonkeyMarket: Input::from (one u64 per line) is not modelled; the buyers are given as a sequence of 64-bit values.
- MonkeyMarket.PartOne: the u64 sum's overflow panic is not modelled; each secret is below 2^24, so it needs more than 2^40 buyers.
- MonkeyMarket.PartOne: its 2000-step test on the example file (37327623) is not proved; that file is not part of this model and 2000 steps are beyond what the verifier evaluates.
- MonkeyMarket.BestSequence: the i32 additions of the scores are not checked for overflow; each adds at most 9 per buyer, so it needs more than 2^31 / 9 buyers; the test on "1 2 3 2024" (23) runs 2000 steps and is not proved.
- MonkeyMarket.PartTwo: test_part_two expects None, which part_two never returns: it returns Some or panics; the cast of the answer to u32 keeps it unchanged because the answer is not negative.
- MonkeyMarket: test_secret_step only prints the changes of 123; ChangesExample proves the first four of them.
- WarehouseWoes: the tests on the example file (10092 and 9021) need a file that is not part of this model, and test_small_example only prints; the Display impl (2024/src/bin/15.rs:54-61) is printing.
- WarehouseWoes: the split of the input at the first blank line and its trimming are left to the caller, who hands over the map's lines and the move text.
- WarehouseWoes: coordinates are unbounded integers; the source's i32 points and u32 sums cannot overflow on puzzle inputs.
- WarehouseWoes: a panic (an index outside the grid) is modelled as a run without result; the state the source leaves behind is not modelled.
- WarehouseWoes.StepWideKeeps: states that the robot stays on a free cell and the shape is kept, but not that a vertical push keeps every box whole or keeps the walls.
- RopeBridge: the tests read example files (answers 13, 1 and 36) that are not part of this model, so those answers are not stated.
- RopeBridge: positions are unbounded integers; the source's i32 points do not overflow on puzzle inputs.
- CamelCards: the tests that give 6440 and 5905 read an example file that is not part of this model.
- CamelCards: the u32 products and sum of solve and the u32 add in suit_count are unbounded integers, so an overflow (a panic in debug builds) is not modelled. The sort of the standard library is modelled by a stable insertion sort on the key, which is what sort_by_cached_key guarantees.
- CamelCards: a card is one Dafny character, where Rust's chars() yields Unicode scalar values.
- ReactorReboot: parse's regular expression over the input text is not modelled; the steps are given as boxes, and a line whose first word is not "off" switches on.
- ReactorReboot: the progress bar that wraps the steps and the timing decorator of the parts print only and are left out.
- ReactorReboot: the doctest that gives 590784 on the twenty-step example is not restated; the small example's 39 is.
- ReactorReboot.TotalCountsLit: the source assumes every step has min <= max on each axis; a step without cubes would count a negative or zero volume without holding a cube, so the lemma requires steps with cubes.
- BeaconScanner: place_scanners is not modelled. It parses the reports, places the scanners one by one with a memo of pairs that failed, and collects the beacons of part one. Its outer loop ends only when every scanner can be placed, and its order follows dict and set iteration.
- BeaconScanner.FindCoordinateOverlap: Python's iteration order over the set of a's beacons is a parameter that lists exactly those beacons; which relation is returned first depends on it.
- BeaconScanner: run's printing and the timing decorator are left out.
- Amphipod: parse, all_moves, order_pods, part_one, part_two and run are not modelled. They parse the diagram, insert the two extra lines of part two, and run a Dijkstra search over a heap with a visited set, printing milestones. The search ends only on the puzzle's own inputs.
- Amphipod.PossibleMoves: states which positions are yielded, as the source's examples compare sets, and not the order in which the generator yields them.
- Amphipod: positions are natural numbers. Python would also accept a negative index, counting from the end, but the source's callers only pass positions inside the row.
- Amphipod: the kinds are the four letters A to D, so the cost table's lookup cannot fail.


## Findings
| source | as written | input that shows it | evidently intended | confidence | as-written member | corrected member |
|---|---|---|---|---|---|---|
| 2023/src/bin/19.rs:93-95 | when a rule's non-passing box is None, interval keeps carrying the previous box, so the parts a rule just sent on are sent again by later rules and the final destination | "w{x<5:A,x>2:R,A}" on IntervalPart::new(0, 10): x in 5..10 goes both to R and to A | nothing is carried on once a rule has taken the whole remaining box, so each part lands in exactly one piece | not executed; high | Aplenty.OverlapAsWritten | Aplenty.PiecesExactlyOne |
| 2023/src/bin/19.rs:366-368 | test_interval_part_clamp clamps index 0 with x > 5 and then checks the interval at index 1 | IntervalPart::new(0, 10).clamp(0, false, 5) has intervals[1] = 0..10, so the expected min 6 does not hold | the test meant intervals[0], which is 6..10 | not executed; high | Aplenty.PartClampTestAsWritten | Aplenty.PartClampTestCorrected |
| 2023/src/bin/05.rs:100-103 | after a mapped part apply_map goes on from its last value instead of the one after it, and the final unmapped part is kept only when its start is below the range end | mapping "100 0 5" with range 0..10 yields 100..104 and 4..10, so 4 appears though no value of 0..10 maps to it; range 7..7 with no mapping yields nothing | go on from end + 1 and keep the final part when start <= range.end, so the output holds exactly the image of the range | not executed; high | SeedAlmanac.ApplyMapAsWrittenExample | SeedAlmanac.SegmentsExact |
| 2022/src/bin/13.rs:27-30 | curr * 10 + c - b'0' adds the byte c before taking b'0' off | "[208]": 20 * 10 + b'8' = 256 overflows the u8 although 208 fits | curr * 10 + (c - b'0'), which fits for every number up to 255 | not executed; medium: the overflow panics in debug builds only, release builds wrap to the right value | DistressSignal.AccumulateOverflows | DistressSignal.Accumulate |
| 2019/src/day22.rs:52-53 | part1 reduces with Rust's %, which keeps the sign of the dividend, so a cut larger than the current position leaves a negative position that later steps carry on, and a new stack then pushes it above n - 1 | the list [cut 3000] from card 2019: part1 answers -981 | the card's position in 0..10006, the remainder taken with rem_euclid | not executed; medium: an input whose running position never goes negative prints the right answer | SlamShuffle.Part1NegativeExample | SlamShuffle.Part1Corrected |
| 2021/utils/utils.py:38-47 | the docstring promises g = gcd(a, b), but with a negative input the loop's last nonzero remainder can be negative | egcd(-4, 6) returns (-2, 2, 1) | g = gcd(a, b) = 2, here with the coefficients (-2, -1) | not executed; low: the one caller in the archive passes positive periods | PuzzleUtils.EgcdNegativeExample | PuzzleUtils.EgcdCorrected |
| 2024/src/bin/13.rs:25-27 | solve casts the i64 press counts to usize without checking their sign, so a machine whose only solution needs a negative press count gets a huge count instead of None | button A X+1, Y+2, button B X+2, Y+1, prize X=0, Y=3: the only solution is a = 2, b = -1, and solve returns (2, 18446744073709551615), which part_one's 3 * x + y then overflows | None when a press count is negative, since a button cannot be pressed a negative number of times | not executed; low: the puzzle inputs may contain no such machine | ClawContraption.SolveNegativeExample | ClawContraption.SolveCorrected |
