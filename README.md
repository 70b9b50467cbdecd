# Befunge-93 and Brainfuck interpreters in Dafny

A verified model of the two interpreters of the `esolangs` repository.

**Befunge-93 VM** (`befunge/src/vm.rs`). The program is a 2-D grid of `i32`
cells. An instruction pointer moves over the grid in one of four directions.
Values live on a stack of `i32`, and an empty stack pops as 0. One `cycle`
reads the cell under the pointer and dispatches on its low byte. It runs the
opcode's handler and then moves the pointer one step in the current
direction. Three files model it:

- `befunge_geometry.dfy`: `Direction`, `Coord`, `Coord + Direction`, and the
  sampling of a random direction for `?`.
- `befunge_stack.dfy`: the stack effects of the stack-only opcodes, with
  Rust's truncating `/` and `%` written out.
- `befunge_vm.dfy`: the grid, the decoding of opcodes, string mode, the
  value-level step `Step`, and the class `Vm`. The class keeps the source's
  fields and its handlers update them in place. `Vm.Cycle` is proved to
  perform exactly `Step`.

**Brainfuck tape and VM** (`brainfuck/src/tape.rs`, `brainfuck/src/vm.rs`).
Two files model them:

- `brainfuck_tape.dfy`: the tape. It is addressed by any `i32` and stored in a
  vector that only grows. Index `i >= 0` lives in slot `2i` and index `i < 0`
  in slot `-2i - 1`. Reads past the end give 0. Writes first pad the vector
  with zeros.
- `brainfuck_vm.dfy`: `i8` wrapping, the bracket depth that the jump scans
  count, the value-level `Step`, and the class `Vm`. `Vm.Cycle` is proved to
  perform exactly `Step`.

`stdin.dfy` holds the byte-at-a-time reading of stdin that both interpreters
share, and `rust_ints.dfy` the Rust integer types `u8`, `i8` and `i32`.

Some effects of the source are modelled as values:

- `std::process::exit` becomes a `halted` flag.
- stdin becomes a sequence of bytes, and end of input reads as 0.
- stdout becomes a log of what is written.
- `rand::random()` for `?` becomes a roll in `0..4`, passed as a parameter.
- Every Rust panic becomes a precondition. Befunge's is `CanStep`; Brainfuck's
  is `CanCycle`.

The source and its doc comments disagree in three places:

- `put` and `get` pop `x` first and then `y`. The doc comments say "Pop y, x".
  The model follows the code.
- `ask_num` reads one byte exactly as `ask_char` does. It does not parse a
  number. The model follows the code.
- `swap` pushes the two values back in the order it popped them, so it leaves
  the stack as it was. The doc comment says it swaps them. Here the model
  follows the doc comment: `Step` and `Vm.Cycle` run the corrected swap, and the
  code as written is modelled beside it (`SwapAsWritten`). "## Findings"
  records the discrepancy.

## Model

| member | source | states |
|---|---|---|
| BefungeGeometry.Advance | befunge/src/vm.rs:44-63 | one step moves `x` by -1/+1 for `Left`/`Right` and `y` by -1/+1 for `Up`/`Down`, the other coordinate unchanged; its precondition is exactly "no `usize` underflow" |
| BefungeGeometry.Origin | befunge/src/vm.rs:31-33 | `Coord::new()` is the top-left cell `(0, 0)`, where every run starts |
| BefungeGeometry.CanAdvanceIffNonNegative | befunge/src/vm.rs:44-63 | the step is defined exactly when the moved coordinate stays non-negative |
| BefungeGeometry.Walk | befunge/src/vm.rs:41-70 | `k` repeated steps: 0 steps stay put, 1 step is `Advance` |
| BefungeGeometry.WalkStep | befunge/src/vm.rs:66-70 | `k + 1` steps are `k` steps followed by one `+= dir` |
| BefungeGeometry.SampleUniform | befunge/src/vm.rs:13-22 | each of the four directions is picked by exactly one of the four rolls of `gen_range(0, 4)` |
| BefungeGeometry.SampleDirection | befunge/src/vm.rs:13-22 | `sample` maps the roll of `gen_range(0, 4)` to a direction: 0 Left, 1 Down, 2 Right, anything else Up (its contract is `SampleUniform`) |
| Stdin.NextByte | befunge/src/vm.rs:298 | reading stdin gives the next byte and consumes it, or 0 at end of input (Brainfuck's `input` reads the same way) |
| BefungeStack.Pop | befunge/src/vm.rs:142 | `pop().unwrap_or(0)` gives 0 and an empty stack on an empty stack, and otherwise splits off the top |
| BefungeStack.Quot | befunge/src/vm.rs:213-218 | `/` rounds toward zero: the magnitude is the quotient of the magnitudes, and the sign is negative only for mixed signs |
| BefungeStack.Rem | befunge/src/vm.rs:220-225 | `%` is smaller than the divisor in magnitude and takes the dividend's sign |
| BefungeStack.QuotRem | befunge/src/vm.rs:213-225 | `(b / a) * a + b % a == b` for Rust's truncating operators |
| BefungeStack.Binary | befunge/src/vm.rs:192-246 | the binary opcodes pop `a`, then `b` (0 when missing), and push one result; the values below are unchanged |
| BefungeStack.Combine | befunge/src/vm.rs:193-246 | the value each binary opcode pushes from `b` (popped second) and `a` (popped first): `a + b`, `b - a`, `b * a`, the truncating `b / a` and `b % a`, and 1 or 0 for `b > a` (its contracts are `CombineFits`, `QuotRem` and `SubUndoesAdd`) |
| BefungeStack.CombineFits | befunge/src/vm.rs:192-246 | every result that Rust does not panic on fits an `i32` |
| BefungeStack.SubUndoesAdd | befunge/src/vm.rs:192-204 | `b - a` pops in the documented order: adding `b` and then subtracting `b` leaves `a` |
| BefungeStack.DivisionTruncates | befunge/src/vm.rs:213-225 | `-7 / 2` pushes `-3` and `-7 % 2` pushes `-1`, not the floored values |
| BefungeStack.Not | befunge/src/vm.rs:227-234 | `!` pushes exactly one value from {0, 1}: 1 iff the popped value (0 if missing) is 0; the rest is unchanged |
| BefungeStack.Duplicate | befunge/src/vm.rs:172-177 | `:` on an empty stack leaves `[0, 0]`, and otherwise grows the stack by a copy of its top |
| BefungeStack.Discard | befunge/src/vm.rs:187-190 | `$` drops the top, and on an empty stack changes nothing |
| BefungeStack.DiscardUndoesDuplicate | befunge/src/vm.rs:172-190 | `$` after `:` restores a non-empty stack, and turns an empty one into `[0]` |
| BefungeStack.Swap | befunge/src/vm.rs:179-185 | `\` exchanges the two top values, with 0 for each missing one; the rest is unchanged |
| BefungeStack.SwapInvolution | befunge/src/vm.rs:179-185 | swapping twice restores any stack of two or more values |
| BefungeStack.SwapAsWrittenKeepsOrder | befunge/src/vm.rs:180-185 | as written, `swap` leaves every stack of two or more values unchanged |
| BefungeStack.SwapAsWrittenCounterexample | befunge/src/vm.rs:180-185 | as written, `[1, 2]` stays `[1, 2]`, while a swap gives `[2, 1]` |
| BefungeStack.SwapAsWritten | befunge/src/vm.rs:180-185 | `swap` as written: pops `v1` and `v2` (0 when missing) and pushes `v2`, then `v1`, so the top stays on top and the value below stays below |
| BefungeVm.Store | befunge/src/vm.rs:260 | writing a cell changes that cell only and keeps the grid's shape |
| BefungeVm.At | befunge/src/vm.rs:90 | `grid[c]`: the cell at column `x` of row `y`, defined only inside the grid, where the `Index` on the grid would not panic |
| BefungeVm.LowByte | befunge/src/vm.rs:94 | `op as u8` is the byte congruent to the cell modulo 256 |
| BefungeVm.CurrentInstr | befunge/src/vm.rs:90-94 | the fetch `grid[ptr]` and the decode of its low byte `op as u8 as char` (its contracts are those of `LowByte` and `DecodeCatchAll`) |
| BefungeVm.Decode | befunge/src/vm.rs:94-131 | the `match` on `op as u8 as char` that picks each opcode's handler (its contracts are `DecodeCatchAll` and `DecodeDigit`) |
| BefungeVm.DecodeCatchAll | befunge/src/vm.rs:94-131 | a byte reaches the `_ => ()` arm exactly when it is none of the 26 command characters and ten digits |
| BefungeVm.DecodeDigit | befunge/src/vm.rs:120-122 | exactly the ten ASCII digit bytes decode as a digit push |
| BefungeVm.DigitFits | befunge/src/vm.rs:121 | `op - '0'` on a cell whose low byte is a digit never overflows `i32` |
| BefungeVm.StringEnd | befunge/src/vm.rs:159-165 | the string scan stops on a cell holding `"` |
| BefungeVm.StringCells | befunge/src/vm.rs:159-165 | the values string mode pushes: the cells from the one after the opening quote up to the next `"`, in traversal order (its contract is `StringScanCells`) |
| BefungeVm.StringScanCells | befunge/src/vm.rs:159-165 | string mode collects, in traversal order, exactly the cells before the first `"`, none of which is `"`, and stops on the cell just after them |
| BefungeVm.StepKeepsShape | befunge/src/vm.rs:89-133 | no cycle resizes the grid |
| BefungeVm.Initial | befunge/src/vm.rs:80-87 | `Vm::new` as a value: the pointer at the origin, heading right, an empty stack, nothing read or printed |
| BefungeVm.Target | befunge/src/vm.rs:251-274 | `put` and `get` pop `x` first and `y` second, so the cell addressed is `(top, second)`; defined only for non-negative values, as `x as usize` of a negative `i32` is out of range (its contract is `StepPutGet`) |
| BefungeVm.StackEffect | befunge/src/vm.rs:107-122 | the stack arms of the `match` (`:`, `\`, `$`, the six binary opcodes, `!` and the digits) change only the stack, each as its stack function (its contracts are `Vm.StackOp` and `StepDigit`) |
| BefungeVm.Execute | befunge/src/vm.rs:94-131 | the handler of one opcode, before the final step; no handler resizes the grid |
| BefungeVm.Step | befunge/src/vm.rs:89-133 | one cycle: a cycle that exits changes nothing else, the pointer included; a cycle reads at most one byte and prints at most one value |
| BefungeVm.Run | befunge/src/vm.rs:89-133 | repeated cycles, each with its own roll, stopping at an exit or at a cycle that would panic (its contract is `RunDigits`) |
| BefungeVm.RunDigits | befunge/src/vm.rs:120-122 | heading right over `n` digit cells, `n` cycles push the digits' values in program order, leave the pointer just past the last digit, and change nothing else |
| BefungeVm.DigitValuesAt | befunge/src/vm.rs:121 | the `k`-th value pushed by a row of digits is the `k`-th cell less `'0'`, and one value is pushed per cell |
| BefungeVm.StepMovesOnce | befunge/src/vm.rs:89-133 | apart from string mode and the bridge, a cycle that does not exit moves the pointer exactly one step, in the direction the opcode left |
| BefungeVm.StepNoOp | befunge/src/vm.rs:130-132 | an unrecognised cell changes nothing but the pointer, which takes one step |
| BefungeVm.StepDigit | befunge/src/vm.rs:120-122 | a digit cell pushes `cell - '0'`, cannot panic, and steps on |
| BefungeVm.StepBranch | befunge/src/vm.rs:140-156 | `_` heads right iff the popped value is 0 and left otherwise; the vertical branch heads down or up likewise; a non-empty stack loses exactly its top |
| BefungeVm.StepBridge | befunge/src/vm.rs:167-170 | the bridge ends two steps on, with the stack and grid unchanged |
| BefungeVm.StepString | befunge/src/vm.rs:158-165 | `"` pushes the scanned cells, and the cycle's own step moves past the closing quote |
| BefungeVm.StringExample | befunge/src/vm.rs:158-165 | the row `"Hi"` pushes `'H'`, then `'i'`, and leaves the pointer just past the closing quote |
| BefungeVm.StepPutGet | befunge/src/vm.rs:248-275 | `p` and `g` exit on fewer than 3 or 2 values; `p` pops `x`, `y` and `v` and changes only cell `(x, y)`; `g` pushes that cell and leaves the grid unchanged |
| BefungeVm.StepPrint | befunge/src/vm.rs:277-293 | `.` and `,` exit on an empty stack instead of defaulting to 0; otherwise they pop the top and print it as a number or as its low byte |
| BefungeVm.StepAsk | befunge/src/vm.rs:295-306 | `&` and `~` push the next input byte, or 0 at end of input |
| BefungeVm.PutThenGet | befunge/src/vm.rs:251-275 | a `get` right after a `put` at the same coordinates reads back the value written, wherever that cell lies, the `g` cell itself included |
| BefungeVm.Vm.constructor | befunge/src/vm.rs:80-87 | a new machine starts at the origin, heading right, with an empty stack |
| BefungeVm.Vm.Cycle | befunge/src/vm.rs:89-133 | one cycle updates the fields in place exactly as `Step`: dispatch on the low byte, run the handler, then step once unless it exited |
| BefungeVm.Vm.String | befunge/src/vm.rs:159-165 | the loop pushes the scanned cells and leaves the pointer on the closing quote |
| BefungeVm.Vm.Push | befunge/src/vm.rs:162 | `stack.push(v)` in place: the stack gains `v` on top and nothing else changes |
| BefungeVm.Vm.Put | befunge/src/vm.rs:251-261 | `put` exits on fewer than three values, and otherwise pops `x`, `y` and `v` and stores `v` at `(x, y)` |
| BefungeVm.Vm.Get | befunge/src/vm.rs:265-275 | `get` exits on fewer than two values, and otherwise replaces `x` and `y` with the cell's value |
| BefungeVm.Vm.FlowControl | befunge/src/vm.rs:95-105 | the flow-control arms of the `match` update the fields exactly as `Execute` |
| BefungeVm.Vm.StackOp | befunge/src/vm.rs:107-122 | the stack arms of the `match` change only the stack, as `StackEffect` |
| BefungeVm.Vm.GridOp | befunge/src/vm.rs:118-119 | the `p` and `g` arms update the fields exactly as `Execute` |
| BefungeVm.Vm.InputOutput | befunge/src/vm.rs:124-130 | the I/O arms and the catch-all update the fields exactly as `Execute` |
| BefungeVm.Vm.PopOrZero | befunge/src/vm.rs:142 | `stack.pop().unwrap_or(0)` in place: returns and removes the top, or returns 0 on an empty stack |
| BefungeVm.Vm.RightIf | befunge/src/vm.rs:141-147 | `right_if` pops one value (0 if missing) and heads right on 0, left otherwise |
| BefungeVm.Vm.DownIf | befunge/src/vm.rs:150-156 | `down_if` pops one value (0 if missing) and heads down on 0, up otherwise |
| BefungeVm.Vm.Bridge | befunge/src/vm.rs:168-170 | `bridge` moves the pointer one extra step |
| BefungeVm.Vm.Quit | befunge/src/vm.rs:136-138 | `quit` ends execution |
| BefungeVm.Vm.Duplicate | befunge/src/vm.rs:173-177 | `duplicate` updates the stack in place as `BefungeStack.Duplicate` |
| BefungeVm.Vm.Delete | befunge/src/vm.rs:188-190 | `delete` drops the top in place, and leaves an empty stack empty |
| BefungeVm.Vm.Arithmetic | befunge/src/vm.rs:193-246 | `add`, `sub`, `mul`, `div`, `modulo` and `greater_than` update the stack in place as `Binary` |
| BefungeVm.Vm.Not | befunge/src/vm.rs:228-234 | `not` updates the stack in place as `BefungeStack.Not` |
| BefungeVm.Vm.PrintInt | befunge/src/vm.rs:278-284 | `print_int` exits on an empty stack, and otherwise pops the top and logs it as a number |
| BefungeVm.Vm.Print | befunge/src/vm.rs:287-293 | `print` exits on an empty stack, and otherwise pops the top and logs its low byte |
| BefungeVm.Vm.AskNum | befunge/src/vm.rs:296-300 | `ask_num` pushes the next input byte and consumes it, or pushes 0 at end of input |
| BefungeVm.Vm.AskChar | befunge/src/vm.rs:303-306 | `ask_char` pushes the next input byte and consumes it, or pushes 0 at end of input |
| BefungeVm.Vm.Swap | befunge/src/vm.rs:179-185 | the handler performs the corrected `Swap` the doc comment promises, not the code as written (see "## Left out") |
| BrainfuckTape.Slot | brainfuck/src/tape.rs:13-34 | non-negative indices go to even slots and negative ones to odd slots, and every addressable index fits an `i32` slot |
| BrainfuckTape.SlotBijection | brainfuck/src/tape.rs:20-34 | the slot mapping is a bijection between the integers and the naturals |
| BrainfuckTape.SlotInjective | brainfuck/src/tape.rs:20-34 | distinct indices never share a slot |
| BrainfuckTape.ReadEmpty | brainfuck/src/tape.rs:8-10 | a fresh tape reads 0 at every index |
| BrainfuckTape.Read | brainfuck/src/tape.rs:26-43 | `index` returns the cell at `i`, or 0 past the end; it agrees with the cell `index_mut` would grow the vector to reach |
| BrainfuckTape.Grown | brainfuck/src/tape.rs:55-57 | growing keeps the old cells, pads with zeros to exactly `slot + 1`, and leaves the length unchanged when the slot is inside |
| BrainfuckTape.GrownReads | brainfuck/src/tape.rs:39-57 | growing changes no read at any index |
| BrainfuckTape.Written | brainfuck/src/tape.rs:46-59 | after a write the vector holds the slot and never got shorter |
| BrainfuckTape.ReadAfterWrite | brainfuck/src/tape.rs:26-59 | after writing `v` at `i`, `i` reads `v` and every other index reads as before |
| BrainfuckTape.WriteSameValue | brainfuck/src/tape.rs:26-59 | writing back the value an index reads changes no read |
| BrainfuckTape.Tape.constructor | brainfuck/src/tape.rs:8-10 | a new tape has an empty vector |
| BrainfuckTape.Tape.IndexMut | brainfuck/src/tape.rs:47-59 | `index_mut` grows the vector in place with zeros to hold the slot, and returns that slot |
| BrainfuckTape.Tape.Store | brainfuck/src/tape.rs:58 | a write through the `&mut` reference changes that one slot of the vector |
| Brainfuck.WrapInc | brainfuck/src/vm.rs:52-56 | `wrapping_add(1)` is one more modulo 256 |
| Brainfuck.WrapDec | brainfuck/src/vm.rs:59-63 | `wrapping_sub(1)` is one less modulo 256 |
| Brainfuck.WrapInverse | brainfuck/src/vm.rs:52-63 | increment and decrement undo each other; `127 + 1` is `-128` and `-128 - 1` is `127` |
| Brainfuck.ToInt8 | brainfuck/src/vm.rs:80 | `b as i8` is congruent to `b` modulo 256 |
| Brainfuck.ToByte | brainfuck/src/vm.rs:70 | `v as u8` is congruent to `v` modulo 256 |
| Brainfuck.CastRoundTrip | brainfuck/src/vm.rs:66-82 | the two casts are inverse bijections |
| Brainfuck.DepthAdd | brainfuck/src/vm.rs:90-124 | the scans' `matching` depth is additive over adjacent ranges |
| Brainfuck.MatchedBrackets | brainfuck/src/vm.rs:85-125 | a matched pair is a `[` and a `]` |
| Brainfuck.MatchedUniqueClose | brainfuck/src/vm.rs:90-103 | a `[` matches at most one `]` |
| Brainfuck.MatchedUniqueOpen | brainfuck/src/vm.rs:112-124 | a `]` matches at most one `[` |
| Brainfuck.MatchedFromSuffix | brainfuck/src/vm.rs:112-124 | where the backward count first returns to 0 is the forward match |
| Brainfuck.CloseExists | brainfuck/src/vm.rs:90-103 | from a `[`, if the rest of the program does not open more than it closes, the forward scan finds a `]` inside the program |
| Brainfuck.MatchingClose | brainfuck/src/vm.rs:85-104 | the position the forward scan stops at is the matching `]` |
| Brainfuck.OpenExists | brainfuck/src/vm.rs:112-124 | from a `]`, if no prefix closes more than it opens, the backward scan finds a `[` without underflow |
| Brainfuck.MatchingOpen | brainfuck/src/vm.rs:107-125 | the position the backward scan stops at is the matching `[` |
| Brainfuck.MatchingRoundTrip | brainfuck/src/vm.rs:85-125 | the two scans agree: each finds the partner of the other's bracket |
| Brainfuck.BalancedScans | brainfuck/src/vm.rs:85-125 | in a balanced program both scans succeed from every bracket |
| Brainfuck.BalancedCanCycle | brainfuck/src/vm.rs:85-125 | in a balanced program every bracket can run without panicking |
| Brainfuck.StepMove | brainfuck/src/vm.rs:20-49 | `>` and `<` move the memory pointer by +1 and -1 and advance the instruction pointer; a comment character only advances it |
| Brainfuck.StepCell | brainfuck/src/vm.rs:52-63 | `+` and `-` change only the cell under the memory pointer, wrapping in `i8` |
| Brainfuck.StepIo | brainfuck/src/vm.rs:66-82 | `,` stores the next input byte as `i8` (0 at end of input) in the current cell only; `.` outputs the cell as a byte and changes no cell |
| Brainfuck.StepJump | brainfuck/src/vm.rs:85-125 | `[` on zero lands one past its matching `]`; `]` on non-zero lands on its matching `[` itself; otherwise both advance by one |
| Brainfuck.Step | brainfuck/src/vm.rs:20-125 | one cycle: the instruction pointer always moves and never goes beyond one past the end of the program; the memory pointer moves by at most one; at most one byte is read and at most one written |
| Brainfuck.Vm.constructor | brainfuck/src/vm.rs:11-18 | a new machine has both pointers at 0 and an empty tape |
| Brainfuck.Initial | brainfuck/src/vm.rs:11-18 | `Vm::new` as a value: both pointers at 0, an empty tape, nothing read or written (the state `Vm.constructor` produces) |
| Brainfuck.Vm.Finished | brainfuck/src/vm.rs:20-37 | `finished()` reports the state `PastEnd`, and on a finished machine `cycle` cannot run: it would index past the program |
| Brainfuck.Vm.Cycle | brainfuck/src/vm.rs:20-33 | one cycle updates the fields and the tape in place exactly as `Step` |
| Brainfuck.Vm.Increment | brainfuck/src/vm.rs:52-56 | `+` grows the tape through `index_mut` and writes the wrapped increment |
| Brainfuck.Vm.Right | brainfuck/src/vm.rs:40-43 | `right` moves the memory pointer and the instruction pointer one step on |
| Brainfuck.Vm.Left | brainfuck/src/vm.rs:46-49 | `left` moves the memory pointer one step back and the instruction pointer one step on |
| Brainfuck.Vm.Decrement | brainfuck/src/vm.rs:59-63 | `-` grows the tape through `index_mut` and writes the wrapped decrement |
| Brainfuck.Vm.Output | brainfuck/src/vm.rs:66-74 | `.` logs the current cell as a byte, read through `index`, which does not grow the tape |
| Brainfuck.Vm.Input | brainfuck/src/vm.rs:78-82 | `,` consumes one input byte (0 at end of input) and writes it to the current cell |
| Brainfuck.Vm.JumpRight | brainfuck/src/vm.rs:85-104 | the depth-counting loop stays inside the program and lands one past the matching `]` |
| Brainfuck.Vm.JumpLeft | brainfuck/src/vm.rs:107-125 | the depth-counting loop never underflows and lands on the matching `[` |

## Left out

- The `rand` sampling for `?`: the roll is a parameter `roll < 4`, mapped by `SampleDirection` as `sample` maps `gen_range(0, 4)`.
- The text printed to stdout. The output log holds the values printed: numbers for `.`, bytes for `,` and for Brainfuck's `.`. Not modelled: the decimal formatting, the space after a number, the UTF-8 encoding of `as char` for bytes of 128 and above, and the flushing.
- The "Not enough element in the stack" message and the "Input a number: " prompt. They are I/O only.
- The exit status. `std::process::exit(0)` is the `halted` flag. The source exits with status 0 even after an operand underflow.
- I/O errors. The source calls `unwrap()` on the byte read from stdin and panics on an error. Here input is a plain sequence of bytes.
- `crate::grid`, which loads and pads the Befunge program. It is not part of this model. The grid is a sequence of rows, and every access must be in bounds, because the grid's out-of-bounds behaviour is unknown.
- `brainfuck/src/main.rs` and the Befunge entry point: argument parsing and file reading. Note that Brainfuck's `main` loops on `cycle()` without checking `finished()`.
- Rust panics, which are preconditions rather than modelled behaviour: `usize` underflow of `Coord + Direction`; out-of-range grid access, including negative coordinates cast to `usize` in `put` and `get`; division or remainder by zero and `i32` overflow of `+ - * / %`; `i32` overflow of the memory pointer and of the tape's slot arithmetic; indexing past the program, and `usize` underflow in `jump_left`.
- Release-mode wrap-around of those operations. Panics are modelled as excluded, not as wrapping.
- `usize` overflow of the pointers moving right or down, and `i32` overflow of the scans' `matching` counters. Coordinates, the instruction pointer and the depth are unbounded.
- BrainfuckTape.Tape.IndexMut: the returned `&mut i8` is modelled as the slot number, written through `Tape.Store`. The borrow itself is not modelled.
- BefungeVm.Vm.Swap: the machine runs the corrected swap, so `StackEffect`, `Step` and `Vm.Cycle` differ from the code as written on `\`. The code as written is `BefungeStack.SwapAsWritten`: it leaves `[1, 2]` as `[1, 2]` where the model gives `[2, 1]`, and turns `[5]` into `[0, 5]` where the model gives `[5, 0]`. See "## Findings".
- Brainfuck.CanCycle: the bracket conditions are sufficient for the scans, not exact. The forward scan of `[][[` from index 0 still stops at index 1, but `CanCycle` refuses that state. Every balanced program meets the conditions (`BalancedCanCycle`).
- BefungeVm.Run: a cycle the Rust code would panic on ends the run instead of aborting the process. `RunDigits` shows that a row of digits never reaches such a cycle.
- BefungeVm.Vm.AskNum: it reads a single byte, as written. The number parsing its doc comment suggests is not modelled.

## Findings

| source | as written | input that shows it | evidently intended | confidence | as-written member | corrected member |
|---|---|---|---|---|---|---|
| befunge/src/vm.rs:180-185 | `swap` pops `v1` and then `v2`, and pushes `v2` and then `v1`, which puts both back where they were | the stack `[1, 2]` stays `[1, 2]` | exchange the two top values, as the doc comment says: `[1, 2]` becomes `[2, 1]` | high; not executed | BefungeStack.SwapAsWrittenKeepsOrder | BefungeStack.Swap |
