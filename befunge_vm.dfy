/** The Befunge-93 virtual machine: a grid of `i32` cells that is both program and
    data, an instruction pointer with a direction, and the evaluation stack.
    One `cycle` reads the cell under the pointer, dispatches on its low byte, runs
    the opcode's handler and then moves the pointer one step in the current
    direction.

    The value-level `Step` is the specification of `Vm.Cycle`; the class keeps the
    source's fields and updates them in place. `std::process::exit` becomes the
    `halted` flag, stdin a sequence of bytes (end of input reads as 0) and stdout
    a log of the values printed. Everything the Rust code would panic on (an
    out-of-grid access, `usize` underflow of the pointer, division by zero, `i32`
    overflow) is excluded by the precondition `CanStep`. */
module BefungeVm {
  import opened RustInts
  import opened BefungeGeometry
  import opened BefungeStack
  import opened Stdin

  /** The program: `g[y][x]` is the cell at column `x` of row `y`. */
  type Grid = seq<seq<int32>>

  predicate InGrid(g: Grid, c: Coord) {
    c.y < |g| && c.x < |g[c.y]|
  }

  /** `grid[c]`. */
  function At(g: Grid, c: Coord): int32
    requires InGrid(g, c)
  {
    g[c.y][c.x]
  }

  /** Same rows, each of the same width. */
  predicate SameShape(g: Grid, h: Grid) {
    |g| == |h| && forall y :: 0 <= y < |g| ==> |g[y]| == |h[y]|
  }

  /** `grid[c] = v`: only cell `c` changes, and the grid keeps its shape. */
  function Store(g: Grid, c: Coord, v: int32): (r: Grid)
    requires InGrid(g, c)
    ensures SameShape(r, g)
    ensures At(r, c) == v
    ensures forall e :: InGrid(g, e) && e != c ==> At(r, e) == At(g, e)
  {
    var row: seq<int32> := g[c.y][c.x := v];
    g[c.y := row]
  }

  /** `v as u8`: the low byte of the two's-complement representation, i.e. the
      unique byte congruent to `v` modulo 256. */
  function LowByte(v: int): (b: byte)
    ensures (v - b) % 256 == 0
  {
    v % 256
  }

  const Quote: int := '"' as int

  /** The opcodes `cycle` distinguishes. */
  datatype Instr =
    | SetDirection(d: Direction)  // > < ^ v
    | RandomDirection             // ?
    | BranchHorizontal            // _
    | BranchVertical              // |
    | StringMode                  // "
    | Bridge                      // #
    | Quit                        // @
    | DuplicateTop                // :
    | SwapTop                     // \
    | DiscardTop                  // $
    | Arithmetic(op: BinOp)       // + - * / % `
    | LogicalNot                  // !
    | PutCell                     // p
    | GetCell                     // g
    | PushDigit                   // 0 to 9
    | PrintInt                    // .
    | PrintChar                   // ,
    | AskNum                      // &
    | AskChar                     // ~
    | NoOp                        // anything else
  {
    predicate IsFlowControl() {
      SetDirection? || RandomDirection? || BranchHorizontal? || BranchVertical? ||
      StringMode? || Bridge? || Quit?
    }

    predicate IsStackOp() {
      DuplicateTop? || SwapTop? || DiscardTop? || Arithmetic? || LogicalNot? || PushDigit?
    }

    predicate IsGridOp() {
      PutCell? || GetCell?
    }
  }

  /** The characters `cycle` gives a meaning to: the 26 commands and the ten digits. */
  const Opcodes: set<char> := {
    '>', '<', '^', 'v', '?', '_', '|', '"', '#', '@',
    ':', '\\', '$', '+', '-', '*', '/', '%', '!', '`', 'p', 'g',
    '0', '1', '2', '3', '4', '5', '6', '7', '8', '9',
    '.', ',', '&', '~'}

  /** The `match op as u8 as char` of `cycle`. */
  function Decode(b: byte): Instr {
    match b as char
    case '>' => SetDirection(Right)
    case '<' => SetDirection(Left)
    case '^' => SetDirection(Up)
    case 'v' => SetDirection(Down)
    case '?' => RandomDirection
    case '_' => BranchHorizontal
    case '|' => BranchVertical
    case '"' => StringMode
    case '#' => Bridge
    case '@' => Quit
    case ':' => DuplicateTop
    case '\\' => SwapTop
    case '$' => DiscardTop
    case '+' => Arithmetic(Add)
    case '-' => Arithmetic(Sub)
    case '*' => Arithmetic(Mul)
    case '/' => Arithmetic(Div)
    case '%' => Arithmetic(Mod)
    case '!' => LogicalNot
    case '`' => Arithmetic(Greater)
    case 'p' => PutCell
    case 'g' => GetCell
    case '0' | '1' | '2' | '3' | '4' | '5' | '6' | '7' | '8' | '9' => PushDigit
    case '.' => PrintInt
    case ',' => PrintChar
    case '&' => AskNum
    case '~' => AskChar
    case _ => NoOp
  }

  /** A byte falls through to the catch-all exactly when it is not one of the
      opcodes. */
  lemma DecodeCatchAll(b: byte)
    ensures Decode(b) == NoOp <==> b as char !in Opcodes
  {
  }

  /** Exactly the ten bytes of the ASCII digits decode as a digit push. */
  lemma DecodeDigit(b: byte)
    ensures Decode(b) == PushDigit <==> '0' as int <= b <= '9' as int
  {
  }

  /** A digit cell pushes `op - '0'`, computed on the whole cell and not on its low
      byte, and that never overflows `i32`: the cells just above `i32::MIN`
      all have low bytes below `'0'`. */
  lemma DigitFits(op: int32)
    requires '0' as int <= LowByte(op) <= '9' as int
    ensures InInt32(op - '0' as int)
  {
  }

  /** What `print_int` and `print` write: a number in decimal, or one byte. */
  datatype Output = Number(value: int32) | Character(code: byte)

  /** How many steps in direction `d` stay on the grid from `c`: it bounds every
      walk the pointer makes in one direction. */
  function Remaining(g: Grid, c: Coord, d: Direction): nat {
    if !InGrid(g, c) then 0
    else match d
      case Right => |g[c.y]| - c.x
      case Left => c.x + 1
      case Down => |g| - c.y
      case Up => c.y + 1
  }

  /** From `c` on, walking in direction `d`, a `"` is met before leaving the grid
      (or before the pointer would underflow). */
  predicate Closed(g: Grid, c: Coord, d: Direction)
    decreases Remaining(g, c, d)
  {
    InGrid(g, c) && (At(g, c) == Quote || (CanAdvance(c, d) && Closed(g, Advance(c, d), d)))
  }

  /** String mode from cell `c` on: the cells read before the next `"`. */
  function StringCells(g: Grid, c: Coord, d: Direction): seq<int32>
    requires Closed(g, c, d)
    decreases Remaining(g, c, d)
  {
    if At(g, c) == Quote then [] else [At(g, c)] + StringCells(g, Advance(c, d), d)
  }

  /** String mode from cell `c` on: where the next `"` is. */
  function StringEnd(g: Grid, c: Coord, d: Direction): (r: Coord)
    requires Closed(g, c, d)
    ensures InGrid(g, r) && At(g, r) == Quote
    decreases Remaining(g, c, d)
  {
    if At(g, c) == Quote then c else StringEnd(g, Advance(c, d), d)
  }

  /** Walking `k` steps after one step is walking `k + 1` steps. */
  lemma WalkAfterAdvance(c: Coord, d: Direction, k: nat)
    requires CanAdvance(c, d) && CanWalk(Advance(c, d), d, k)
    ensures CanWalk(c, d, k + 1) && Walk(Advance(c, d), d, k) == Walk(c, d, k + 1)
  {
    match d
    case Left =>
    case Down =>
    case Up =>
    case Right =>
  }

  /** String mode pushes, in traversal order, exactly the cells strictly before the
      first `"` it meets, and that `"` lies one step past them. */
  lemma {:induction false} StringScanCells(g: Grid, c: Coord, d: Direction)
    requires Closed(g, c, d)
    ensures var cells := StringCells(g, c, d);
      CanWalk(c, d, |cells|) && StringEnd(g, c, d) == Walk(c, d, |cells|) &&
      forall k :: 0 <= k < |cells| ==>
        CanWalk(c, d, k) && InGrid(g, Walk(c, d, k)) &&
        cells[k] == At(g, Walk(c, d, k)) && cells[k] != Quote
    decreases Remaining(g, c, d)
  {
    if At(g, c) != Quote {
      var next := Advance(c, d);
      StringScanCells(g, next, d);
      var cells := StringCells(g, c, d);
      var rest := StringCells(g, next, d);
      assert cells == [At(g, c)] + rest;
      WalkAfterAdvance(c, d, |rest|);
      forall k | 0 <= k < |cells|
        ensures CanWalk(c, d, k) && InGrid(g, Walk(c, d, k))
        ensures cells[k] == At(g, Walk(c, d, k)) && cells[k] != Quote
      {
        if k > 0 {
          WalkAfterAdvance(c, d, k - 1);
          assert cells[k] == rest[k - 1];
        }
      }
    }
  }

  /** `x` is popped first, then `y`, then (for `put`) the value. */
  function Target(s: seq<int32>): Coord
    requires Peek(s, 0) >= 0 && Peek(s, 1) >= 0
  {
    Coord(Peek(s, 0), Peek(s, 1))
  }

  /** The popped coordinates are non-negative (a negative `i32 as usize` would be
      out of range) and inside the grid. */
  predicate TargetInGrid(g: Grid, s: seq<int32>) {
    Peek(s, 0) >= 0 && Peek(s, 1) >= 0 && InGrid(g, Target(s))
  }

  /** The whole state of the machine. */
  datatype State = State(
    grid: Grid,
    ptr: Coord,
    dir: Direction,
    stack: seq<int32>,
    halted: bool,
    input: seq<byte>,
    output: seq<Output>)

  /** `Vm::new`: start at the origin heading right with an empty stack. */
  function Initial(grid: Grid, input: seq<byte>): State {
    State(grid, Origin, Right, [], false, input, [])
  }

  /** The cell under the pointer. */
  function Current(s: State): int32
    requires InGrid(s.grid, s.ptr)
  {
    At(s.grid, s.ptr)
  }

  /** The opcode under the pointer. */
  function CurrentInstr(s: State): Instr
    requires InGrid(s.grid, s.ptr)
  {
    Decode(LowByte(Current(s)))
  }

  /** The handler of the current opcode would not panic. */
  predicate HandlerDefined(s: State)
    requires InGrid(s.grid, s.ptr)
  {
    match CurrentInstr(s)
    case StringMode => CanAdvance(s.ptr, s.dir) && Closed(s.grid, Advance(s.ptr, s.dir), s.dir)
    case Bridge => CanAdvance(s.ptr, s.dir)
    case Arithmetic(op) => NoPanic(op, Peek(s.stack, 1), Peek(s.stack, 0))
    case PutCell => |s.stack| >= 3 ==> TargetInGrid(s.grid, s.stack)
    case GetCell => |s.stack| >= 2 ==> TargetInGrid(s.grid, s.stack)
    case _ => true
  }

  /** The stack after an opcode that touches nothing else; `cell` is the cell under
      the pointer, whose value a digit pushes. */
  function StackEffect(ins: Instr, cell: int32, st: seq<int32>): seq<int32>
    requires ins.IsStackOp()
    requires ins.Arithmetic? ==> NoPanic(ins.op, Peek(st, 1), Peek(st, 0))
    requires ins.PushDigit? ==> '0' as int <= LowByte(cell) <= '9' as int
  {
    match ins
    case DuplicateTop => Duplicate(st)
    case SwapTop => Swap(st)
    case DiscardTop => Discard(st)
    case Arithmetic(op) => Binary(op, st)
    case LogicalNot => Not(st)
    case PushDigit =>
      DigitFits(cell);
      st + [cell - '0' as int]
  }

  /** The handler of the current opcode, before the pointer's final step. No
      handler resizes the grid. */
  function Execute(s: State, roll: nat): (r: State)
    requires InGrid(s.grid, s.ptr) && roll < 4 && HandlerDefined(s)
    ensures SameShape(r.grid, s.grid)
  {
    match CurrentInstr(s)
    case SetDirection(d) => s.(dir := d)
    case RandomDirection => s.(dir := SampleDirection(roll))
    case BranchHorizontal =>
      s.(dir := if Peek(s.stack, 0) == 0 then Right else Left, stack := Discard(s.stack))
    case BranchVertical =>
      s.(dir := if Peek(s.stack, 0) == 0 then Down else Up, stack := Discard(s.stack))
    case StringMode =>
      var start := Advance(s.ptr, s.dir);
      s.(stack := s.stack + StringCells(s.grid, start, s.dir), ptr := StringEnd(s.grid, start, s.dir))
    case Bridge => s.(ptr := Advance(s.ptr, s.dir))
    case Quit => s.(halted := true)
    case DuplicateTop | SwapTop | DiscardTop | Arithmetic(_) | LogicalNot | PushDigit =>
      s.(stack := StackEffect(CurrentInstr(s), Current(s), s.stack))
    case PutCell =>
      if |s.stack| < 3 then s.(halted := true)
      else s.(grid := Store(s.grid, Target(s.stack), Peek(s.stack, 2)), stack := s.stack[..|s.stack| - 3])
    case GetCell =>
      if |s.stack| < 2 then s.(halted := true)
      else s.(stack := s.stack[..|s.stack| - 2] + [At(s.grid, Target(s.stack))])
    case PrintInt =>
      if s.stack == [] then s.(halted := true)
      else s.(stack := Discard(s.stack), output := s.output + [Number(Peek(s.stack, 0))])
    case PrintChar =>
      if s.stack == [] then s.(halted := true)
      else s.(stack := Discard(s.stack), output := s.output + [Character(LowByte(Peek(s.stack, 0)))])
    case AskNum =>
      var (b, rest) := NextByte(s.input);
      s.(stack := s.stack + [b], input := rest)
    case AskChar =>
      var (b, rest) := NextByte(s.input);
      s.(stack := s.stack + [b], input := rest)
    case NoOp => s
  }

  /** A cycle can run without panicking: the machine is running, the pointer is on
      the grid, the handler is defined, and the final step does not underflow. */
  predicate CanStep(s: State, roll: nat) {
    !s.halted && roll < 4 && InGrid(s.grid, s.ptr) && HandlerDefined(s) &&
    var m := Execute(s, roll);
    m.halted || CanAdvance(m.ptr, m.dir)
  }

  /** One `cycle`: run the handler, then, unless it exited, step once in the
      (possibly new) current direction. A cycle that exits changes nothing else,
      not even the pointer; a cycle reads at most one byte and prints at most one
      value. */
  function Step(s: State, roll: nat): (t: State)
    requires CanStep(s, roll)
    ensures t.halted ==> t == s.(halted := true)
    ensures t.input == s.input || (s.input != [] && t.input == s.input[1..])
    ensures t.output == s.output || (|t.output| == |s.output| + 1 && t.output[..|s.output|] == s.output)
  {
    var m := Execute(s, roll);
    if m.halted then m else m.(ptr := Advance(m.ptr, m.dir))
  }

  /** The grid is never resized: `put` changes one cell's content only. */
  lemma StepKeepsShape(s: State, roll: nat)
    requires CanStep(s, roll)
    ensures SameShape(Step(s, roll).grid, s.grid)
  {
    if CurrentInstr(s) != PutCell || |s.stack| < 3 {
      assert Step(s, roll).grid == s.grid;
    }
  }

  /** Opcodes other than string mode and the bridge leave the pointer where it is,
      so a cycle that does not exit moves it exactly one step, in the direction the
      opcode left. */
  lemma StepMovesOnce(s: State, roll: nat)
    requires CanStep(s, roll)
    requires CurrentInstr(s) != StringMode && CurrentInstr(s) != Bridge
    requires !Step(s, roll).halted
    ensures CanAdvance(s.ptr, Step(s, roll).dir)
    ensures Step(s, roll).ptr == Advance(s.ptr, Step(s, roll).dir)
  {
  }

  /** An unrecognised cell changes nothing but the pointer, which takes one step. */
  lemma StepNoOp(s: State, roll: nat)
    requires CanStep(s, roll) && CurrentInstr(s) == NoOp
    ensures Step(s, roll) == s.(ptr := Advance(s.ptr, s.dir))
  {
  }

  /** A digit cell pushes `cell - '0'` and moves on; it cannot panic. */
  lemma StepDigit(s: State, roll: nat)
    requires !s.halted && roll < 4 && InGrid(s.grid, s.ptr) && CanAdvance(s.ptr, s.dir)
    requires CurrentInstr(s) == PushDigit
    ensures CanStep(s, roll)
    ensures Step(s, roll) == s.(ptr := Advance(s.ptr, s.dir), stack := s.stack + [Current(s) - '0' as int])
  {
  }

  /** Successive cycles, the `k`-th with roll `rolls[k]`, as the driver calls
      `cycle` over and over. The run stops early at a cycle that cannot run: one
      after an exit, or one the Rust code would panic on. */
  function Run(s: State, rolls: seq<nat>): State
    decreases |rolls|
  {
    if rolls == [] || !CanStep(s, rolls[0]) then s else Run(Step(s, rolls[0]), rolls[1..])
  }

  /** A cell whose low byte is an ASCII digit. */
  predicate DigitCell(v: int32) {
    '0' as int <= LowByte(v) <= '9' as int
  }

  /** Every cell of `cells` is a digit cell. */
  predicate AllDigits(cells: seq<int32>) {
    cells == [] || (DigitCell(cells[0]) && AllDigits(cells[1..]))
  }

  /** The values a row of digit cells pushes, in order. */
  function DigitValues(cells: seq<int32>): seq<int32>
    requires AllDigits(cells)
  {
    if cells == [] then []
    else
      DigitFits(cells[0]);
      [cells[0] - '0' as int] + DigitValues(cells[1..])
  }

  /** The `k`-th value pushed is the `k`-th cell less `'0'`. */
  lemma {:induction false} DigitValuesAt(cells: seq<int32>, k: nat)
    requires AllDigits(cells) && k < |cells|
    ensures |DigitValues(cells)| == |cells|
    ensures DigitValues(cells)[k] == cells[k] - '0' as int
    decreases k
  {
    if k == 0 {
      DigitValuesLength(cells);
    } else {
      DigitValuesAt(cells[1..], k - 1);
    }
  }

  lemma {:induction false} DigitValuesLength(cells: seq<int32>)
    requires AllDigits(cells)
    ensures |DigitValues(cells)| == |cells|
    decreases |cells|
  {
    if cells != [] {
      DigitValuesLength(cells[1..]);
    }
  }

  /** The `n` cells from the pointer rightward. */
  function RowAhead(s: State, n: nat): seq<int32>
    requires s.ptr.y < |s.grid| && s.ptr.x + n <= |s.grid[s.ptr.y]|
  {
    s.grid[s.ptr.y][s.ptr.x..s.ptr.x + n]
  }

  /** The state `n` digit cycles heading right lead to: the pointer `n` cells on
      and the digits' values pushed. */
  function AfterDigits(s: State, n: nat): State
    requires s.ptr.y < |s.grid| && s.ptr.x + n <= |s.grid[s.ptr.y]| && AllDigits(RowAhead(s, n))
  {
    s.(ptr := Coord(s.ptr.x + n, s.ptr.y), stack := s.stack + DigitValues(RowAhead(s, n)))
  }

  /** The first cycle over a digit cell heading right, as `Run` sees it. */
  lemma RunDigitFirst(s: State, rolls: seq<nat>)
    requires !s.halted && s.dir == Right && rolls != [] && rolls[0] < 4
    requires InGrid(s.grid, s.ptr) && DigitCell(Current(s))
    ensures InInt32(Current(s) - '0' as int)
    ensures Run(s, rolls) ==
      Run(s.(ptr := Coord(s.ptr.x + 1, s.ptr.y), stack := s.stack + [Current(s) - '0' as int]), rolls[1..])
  {
    DigitFits(Current(s));
    var t := s.(ptr := Coord(s.ptr.x + 1, s.ptr.y), stack := s.stack + [Current(s) - '0' as int]);
    assert CanStep(s, rolls[0]) && Step(s, rolls[0]) == t by {
      DecodeDigit(LowByte(Current(s)));
      StepDigit(s, rolls[0]);
    }
  }

  /** The row ahead of the pointer is its cell followed by the row ahead of the
      next cell, so the state after `n` digits is the state after the other
      `n - 1`, taken from the state after the first. */
  lemma AheadFirst(s: State, n: nat)
    requires 0 < n && s.ptr.y < |s.grid| && s.ptr.x + n <= |s.grid[s.ptr.y]|
    requires AllDigits(RowAhead(s, n))
    ensures DigitCell(Current(s)) && InInt32(Current(s) - '0' as int)
    ensures var t := s.(ptr := Coord(s.ptr.x + 1, s.ptr.y), stack := s.stack + [Current(s) - '0' as int]);
      RowAhead(t, n - 1) == RowAhead(s, n)[1..] &&
      AllDigits(RowAhead(t, n - 1)) && AfterDigits(t, n - 1) == AfterDigits(s, n)
  {
    var cells := RowAhead(s, n);
    assert cells[0] == Current(s);
    DigitFits(Current(s));
    var t := s.(ptr := Coord(s.ptr.x + 1, s.ptr.y), stack := s.stack + [Current(s) - '0' as int]);
    assert cells[1..] == RowAhead(t, n - 1);
    assert t.stack + DigitValues(cells[1..]) == s.stack + DigitValues(cells);
  }

  /** Heading right over `n` digit cells, `n` cycles push the digits' values in
      program order and leave the pointer just past the last of them; nothing
      else changes. */
  lemma {:induction false} RunDigits(s: State, rolls: seq<nat>)
    requires !s.halted && s.dir == Right
    requires forall k :: 0 <= k < |rolls| ==> rolls[k] < 4
    requires s.ptr.y < |s.grid| && s.ptr.x + |rolls| <= |s.grid[s.ptr.y]|
    requires AllDigits(RowAhead(s, |rolls|))
    ensures Run(s, rolls) == AfterDigits(s, |rolls|)
    decreases |rolls|
  {
    if rolls == [] {
      assert s.ptr == Coord(s.ptr.x + 0, s.ptr.y);
    } else {
      AheadFirst(s, |rolls|);
      var t := s.(ptr := Coord(s.ptr.x + 1, s.ptr.y), stack := s.stack + [Current(s) - '0' as int]);
      RunDigitFirst(s, rolls);
      RunDigits(t, rolls[1..]);
    }
  }

  /** `_` pops one value (0 if there is none): on 0 it heads right, otherwise left;
      `|` likewise heads down or up. A non-empty stack loses exactly its top. */
  lemma StepBranch(s: State, roll: nat)
    requires CanStep(s, roll)
    requires CurrentInstr(s) == BranchHorizontal || CurrentInstr(s) == BranchVertical
    ensures var t := Step(s, roll);
      (CurrentInstr(s) == BranchHorizontal ==> (t.dir == Right <==> Peek(s.stack, 0) == 0) && (t.dir == Right || t.dir == Left)) &&
      (CurrentInstr(s) == BranchVertical ==> (t.dir == Down <==> Peek(s.stack, 0) == 0) && (t.dir == Down || t.dir == Up)) &&
      |t.stack| == (if s.stack == [] then 0 else |s.stack| - 1) &&
      t.stack == s.stack[..|t.stack|] &&
      t.ptr == Advance(s.ptr, t.dir)
  {
  }

  /** The bridge skips the next cell: the pointer ends two steps further on. */
  lemma StepBridge(s: State, roll: nat)
    requires CanStep(s, roll) && CurrentInstr(s) == Bridge
    ensures CanWalk(s.ptr, s.dir, 2) && Step(s, roll).ptr == Walk(s.ptr, s.dir, 2)
    ensures Step(s, roll).stack == s.stack && Step(s, roll).grid == s.grid
  {
    WalkStep(s.ptr, s.dir, 0);
    WalkStep(s.ptr, s.dir, 1);
  }

  /** String mode pushes the cells strictly between the opening `"` and the next
      `"`, in traversal order, and the cycle's own step then moves past the closing
      `"`. */
  lemma StepString(s: State, roll: nat)
    requires CanStep(s, roll) && CurrentInstr(s) == StringMode
    ensures var start := Advance(s.ptr, s.dir);
      var end := StringEnd(s.grid, start, s.dir);
      CanAdvance(end, s.dir) &&
      Step(s, roll) == s.(stack := s.stack + StringCells(s.grid, start, s.dir), ptr := Advance(end, s.dir))
  {
  }

  /** `"Hi"` on one row pushes `'H'` then `'i'` and leaves the pointer just past the
      closing quote. */
  lemma StringExample()
    ensures var s := Initial([[Quote, 'H' as int, 'i' as int, Quote]], []);
      CanStep(s, 0) &&
      Step(s, 0).stack == ['H' as int, 'i' as int] && Step(s, 0).ptr == Coord(4, 0)
  {
    ScanHi([[Quote, 'H' as int, 'i' as int, Quote]]);
  }

  /** The scan of `StringExample`, from the cell after the opening quote. */
  lemma ScanHi(g: Grid)
    requires g == [[Quote, 'H' as int, 'i' as int, Quote]]
    ensures Closed(g, Coord(1, 0), Right)
    ensures StringCells(g, Coord(1, 0), Right) == ['H' as int, 'i' as int]
    ensures StringEnd(g, Coord(1, 0), Right) == Coord(3, 0)
  {
    assert At(g, Coord(3, 0)) == Quote && Closed(g, Coord(3, 0), Right);
    assert StringCells(g, Coord(3, 0), Right) == [];
    assert StringEnd(g, Coord(3, 0), Right) == Coord(3, 0);
    assert Advance(Coord(2, 0), Right) == Coord(3, 0);
    assert At(g, Coord(2, 0)) == 'i' as int && Closed(g, Coord(2, 0), Right);
    assert StringCells(g, Coord(2, 0), Right) == ['i' as int];
    assert Advance(Coord(1, 0), Right) == Coord(2, 0);
    assert At(g, Coord(1, 0)) == 'H' as int && Closed(g, Coord(1, 0), Right);
    assert StringCells(g, Coord(1, 0), Right) == ['H' as int] + ['i' as int];
  }

  /** `put` and `get` exit when the stack holds too few values (3 and 2): unlike
      the other opcodes they do not default to 0. Otherwise `put` writes the third
      value at (top, second) and changes no other cell, and `get` replaces the two
      coordinates with the cell's value, leaving the grid as it was. */
  lemma StepPutGet(s: State, roll: nat)
    requires CanStep(s, roll)
    requires CurrentInstr(s) == PutCell || CurrentInstr(s) == GetCell
    ensures CurrentInstr(s) == PutCell ==>
      (Step(s, roll).halted <==> |s.stack| < 3) &&
      (|s.stack| >= 3 ==>
        var c := Coord(s.stack[|s.stack| - 1], s.stack[|s.stack| - 2]);
        InGrid(s.grid, c) &&
        At(Step(s, roll).grid, c) == s.stack[|s.stack| - 3] &&
        (forall e :: InGrid(s.grid, e) && e != c ==> At(Step(s, roll).grid, e) == At(s.grid, e)) &&
        Step(s, roll).stack == s.stack[..|s.stack| - 3])
    ensures CurrentInstr(s) == GetCell ==>
      (Step(s, roll).halted <==> |s.stack| < 2) &&
      (|s.stack| >= 2 ==>
        var c := Coord(s.stack[|s.stack| - 1], s.stack[|s.stack| - 2]);
        InGrid(s.grid, c) &&
        Step(s, roll).grid == s.grid &&
        Step(s, roll).stack == s.stack[..|s.stack| - 2] + [At(s.grid, c)])
  {
  }

  /** `print_int` and `print` exit on an empty stack instead of printing a 0. */
  lemma StepPrint(s: State, roll: nat)
    requires CanStep(s, roll)
    requires CurrentInstr(s) == PrintInt || CurrentInstr(s) == PrintChar
    ensures Step(s, roll).halted <==> s.stack == []
    ensures s.stack != [] ==>
      Step(s, roll).stack == s.stack[..|s.stack| - 1] &&
      Step(s, roll).output == s.output + [
        if CurrentInstr(s) == PrintInt then Number(s.stack[|s.stack| - 1])
        else Character(LowByte(s.stack[|s.stack| - 1]))]
  {
  }

  /** `&` and `~` push the next input byte, or 0 at end of input, without failing. */
  lemma StepAsk(s: State, roll: nat)
    requires CanStep(s, roll)
    requires CurrentInstr(s) == AskNum || CurrentInstr(s) == AskChar
    ensures s.input == [] ==> Step(s, roll).stack == s.stack + [0] && Step(s, roll).input == []
    ensures s.input != [] ==> Step(s, roll).stack == s.stack + [s.input[0]] && Step(s, roll).input == s.input[1..]
  {
  }

  /** A `put` followed directly by a `get` of the same coordinates reads back the
      value just written, wherever that cell lies, the `g` cell itself included. */
  lemma PutThenGet(s: State, rolls: seq<nat>, rest: seq<int32>, v: int32, x: int32, y: int32)
    requires |rolls| == 2 && CanStep(s, rolls[0])
    requires s.stack == rest + [y, x, v, y, x]
    requires CurrentInstr(s) == PutCell
    requires x >= 0 && y >= 0
    requires var t := Step(s, rolls[0]); InGrid(t.grid, t.ptr) && CurrentInstr(t) == GetCell && CanStep(t, rolls[1])
    ensures var t := Step(Step(s, rolls[0]), rolls[1]); t.stack == rest + [v]
  {
    var s1 := Step(s, rolls[0]);
    var c := Coord(x, y);
    assert s1.stack == rest + [y, x];
    assert At(s1.grid, c) == v;
    var s2 := Step(s1, rolls[1]);
    assert s2.stack == rest + [At(s1.grid, c)];
  }

  /** The running machine: the fields of `Vm`, updated in place. */
  class Vm {
    var grid: Grid
    var ptr: Coord
    var dir: Direction
    var stack: seq<int32>
    var halted: bool
    var input: seq<byte>
    var output: seq<Output>

    function Snapshot(): State
      reads this
    {
      State(grid, ptr, dir, stack, halted, input, output)
    }

    /** `Vm::new(grid)`, with the bytes stdin will deliver. */
    constructor (grid: Grid, input: seq<byte>)
      ensures Snapshot() == Initial(grid, input)
    {
      this.grid := grid;
      ptr := Origin;
      dir := Right;
      stack := [];
      halted := false;
      this.input := input;
      output := [];
    }

    /** `cycle`: dispatch on the low byte of the current cell, then take one step
        unless the handler exited. `roll` is the outcome of `rand::random()` for `?`.
        The dispatch is split along the groups of the source's `match`: flow
        control, stack, and I/O with the catch-all. */
    method Cycle(roll: nat)
      requires CanStep(Snapshot(), roll)
      modifies this
      ensures Snapshot() == Step(old(Snapshot()), roll)
    {
      var op := grid[ptr.y][ptr.x];
      var ins := Decode(LowByte(op));
      if ins.IsFlowControl() {
        FlowControl(ins, roll);
      } else if ins.IsStackOp() {
        StackOp(ins, op);
      } else if ins.IsGridOp() {
        GridOp(ins, roll);
      } else {
        InputOutput(ins, roll);
      }
      if !halted {
        ptr := Advance(ptr, dir);
      }
    }

    /** The handlers of `> < ^ v ? _ | " # @`. */
    method FlowControl(ins: Instr, roll: nat)
      requires InGrid(grid, ptr) && roll < 4 && HandlerDefined(Snapshot())
      requires ins == CurrentInstr(Snapshot()) && ins.IsFlowControl()
      modifies this
      ensures Snapshot() == Execute(old(Snapshot()), roll)
    {
      match ins {
        case SetDirection(d) => dir := d;
        case RandomDirection => dir := SampleDirection(roll);
        case BranchHorizontal => RightIf();
        case BranchVertical => DownIf();
        case StringMode => String();
        case Bridge => Bridge();
        case Quit => Quit();
      }
    }

    /** The handlers of `: \ $ + - * / % ! `` and the digits. */
    method StackOp(ins: Instr, op: int32)
      requires ins.IsStackOp()
      requires ins.Arithmetic? ==> NoPanic(ins.op, Peek(stack, 1), Peek(stack, 0))
      requires ins.PushDigit? ==> '0' as int <= LowByte(op) <= '9' as int
      modifies this`stack
      ensures stack == StackEffect(ins, op, old(stack))
    {
      match ins {
        case DuplicateTop => Duplicate();
        case SwapTop => Swap();
        case DiscardTop => Delete();
        case Arithmetic(o) => Arithmetic(o);
        case LogicalNot => Not();
        case PushDigit =>
          DigitFits(op);
          Push(op - '0' as int);
      }
    }

    /** The handlers of `p g`. */
    method GridOp(ins: Instr, roll: nat)
      requires InGrid(grid, ptr) && roll < 4 && HandlerDefined(Snapshot())
      requires ins == CurrentInstr(Snapshot()) && ins.IsGridOp()
      modifies this
      ensures Snapshot() == Execute(old(Snapshot()), roll)
    {
      match ins {
        case PutCell => Put();
        case GetCell => Get();
      }
    }

    /** The handlers of `. , & ~`, and the catch-all that does nothing. */
    method InputOutput(ins: Instr, roll: nat)
      requires InGrid(grid, ptr) && roll < 4 && HandlerDefined(Snapshot())
      requires ins == CurrentInstr(Snapshot()) && !ins.IsFlowControl() && !ins.IsStackOp() && !ins.IsGridOp()
      modifies this
      ensures Snapshot() == Execute(old(Snapshot()), roll)
    {
      match ins {
        case PrintInt => PrintInt();
        case PrintChar => Print();
        case AskNum => AskNum();
        case AskChar => AskChar();
        case NoOp =>
      }
    }

    /** `stack.pop().unwrap_or(0)`. */
    method PopOrZero() returns (v: int32)
      modifies this`stack
      ensures (v, stack) == Pop(old(stack))
    {
      if stack == [] {
        v := 0;
      } else {
        v := stack[|stack| - 1];
        stack := stack[..|stack| - 1];
      }
    }

    method Push(v: int32)
      modifies this`stack
      ensures stack == old(stack) + [v]
    {
      stack := stack + [v];
    }

    /** `_`: pop; right on 0, left otherwise. */
    method RightIf()
      modifies this`stack, this`dir
      ensures dir == (if Peek(old(stack), 0) == 0 then Right else Left)
      ensures stack == Discard(old(stack))
    {
      var v := PopOrZero();
      if v == 0 {
        dir := Right;
      } else {
        dir := Left;
      }
    }

    /** `|`: pop; down on 0, up otherwise. */
    method DownIf()
      modifies this`stack, this`dir
      ensures dir == (if Peek(old(stack), 0) == 0 then Down else Up)
      ensures stack == Discard(old(stack))
    {
      var v := PopOrZero();
      if v == 0 {
        dir := Down;
      } else {
        dir := Up;
      }
    }

    /** `"`: step off the opening quote, then push cells and step until a `"`;
        the pointer is left on the closing quote. */
    method String()
      requires CanAdvance(ptr, dir) && Closed(grid, Advance(ptr, dir), dir)
      modifies this`ptr, this`stack
      ensures stack == old(stack) + StringCells(grid, Advance(old(ptr), dir), dir)
      ensures ptr == StringEnd(grid, Advance(old(ptr), dir), dir)
    {
      ptr := Advance(ptr, dir);
      ghost var start := ptr;
      while At(grid, ptr) != Quote
        invariant Closed(grid, ptr, dir)
        invariant StringEnd(grid, ptr, dir) == StringEnd(grid, start, dir)
        invariant stack + StringCells(grid, ptr, dir) == old(stack) + StringCells(grid, start, dir)
        decreases Remaining(grid, ptr, dir)
      {
        Push(At(grid, ptr));
        ptr := Advance(ptr, dir);
      }
    }

    /** `#`: one extra step, so the cycle's own step lands two cells on. */
    method Bridge()
      requires CanAdvance(ptr, dir)
      modifies this`ptr
      ensures ptr == Advance(old(ptr), dir)
    {
      ptr := Advance(ptr, dir);
    }

    /** `@`: `std::process::exit(0)`. */
    method Quit()
      modifies this`halted
      ensures halted
    {
      halted := true;
    }

    /** `:`. */
    method Duplicate()
      modifies this`stack
      ensures stack == BefungeStack.Duplicate(old(stack))
    {
      var v := PopOrZero();
      Push(v);
      Push(v);
    }

    /** `\`: pop `a`, pop `b`, push `a`, then `b`, so that the two exchange places,
        as the doc comment promises. The Rust method pushes them back in the order
        it found them (`SwapAsWritten`); the machine runs the corrected swap. */
    method Swap()
      modifies this`stack
      ensures stack == BefungeStack.Swap(old(stack))
    {
      var v1 := PopOrZero();
      var v2 := PopOrZero();
      Push(v1);
      Push(v2);
    }

    /** `$`. */
    method Delete()
      modifies this`stack
      ensures stack == Discard(old(stack))
    {
      var _ := PopOrZero();
    }

    /** `+ - * / %` and `` ` ``: pop `a`, pop `b`, push the result. */
    method Arithmetic(op: BinOp)
      requires NoPanic(op, Peek(stack, 1), Peek(stack, 0))
      modifies this`stack
      ensures stack == Binary(op, old(stack))
    {
      var a := PopOrZero();
      var b := PopOrZero();
      CombineFits(op, b, a);
      Push(Combine(op, b, a));
    }

    /** `!`. */
    method Not()
      modifies this`stack
      ensures stack == BefungeStack.Not(old(stack))
    {
      var v := PopOrZero();
      if v == 0 {
        Push(1);
      } else {
        Push(0);
      }
    }

    /** `p`: exit if fewer than three values; otherwise pop `x`, `y`, `v` and write
        `v` into cell `(x, y)`. */
    method Put()
      requires |stack| >= 3 ==> TargetInGrid(grid, stack)
      modifies this`stack, this`grid, this`halted
      ensures |old(stack)| < 3 ==> halted && stack == old(stack) && grid == old(grid)
      ensures |old(stack)| >= 3 ==>
        halted == old(halted) && stack == old(stack)[..|old(stack)| - 3] &&
        grid == Store(old(grid), Target(old(stack)), Peek(old(stack), 2))
    {
      if |stack| < 3 {
        halted := true;
        return;
      }
      var x := PopOrZero();
      var y := PopOrZero();
      var v := PopOrZero();
      grid := Store(grid, Coord(x, y), v);
    }

    /** `g`: exit if fewer than two values; otherwise pop `x`, `y` and push the
        value of cell `(x, y)`. */
    method Get()
      requires |stack| >= 2 ==> TargetInGrid(grid, stack)
      modifies this`stack, this`halted
      ensures |old(stack)| < 2 ==> halted && stack == old(stack)
      ensures |old(stack)| >= 2 ==>
        halted == old(halted) && stack == old(stack)[..|old(stack)| - 2] + [At(grid, Target(old(stack)))]
    {
      if |stack| < 2 {
        halted := true;
        return;
      }
      var x := PopOrZero();
      var y := PopOrZero();
      Push(At(grid, Coord(x, y)));
    }

    /** `.`: exit on an empty stack, otherwise pop and print the number. */
    method PrintInt()
      modifies this`stack, this`halted, this`output
      ensures old(stack) == [] ==> halted && stack == [] && output == old(output)
      ensures old(stack) != [] ==>
        halted == old(halted) && stack == Discard(old(stack)) &&
        output == old(output) + [Number(Peek(old(stack), 0))]
    {
      if |stack| < 1 {
        halted := true;
        return;
      }
      var v := PopOrZero();
      output := output + [Number(v)];
    }

    /** `,`: exit on an empty stack, otherwise pop and print the low byte. */
    method Print()
      modifies this`stack, this`halted, this`output
      ensures old(stack) == [] ==> halted && stack == [] && output == old(output)
      ensures old(stack) != [] ==>
        halted == old(halted) && stack == Discard(old(stack)) &&
        output == old(output) + [Character(LowByte(Peek(old(stack), 0)))]
    {
      if |stack| < 1 {
        halted := true;
        return;
      }
      var v := PopOrZero();
      output := output + [Character(LowByte(v))];
    }

    /** `&`: prints a prompt (not modelled), then reads one byte exactly as `~`. */
    method AskNum()
      modifies this`stack, this`input
      ensures (stack, input) == (old(stack) + [NextByte(old(input)).0], NextByte(old(input)).1)
    {
      AskChar();
    }

    /** `~`: push the next input byte, or 0 at end of input. */
    method AskChar()
      modifies this`stack, this`input
      ensures (stack, input) == (old(stack) + [NextByte(old(input)).0], NextByte(old(input)).1)
    {
      var b: byte := 0;
      if input != [] {
        b := input[0];
        input := input[1..];
      }
      Push(b);
    }
  }
}
