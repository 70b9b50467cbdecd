/** The Brainfuck virtual machine: a program of characters, an instruction pointer
    into it, a memory pointer into the tape, and the tape itself. One `cycle`
    runs the command under the instruction pointer; every character other than
    the eight commands is a comment that is stepped over.

    The value-level `Step` is the specification of `Vm.Cycle`. stdin becomes a
    sequence of bytes (end of input reads as 0) and stdout a log of the bytes
    written. What the Rust code would panic on (indexing past the program,
    `i32` overflow of the memory pointer or of the slot computation, `usize`
    underflow in the backward scan) is excluded by the precondition `CanCycle`. */
module Brainfuck {
  import opened BrainfuckTape
  import opened RustInts
  import opened Stdin

  /** `wrapping_add(1)` on `i8`: one more, modulo 256 in the `i8` range. */
  function WrapInc(v: int8): (r: int8)
    ensures (r - v - 1) % 256 == 0
  {
    if v == 127 then -128 else v + 1
  }

  /** `wrapping_sub(1)` on `i8`: one less, modulo 256 in the `i8` range. */
  function WrapDec(v: int8): (r: int8)
    ensures (r - v + 1) % 256 == 0
  {
    if v == -128 then 127 else v - 1
  }

  /** Increment and decrement undo each other on every cell value, across the
      wrap as well: `127 + 1` is `-128` and `-128 - 1` is `127`. */
  lemma WrapInverse(v: int8)
    ensures WrapDec(WrapInc(v)) == v && WrapInc(WrapDec(v)) == v
    ensures WrapInc(127) == -128 && WrapDec(-128) == 127
  {
  }

  /** `b as i8`: the byte reinterpreted in two's complement. */
  function ToInt8(b: byte): (v: int8)
    ensures (v - b) % 256 == 0
  {
    if b < 128 then b else b - 256
  }

  /** `v as u8`: the cell reinterpreted as an unsigned byte. */
  function ToByte(v: int8): (b: byte)
    ensures (b - v) % 256 == 0
  {
    if v >= 0 then v else v + 256
  }

  /** The two casts are inverse bijections, so a byte read by `,` is written back
      unchanged by `.`. */
  lemma CastRoundTrip(b: byte, v: int8)
    ensures ToByte(ToInt8(b)) == b
    ensures ToInt8(ToByte(v)) == v
  {
  }

  /** How a character moves the bracket depth: `[` opens, `]` closes. */
  function Weight(c: char): int {
    if c == '[' then 1 else if c == ']' then -1 else 0
  }

  /** Opened minus closed brackets in `p[i..j]`: the `matching` counter of the
      scans. */
  function Depth(p: seq<char>, i: nat, j: nat): int
    requires i <= j <= |p|
    decreases j - i
  {
    if i == j then 0 else Depth(p, i, j - 1) + Weight(p[j - 1])
  }

  /** Depth is additive over adjacent ranges. */
  lemma {:induction false} DepthAdd(p: seq<char>, i: nat, j: nat, k: nat)
    requires i <= j <= k <= |p|
    ensures Depth(p, i, k) == Depth(p, i, j) + Depth(p, j, k)
    decreases k - j
  {
    if j < k {
      DepthAdd(p, i, j, k - 1);
    }
  }

  /** The `[` at `i` and the `]` at `j` match: the depth counted from `i` stays
      positive through `p[..j]` and first returns to 0 at `j`. */
  predicate Matched(p: seq<char>, i: nat, j: nat) {
    i < j < |p| && Depth(p, i, j + 1) == 0 &&
    forall m :: i < m <= j ==> Depth(p, i, m) > 0
  }

  /** A matched pair is an opening and a closing bracket. */
  lemma MatchedBrackets(p: seq<char>, i: nat, j: nat)
    requires Matched(p, i, j)
    ensures p[i] == '[' && p[j] == ']'
  {
    assert Depth(p, i, i + 1) > 0;
    assert Depth(p, i, j) > 0;
  }

  /** A `[` matches at most one `]`. */
  lemma MatchedUniqueClose(p: seq<char>, i: nat, j: nat, k: nat)
    requires Matched(p, i, j) && Matched(p, i, k)
    ensures j == k
  {
  }

  /** A `]` matches at most one `[`. */
  lemma MatchedUniqueOpen(p: seq<char>, i: nat, k: nat, j: nat)
    requires Matched(p, i, j) && Matched(p, k, j)
    ensures i == k
  {
    if i < k {
      DepthAdd(p, i, k, j + 1);
    } else if k < i {
      DepthAdd(p, k, i, j + 1);
    }
  }

  /** The state in which the backward scan stops: the depth counted back from `j`
      first returns to 0 at `i`. It is the same pair as the forward one. */
  lemma MatchedFromSuffix(p: seq<char>, i: nat, j: nat, e: nat)
    requires i < j < |p| && e == j + 1 && Depth(p, i, e) == 0
    requires forall m :: i < m <= j ==> Depth(p, m, e) < 0
    ensures Matched(p, i, j)
  {
    forall m | i < m <= j
      ensures Depth(p, i, m) > 0
    {
      DepthAdd(p, i, m, e);
    }
  }

  /** Searching forward from a `[` at `i`: if the brackets from `i` to the end do
      not open more than they close, a matching `]` exists. */
  lemma {:induction false} CloseExists(p: seq<char>, i: nat, m: nat)
    requires i < m <= |p| && Depth(p, i, |p|) <= 0
    requires forall n :: i < n <= m ==> Depth(p, i, n) > 0
    ensures exists j :: Matched(p, i, j)
    decreases |p| - m
  {
    if Depth(p, i, m + 1) == 0 {
      assert Matched(p, i, m);
    } else {
      CloseExists(p, i, m + 1);
    }
  }

  /** Where `jump_right` leaves the pointer's scan: the `]` matching the `[` at `i`. */
  ghost function MatchingClose(p: seq<char>, i: nat): (j: nat)
    requires i < |p| && p[i] == '[' && Depth(p, i, |p|) <= 0
    ensures Matched(p, i, j)
  {
    assert Depth(p, i, i + 1) == 1;
    CloseExists(p, i, i + 1);
    var j :| Matched(p, i, j);
    j
  }

  /** Searching backward from a `]` at `j`: if no prefix up to `j` closes more than
      it opens, a matching `[` exists. */
  lemma {:induction false} OpenExists(p: seq<char>, j: nat, e: nat, m: nat)
    requires m <= j < |p| && e == j + 1 && Depth(p, 0, e) >= 0
    requires forall n :: m <= n <= j ==> Depth(p, n, e) < 0
    ensures exists i :: Matched(p, i, j)
    decreases m
  {
    DepthAdd(p, m - 1, m, e);
    assert Depth(p, m - 1, m) == Weight(p[m - 1]);
    if Depth(p, m - 1, e) == 0 {
      MatchedFromSuffix(p, m - 1, j, e);
    } else {
      OpenExists(p, j, e, m - 1);
    }
  }

  /** Where `jump_left` leaves the pointer: the `[` matching the `]` at `j`. */
  ghost function MatchingOpen(p: seq<char>, j: nat): (i: nat)
    requires j < |p| && p[j] == ']' && Depth(p, 0, j + 1) >= 0
    ensures Matched(p, i, j)
  {
    assert Depth(p, j, j + 1) == -1;
    OpenExists(p, j, j + 1, j);
    var i :| Matched(p, i, j);
    i
  }

  /** The two searches agree: from the `]` that matches a `[`, the backward search
      finds that same `[`, and conversely. */
  lemma MatchingRoundTrip(p: seq<char>, i: nat, j: nat)
    requires Matched(p, i, j)
    ensures p[i] == '[' && p[j] == ']'
    ensures Depth(p, i, |p|) <= 0 ==> MatchingClose(p, i) == j
    ensures Depth(p, 0, j + 1) >= 0 ==> MatchingOpen(p, j) == i
  {
    MatchedBrackets(p, i, j);
    if Depth(p, i, |p|) <= 0 {
      MatchedUniqueClose(p, i, j, MatchingClose(p, i));
    }
    if Depth(p, 0, j + 1) >= 0 {
      MatchedUniqueOpen(p, i, MatchingOpen(p, j), j);
    }
  }

  /** Every prefix opens at least as many brackets as it closes, and the whole
      program closes all it opens. */
  predicate Balanced(p: seq<char>) {
    Depth(p, 0, |p|) == 0 && forall k :: 0 <= k <= |p| ==> Depth(p, 0, k) >= 0
  }

  /** In a balanced program both scans find their partner, from every bracket. */
  lemma BalancedScans(p: seq<char>, i: nat)
    requires Balanced(p) && i < |p|
    ensures p[i] == '[' ==> Depth(p, i, |p|) <= 0
    ensures p[i] == ']' ==> Depth(p, 0, i + 1) >= 0
  {
    DepthAdd(p, 0, i, |p|);
    assert Depth(p, 0, i) >= 0;
    assert Depth(p, 0, i + 1) >= 0;
  }

  /** The whole state of the machine. */
  datatype State = State(ip: nat, mp: int32, cells: seq<int8>, input: seq<byte>, output: seq<byte>)

  /** `Vm::new`: both pointers at 0, an empty tape. */
  function Initial(input: seq<byte>): State {
    State(0, 0, [], input, [])
  }

  /** The instruction pointer has left the program: the state `finished()` reports. */
  predicate PastEnd(p: seq<char>, s: State) {
    s.ip >= |p|
  }

  /** A cycle can run without panicking: the program is not finished, the moved
      memory pointer stays an `i32` and a tape access stays addressable. For a
      jump that scans, the depth condition is sufficient for the scan to find its
      partner bracket (`CloseExists`, `OpenExists`) but not necessary: the forward
      scan of `[][[` from index 0 stops at index 1 all the same. Every balanced
      program meets it (`BalancedCanCycle`). */
  predicate CanCycle(p: seq<char>, s: State) {
    !PastEnd(p, s) &&
    match p[s.ip]
    case '>' => s.mp < 0x7fff_ffff
    case '<' => s.mp > -0x8000_0000
    case '[' => Addressable(s.mp) && (Read(s.cells, s.mp) == 0 ==> Depth(p, s.ip, |p|) <= 0)
    case ']' => Addressable(s.mp) && (Read(s.cells, s.mp) != 0 ==> Depth(p, 0, s.ip + 1) >= 0)
    case '+' | '-' | '.' | ',' => Addressable(s.mp)
    case _ => true
  }

  /** One `cycle`. The instruction pointer always moves, and never beyond one past
      the end of the program; the memory pointer moves by at most one; at most one
      byte is read and at most one written. */
  ghost function Step(p: seq<char>, s: State): (t: State)
    requires CanCycle(p, s)
    ensures t.ip != s.ip && t.ip <= |p|
    ensures -1 <= t.mp - s.mp <= 1
    ensures t.input == s.input || (s.input != [] && t.input == s.input[1..])
    ensures t.output == s.output || (|t.output| == |s.output| + 1 && t.output[..|s.output|] == s.output)
  {
    var next := s.ip + 1;
    match p[s.ip]
    case '>' => s.(mp := s.mp + 1, ip := next)
    case '<' => s.(mp := s.mp - 1, ip := next)
    case '+' => s.(cells := Written(s.cells, s.mp, WrapInc(Read(s.cells, s.mp))), ip := next)
    case '-' => s.(cells := Written(s.cells, s.mp, WrapDec(Read(s.cells, s.mp))), ip := next)
    case '.' => s.(output := s.output + [ToByte(Read(s.cells, s.mp))], ip := next)
    case ',' =>
      var (b, rest) := NextByte(s.input);
      s.(cells := Written(s.cells, s.mp, ToInt8(b)), input := rest, ip := next)
    case '[' => if Read(s.cells, s.mp) != 0 then s.(ip := next) else s.(ip := MatchingClose(p, s.ip) + 1)
    case ']' => if Read(s.cells, s.mp) == 0 then s.(ip := next) else s.(ip := MatchingOpen(p, s.ip))
    case _ => s.(ip := next)
  }

  /** `>` and `<` move the memory pointer by one and nothing else; a comment
      character only advances the instruction pointer. */
  lemma StepMove(p: seq<char>, s: State)
    requires CanCycle(p, s)
    requires Weight(p[s.ip]) == 0 && p[s.ip] !in {'+', '-', '.', ','}
    ensures var t := Step(p, s);
      t.ip == s.ip + 1 && t.cells == s.cells && t.input == s.input && t.output == s.output &&
      t.mp == s.mp + (if p[s.ip] == '>' then 1 else if p[s.ip] == '<' then -1 else 0)
  {
  }

  /** `+` and `-` change the cell under the memory pointer by one, wrapping in
      `i8`, and no other cell reads differently. */
  lemma StepCell(p: seq<char>, s: State, j: int)
    requires CanCycle(p, s) && (p[s.ip] == '+' || p[s.ip] == '-')
    requires Addressable(j)
    ensures var t := Step(p, s);
      t.ip == s.ip + 1 && t.mp == s.mp &&
      (p[s.ip] == '+' ==> Read(t.cells, s.mp) == WrapInc(Read(s.cells, s.mp))) &&
      (p[s.ip] == '-' ==> Read(t.cells, s.mp) == WrapDec(Read(s.cells, s.mp))) &&
      (j != s.mp ==> Read(t.cells, j) == Read(s.cells, j))
  {
    var v := Read(s.cells, s.mp);
    ReadAfterWrite(s.cells, s.mp, if p[s.ip] == '+' then WrapInc(v) else WrapDec(v), j);
  }

  /** `,` stores the next input byte as an `i8` (0 at end of input) in the current
      cell; `.` appends the current cell as a byte to the output and changes no cell. */
  lemma StepIo(p: seq<char>, s: State, j: int)
    requires CanCycle(p, s) && (p[s.ip] == ',' || p[s.ip] == '.')
    requires Addressable(j)
    ensures var t := Step(p, s);
      t.ip == s.ip + 1 && t.mp == s.mp &&
      (p[s.ip] == ',' ==>
        Read(t.cells, s.mp) == (if s.input == [] then 0 else ToInt8(s.input[0])) &&
        (j != s.mp ==> Read(t.cells, j) == Read(s.cells, j)) &&
        t.input == (if s.input == [] then [] else s.input[1..])) &&
      (p[s.ip] == '.' ==> t.cells == s.cells && t.output == s.output + [ToByte(Read(s.cells, s.mp))])
  {
    if p[s.ip] == ',' {
      ReadAfterWrite(s.cells, s.mp, ToInt8(NextByte(s.input).0), j);
    }
  }

  /** `[` on a zero cell lands one past its matching `]`, and `]` on a non-zero
      cell lands on its matching `[` itself; otherwise both just advance. */
  lemma StepJump(p: seq<char>, s: State, i: nat, j: nat)
    requires Matched(p, i, j)
    requires s.ip == i || s.ip == j
    requires CanCycle(p, s)
    ensures p[i] == '[' && p[j] == ']'
    ensures var t := Step(p, s);
      t.cells == s.cells && t.mp == s.mp &&
      (s.ip == i ==> t.ip == if Read(s.cells, s.mp) == 0 then j + 1 else i + 1) &&
      (s.ip == j ==> t.ip == if Read(s.cells, s.mp) != 0 then i else j + 1)
  {
    MatchingRoundTrip(p, i, j);
  }

  /** Each bracket of a balanced program can be executed from any state whose
      memory pointer is addressable. */
  lemma BalancedCanCycle(p: seq<char>, s: State)
    requires Balanced(p) && s.ip < |p| && Addressable(s.mp)
    requires p[s.ip] == '[' || p[s.ip] == ']'
    ensures CanCycle(p, s)
  {
    BalancedScans(p, s.ip);
  }

  /** The running machine: the fields of `Vm`, updated in place. */
  class Vm {
    const instructions: seq<char>
    var ip: nat
    const tape: Tape
    var mp: int32
    var input: seq<byte>
    var output: seq<byte>

    function Snapshot(): State
      reads this, tape
    {
      State(ip, mp, tape.vec, input, output)
    }

    /** `Vm::new(instructions)`, with the bytes stdin will deliver. */
    constructor (instructions: seq<char>, input: seq<byte>)
      ensures this.instructions == instructions && fresh(tape)
      ensures Snapshot() == Initial(input)
    {
      this.instructions := instructions;
      ip := 0;
      tape := new Tape();
      mp := 0;
      this.input := input;
      output := [];
    }

    /** `finished()`: the query the driver asks before each `cycle`, which must not
        run on a finished machine. */
    function Finished(): (r: bool)
      reads this, tape
      ensures r <==> PastEnd(instructions, Snapshot())
      ensures r ==> !CanCycle(instructions, Snapshot())
    {
      ip >= |instructions|
    }

    /** `cycle`: run the command under the instruction pointer. */
    method Cycle()
      requires CanCycle(instructions, Snapshot())
      modifies this, tape
      ensures Snapshot() == Step(instructions, old(Snapshot()))
    {
      match instructions[ip] {
        case '>' => Right();
        case '<' => Left();
        case '+' => Increment();
        case '-' => Decrement();
        case '.' => Output();
        case ',' => Input();
        case '[' => JumpRight();
        case ']' => JumpLeft();
        case _ => ip := ip + 1;
      }
    }

    /** `>`. */
    method Right()
      requires mp < 0x7fff_ffff
      modifies this`mp, this`ip
      ensures mp == old(mp) + 1 && ip == old(ip) + 1
    {
      mp := mp + 1;
      ip := ip + 1;
    }

    /** `<`. */
    method Left()
      requires mp > -0x8000_0000
      modifies this`mp, this`ip
      ensures mp == old(mp) - 1 && ip == old(ip) + 1
    {
      mp := mp - 1;
      ip := ip + 1;
    }

    /** `+`: the cell is reached through `IndexMut`, so the tape grows first. */
    method Increment()
      requires Addressable(mp)
      modifies this`ip, tape
      ensures tape.vec == Written(old(tape.vec), mp, WrapInc(Read(old(tape.vec), mp)))
      ensures ip == old(ip) + 1
    {
      var k := tape.IndexMut(mp);
      GrownReads(old(tape.vec), k, mp);
      tape.Store(k, WrapInc(tape.vec[k]));
      ip := ip + 1;
    }

    /** `-`. */
    method Decrement()
      requires Addressable(mp)
      modifies this`ip, tape
      ensures tape.vec == Written(old(tape.vec), mp, WrapDec(Read(old(tape.vec), mp)))
      ensures ip == old(ip) + 1
    {
      var k := tape.IndexMut(mp);
      GrownReads(old(tape.vec), k, mp);
      tape.Store(k, WrapDec(tape.vec[k]));
      ip := ip + 1;
    }

    /** `.`: write the cell as a byte; a read through `Index` does not grow the tape. */
    method Output()
      requires Addressable(mp)
      modifies this`output, this`ip
      ensures output == old(output) + [ToByte(Read(tape.vec, mp))]
      ensures ip == old(ip) + 1
    {
      output := output + [ToByte(Read(tape.vec, mp))];
      ip := ip + 1;
    }

    /** `,`: store the next input byte, or 0 at end of input. */
    method Input()
      requires Addressable(mp)
      modifies this`input, this`ip, tape
      ensures tape.vec == Written(old(tape.vec), mp, ToInt8(NextByte(old(input)).0))
      ensures input == NextByte(old(input)).1
      ensures ip == old(ip) + 1
    {
      var b: byte := 0;
      if input != [] {
        b := input[0];
        input := input[1..];
      }
      var k := tape.IndexMut(mp);
      tape.Store(k, ToInt8(b));
      ip := ip + 1;
    }

    /** `[`: on a non-zero cell advance; on a zero cell scan forward, counting
        depth, to the matching `]` and land one past it. */
    method JumpRight()
      requires ip < |instructions| && instructions[ip] == '[' && Addressable(mp)
      requires Read(tape.vec, mp) == 0 ==> Depth(instructions, ip, |instructions|) <= 0
      modifies this`ip
      ensures Read(tape.vec, mp) != 0 ==> ip == old(ip) + 1
      ensures Read(tape.vec, mp) == 0 ==> ip == MatchingClose(instructions, old(ip)) + 1
    {
      if Read(tape.vec, mp) != 0 {
        ip := ip + 1;
        return;
      }
      ghost var start := ip;
      var matching := 1;
      while true
        invariant start <= ip < |instructions|
        invariant matching == Depth(instructions, start, ip + 1) >= 1
        invariant forall m :: start < m <= ip + 1 ==> Depth(instructions, start, m) > 0
        decreases |instructions| - ip
      {
        ip := ip + 1;
        if instructions[ip] == '[' {
          matching := matching + 1;
        }
        if instructions[ip] == ']' {
          matching := matching - 1;
          if matching == 0 {
            break;
          }
        }
      }
      MatchedUniqueClose(instructions, start, ip, MatchingClose(instructions, start));
      ip := ip + 1;
    }

    /** `]`: on a zero cell advance; on a non-zero cell scan backward, counting
        depth, to the matching `[` and land on it. */
    method JumpLeft()
      requires ip < |instructions| && instructions[ip] == ']' && Addressable(mp)
      requires Read(tape.vec, mp) != 0 ==> Depth(instructions, 0, ip + 1) >= 0
      modifies this`ip
      ensures Read(tape.vec, mp) == 0 ==> ip == old(ip) + 1
      ensures Read(tape.vec, mp) != 0 ==> ip == MatchingOpen(instructions, old(ip))
    {
      if Read(tape.vec, mp) == 0 {
        ip := ip + 1;
        return;
      }
      ghost var end, stop := ip, ip + 1;
      var matching := 1;
      while true
        invariant ip <= end < |instructions|
        invariant matching == -Depth(instructions, ip, stop) >= 1
        invariant forall m :: ip <= m <= end ==> Depth(instructions, m, stop) < 0
        decreases ip
      {
        ip := ip - 1;
        DepthAdd(instructions, ip, ip + 1, stop);
        assert Depth(instructions, ip, ip + 1) == Weight(instructions[ip]);
        if instructions[ip] == ']' {
          matching := matching + 1;
        }
        if instructions[ip] == '[' {
          matching := matching - 1;
          if matching == 0 {
            break;
          }
        }
      }
      MatchedFromSuffix(instructions, ip, end, stop);
      MatchedUniqueOpen(instructions, ip, MatchingOpen(instructions, end), end);
    }
  }
}
