/** The evaluation stack of the Befunge-93 VM: a `Vec<i32>` whose ordinary pops
    default to 0 when it is empty, and the stack effects of the opcodes that only
    touch it (duplicate, swap, discard, arithmetic, logical not, greater-than).
    Rust's truncating `/` and `%` are written out, since Dafny's are Euclidean. */
module BefungeStack {
  import opened RustInts

  function Abs(x: int): nat {
    if x < 0 then -x else x
  }

  /** The `k`-th value from the top (0 is the top), or 0 when the stack holds at most
      `k` values: the view of the stack as an endless reservoir of zeros. */
  function Peek(s: seq<int32>, k: nat): int32 {
    if k < |s| then s[|s| - 1 - k] else 0
  }

  /** `stack.pop().unwrap_or(0)`: the value taken and the stack left behind. */
  function Pop(s: seq<int32>): (r: (int32, seq<int32>))
    ensures s == [] ==> r == (0, [])
    ensures s != [] ==> s == r.1 + [r.0]
    ensures r.0 == Peek(s, 0)
  {
    if s == [] then (0, []) else (s[|s| - 1], s[..|s| - 1])
  }

  /** Rust's `/`: the quotient rounded toward zero. Its magnitude is the quotient of
      the magnitudes, and it is negative only when the operands' signs differ. */
  function Quot(b: int, a: int): (q: int)
    requires a != 0
    ensures Abs(q) == Abs(b) / Abs(a)
    ensures q < 0 ==> (b < 0) != (a < 0)
    ensures q > 0 ==> (b < 0) == (a < 0)
  {
    var m: int := Abs(b) / Abs(a);
    QuotientNonNegative(Abs(b), Abs(a));
    if (b < 0) == (a < 0) then m else -m
  }

  lemma QuotientNonNegative(m: nat, n: nat)
    requires n > 0
    ensures m / n >= 0
  {
  }

  /** Rust's `%`: the remainder takes the sign of the dividend `b` and is smaller
      than the divisor in magnitude. */
  function Rem(b: int, a: int): (r: int)
    requires a != 0
    ensures Abs(r) < Abs(a)
    ensures r < 0 ==> b < 0
    ensures r > 0 ==> b > 0
  {
    if b < 0 then -(Abs(b) % Abs(a)) else b % Abs(a)
  }

  /** `%` is the remainder of `/`: the two together reconstruct the dividend. */
  lemma QuotRem(b: int, a: int)
    requires a != 0
    ensures Quot(b, a) * a + Rem(b, a) == b
  {
    var m: int, n: int := Abs(b), Abs(a);
    assert m == (m / n) * n + m % n;
    if b < 0 && a < 0 {
      assert Quot(b, a) * a == (m / n) * (-n);
    } else if b < 0 {
      assert Quot(b, a) * a == -(m / n) * n;
    } else if a < 0 {
      assert Quot(b, a) * a == -(m / n) * (-n);
    }
  }

  /** The binary opcodes: each pops `a`, then `b`, and pushes one value. */
  datatype BinOp = Add | Sub | Mul | Div | Mod | Greater

  /** The value each binary opcode pushes, in unbounded arithmetic. */
  function Combine(op: BinOp, b: int, a: int): int
    requires (op == Div || op == Mod) ==> a != 0
  {
    match op
    case Add => a + b
    case Sub => b - a
    case Mul => b * a
    case Div => Quot(b, a)
    case Mod => Rem(b, a)
    case Greater => if b > a then 1 else 0
  }

  /** Where Rust does not panic: no division or remainder by zero, no `i32::MIN / -1`
      nor `i32::MIN % -1`, no overflowing `+`, `-` or `*`. */
  predicate NoPanic(op: BinOp, b: int, a: int) {
    if op == Div || op == Mod then a != 0 && InInt32(Quot(b, a))
    else InInt32(Combine(op, b, a))
  }

  /** `add`, `sub`, `mul`, `div`, `modulo` and `greater_than`: pop `a`, pop `b`
      (0 for each that is missing), push the result; the values below stay. */
  function Binary(op: BinOp, s: seq<int32>): (r: seq<int32>)
    requires NoPanic(op, Peek(s, 1), Peek(s, 0))
    ensures |r| == if |s| >= 2 then |s| - 1 else 1
    ensures r[..|r| - 1] == s[..|r| - 1]
    ensures r[|r| - 1] == Combine(op, Peek(s, 1), Peek(s, 0))
  {
    var rest := if |s| >= 2 then s[..|s| - 2] else [];
    CombineFits(op, Peek(s, 1), Peek(s, 0));
    rest + [Combine(op, Peek(s, 1), Peek(s, 0))]
  }

  /** Every result Rust lets through is an `i32`. For `+ - * /` this is the
      definition of `NoPanic` itself, and `greater_than` pushes 0 or 1; only for
      `%` is there something to prove: the remainder is smaller than the divisor. */
  lemma CombineFits(op: BinOp, b: int32, a: int32)
    requires NoPanic(op, b, a)
    ensures InInt32(Combine(op, b, a))
  {
    if op == Mod {
      assert Abs(Rem(b, a)) < Abs(a) <= 0x8000_0000;
    }
  }

  /** `not`: pop a value (0 if missing), push 1 if it was 0 and 0 otherwise. */
  function Not(s: seq<int32>): (r: seq<int32>)
    ensures |r| == if s == [] then 1 else |s|
    ensures r[..|r| - 1] == s[..|r| - 1]
    ensures r[|r| - 1] == 0 || r[|r| - 1] == 1
    ensures r[|r| - 1] == 1 <==> Peek(s, 0) == 0
  {
    var (v, rest) := Pop(s);
    rest + [if v == 0 then 1 else 0]
  }

  /** `duplicate`: pop (0 if missing) and push the value twice, so an empty stack
      becomes `[0, 0]` and any other stack gains a copy of its top. */
  function Duplicate(s: seq<int32>): (r: seq<int32>)
    ensures s == [] ==> r == [0, 0]
    ensures s != [] ==> |r| == |s| + 1 && r[..|s|] == s && r[|s|] == s[|s| - 1]
  {
    var (v, rest) := Pop(s);
    rest + [v, v]
  }

  /** `delete`: drop the top value; an empty stack stays empty. */
  function Discard(s: seq<int32>): (r: seq<int32>)
    ensures s == [] ==> r == []
    ensures s != [] ==> r + [s[|s| - 1]] == s
  {
    Pop(s).1
  }

  /** Duplicating then discarding gives back the stack, except that an empty stack
      comes back as the single zero the duplicate defaulted to. */
  lemma DiscardUndoesDuplicate(s: seq<int32>)
    ensures Discard(Duplicate(s)) == if s == [] then [0] else s
  {
    if s != [] {
      assert Duplicate(s) == s + [s[|s| - 1]];
    }
  }

  /** Swap as the opcode is documented and as Befunge-93 defines it: pop `a`, pop `b`
      (0 for each that is missing), push `a`, then `b`. */
  function Swap(s: seq<int32>): (r: seq<int32>)
    ensures |r| == if |s| >= 2 then |s| else 2
    ensures r[..|r| - 2] == s[..|r| - 2]
    ensures r[|r| - 1] == Peek(s, 1) && r[|r| - 2] == Peek(s, 0)
  {
    var (a, s1) := Pop(s);
    var (b, s2) := Pop(s1);
    s2 + [a, b]
  }

  /** Swapping twice restores any stack of two or more values. */
  lemma SwapInvolution(s: seq<int32>)
    requires |s| >= 2
    ensures Swap(Swap(s)) == s
  {
    var r := Swap(Swap(s));
    assert r[..|s| - 2] == s[..|s| - 2];
    assert r == r[..|s| - 2] + [r[|s| - 2], r[|s| - 1]];
    assert s == s[..|s| - 2] + [s[|s| - 2], s[|s| - 1]];
  }

  /** Swap as `swap` is written: pop `v1`, pop `v2`, push `v2`, then `v1`. The top
      stays the top and the value below stays below. */
  function SwapAsWritten(s: seq<int32>): (r: seq<int32>)
    ensures |r| == if |s| >= 2 then |s| else 2
    ensures r[..|r| - 2] == s[..|r| - 2]
    ensures r[|r| - 1] == Peek(s, 0) && r[|r| - 2] == Peek(s, 1)
  {
    var (v1, s1) := Pop(s);
    var (v2, s2) := Pop(s1);
    s2 + [v2, v1]
  }

  /** As written, `swap` pushes the two values back in the order it found them, so
      every stack of two or more values is left exactly as it was. */
  lemma SwapAsWrittenKeepsOrder(s: seq<int32>)
    requires |s| >= 2
    ensures SwapAsWritten(s) == s
  {
    assert s == s[..|s| - 2] + [s[|s| - 2], s[|s| - 1]];
  }

  /** The smallest input that shows it: `[1, 2]` stays `[1, 2]` instead of becoming `[2, 1]`. */
  lemma SwapAsWrittenCounterexample()
    ensures SwapAsWritten([1, 2]) == [1, 2]
    ensures Swap([1, 2]) == [2, 1]
  {
  }

  /** Pushing `a` and `b`, adding, pushing `b` again and subtracting leaves `a`. */
  lemma SubUndoesAdd(s: seq<int32>, a: int32, b: int32)
    requires InInt32(a + b)
    ensures Binary(Sub, Binary(Add, s + [a, b]) + [b]) == s + [a]
  {
    var t := Binary(Add, s + [a, b]);
    assert t == s + [a + b];
    var u := Binary(Sub, t + [b]);
    assert u[..|u| - 1] == s;
  }

  /** Division truncates: `-7` then `2` then `/` leaves `-3`, and `%` leaves `-1`. */
  lemma DivisionTruncates()
    ensures Binary(Div, [-7, 2]) == [-3]
    ensures Binary(Mod, [-7, 2]) == [-1]
  {
  }
}
