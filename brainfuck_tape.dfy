/** The Brainfuck tape: a vector of `i8` cells addressed by any `i32`. Index `i`
    lives in slot `2i` when `i >= 0` and in slot `-2i - 1` when `i < 0`, so the
    tape is unbounded in both directions over a vector that only grows at its end.
    A read past the end yields 0 without touching the vector; a write first pads
    the vector with zeros up to the slot. */
module BrainfuckTape {
  import opened RustInts

  /** `i * 2` and `i * -2 - 1` fit an `i32` exactly for these indices; any other
      index overflows before the cast to `usize`. */
  predicate Addressable(i: int) {
    -0x4000_0000 < i < 0x4000_0000
  }

  /** The slot of index `i` in the vector: non-negative indices take the even
      slots, negative ones the odd slots. */
  function Slot(i: int): (k: nat)
    ensures k % 2 == 0 <==> i >= 0
    ensures Addressable(i) ==> k < 0x8000_0000
  {
    if i >= 0 then i * 2 else i * -2 - 1
  }

  /** The index stored in slot `k`: the inverse of `Slot`. */
  function IndexOf(k: nat): int {
    if k % 2 == 0 then k / 2 else -(k + 1) / 2
  }

  /** `Slot` is a bijection between the integers and the naturals, with `IndexOf`
      as its inverse on both sides. */
  lemma SlotBijection(i: int, k: nat)
    ensures IndexOf(Slot(i)) == i
    ensures Slot(IndexOf(k)) == k
  {
  }

  /** Distinct indices never share a slot. */
  lemma SlotInjective(i: int, j: int)
    requires i != j
    ensures Slot(i) != Slot(j)
  {
    SlotBijection(i, 0);
    SlotBijection(j, 0);
  }

  /** `Index<i32>`: the cell at index `i`, or 0 when its slot lies at or past the
      end of the vector. Reading through `Index` never grows the vector, yet it
      agrees with the cell `IndexMut` would grow the vector to reach. */
  function Read(vec: seq<int8>, i: int): (v: int8)
    requires Addressable(i)
    ensures v == Grown(vec, Slot(i))[Slot(i)]
  {
    if Slot(i) < |vec| then vec[Slot(i)] else 0
  }

  /** A fresh tape reads 0 at every index. */
  lemma ReadEmpty(i: int)
    requires Addressable(i)
    ensures Read([], i) == 0
  {
  }

  /** The vector after the growth step of `IndexMut<i32>` for slot `k`: unchanged
      when `k` is inside, otherwise padded with zeros to exactly `k + 1` cells. */
  function Grown(vec: seq<int8>, k: nat): (r: seq<int8>)
    ensures |r| == if k < |vec| then |vec| else k + 1
    ensures r[..|vec|] == vec
    ensures forall n :: |vec| <= n < |r| ==> r[n] == 0
  {
    if k < |vec| then vec else vec + seq(k + 1 - |vec|, _ => 0)
  }

  /** Growing never changes what any index reads. */
  lemma GrownReads(vec: seq<int8>, k: nat, j: int)
    requires Addressable(j)
    ensures Read(Grown(vec, k), j) == Read(vec, j)
  {
    var r := Grown(vec, k);
    if Slot(j) < |vec| {
      assert r[Slot(j)] == r[..|vec|][Slot(j)];
    }
  }

  /** `tape[i] = v`: `IndexMut` grows the vector to hold slot `Slot(i)`, and the
      returned cell is overwritten. */
  function Written(vec: seq<int8>, i: int, v: int8): (r: seq<int8>)
    requires Addressable(i)
    ensures |r| >= |vec| && |r| > Slot(i)
  {
    Grown(vec, Slot(i))[Slot(i) := v]
  }

  /** After writing `v` at `i`, index `i` reads `v` and every other index reads as
      before. */
  lemma ReadAfterWrite(vec: seq<int8>, i: int, v: int8, j: int)
    requires Addressable(i) && Addressable(j)
    ensures Read(Written(vec, i, v), i) == v
    ensures j != i ==> Read(Written(vec, i, v), j) == Read(vec, j)
  {
    if j != i {
      SlotInjective(i, j);
      GrownReads(vec, Slot(i), j);
    }
  }

  /** Writing back the value an index already reads changes no read, although the
      vector may have grown. */
  lemma WriteSameValue(vec: seq<int8>, i: int, j: int)
    requires Addressable(i) && Addressable(j)
    ensures Read(Written(vec, i, Read(vec, i)), j) == Read(vec, j)
  {
    ReadAfterWrite(vec, i, Read(vec, i), j);
  }

  /** The tape itself: its vector grows in place. */
  class Tape {
    var vec: seq<int8>

    /** `Tape::new`: an empty vector, so every index reads 0 (`ReadEmpty`). */
    constructor ()
      ensures vec == []
    {
      vec := [];
    }

    /** `IndexMut<i32>`: grow the vector with zeros until it holds slot
        `Slot(i)`, and return that slot as the mutable cell. */
    method IndexMut(i: int) returns (k: nat)
      requires Addressable(i)
      modifies this
      ensures k == Slot(i) && k < |vec|
      ensures vec == Grown(old(vec), k)
    {
      k := Slot(i);
      if k >= |vec| {
        vec := vec + seq(k - |vec| + 1, _ => 0);
      }
    }

    /** `*cell = v` through the reference `IndexMut` returned. */
    method Store(k: nat, v: int8)
      requires k < |vec|
      modifies this
      ensures vec == old(vec)[k := v]
    {
      vec := vec[k := v];
    }
  }
}
