/** The Rust integer types both interpreters use, as subset types of `int`. */
module RustInts {

  /** Rust's `u8`. */
  type byte = b: int | 0 <= b < 256

  /** Rust's `i8`. */
  type int8 = x: int | -128 <= x < 128

  const MinInt32: int := -0x8000_0000
  const MaxInt32: int := 0x7fff_ffff

  predicate InInt32(x: int) {
    MinInt32 <= x <= MaxInt32
  }

  /** Rust's `i32`. */
  type int32 = x: int | -0x8000_0000 <= x <= 0x7fff_ffff
}
