/** Standard input as both interpreters read it: one byte at a time through
    `stdin().bytes().next()`, with end of input read as the byte 0. */
module Stdin {
  import opened RustInts

  /** `stdin().bytes().next().unwrap_or(Ok(0))`: the next byte, or 0 at end of input. */
  function NextByte(input: seq<byte>): (r: (byte, seq<byte>))
    ensures input == [] ==> r == (0, [])
    ensures input != [] ==> input == [r.0] + r.1
  {
    if input == [] then (0, []) else (input[0], input[1..])
  }
}
