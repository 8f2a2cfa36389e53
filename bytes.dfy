/** Bytes as stored in a `Uint8Array`, and the fixed-width little-endian fields built from them. */
module Bytes {
  type byte = b: int | 0 <= b < 256

  /** `b[at..at + |s|]` holds the ASCII codes of the characters of `s`. */
  ghost predicate AsciiAt(b: seq<byte>, at: nat, s: string)
  {
    && at + |s| <= |b|
    && forall i :: 0 <= i < |s| ==> b[at + i] == s[i] as int
  }

  /** Unsigned little-endian value of two bytes. */
  function LE16(b0: byte, b1: byte): nat { b0 + 256 * b1 }

  /** Unsigned little-endian value of four bytes. */
  function LE32(b0: byte, b1: byte, b2: byte, b3: byte): nat
  {
    LE16(b0, b1) + 65536 * LE16(b2, b3)
  }
}
