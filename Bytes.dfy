/** Byte strings, the Rust `Option`/`Result` shapes and the fixed-width
    integer reads that the QMC footers and ciphers are built from. */
module Bytes {

  /** A Rust `u8`. Bit-vector operations give `^`, `<<` and `>>` with the
      same 8-bit truncation as Rust's wrapping operators. */
  type byte = bv8

  datatype Option<+T> = None | Some(value: T)

  datatype Result<+T, +E> = Ok(value: T) | Err(error: E)

  const U32Modulus: nat := 0x1_0000_0000
  const U64Max: nat := 0xFFFF_FFFF_FFFF_FFFF

  /** A value in `0..255` as a byte (counted up from zero, which the
      verifier handles more cheaply than a direct conversion). */
  function ByteOf(v: int): (b: byte)
    requires 0 <= v < 256
    ensures b as int == v
    decreases v
  {
    if v == 0 then 0 else ByteOf(v - 1) + 1
  }

  /** `s` ends with `suffix` (Rust's `strip_suffix` returns `Some`). */
  predicate HasSuffix(s: seq<byte>, suffix: seq<byte>)
  {
    |suffix| <= |s| && s[|s| - |suffix|..] == suffix
  }

  /** `byteorder::BE::read_u32`: the first byte is the most significant. */
  function ReadU32BE(b: seq<byte>): (x: nat)
    requires |b| == 4
    ensures x < U32Modulus
    ensures x / 0x100_0000 == b[0] as int && x % 256 == b[3] as int
  {
    ((b[0] as int * 256 + b[1] as int) * 256 + b[2] as int) * 256 + b[3] as int
  }

  /** `byteorder::LE::read_u32`: the first byte is the least significant. */
  function ReadU32LE(b: seq<byte>): (x: nat)
    requires |b| == 4
    ensures x < U32Modulus
    ensures x % 256 == b[0] as int && x / 0x100_0000 == b[3] as int
  {
    ReadU32BE([b[3], b[2], b[1], b[0]])
  }

  /** The four big-endian bytes of a `u32`; the writer side of `ReadU32BE`. */
  function U32BE(x: nat): (b: seq<byte>)
    requires x < U32Modulus
    ensures |b| == 4
  {
    var x1 := x / 256;
    var x2 := x1 / 256;
    [ByteOf(x2 / 256), ByteOf(x2 % 256), ByteOf(x1 % 256), ByteOf(x % 256)]
  }

  /** The four little-endian bytes of a `u32`. */
  function U32LE(x: nat): (b: seq<byte>)
    requires x < U32Modulus
    ensures |b| == 4
  {
    var be := U32BE(x);
    [be[3], be[2], be[1], be[0]]
  }

  lemma ReadU32BERoundTrip(x: nat)
    requires x < U32Modulus
    ensures ReadU32BE(U32BE(x)) == x
  {
    var x1 := x / 256;
    var x2 := x1 / 256;
    assert x == x1 * 256 + x % 256;
    assert x1 == x2 * 256 + x1 % 256;
    assert x2 == (x2 / 256) * 256 + x2 % 256;
  }

  lemma ReadU32LERoundTrip(x: nat)
    requires x < U32Modulus
    ensures ReadU32LE(U32LE(x)) == x
  {
    ReadU32BERoundTrip(x);
  }
}
