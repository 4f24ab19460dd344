/** The QMC v1 byte transform: every byte of the stream is XORed with an
    entry of a 128-byte table chosen by the byte's absolute offset. */
module V1Cipher {
  import opened Bytes

  /** Offsets up to this value address the table directly; larger offsets
      are folded modulo this value (not modulo 0x8000). */
  const OffsetBoundary: nat := 0x7FFF

  /** Size of the XOR table. */
  const KeySize: nat := 128

  /** A table of exactly `KeySize` bytes (Rust `[u8; V1_KEY_SIZE]`). */
  type KeyTable = t: seq<byte> | |t| == KeySize witness seq(128, _ => 0)

  /** The offset after the fold at the boundary. */
  function EffectiveOffset(offset: nat): (e: nat)
    ensures offset <= OffsetBoundary ==> e == offset
    ensures OffsetBoundary < offset ==> e < OffsetBoundary && (offset - e) % OffsetBoundary == 0
  {
    if offset <= OffsetBoundary then offset else offset % OffsetBoundary
  }

  /** The table entry that addresses the byte at `offset`. */
  function TableIndex(offset: nat): (k: nat)
    ensures k < KeySize
  {
    EffectiveOffset(offset) % KeySize
  }

  /** `qmc1_transform`: the byte at absolute position `offset`, encrypted
      or decrypted. */
  function Transform(key: KeyTable, value: byte, offset: nat): (r: byte)
    ensures r ^ key[TableIndex(offset)] == value
  {
    value ^ key[TableIndex(offset)]
  }

  /** Applying the transform twice at the same offset is the identity. */
  lemma TransformInvolution(key: KeyTable, value: byte, offset: nat)
    ensures Transform(key, Transform(key, value, offset), offset) == value
  {
  }

  /** Past the boundary the transform only depends on the folded offset,
      and the folded offset is at most 0x7FFE. */
  lemma TransformFolds(key: KeyTable, value: byte, offset: nat)
    requires OffsetBoundary < offset
    ensures offset % OffsetBoundary <= 0x7FFE
    ensures Transform(key, value, offset) == Transform(key, value, offset % OffsetBoundary)
  {
  }

  /** Past the boundary the table is addressed with period 0x7FFF. */
  lemma TransformPeriodic(key: KeyTable, value: byte, offset: nat)
    requires OffsetBoundary < offset
    ensures Transform(key, value, offset + OffsetBoundary) == Transform(key, value, offset)
  {
    assert (offset + OffsetBoundary) % OffsetBoundary == offset % OffsetBoundary;
  }

  /** At the boundary: 0x7FFF still uses entry 127, and 0x8000 folds to
      offset 1 (entry 1), so entry 0 is skipped; a `% 0x8000` mask would
      have given entry 0. The offsets 0x7FFA..0x8004 of the boundary test
      use entries 122..127 and then 1..5. */
  lemma BoundaryIndices()
    ensures TableIndex(0x7FFF) == 127
    ensures TableIndex(0x8000) == 1 && TableIndex(0x8000) != 0x8000 % 0x8000 % KeySize
    ensures seq(11, i requires 0 <= i => TableIndex(0x7FFA + i)) == [122, 123, 124, 125, 126, 127, 1, 2, 3, 4, 5]
  {
  }
}
