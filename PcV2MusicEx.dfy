/** `PcV2MusicEx::from_byte_slice`: the PC trailer ending in the magic
    `"musicex\0"` preceded by a little-endian `u32` version. Only version 1
    is known; its body parser, `musicex_v1::parse_v1`, is not part of this
    model and is taken as a parameter `parseV1`. */
module PcV2MusicEx {
  import opened Bytes
  import opened Footer

  const MusicExMagic: seq<byte> := [0x6D, 0x75, 0x73, 0x69, 0x63, 0x65, 0x78, 0x00]

  /** The version: the four bytes just before the magic. */
  function Version(buffer: seq<byte>): (v: nat)
    requires 12 <= |buffer|
    ensures v < U32Modulus
  {
    ReadU32LE(buffer[|buffer| - 12..|buffer| - 8])
  }

  /** `from_byte_slice`: at least 16 bytes, then the magic, then the
      version; version 1 hands the bytes before the version field to
      `parseV1`, any other version is an error rather than "no footer". */
  function Parse(parseV1: seq<byte> -> ParseResult, buffer: seq<byte>): (r: ParseResult)
    ensures |buffer| < 16 ==> r == Err(BufferTooSmall(16))
    ensures 16 <= |buffer| && !HasSuffix(buffer, MusicExMagic) ==> r == Ok(None)
    ensures 16 <= |buffer| && HasSuffix(buffer, MusicExMagic) && r == Ok(None) ==>
      Version(buffer) == 1 && parseV1(buffer[..|buffer| - 12]) == Ok(None)
  {
    if |buffer| < 16 then Err(BufferTooSmall(16))
    else if !HasSuffix(buffer, MusicExMagic) then Ok(None)
    else
      var version := Version(buffer);
      if version == 1 then parseV1(buffer[..|buffer| - 12])
      else Err(PCv2InvalidVersion(version))
  }

  /** The trailer for `body` and `version`: the body, the little-endian
      version and the magic. */
  function Trailer(body: seq<byte>, version: nat): (t: seq<byte>)
    requires version < U32Modulus
    ensures |t| == |body| + 12
  {
    body + U32LE(version) + MusicExMagic
  }

  /** A buffer of at least 16 bytes that ends in a trailer is recognised,
      and its version is the one written. */
  lemma TrailerFields(body: seq<byte>, version: nat)
    requires version < U32Modulus && 4 <= |body|
    ensures HasSuffix(Trailer(body, version), MusicExMagic)
    ensures Version(Trailer(body, version)) == version
    ensures Trailer(body, version)[..|body|] == body
  {
    var t := Trailer(body, version);
    assert t[|t| - 8..] == MusicExMagic;
    assert t[|t| - 12..|t| - 8] == U32LE(version);
    ReadU32LERoundTrip(version);
  }

  /** Version 1: the result is exactly what `parseV1` makes of the bytes
      before the version field. */
  lemma ParseVersionOne(parseV1: seq<byte> -> ParseResult, body: seq<byte>)
    requires 4 <= |body|
    ensures Parse(parseV1, Trailer(body, 1)) == parseV1(body)
  {
    TrailerFields(body, 1);
  }

  /** Any other version is rejected with that version, whatever the body
      holds. */
  lemma ParseOtherVersion(parseV1: seq<byte> -> ParseResult, body: seq<byte>, version: nat)
    requires 4 <= |body| && version < U32Modulus && version != 1
    ensures Parse(parseV1, Trailer(body, version)) == Err(PCv2InvalidVersion(version))
  {
    TrailerFields(body, version);
  }

  /** When the body parser never answers "no footer", neither does this
      parser once the magic is present: `Ok(None)` means exactly that the
      magic is missing. */
  lemma NoneOnlyWithoutMagic(parseV1: seq<byte> -> ParseResult, buffer: seq<byte>)
    requires forall body :: parseV1(body) != Ok(None)
    requires 16 <= |buffer|
    ensures Parse(parseV1, buffer) == Ok(None) <==> !HasSuffix(buffer, MusicExMagic)
  {
    if HasSuffix(buffer, MusicExMagic) && Version(buffer) == 1 {
      assert parseV1(buffer[..|buffer| - 12]) != Ok(None);
    }
  }
}
