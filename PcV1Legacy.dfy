/** `PcV1Legacy::from_byte_slice`: the legacy PC trailer, a NUL-padded key
    token followed by its little-endian `u32` length. There is no magic,
    so every buffer of at least 8 bytes is either accepted or rejected. */
module PcV1Legacy {
  import opened Bytes
  import opened Footer
  import opened FooterUtils

  /** `MAX_ALLOWED_EKEY_LEN`. */
  const MaxAllowedEKeyLen: nat := 0x500

  /** `take_while(|b| b != 0)`: the bytes before the first zero, or all of
      them. */
  function TakeUntilZero(s: seq<byte>): (r: seq<byte>)
    ensures |r| <= |s| && r == s[..|r|]
    ensures 0 !in r
    ensures |r| < |s| ==> s[|r|] == 0
    decreases |s|
  {
    if |s| == 0 || s[0] == 0 then [] else [s[0]] + TakeUntilZero(s[1..])
  }

  /** A zero-free token followed by a zero, or by nothing, is taken
      whole. */
  lemma {:induction false} TakeUntilZeroToken(token: seq<byte>, pad: seq<byte>)
    requires 0 !in token
    requires |pad| == 0 || pad[0] == 0
    ensures TakeUntilZero(token + pad) == token
    decreases |token|
  {
    if |token| == 0 {
      assert token + pad == pad;
    } else {
      assert token[0] in token;
      assert (token + pad)[1..] == token[1..] + pad;
      TakeUntilZeroToken(token[1..], pad);
      assert [token[0]] + token[1..] == token;
    }
  }

  /** The length the trailer declares in its last four bytes. */
  function DeclaredLength(buffer: seq<byte>): (len: nat)
    requires 4 <= |buffer|
    ensures len < U32Modulus
    ensures len % 256 == buffer[|buffer| - 4] as int
    ensures len / 0x100_0000 == buffer[|buffer| - 1] as int
  {
    ReadU32LE(buffer[|buffer| - 4..])
  }

  /** The checks on the region the declared length cuts out: the token
      is the region up to its first zero and must be base64. */
  function ParseRegion(region: seq<byte>): (r: ParseResult)
    ensures r != Ok(None)
    ensures r.Ok? ==>
      && r.value.value == Metadata(Some(TakeUntilZero(region)), |region| + 4, PCv1Legacy)
      && IsBase64(r.value.value.ekey.value)
    ensures r.Err? ==> r.error == PCv1EKeyInvalid
  {
    var ekey := TakeUntilZero(region);
    if !IsBase64(ekey) then Err(PCv1EKeyInvalid)
    else Ok(Some(Metadata(Some(ekey), |region| + 4, PCv1Legacy)))
  }

  /** `from_byte_slice`: at least 8 bytes, a declared length of at most
      `0x500` checked before the length is compared with the bytes in front
      of it, and a token of base64 characters. */
  function Parse(buffer: seq<byte>): (r: ParseResult)
    ensures r != Ok(None)
    ensures r == Err(BufferTooSmall(8)) <==> |buffer| < 8
    ensures 8 <= |buffer| && DeclaredLength(buffer) > MaxAllowedEKeyLen ==>
      r == Err(PCv1EKeyTooLarge(DeclaredLength(buffer)))
    ensures r.Ok? ==>
      && r.value.value.size == DeclaredLength(buffer) + 4 <= |buffer|
      && r.value.value.data == PCv1Legacy
      && r.value.value.ekey.Some?
      && IsBase64(r.value.value.ekey.value)
      && |r.value.value.ekey.value| <= MaxAllowedEKeyLen
  {
    if |buffer| < 8 then Err(BufferTooSmall(8))
    else
      var payload := buffer[..|buffer| - 4];
      var len := DeclaredLength(buffer);
      if len > MaxAllowedEKeyLen then Err(PCv1EKeyTooLarge(len))
      else if |payload| < len then Err(BufferTooSmall(len + 4))
      else ParseRegion(payload[|payload| - len..])
  }

  /** A declared length within the limit but longer than the bytes in
      front of the length field. */
  lemma ParseTooShort(buffer: seq<byte>)
    requires 8 <= |buffer| && DeclaredLength(buffer) <= MaxAllowedEKeyLen
    requires |buffer| - 4 < DeclaredLength(buffer)
    ensures Parse(buffer) == Err(BufferTooSmall(DeclaredLength(buffer) + 4))
  {
  }

  /** The trailer for `region`: the region and its little-endian length. */
  function Trailer(region: seq<byte>): (t: seq<byte>)
    requires |region| < U32Modulus
    ensures |t| == |region| + 4
  {
    region + U32LE(|region|)
  }

  /** A buffer of at least 8 bytes whose declared length, within the
      limit, is that of the bytes `region` in front of the length field
      parses as `region`. */
  lemma ParseCut(buffer: seq<byte>, region: seq<byte>)
    requires 8 <= |buffer| && 4 + |region| <= |buffer| && |region| <= MaxAllowedEKeyLen
    requires DeclaredLength(buffer) == |region|
    requires buffer[|buffer| - 4 - |region|..|buffer| - 4] == region
    ensures Parse(buffer) == ParseRegion(region)
  {
    var payload := buffer[..|buffer| - 4];
    assert payload[|payload| - |region|..] == region;
  }

  /** Whatever precedes a trailer, the token is read from exactly its
      region. */
  lemma ParseTrailer(prefix: seq<byte>, region: seq<byte>)
    requires |region| <= MaxAllowedEKeyLen && 8 <= |prefix| + |region| + 4
    ensures Parse(prefix + Trailer(region)) == ParseRegion(region)
  {
    TrailerFields(prefix, region);
    ReadU32LERoundTrip(|region|);
    ParseCut(prefix + Trailer(region), region);
  }

  /** Where the parts of a trailer sit at the end of a buffer. */
  lemma TrailerFields(prefix: seq<byte>, region: seq<byte>)
    requires |region| < U32Modulus
    ensures var b := prefix + Trailer(region);
      && b[|b| - 4..] == U32LE(|region|)
      && b[|b| - 4 - |region|..|b| - 4] == region
  {
    var b := prefix + Trailer(region);
    var n := |b|;
    assert b[n - 4..] == U32LE(|region|);
    assert b[n - 4 - |region|..n - 4] == region;
  }

  /** A base64 token holds no zero, so the zero padding ends it. */
  lemma Base64HasNoZero(token: seq<byte>)
    requires IsBase64(token)
    ensures 0 !in token
  {
  }

  /** A region that starts with a base64 token followed by a zero (or by
      nothing) yields that token. */
  lemma ParseRegionToken(region: seq<byte>, token: seq<byte>)
    requires IsBase64(token) && |token| <= |region| && region[..|token|] == token
    requires |token| == |region| || region[|token|] == 0
    ensures ParseRegion(region) == Ok(Some(Metadata(Some(token), |region| + 4, PCv1Legacy)))
  {
    Base64HasNoZero(token);
    TakeUntilZeroToken(token, region[|token|..]);
    assert token + region[|token|..] == region;
  }

  /** A trailer whose region is accepted yields that region's metadata,
      whatever precedes it. */
  lemma ParseTrailerAccepts(prefix: seq<byte>, region: seq<byte>, m: Metadata)
    requires |region| <= MaxAllowedEKeyLen && 8 <= |prefix| + |region| + 4
    requires ParseRegion(region) == Ok(Some(m))
    ensures Parse(prefix + Trailer(region)) == Ok(Some(m))
  {
    ParseTrailer(prefix, region);
  }

  /** Round trip: whatever precedes it, the trailer of a region of at
      most `0x500` bytes that starts with a base64 token followed by a zero
      (or by nothing) parses back to that token, with the size of the whole
      trailer. */
  lemma ParseRoundTrip(prefix: seq<byte>, region: seq<byte>, token: seq<byte>)
    requires IsBase64(token) && |token| <= |region| && region[..|token|] == token
    requires |token| == |region| || region[|token|] == 0
    requires |region| <= MaxAllowedEKeyLen && 8 <= |prefix| + |region| + 4
    ensures Parse(prefix + Trailer(region))
      == Ok(Some(Metadata(Some(token), |Trailer(region)|, PCv1Legacy)))
  {
    ParseRegionToken(region, token);
    ParseTrailerAccepts(prefix, region, Metadata(Some(token), |region| + 4, PCv1Legacy));
  }

  /** A token holding a byte outside the base64 alphabet (other than the
      terminating zero) is rejected. */
  lemma ParseInvalidToken(prefix: seq<byte>, token: seq<byte>, pad: seq<byte>, k: nat)
    requires 0 !in token && k < |token| && !IsBase64Chr(token[k])
    requires |pad| == 0 || pad[0] == 0
    requires |token| + |pad| <= MaxAllowedEKeyLen && 8 <= |prefix| + |token| + |pad| + 4
    ensures Parse(prefix + Trailer(token + pad)) == Err(PCv1EKeyInvalid)
  {
    TakeUntilZeroToken(token, pad);
    ParseTrailer(prefix, token + pad);
  }

  /** The limit is inclusive: a declared length of `0x500` is not too
      large, `0x501` is, whatever the buffer holds. */
  lemma LimitBoundary(prefix: seq<byte>)
    requires 4 <= |prefix|
    ensures Parse(prefix + [0x01, 0x05, 0x00, 0x00]) == Err(PCv1EKeyTooLarge(0x501))
    ensures Parse(prefix + [0x00, 0x05, 0x00, 0x00]) != Err(PCv1EKeyTooLarge(0x500))
  {
    var b1 := prefix + [0x01, 0x05, 0x00, 0x00];
    assert b1[|b1| - 4..] == [0x01, 0x05, 0x00, 0x00];
    var b0 := prefix + [0x00, 0x05, 0x00, 0x00];
    assert b0[|b0| - 4..] == [0x00, 0x05, 0x00, 0x00];
  }
}
