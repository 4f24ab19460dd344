/** `STagMetadata::from_byte_slice`: the trailer of Android files, which
    ends in `"STag"` preceded by the big-endian length of a CSV payload
    `id,version,media_mid`. */
module AndroidSTag {
  import opened Bytes
  import opened Footer

  const STagMagic: seq<byte> := [0x53, 0x54, 0x61, 0x67]
  const Comma: byte := 0x2C
  const VersionTwo: seq<byte> := [0x32]

  /** `str::split(',')`: the fields between the commas, in order. There is
      always at least one field, and no field holds the separator. */
  function Split(s: seq<byte>, sep: byte): (r: seq<seq<byte>>)
    ensures 1 <= |r|
    ensures forall k | 0 <= k < |r| :: sep !in r[k]
    decreases |s|
  {
    if |s| == 0 then [[]]
    else
      var rest := Split(s[1..], sep);
      if s[0] == sep then [[]] + rest
      else [[s[0]] + rest[0]] + rest[1..]
  }

  /** The fields joined back with the separator. */
  function Join(fields: seq<seq<byte>>, sep: byte): (r: seq<byte>)
    requires 1 <= |fields|
    decreases |fields|
  {
    if |fields| == 1 then fields[0] else fields[0] + [sep] + Join(fields[1..], sep)
  }

  /** A separator-free field alone splits to itself. */
  lemma {:induction false} SplitField(a: seq<byte>, sep: byte)
    requires sep !in a
    ensures Split(a, sep) == [a]
    decreases |a|
  {
    if |a| != 0 {
      SplitField(a[1..], sep);
      assert [a[0]] + a[1..] == a;
    }
  }

  /** A separator-free field followed by the separator splits off first. */
  lemma {:induction false} SplitFieldThen(a: seq<byte>, sep: byte, rest: seq<byte>)
    requires sep !in a
    ensures Split(a + [sep] + rest, sep) == [a] + Split(rest, sep)
    decreases |a|
  {
    if |a| == 0 {
      assert (a + [sep] + rest)[1..] == rest;
    } else {
      assert (a + [sep] + rest)[1..] == a[1..] + [sep] + rest;
      SplitFieldThen(a[1..], sep, rest);
      assert [a[0]] + a[1..] == a;
    }
  }

  /** Splitting inverts joining fields that do not hold the separator. */
  lemma {:induction false} SplitJoin(fields: seq<seq<byte>>, sep: byte)
    requires 1 <= |fields|
    requires forall k | 0 <= k < |fields| :: sep !in fields[k]
    ensures Split(Join(fields, sep), sep) == fields
    decreases |fields|
  {
    if |fields| == 1 {
      SplitField(fields[0], sep);
    } else {
      SplitJoin(fields[1..], sep);
      SplitFieldThen(fields[0], sep, Join(fields[1..], sep));
      assert [fields[0]] + fields[1..] == fields;
    }
  }

  /** `u8::is_ascii_digit`. */
  predicate IsDigit(c: byte)
  {
    0x30 <= c <= 0x39
  }

  predicate AllDigits(s: seq<byte>)
  {
    forall k | 0 <= k < |s| :: IsDigit(s[k])
  }

  /** The value of a string of decimal digits, most significant first. */
  function DecimalValue(s: seq<byte>): (v: nat)
    requires AllDigits(s)
    decreases |s|
  {
    if |s| == 0 then 0
    else 10 * DecimalValue(s[..|s| - 1]) + (s[|s| - 1] - 0x30) as int
  }

  /** `10^k`. */
  function Pow10(k: nat): (p: nat)
    ensures 1 <= p
  {
    if k == 0 then 1 else 10 * Pow10(k - 1)
  }

  /** A digit string of `k` digits is below `10^k`. */
  lemma {:induction false} DecimalValueBound(s: seq<byte>)
    requires AllDigits(s)
    ensures DecimalValue(s) < Pow10(|s|)
    decreases |s|
  {
    if |s| != 0 {
      DecimalValueBound(s[..|s| - 1]);
    }
  }

  lemma {:induction false} Pow10Monotone(j: nat, k: nat)
    requires j <= k
    ensures Pow10(j) <= Pow10(k)
    decreases k
  {
    if j < k {
      Pow10Monotone(j, k - 1);
    }
  }

  /** An id of at most 19 digits is below `10^19`, which is not past
      `u64::MAX`: only ids of 20 digits or more can overflow. */
  lemma ShortIdFits(id: seq<byte>)
    requires AllDigits(id) && |id| <= 19
    ensures DecimalValue(id) <= U64Max
  {
    DecimalValueBound(id);
    Pow10Monotone(|id|, 19);
    assert Pow10(19) == 10_000_000_000_000_000_000 by {
      assert Pow10(3) == 1000;
      assert Pow10(7) == 10_000_000;
      assert Pow10(11) == 100_000_000_000;
      assert Pow10(15) == 1_000_000_000_000_000;
    }
  }

  /** `str::parse::<u64>` on a string already known to be all digits: the
      empty string and a value past `u64::MAX` are errors. */
  function ParseU64(id: seq<byte>): (r: Result<nat, FooterParseError>)
    requires AllDigits(id)
    ensures r.Ok? <==> 1 <= |id| && DecimalValue(id) <= U64Max
    ensures r.Ok? ==> r.value == DecimalValue(id)
    ensures r.Err? ==> r.error == StringToIntError(id)
  {
    if |id| == 0 || DecimalValue(id) > U64Max then Err(StringToIntError(id))
    else Ok(DecimalValue(id))
  }

  /** The length the trailer declares: the big-endian `u32` before the
      magic. */
  function DeclaredLength(buffer: seq<byte>): (len: nat)
    requires 8 <= |buffer|
    ensures len < U32Modulus
    ensures len / 0x100_0000 == buffer[|buffer| - 8] as int
    ensures len % 256 == buffer[|buffer| - 5] as int
  {
    ReadU32BE(buffer[|buffer| - 8..|buffer| - 4])
  }

  /** The checks on the CSV payload once it has been cut out: three
      fields, version `"2"`, a digit-only id that fits a `u64`. */
  function ParsePayload(text: seq<byte>): (r: ParseResult)
    ensures r.Ok? ==> r.value.Some? && r.value.value.size == |text| + 8 && r.value.value.ekey == None
    ensures r.Ok? ==> r.value.value.data.AndroidSTag? && Comma !in r.value.value.data.stag.mediaMid
    ensures r.Ok? ==> r.value.value.data.stag.resourceId <= U64Max
    ensures r.Ok? ==>
      var f := Split(text, Comma);
      && |f| == 3 && f[1] == VersionTwo && AllDigits(f[0]) && 1 <= |f[0]|
      && r.value.value.data.stag == STagMetadata(f[2], DecimalValue(f[0]))
  {
    var fields := Split(text, Comma);
    if |fields| != 3 then Err(STagInvalidCSV(text))
    else if fields[1] != VersionTwo then Err(STagInvalidVersion(fields[1]))
    else if !AllDigits(fields[0]) then Err(STagInvalidId(fields[0]))
    else match ParseU64(fields[0])
      case Err(e) => Err(e)
      case Ok(id) => Ok(Some(Metadata(None, |text| + 8, AndroidSTag(STagMetadata(fields[2], id)))))
  }

  /** `from_byte_slice`: at least 8 bytes, then the magic, then enough
      bytes before the length field for the declared payload. */
  function Parse(buffer: seq<byte>): (r: ParseResult)
    ensures r == Err(BufferTooSmall(8)) <==> |buffer| < 8
    ensures 8 <= |buffer| ==> (r == Ok(None) <==> !HasSuffix(buffer, STagMagic))
    ensures r.Ok? && r.value.Some? ==>
      && r.value.value.size == DeclaredLength(buffer) + 8
      && r.value.value.size <= |buffer|
  {
    if |buffer| < 8 then Err(BufferTooSmall(8))
    else if !HasSuffix(buffer, STagMagic) then Ok(None)
    else
      var payload := buffer[..|buffer| - 8];
      var len := DeclaredLength(buffer);
      if |payload| < len then Err(BufferTooSmall(len + 8))
      else ParsePayload(payload[|payload| - len..])
  }

  /** A declared length longer than what precedes the length field. */
  lemma ParseTooShort(buffer: seq<byte>)
    requires 8 <= |buffer| && HasSuffix(buffer, STagMagic)
    requires |buffer| - 8 < DeclaredLength(buffer)
    ensures Parse(buffer) == Err(BufferTooSmall(DeclaredLength(buffer) + 8))
  {
  }

  /** The trailer that carries `text`: the payload, its big-endian length
      and the magic. */
  function Trailer(text: seq<byte>): (t: seq<byte>)
    requires |text| < U32Modulus
    ensures |t| == |text| + 8
  {
    text + U32BE(|text|) + STagMagic
  }

  /** A buffer with the magic whose declared length is that of the bytes
      `text` in front of the length field parses as `text`. */
  lemma ParseCut(buffer: seq<byte>, text: seq<byte>)
    requires 8 + |text| <= |buffer| && HasSuffix(buffer, STagMagic)
    requires DeclaredLength(buffer) == |text|
    requires buffer[|buffer| - 8 - |text|..|buffer| - 8] == text
    ensures Parse(buffer) == ParsePayload(text)
  {
    var payload := buffer[..|buffer| - 8];
    assert payload[|payload| - |text|..] == text;
  }

  /** Whatever precedes a trailer, the parser cuts out exactly its
      payload. */
  lemma ParseTrailer(prefix: seq<byte>, text: seq<byte>)
    requires |text| < U32Modulus
    ensures Parse(prefix + Trailer(text)) == ParsePayload(text)
  {
    var buffer := prefix + Trailer(text);
    TrailerFields(prefix, text);
    ReadU32BERoundTrip(|text|);
    ParseCut(buffer, text);
  }

  /** Where the parts of a trailer sit at the end of a buffer. */
  lemma TrailerFields(prefix: seq<byte>, text: seq<byte>)
    requires |text| < U32Modulus
    ensures var b := prefix + Trailer(text);
      && HasSuffix(b, STagMagic)
      && b[|b| - 8..|b| - 4] == U32BE(|text|)
      && b[|b| - 8 - |text|..|b| - 8] == text
  {
    var b := prefix + Trailer(text);
    var n := |b|;
    assert b[n - 4..] == STagMagic;
    assert b[n - 8..n - 4] == U32BE(|text|);
    assert b[n - 8 - |text|..n - 8] == text;
  }

  /** The payload `id,version,mid`. */
  function Csv(id: seq<byte>, version: seq<byte>, mid: seq<byte>): seq<byte>
  {
    id + [Comma] + version + [Comma] + mid
  }

  lemma SplitCsv(id: seq<byte>, version: seq<byte>, mid: seq<byte>)
    requires Comma !in id && Comma !in version && Comma !in mid
    ensures Split(Csv(id, version, mid), Comma) == [id, version, mid]
  {
    var fields := [id, version, mid];
    SplitJoin(fields, Comma);
    assert fields[1..] == [version, mid] && [version, mid][1..] == [mid];
    assert Join([version, mid], Comma) == version + [Comma] + mid;
    assert Join(fields, Comma) == id + [Comma] + (version + [Comma] + mid);
    assert id + [Comma] + (version + [Comma] + mid) == Csv(id, version, mid);
  }

  /** A payload that does not have exactly three fields is rejected with
      the payload itself. */
  lemma ParseNotThreeFields(text: seq<byte>)
    requires |Split(text, Comma)| != 3
    ensures ParsePayload(text) == Err(STagInvalidCSV(text))
  {
  }

  /** The version is checked before the id: any id, valid or not, with a
      version other than `"2"` gives the version error. */
  lemma ParseBadVersion(id: seq<byte>, version: seq<byte>, mid: seq<byte>)
    requires Comma !in id && Comma !in version && Comma !in mid
    requires version != VersionTwo
    ensures ParsePayload(Csv(id, version, mid)) == Err(STagInvalidVersion(version))
  {
    SplitCsv(id, version, mid);
  }

  /** An id with a non-digit is rejected with the id. */
  lemma ParseBadId(id: seq<byte>, mid: seq<byte>)
    requires Comma !in id && Comma !in mid
    requires !AllDigits(id)
    ensures ParsePayload(Csv(id, VersionTwo, mid)) == Err(STagInvalidId(id))
  {
    SplitCsv(id, VersionTwo, mid);
  }

  /** An empty id passes the digit test but does not parse as a number. */
  lemma ParseEmptyId(mid: seq<byte>)
    requires Comma !in mid
    ensures ParsePayload(Csv([], VersionTwo, mid)) == Err(StringToIntError([]))
  {
    SplitCsv([], VersionTwo, mid);
  }

  /** Twenty digits can exceed `u64::MAX`, which does not parse either. */
  lemma ParseOverflowingId(id: seq<byte>, mid: seq<byte>)
    requires Comma !in mid && AllDigits(id) && DecimalValue(id) > U64Max
    ensures ParsePayload(Csv(id, VersionTwo, mid)) == Err(StringToIntError(id))
  {
    assert Comma !in id by {
      assert !IsDigit(Comma);
    }
    SplitCsv(id, VersionTwo, mid);
  }

  /** A valid payload: three fields, version `"2"`, a digit id that fits
      a `u64`. */
  lemma ParseValidPayload(id: seq<byte>, mid: seq<byte>)
    requires 1 <= |id| && AllDigits(id) && DecimalValue(id) <= U64Max
    requires Comma !in mid
    ensures ParsePayload(Csv(id, VersionTwo, mid))
      == Ok(Some(Metadata(None, |Csv(id, VersionTwo, mid)| + 8, AndroidSTag(STagMetadata(mid, DecimalValue(id))))))
  {
    assert Comma !in id by {
      assert !IsDigit(Comma);
    }
    SplitCsv(id, VersionTwo, mid);
  }

  /** Ids of one to 19 digits are always accepted: `StringToIntError` needs
      an empty id or one of at least 20 digits. */
  lemma ParseShortId(id: seq<byte>, mid: seq<byte>)
    requires 1 <= |id| <= 19 && AllDigits(id) && Comma !in mid
    ensures ParsePayload(Csv(id, VersionTwo, mid)).Ok?
  {
    ShortIdFits(id);
    ParseValidPayload(id, mid);
  }

  /** The payload checks accept a payload whose comma-separated fields
      are a digit id that fits a `u64`, `"2"` and a media id. */
  lemma ParseFields(text: seq<byte>, id: seq<byte>, mid: seq<byte>)
    requires Split(text, Comma) == [id, VersionTwo, mid]
    requires 1 <= |id| && AllDigits(id) && DecimalValue(id) <= U64Max
    ensures ParsePayload(text)
      == Ok(Some(Metadata(None, |text| + 8, AndroidSTag(STagMetadata(mid, DecimalValue(id))))))
  {
  }

  /** A trailer whose payload is accepted yields that payload's metadata,
      whatever precedes it. */
  lemma ParseTrailerAccepts(prefix: seq<byte>, text: seq<byte>, m: Metadata)
    requires |text| < U32Modulus && ParsePayload(text) == Ok(Some(m))
    ensures Parse(prefix + Trailer(text)) == Ok(Some(m))
  {
    ParseTrailer(prefix, text);
  }

  /** Round trip: whatever precedes it, the trailer of a payload whose
      comma-separated fields are a digit id that fits a `u64`, `"2"` and a
      media id parses back to them, with the size of the whole trailer and
      no embedded key. `SplitCsv` shows that `Csv` builds such payloads. */
  lemma ParseRoundTrip(prefix: seq<byte>, text: seq<byte>, id: seq<byte>, mid: seq<byte>)
    requires |text| < U32Modulus
    requires Split(text, Comma) == [id, VersionTwo, mid]
    requires 1 <= |id| && AllDigits(id) && DecimalValue(id) <= U64Max
    ensures Parse(prefix + Trailer(text))
      == Ok(Some(Metadata(None, |Trailer(text)|, AndroidSTag(STagMetadata(mid, DecimalValue(id))))))
  {
    ParseFields(text, id, mid);
    ParseTrailerAccepts(prefix, text, Metadata(None, |text| + 8, AndroidSTag(STagMetadata(mid, DecimalValue(id)))));
  }
}
