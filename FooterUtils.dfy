/** Helpers shared by the footer recognizers: the base64 alphabet test and
    the decoding of an ASCII string stored as UTF-16LE. */
module FooterUtils {
  import opened Bytes

  /** `u8::is_ascii_alphanumeric`. */
  predicate IsAsciiAlphanumeric(c: byte)
  {
    (0x30 <= c <= 0x39) || (0x41 <= c <= 0x5A) || (0x61 <= c <= 0x7A)
  }

  /** The standard base64 alphabet with its padding character, written out
      independently of the range tests below. */
  const Base64Upper: set<byte> := {0x41, 0x42, 0x43, 0x44, 0x45, 0x46, 0x47, 0x48, 0x49, 0x4A, 0x4B, 0x4C, 0x4D, 0x4E, 0x4F, 0x50, 0x51, 0x52, 0x53, 0x54, 0x55, 0x56, 0x57, 0x58, 0x59, 0x5A}
  const Base64Lower: set<byte> := {0x61, 0x62, 0x63, 0x64, 0x65, 0x66, 0x67, 0x68, 0x69, 0x6A, 0x6B, 0x6C, 0x6D, 0x6E, 0x6F, 0x70, 0x71, 0x72, 0x73, 0x74, 0x75, 0x76, 0x77, 0x78, 0x79, 0x7A}
  const Base64Digits: set<byte> := {0x30, 0x31, 0x32, 0x33, 0x34, 0x35, 0x36, 0x37, 0x38, 0x39}
  const Base64Alphabet: set<byte> := Base64Upper + Base64Lower + Base64Digits + {0x2B, 0x2F, 0x3D}

  /** `is_base64_chr`: a letter, a digit, `+`, `/` or `=`, which is exactly
      the base64 alphabet; all of it is printable ASCII. */
  predicate IsBase64Chr(c: byte)
    ensures IsBase64Chr(c) ==> 0x2B <= c <= 0x7A
  {
    IsAsciiAlphanumeric(c) || c == 0x2B || c == 0x2F || c == 0x3D
  }

  /** The character test accepts exactly the 65 characters of the base64
      alphabet. */
  lemma Base64ChrAlphabet(c: byte)
    ensures IsBase64Chr(c) <==> c in Base64Alphabet
  {
    if c in Base64Upper {
      UpperRange(c);
    } else if c in Base64Lower {
      LowerRange(c);
    } else if c in Base64Digits {
      DigitRange(c);
    }
  }

  lemma UpperRange(c: byte)
    requires c in Base64Upper
    ensures 0x41 <= c <= 0x5A
  {
  }

  lemma LowerRange(c: byte)
    requires c in Base64Lower
    ensures 0x61 <= c <= 0x7A
  {
  }

  lemma DigitRange(c: byte)
    requires c in Base64Digits
    ensures 0x30 <= c <= 0x39
  {
  }

  /** `is_base64`: `all` over the bytes, which also accepts the empty
      slice. */
  function IsBase64(s: seq<byte>): (r: bool)
    ensures r <==> forall k | 0 <= k < |s| :: IsBase64Chr(s[k])
    ensures |s| == 0 ==> r
    decreases |s|
  {
    if |s| == 0 then true else IsBase64Chr(s[0]) && IsBase64(s[1..])
  }

  /** The alphabet test distributes over concatenation. */
  lemma IsBase64Concat(a: seq<byte>, b: seq<byte>)
    ensures IsBase64(a + b) == (IsBase64(a) && IsBase64(b))
  {
    assert forall k | 0 <= k < |a| :: (a + b)[k] == a[k];
    assert forall k | 0 <= k < |b| :: (a + b)[|a| + k] == b[k];
  }

  /** Every base64 character is printable ASCII, neither NUL nor a byte
      that UTF-8 decoding could replace. */
  lemma Base64IsAscii(s: seq<byte>)
    requires IsBase64(s)
    ensures forall k | 0 <= k < |s| :: 0x2B <= s[k] <= 0x7A
  {
  }

  /** The condition of the `take_while` in `from_ascii_utf16`: a non-zero
      ASCII low byte and a zero high byte. */
  predicate AsciiUnit(lo: byte, hi: byte)
  {
    lo != 0 && lo < 0x80 && hi == 0
  }

  /** `from_ascii_utf16`: the low bytes of the leading two-byte units that
      hold a non-zero ASCII character; the scan stops at the first other
      unit, and a trailing odd byte is never a unit. */
  function FromAsciiUtf16(data: seq<byte>): (r: seq<byte>)
    ensures |r| <= |data| / 2
    ensures forall k | 0 <= k < |r| :: 0 < r[k] < 0x80
    ensures forall k | 0 <= k < |r| :: r[k] == data[2 * k] && AsciiUnit(data[2 * k], data[2 * k + 1])
    decreases |data|
  {
    if |data| < 2 || !AsciiUnit(data[0], data[1]) then []
    else [data[0]] + FromAsciiUtf16(data[2..])
  }

  /** The result stops exactly at the first unit that is not a non-zero
      ASCII character, if the data has one. */
  lemma {:induction false} FromAsciiUtf16Stops(data: seq<byte>, k: nat)
    requires 2 * k + 1 < |data|
    requires forall m | 0 <= m < k :: AsciiUnit(data[2 * m], data[2 * m + 1])
    requires !AsciiUnit(data[2 * k], data[2 * k + 1])
    ensures |FromAsciiUtf16(data)| == k
    decreases k
  {
    if k != 0 {
      var first := 0;
      assert AsciiUnit(data[2 * first], data[2 * first + 1]);
      var rest := data[2..];
      forall m | 0 <= m < k - 1
        ensures AsciiUnit(rest[2 * m], rest[2 * m + 1])
      {
        assert rest[2 * m] == data[2 * (m + 1)] && rest[2 * m + 1] == data[2 * (m + 1) + 1];
      }
      FromAsciiUtf16Stops(rest, k - 1);
    }
  }

  /** A trailing odd byte is ignored (`chunks_exact`). */
  lemma {:induction false} FromAsciiUtf16IgnoresOddByte(data: seq<byte>, x: byte)
    requires |data| % 2 == 0
    ensures FromAsciiUtf16(data + [x]) == FromAsciiUtf16(data)
    decreases |data|
  {
    if |data| >= 2 {
      assert (data + [x])[2..] == data[2..] + [x];
      FromAsciiUtf16IgnoresOddByte(data[2..], x);
    }
  }

  /** An ASCII string as UTF-16LE: each character followed by a zero. */
  function AsciiToUtf16(s: seq<byte>): (r: seq<byte>)
    ensures |r| == 2 * |s|
    decreases |s|
  {
    if |s| == 0 then [] else [s[0], 0] + AsciiToUtf16(s[1..])
  }

  /** Decoding inverts encoding for non-zero ASCII text, whatever follows
      a NUL unit that ends it. */
  lemma {:induction false} FromAsciiUtf16RoundTrip(s: seq<byte>, rest: seq<byte>)
    requires forall k | 0 <= k < |s| :: 0 < s[k] < 0x80
    requires |rest| < 2 || rest[0] == 0
    ensures FromAsciiUtf16(AsciiToUtf16(s) + rest) == s
    decreases |s|
  {
    if |s| != 0 {
      assert (AsciiToUtf16(s) + rest)[2..] == AsciiToUtf16(s[1..]) + rest;
      FromAsciiUtf16RoundTrip(s[1..], rest);
      assert [s[0]] + s[1..] == s;
    }
  }
}
