/** `key_compress`: reduces a key of any non-zero length to the 128-byte
    table of the v1 transform. */
module V2MapKey {
  import opened Bytes
  import V1Cipher

  /** Added to `k * k` before the index is reduced modulo the key length. */
  const IndexOffset: nat := 71214

  datatype QmcCryptoError = QMCV2MapKeyEmpty

  /** `(b << s) | (b >> s)` on a `u8`. The bits shifted out at the top are
      lost; this is not a rotation (see ShiftOrIsNotRotation). */
  function ShiftOr(b: byte, s: nat): (r: byte)
    requires s < 8
    ensures s == 0 ==> r == b
    ensures r & (b >> s) == b >> s && r & (b << s) == b << s
  {
    (b << s) | (b >> s)
  }

  /** An 8-bit left rotation, for comparison only. */
  function RotateLeft(b: byte, s: nat): byte
    requires s < 8
  {
    (b << s) | (b >> ((8 - s) % 8))
  }

  /** The key position sampled for table entry `k`. */
  function SampleIndex(n: nat, k: nat): (idx: nat)
    requires 1 <= n
    ensures idx < n
  {
    (k * k + IndexOffset) % n
  }

  /** The byte the closure of `key_compress` yields for entry `k`: the
      sampled key byte, shifted both ways by its position plus 4, modulo 8.
      A byte sampled at a position that is 4 modulo 8 is copied unchanged. */
  function TableEntry(key: seq<byte>, k: nat): (r: byte)
    requires 1 <= |key|
    ensures SampleIndex(|key|, k) % 8 == 4 ==> r == key[SampleIndex(|key|, k)]
  {
    var idx := SampleIndex(|key|, k);
    ShiftOr(key[idx], (idx + 4) % 8)
  }

  /** Entry `k` only depends on `k` modulo the key length:
      `(k + n)^2 = k^2 + n * (2k + n)`. */
  lemma TableEntryPeriodic(key: seq<byte>, k: nat)
    requires 1 <= |key|
    ensures TableEntry(key, k + |key|) == TableEntry(key, k)
  {
    var n := |key|;
    var x := k * k + IndexOffset;
    var q := x / n;
    assert (k + n) * (k + n) + IndexOffset == n * (q + 2 * k + n) + x % n by {
      assert x == n * q + x % n;
      assert (k + n) * (k + n) == k * k + n * (2 * k + n);
    }
    ModUnique((k + n) * (k + n) + IndexOffset, n, q + 2 * k + n, x % n);
  }

  /** The remainder is the unique `r` in `[0, n)` with `x = n * q + r`. */
  lemma ModUnique(x: int, n: int, q: int, r: int)
    requires 1 <= n && 0 <= r < n && x == n * q + r
    ensures x % n == r
  {
    var q', r' := x / n, x % n;
    assert n * (q - q') == r' - r;
    if q > q' {
      MulAtLeast(n, q - q');
    } else if q < q' {
      MulAtLeast(n, q' - q);
    }
  }

  lemma MulAtLeast(n: int, d: int)
    requires 1 <= n && 1 <= d
    ensures n <= n * d
  {
  }

  /** The table `key_compress` returns for a non-empty key. A key shorter
      than the table is repeated: the table has period `n`. */
  function CompressedKey(key: seq<byte>): (t: V1Cipher.KeyTable)
    requires 1 <= |key|
    ensures forall k | 0 <= k < V1Cipher.KeySize - |key| :: t[k + |key|] == t[k]
  {
    var t := seq(V1Cipher.KeySize, k requires 0 <= k => TableEntry(key, k));
    assert forall k | 0 <= k < V1Cipher.KeySize - |key| :: t[k + |key|] == t[k] by {
      forall k | 0 <= k < V1Cipher.KeySize - |key| {
        TableEntryPeriodic(key, k);
      }
    }
    t
  }

  /** `key_compress`: an empty key is an error; otherwise a zero-filled
      128-byte array is overwritten entry by entry. */
  method KeyCompress(longKey: seq<byte>) returns (r: Result<V1Cipher.KeyTable, QmcCryptoError>)
    ensures |longKey| == 0 <==> r.Err?
    ensures r.Err? ==> r.error == QMCV2MapKeyEmpty
    ensures r.Ok? ==> 1 <= |longKey| && |r.value| == V1Cipher.KeySize && r.value == CompressedKey(longKey)
    ensures r.Ok? ==> forall k :: 0 <= k < V1Cipher.KeySize ==>
      var idx := (k * k + IndexOffset) % |longKey|;
      r.value[k] == ShiftOr(longKey[idx], (idx + 4) % 8)
  {
    if |longKey| == 0 {
      return Err(QMCV2MapKeyEmpty);
    }
    var result := new byte[V1Cipher.KeySize](_ => 0);
    for k := 0 to V1Cipher.KeySize
      invariant forall m :: 0 <= m < k ==> result[m] == TableEntry(longKey, m)
    {
      result[k] := TableEntry(longKey, k);
    }
    return Ok(result[..]);
  }

  /** KeyCompress returns exactly CompressedKey, the form the rest of the
      model uses. */
  lemma CompressedKeyEntries(key: seq<byte>, k: nat)
    requires 1 <= |key| && k < V1Cipher.KeySize
    ensures (k * k + IndexOffset) % |key| < |key|
    ensures CompressedKey(key)[k] ==
      ShiftOr(key[(k * k + IndexOffset) % |key|], ((k * k + IndexOffset) % |key| + 4) % 8)
  {
  }

  /** The first entry of the golden vector: 'N' (0x4E) shifted by 3 gives
      0x79 with the shift-OR and 0x72 with a rotation. */
  lemma ShiftOrIsNotRotation()
    ensures ShiftOr(0x4E, 3) == 0x79
    ensures RotateLeft(0x4E, 3) == 0x72
  {
  }
}
