/** `QMC2Map`: the "map" cipher. It holds the 128-byte table that
    `key_compress` derives from the file key and applies the v1 transform
    in place, byte by byte, at a running absolute offset. */
module V2Map {
  import opened Bytes
  import V1Cipher
  import opened V2MapKey
  import V2MapKeyVectors

  /** The bytes `data` becomes when its first byte sits at absolute offset
      `offset` of the stream. */
  function Decrypted(key: V1Cipher.KeyTable, data: seq<byte>, offset: nat): (r: seq<byte>)
    ensures |r| == |data|
    ensures forall i | 0 <= i < |data| :: r[i] == V1Cipher.Transform(key, data[i], offset + i)
    decreases |data|
  {
    if |data| == 0 then []
    else [V1Cipher.Transform(key, data[0], offset)] + Decrypted(key, data[1..], offset + 1)
  }

  /** The cipher state: the compressed table, never changed after `new`. */
  datatype QMC2Map = QMC2Map(key: V1Cipher.KeyTable)
  {
    /** `QMC2Map::new`: fails exactly when the key is empty, otherwise
        keeps the compressed key. */
    static method New(key: seq<byte>) returns (r: Result<QMC2Map, QmcCryptoError>)
      ensures |key| == 0 <==> r.Err?
      ensures r.Err? ==> r.error == QMCV2MapKeyEmpty
      ensures r.Ok? ==> 1 <= |key| && r.value.key == CompressedKey(key)
    {
      var table := KeyCompress(key);
      match table {
        case Err(e) => return Err(e);
        case Ok(t) => return Ok(QMC2Map(t));
      }
    }

    /** `QMC2Map::decrypt`: the byte at index `i` of `data` is transformed
        at offset `offset + i`; the table itself is not touched. */
    method Decrypt(data: array<byte>, offset: nat)
      modifies data
      ensures data[..] == Decrypted(key, old(data[..]), offset)
    {
      ghost var original := data[..];
      for i := 0 to data.Length
        invariant data[i..] == original[i..]
        invariant forall m | 0 <= m < i :: data[m] == V1Cipher.Transform(key, original[m], offset + m)
      {
        data[i] := V1Cipher.Transform(key, data[i], offset + i);
      }
    }
  }

  /** Decrypting in two pieces, the second at the offset where the first
      ends, gives the same bytes as decrypting the whole buffer. */
  lemma {:induction false} DecryptedConcat(key: V1Cipher.KeyTable, a: seq<byte>, b: seq<byte>, offset: nat)
    ensures Decrypted(key, a + b, offset) == Decrypted(key, a, offset) + Decrypted(key, b, offset + |a|)
    decreases |a|
  {
    if |a| == 0 {
      assert a + b == b;
    } else {
      assert (a + b)[1..] == a[1..] + b;
      DecryptedConcat(key, a[1..], b, offset + 1);
    }
  }

  /** Decrypting twice at the same offset restores the buffer. */
  lemma {:induction false} DecryptedInvolution(key: V1Cipher.KeyTable, data: seq<byte>, offset: nat)
    ensures Decrypted(key, Decrypted(key, data, offset), offset) == data
    decreases |data|
  {
    if |data| != 0 {
      var r := Decrypted(key, data, offset);
      assert r[1..] == Decrypted(key, data[1..], offset + 1);
      V1Cipher.TransformInvolution(key, data[0], offset);
      DecryptedInvolution(key, data[1..], offset + 1);
    }
  }

  /** The 16 bytes of the decryption test. */
  const TestCiphertext: seq<byte> :=
    [0x00, 0x9e, 0x41, 0xc1, 0x71, 0x36, 0x00, 0x80, 0xf4, 0x00, 0x75, 0x9e, 0x36, 0x00, 0x14, 0x8a]

  /** Bytes equal to the table entries their offsets select decrypt to zeros. */
  lemma DecryptedOwnEntries(t: V1Cipher.KeyTable, data: seq<byte>, offset: nat)
    requires forall i | 0 <= i < |data| :: data[i] == t[V1Cipher.TableIndex(offset + i)]
    ensures Decrypted(t, data, offset) == seq(|data|, _ => 0)
  {
  }

  /** The test bytes are entries 120..127 and 1..8 of the expected table. */
  lemma TestCiphertextEntries()
    ensures TestCiphertext
      == V2MapKeyVectors.GoldenRow15 + V2MapKeyVectors.GoldenRow0[1..] + V2MapKeyVectors.GoldenRow1[..1]
  {
  }

  /** The offsets of the test: 32760..32767 select entries 120..127, and
      32768..32775 fold to 1..8 and select entries 1..8. */
  lemma TestOffsets()
    ensures forall o | 32760 <= o < 32768 :: V1Cipher.TableIndex(o) == o - 32640
    ensures forall o | 32768 <= o < 32776 :: V1Cipher.TableIndex(o) == o - 32767
  {
  }

  /** The test bytes at offset 32760 decrypt to zeros with any table that
      has the entries 120..127 and 0..15 of the expected compressed key. */
  lemma DecryptTestBytes(t: V1Cipher.KeyTable)
    requires t[120..128] == V2MapKeyVectors.GoldenRow15
    requires t[0..8] == V2MapKeyVectors.GoldenRow0 && t[8..16] == V2MapKeyVectors.GoldenRow1
    ensures Decrypted(t, TestCiphertext, 32760) == seq(16, _ => 0)
  {
    TestCiphertextEntries();
    TestOffsets();
    var c := TestCiphertext;
    assert c[..8] == t[120..128];
    assert t[1..8] == t[0..8][1..] && t[8..9] == t[8..16][..1];
    assert c[8..] == t[1..8] + t[8..9] == t[1..9];
    forall i | 0 <= i < 16
      ensures c[i] == t[V1Cipher.TableIndex(32760 + i)]
    {
      if i < 8 {
        assert c[i] == c[..8][i];
      } else {
        assert c[i] == c[8..][i - 8];
      }
    }
    DecryptedOwnEntries(t, c, 32760);
  }

  /** `test_decrypt`: with the cyclic alphanumeric key, the test bytes at
      offset 32760 decrypt to zeros. The offsets 32760..32767 use entries
      120..127 and 32768..32775 fold to entries 1..8. */
  lemma DecryptTestVector()
    ensures Decrypted(CompressedKey(V2MapKeyVectors.GoldenKey()), TestCiphertext, 32760) == seq(16, _ => 0)
  {
    V2MapKeyVectors.GoldenVector();
    V2MapKeyVectors.GoldenTableRows();
    DecryptTestBytes(V2MapKeyVectors.GoldenTable);
  }
}
