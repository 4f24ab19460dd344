/** The key fingerprint of the RC4 cipher: a running `u32` product of the
    key's non-zero bytes that stops as soon as the product would wrap to
    zero or fail to grow. The source returns it as an `f64`; that is an
    exact widening of the `u32`, so the model keeps the integer. */
module V2Rc4Hash {
  import opened Bytes

  /** The hash of `key` when the running value is already `h`. */
  function HashFrom(h: nat, key: seq<byte>): (r: nat)
    requires 1 <= h < U32Modulus
    ensures h <= r < U32Modulus
    decreases |key|
  {
    if |key| == 0 then h
    else if key[0] == 0 then HashFrom(h, key[1..])
    else
      var next := (h * key[0] as int) % U32Modulus;
      if next == 0 || next <= h then h else HashFrom(next, key[1..])
  }

  /** `hash(key)`: the running value starts at 1. */
  function KeyHash(key: seq<byte>): (r: nat)
    ensures 1 <= r < U32Modulus
  {
    HashFrom(1, key)
  }

  /** The loop of `hash`, with `continue` on zero bytes and `break` when
      the wrapped product is zero or not larger than the current value. */
  method Hash(key: seq<byte>) returns (h: nat)
    ensures h == KeyHash(key)
    ensures 1 <= h < U32Modulus
  {
    h := 1;
    for k := 0 to |key|
      invariant 1 <= h < U32Modulus
      invariant HashFrom(h, key[k..]) == KeyHash(key)
    {
      var v := key[k];
      if v == 0 {
        continue;
      }
      var next := (h * v as int) % U32Modulus;
      if next == 0 || next <= h {
        break;
      }
      h := next;
    }
  }

  /** The non-zero bytes of `key`, in order. */
  function NonZero(key: seq<byte>): (r: seq<byte>)
    ensures |r| <= |key|
    ensures forall b | b in r :: b != 0 && b in key
  {
    if |key| == 0 then []
    else if key[0] == 0 then NonZero(key[1..])
    else [key[0]] + NonZero(key[1..])
  }

  /** The fold over non-zero bytes: multiply while the product grows. */
  function Accept(h: nat, values: seq<byte>): nat
    requires 1 <= h < U32Modulus
    decreases |values|
  {
    if |values| == 0 then h
    else
      var next := (h * values[0] as int) % U32Modulus;
      if next == 0 || next <= h then h else Accept(next, values[1..])
  }

  /** Skipping zeros and folding over the remaining bytes is the hash:
      zero bytes never end the scan and never change the value. */
  lemma {:induction false} HashIsAcceptOfNonZero(h: nat, key: seq<byte>)
    requires 1 <= h < U32Modulus
    ensures HashFrom(h, key) == Accept(h, NonZero(key))
    decreases |key|
  {
    if |key| != 0 {
      HashIsAcceptOfNonZero(h, key[1..]);
      if key[0] != 0 {
        var next := (h * key[0] as int) % U32Modulus;
        if !(next == 0 || next <= h) {
          HashIsAcceptOfNonZero(next, key[1..]);
        }
      }
    }
  }

  /** Inserting a zero byte anywhere does not change the hash. */
  lemma {:induction false} ZeroBytesIgnored(h: nat, a: seq<byte>, b: seq<byte>)
    requires 1 <= h < U32Modulus
    ensures HashFrom(h, a + [0] + b) == HashFrom(h, a + b)
    decreases |a|
  {
    if |a| == 0 {
      assert (a + [0] + b)[1..] == a + b;
    } else {
      assert (a + [0] + b)[1..] == a[1..] + [0] + b;
      assert (a + b)[1..] == a[1..] + b;
      ZeroBytesIgnored(h, a[1..], b);
      if a[0] != 0 {
        var next := (h * a[0] as int) % U32Modulus;
        if !(next == 0 || next <= h) {
          ZeroBytesIgnored(next, a[1..], b);
        }
      }
    }
  }

  /** An empty key, or a key of zero bytes only, hashes to 1. */
  lemma {:induction false} AllZeroHashIsOne(key: seq<byte>)
    requires forall k | 0 <= k < |key| :: key[k] == 0
    ensures KeyHash(key) == 1
    decreases |key|
  {
    if |key| != 0 {
      AllZeroHashIsOne(key[1..]);
    }
  }

  /** Every accepted byte makes the value strictly larger: when the first
      byte is accepted the hash exceeds the starting value. */
  lemma HashGrowsOnAccept(h: nat, key: seq<byte>)
    requires 1 <= h < U32Modulus && 1 <= |key| && key[0] != 0
    requires h < (h * key[0] as int) % U32Modulus
    ensures h < (h * key[0] as int) % U32Modulus <= HashFrom(h, key)
  {
  }

  /** A byte whose wrapped product is not larger stops the scan for good:
      the bytes after it are never read. */
  lemma HashStopsOnShrink(h: nat, v: byte, rest: seq<byte>)
    requires 1 <= h < U32Modulus && v != 0
    requires (h * v as int) % U32Modulus <= h
    ensures HashFrom(h, [v] + rest) == h
  {
    assert ([v] + rest)[0] == v;
  }

  /** The wrap-around product can still pass the growth test: from
      0x8000_0001, the byte 3 gives 0x1_8000_0003 mod 2^32 = 0x8000_0003. */
  lemma WrappedProductAccepted()
    ensures HashFrom(0x8000_0001, [3]) == 0x8000_0003
  {
    assert (0x8000_0001 * 3) % U32Modulus == 0x8000_0003;
  }

  /** One accepted byte: the scan continues from the product. */
  lemma HashAcceptStep(h: nat, key: seq<byte>, next: nat)
    requires 1 <= h < U32Modulus && 1 <= |key| && key[0] != 0
    requires next == (h * key[0] as int) % U32Modulus && h < next
    ensures HashFrom(h, key) == HashFrom(next, key[1..])
  {
  }

  /** The first five bytes of "hello world" are all accepted. */
  lemma HashHello(s: seq<byte>)
    requires 5 <= |s| && s[0] == 0x68 && s[1] == 0x65 && s[2] == 0x6c && s[3] == 0x6c && s[4] == 0x6f
    ensures HashFrom(1, s) == HashFrom(714668928, s[5..])
  {
    assert s[0..] == s;
    HashAcceptStep(1, s[0..], 104);
    assert s[0..][1..] == s[1..];
    HashAcceptStep(104, s[1..], 10504);
    assert s[1..][1..] == s[2..];
    HashAcceptStep(10504, s[2..], 1134432);
    assert s[2..][1..] == s[3..];
    HashAcceptStep(1134432, s[3..], 122518656);
    assert s[3..][1..] == s[4..];
    HashAcceptStep(122518656, s[4..], 714668928);
    assert s[4..][1..] == s[5..];
  }

  /** From there " wo" are accepted and the product with 'r' shrinks. */
  lemma HashWor(s: seq<byte>)
    requires 9 <= |s| && s[5] == 0x20 && s[6] == 0x77 && s[7] == 0x6f && s[8] == 0x72
    ensures HashFrom(714668928, s[5..]) == 4045008896
  {
    HashAcceptStep(714668928, s[5..], 1394569216);
    assert s[5..][1..] == s[6..];
    HashAcceptStep(1394569216, s[6..], 2744979456);
    assert s[6..][1..] == s[7..];
    HashAcceptStep(2744979456, s[7..], 4045008896);
    assert s[7..][1..] == s[8..];
    HashStopsOnShrink(4045008896, s[8], s[9..]);
    assert [s[8]] + s[9..] == s[8..];
  }

  /** `test_hash`: the hash of "hello world" is 4045008896. The last byte
      accepted is the second 'o'; the product with 'r' shrinks. */
  lemma HashHelloWorld()
    ensures KeyHash([0x68, 0x65, 0x6c, 0x6c, 0x6f, 0x20, 0x77, 0x6f, 0x72, 0x6c, 0x64]) == 4045008896
  {
    var s: seq<byte> := [0x68, 0x65, 0x6c, 0x6c, 0x6f, 0x20, 0x77, 0x6f, 0x72, 0x6c, 0x64];
    HashHello(s);
    HashWor(s);
  }
}
