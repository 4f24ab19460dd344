/** Generic facts about a generator that is stepped repeatedly and whose
    outputs are XORed into a buffer, independent of the step itself. */
module Keystream {
  import opened Bytes

  /** `x` after `k` applications of `f`. */
  function Iterate<T>(f: T -> T, x: T, k: nat): T
  {
    if k == 0 then x else f(Iterate(f, x, k - 1))
  }

  /** What `g` reads from `x`, `f(x)`, ..., after 0 to `k - 1` steps. */
  function Trace<T>(f: T -> T, g: T -> byte, x: T, k: nat): (r: seq<byte>)
    ensures |r| == k
  {
    seq(k, i requires 0 <= i < k => g(Iterate(f, x, i)))
  }

  /** One more step. */
  lemma IterateSucc<T>(f: T -> T, x: T, k: nat)
    ensures Iterate(f, x, k + 1) == f(Iterate(f, x, k))
  {
  }

  /** A trace is determined by its entries. */
  lemma TraceIs<T>(f: T -> T, g: T -> byte, x: T, ks: seq<byte>)
    requires forall i | 0 <= i < |ks| :: g(Iterate(f, x, i)) == ks[i]
    ensures Trace(f, g, x, |ks|) == ks
  {
  }

  /** One more step appends one output to the trace. */
  lemma TraceSnoc<T>(f: T -> T, g: T -> byte, x: T, k: nat)
    ensures Trace(f, g, x, k + 1) == Trace(f, g, x, k) + [g(Iterate(f, x, k))]
  {
  }

  /** Running `m` and then `n` steps is running `m + n` steps. */
  lemma {:induction false} IterateAdd<T>(f: T -> T, x: T, m: nat, n: nat)
    ensures Iterate(f, x, m + n) == Iterate(f, Iterate(f, x, m), n)
    decreases n
  {
    if n != 0 {
      IterateAdd(f, x, m, n - 1);
    }
  }

  /** The trace of `m + n` steps is the trace of `m` steps followed by the
      trace of `n` steps from where the first `m` ended. */
  lemma TraceAdd<T>(f: T -> T, g: T -> byte, x: T, m: nat, n: nat)
    ensures Trace(f, g, x, m + n) == Trace(f, g, x, m) + Trace(f, g, Iterate(f, x, m), n)
  {
    forall i | m <= i < m + n
      ensures Iterate(f, x, i) == Iterate(f, Iterate(f, x, m), i - m)
    {
      IterateAdd(f, x, m, i - m);
    }
  }

  /** A property that every step keeps holds after any number of steps. */
  lemma {:induction false} IterateKeeps<T>(f: T -> T, inv: T -> bool, x: T, k: nat)
    requires inv(x)
    requires forall y :: inv(y) ==> inv(f(y))
    ensures inv(Iterate(f, x, k))
  {
    if k != 0 {
      IterateKeeps(f, inv, x, k - 1);
    }
  }

  /** Byte-wise XOR of two sequences of the same length. */
  function XorBytes(data: seq<byte>, ks: seq<byte>): (r: seq<byte>)
    requires |data| == |ks|
    ensures |r| == |data|
  {
    seq(|data|, i requires 0 <= i < |data| => data[i] ^ ks[i])
  }

  /** One more byte XORed with one more output. */
  lemma XorSnoc(data: seq<byte>, ks: seq<byte>, d: byte, k: byte)
    requires |data| == |ks|
    ensures XorBytes(data + [d], ks + [k]) == XorBytes(data, ks) + [d ^ k]
  {
  }

  /** After consuming `k` bytes of `data` from the stream that started at
      `x`: the stream is at `cur`, `ks` holds the outputs used and `out` the
      XORed bytes. */
  ghost predicate Consumed<T>(f: T -> T, g: T -> byte, x: T, data: seq<byte>, k: nat, ks: seq<byte>, cur: T, out: seq<byte>)
  {
    && k <= |data|
    && cur == Iterate(f, x, k)
    && ks == Trace(f, g, x, k)
    && out == XorBytes(data[..k], ks)
  }

  /** Consuming one more byte: the stream steps once, its output joins the
      keystream and the byte XORed with it joins the result. */
  lemma ConsumedStep<T>(f: T -> T, g: T -> byte, x: T, data: seq<byte>, k: nat, ks: seq<byte>, cur: T, out: seq<byte>)
    requires k < |data| && Consumed(f, g, x, data, k, ks, cur, out)
    ensures Consumed(f, g, x, data, k + 1, ks + [g(cur)], f(cur), out + [data[k] ^ g(cur)])
  {
    IterateSucc(f, x, k);
    TraceSnoc(f, g, x, k);
    XorSnoc(data[..k], ks, data[k], g(cur));
    assert data[..k + 1] == data[..k] + [data[k]];
  }

  /** Writing entry `k` of a buffer whose prefix is known extends the
      prefix by the written value. */
  lemma PrefixAfterWrite(prev: seq<byte>, k: nat, v: byte)
    requires k < |prev|
    ensures prev[k := v][..k + 1] == prev[..k] + [v]
  {
  }

  /** XOR distributes over concatenation. */
  lemma XorConcat(a: seq<byte>, b: seq<byte>, ka: seq<byte>, kb: seq<byte>)
    requires |a| == |ka| && |b| == |kb|
    ensures XorBytes(a + b, ka + kb) == XorBytes(a, ka) + XorBytes(b, kb)
  {
  }

  /** Consuming `a + b` from any stream leaves it where consuming `a` and
      then `b` leaves it. */
  lemma StreamConcatState<T>(f: T -> T, x: T, a: seq<byte>, b: seq<byte>)
    ensures Iterate(f, x, |a + b|) == Iterate(f, Iterate(f, x, |a|), |b|)
  {
    IterateAdd(f, x, |a|, |b|);
  }

  /** Consuming `a + b` from any stream XORs `a` with the first `|a|`
      outputs and `b` with the outputs from where `a` left the stream. */
  lemma StreamConcat<T>(f: T -> T, g: T -> byte, x: T, a: seq<byte>, b: seq<byte>)
    ensures XorBytes(a + b, Trace(f, g, x, |a + b|))
      == XorBytes(a, Trace(f, g, x, |a|)) + XorBytes(b, Trace(f, g, Iterate(f, x, |a|), |b|))
  {
    var ka := Trace(f, g, x, |a|);
    var kb := Trace(f, g, Iterate(f, x, |a|), |b|);
    TraceAdd(f, g, x, |a|, |b|);
    assert Trace(f, g, x, |a + b|) == ka + kb;
    XorConcat(a, b, ka, kb);
  }
}
