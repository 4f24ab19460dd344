/** The RC4 generator of the QMC v2 format: `generate` and `derive` over a
    permutation of the length of the key, with every index reduced modulo
    that length. */
module V2Rc4 {
  import opened Bytes
  import opened V2Rc4Schedule
  import opened Keystream

  /** The generator: the permutation and the two indices. */
  datatype Rc4State = Rc4State(perm: seq<byte>, i: nat, j: nat)

  /** A generator that `generate` can run on: `rem(0)` panics, so the
      permutation must not be empty. */
  type Generator = st: Rc4State | 1 <= |st.perm| witness Rc4State([0], 0, 0)

  /** `x.rem(n)` for a non-zero `n`: an index into the permutation. */
  function Reduce(x: nat, n: nat): (r: nat)
    requires 1 <= n
    ensures r < n
  {
    x % n
  }

  /** `generate`: advance `i`, move `j` by the entry at `i`, swap them, and
      return the entry at the sum of the swapped entries, read after the
      swap. Both indices stay in range. */
  function Step(st: Generator): (r: (Generator, byte))
    ensures |r.0.perm| == |st.perm| && r.0.i < |st.perm| && r.0.j < |st.perm|
    ensures r.0.perm == Swap(st.perm, r.0.i, r.0.j) && r.1 in r.0.perm
  {
    var n := |st.perm|;
    var i := Reduce(st.i + 1, n);
    var j := Reduce(st.j + st.perm[i] as int, n);
    var p := Swap(st.perm, i, j);
    var k := Reduce(p[i] as int + p[j] as int, n);
    (Rc4State(p, i, j), p[k])
  }

  /** `generate` only swaps two entries: the permutation keeps its values,
      and the returned byte is one of them. */
  lemma StepPermutes(st: Generator)
    ensures multiset(Step(st).0.perm) == multiset(st.perm)
    ensures Step(st).1 in st.perm
  {
    var r := Step(st);
    SwapExchanges(st.perm, r.0.i, r.0.j);
    assert r.1 in multiset(r.0.perm);
  }

  /** The generator after one call of `generate`. */
  function Next(st: Generator): Generator
  {
    Step(st).0
  }

  /** The byte one call of `generate` returns. */
  function Output(st: Generator): byte
  {
    Step(st).1
  }

  /** Any number of calls of `generate` keeps the values of the
      permutation. */
  lemma IteratePermutes(st: Generator, k: nat)
    ensures multiset(Iterate<Generator>(Next, st, k).perm) == multiset(st.perm)
  {
    var inv := (y: Generator) => multiset(y.perm) == multiset(st.perm);
    forall y: Generator | inv(y)
      ensures inv(Next(y))
    {
      StepPermutes(y);
    }
    IterateKeeps(Next, inv, st, k);
  }

  /** `derive`: byte `i` of `data` is XORed with the byte the `i`-th call
      of `generate` returns; the result is the new generator and the new
      bytes. An empty buffer never calls `generate`. */
  function DeriveFrom(st: Rc4State, data: seq<byte>): (r: (Rc4State, seq<byte>))
    requires 1 <= |st.perm| || |data| == 0
    ensures |r.1| == |data|
  {
    if |data| == 0 then (st, [])
    else
      var g: Generator := st;
      (Iterate<Generator>(Next, g, |data|), XorBytes(data, Trace<Generator>(Next, Output, g, |data|)))
  }
  /** Deriving `a + b` is deriving `a` and then `b` with the generator the
      first call left: `derive` can be called on a stream piece by piece. */
  lemma DeriveConcat(st: Generator, a: seq<byte>, b: seq<byte>)
    ensures DeriveFrom(st, a + b).0 == DeriveFrom(DeriveFrom(st, a).0, b).0
    ensures DeriveFrom(st, a + b).1 == DeriveFrom(st, a).1 + DeriveFrom(DeriveFrom(st, a).0, b).1
  {
    var first := DeriveFrom(st, a);
    var second := DeriveFrom(first.0, b);
    if |a| == 0 {
      assert a + b == b && first == (st, []);
      assert first.1 + second.1 == second.1;
    } else if |b| == 0 {
      assert a + b == a && second == (first.0, []);
      assert first.1 + second.1 == first.1;
    } else {
      var mid := Iterate<Generator>(Next, st, |a|);
      StreamConcatState<Generator>(Next, st, a, b);
      StreamConcat<Generator>(Next, Output, st, a, b);
      assert first == (mid, XorBytes(a, Trace<Generator>(Next, Output, st, |a|)));
      assert second == (Iterate<Generator>(Next, mid, |b|), XorBytes(b, Trace<Generator>(Next, Output, mid, |b|)));
    }
  }

  /** Two generators in the same state undo each other's `derive`. */
  lemma DeriveInvolution(st: Rc4State, data: seq<byte>)
    requires 1 <= |st.perm| || |data| == 0
    ensures DeriveFrom(st, DeriveFrom(st, data).1).1 == data
  {
  }

  /** One byte of `derive` on values: the generator steps from `before`
      to `after` returning `b`, and byte `k` of the buffer becomes the data
      byte XORed with `b`. */
  lemma DeriveByteStep(st0: Generator, data: seq<byte>, k: nat, ks: seq<byte>,
                       before: Generator, after: Rc4State, b: byte, prev: seq<byte>, cur: seq<byte>)
    requires k < |data| && |prev| == |data| && prev[k..] == data[k..]
    requires Consumed<Generator>(Next, Output, st0, data, k, ks, before, prev[..k])
    requires (after, b) == Step(before)
    requires cur == prev[k := prev[k] ^ b]
    ensures cur[k + 1..] == data[k + 1..]
    ensures Consumed<Generator>(Next, Output, st0, data, k + 1, ks + [b], after, cur[..k + 1])
  {
    assert after == Next(before) && b == Output(before);
    ConsumedStep<Generator>(Next, Output, st0, data, k, ks, before, prev[..k]);
    assert prev[k] == data[k] by {
      assert prev[k..][0] == data[k..][0];
    }
    PrefixAfterWrite(prev, k, data[k] ^ b);
  }

  /** `RC4`: the permutation in a boxed slice and the two indices, all
      updated in place by `generate`. */
  class RC4 {
    var state: array<byte>
    var i: nat
    var j: nat

    /** The generator as a value. */
    ghost function Model(): Rc4State
      reads this, state
    {
      Rc4State(state[..], i, j)
    }

    /** `RC4::new`: the scheduled permutation with both indices at zero. */
    constructor (key: seq<byte>)
      ensures fresh(state)
      ensures Model() == Rc4State(Ksa(key), 0, 0)
    {
      var s := InitState(key);
      state := s;
      i := 0;
      j := 0;
    }

    /** `generate`. The length must be non-zero: `rem(0)` panics. */
    method Generate() returns (b: byte)
      requires 1 <= state.Length
      modifies this, state
      ensures state == old(state)
      ensures (Model(), b) == Step(old(Model()))
    {
      var n := state.Length;
      i := Reduce(i + 1, n);
      j := Reduce(j + state[i] as int, n);
      state[i], state[j] := state[j], state[i];
      var index := Reduce(state[i] as int + state[j] as int, n);
      b := state[index];
    }

    /** The part of `derive` already done: `k` bytes of `data` XORed with
        the first `k` outputs of the generator that started at `st0`. */
    ghost predicate DerivedUpTo(buffer: array<byte>, st0: Generator, data: seq<byte>, k: nat, ks: seq<byte>)
      reads this, state, buffer
    {
      && buffer.Length == |data| && k <= |data|
      && buffer[k..] == data[k..]
      && 1 <= state.Length
      && Consumed<Generator>(Next, Output, st0, data, k, ks, Model(), buffer[..k])
    }

    /** One iteration of `derive`: byte `k` of the buffer is XORed with the
        next generated byte. */
    method DeriveByte(buffer: array<byte>, k: nat, ghost st0: Generator, ghost data: seq<byte>, ghost ks: seq<byte>)
      returns (ghost ks': seq<byte>)
      requires buffer != state && k < buffer.Length
      requires DerivedUpTo(buffer, st0, data, k, ks)
      modifies this, state, buffer
      ensures state == old(state)
      ensures DerivedUpTo(buffer, st0, data, k + 1, ks')
    {
      ghost var before: Generator := Model();
      ghost var prev := buffer[..];
      var b := Generate();
      buffer[k] := buffer[k] ^ b;
      ks' := ks + [b];
      DeriveByteStep(st0, data, k, ks, before, Model(), b, prev, buffer[..]);
    }

    /** `derive`: XORs every byte of `buffer` with the next generated byte.
        The buffer is a different slice from the state (a `&mut` borrow). */
    method Derive(buffer: array<byte>)
      requires buffer != state
      requires 1 <= state.Length || buffer.Length == 0
      modifies this, state, buffer
      ensures state == old(state)
      ensures (Model(), buffer[..]) == DeriveFrom(old(Model()), old(buffer[..]))
    {
      if buffer.Length == 0 {
        return;
      }
      ghost var st0: Generator := Model();
      ghost var data := buffer[..];
      ghost var ks: seq<byte> := [];
      for k := 0 to buffer.Length
        invariant state == old(state)
        invariant DerivedUpTo(buffer, st0, data, k, ks)
      {
        ks := DeriveByte(buffer, k, st0, data, ks);
      }
      assert buffer[..] == buffer[..buffer.Length] && data == data[..buffer.Length];
    }
  }
}
