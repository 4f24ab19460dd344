/** `init_state` of the RC4 variant of the QMC v2 format. The permutation
    has as many entries as the key has bytes (not 256), its initial entries
    are the indices truncated to a byte, and every index is reduced modulo
    that length. */
module V2Rc4Schedule {
  import opened Bytes

  /** `(0..n).map(|i| i as u8)`: the indices `0..n` truncated to a byte. */
  function InitialState(n: nat): (s: seq<byte>)
    ensures |s| == n
    ensures forall k | 0 <= k < n :: s[k] as int == k % 256
  {
    seq(n, i requires 0 <= i => ByteOf(i % 256))
  }

  /** `swap(a, b)` on a slice; `SwapExchanges` states what it does. */
  function Swap(s: seq<byte>, a: nat, b: nat): (r: seq<byte>)
    requires a < |s| && b < |s|
    ensures |r| == |s|
  {
    s[a := s[b]][b := s[a]]
  }

  /** A swap exchanges two entries and keeps every other one, so the
      multiset of values is unchanged. */
  lemma SwapExchanges(s: seq<byte>, a: nat, b: nat)
    requires a < |s| && b < |s|
    ensures Swap(s, a, b)[a] == s[b] && Swap(s, a, b)[b] == s[a]
    ensures forall k | 0 <= k < |s| && k != a && k != b :: Swap(s, a, b)[k] == s[k]
    ensures multiset(Swap(s, a, b)) == multiset(s)
  {
    assert multiset(s[a := s[b]]) == multiset(s) - multiset{s[a]} + multiset{s[b]};
  }

  /** The running index after round `i`: `(j + s[i] + key[i % n]) % n`. */
  function NextJ(n: nat, j: nat, si: byte, ki: byte): (r: nat)
    requires 1 <= n
    ensures r < n
  {
    (j + si as int + ki as int) % n
  }

  /** The key-scheduling loop of `init_state` from round `i` on, with the
      running index `j`. */
  function KsaFrom(key: seq<byte>, s: seq<byte>, i: nat, j: nat): (r: seq<byte>)
    requires |s| == |key| && i <= |key|
    ensures |r| == |s|
    decreases |key| - i
  {
    if i == |key| then s
    else
      var j' := NextJ(|key|, j, s[i], key[i % |key|]);
      KsaFrom(key, Swap(s, i, j'), i + 1, j')
  }

  /** One round of the key schedule, with the new running index `j'`. */
  lemma KsaFromStep(key: seq<byte>, s: seq<byte>, i: nat, j: nat, j': nat)
    requires |s| == |key| && i < |key|
    requires j' == NextJ(|key|, j, s[i], key[i % |key|])
    ensures KsaFrom(key, Swap(s, i, j'), i + 1, j') == KsaFrom(key, s, i, j)
  {
  }

  /** `init_state(key)`: the permutation the key schedules. */
  function Ksa(key: seq<byte>): (r: seq<byte>)
    ensures |r| == |key|
  {
    KsaFrom(key, InitialState(|key|), 0, 0)
  }

  /** The key schedule only swaps: every round keeps the multiset. */
  lemma {:induction false} KsaFromPermutes(key: seq<byte>, s: seq<byte>, i: nat, j: nat)
    requires |s| == |key| && i <= |key|
    ensures multiset(KsaFrom(key, s, i, j)) == multiset(s)
    decreases |key| - i
  {
    if i < |key| {
      var j' := NextJ(|key|, j, s[i], key[i % |key|]);
      SwapExchanges(s, i, j');
      KsaFromPermutes(key, Swap(s, i, j'), i + 1, j');
    }
  }

  /** `init_state` permutes the initial state: same length, same values
      with the same multiplicities. */
  lemma KsaPermutes(key: seq<byte>)
    ensures |Ksa(key)| == |key| && multiset(Ksa(key)) == multiset(InitialState(|key|))
  {
    KsaFromPermutes(key, InitialState(|key|), 0, 0);
  }

  /** `<[u8]>::swap`: exchanges two entries of a slice in place. */
  method SwapEntries(a: array<byte>, x: nat, y: nat)
    requires x < a.Length && y < a.Length
    modifies a
    ensures a[..] == Swap(old(a[..]), x, y)
  {
    a[x], a[y] := a[y], a[x];
  }

  /** The fill of `init_state`: entry `k` is `k` truncated to a byte. */
  method InitialArray(n: nat) returns (a: array<byte>)
    ensures fresh(a)
    ensures a[..] == InitialState(n)
  {
    a := new byte[n](k requires 0 <= k => ByteOf(k % 256));
  }

  /** `init_state`: fills the state with the truncated indices, then swaps
      entry `i` with entry `j` for every `i`. */
  method InitState(key: seq<byte>) returns (state: array<byte>)
    ensures fresh(state)
    ensures state[..] == Ksa(key)
  {
    var n := |key|;
    state := InitialArray(n);
    var j: nat := 0;
    for i := 0 to n
      invariant state.Length == n
      invariant KsaFrom(key, state[..], i, j) == Ksa(key)
    {
      ghost var before := state[..];
      ghost var j0 := j;
      j := NextJ(n, j, state[i], key[i % n]);
      SwapEntries(state, i, j);
      KsaFromStep(key, before, i, j0, j);
    }
  }

  /** With at most 256 entries the initial state holds distinct values. */
  lemma InitialStateDistinct(n: nat)
    requires n <= 256
    ensures forall a, b | 0 <= a < b < n :: InitialState(n)[a] != InitialState(n)[b]
  {
  }

  /** With more than 256 entries the values repeat (entry 256 is 0 again),
      so the state is not a permutation of its indices. */
  lemma InitialStateRepeats(n: nat)
    requires 256 < n
    ensures InitialState(n)[256] == InitialState(n)[0] == 0
  {
  }
}
