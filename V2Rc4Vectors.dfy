/** The test vector of `rc4.rs`: the key "this is a test key" schedules a
    permutation of 18 entries, and `derive` turns "hello world" into
    `68 75 6b 64 64 24 7f 60 7c 7d 60`, changing the state. The states
    after every round of the key schedule and after every call of
    `generate` are spelled out, one lemma per round. */
module V2Rc4Vectors {
  import opened Bytes
  import opened V2Rc4Schedule
  import opened Keystream
  import opened V2Rc4

  /** "this is a test key". */
  const TestKey: seq<byte> := [0x74, 0x68, 0x69, 0x73, 0x20, 0x69, 0x73, 0x20, 0x61, 0x20, 0x74, 0x65, 0x73, 0x74, 0x20, 0x6B, 0x65, 0x79]

  /** "hello world". */
  const HelloWorld: seq<byte> := [0x68, 0x65, 0x6C, 0x6C, 0x6F, 0x20, 0x77, 0x6F, 0x72, 0x6C, 0x64]

  /** The bytes `derive` produces. */
  const Expected: seq<byte> := [0x68, 0x75, 0x6B, 0x64, 0x64, 0x24, 0x7F, 0x60, 0x7C, 0x7D, 0x60]

  /** The bytes the eleven calls of `generate` return. */
  const TestKeystream: seq<byte> := [0x00, 0x10, 0x07, 0x08, 0x0B, 0x04, 0x08, 0x0F, 0x0E, 0x11, 0x04]

  /** The permutation after each round of `init_state` on the test key. */
  const Round0: seq<byte> := [0x00, 0x01, 0x02, 0x03, 0x04, 0x05, 0x06, 0x07, 0x08, 0x09, 0x0A, 0x0B, 0x0C, 0x0D, 0x0E, 0x0F, 0x10, 0x11]
  const Round1: seq<byte> := [0x08, 0x01, 0x02, 0x03, 0x04, 0x05, 0x06, 0x07, 0x00, 0x09, 0x0A, 0x0B, 0x0C, 0x0D, 0x0E, 0x0F, 0x10, 0x11]
  const Round2: seq<byte> := [0x08, 0x05, 0x02, 0x03, 0x04, 0x01, 0x06, 0x07, 0x00, 0x09, 0x0A, 0x0B, 0x0C, 0x0D, 0x0E, 0x0F, 0x10, 0x11]
  const Round3: seq<byte> := [0x08, 0x05, 0x04, 0x03, 0x02, 0x01, 0x06, 0x07, 0x00, 0x09, 0x0A, 0x0B, 0x0C, 0x0D, 0x0E, 0x0F, 0x10, 0x11]
  const Round4: seq<byte> := [0x08, 0x05, 0x04, 0x0E, 0x02, 0x01, 0x06, 0x07, 0x00, 0x09, 0x0A, 0x0B, 0x0C, 0x0D, 0x03, 0x0F, 0x10, 0x11]
  const Round5: seq<byte> := [0x08, 0x05, 0x04, 0x0E, 0x0C, 0x01, 0x06, 0x07, 0x00, 0x09, 0x0A, 0x0B, 0x02, 0x0D, 0x03, 0x0F, 0x10, 0x11]
  const Round6: seq<byte> := [0x08, 0x05, 0x04, 0x0E, 0x0C, 0x0A, 0x06, 0x07, 0x00, 0x09, 0x01, 0x0B, 0x02, 0x0D, 0x03, 0x0F, 0x10, 0x11]
  const Round7: seq<byte> := [0x08, 0x05, 0x04, 0x0E, 0x0C, 0x06, 0x0A, 0x07, 0x00, 0x09, 0x01, 0x0B, 0x02, 0x0D, 0x03, 0x0F, 0x10, 0x11]
  const Round8: seq<byte> := [0x08, 0x05, 0x04, 0x0E, 0x0C, 0x06, 0x0A, 0x00, 0x07, 0x09, 0x01, 0x0B, 0x02, 0x0D, 0x03, 0x0F, 0x10, 0x11]
  const Round9: seq<byte> := [0x08, 0x05, 0x04, 0x0E, 0x07, 0x06, 0x0A, 0x00, 0x0C, 0x09, 0x01, 0x0B, 0x02, 0x0D, 0x03, 0x0F, 0x10, 0x11]
  const Round10: seq<byte> := [0x08, 0x05, 0x04, 0x0E, 0x07, 0x06, 0x0A, 0x00, 0x0C, 0x09, 0x01, 0x0B, 0x02, 0x0D, 0x03, 0x0F, 0x10, 0x11]
  const Round11: seq<byte> := [0x01, 0x05, 0x04, 0x0E, 0x07, 0x06, 0x0A, 0x00, 0x0C, 0x09, 0x08, 0x0B, 0x02, 0x0D, 0x03, 0x0F, 0x10, 0x11]
  const Round12: seq<byte> := [0x01, 0x05, 0x04, 0x0E, 0x0B, 0x06, 0x0A, 0x00, 0x0C, 0x09, 0x08, 0x07, 0x02, 0x0D, 0x03, 0x0F, 0x10, 0x11]
  const Round13: seq<byte> := [0x01, 0x05, 0x04, 0x0E, 0x0B, 0x06, 0x0A, 0x00, 0x0C, 0x09, 0x08, 0x07, 0x0D, 0x02, 0x03, 0x0F, 0x10, 0x11]
  const Round14: seq<byte> := [0x01, 0x05, 0x04, 0x0E, 0x0B, 0x02, 0x0A, 0x00, 0x0C, 0x09, 0x08, 0x07, 0x0D, 0x06, 0x03, 0x0F, 0x10, 0x11]
  const Round15: seq<byte> := [0x01, 0x05, 0x04, 0x0E, 0x03, 0x02, 0x0A, 0x00, 0x0C, 0x09, 0x08, 0x07, 0x0D, 0x06, 0x0B, 0x0F, 0x10, 0x11]
  const Round16: seq<byte> := [0x0F, 0x05, 0x04, 0x0E, 0x03, 0x02, 0x0A, 0x00, 0x0C, 0x09, 0x08, 0x07, 0x0D, 0x06, 0x0B, 0x01, 0x10, 0x11]
  const Round17: seq<byte> := [0x0F, 0x05, 0x04, 0x0E, 0x03, 0x02, 0x0A, 0x00, 0x0C, 0x10, 0x08, 0x07, 0x0D, 0x06, 0x0B, 0x01, 0x09, 0x11]
  const Round18: seq<byte> := [0x0F, 0x05, 0x04, 0x11, 0x03, 0x02, 0x0A, 0x00, 0x0C, 0x10, 0x08, 0x07, 0x0D, 0x06, 0x0B, 0x01, 0x09, 0x0E]

  /** The generator after each call of `generate`, from `RC4::new` on. */
  const Gen0: Rc4State := Rc4State([0x0F, 0x05, 0x04, 0x11, 0x03, 0x02, 0x0A, 0x00, 0x0C, 0x10, 0x08, 0x07, 0x0D, 0x06, 0x0B, 0x01, 0x09, 0x0E], 0, 0)
  const Gen1: Rc4State := Rc4State([0x0F, 0x02, 0x04, 0x11, 0x03, 0x05, 0x0A, 0x00, 0x0C, 0x10, 0x08, 0x07, 0x0D, 0x06, 0x0B, 0x01, 0x09, 0x0E], 1, 5)
  const Gen2: Rc4State := Rc4State([0x0F, 0x02, 0x10, 0x11, 0x03, 0x05, 0x0A, 0x00, 0x0C, 0x04, 0x08, 0x07, 0x0D, 0x06, 0x0B, 0x01, 0x09, 0x0E], 2, 9)
  const Gen3: Rc4State := Rc4State([0x0F, 0x02, 0x10, 0x0C, 0x03, 0x05, 0x0A, 0x00, 0x11, 0x04, 0x08, 0x07, 0x0D, 0x06, 0x0B, 0x01, 0x09, 0x0E], 3, 8)
  const Gen4: Rc4State := Rc4State([0x0F, 0x02, 0x10, 0x0C, 0x07, 0x05, 0x0A, 0x00, 0x11, 0x04, 0x08, 0x03, 0x0D, 0x06, 0x0B, 0x01, 0x09, 0x0E], 4, 11)
  const Gen5: Rc4State := Rc4State([0x0F, 0x02, 0x10, 0x0C, 0x07, 0x09, 0x0A, 0x00, 0x11, 0x04, 0x08, 0x03, 0x0D, 0x06, 0x0B, 0x01, 0x05, 0x0E], 5, 16)
  const Gen6: Rc4State := Rc4State([0x0F, 0x02, 0x10, 0x0C, 0x07, 0x09, 0x11, 0x00, 0x0A, 0x04, 0x08, 0x03, 0x0D, 0x06, 0x0B, 0x01, 0x05, 0x0E], 6, 8)
  const Gen7: Rc4State := Rc4State([0x0F, 0x02, 0x10, 0x0C, 0x07, 0x09, 0x11, 0x0A, 0x00, 0x04, 0x08, 0x03, 0x0D, 0x06, 0x0B, 0x01, 0x05, 0x0E], 7, 8)
  const Gen8: Rc4State := Rc4State([0x0F, 0x02, 0x10, 0x0C, 0x07, 0x09, 0x11, 0x0A, 0x00, 0x04, 0x08, 0x03, 0x0D, 0x06, 0x0B, 0x01, 0x05, 0x0E], 8, 8)
  const Gen9: Rc4State := Rc4State([0x0F, 0x02, 0x10, 0x0C, 0x07, 0x09, 0x11, 0x0A, 0x00, 0x0D, 0x08, 0x03, 0x04, 0x06, 0x0B, 0x01, 0x05, 0x0E], 9, 12)
  const Gen10: Rc4State := Rc4State([0x0F, 0x02, 0x08, 0x0C, 0x07, 0x09, 0x11, 0x0A, 0x00, 0x0D, 0x10, 0x03, 0x04, 0x06, 0x0B, 0x01, 0x05, 0x0E], 10, 2)
  const Gen11: Rc4State := Rc4State([0x0F, 0x02, 0x08, 0x0C, 0x07, 0x03, 0x11, 0x0A, 0x00, 0x0D, 0x10, 0x09, 0x04, 0x06, 0x0B, 0x01, 0x05, 0x0E], 11, 5)

  /** The initial entries of 18 slots are the indices themselves. */
  lemma InitialState18()
    ensures InitialState(18) == Round0
  {
    var s := InitialState(18);
    assert s[0] as int == 0;
    assert s[1] as int == 1;
    assert s[2] as int == 2;
    assert s[3] as int == 3;
    assert s[4] as int == 4;
    assert s[5] as int == 5;
    assert s[6] as int == 6;
    assert s[7] as int == 7;
    assert s[8] as int == 8;
    assert s[9] as int == 9;
    assert s[10] as int == 10;
    assert s[11] as int == 11;
    assert s[12] as int == 12;
    assert s[13] as int == 13;
    assert s[14] as int == 14;
    assert s[15] as int == 15;
    assert s[16] as int == 16;
    assert s[17] as int == 17;
  }

  /** One round of the key schedule, given the running index `j'` and
      the permutation `s'` it produces. */
  lemma KsaRoundBy(key: seq<byte>, s: seq<byte>, i: nat, j: nat, j': nat, s': seq<byte>)
    requires |s| == |key| && i < |key|
    requires j' == NextJ(|key|, j, s[i], key[i % |key|]) && s' == Swap(s, i, j')
    ensures KsaFrom(key, s, i, j) == KsaFrom(key, s', i + 1, j')
  {
    KsaFromStep(key, s, i, j, j');
  }

  lemma KsaRound0(key: seq<byte>, s: seq<byte>)
    requires key == TestKey && s == Round0
    ensures NextJ(18, 0, s[0], key[0 % 18]) == 8 && Swap(s, 0, 8) == Round1
  {
  }

  lemma KsaRound1(key: seq<byte>, s: seq<byte>)
    requires key == TestKey && s == Round1
    ensures NextJ(18, 8, s[1], key[1 % 18]) == 5 && Swap(s, 1, 5) == Round2
  {
  }

  lemma KsaRound2(key: seq<byte>, s: seq<byte>)
    requires key == TestKey && s == Round2
    ensures NextJ(18, 5, s[2], key[2 % 18]) == 4 && Swap(s, 2, 4) == Round3
  {
  }

  lemma KsaRound3(key: seq<byte>, s: seq<byte>)
    requires key == TestKey && s == Round3
    ensures NextJ(18, 4, s[3], key[3 % 18]) == 14 && Swap(s, 3, 14) == Round4
  {
  }

  lemma KsaRound4(key: seq<byte>, s: seq<byte>)
    requires key == TestKey && s == Round4
    ensures NextJ(18, 14, s[4], key[4 % 18]) == 12 && Swap(s, 4, 12) == Round5
  {
  }

  lemma KsaRound5(key: seq<byte>, s: seq<byte>)
    requires key == TestKey && s == Round5
    ensures NextJ(18, 12, s[5], key[5 % 18]) == 10 && Swap(s, 5, 10) == Round6
  {
  }

  lemma KsaRound6(key: seq<byte>, s: seq<byte>)
    requires key == TestKey && s == Round6
    ensures NextJ(18, 10, s[6], key[6 % 18]) == 5 && Swap(s, 6, 5) == Round7
  {
  }

  lemma KsaRound7(key: seq<byte>, s: seq<byte>)
    requires key == TestKey && s == Round7
    ensures NextJ(18, 5, s[7], key[7 % 18]) == 8 && Swap(s, 7, 8) == Round8
  {
  }

  lemma KsaRound8(key: seq<byte>, s: seq<byte>)
    requires key == TestKey && s == Round8
    ensures NextJ(18, 8, s[8], key[8 % 18]) == 4 && Swap(s, 8, 4) == Round9
  {
  }

  lemma KsaRound9(key: seq<byte>, s: seq<byte>)
    requires key == TestKey && s == Round9
    ensures NextJ(18, 4, s[9], key[9 % 18]) == 9 && Swap(s, 9, 9) == Round10
  {
  }

  lemma KsaRound10(key: seq<byte>, s: seq<byte>)
    requires key == TestKey && s == Round10
    ensures NextJ(18, 9, s[10], key[10 % 18]) == 0 && Swap(s, 10, 0) == Round11
  {
  }

  lemma KsaRound11(key: seq<byte>, s: seq<byte>)
    requires key == TestKey && s == Round11
    ensures NextJ(18, 0, s[11], key[11 % 18]) == 4 && Swap(s, 11, 4) == Round12
  {
  }

  lemma KsaRound12(key: seq<byte>, s: seq<byte>)
    requires key == TestKey && s == Round12
    ensures NextJ(18, 4, s[12], key[12 % 18]) == 13 && Swap(s, 12, 13) == Round13
  {
  }

  lemma KsaRound13(key: seq<byte>, s: seq<byte>)
    requires key == TestKey && s == Round13
    ensures NextJ(18, 13, s[13], key[13 % 18]) == 5 && Swap(s, 13, 5) == Round14
  {
  }

  lemma KsaRound14(key: seq<byte>, s: seq<byte>)
    requires key == TestKey && s == Round14
    ensures NextJ(18, 5, s[14], key[14 % 18]) == 4 && Swap(s, 14, 4) == Round15
  {
  }

  lemma KsaRound15(key: seq<byte>, s: seq<byte>)
    requires key == TestKey && s == Round15
    ensures NextJ(18, 4, s[15], key[15 % 18]) == 0 && Swap(s, 15, 0) == Round16
  {
  }

  lemma KsaRound16(key: seq<byte>, s: seq<byte>)
    requires key == TestKey && s == Round16
    ensures NextJ(18, 0, s[16], key[16 % 18]) == 9 && Swap(s, 16, 9) == Round17
  {
  }

  lemma KsaRound17(key: seq<byte>, s: seq<byte>)
    requires key == TestKey && s == Round17
    ensures NextJ(18, 9, s[17], key[17 % 18]) == 3 && Swap(s, 17, 3) == Round18
  {
  }

  /** `init_state(b"this is a test key")`, round by round. */
  lemma KsaTestKey(key: seq<byte>)
    requires key == TestKey
    ensures Ksa(key) == Round18
  {
    InitialState18();
    KsaRound0(key, Round0);
    KsaRoundBy(key, Round0, 0, 0, 8, Round1);
    KsaRound1(key, Round1);
    KsaRoundBy(key, Round1, 1, 8, 5, Round2);
    KsaRound2(key, Round2);
    KsaRoundBy(key, Round2, 2, 5, 4, Round3);
    KsaRound3(key, Round3);
    KsaRoundBy(key, Round3, 3, 4, 14, Round4);
    KsaRound4(key, Round4);
    KsaRoundBy(key, Round4, 4, 14, 12, Round5);
    KsaRound5(key, Round5);
    KsaRoundBy(key, Round5, 5, 12, 10, Round6);
    KsaRound6(key, Round6);
    KsaRoundBy(key, Round6, 6, 10, 5, Round7);
    KsaRound7(key, Round7);
    KsaRoundBy(key, Round7, 7, 5, 8, Round8);
    KsaRound8(key, Round8);
    KsaRoundBy(key, Round8, 8, 8, 4, Round9);
    KsaRound9(key, Round9);
    KsaRoundBy(key, Round9, 9, 4, 9, Round10);
    KsaRound10(key, Round10);
    KsaRoundBy(key, Round10, 10, 9, 0, Round11);
    KsaRound11(key, Round11);
    KsaRoundBy(key, Round11, 11, 0, 4, Round12);
    KsaRound12(key, Round12);
    KsaRoundBy(key, Round12, 12, 4, 13, Round13);
    KsaRound13(key, Round13);
    KsaRoundBy(key, Round13, 13, 13, 5, Round14);
    KsaRound14(key, Round14);
    KsaRoundBy(key, Round14, 14, 5, 4, Round15);
    KsaRound15(key, Round15);
    KsaRoundBy(key, Round15, 15, 4, 0, Round16);
    KsaRound16(key, Round16);
    KsaRoundBy(key, Round16, 16, 0, 9, Round17);
    KsaRound17(key, Round17);
    KsaRoundBy(key, Round17, 17, 9, 3, Round18);
  }

  /** One call of `generate`, given the indices it computes: `i` and `j`
      move, entries `i` and `j` are exchanged, and entry `k` of the result
      is returned. */
  lemma StepIs(st: Generator, i: nat, j: nat, p: seq<byte>, k: nat)
    requires i == Reduce(st.i + 1, |st.perm|)
    requires j == Reduce(st.j + st.perm[i] as int, |st.perm|)
    requires p == Swap(st.perm, i, j)
    requires k == Reduce(p[i] as int + p[j] as int, |st.perm|)
    ensures Step(st) == (Rc4State(p, i, j), p[k])
  {
  }

  lemma Generate0(st: Generator)
    requires st == Gen0
    ensures Next(st) == Gen1 && Output(st) == 0x00
  {
    assert Swap(st.perm, 1, 5) == Gen1.perm;
    StepIs(st, 1, 5, Gen1.perm, 7);
  }

  lemma Generate1(st: Generator)
    requires st == Gen1
    ensures Next(st) == Gen2 && Output(st) == 0x10
  {
    assert Swap(st.perm, 2, 9) == Gen2.perm;
    StepIs(st, 2, 9, Gen2.perm, 2);
  }

  lemma Generate2(st: Generator)
    requires st == Gen2
    ensures Next(st) == Gen3 && Output(st) == 0x07
  {
    assert Swap(st.perm, 3, 8) == Gen3.perm;
    StepIs(st, 3, 8, Gen3.perm, 11);
  }

  lemma Generate3(st: Generator)
    requires st == Gen3
    ensures Next(st) == Gen4 && Output(st) == 0x08
  {
    assert Swap(st.perm, 4, 11) == Gen4.perm;
    StepIs(st, 4, 11, Gen4.perm, 10);
  }

  lemma Generate4(st: Generator)
    requires st == Gen4
    ensures Next(st) == Gen5 && Output(st) == 0x0B
  {
    assert Swap(st.perm, 5, 16) == Gen5.perm;
    StepIs(st, 5, 16, Gen5.perm, 14);
  }

  lemma Generate5(st: Generator)
    requires st == Gen5
    ensures Next(st) == Gen6 && Output(st) == 0x04
  {
    assert Swap(st.perm, 6, 8) == Gen6.perm;
    StepIs(st, 6, 8, Gen6.perm, 9);
  }

  lemma Generate6(st: Generator)
    requires st == Gen6
    ensures Next(st) == Gen7 && Output(st) == 0x08
  {
    assert Swap(st.perm, 7, 8) == Gen7.perm;
    StepIs(st, 7, 8, Gen7.perm, 10);
  }

  lemma Generate7(st: Generator)
    requires st == Gen7
    ensures Next(st) == Gen8 && Output(st) == 0x0F
  {
    assert Swap(st.perm, 8, 8) == Gen8.perm;
    StepIs(st, 8, 8, Gen8.perm, 0);
  }

  lemma Generate8(st: Generator)
    requires st == Gen8
    ensures Next(st) == Gen9 && Output(st) == 0x0E
  {
    assert Swap(st.perm, 9, 12) == Gen9.perm;
    StepIs(st, 9, 12, Gen9.perm, 17);
  }

  lemma Generate9(st: Generator)
    requires st == Gen9
    ensures Next(st) == Gen10 && Output(st) == 0x11
  {
    assert Swap(st.perm, 10, 2) == Gen10.perm;
    StepIs(st, 10, 2, Gen10.perm, 6);
  }

  lemma Generate10(st: Generator)
    requires st == Gen10
    ensures Next(st) == Gen11 && Output(st) == 0x04
  {
    assert Swap(st.perm, 11, 5) == Gen11.perm;
    StepIs(st, 11, 5, Gen11.perm, 12);
  }

  /** The generator after `k + 1` calls, from the one after `k`. */
  lemma IterateOne(g: Generator, k: nat, cur: Generator, nxt: Generator)
    requires Iterate<Generator>(Next, g, k) == cur && Next(cur) == nxt
    ensures Iterate<Generator>(Next, g, k + 1) == nxt
  {
    IterateSucc<Generator>(Next, g, k);
  }

  /** The first eleven generators from the scheduled one, and the bytes
      they return. */
  lemma IterateTest(g: Generator)
    requires g == Gen0
    ensures Iterate<Generator>(Next, g, 11) == Gen11
    ensures Output(Iterate<Generator>(Next, g, 0)) == 0x00
    ensures Output(Iterate<Generator>(Next, g, 1)) == 0x10
    ensures Output(Iterate<Generator>(Next, g, 2)) == 0x07
    ensures Output(Iterate<Generator>(Next, g, 3)) == 0x08
    ensures Output(Iterate<Generator>(Next, g, 4)) == 0x0B
    ensures Output(Iterate<Generator>(Next, g, 5)) == 0x04
    ensures Output(Iterate<Generator>(Next, g, 6)) == 0x08
    ensures Output(Iterate<Generator>(Next, g, 7)) == 0x0F
    ensures Output(Iterate<Generator>(Next, g, 8)) == 0x0E
    ensures Output(Iterate<Generator>(Next, g, 9)) == 0x11
    ensures Output(Iterate<Generator>(Next, g, 10)) == 0x04
  {
    Generate0(Gen0);
    IterateOne(g, 0, Gen0, Gen1);
    Generate1(Gen1);
    IterateOne(g, 1, Gen1, Gen2);
    Generate2(Gen2);
    IterateOne(g, 2, Gen2, Gen3);
    Generate3(Gen3);
    IterateOne(g, 3, Gen3, Gen4);
    Generate4(Gen4);
    IterateOne(g, 4, Gen4, Gen5);
    Generate5(Gen5);
    IterateOne(g, 5, Gen5, Gen6);
    Generate6(Gen6);
    IterateOne(g, 6, Gen6, Gen7);
    Generate7(Gen7);
    IterateOne(g, 7, Gen7, Gen8);
    Generate8(Gen8);
    IterateOne(g, 8, Gen8, Gen9);
    Generate9(Gen9);
    IterateOne(g, 9, Gen9, Gen10);
    Generate10(Gen10);
    IterateOne(g, 10, Gen10, Gen11);
  }

  /** The bytes XORed into the data are the test keystream. */
  lemma TraceTest(g: Generator)
    requires g == Gen0
    ensures Iterate<Generator>(Next, g, 11) == Gen11
    ensures Trace<Generator>(Next, Output, g, 11) == TestKeystream
  {
    IterateTest(g);
    forall i | 0 <= i < 11
      ensures Output(Iterate<Generator>(Next, g, i)) == TestKeystream[i]
    {
      if i == 0 {
      } else if i == 1 {
      } else if i == 2 {
      } else if i == 3 {
      } else if i == 4 {
      } else if i == 5 {
      } else if i == 6 {
      } else if i == 7 {
      } else if i == 8 {
      } else if i == 9 {
      } else {
        assert i == 10;
      }
    }
    TraceIs<Generator>(Next, Output, g, TestKeystream);
  }

  /** "hello world" XORed with the test keystream. */
  lemma XorTest(data: seq<byte>, ks: seq<byte>)
    requires data == HelloWorld && ks == TestKeystream
    ensures XorBytes(data, ks) == Expected
  {
  }

  /** `test_rc4` on values: the eleven generated bytes XORed into
      "hello world". */
  lemma DeriveTestVector(g: Generator, data: seq<byte>)
    requires g == Gen0 && data == HelloWorld
    ensures DeriveFrom(g, data) == (Gen11, Expected)
  {
    TraceTest(g);
    XorTest(data, TestKeystream);
  }

  /** `test_rc4` on the class: `RC4::new` with the test key, `derive` on
      a copy of "hello world", and a comparison of the state with a clone
      taken before. */
  method TestRc4() returns (out: seq<byte>, changed: bool)
    ensures out == Expected
    ensures changed
  {
    var rc4 := new RC4(TestKey);
    KsaTestKey(TestKey);
    var copy := rc4.state[..];
    var buffer := new byte[11](k requires 0 <= k < 11 => HelloWorld[k]);
    assert buffer[..] == HelloWorld;
    DeriveTestVector(rc4.Model(), HelloWorld);
    rc4.Derive(buffer);
    out := buffer[..];
    changed := rc4.state[..] != copy;
  }
}
