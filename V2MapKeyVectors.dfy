/** The compression test of `key_compress`: the 325-byte key that cycles
    through `a..z`, `A..Z`, `0..9` compresses to a fixed 128-byte table.
    The proof goes row by row (8 entries each): first the sampled key bytes,
    then the entries computed from them. */
module V2MapKeyVectors {
  import opened Bytes
  import V1Cipher
  import opened V2MapKey

  /** The bytes `a..z`, `A..Z` and `0..9`. */
  const Lowercase: seq<byte> := [
    0x61, 0x62, 0x63, 0x64, 0x65, 0x66, 0x67, 0x68, 0x69, 0x6a, 0x6b, 0x6c, 0x6d,
    0x6e, 0x6f, 0x70, 0x71, 0x72, 0x73, 0x74, 0x75, 0x76, 0x77, 0x78, 0x79, 0x7a]
  const Uppercase: seq<byte> := [
    0x41, 0x42, 0x43, 0x44, 0x45, 0x46, 0x47, 0x48, 0x49, 0x4a, 0x4b, 0x4c, 0x4d,
    0x4e, 0x4f, 0x50, 0x51, 0x52, 0x53, 0x54, 0x55, 0x56, 0x57, 0x58, 0x59, 0x5a]
  const Digits: seq<byte> := [0x30, 0x31, 0x32, 0x33, 0x34, 0x35, 0x36, 0x37, 0x38, 0x39]
  const Alphanumerics: seq<byte> := Lowercase + Uppercase + Digits

  /** The test key: the alphanumerics repeated cyclically, 325 bytes. */
  function GoldenKey(): (key: seq<byte>)
    ensures |key| == 325
  {
    seq(325, i requires 0 <= i => Alphanumerics[i % 62])
  }

  /** The expected table of the test, in rows of 8. */
  const GoldenRow0: seq<byte> := [0x79, 0xf4, 0x00, 0x75, 0x9e, 0x36, 0x00, 0x14]
  const GoldenRow1: seq<byte> := [0x8a, 0x63, 0x00, 0xb4, 0xbe, 0x77, 0x00, 0x17]
  const GoldenRow2: seq<byte> := [0xba, 0x00, 0x37, 0x00, 0x00, 0x00, 0xbf, 0x80]
  const GoldenRow3: seq<byte> := [0x41, 0xbf, 0x83, 0xdd, 0xbc, 0x5c, 0x02, 0x43]
  const GoldenRow4: seq<byte> := [0x14, 0x82, 0x49, 0x02, 0x00, 0x55, 0xbe, 0x6d]
  const GoldenRow5: seq<byte> := [0xbf, 0x49, 0x80, 0x8e, 0x43, 0x00, 0xfa, 0x41]
  const GoldenRow6: seq<byte> := [0x67, 0xa8, 0x17, 0xf4, 0xae, 0x16, 0x15, 0x00]
  const GoldenRow7: seq<byte> := [0xc1, 0x37, 0x82, 0xdd, 0x36, 0x21, 0x38, 0x55]
  const GoldenRow8: seq<byte> := [0x00, 0x79, 0x41, 0x9e, 0x42, 0xc1, 0x36, 0xfa]
  const GoldenRow9: seq<byte> := [0xcf, 0x35, 0x00, 0x00, 0x41, 0xdd, 0x43, 0x42]
  const GoldenRow10: seq<byte> := [0x17, 0x4d, 0x8e, 0x8a, 0xdd, 0x00, 0xbe, 0xf5]
  const GoldenRow11: seq<byte> := [0x38, 0xb4, 0xbf, 0x00, 0x7a, 0xcc, 0x4d, 0x02]
  const GoldenRow12: seq<byte> := [0x00, 0xcf, 0xc1, 0xc1, 0x02, 0xa8, 0x00, 0x16]
  const GoldenRow13: seq<byte> := [0xc1, 0xbf, 0xc2, 0x42, 0x00, 0x49, 0x00, 0xc1]
  const GoldenRow14: seq<byte> := [0xc2, 0xf5, 0x00, 0x17, 0x41, 0xdc, 0x83, 0xc2]
  const GoldenRow15: seq<byte> := [0x00, 0x9e, 0x41, 0xc1, 0x71, 0x36, 0x00, 0x80]
  const GoldenTable: seq<byte> :=
    GoldenRow0 + GoldenRow1 + GoldenRow2 + GoldenRow3 + GoldenRow4 + GoldenRow5 + GoldenRow6 + GoldenRow7
      + GoldenRow8 + GoldenRow9 + GoldenRow10 + GoldenRow11 + GoldenRow12 + GoldenRow13 + GoldenRow14 + GoldenRow15

  /** Row 0 of the table from the key bytes it samples. */
  lemma CompressedRow0(key: seq<byte>)
    requires |key| == 325 && key[39] == 0x4e && key[40] == 0x4f && key[43] == 0x52
      && key[48] == 0x57 && key[55] == 0x33 && key[64] == 0x63 && key[75] == 0x6e
      && key[88] == 0x41
    ensures CompressedKey(key)[0..8] == GoldenRow0
  {
    assert SampleIndex(325, 0) == 39;
    assert TableEntry(key, 0) == 0x79;
    assert SampleIndex(325, 1) == 40;
    assert TableEntry(key, 1) == 0xf4;
    assert SampleIndex(325, 2) == 43;
    assert TableEntry(key, 2) == 0x00;
    assert SampleIndex(325, 3) == 48;
    assert TableEntry(key, 3) == 0x75;
    assert SampleIndex(325, 4) == 55;
    assert TableEntry(key, 4) == 0x9e;
    assert SampleIndex(325, 5) == 64;
    assert TableEntry(key, 5) == 0x36;
    assert SampleIndex(325, 6) == 75;
    assert TableEntry(key, 6) == 0x00;
    assert SampleIndex(325, 7) == 88;
    assert TableEntry(key, 7) == 0x14;
  }

  /** The key bytes row 0 samples. */
  lemma GoldenKeyRow0()
    ensures GoldenKey()[39] == 0x4e && GoldenKey()[40] == 0x4f && GoldenKey()[43] == 0x52
      && GoldenKey()[48] == 0x57 && GoldenKey()[55] == 0x33 && GoldenKey()[64] == 0x63
      && GoldenKey()[75] == 0x6e && GoldenKey()[88] == 0x41
  {
    var key := GoldenKey();
    assert key[39] == Alphanumerics[39];
    assert key[40] == Alphanumerics[40];
    assert key[43] == Alphanumerics[43];
    assert key[48] == Alphanumerics[48];
    assert key[55] == Alphanumerics[55];
    assert key[64] == Alphanumerics[2];
    assert key[75] == Alphanumerics[13];
    assert key[88] == Alphanumerics[26];
  }

  /** Row 1 of the table from the key bytes it samples. */
  lemma CompressedRow1(key: seq<byte>)
    requires |key| == 325 && key[103] == 0x50 && key[120] == 0x36 && key[139] == 0x70
      && key[160] == 0x4b && key[183] == 0x37 && key[208] == 0x77 && key[235] == 0x58
      && key[264] == 0x71
    ensures CompressedKey(key)[8..16] == GoldenRow1
  {
    assert SampleIndex(325, 8) == 103;
    assert TableEntry(key, 8) == 0x8a;
    assert SampleIndex(325, 9) == 120;
    assert TableEntry(key, 9) == 0x63;
    assert SampleIndex(325, 10) == 139;
    assert TableEntry(key, 10) == 0x00;
    assert SampleIndex(325, 11) == 160;
    assert TableEntry(key, 11) == 0xb4;
    assert SampleIndex(325, 12) == 183;
    assert TableEntry(key, 12) == 0xbe;
    assert SampleIndex(325, 13) == 208;
    assert TableEntry(key, 13) == 0x77;
    assert SampleIndex(325, 14) == 235;
    assert TableEntry(key, 14) == 0x00;
    assert SampleIndex(325, 15) == 264;
    assert TableEntry(key, 15) == 0x17;
  }

  /** The key bytes row 1 samples. */
  lemma GoldenKeyRow1()
    ensures GoldenKey()[103] == 0x50 && GoldenKey()[120] == 0x36 && GoldenKey()[139] == 0x70
      && GoldenKey()[160] == 0x4b && GoldenKey()[183] == 0x37 && GoldenKey()[208] == 0x77
      && GoldenKey()[235] == 0x58 && GoldenKey()[264] == 0x71
  {
    var key := GoldenKey();
    assert key[103] == Alphanumerics[41];
    assert key[120] == Alphanumerics[58];
    assert key[139] == Alphanumerics[15];
    assert key[160] == Alphanumerics[36];
    assert key[183] == Alphanumerics[59];
    assert key[208] == Alphanumerics[22];
    assert key[235] == Alphanumerics[49];
    assert key[264] == Alphanumerics[16];
  }

  /** Row 2 of the table from the key bytes it samples. */
  lemma CompressedRow2(key: seq<byte>)
    requires |key| == 325 && key[3] == 0x64 && key[38] == 0x4d && key[75] == 0x6e
      && key[114] == 0x30 && key[155] == 0x46 && key[198] == 0x6d && key[243] == 0x35
      && key[295] == 0x56
    ensures CompressedKey(key)[16..24] == GoldenRow2
  {
    assert SampleIndex(325, 16) == 295;
    assert TableEntry(key, 16) == 0xba;
    assert SampleIndex(325, 17) == 3;
    assert TableEntry(key, 17) == 0x00;
    assert SampleIndex(325, 18) == 38;
    assert TableEntry(key, 18) == 0x37;
    assert SampleIndex(325, 19) == 75;
    assert TableEntry(key, 19) == 0x00;
    assert SampleIndex(325, 20) == 114;
    assert TableEntry(key, 20) == 0x00;
    assert SampleIndex(325, 21) == 155;
    assert TableEntry(key, 21) == 0x00;
    assert SampleIndex(325, 22) == 198;
    assert TableEntry(key, 22) == 0xbf;
    assert SampleIndex(325, 23) == 243;
    assert TableEntry(key, 23) == 0x80;
  }

  /** The key bytes row 2 samples. */
  lemma GoldenKeyRow2()
    ensures GoldenKey()[3] == 0x64 && GoldenKey()[38] == 0x4d && GoldenKey()[75] == 0x6e
      && GoldenKey()[114] == 0x30 && GoldenKey()[155] == 0x46 && GoldenKey()[198] == 0x6d
      && GoldenKey()[243] == 0x35 && GoldenKey()[295] == 0x56
  {
    var key := GoldenKey();
    assert key[3] == Alphanumerics[3];
    assert key[38] == Alphanumerics[38];
    assert key[75] == Alphanumerics[13];
    assert key[114] == Alphanumerics[52];
    assert key[155] == Alphanumerics[31];
    assert key[198] == Alphanumerics[12];
    assert key[243] == Alphanumerics[57];
    assert key[295] == Alphanumerics[47];
  }

  /** Row 3 of the table from the key bytes it samples. */
  lemma CompressedRow3(key: seq<byte>)
    requires |key| == 325 && key[14] == 0x6f && key[25] == 0x7a && key[65] == 0x64
      && key[118] == 0x34 && key[173] == 0x58 && key[230] == 0x53 && key[289] == 0x50
      && key[290] == 0x51
    ensures CompressedKey(key)[24..32] == GoldenRow3
  {
    assert SampleIndex(325, 24) == 290;
    assert TableEntry(key, 24) == 0x41;
    assert SampleIndex(325, 25) == 14;
    assert TableEntry(key, 25) == 0xbf;
    assert SampleIndex(325, 26) == 65;
    assert TableEntry(key, 26) == 0x83;
    assert SampleIndex(325, 27) == 118;
    assert TableEntry(key, 27) == 0xdd;
    assert SampleIndex(325, 28) == 173;
    assert TableEntry(key, 28) == 0xbc;
    assert SampleIndex(325, 29) == 230;
    assert TableEntry(key, 29) == 0x5c;
    assert SampleIndex(325, 30) == 289;
    assert TableEntry(key, 30) == 0x02;
    assert SampleIndex(325, 31) == 25;
    assert TableEntry(key, 31) == 0x43;
  }

  /** The key bytes row 3 samples. */
  lemma GoldenKeyRow3()
    ensures GoldenKey()[14] == 0x6f && GoldenKey()[25] == 0x7a && GoldenKey()[65] == 0x64
      && GoldenKey()[118] == 0x34 && GoldenKey()[173] == 0x58 && GoldenKey()[230] == 0x53
      && GoldenKey()[289] == 0x50 && GoldenKey()[290] == 0x51
  {
    var key := GoldenKey();
    assert key[14] == Alphanumerics[14];
    assert key[25] == Alphanumerics[25];
    assert key[65] == Alphanumerics[3];
    assert key[118] == Alphanumerics[56];
    assert key[173] == Alphanumerics[49];
    assert key[230] == Alphanumerics[44];
    assert key[289] == Alphanumerics[41];
    assert key[290] == Alphanumerics[42];
  }

  /** Row 4 of the table from the key bytes it samples. */
  lemma CompressedRow4(key: seq<byte>)
    requires |key| == 325 && key[35] == 0x4a && key[88] == 0x41 && key[108] == 0x55
      && key[153] == 0x44 && key[183] == 0x37 && key[220] == 0x49 && key[260] == 0x6d
      && key[289] == 0x50
    ensures CompressedKey(key)[32..40] == GoldenRow4
  {
    assert SampleIndex(325, 32) == 88;
    assert TableEntry(key, 32) == 0x14;
    assert SampleIndex(325, 33) == 153;
    assert TableEntry(key, 33) == 0x82;
    assert SampleIndex(325, 34) == 220;
    assert TableEntry(key, 34) == 0x49;
    assert SampleIndex(325, 35) == 289;
    assert TableEntry(key, 35) == 0x02;
    assert SampleIndex(325, 36) == 35;
    assert TableEntry(key, 36) == 0x00;
    assert SampleIndex(325, 37) == 108;
    assert TableEntry(key, 37) == 0x55;
    assert SampleIndex(325, 38) == 183;
    assert TableEntry(key, 38) == 0xbe;
    assert SampleIndex(325, 39) == 260;
    assert TableEntry(key, 39) == 0x6d;
  }

  /** The key bytes row 4 samples. */
  lemma GoldenKeyRow4()
    ensures GoldenKey()[35] == 0x4a && GoldenKey()[88] == 0x41 && GoldenKey()[108] == 0x55
      && GoldenKey()[153] == 0x44 && GoldenKey()[183] == 0x37 && GoldenKey()[220] == 0x49
      && GoldenKey()[260] == 0x6d && GoldenKey()[289] == 0x50
  {
    var key := GoldenKey();
    assert key[35] == Alphanumerics[35];
    assert key[88] == Alphanumerics[26];
    assert key[108] == Alphanumerics[46];
    assert key[153] == Alphanumerics[29];
    assert key[183] == Alphanumerics[59];
    assert key[220] == Alphanumerics[34];
    assert key[260] == Alphanumerics[12];
    assert key[289] == Alphanumerics[41];
  }

  /** Row 5 of the table from the key bytes it samples. */
  lemma CompressedRow5(key: seq<byte>)
    requires |key| == 325 && key[14] == 0x6f && key[25] == 0x7a && key[95] == 0x48
      && key[114] == 0x30 && key[178] == 0x32 && key[205] == 0x74 && key[263] == 0x70
      && key[298] == 0x59
    ensures CompressedKey(key)[40..48] == GoldenRow5
  {
    assert SampleIndex(325, 40) == 14;
    assert TableEntry(key, 40) == 0xbf;
    assert SampleIndex(325, 41) == 95;
    assert TableEntry(key, 41) == 0x49;
    assert SampleIndex(325, 42) == 178;
    assert TableEntry(key, 42) == 0x80;
    assert SampleIndex(325, 43) == 263;
    assert TableEntry(key, 43) == 0x8e;
    assert SampleIndex(325, 44) == 25;
    assert TableEntry(key, 44) == 0x43;
    assert SampleIndex(325, 45) == 114;
    assert TableEntry(key, 45) == 0x00;
    assert SampleIndex(325, 46) == 205;
    assert TableEntry(key, 46) == 0xfa;
    assert SampleIndex(325, 47) == 298;
    assert TableEntry(key, 47) == 0x41;
  }

  /** The key bytes row 5 samples. */
  lemma GoldenKeyRow5()
    ensures GoldenKey()[14] == 0x6f && GoldenKey()[25] == 0x7a && GoldenKey()[95] == 0x48
      && GoldenKey()[114] == 0x30 && GoldenKey()[178] == 0x32 && GoldenKey()[205] == 0x74
      && GoldenKey()[263] == 0x70 && GoldenKey()[298] == 0x59
  {
    var key := GoldenKey();
    assert key[14] == Alphanumerics[14];
    assert key[25] == Alphanumerics[25];
    assert key[95] == Alphanumerics[33];
    assert key[114] == Alphanumerics[52];
    assert key[178] == Alphanumerics[54];
    assert key[205] == Alphanumerics[19];
    assert key[263] == Alphanumerics[15];
    assert key[298] == Alphanumerics[50];
  }

  /** Row 6 of the table from the key bytes it samples. */
  lemma CompressedRow6(key: seq<byte>)
    requires |key| == 325 && key[30] == 0x45 && key[40] == 0x4f && key[68] == 0x67
      && key[139] == 0x70 && key[143] == 0x74 && key[165] == 0x50 && key[248] == 0x61
      && key[264] == 0x71
    ensures CompressedKey(key)[48..56] == GoldenRow6
  {
    assert SampleIndex(325, 48) == 68;
    assert TableEntry(key, 48) == 0x67;
    assert SampleIndex(325, 49) == 165;
    assert TableEntry(key, 49) == 0xa8;
    assert SampleIndex(325, 50) == 264;
    assert TableEntry(key, 50) == 0x17;
    assert SampleIndex(325, 51) == 40;
    assert TableEntry(key, 51) == 0xf4;
    assert SampleIndex(325, 52) == 143;
    assert TableEntry(key, 52) == 0xae;
    assert SampleIndex(325, 53) == 248;
    assert TableEntry(key, 53) == 0x16;
    assert SampleIndex(325, 54) == 30;
    assert TableEntry(key, 54) == 0x15;
    assert SampleIndex(325, 55) == 139;
    assert TableEntry(key, 55) == 0x00;
  }

  /** The key bytes row 6 samples. */
  lemma GoldenKeyRow6()
    ensures GoldenKey()[30] == 0x45 && GoldenKey()[40] == 0x4f && GoldenKey()[68] == 0x67
      && GoldenKey()[139] == 0x70 && GoldenKey()[143] == 0x74 && GoldenKey()[165] == 0x50
      && GoldenKey()[248] == 0x61 && GoldenKey()[264] == 0x71
  {
    var key := GoldenKey();
    assert key[30] == Alphanumerics[30];
    assert key[40] == Alphanumerics[40];
    assert key[68] == Alphanumerics[6];
    assert key[139] == Alphanumerics[15];
    assert key[143] == Alphanumerics[19];
    assert key[165] == Alphanumerics[41];
    assert key[248] == Alphanumerics[0];
    assert key[264] == Alphanumerics[16];
  }

  /** Row 7 of the table from the key bytes it samples. */
  lemma CompressedRow7(key: seq<byte>)
    requires |key| == 325 && key[38] == 0x4d && key[64] == 0x63 && key[108] == 0x55
      && key[153] == 0x44 && key[185] == 0x39 && key[250] == 0x63 && key[270] == 0x77
      && key[308] == 0x38
    ensures CompressedKey(key)[56..64] == GoldenRow7
  {
    assert SampleIndex(325, 56) == 250;
    assert TableEntry(key, 56) == 0xc1;
    assert SampleIndex(325, 57) == 38;
    assert TableEntry(key, 57) == 0x37;
    assert SampleIndex(325, 58) == 153;
    assert TableEntry(key, 58) == 0x82;
    assert SampleIndex(325, 59) == 270;
    assert TableEntry(key, 59) == 0xdd;
    assert SampleIndex(325, 60) == 64;
    assert TableEntry(key, 60) == 0x36;
    assert SampleIndex(325, 61) == 185;
    assert TableEntry(key, 61) == 0x21;
    assert SampleIndex(325, 62) == 308;
    assert TableEntry(key, 62) == 0x38;
    assert SampleIndex(325, 63) == 108;
    assert TableEntry(key, 63) == 0x55;
  }

  /** The key bytes row 7 samples. */
  lemma GoldenKeyRow7()
    ensures GoldenKey()[38] == 0x4d && GoldenKey()[64] == 0x63 && GoldenKey()[108] == 0x55
      && GoldenKey()[153] == 0x44 && GoldenKey()[185] == 0x39 && GoldenKey()[250] == 0x63
      && GoldenKey()[270] == 0x77 && GoldenKey()[308] == 0x38
  {
    var key := GoldenKey();
    assert key[38] == Alphanumerics[38];
    assert key[64] == Alphanumerics[2];
    assert key[108] == Alphanumerics[46];
    assert key[153] == Alphanumerics[29];
    assert key[185] == Alphanumerics[61];
    assert key[250] == Alphanumerics[2];
    assert key[270] == Alphanumerics[22];
    assert key[308] == Alphanumerics[60];
  }

  /** Row 8 of the table from the key bytes it samples. */
  lemma CompressedRow8(key: seq<byte>)
    requires |key| == 325 && key[39] == 0x4e && key[64] == 0x63 && key[113] == 0x5a
      && key[170] == 0x55 && key[205] == 0x74 && key[235] == 0x58 && key[250] == 0x63
      && key[303] == 0x33
    ensures CompressedKey(key)[64..72] == GoldenRow8
  {
    assert SampleIndex(325, 64) == 235;
    assert TableEntry(key, 64) == 0x00;
    assert SampleIndex(325, 65) == 39;
    assert TableEntry(key, 65) == 0x79;
    assert SampleIndex(325, 66) == 170;
    assert TableEntry(key, 66) == 0x41;
    assert SampleIndex(325, 67) == 303;
    assert TableEntry(key, 67) == 0x9e;
    assert SampleIndex(325, 68) == 113;
    assert TableEntry(key, 68) == 0x42;
    assert SampleIndex(325, 69) == 250;
    assert TableEntry(key, 69) == 0xc1;
    assert SampleIndex(325, 70) == 64;
    assert TableEntry(key, 70) == 0x36;
    assert SampleIndex(325, 71) == 205;
    assert TableEntry(key, 71) == 0xfa;
  }

  /** The key bytes row 8 samples. */
  lemma GoldenKeyRow8()
    ensures GoldenKey()[39] == 0x4e && GoldenKey()[64] == 0x63 && GoldenKey()[113] == 0x5a
      && GoldenKey()[170] == 0x55 && GoldenKey()[205] == 0x74 && GoldenKey()[235] == 0x58
      && GoldenKey()[250] == 0x63 && GoldenKey()[303] == 0x33
  {
    var key := GoldenKey();
    assert key[39] == Alphanumerics[39];
    assert key[64] == Alphanumerics[2];
    assert key[113] == Alphanumerics[51];
    assert key[170] == Alphanumerics[46];
    assert key[205] == Alphanumerics[19];
    assert key[235] == Alphanumerics[49];
    assert key[250] == Alphanumerics[2];
    assert key[303] == Alphanumerics[55];
  }

  /** Row 9 of the table from the key bytes it samples. */
  lemma CompressedRow9(key: seq<byte>)
    requires |key| == 325 && key[23] == 0x78 && key[105] == 0x52 && key[118] == 0x34
      && key[139] == 0x70 && key[168] == 0x53 && key[273] == 0x7a && key[290] == 0x51
      && key[315] == 0x66
    ensures CompressedKey(key)[72..80] == GoldenRow9
  {
    assert SampleIndex(325, 72) == 23;
    assert TableEntry(key, 72) == 0xcf;
    assert SampleIndex(325, 73) == 168;
    assert TableEntry(key, 73) == 0x35;
    assert SampleIndex(325, 74) == 315;
    assert TableEntry(key, 74) == 0x00;
    assert SampleIndex(325, 75) == 139;
    assert TableEntry(key, 75) == 0x00;
    assert SampleIndex(325, 76) == 290;
    assert TableEntry(key, 76) == 0x41;
    assert SampleIndex(325, 77) == 118;
    assert TableEntry(key, 77) == 0xdd;
    assert SampleIndex(325, 78) == 273;
    assert TableEntry(key, 78) == 0x43;
    assert SampleIndex(325, 79) == 105;
    assert TableEntry(key, 79) == 0x42;
  }

  /** The key bytes row 9 samples. */
  lemma GoldenKeyRow9()
    ensures GoldenKey()[23] == 0x78 && GoldenKey()[105] == 0x52 && GoldenKey()[118] == 0x34
      && GoldenKey()[139] == 0x70 && GoldenKey()[168] == 0x53 && GoldenKey()[273] == 0x7a
      && GoldenKey()[290] == 0x51 && GoldenKey()[315] == 0x66
  {
    var key := GoldenKey();
    assert key[23] == Alphanumerics[23];
    assert key[105] == Alphanumerics[43];
    assert key[118] == Alphanumerics[56];
    assert key[139] == Alphanumerics[15];
    assert key[168] == Alphanumerics[44];
    assert key[273] == Alphanumerics[25];
    assert key[290] == Alphanumerics[42];
    assert key[315] == Alphanumerics[5];
  }

  /** Row 10 of the table from the key bytes it samples. */
  lemma CompressedRow10(key: seq<byte>)
    requires |key| == 325 && key[100] == 0x4d && key[103] == 0x50 && key[114] == 0x30
      && key[133] == 0x6a && key[263] == 0x70 && key[264] == 0x71 && key[270] == 0x77
      && key[285] == 0x4c
    ensures CompressedKey(key)[80..88] == GoldenRow10
  {
    assert SampleIndex(325, 80) == 264;
    assert TableEntry(key, 80) == 0x17;
    assert SampleIndex(325, 81) == 100;
    assert TableEntry(key, 81) == 0x4d;
    assert SampleIndex(325, 82) == 263;
    assert TableEntry(key, 82) == 0x8e;
    assert SampleIndex(325, 83) == 103;
    assert TableEntry(key, 83) == 0x8a;
    assert SampleIndex(325, 84) == 270;
    assert TableEntry(key, 84) == 0xdd;
    assert SampleIndex(325, 85) == 114;
    assert TableEntry(key, 85) == 0x00;
    assert SampleIndex(325, 86) == 285;
    assert TableEntry(key, 86) == 0xbe;
    assert SampleIndex(325, 87) == 133;
    assert TableEntry(key, 87) == 0xf5;
  }

  /** The key bytes row 10 samples. */
  lemma GoldenKeyRow10()
    ensures GoldenKey()[100] == 0x4d && GoldenKey()[103] == 0x50 && GoldenKey()[114] == 0x30
      && GoldenKey()[133] == 0x6a && GoldenKey()[263] == 0x70 && GoldenKey()[264] == 0x71
      && GoldenKey()[270] == 0x77 && GoldenKey()[285] == 0x4c
  {
    var key := GoldenKey();
    assert key[100] == Alphanumerics[38];
    assert key[103] == Alphanumerics[41];
    assert key[114] == Alphanumerics[52];
    assert key[133] == Alphanumerics[9];
    assert key[263] == Alphanumerics[15];
    assert key[264] == Alphanumerics[16];
    assert key[270] == Alphanumerics[22];
    assert key[285] == Alphanumerics[37];
  }

  /** Row 11 of the table from the key bytes it samples. */
  lemma CompressedRow11(key: seq<byte>)
    requires |key| == 325 && key[14] == 0x6f && key[53] == 0x31 && key[100] == 0x4d
      && key[160] == 0x4b && key[195] == 0x6a && key[238] == 0x30 && key[289] == 0x50
      && key[308] == 0x38
    ensures CompressedKey(key)[88..96] == GoldenRow11
  {
    assert SampleIndex(325, 88) == 308;
    assert TableEntry(key, 88) == 0x38;
    assert SampleIndex(325, 89) == 160;
    assert TableEntry(key, 89) == 0xb4;
    assert SampleIndex(325, 90) == 14;
    assert TableEntry(key, 90) == 0xbf;
    assert SampleIndex(325, 91) == 195;
    assert TableEntry(key, 91) == 0x00;
    assert SampleIndex(325, 92) == 53;
    assert TableEntry(key, 92) == 0x7a;
    assert SampleIndex(325, 93) == 238;
    assert TableEntry(key, 93) == 0xcc;
    assert SampleIndex(325, 94) == 100;
    assert TableEntry(key, 94) == 0x4d;
    assert SampleIndex(325, 95) == 289;
    assert TableEntry(key, 95) == 0x02;
  }

  /** The key bytes row 11 samples. */
  lemma GoldenKeyRow11()
    ensures GoldenKey()[14] == 0x6f && GoldenKey()[53] == 0x31 && GoldenKey()[100] == 0x4d
      && GoldenKey()[160] == 0x4b && GoldenKey()[195] == 0x6a && GoldenKey()[238] == 0x30
      && GoldenKey()[289] == 0x50 && GoldenKey()[308] == 0x38
  {
    var key := GoldenKey();
    assert key[14] == Alphanumerics[14];
    assert key[53] == Alphanumerics[53];
    assert key[100] == Alphanumerics[38];
    assert key[160] == Alphanumerics[36];
    assert key[195] == Alphanumerics[9];
    assert key[238] == Alphanumerics[52];
    assert key[289] == Alphanumerics[41];
    assert key[308] == Alphanumerics[60];
  }

  /** Row 12 of the table from the key bytes it samples. */
  lemma CompressedRow12(key: seq<byte>)
    requires |key| == 325 && key[23] == 0x78 && key[43] == 0x52 && key[90] == 0x43
      && key[155] == 0x46 && key[165] == 0x50 && key[218] == 0x47 && key[248] == 0x61
      && key[289] == 0x50
    ensures CompressedKey(key)[96..104] == GoldenRow12
  {
    assert SampleIndex(325, 96) == 155;
    assert TableEntry(key, 96) == 0x00;
    assert SampleIndex(325, 97) == 23;
    assert TableEntry(key, 97) == 0xcf;
    assert SampleIndex(325, 98) == 218;
    assert TableEntry(key, 98) == 0xc1;
    assert SampleIndex(325, 99) == 90;
    assert TableEntry(key, 99) == 0xc1;
    assert SampleIndex(325, 100) == 289;
    assert TableEntry(key, 100) == 0x02;
    assert SampleIndex(325, 101) == 165;
    assert TableEntry(key, 101) == 0xa8;
    assert SampleIndex(325, 102) == 43;
    assert TableEntry(key, 102) == 0x00;
    assert SampleIndex(325, 103) == 248;
    assert TableEntry(key, 103) == 0x16;
  }

  /** The key bytes row 12 samples. */
  lemma GoldenKeyRow12()
    ensures GoldenKey()[23] == 0x78 && GoldenKey()[43] == 0x52 && GoldenKey()[90] == 0x43
      && GoldenKey()[155] == 0x46 && GoldenKey()[165] == 0x50 && GoldenKey()[218] == 0x47
      && GoldenKey()[248] == 0x61 && GoldenKey()[289] == 0x50
  {
    var key := GoldenKey();
    assert key[23] == Alphanumerics[23];
    assert key[43] == Alphanumerics[43];
    assert key[90] == Alphanumerics[28];
    assert key[155] == Alphanumerics[31];
    assert key[165] == Alphanumerics[41];
    assert key[218] == Alphanumerics[32];
    assert key[248] == Alphanumerics[0];
    assert key[289] == Alphanumerics[41];
  }

  /** Row 13 of the table from the key bytes it samples. */
  lemma CompressedRow13(key: seq<byte>)
    requires |key| == 325 && key[3] == 0x64 && key[10] == 0x6b && key[14] == 0x6f
      && key[113] == 0x5a && key[114] == 0x30 && key[130] == 0x67 && key[220] == 0x49
      && key[225] == 0x4e
    ensures CompressedKey(key)[104..112] == GoldenRow13
  {
    assert SampleIndex(325, 104) == 130;
    assert TableEntry(key, 104) == 0xc1;
    assert SampleIndex(325, 105) == 14;
    assert TableEntry(key, 105) == 0xbf;
    assert SampleIndex(325, 106) == 225;
    assert TableEntry(key, 106) == 0xc2;
    assert SampleIndex(325, 107) == 113;
    assert TableEntry(key, 107) == 0x42;
    assert SampleIndex(325, 108) == 3;
    assert TableEntry(key, 108) == 0x00;
    assert SampleIndex(325, 109) == 220;
    assert TableEntry(key, 109) == 0x49;
    assert SampleIndex(325, 110) == 114;
    assert TableEntry(key, 110) == 0x00;
    assert SampleIndex(325, 111) == 10;
    assert TableEntry(key, 111) == 0xc1;
  }

  /** The key bytes row 13 samples. */
  lemma GoldenKeyRow13()
    ensures GoldenKey()[3] == 0x64 && GoldenKey()[10] == 0x6b && GoldenKey()[14] == 0x6f
      && GoldenKey()[113] == 0x5a && GoldenKey()[114] == 0x30 && GoldenKey()[130] == 0x67
      && GoldenKey()[220] == 0x49 && GoldenKey()[225] == 0x4e
  {
    var key := GoldenKey();
    assert key[3] == Alphanumerics[3];
    assert key[10] == Alphanumerics[10];
    assert key[14] == Alphanumerics[14];
    assert key[113] == Alphanumerics[51];
    assert key[114] == Alphanumerics[52];
    assert key[130] == Alphanumerics[6];
    assert key[220] == Alphanumerics[34];
    assert key[225] == Alphanumerics[39];
  }

  /** Row 14 of the table from the key bytes it samples. */
  lemma CompressedRow14(key: seq<byte>)
    requires |key| == 325 && key[35] == 0x4a && key[78] == 0x71 && key[133] == 0x6a
      && key[170] == 0x55 && key[225] == 0x4e && key[233] == 0x56 && key[264] == 0x71
      && key[313] == 0x64
    ensures CompressedKey(key)[112..120] == GoldenRow14
  {
    assert SampleIndex(325, 112) == 233;
    assert TableEntry(key, 112) == 0xc2;
    assert SampleIndex(325, 113) == 133;
    assert TableEntry(key, 113) == 0xf5;
    assert SampleIndex(325, 114) == 35;
    assert TableEntry(key, 114) == 0x00;
    assert SampleIndex(325, 115) == 264;
    assert TableEntry(key, 115) == 0x17;
    assert SampleIndex(325, 116) == 170;
    assert TableEntry(key, 116) == 0x41;
    assert SampleIndex(325, 117) == 78;
    assert TableEntry(key, 117) == 0xdc;
    assert SampleIndex(325, 118) == 313;
    assert TableEntry(key, 118) == 0x83;
    assert SampleIndex(325, 119) == 225;
    assert TableEntry(key, 119) == 0xc2;
  }

  /** The key bytes row 14 samples. */
  lemma GoldenKeyRow14()
    ensures GoldenKey()[35] == 0x4a && GoldenKey()[78] == 0x71 && GoldenKey()[133] == 0x6a
      && GoldenKey()[170] == 0x55 && GoldenKey()[225] == 0x4e && GoldenKey()[233] == 0x56
      && GoldenKey()[264] == 0x71 && GoldenKey()[313] == 0x64
  {
    var key := GoldenKey();
    assert key[35] == Alphanumerics[35];
    assert key[78] == Alphanumerics[16];
    assert key[133] == Alphanumerics[9];
    assert key[170] == Alphanumerics[46];
    assert key[225] == Alphanumerics[39];
    assert key[233] == Alphanumerics[47];
    assert key[264] == Alphanumerics[16];
    assert key[313] == Alphanumerics[3];
  }

  /** Row 15 of the table from the key bytes it samples. */
  lemma CompressedRow15(key: seq<byte>)
    requires |key| == 325 && key[55] == 0x33 && key[64] == 0x63 && key[139] == 0x70
      && key[140] == 0x71 && key[218] == 0x47 && key[243] == 0x35 && key[298] == 0x59
      && key[315] == 0x66
    ensures CompressedKey(key)[120..128] == GoldenRow15
  {
    assert SampleIndex(325, 120) == 139;
    assert TableEntry(key, 120) == 0x00;
    assert SampleIndex(325, 121) == 55;
    assert TableEntry(key, 121) == 0x9e;
    assert SampleIndex(325, 122) == 298;
    assert TableEntry(key, 122) == 0x41;
    assert SampleIndex(325, 123) == 218;
    assert TableEntry(key, 123) == 0xc1;
    assert SampleIndex(325, 124) == 140;
    assert TableEntry(key, 124) == 0x71;
    assert SampleIndex(325, 125) == 64;
    assert TableEntry(key, 125) == 0x36;
    assert SampleIndex(325, 126) == 315;
    assert TableEntry(key, 126) == 0x00;
    assert SampleIndex(325, 127) == 243;
    assert TableEntry(key, 127) == 0x80;
  }

  /** The key bytes row 15 samples. */
  lemma GoldenKeyRow15()
    ensures GoldenKey()[55] == 0x33 && GoldenKey()[64] == 0x63 && GoldenKey()[139] == 0x70
      && GoldenKey()[140] == 0x71 && GoldenKey()[218] == 0x47 && GoldenKey()[243] == 0x35
      && GoldenKey()[298] == 0x59 && GoldenKey()[315] == 0x66
  {
    var key := GoldenKey();
    assert key[55] == Alphanumerics[55];
    assert key[64] == Alphanumerics[2];
    assert key[139] == Alphanumerics[15];
    assert key[140] == Alphanumerics[16];
    assert key[218] == Alphanumerics[32];
    assert key[243] == Alphanumerics[57];
    assert key[298] == Alphanumerics[50];
    assert key[315] == Alphanumerics[5];
  }

  /** A 128-byte table is the concatenation of its sixteen rows. */
  lemma RowsConcat(t: seq<byte>)
    requires |t| == 128
    ensures t == t[0..8] + t[8..16] + t[16..24] + t[24..32] + t[32..40] + t[40..48] + t[48..56] + t[56..64]
      + t[64..72] + t[72..80] + t[80..88] + t[88..96] + t[96..104] + t[104..112] + t[112..120] + t[120..128]
  {
  }

  /** `test_compress`: the cyclic alphanumeric key compresses to the expected table. */
  lemma GoldenVector()
    ensures CompressedKey(GoldenKey()) == GoldenTable
  {
    GoldenKeyRow0();
    CompressedRow0(GoldenKey());
    GoldenKeyRow1();
    CompressedRow1(GoldenKey());
    GoldenKeyRow2();
    CompressedRow2(GoldenKey());
    GoldenKeyRow3();
    CompressedRow3(GoldenKey());
    GoldenKeyRow4();
    CompressedRow4(GoldenKey());
    GoldenKeyRow5();
    CompressedRow5(GoldenKey());
    GoldenKeyRow6();
    CompressedRow6(GoldenKey());
    GoldenKeyRow7();
    CompressedRow7(GoldenKey());
    GoldenKeyRow8();
    CompressedRow8(GoldenKey());
    GoldenKeyRow9();
    CompressedRow9(GoldenKey());
    GoldenKeyRow10();
    CompressedRow10(GoldenKey());
    GoldenKeyRow11();
    CompressedRow11(GoldenKey());
    GoldenKeyRow12();
    CompressedRow12(GoldenKey());
    GoldenKeyRow13();
    CompressedRow13(GoldenKey());
    GoldenKeyRow14();
    CompressedRow14(GoldenKey());
    GoldenKeyRow15();
    CompressedRow15(GoldenKey());
    RowsConcat(CompressedKey(GoldenKey()));
  }

  /** The rows of the expected table that the decryption test reads. */
  lemma GoldenTableRows()
    ensures |GoldenTable| == 128
    ensures GoldenTable[0..8] == GoldenRow0 && GoldenTable[8..16] == GoldenRow1
    ensures GoldenTable[120..128] == GoldenRow15
  {
  }
}
