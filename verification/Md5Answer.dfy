/**
 The digest of "abc", as section A.5 of RFC 1321 has it: every step, the padding and the byte order
 with the values they must have.
 */
module Md5Answer {
  import opened MerkleDamgard
  import opened Md5
  import opened Octets

  const ABC: seq<bv8> := [0x61, 0x62, 0x63]

  /** The padded message. */
  function Padded(): Block {
    [0x61, 0x62, 0x63, 0x80] + ZeroBytes(52) + [0x18] + ZeroBytes(7)
  }

  /** The words of the padded message. */
  predicate HasWords(x: seq<bv32>)
    requires |x| == 16
  {
    && x[0] == 0x80636261 && x[1] == 0x00000000 && x[2] == 0x00000000 && x[3] == 0x00000000
    && x[4] == 0x00000000 && x[5] == 0x00000000 && x[6] == 0x00000000 && x[7] == 0x00000000
    && x[8] == 0x00000000 && x[9] == 0x00000000 && x[10] == 0x00000000 && x[11] == 0x00000000
    && x[12] == 0x00000000 && x[13] == 0x00000000 && x[14] == 0x00000018 && x[15] == 0x00000000
  }

  lemma WordValues()
    ensures LittleEndianWord(0x61, 0x62, 0x63, 0x80) == 0x80636261
    ensures LittleEndianWord(0x18, 0, 0, 0) == 0x18 && LittleEndianWord(0, 0, 0, 0) == 0
  {
  }

  lemma OneWord(b: Block, n: nat, k: nat)
    requires k < n <= 16
    ensures BlockWords(b, n)[k] == LittleEndianWord(b[k * 4], b[k * 4 + 1], b[k * 4 + 2], b[k * 4 + 3])
    decreases n
  {
    hide LittleEndianWord;
    if k < n - 1 {
      OneWord(b, n - 1, k);
    }
  }

  lemma PaddedWord(k: nat)
    requires k < 16
    ensures BlockWords(Padded(), 16)[k] == if k == 0 then 0x80636261 else if k == 14 then 0x18 else 0
  {
    WordValues();
    hide LittleEndianWord, BlockWords;
    OneWord(Padded(), 16, k);
    var p := Padded();
    if k == 0 {
      assert p[0] == 0x61 && p[1] == 0x62 && p[2] == 0x63 && p[3] == 0x80;
    } else if k == 14 {
      assert p[56] == 0x18 && p[57] == 0 && p[58] == 0 && p[59] == 0;
    } else {
      assert p[k * 4] == 0 && p[k * 4 + 1] == 0 && p[k * 4 + 2] == 0 && p[k * 4 + 3] == 0;
    }
  }

  lemma PaddedWords()
    ensures HasWords(BlockWords(Padded(), 16))
  {
    hide BlockWords, Padded;
    forall k | 0 <= k < 16
      ensures BlockWords(Padded(), 16)[k] == if k == 0 then 0x80636261 else if k == 14 then 0x18 else 0
    {
      PaddedWord(k);
    }
  }

  // ---------- The steps ----------

  /** A step on given values of its word, its sine and its rotation. */
  function Next(v: Words, i: nat, w: bv32, t: bv32, s: bv32): Words
    requires 0 < s < 32
  {
    Words(v.d, Turn(v.a, v.b, Aux(i, v.b, v.c, v.d), w, t, s), v.b, v.c)
  }

  lemma OneStep(x: seq<bv32>, i: nat, v: Words, w: bv32, t: bv32, s: bv32, r: Words)
    requires |x| == 16 && 0 < s < 32 && Steps(IV, x, i) == v
    requires x[WordIndex(i)] == w && T(i) == t && ShiftAmount(i) == s
    requires Next(v, i, w, t, s) == r
    ensures Steps(IV, x, i + 1) == r
  {
    hide Turn, Aux, WordIndex, T, ShiftAmount;
  }

  /** The registers after `n` steps. */
  function S0(): Words { Words(0x67452301, 0xefcdab89, 0x98badcfe, 0x10325476) }
  function S1(): Words { Words(0x10325476, 0xd6d117b4, 0xefcdab89, 0x98badcfe) }
  function S2(): Words { Words(0x98badcfe, 0x344a8432, 0xd6d117b4, 0xefcdab89) }
  function S3(): Words { Words(0xefcdab89, 0x2f6fbd72, 0x344a8432, 0xd6d117b4) }
  function S4(): Words { Words(0xd6d117b4, 0x7ad956f2, 0x2f6fbd72, 0x344a8432) }
  function S5(): Words { Words(0x344a8432, 0xc73741ef, 0x7ad956f2, 0x2f6fbd72) }
  function S6(): Words { Words(0x2f6fbd72, 0x8bac3051, 0xc73741ef, 0x7ad956f2) }
  function S7(): Words { Words(0x7ad956f2, 0x207dc67b, 0x8bac3051, 0xc73741ef) }
  function S8(): Words { Words(0xc73741ef, 0x928d99f6, 0x207dc67b, 0x8bac3051) }
  function S9(): Words { Words(0x8bac3051, 0x854b3712, 0x928d99f6, 0x207dc67b) }
  function S10(): Words { Words(0x207dc67b, 0x74e2f284, 0x854b3712, 0x928d99f6) }
  function S11(): Words { Words(0x928d99f6, 0x3020401c, 0x74e2f284, 0x854b3712) }
  function S12(): Words { Words(0x854b3712, 0x5ed49596, 0x3020401c, 0x74e2f284) }
  function S13(): Words { Words(0x74e2f284, 0xdda9b9a6, 0x5ed49596, 0x3020401c) }
  function S14(): Words { Words(0x3020401c, 0xa1051895, 0xdda9b9a6, 0x5ed49596) }
  function S15(): Words { Words(0x5ed49596, 0xe396856b, 0xa1051895, 0xdda9b9a6) }
  function S16(): Words { Words(0xdda9b9a6, 0x72aff2e0, 0xe396856b, 0xa1051895) }
  function S17(): Words { Words(0xa1051895, 0x3e9e9126, 0x72aff2e0, 0xe396856b) }
  function S18(): Words { Words(0xe396856b, 0x4a1d804e, 0x3e9e9126, 0x72aff2e0) }
  function S19(): Words { Words(0x72aff2e0, 0xe25e1652, 0x4a1d804e, 0x3e9e9126) }
  function S20(): Words { Words(0x3e9e9126, 0xb5b204e4, 0xe25e1652, 0x4a1d804e) }
  function S21(): Words { Words(0x4a1d804e, 0x59a8ffda, 0xb5b204e4, 0xe25e1652) }
  function S22(): Words { Words(0xe25e1652, 0x6d002f1e, 0x59a8ffda, 0xb5b204e4) }
  function S23(): Words { Words(0xb5b204e4, 0xabfc7920, 0x6d002f1e, 0x59a8ffda) }
  function S24(): Words { Words(0x59a8ffda, 0x47092c07, 0xabfc7920, 0x6d002f1e) }
  function S25(): Words { Words(0x6d002f1e, 0xb7f268cf, 0x47092c07, 0xabfc7920) }
  function S26(): Words { Words(0xabfc7920, 0x09388eff, 0xb7f268cf, 0x47092c07) }
  function S27(): Words { Words(0x47092c07, 0xfe1623b1, 0x09388eff, 0xb7f268cf) }
  function S28(): Words { Words(0xb7f268cf, 0x786acb8f, 0xfe1623b1, 0x09388eff) }
  function S29(): Words { Words(0x09388eff, 0x790a77fb, 0x786acb8f, 0xfe1623b1) }
  function S30(): Words { Words(0xfe1623b1, 0x9f47e4f8, 0x790a77fb, 0x786acb8f) }
  function S31(): Words { Words(0x786acb8f, 0xa62884aa, 0x9f47e4f8, 0x790a77fb) }
  function S32(): Words { Words(0x790a77fb, 0x726342d3, 0xa62884aa, 0x9f47e4f8) }
  function S33(): Words { Words(0x9f47e4f8, 0xb3707ebf, 0x726342d3, 0xa62884aa) }
  function S34(): Words { Words(0xa62884aa, 0x60127b2e, 0xb3707ebf, 0x726342d3) }
  function S35(): Words { Words(0x726342d3, 0x8d212ff5, 0x60127b2e, 0xb3707ebf) }
  function S36(): Words { Words(0xb3707ebf, 0x3b0875c7, 0x8d212ff5, 0x60127b2e) }
  function S37(): Words { Words(0x60127b2e, 0x21b117b9, 0x3b0875c7, 0x8d212ff5) }
  function S38(): Words { Words(0x8d212ff5, 0x6e7429d5, 0x21b117b9, 0x3b0875c7) }
  function S39(): Words { Words(0x3b0875c7, 0x3575227e, 0x6e7429d5, 0x21b117b9) }
  function S40(): Words { Words(0x21b117b9, 0x5a2f5ea5, 0x3575227e, 0x6e7429d5) }
  function S41(): Words { Words(0x6e7429d5, 0x11de1779, 0x5a2f5ea5, 0x3575227e) }
  function S42(): Words { Words(0x3575227e, 0xfadcaa38, 0x11de1779, 0x5a2f5ea5) }
  function S43(): Words { Words(0x5a2f5ea5, 0x31c465ca, 0xfadcaa38, 0x11de1779) }
  function S44(): Words { Words(0x11de1779, 0x4c6124f4, 0x31c465ca, 0xfadcaa38) }
  function S45(): Words { Words(0xfadcaa38, 0x7f2e507b, 0x4c6124f4, 0x31c465ca) }
  function S46(): Words { Words(0x31c465ca, 0x99d9679d, 0x7f2e507b, 0x4c6124f4) }
  function S47(): Words { Words(0x4c6124f4, 0x8fae6399, 0x99d9679d, 0x7f2e507b) }
  function S48(): Words { Words(0x7f2e507b, 0x7beb9700, 0x8fae6399, 0x99d9679d) }
  function S49(): Words { Words(0x99d9679d, 0x7b201df8, 0x7beb9700, 0x8fae6399) }
  function S50(): Words { Words(0x8fae6399, 0xf4e8e96e, 0x7b201df8, 0x7beb9700) }
  function S51(): Words { Words(0x7beb9700, 0xb298cefd, 0xf4e8e96e, 0x7b201df8) }
  function S52(): Words { Words(0x7b201df8, 0x8bf025c4, 0xb298cefd, 0xf4e8e96e) }
  function S53(): Words { Words(0xf4e8e96e, 0x06cc5e8a, 0x8bf025c4, 0xb298cefd) }
  function S54(): Words { Words(0xb298cefd, 0x5b0d97aa, 0x06cc5e8a, 0x8bf025c4) }
  function S55(): Words { Words(0x8bf025c4, 0x7d632dd0, 0x5b0d97aa, 0x06cc5e8a) }
  function S56(): Words { Words(0x06cc5e8a, 0x3bfa2c27, 0x7d632dd0, 0x5b0d97aa) }
  function S57(): Words { Words(0x5b0d97aa, 0x7f81cc35, 0x3bfa2c27, 0x7d632dd0) }
  function S58(): Words { Words(0x7d632dd0, 0x094454ab, 0x7f81cc35, 0x3bfa2c27) }
  function S59(): Words { Words(0x3bfa2c27, 0x4f9dbe3f, 0x094454ab, 0x7f81cc35) }
  function S60(): Words { Words(0x7f81cc35, 0x7327d604, 0x4f9dbe3f, 0x094454ab) }
  function S61(): Words { Words(0x094454ab, 0x310ade8f, 0x7327d604, 0x4f9dbe3f) }
  function S62(): Words { Words(0x4f9dbe3f, 0x624d8cb2, 0x310ade8f, 0x7327d604) }
  function S63(): Words { Words(0x7327d604, 0xe484b9d8, 0x624d8cb2, 0x310ade8f) }
  function S64(): Words { Words(0x310ade8f, 0xc08226b3, 0xe484b9d8, 0x624d8cb2) }

  lemma StepFacts0()
    ensures Next(S0(), 0, 0x80636261, 0xd76aa478, 7) == S1()
    ensures Next(S1(), 1, 0x00000000, 0xe8c7b756, 12) == S2()
    ensures Next(S2(), 2, 0x00000000, 0x242070db, 17) == S3()
    ensures Next(S3(), 3, 0x00000000, 0xc1bdceee, 22) == S4()
  {
  }

  lemma StepFacts4()
    ensures Next(S4(), 4, 0x00000000, 0xf57c0faf, 7) == S5()
    ensures Next(S5(), 5, 0x00000000, 0x4787c62a, 12) == S6()
    ensures Next(S6(), 6, 0x00000000, 0xa8304613, 17) == S7()
    ensures Next(S7(), 7, 0x00000000, 0xfd469501, 22) == S8()
  {
  }

  lemma StepFacts8()
    ensures Next(S8(), 8, 0x00000000, 0x698098d8, 7) == S9()
    ensures Next(S9(), 9, 0x00000000, 0x8b44f7af, 12) == S10()
    ensures Next(S10(), 10, 0x00000000, 0xffff5bb1, 17) == S11()
    ensures Next(S11(), 11, 0x00000000, 0x895cd7be, 22) == S12()
  {
  }

  lemma StepFacts12()
    ensures Next(S12(), 12, 0x00000000, 0x6b901122, 7) == S13()
    ensures Next(S13(), 13, 0x00000000, 0xfd987193, 12) == S14()
    ensures Next(S14(), 14, 0x00000018, 0xa679438e, 17) == S15()
    ensures Next(S15(), 15, 0x00000000, 0x49b40821, 22) == S16()
  {
  }

  lemma StepFacts16()
    ensures Next(S16(), 16, 0x00000000, 0xf61e2562, 5) == S17()
    ensures Next(S17(), 17, 0x00000000, 0xc040b340, 9) == S18()
    ensures Next(S18(), 18, 0x00000000, 0x265e5a51, 14) == S19()
    ensures Next(S19(), 19, 0x80636261, 0xe9b6c7aa, 20) == S20()
  {
  }

  lemma StepFacts20()
    ensures Next(S20(), 20, 0x00000000, 0xd62f105d, 5) == S21()
    ensures Next(S21(), 21, 0x00000000, 0x02441453, 9) == S22()
    ensures Next(S22(), 22, 0x00000000, 0xd8a1e681, 14) == S23()
    ensures Next(S23(), 23, 0x00000000, 0xe7d3fbc8, 20) == S24()
  {
  }

  lemma StepFacts24()
    ensures Next(S24(), 24, 0x00000000, 0x21e1cde6, 5) == S25()
    ensures Next(S25(), 25, 0x00000018, 0xc33707d6, 9) == S26()
    ensures Next(S26(), 26, 0x00000000, 0xf4d50d87, 14) == S27()
    ensures Next(S27(), 27, 0x00000000, 0x455a14ed, 20) == S28()
  {
  }

  lemma StepFacts28()
    ensures Next(S28(), 28, 0x00000000, 0xa9e3e905, 5) == S29()
    ensures Next(S29(), 29, 0x00000000, 0xfcefa3f8, 9) == S30()
    ensures Next(S30(), 30, 0x00000000, 0x676f02d9, 14) == S31()
    ensures Next(S31(), 31, 0x00000000, 0x8d2a4c8a, 20) == S32()
  {
  }

  lemma StepFacts32()
    ensures Next(S32(), 32, 0x00000000, 0xfffa3942, 4) == S33()
    ensures Next(S33(), 33, 0x00000000, 0x8771f681, 11) == S34()
    ensures Next(S34(), 34, 0x00000000, 0x6d9d6122, 16) == S35()
    ensures Next(S35(), 35, 0x00000018, 0xfde5380c, 23) == S36()
  {
  }

  lemma StepFacts36()
    ensures Next(S36(), 36, 0x00000000, 0xa4beea44, 4) == S37()
    ensures Next(S37(), 37, 0x00000000, 0x4bdecfa9, 11) == S38()
    ensures Next(S38(), 38, 0x00000000, 0xf6bb4b60, 16) == S39()
    ensures Next(S39(), 39, 0x00000000, 0xbebfbc70, 23) == S40()
  {
  }

  lemma StepFacts40()
    ensures Next(S40(), 40, 0x00000000, 0x289b7ec6, 4) == S41()
    ensures Next(S41(), 41, 0x80636261, 0xeaa127fa, 11) == S42()
    ensures Next(S42(), 42, 0x00000000, 0xd4ef3085, 16) == S43()
    ensures Next(S43(), 43, 0x00000000, 0x04881d05, 23) == S44()
  {
  }

  lemma StepFacts44()
    ensures Next(S44(), 44, 0x00000000, 0xd9d4d039, 4) == S45()
    ensures Next(S45(), 45, 0x00000000, 0xe6db99e5, 11) == S46()
    ensures Next(S46(), 46, 0x00000000, 0x1fa27cf8, 16) == S47()
    ensures Next(S47(), 47, 0x00000000, 0xc4ac5665, 23) == S48()
  {
  }

  lemma StepFacts48()
    ensures Next(S48(), 48, 0x80636261, 0xf4292244, 6) == S49()
    ensures Next(S49(), 49, 0x00000000, 0x432aff97, 10) == S50()
    ensures Next(S50(), 50, 0x00000018, 0xab9423a7, 15) == S51()
    ensures Next(S51(), 51, 0x00000000, 0xfc93a039, 21) == S52()
  {
  }

  lemma StepFacts52()
    ensures Next(S52(), 52, 0x00000000, 0x655b59c3, 6) == S53()
    ensures Next(S53(), 53, 0x00000000, 0x8f0ccc92, 10) == S54()
    ensures Next(S54(), 54, 0x00000000, 0xffeff47d, 15) == S55()
    ensures Next(S55(), 55, 0x00000000, 0x85845dd1, 21) == S56()
  {
  }

  lemma StepFacts56()
    ensures Next(S56(), 56, 0x00000000, 0x6fa87e4f, 6) == S57()
    ensures Next(S57(), 57, 0x00000000, 0xfe2ce6e0, 10) == S58()
    ensures Next(S58(), 58, 0x00000000, 0xa3014314, 15) == S59()
    ensures Next(S59(), 59, 0x00000000, 0x4e0811a1, 21) == S60()
  {
  }

  lemma StepFacts60()
    ensures Next(S60(), 60, 0x00000000, 0xf7537e82, 6) == S61()
    ensures Next(S61(), 61, 0x00000000, 0xbd3af235, 10) == S62()
    ensures Next(S62(), 62, 0x00000000, 0x2ad7d2bb, 15) == S63()
    ensures Next(S63(), 63, 0x00000000, 0xeb86d391, 21) == S64()
  {
  }

  lemma Steps0(x: seq<bv32>)
    requires |x| == 16 && HasWords(x) && Steps(IV, x, 0) == S0()
    ensures Steps(IV, x, 8) == S8()
  {
    hide Next, Steps, WordIndex, T, ShiftAmount;
    hide S0, S1, S2, S3, S4, S5, S6, S7, S8;
    Table1();
    StepFacts0();
    StepFacts4();
    OneStep(x, 0, S0(), 0x80636261, 0xd76aa478, 7, S1());
    OneStep(x, 1, S1(), 0x00000000, 0xe8c7b756, 12, S2());
    OneStep(x, 2, S2(), 0x00000000, 0x242070db, 17, S3());
    OneStep(x, 3, S3(), 0x00000000, 0xc1bdceee, 22, S4());
    OneStep(x, 4, S4(), 0x00000000, 0xf57c0faf, 7, S5());
    OneStep(x, 5, S5(), 0x00000000, 0x4787c62a, 12, S6());
    OneStep(x, 6, S6(), 0x00000000, 0xa8304613, 17, S7());
    OneStep(x, 7, S7(), 0x00000000, 0xfd469501, 22, S8());
  }

  lemma Steps8(x: seq<bv32>)
    requires |x| == 16 && HasWords(x) && Steps(IV, x, 8) == S8()
    ensures Steps(IV, x, 16) == S16()
  {
    hide Next, Steps, WordIndex, T, ShiftAmount;
    hide S8, S9, S10, S11, S12, S13, S14, S15, S16;
    Table1();
    StepFacts8();
    StepFacts12();
    OneStep(x, 8, S8(), 0x00000000, 0x698098d8, 7, S9());
    OneStep(x, 9, S9(), 0x00000000, 0x8b44f7af, 12, S10());
    OneStep(x, 10, S10(), 0x00000000, 0xffff5bb1, 17, S11());
    OneStep(x, 11, S11(), 0x00000000, 0x895cd7be, 22, S12());
    OneStep(x, 12, S12(), 0x00000000, 0x6b901122, 7, S13());
    OneStep(x, 13, S13(), 0x00000000, 0xfd987193, 12, S14());
    OneStep(x, 14, S14(), 0x00000018, 0xa679438e, 17, S15());
    OneStep(x, 15, S15(), 0x00000000, 0x49b40821, 22, S16());
  }

  lemma Steps16(x: seq<bv32>)
    requires |x| == 16 && HasWords(x) && Steps(IV, x, 16) == S16()
    ensures Steps(IV, x, 24) == S24()
  {
    hide Next, Steps, WordIndex, T, ShiftAmount;
    hide S16, S17, S18, S19, S20, S21, S22, S23, S24;
    Table2();
    StepFacts16();
    StepFacts20();
    OneStep(x, 16, S16(), 0x00000000, 0xf61e2562, 5, S17());
    OneStep(x, 17, S17(), 0x00000000, 0xc040b340, 9, S18());
    OneStep(x, 18, S18(), 0x00000000, 0x265e5a51, 14, S19());
    OneStep(x, 19, S19(), 0x80636261, 0xe9b6c7aa, 20, S20());
    OneStep(x, 20, S20(), 0x00000000, 0xd62f105d, 5, S21());
    OneStep(x, 21, S21(), 0x00000000, 0x02441453, 9, S22());
    OneStep(x, 22, S22(), 0x00000000, 0xd8a1e681, 14, S23());
    OneStep(x, 23, S23(), 0x00000000, 0xe7d3fbc8, 20, S24());
  }

  lemma Steps24(x: seq<bv32>)
    requires |x| == 16 && HasWords(x) && Steps(IV, x, 24) == S24()
    ensures Steps(IV, x, 32) == S32()
  {
    hide Next, Steps, WordIndex, T, ShiftAmount;
    hide S24, S25, S26, S27, S28, S29, S30, S31, S32;
    Table2();
    StepFacts24();
    StepFacts28();
    OneStep(x, 24, S24(), 0x00000000, 0x21e1cde6, 5, S25());
    OneStep(x, 25, S25(), 0x00000018, 0xc33707d6, 9, S26());
    OneStep(x, 26, S26(), 0x00000000, 0xf4d50d87, 14, S27());
    OneStep(x, 27, S27(), 0x00000000, 0x455a14ed, 20, S28());
    OneStep(x, 28, S28(), 0x00000000, 0xa9e3e905, 5, S29());
    OneStep(x, 29, S29(), 0x00000000, 0xfcefa3f8, 9, S30());
    OneStep(x, 30, S30(), 0x00000000, 0x676f02d9, 14, S31());
    OneStep(x, 31, S31(), 0x00000000, 0x8d2a4c8a, 20, S32());
  }

  lemma Steps32(x: seq<bv32>)
    requires |x| == 16 && HasWords(x) && Steps(IV, x, 32) == S32()
    ensures Steps(IV, x, 40) == S40()
  {
    hide Next, Steps, WordIndex, T, ShiftAmount;
    hide S32, S33, S34, S35, S36, S37, S38, S39, S40;
    Table3();
    StepFacts32();
    StepFacts36();
    OneStep(x, 32, S32(), 0x00000000, 0xfffa3942, 4, S33());
    OneStep(x, 33, S33(), 0x00000000, 0x8771f681, 11, S34());
    OneStep(x, 34, S34(), 0x00000000, 0x6d9d6122, 16, S35());
    OneStep(x, 35, S35(), 0x00000018, 0xfde5380c, 23, S36());
    OneStep(x, 36, S36(), 0x00000000, 0xa4beea44, 4, S37());
    OneStep(x, 37, S37(), 0x00000000, 0x4bdecfa9, 11, S38());
    OneStep(x, 38, S38(), 0x00000000, 0xf6bb4b60, 16, S39());
    OneStep(x, 39, S39(), 0x00000000, 0xbebfbc70, 23, S40());
  }

  lemma Steps40(x: seq<bv32>)
    requires |x| == 16 && HasWords(x) && Steps(IV, x, 40) == S40()
    ensures Steps(IV, x, 48) == S48()
  {
    hide Next, Steps, WordIndex, T, ShiftAmount;
    hide S40, S41, S42, S43, S44, S45, S46, S47, S48;
    Table3();
    StepFacts40();
    StepFacts44();
    OneStep(x, 40, S40(), 0x00000000, 0x289b7ec6, 4, S41());
    OneStep(x, 41, S41(), 0x80636261, 0xeaa127fa, 11, S42());
    OneStep(x, 42, S42(), 0x00000000, 0xd4ef3085, 16, S43());
    OneStep(x, 43, S43(), 0x00000000, 0x04881d05, 23, S44());
    OneStep(x, 44, S44(), 0x00000000, 0xd9d4d039, 4, S45());
    OneStep(x, 45, S45(), 0x00000000, 0xe6db99e5, 11, S46());
    OneStep(x, 46, S46(), 0x00000000, 0x1fa27cf8, 16, S47());
    OneStep(x, 47, S47(), 0x00000000, 0xc4ac5665, 23, S48());
  }

  lemma Steps48(x: seq<bv32>)
    requires |x| == 16 && HasWords(x) && Steps(IV, x, 48) == S48()
    ensures Steps(IV, x, 56) == S56()
  {
    hide Next, Steps, WordIndex, T, ShiftAmount;
    hide S48, S49, S50, S51, S52, S53, S54, S55, S56;
    Table4();
    StepFacts48();
    StepFacts52();
    OneStep(x, 48, S48(), 0x80636261, 0xf4292244, 6, S49());
    OneStep(x, 49, S49(), 0x00000000, 0x432aff97, 10, S50());
    OneStep(x, 50, S50(), 0x00000018, 0xab9423a7, 15, S51());
    OneStep(x, 51, S51(), 0x00000000, 0xfc93a039, 21, S52());
    OneStep(x, 52, S52(), 0x00000000, 0x655b59c3, 6, S53());
    OneStep(x, 53, S53(), 0x00000000, 0x8f0ccc92, 10, S54());
    OneStep(x, 54, S54(), 0x00000000, 0xffeff47d, 15, S55());
    OneStep(x, 55, S55(), 0x00000000, 0x85845dd1, 21, S56());
  }

  lemma Steps56(x: seq<bv32>)
    requires |x| == 16 && HasWords(x) && Steps(IV, x, 56) == S56()
    ensures Steps(IV, x, 64) == S64()
  {
    hide Next, Steps, WordIndex, T, ShiftAmount;
    hide S56, S57, S58, S59, S60, S61, S62, S63, S64;
    Table4();
    StepFacts56();
    StepFacts60();
    OneStep(x, 56, S56(), 0x00000000, 0x6fa87e4f, 6, S57());
    OneStep(x, 57, S57(), 0x00000000, 0xfe2ce6e0, 10, S58());
    OneStep(x, 58, S58(), 0x00000000, 0xa3014314, 15, S59());
    OneStep(x, 59, S59(), 0x00000000, 0x4e0811a1, 21, S60());
    OneStep(x, 60, S60(), 0x00000000, 0xf7537e82, 6, S61());
    OneStep(x, 61, S61(), 0x00000000, 0xbd3af235, 10, S62());
    OneStep(x, 62, S62(), 0x00000000, 0x2ad7d2bb, 15, S63());
    OneStep(x, 63, S63(), 0x00000000, 0xeb86d391, 21, S64());
  }

  lemma AllSteps(x: seq<bv32>)
    requires |x| == 16 && HasWords(x)
    ensures Steps(IV, x, 64) == S64()
  {
    hide Step, HasWords;
    assert Steps(IV, x, 0) == S0();
    FromStart(x);
  }

  lemma FromStart(x: seq<bv32>)
    requires |x| == 16 && HasWords(x) && Steps(IV, x, 0) == S0()
    ensures Steps(IV, x, 64) == S64()
  {
    hide Steps, HasWords, S0, S8, S16, S24, S32, S40, S48, S56, S64;
    Steps0(x);
    Steps8(x);
    Steps16(x);
    Steps24(x);
    Steps32(x);
    Steps40(x);
    Steps48(x);
    Steps56(x);
  }

  /** The words of the digest. */
  function Answer(): Words {
    Words(0x98500190, 0xb04fd23c, 0x7d3f96d6, 0x727fe128)
  }

  lemma FeedForward()
    ensures Add(IV, S64()) == Answer()
  {
  }

  lemma OneBlock()
    ensures Compress(IV, Padded()) == Answer()
  {
    hide HasWords, BlockWords, Steps, Add, S64, Padded, Answer;
    PaddedWords();
    AllSteps(BlockWords(Padded(), 16));
    FeedForward();
  }

  // ---------- Padding and output ----------

  lemma PaddedMessage()
    ensures Pad(LittleEndianLength, ABC) == Padded()
  {
    LittleEndianOfThree();
    hide LittleEndianLength;
    assert ZeroCount(3) == 52;
    assert [0x18, 0, 0, 0, 0, 0, 0, 0] == [0x18] + ZeroBytes(7);
  }

  lemma OutputBytes()
    ensures Serialize(Bytes, SeqOf(Answer()), 4) == [
      0x90, 0x01, 0x50, 0x98, 0x3c, 0xd2, 0x4f, 0xb0,
      0xd6, 0x96, 0x3f, 0x7d, 0x28, 0xe1, 0x7f, 0x72]
  {
    var w := SeqOf(Answer());
    assert Bytes(w[0]) == [0x90, 0x01, 0x50, 0x98] && Bytes(w[1]) == [0x3c, 0xd2, 0x4f, 0xb0];
    assert Bytes(w[2]) == [0xd6, 0x96, 0x3f, 0x7d] && Bytes(w[3]) == [0x28, 0xe1, 0x7f, 0x72];
    hide Bytes;
    assert Serialize(Bytes, w, 2) == Bytes(w[0]) + Bytes(w[1]);
    assert Serialize(Bytes, w, 4) == Serialize(Bytes, w, 2) + Bytes(w[2]) + Bytes(w[3]);
  }

  /** The digest of the example. */
  lemma DigestOfAbc()
    ensures Hash(ABC) == [
      0x90, 0x01, 0x50, 0x98, 0x3c, 0xd2, 0x4f, 0xb0,
      0xd6, 0x96, 0x3f, 0x7d, 0x28, 0xe1, 0x7f, 0x72]
  {
    hide Compress, Serialize, Pad, Padded;
    PaddedMessage();
    FoldBlock(Compress, IV, Padded());
    OneBlock();
    OutputBytes();
  }
}
