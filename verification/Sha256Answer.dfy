/**
 The digest of "abc", as the example of FIPS 180-4 has it: the schedule, every round, the padding and
 the byte order with the values they must have.
 */
module Sha256Answer {
  import opened MerkleDamgard
  import opened Octets
  import opened Sha256
  import opened Word32

  const ABC: seq<bv8> := [0x61, 0x62, 0x63]

  /** The padded message. */
  function Padded(): Block {
    [0x61, 0x62, 0x63, 0x80] + ZeroBytes(59) + [0x18]
  }

  // ---------- The message schedule ----------

  const W1: seq<bv32> := [
    0x61626380, 0x00000000, 0x00000000, 0x00000000, 0x00000000, 0x00000000, 0x00000000, 0x00000000,
    0x00000000, 0x00000000, 0x00000000, 0x00000000, 0x00000000, 0x00000000, 0x00000000, 0x00000018
  ]
  const W2: seq<bv32> := [
    0x61626380, 0x000f0000, 0x7da86405, 0x600003c6, 0x3e9d7b78, 0x0183fc00, 0x12dcbfdb, 0xe2e2c38e,
    0xc8215c1a, 0xb73679a2, 0xe5bc3909, 0x32663c5b, 0x9d209d67, 0xec8726cb, 0x702138a4, 0xd3b7973b
  ]
  const W3: seq<bv32> := [
    0x93f5997f, 0x3b68ba73, 0xaff4ffc1, 0xf10a5c62, 0x0a8b3996, 0x72af830a, 0x9409e33e, 0x24641522,
    0x9f47bf94, 0xf0a64f5a, 0x3e246a79, 0x27333ba3, 0x0c4763f2, 0x840abf27, 0x7a290d5d, 0x065c43da
  ]
  const W4: seq<bv32> := [
    0xfb3e89cb, 0xcc7617db, 0xb9e66c34, 0xa9993667, 0x84badedd, 0xc21462bc, 0x1487472c, 0xb20f7a99,
    0xef57b9cd, 0xebe6b238, 0x9fe3095e, 0x78bc8d4b, 0xa43fcf15, 0x668b2ff8, 0xeeaba2cc, 0x12b1edeb
  ]
  const W: seq<bv32> := W1 + W2 + W3 + W4

  predicate Has0(w: seq<bv32>)
    requires |w| == 64
  {
    && w[0] == 0x61626380 && w[1] == 0x00000000 && w[2] == 0x00000000 && w[3] == 0x00000000
    && w[4] == 0x00000000 && w[5] == 0x00000000 && w[6] == 0x00000000 && w[7] == 0x00000000
  }

  predicate Has1(w: seq<bv32>)
    requires |w| == 64
  {
    && w[8] == 0x00000000 && w[9] == 0x00000000 && w[10] == 0x00000000 && w[11] == 0x00000000
    && w[12] == 0x00000000 && w[13] == 0x00000000 && w[14] == 0x00000000 && w[15] == 0x00000018
  }

  predicate Has2(w: seq<bv32>)
    requires |w| == 64
  {
    && w[16] == 0x61626380 && w[17] == 0x000f0000 && w[18] == 0x7da86405 && w[19] == 0x600003c6
    && w[20] == 0x3e9d7b78 && w[21] == 0x0183fc00 && w[22] == 0x12dcbfdb && w[23] == 0xe2e2c38e
  }

  predicate Has3(w: seq<bv32>)
    requires |w| == 64
  {
    && w[24] == 0xc8215c1a && w[25] == 0xb73679a2 && w[26] == 0xe5bc3909 && w[27] == 0x32663c5b
    && w[28] == 0x9d209d67 && w[29] == 0xec8726cb && w[30] == 0x702138a4 && w[31] == 0xd3b7973b
  }

  predicate Has4(w: seq<bv32>)
    requires |w| == 64
  {
    && w[32] == 0x93f5997f && w[33] == 0x3b68ba73 && w[34] == 0xaff4ffc1 && w[35] == 0xf10a5c62
    && w[36] == 0x0a8b3996 && w[37] == 0x72af830a && w[38] == 0x9409e33e && w[39] == 0x24641522
  }

  predicate Has5(w: seq<bv32>)
    requires |w| == 64
  {
    && w[40] == 0x9f47bf94 && w[41] == 0xf0a64f5a && w[42] == 0x3e246a79 && w[43] == 0x27333ba3
    && w[44] == 0x0c4763f2 && w[45] == 0x840abf27 && w[46] == 0x7a290d5d && w[47] == 0x065c43da
  }

  predicate Has6(w: seq<bv32>)
    requires |w| == 64
  {
    && w[48] == 0xfb3e89cb && w[49] == 0xcc7617db && w[50] == 0xb9e66c34 && w[51] == 0xa9993667
    && w[52] == 0x84badedd && w[53] == 0xc21462bc && w[54] == 0x1487472c && w[55] == 0xb20f7a99
  }

  predicate Has7(w: seq<bv32>)
    requires |w| == 64
  {
    && w[56] == 0xef57b9cd && w[57] == 0xebe6b238 && w[58] == 0x9fe3095e && w[59] == 0x78bc8d4b
    && w[60] == 0xa43fcf15 && w[61] == 0x668b2ff8 && w[62] == 0xeeaba2cc && w[63] == 0x12b1edeb
  }

  lemma WordsHave0()
    ensures Has0(W)
  {
  }

  lemma WordsHave1()
    ensures Has1(W)
  {
  }

  lemma WordsHave2()
    ensures Has2(W)
  {
  }

  lemma WordsHave3()
    ensures Has3(W)
  {
  }

  lemma WordsHave4()
    ensures Has4(W)
  {
  }

  lemma WordsHave5()
    ensures Has5(W)
  {
  }

  lemma WordsHave6()
    ensures Has6(W)
  {
  }

  lemma WordsHave7()
    ensures Has7(W)
  {
  }

  function Expand(a: bv32, b: bv32, c: bv32, d: bv32): bv32 {
    Plus(Plus(Plus(Sig1(a), b), Sig0(c)), d)
  }

  lemma OneWord(b: Block, w: seq<bv32>, n: nat)
    requires 16 <= n < 64 == |w| && Schedule(b, n) == w[..n]
    requires Expand(w[n - 2], w[n - 7], w[n - 15], w[n - 16]) == w[n]
    ensures Schedule(b, n + 1) == w[..n + 1]
  {
    hide Schedule, Plus, Sig0, Sig1;
    ScheduleExpanded(b, n, w[..n]);
    assert w[..n + 1] == w[..n] + [w[n]];
  }

  lemma WordFacts16()
    ensures Expand(0x00000000, 0x00000000, 0x00000000, 0x61626380) == 0x61626380
    ensures Expand(0x00000018, 0x00000000, 0x00000000, 0x00000000) == 0x000f0000
    ensures Expand(0x61626380, 0x00000000, 0x00000000, 0x00000000) == 0x7da86405
    ensures Expand(0x000f0000, 0x00000000, 0x00000000, 0x00000000) == 0x600003c6
    ensures Expand(0x7da86405, 0x00000000, 0x00000000, 0x00000000) == 0x3e9d7b78
    ensures Expand(0x600003c6, 0x00000000, 0x00000000, 0x00000000) == 0x0183fc00
    ensures Expand(0x3e9d7b78, 0x00000018, 0x00000000, 0x00000000) == 0x12dcbfdb
    ensures Expand(0x0183fc00, 0x61626380, 0x00000000, 0x00000000) == 0xe2e2c38e
  {
  }

  lemma WordFacts24()
    ensures Expand(0x12dcbfdb, 0x000f0000, 0x00000000, 0x00000000) == 0xc8215c1a
    ensures Expand(0xe2e2c38e, 0x7da86405, 0x00000000, 0x00000000) == 0xb73679a2
    ensures Expand(0xc8215c1a, 0x600003c6, 0x00000000, 0x00000000) == 0xe5bc3909
    ensures Expand(0xb73679a2, 0x3e9d7b78, 0x00000000, 0x00000000) == 0x32663c5b
    ensures Expand(0xe5bc3909, 0x0183fc00, 0x00000000, 0x00000000) == 0x9d209d67
    ensures Expand(0x32663c5b, 0x12dcbfdb, 0x00000000, 0x00000000) == 0xec8726cb
    ensures Expand(0x9d209d67, 0xe2e2c38e, 0x00000018, 0x00000000) == 0x702138a4
    ensures Expand(0xec8726cb, 0xc8215c1a, 0x61626380, 0x00000018) == 0xd3b7973b
  {
  }

  lemma WordFacts32()
    ensures Expand(0x702138a4, 0xb73679a2, 0x000f0000, 0x61626380) == 0x93f5997f
    ensures Expand(0xd3b7973b, 0xe5bc3909, 0x7da86405, 0x000f0000) == 0x3b68ba73
    ensures Expand(0x93f5997f, 0x32663c5b, 0x600003c6, 0x7da86405) == 0xaff4ffc1
    ensures Expand(0x3b68ba73, 0x9d209d67, 0x3e9d7b78, 0x600003c6) == 0xf10a5c62
    ensures Expand(0xaff4ffc1, 0xec8726cb, 0x0183fc00, 0x3e9d7b78) == 0x0a8b3996
    ensures Expand(0xf10a5c62, 0x702138a4, 0x12dcbfdb, 0x0183fc00) == 0x72af830a
    ensures Expand(0x0a8b3996, 0xd3b7973b, 0xe2e2c38e, 0x12dcbfdb) == 0x9409e33e
    ensures Expand(0x72af830a, 0x93f5997f, 0xc8215c1a, 0xe2e2c38e) == 0x24641522
  {
  }

  lemma WordFacts40()
    ensures Expand(0x9409e33e, 0x3b68ba73, 0xb73679a2, 0xc8215c1a) == 0x9f47bf94
    ensures Expand(0x24641522, 0xaff4ffc1, 0xe5bc3909, 0xb73679a2) == 0xf0a64f5a
    ensures Expand(0x9f47bf94, 0xf10a5c62, 0x32663c5b, 0xe5bc3909) == 0x3e246a79
    ensures Expand(0xf0a64f5a, 0x0a8b3996, 0x9d209d67, 0x32663c5b) == 0x27333ba3
    ensures Expand(0x3e246a79, 0x72af830a, 0xec8726cb, 0x9d209d67) == 0x0c4763f2
    ensures Expand(0x27333ba3, 0x9409e33e, 0x702138a4, 0xec8726cb) == 0x840abf27
    ensures Expand(0x0c4763f2, 0x24641522, 0xd3b7973b, 0x702138a4) == 0x7a290d5d
    ensures Expand(0x840abf27, 0x9f47bf94, 0x93f5997f, 0xd3b7973b) == 0x065c43da
  {
  }

  lemma WordFacts48()
    ensures Expand(0x7a290d5d, 0xf0a64f5a, 0x3b68ba73, 0x93f5997f) == 0xfb3e89cb
    ensures Expand(0x065c43da, 0x3e246a79, 0xaff4ffc1, 0x3b68ba73) == 0xcc7617db
    ensures Expand(0xfb3e89cb, 0x27333ba3, 0xf10a5c62, 0xaff4ffc1) == 0xb9e66c34
    ensures Expand(0xcc7617db, 0x0c4763f2, 0x0a8b3996, 0xf10a5c62) == 0xa9993667
    ensures Expand(0xb9e66c34, 0x840abf27, 0x72af830a, 0x0a8b3996) == 0x84badedd
    ensures Expand(0xa9993667, 0x7a290d5d, 0x9409e33e, 0x72af830a) == 0xc21462bc
    ensures Expand(0x84badedd, 0x065c43da, 0x24641522, 0x9409e33e) == 0x1487472c
    ensures Expand(0xc21462bc, 0xfb3e89cb, 0x9f47bf94, 0x24641522) == 0xb20f7a99
  {
  }

  lemma WordFacts56()
    ensures Expand(0x1487472c, 0xcc7617db, 0xf0a64f5a, 0x9f47bf94) == 0xef57b9cd
    ensures Expand(0xb20f7a99, 0xb9e66c34, 0x3e246a79, 0xf0a64f5a) == 0xebe6b238
    ensures Expand(0xef57b9cd, 0xa9993667, 0x27333ba3, 0x3e246a79) == 0x9fe3095e
    ensures Expand(0xebe6b238, 0x84badedd, 0x0c4763f2, 0x27333ba3) == 0x78bc8d4b
    ensures Expand(0x9fe3095e, 0xc21462bc, 0x840abf27, 0x0c4763f2) == 0xa43fcf15
    ensures Expand(0x78bc8d4b, 0x1487472c, 0x7a290d5d, 0x840abf27) == 0x668b2ff8
    ensures Expand(0xa43fcf15, 0xb20f7a99, 0x065c43da, 0x7a290d5d) == 0xeeaba2cc
    ensures Expand(0x668b2ff8, 0xef57b9cd, 0xfb3e89cb, 0x065c43da) == 0x12b1edeb
  {
  }

  lemma Words16(b: Block, w: seq<bv32>)
    requires |w| == 64 && Has0(w) && Has1(w) && Has2(w) && Schedule(b, 16) == w[..16]
    ensures Schedule(b, 24) == w[..24]
  {
    hide Expand, Schedule;
    WordFacts16();
    OneWord(b, w, 16);
    OneWord(b, w, 17);
    OneWord(b, w, 18);
    OneWord(b, w, 19);
    OneWord(b, w, 20);
    OneWord(b, w, 21);
    OneWord(b, w, 22);
    OneWord(b, w, 23);
  }

  lemma Words24(b: Block, w: seq<bv32>)
    requires |w| == 64 && Has1(w) && Has2(w) && Has3(w) && Schedule(b, 24) == w[..24]
    ensures Schedule(b, 32) == w[..32]
  {
    hide Expand, Schedule;
    WordFacts24();
    OneWord(b, w, 24);
    OneWord(b, w, 25);
    OneWord(b, w, 26);
    OneWord(b, w, 27);
    OneWord(b, w, 28);
    OneWord(b, w, 29);
    OneWord(b, w, 30);
    OneWord(b, w, 31);
  }

  lemma Words32(b: Block, w: seq<bv32>)
    requires |w| == 64 && Has2(w) && Has3(w) && Has4(w) && Schedule(b, 32) == w[..32]
    ensures Schedule(b, 40) == w[..40]
  {
    hide Expand, Schedule;
    WordFacts32();
    OneWord(b, w, 32);
    OneWord(b, w, 33);
    OneWord(b, w, 34);
    OneWord(b, w, 35);
    OneWord(b, w, 36);
    OneWord(b, w, 37);
    OneWord(b, w, 38);
    OneWord(b, w, 39);
  }

  lemma Words40(b: Block, w: seq<bv32>)
    requires |w| == 64 && Has3(w) && Has4(w) && Has5(w) && Schedule(b, 40) == w[..40]
    ensures Schedule(b, 48) == w[..48]
  {
    hide Expand, Schedule;
    WordFacts40();
    OneWord(b, w, 40);
    OneWord(b, w, 41);
    OneWord(b, w, 42);
    OneWord(b, w, 43);
    OneWord(b, w, 44);
    OneWord(b, w, 45);
    OneWord(b, w, 46);
    OneWord(b, w, 47);
  }

  lemma Words48(b: Block, w: seq<bv32>)
    requires |w| == 64 && Has4(w) && Has5(w) && Has6(w) && Schedule(b, 48) == w[..48]
    ensures Schedule(b, 56) == w[..56]
  {
    hide Expand, Schedule;
    WordFacts48();
    OneWord(b, w, 48);
    OneWord(b, w, 49);
    OneWord(b, w, 50);
    OneWord(b, w, 51);
    OneWord(b, w, 52);
    OneWord(b, w, 53);
    OneWord(b, w, 54);
    OneWord(b, w, 55);
  }

  lemma Words56(b: Block, w: seq<bv32>)
    requires |w| == 64 && Has5(w) && Has6(w) && Has7(w) && Schedule(b, 56) == w[..56]
    ensures Schedule(b, 64) == w[..64]
  {
    hide Expand, Schedule;
    WordFacts56();
    OneWord(b, w, 56);
    OneWord(b, w, 57);
    OneWord(b, w, 58);
    OneWord(b, w, 59);
    OneWord(b, w, 60);
    OneWord(b, w, 61);
    OneWord(b, w, 62);
    OneWord(b, w, 63);
  }

  lemma LoadedWord(n: nat)
    requires n < 16
    ensures BigEndianWord(Padded()[n * 4], Padded()[n * 4 + 1], Padded()[n * 4 + 2], Padded()[n * 4 + 3]) == W[n]
  {
    LoadedValues();
    hide BigEndianWord;
    FirstWords(n);
    var p := Padded();
    if n == 0 {
      assert p[0] == 0x61 && p[1] == 0x62 && p[2] == 0x63 && p[3] == 0x80;
    } else if n == 15 {
      assert p[60] == 0 && p[61] == 0 && p[62] == 0 && p[63] == 0x18;
    } else {
      assert p[n * 4] == 0 && p[n * 4 + 1] == 0 && p[n * 4 + 2] == 0 && p[n * 4 + 3] == 0;
    }
  }

  lemma LoadedValues()
    ensures BigEndianWord(0x61, 0x62, 0x63, 0x80) == 0x61626380
    ensures BigEndianWord(0, 0, 0, 0x18) == 0x18 && BigEndianWord(0, 0, 0, 0) == 0
  {
  }

  lemma FirstWords(n: nat)
    requires n < 16
    ensures W[n] == if n == 0 then 0x61626380 else if n == 15 then 0x18 else 0
  {
  }

  lemma NextPrefix(w: seq<bv32>, n: nat)
    requires n < |w|
    ensures w[..n + 1] == w[..n] + [w[n]]
  {
  }

  lemma {:induction false} Loaded(n: nat)
    requires n <= 16
    ensures Schedule(Padded(), n) == W[..n]
    decreases n
  {
    hide Schedule, Padded, BigEndianWord;
    if n == 0 {
      ScheduleStart(Padded());
    } else {
      Loaded(n - 1);
      LoadedWord(n - 1);
      ScheduleLoaded(Padded(), n - 1);
      NextPrefix(W, n - 1);
    }
  }

  lemma WholeSchedule(b: Block, w: seq<bv32>)
    requires |w| == 64 && Schedule(b, 16) == w[..16]
    requires Has0(w) && Has1(w) && Has2(w) && Has3(w) && Has4(w) && Has5(w) && Has6(w) && Has7(w)
    ensures Schedule(b, 64) == w
  {
    hide Schedule, Has0, Has1, Has2, Has3, Has4, Has5, Has6, Has7;
    Words16(b, w);
    Words24(b, w);
    Words32(b, w);
    Words40(b, w);
    Words48(b, w);
    Words56(b, w);
    assert w[..64] == w;
  }

  // ---------- The rounds ----------

  predicate Takes0(k: seq<bv32>)
    requires |k| == 64
  {
    && k[0] == 0x428a2f98 && k[1] == 0x71374491 && k[2] == 0xb5c0fbcf && k[3] == 0xe9b5dba5
    && k[4] == 0x3956c25b && k[5] == 0x59f111f1 && k[6] == 0x923f82a4 && k[7] == 0xab1c5ed5
  }

  predicate Takes1(k: seq<bv32>)
    requires |k| == 64
  {
    && k[8] == 0xd807aa98 && k[9] == 0x12835b01 && k[10] == 0x243185be && k[11] == 0x550c7dc3
    && k[12] == 0x72be5d74 && k[13] == 0x80deb1fe && k[14] == 0x9bdc06a7 && k[15] == 0xc19bf174
  }

  predicate Takes2(k: seq<bv32>)
    requires |k| == 64
  {
    && k[16] == 0xe49b69c1 && k[17] == 0xefbe4786 && k[18] == 0x0fc19dc6 && k[19] == 0x240ca1cc
    && k[20] == 0x2de92c6f && k[21] == 0x4a7484aa && k[22] == 0x5cb0a9dc && k[23] == 0x76f988da
  }

  predicate Takes3(k: seq<bv32>)
    requires |k| == 64
  {
    && k[24] == 0x983e5152 && k[25] == 0xa831c66d && k[26] == 0xb00327c8 && k[27] == 0xbf597fc7
    && k[28] == 0xc6e00bf3 && k[29] == 0xd5a79147 && k[30] == 0x06ca6351 && k[31] == 0x14292967
  }

  predicate Takes4(k: seq<bv32>)
    requires |k| == 64
  {
    && k[32] == 0x27b70a85 && k[33] == 0x2e1b2138 && k[34] == 0x4d2c6dfc && k[35] == 0x53380d13
    && k[36] == 0x650a7354 && k[37] == 0x766a0abb && k[38] == 0x81c2c92e && k[39] == 0x92722c85
  }

  predicate Takes5(k: seq<bv32>)
    requires |k| == 64
  {
    && k[40] == 0xa2bfe8a1 && k[41] == 0xa81a664b && k[42] == 0xc24b8b70 && k[43] == 0xc76c51a3
    && k[44] == 0xd192e819 && k[45] == 0xd6990624 && k[46] == 0xf40e3585 && k[47] == 0x106aa070
  }

  predicate Takes6(k: seq<bv32>)
    requires |k| == 64
  {
    && k[48] == 0x19a4c116 && k[49] == 0x1e376c08 && k[50] == 0x2748774c && k[51] == 0x34b0bcb5
    && k[52] == 0x391c0cb3 && k[53] == 0x4ed8aa4a && k[54] == 0x5b9cca4f && k[55] == 0x682e6ff3
  }

  predicate Takes7(k: seq<bv32>)
    requires |k| == 64
  {
    && k[56] == 0x748f82ee && k[57] == 0x78a5636f && k[58] == 0x84c87814 && k[59] == 0x8cc70208
    && k[60] == 0x90befffa && k[61] == 0xa4506ceb && k[62] == 0xbef9a3f7 && k[63] == 0xc67178f2
  }

  lemma ConstantsTaken0()
    ensures Takes0(K)
  {
  }

  lemma ConstantsTaken1()
    ensures Takes1(K)
  {
  }

  lemma ConstantsTaken2()
    ensures Takes2(K)
  {
  }

  lemma ConstantsTaken3()
    ensures Takes3(K)
  {
  }

  lemma ConstantsTaken4()
    ensures Takes4(K)
  {
  }

  lemma ConstantsTaken5()
    ensures Takes5(K)
  {
  }

  lemma ConstantsTaken6()
    ensures Takes6(K)
  {
  }

  lemma ConstantsTaken7()
    ensures Takes7(K)
  {
  }

  /** The working variables after `n` rounds. */
  function S0(): Words {
    Words(0x6a09e667, 0xbb67ae85, 0x3c6ef372, 0xa54ff53a, 0x510e527f, 0x9b05688c, 0x1f83d9ab, 0x5be0cd19)
  }
  function S1(): Words {
    Words(0x5d6aebcd, 0x6a09e667, 0xbb67ae85, 0x3c6ef372, 0xfa2a4622, 0x510e527f, 0x9b05688c, 0x1f83d9ab)
  }
  function S2(): Words {
    Words(0x5a6ad9ad, 0x5d6aebcd, 0x6a09e667, 0xbb67ae85, 0x78ce7989, 0xfa2a4622, 0x510e527f, 0x9b05688c)
  }
  function S3(): Words {
    Words(0xc8c347a7, 0x5a6ad9ad, 0x5d6aebcd, 0x6a09e667, 0xf92939eb, 0x78ce7989, 0xfa2a4622, 0x510e527f)
  }
  function S4(): Words {
    Words(0xd550f666, 0xc8c347a7, 0x5a6ad9ad, 0x5d6aebcd, 0x24e00850, 0xf92939eb, 0x78ce7989, 0xfa2a4622)
  }
  function S5(): Words {
    Words(0x04409a6a, 0xd550f666, 0xc8c347a7, 0x5a6ad9ad, 0x43ada245, 0x24e00850, 0xf92939eb, 0x78ce7989)
  }
  function S6(): Words {
    Words(0x2b4209f5, 0x04409a6a, 0xd550f666, 0xc8c347a7, 0x714260ad, 0x43ada245, 0x24e00850, 0xf92939eb)
  }
  function S7(): Words {
    Words(0xe5030380, 0x2b4209f5, 0x04409a6a, 0xd550f666, 0x9b27a401, 0x714260ad, 0x43ada245, 0x24e00850)
  }
  function S8(): Words {
    Words(0x85a07b5f, 0xe5030380, 0x2b4209f5, 0x04409a6a, 0x0c657a79, 0x9b27a401, 0x714260ad, 0x43ada245)
  }
  function S9(): Words {
    Words(0x8e04ecb9, 0x85a07b5f, 0xe5030380, 0x2b4209f5, 0x32ca2d8c, 0x0c657a79, 0x9b27a401, 0x714260ad)
  }
  function S10(): Words {
    Words(0x8c87346b, 0x8e04ecb9, 0x85a07b5f, 0xe5030380, 0x1cc92596, 0x32ca2d8c, 0x0c657a79, 0x9b27a401)
  }
  function S11(): Words {
    Words(0x4798a3f4, 0x8c87346b, 0x8e04ecb9, 0x85a07b5f, 0x436b23e8, 0x1cc92596, 0x32ca2d8c, 0x0c657a79)
  }
  function S12(): Words {
    Words(0xf71fc5a9, 0x4798a3f4, 0x8c87346b, 0x8e04ecb9, 0x816fd6e9, 0x436b23e8, 0x1cc92596, 0x32ca2d8c)
  }
  function S13(): Words {
    Words(0x87912990, 0xf71fc5a9, 0x4798a3f4, 0x8c87346b, 0x1e578218, 0x816fd6e9, 0x436b23e8, 0x1cc92596)
  }
  function S14(): Words {
    Words(0xd932eb16, 0x87912990, 0xf71fc5a9, 0x4798a3f4, 0x745a48de, 0x1e578218, 0x816fd6e9, 0x436b23e8)
  }
  function S15(): Words {
    Words(0xc0645fde, 0xd932eb16, 0x87912990, 0xf71fc5a9, 0x0b92f20c, 0x745a48de, 0x1e578218, 0x816fd6e9)
  }
  function S16(): Words {
    Words(0xb0fa238e, 0xc0645fde, 0xd932eb16, 0x87912990, 0x07590dcd, 0x0b92f20c, 0x745a48de, 0x1e578218)
  }
  function S17(): Words {
    Words(0x21da9a9b, 0xb0fa238e, 0xc0645fde, 0xd932eb16, 0x8034229c, 0x07590dcd, 0x0b92f20c, 0x745a48de)
  }
  function S18(): Words {
    Words(0xc2fbd9d1, 0x21da9a9b, 0xb0fa238e, 0xc0645fde, 0x846ee454, 0x8034229c, 0x07590dcd, 0x0b92f20c)
  }
  function S19(): Words {
    Words(0xfe777bbf, 0xc2fbd9d1, 0x21da9a9b, 0xb0fa238e, 0xcc899961, 0x846ee454, 0x8034229c, 0x07590dcd)
  }
  function S20(): Words {
    Words(0xe1f20c33, 0xfe777bbf, 0xc2fbd9d1, 0x21da9a9b, 0xb0638179, 0xcc899961, 0x846ee454, 0x8034229c)
  }
  function S21(): Words {
    Words(0x9dc68b63, 0xe1f20c33, 0xfe777bbf, 0xc2fbd9d1, 0x8ada8930, 0xb0638179, 0xcc899961, 0x846ee454)
  }
  function S22(): Words {
    Words(0xc2606d6d, 0x9dc68b63, 0xe1f20c33, 0xfe777bbf, 0xe1257970, 0x8ada8930, 0xb0638179, 0xcc899961)
  }
  function S23(): Words {
    Words(0xa7a3623f, 0xc2606d6d, 0x9dc68b63, 0xe1f20c33, 0x49f5114a, 0xe1257970, 0x8ada8930, 0xb0638179)
  }
  function S24(): Words {
    Words(0xc5d53d8d, 0xa7a3623f, 0xc2606d6d, 0x9dc68b63, 0xaa47c347, 0x49f5114a, 0xe1257970, 0x8ada8930)
  }
  function S25(): Words {
    Words(0x1c2c2838, 0xc5d53d8d, 0xa7a3623f, 0xc2606d6d, 0x2823ef91, 0xaa47c347, 0x49f5114a, 0xe1257970)
  }
  function S26(): Words {
    Words(0xcde8037d, 0x1c2c2838, 0xc5d53d8d, 0xa7a3623f, 0x14383d8e, 0x2823ef91, 0xaa47c347, 0x49f5114a)
  }
  function S27(): Words {
    Words(0xb62ec4bc, 0xcde8037d, 0x1c2c2838, 0xc5d53d8d, 0xc74c6516, 0x14383d8e, 0x2823ef91, 0xaa47c347)
  }
  function S28(): Words {
    Words(0x77d37528, 0xb62ec4bc, 0xcde8037d, 0x1c2c2838, 0xedffbff8, 0xc74c6516, 0x14383d8e, 0x2823ef91)
  }
  function S29(): Words {
    Words(0x363482c9, 0x77d37528, 0xb62ec4bc, 0xcde8037d, 0x6112a3b7, 0xedffbff8, 0xc74c6516, 0x14383d8e)
  }
  function S30(): Words {
    Words(0xa0060b30, 0x363482c9, 0x77d37528, 0xb62ec4bc, 0xade79437, 0x6112a3b7, 0xedffbff8, 0xc74c6516)
  }
  function S31(): Words {
    Words(0xea992a22, 0xa0060b30, 0x363482c9, 0x77d37528, 0x0109ab3a, 0xade79437, 0x6112a3b7, 0xedffbff8)
  }
  function S32(): Words {
    Words(0x73b33bf5, 0xea992a22, 0xa0060b30, 0x363482c9, 0xba591112, 0x0109ab3a, 0xade79437, 0x6112a3b7)
  }
  function S33(): Words {
    Words(0x98e12507, 0x73b33bf5, 0xea992a22, 0xa0060b30, 0x9cd9f5f6, 0xba591112, 0x0109ab3a, 0xade79437)
  }
  function S34(): Words {
    Words(0xfe604df5, 0x98e12507, 0x73b33bf5, 0xea992a22, 0x59249dd3, 0x9cd9f5f6, 0xba591112, 0x0109ab3a)
  }
  function S35(): Words {
    Words(0xa9a7738c, 0xfe604df5, 0x98e12507, 0x73b33bf5, 0x085f3833, 0x59249dd3, 0x9cd9f5f6, 0xba591112)
  }
  function S36(): Words {
    Words(0x65a0cfe4, 0xa9a7738c, 0xfe604df5, 0x98e12507, 0xf4b002d6, 0x085f3833, 0x59249dd3, 0x9cd9f5f6)
  }
  function S37(): Words {
    Words(0x41a65cb1, 0x65a0cfe4, 0xa9a7738c, 0xfe604df5, 0x0772a26b, 0xf4b002d6, 0x085f3833, 0x59249dd3)
  }
  function S38(): Words {
    Words(0x34df1604, 0x41a65cb1, 0x65a0cfe4, 0xa9a7738c, 0xa507a53d, 0x0772a26b, 0xf4b002d6, 0x085f3833)
  }
  function S39(): Words {
    Words(0x6dc57a8a, 0x34df1604, 0x41a65cb1, 0x65a0cfe4, 0xf0781bc8, 0xa507a53d, 0x0772a26b, 0xf4b002d6)
  }
  function S40(): Words {
    Words(0x79ea687a, 0x6dc57a8a, 0x34df1604, 0x41a65cb1, 0x1efbc0a0, 0xf0781bc8, 0xa507a53d, 0x0772a26b)
  }
  function S41(): Words {
    Words(0xd6670766, 0x79ea687a, 0x6dc57a8a, 0x34df1604, 0x26352d63, 0x1efbc0a0, 0xf0781bc8, 0xa507a53d)
  }
  function S42(): Words {
    Words(0xdf46652f, 0xd6670766, 0x79ea687a, 0x6dc57a8a, 0x838b2711, 0x26352d63, 0x1efbc0a0, 0xf0781bc8)
  }
  function S43(): Words {
    Words(0x17aa0dfe, 0xdf46652f, 0xd6670766, 0x79ea687a, 0xdecd4715, 0x838b2711, 0x26352d63, 0x1efbc0a0)
  }
  function S44(): Words {
    Words(0x9d4baf93, 0x17aa0dfe, 0xdf46652f, 0xd6670766, 0xfda24c2e, 0xdecd4715, 0x838b2711, 0x26352d63)
  }
  function S45(): Words {
    Words(0x26628815, 0x9d4baf93, 0x17aa0dfe, 0xdf46652f, 0xa80f11f0, 0xfda24c2e, 0xdecd4715, 0x838b2711)
  }
  function S46(): Words {
    Words(0x72ab4b91, 0x26628815, 0x9d4baf93, 0x17aa0dfe, 0xb7755da1, 0xa80f11f0, 0xfda24c2e, 0xdecd4715)
  }
  function S47(): Words {
    Words(0xa14c14b0, 0x72ab4b91, 0x26628815, 0x9d4baf93, 0xd57b94a9, 0xb7755da1, 0xa80f11f0, 0xfda24c2e)
  }
  function S48(): Words {
    Words(0x4172328d, 0xa14c14b0, 0x72ab4b91, 0x26628815, 0xfecf0bc6, 0xd57b94a9, 0xb7755da1, 0xa80f11f0)
  }
  function S49(): Words {
    Words(0x05757ceb, 0x4172328d, 0xa14c14b0, 0x72ab4b91, 0xbd714038, 0xfecf0bc6, 0xd57b94a9, 0xb7755da1)
  }
  function S50(): Words {
    Words(0xf11bfaa8, 0x05757ceb, 0x4172328d, 0xa14c14b0, 0x6e5c390c, 0xbd714038, 0xfecf0bc6, 0xd57b94a9)
  }
  function S51(): Words {
    Words(0x7a0508a1, 0xf11bfaa8, 0x05757ceb, 0x4172328d, 0x52f1ccf7, 0x6e5c390c, 0xbd714038, 0xfecf0bc6)
  }
  function S52(): Words {
    Words(0x886e7a22, 0x7a0508a1, 0xf11bfaa8, 0x05757ceb, 0x49231c1e, 0x52f1ccf7, 0x6e5c390c, 0xbd714038)
  }
  function S53(): Words {
    Words(0x101fd28f, 0x886e7a22, 0x7a0508a1, 0xf11bfaa8, 0x529e7d00, 0x49231c1e, 0x52f1ccf7, 0x6e5c390c)
  }
  function S54(): Words {
    Words(0xf5702fdb, 0x101fd28f, 0x886e7a22, 0x7a0508a1, 0x9f4787c3, 0x529e7d00, 0x49231c1e, 0x52f1ccf7)
  }
  function S55(): Words {
    Words(0x3ec45cdb, 0xf5702fdb, 0x101fd28f, 0x886e7a22, 0xe50e1b4f, 0x9f4787c3, 0x529e7d00, 0x49231c1e)
  }
  function S56(): Words {
    Words(0x38cc9913, 0x3ec45cdb, 0xf5702fdb, 0x101fd28f, 0x54cb266b, 0xe50e1b4f, 0x9f4787c3, 0x529e7d00)
  }
  function S57(): Words {
    Words(0xfcd1887b, 0x38cc9913, 0x3ec45cdb, 0xf5702fdb, 0x9b5e906c, 0x54cb266b, 0xe50e1b4f, 0x9f4787c3)
  }
  function S58(): Words {
    Words(0xc062d46f, 0xfcd1887b, 0x38cc9913, 0x3ec45cdb, 0x7e44008e, 0x9b5e906c, 0x54cb266b, 0xe50e1b4f)
  }
  function S59(): Words {
    Words(0xffb70472, 0xc062d46f, 0xfcd1887b, 0x38cc9913, 0x6d83bfc6, 0x7e44008e, 0x9b5e906c, 0x54cb266b)
  }
  function S60(): Words {
    Words(0xb6ae8fff, 0xffb70472, 0xc062d46f, 0xfcd1887b, 0xb21bad3d, 0x6d83bfc6, 0x7e44008e, 0x9b5e906c)
  }
  function S61(): Words {
    Words(0xb85e2ce9, 0xb6ae8fff, 0xffb70472, 0xc062d46f, 0x961f4894, 0xb21bad3d, 0x6d83bfc6, 0x7e44008e)
  }
  function S62(): Words {
    Words(0x04d24d6c, 0xb85e2ce9, 0xb6ae8fff, 0xffb70472, 0x948d25b6, 0x961f4894, 0xb21bad3d, 0x6d83bfc6)
  }
  function S63(): Words {
    Words(0xd39a2165, 0x04d24d6c, 0xb85e2ce9, 0xb6ae8fff, 0xfb121210, 0x948d25b6, 0x961f4894, 0xb21bad3d)
  }
  function S64(): Words {
    Words(0x506e3058, 0xd39a2165, 0x04d24d6c, 0xb85e2ce9, 0x5ef50f24, 0xfb121210, 0x948d25b6, 0x961f4894)
  }

  lemma OneRound(v: Words, k: seq<bv32>, w: seq<bv32>, n: nat, r: Words)
    requires n < 64 == |k| == |w| && Rounds(IV, k, w, n) == v && Round(v, k[n], w[n]) == r
    ensures Rounds(IV, k, w, n + 1) == r
  {
    hide Round;
  }

  lemma RoundFacts0()
    ensures Round(S0(), 0x428a2f98, 0x61626380) == S1()
    ensures Round(S1(), 0x71374491, 0x00000000) == S2()
    ensures Round(S2(), 0xb5c0fbcf, 0x00000000) == S3()
    ensures Round(S3(), 0xe9b5dba5, 0x00000000) == S4()
  {
  }

  lemma RoundFacts4()
    ensures Round(S4(), 0x3956c25b, 0x00000000) == S5()
    ensures Round(S5(), 0x59f111f1, 0x00000000) == S6()
    ensures Round(S6(), 0x923f82a4, 0x00000000) == S7()
    ensures Round(S7(), 0xab1c5ed5, 0x00000000) == S8()
  {
  }

  lemma RoundFacts8()
    ensures Round(S8(), 0xd807aa98, 0x00000000) == S9()
    ensures Round(S9(), 0x12835b01, 0x00000000) == S10()
    ensures Round(S10(), 0x243185be, 0x00000000) == S11()
    ensures Round(S11(), 0x550c7dc3, 0x00000000) == S12()
  {
  }

  lemma RoundFacts12()
    ensures Round(S12(), 0x72be5d74, 0x00000000) == S13()
    ensures Round(S13(), 0x80deb1fe, 0x00000000) == S14()
    ensures Round(S14(), 0x9bdc06a7, 0x00000000) == S15()
    ensures Round(S15(), 0xc19bf174, 0x00000018) == S16()
  {
  }

  lemma RoundFacts16()
    ensures Round(S16(), 0xe49b69c1, 0x61626380) == S17()
    ensures Round(S17(), 0xefbe4786, 0x000f0000) == S18()
    ensures Round(S18(), 0x0fc19dc6, 0x7da86405) == S19()
    ensures Round(S19(), 0x240ca1cc, 0x600003c6) == S20()
  {
  }

  lemma RoundFacts20()
    ensures Round(S20(), 0x2de92c6f, 0x3e9d7b78) == S21()
    ensures Round(S21(), 0x4a7484aa, 0x0183fc00) == S22()
    ensures Round(S22(), 0x5cb0a9dc, 0x12dcbfdb) == S23()
    ensures Round(S23(), 0x76f988da, 0xe2e2c38e) == S24()
  {
  }

  lemma RoundFacts24()
    ensures Round(S24(), 0x983e5152, 0xc8215c1a) == S25()
    ensures Round(S25(), 0xa831c66d, 0xb73679a2) == S26()
    ensures Round(S26(), 0xb00327c8, 0xe5bc3909) == S27()
    ensures Round(S27(), 0xbf597fc7, 0x32663c5b) == S28()
  {
  }

  lemma RoundFacts28()
    ensures Round(S28(), 0xc6e00bf3, 0x9d209d67) == S29()
    ensures Round(S29(), 0xd5a79147, 0xec8726cb) == S30()
    ensures Round(S30(), 0x06ca6351, 0x702138a4) == S31()
    ensures Round(S31(), 0x14292967, 0xd3b7973b) == S32()
  {
  }

  lemma RoundFacts32()
    ensures Round(S32(), 0x27b70a85, 0x93f5997f) == S33()
    ensures Round(S33(), 0x2e1b2138, 0x3b68ba73) == S34()
    ensures Round(S34(), 0x4d2c6dfc, 0xaff4ffc1) == S35()
    ensures Round(S35(), 0x53380d13, 0xf10a5c62) == S36()
  {
  }

  lemma RoundFacts36()
    ensures Round(S36(), 0x650a7354, 0x0a8b3996) == S37()
    ensures Round(S37(), 0x766a0abb, 0x72af830a) == S38()
    ensures Round(S38(), 0x81c2c92e, 0x9409e33e) == S39()
    ensures Round(S39(), 0x92722c85, 0x24641522) == S40()
  {
  }

  lemma RoundFacts40()
    ensures Round(S40(), 0xa2bfe8a1, 0x9f47bf94) == S41()
    ensures Round(S41(), 0xa81a664b, 0xf0a64f5a) == S42()
    ensures Round(S42(), 0xc24b8b70, 0x3e246a79) == S43()
    ensures Round(S43(), 0xc76c51a3, 0x27333ba3) == S44()
  {
  }

  lemma RoundFacts44()
    ensures Round(S44(), 0xd192e819, 0x0c4763f2) == S45()
    ensures Round(S45(), 0xd6990624, 0x840abf27) == S46()
    ensures Round(S46(), 0xf40e3585, 0x7a290d5d) == S47()
    ensures Round(S47(), 0x106aa070, 0x065c43da) == S48()
  {
  }

  lemma RoundFacts48()
    ensures Round(S48(), 0x19a4c116, 0xfb3e89cb) == S49()
    ensures Round(S49(), 0x1e376c08, 0xcc7617db) == S50()
    ensures Round(S50(), 0x2748774c, 0xb9e66c34) == S51()
    ensures Round(S51(), 0x34b0bcb5, 0xa9993667) == S52()
  {
  }

  lemma RoundFacts52()
    ensures Round(S52(), 0x391c0cb3, 0x84badedd) == S53()
    ensures Round(S53(), 0x4ed8aa4a, 0xc21462bc) == S54()
    ensures Round(S54(), 0x5b9cca4f, 0x1487472c) == S55()
    ensures Round(S55(), 0x682e6ff3, 0xb20f7a99) == S56()
  {
  }

  lemma RoundFacts56()
    ensures Round(S56(), 0x748f82ee, 0xef57b9cd) == S57()
    ensures Round(S57(), 0x78a5636f, 0xebe6b238) == S58()
    ensures Round(S58(), 0x84c87814, 0x9fe3095e) == S59()
    ensures Round(S59(), 0x8cc70208, 0x78bc8d4b) == S60()
  {
  }

  lemma RoundFacts60()
    ensures Round(S60(), 0x90befffa, 0xa43fcf15) == S61()
    ensures Round(S61(), 0xa4506ceb, 0x668b2ff8) == S62()
    ensures Round(S62(), 0xbef9a3f7, 0xeeaba2cc) == S63()
    ensures Round(S63(), 0xc67178f2, 0x12b1edeb) == S64()
  {
  }

  lemma Rounds0(k: seq<bv32>, w: seq<bv32>)
    requires |k| == |w| == 64 && Takes0(k) && Has0(w) && Rounds(IV, k, w, 0) == S0()
    ensures Rounds(IV, k, w, 8) == S8()
  {
    hide Round, Rounds, S0, S1, S2, S3, S4, S5, S6, S7, S8;
    RoundFacts0();
    RoundFacts4();
    OneRound(S0(), k, w, 0, S1());
    OneRound(S1(), k, w, 1, S2());
    OneRound(S2(), k, w, 2, S3());
    OneRound(S3(), k, w, 3, S4());
    OneRound(S4(), k, w, 4, S5());
    OneRound(S5(), k, w, 5, S6());
    OneRound(S6(), k, w, 6, S7());
    OneRound(S7(), k, w, 7, S8());
  }

  lemma Rounds8(k: seq<bv32>, w: seq<bv32>)
    requires |k| == |w| == 64 && Takes1(k) && Has1(w) && Rounds(IV, k, w, 8) == S8()
    ensures Rounds(IV, k, w, 16) == S16()
  {
    hide Round, Rounds, S8, S9, S10, S11, S12, S13, S14, S15, S16;
    RoundFacts8();
    RoundFacts12();
    OneRound(S8(), k, w, 8, S9());
    OneRound(S9(), k, w, 9, S10());
    OneRound(S10(), k, w, 10, S11());
    OneRound(S11(), k, w, 11, S12());
    OneRound(S12(), k, w, 12, S13());
    OneRound(S13(), k, w, 13, S14());
    OneRound(S14(), k, w, 14, S15());
    OneRound(S15(), k, w, 15, S16());
  }

  lemma Rounds16(k: seq<bv32>, w: seq<bv32>)
    requires |k| == |w| == 64 && Takes2(k) && Has2(w) && Rounds(IV, k, w, 16) == S16()
    ensures Rounds(IV, k, w, 24) == S24()
  {
    hide Round, Rounds, S16, S17, S18, S19, S20, S21, S22, S23, S24;
    RoundFacts16();
    RoundFacts20();
    OneRound(S16(), k, w, 16, S17());
    OneRound(S17(), k, w, 17, S18());
    OneRound(S18(), k, w, 18, S19());
    OneRound(S19(), k, w, 19, S20());
    OneRound(S20(), k, w, 20, S21());
    OneRound(S21(), k, w, 21, S22());
    OneRound(S22(), k, w, 22, S23());
    OneRound(S23(), k, w, 23, S24());
  }

  lemma Rounds24(k: seq<bv32>, w: seq<bv32>)
    requires |k| == |w| == 64 && Takes3(k) && Has3(w) && Rounds(IV, k, w, 24) == S24()
    ensures Rounds(IV, k, w, 32) == S32()
  {
    hide Round, Rounds, S24, S25, S26, S27, S28, S29, S30, S31, S32;
    RoundFacts24();
    RoundFacts28();
    OneRound(S24(), k, w, 24, S25());
    OneRound(S25(), k, w, 25, S26());
    OneRound(S26(), k, w, 26, S27());
    OneRound(S27(), k, w, 27, S28());
    OneRound(S28(), k, w, 28, S29());
    OneRound(S29(), k, w, 29, S30());
    OneRound(S30(), k, w, 30, S31());
    OneRound(S31(), k, w, 31, S32());
  }

  lemma Rounds32(k: seq<bv32>, w: seq<bv32>)
    requires |k| == |w| == 64 && Takes4(k) && Has4(w) && Rounds(IV, k, w, 32) == S32()
    ensures Rounds(IV, k, w, 40) == S40()
  {
    hide Round, Rounds, S32, S33, S34, S35, S36, S37, S38, S39, S40;
    RoundFacts32();
    RoundFacts36();
    OneRound(S32(), k, w, 32, S33());
    OneRound(S33(), k, w, 33, S34());
    OneRound(S34(), k, w, 34, S35());
    OneRound(S35(), k, w, 35, S36());
    OneRound(S36(), k, w, 36, S37());
    OneRound(S37(), k, w, 37, S38());
    OneRound(S38(), k, w, 38, S39());
    OneRound(S39(), k, w, 39, S40());
  }

  lemma Rounds40(k: seq<bv32>, w: seq<bv32>)
    requires |k| == |w| == 64 && Takes5(k) && Has5(w) && Rounds(IV, k, w, 40) == S40()
    ensures Rounds(IV, k, w, 48) == S48()
  {
    hide Round, Rounds, S40, S41, S42, S43, S44, S45, S46, S47, S48;
    RoundFacts40();
    RoundFacts44();
    OneRound(S40(), k, w, 40, S41());
    OneRound(S41(), k, w, 41, S42());
    OneRound(S42(), k, w, 42, S43());
    OneRound(S43(), k, w, 43, S44());
    OneRound(S44(), k, w, 44, S45());
    OneRound(S45(), k, w, 45, S46());
    OneRound(S46(), k, w, 46, S47());
    OneRound(S47(), k, w, 47, S48());
  }

  lemma Rounds48(k: seq<bv32>, w: seq<bv32>)
    requires |k| == |w| == 64 && Takes6(k) && Has6(w) && Rounds(IV, k, w, 48) == S48()
    ensures Rounds(IV, k, w, 56) == S56()
  {
    hide Round, Rounds, S48, S49, S50, S51, S52, S53, S54, S55, S56;
    RoundFacts48();
    RoundFacts52();
    OneRound(S48(), k, w, 48, S49());
    OneRound(S49(), k, w, 49, S50());
    OneRound(S50(), k, w, 50, S51());
    OneRound(S51(), k, w, 51, S52());
    OneRound(S52(), k, w, 52, S53());
    OneRound(S53(), k, w, 53, S54());
    OneRound(S54(), k, w, 54, S55());
    OneRound(S55(), k, w, 55, S56());
  }

  lemma Rounds56(k: seq<bv32>, w: seq<bv32>)
    requires |k| == |w| == 64 && Takes7(k) && Has7(w) && Rounds(IV, k, w, 56) == S56()
    ensures Rounds(IV, k, w, 64) == S64()
  {
    hide Round, Rounds, S56, S57, S58, S59, S60, S61, S62, S63, S64;
    RoundFacts56();
    RoundFacts60();
    OneRound(S56(), k, w, 56, S57());
    OneRound(S57(), k, w, 57, S58());
    OneRound(S58(), k, w, 58, S59());
    OneRound(S59(), k, w, 59, S60());
    OneRound(S60(), k, w, 60, S61());
    OneRound(S61(), k, w, 61, S62());
    OneRound(S62(), k, w, 62, S63());
    OneRound(S63(), k, w, 63, S64());
  }

  lemma AllRounds(k: seq<bv32>, w: seq<bv32>)
    requires |k| == |w| == 64
    requires Has0(w) && Has1(w) && Has2(w) && Has3(w) && Has4(w) && Has5(w) && Has6(w) && Has7(w)
    requires Takes0(k) && Takes1(k) && Takes2(k) && Takes3(k) && Takes4(k) && Takes5(k) && Takes6(k) && Takes7(k)
    ensures Rounds(IV, k, w, 64) == S64()
  {
    hide Round, Has0, Has1, Has2, Has3, Has4, Has5, Has6, Has7;
    hide Takes0, Takes1, Takes2, Takes3, Takes4, Takes5, Takes6, Takes7;
    assert Rounds(IV, k, w, 0) == S0();
    FromStart(k, w);
  }

  lemma FromStart(k: seq<bv32>, w: seq<bv32>)
    requires |k| == |w| == 64 && Rounds(IV, k, w, 0) == S0()
    requires Has0(w) && Has1(w) && Has2(w) && Has3(w) && Has4(w) && Has5(w) && Has6(w) && Has7(w)
    requires Takes0(k) && Takes1(k) && Takes2(k) && Takes3(k) && Takes4(k) && Takes5(k) && Takes6(k) && Takes7(k)
    ensures Rounds(IV, k, w, 64) == S64()
  {
    hide Round, Rounds, Has0, Has1, Has2, Has3, Has4, Has5, Has6, Has7;
    hide Takes0, Takes1, Takes2, Takes3, Takes4, Takes5, Takes6, Takes7;
    hide S0, S8, S16, S24, S32, S40, S48, S56, S64;
    Rounds0(k, w);
    Rounds8(k, w);
    Rounds16(k, w);
    Rounds24(k, w);
    Rounds32(k, w);
    Rounds40(k, w);
    Rounds48(k, w);
    Rounds56(k, w);
  }

  /** The words of the digest. */
  function Answer(): Words {
    Words(0xba7816bf, 0x8f01cfea, 0x414140de, 0x5dae2223, 0xb00361a3, 0x96177a9c, 0xb410ff61, 0xf20015ad)
  }

  lemma FeedForward()
    ensures Add(IV, S64()) == Answer()
  {
  }

  lemma OneBlock()
    ensures Compress(IV, Padded()) == Answer()
  {
    hide Schedule, Rounds, Add, S64, Padded, Answer;
    hide Has0, Has1, Has2, Has3, Has4, Has5, Has6, Has7;
    hide Takes0, Takes1, Takes2, Takes3, Takes4, Takes5, Takes6, Takes7;
    WordsHave0();
    ConstantsTaken0();
    WordsHave1();
    ConstantsTaken1();
    WordsHave2();
    ConstantsTaken2();
    WordsHave3();
    ConstantsTaken3();
    WordsHave4();
    ConstantsTaken4();
    WordsHave5();
    ConstantsTaken5();
    WordsHave6();
    ConstantsTaken6();
    WordsHave7();
    ConstantsTaken7();
    Loaded(16);
    WholeSchedule(Padded(), W);
    AllRounds(K, W);
    FeedForward();
  }

  // ---------- Padding and output ----------

  lemma PaddedMessage()
    ensures Pad(BigEndianLength, ABC) == Padded()
  {
    BigEndianOfThree();
    hide BigEndianLength;
    assert ZeroCount(3) == 52;
    assert ZeroBytes(52) + ([0, 0, 0, 0, 0, 0, 0] + [0x18]) == ZeroBytes(59) + [0x18];
  }

  const DIGEST: seq<bv8> := [
    0xba, 0x78, 0x16, 0xbf, 0x8f, 0x01, 0xcf, 0xea,
    0x41, 0x41, 0x40, 0xde, 0x5d, 0xae, 0x22, 0x23,
    0xb0, 0x03, 0x61, 0xa3, 0x96, 0x17, 0x7a, 0x9c,
    0xb4, 0x10, 0xff, 0x61, 0xf2, 0x00, 0x15, 0xad]

  function Piece(i: nat): seq<bv8>
    requires i < 8
  {
    [DIGEST[4 * i], DIGEST[4 * i + 1], DIGEST[4 * i + 2], DIGEST[4 * i + 3]]
  }

  lemma OutputBytes()
    ensures Serialize(Bytes, SeqOf(Answer()), 8) == DIGEST
  {
    var s := SeqOf(Answer());
    AllWordBytes();
    hide Bytes, Answer, SeqOf;
    SerializePieces(Bytes, s, DIGEST, 8);
    assert DIGEST[..32] == DIGEST;
  }

  lemma AllWordBytes()
    ensures forall i :: 0 <= i < 8 ==> Bytes(SeqOf(Answer())[i]) == Piece(i)
  {
    WordBytesOf();
    Pieces1();
    Pieces2();
    Pieces3();
    Pieces4();
    hide Bytes, Answer, Piece;
    forall i | 0 <= i < 8 ensures Bytes(SeqOf(Answer())[i]) == Piece(i) {
      assert i == 0 || i == 1 || i == 2 || i == 3 || i == 4 || i == 5 || i == 6 || i == 7;
    }
  }

  lemma Pieces1()
    ensures Piece(0) == [0xba, 0x78, 0x16, 0xbf]
    ensures Piece(1) == [0x8f, 0x01, 0xcf, 0xea]
  {
  }

  lemma Pieces2()
    ensures Piece(2) == [0x41, 0x41, 0x40, 0xde]
    ensures Piece(3) == [0x5d, 0xae, 0x22, 0x23]
  {
  }

  lemma Pieces3()
    ensures Piece(4) == [0xb0, 0x03, 0x61, 0xa3]
    ensures Piece(5) == [0x96, 0x17, 0x7a, 0x9c]
  {
  }

  lemma Pieces4()
    ensures Piece(6) == [0xb4, 0x10, 0xff, 0x61]
    ensures Piece(7) == [0xf2, 0x00, 0x15, 0xad]
  {
  }

  lemma WordBytesOf()
    ensures Bytes(Answer().a) == [0xba, 0x78, 0x16, 0xbf]
    ensures Bytes(Answer().b) == [0x8f, 0x01, 0xcf, 0xea]
    ensures Bytes(Answer().c) == [0x41, 0x41, 0x40, 0xde]
    ensures Bytes(Answer().d) == [0x5d, 0xae, 0x22, 0x23]
    ensures Bytes(Answer().e) == [0xb0, 0x03, 0x61, 0xa3]
    ensures Bytes(Answer().f) == [0x96, 0x17, 0x7a, 0x9c]
    ensures Bytes(Answer().g) == [0xb4, 0x10, 0xff, 0x61]
    ensures Bytes(Answer().h) == [0xf2, 0x00, 0x15, 0xad]
  {
  }

  /** The digest of the one-block example. */
  lemma DigestOfAbc()
    ensures Hash(ABC) == [
      0xba, 0x78, 0x16, 0xbf, 0x8f, 0x01, 0xcf, 0xea,
      0x41, 0x41, 0x40, 0xde, 0x5d, 0xae, 0x22, 0x23,
      0xb0, 0x03, 0x61, 0xa3, 0x96, 0x17, 0x7a, 0x9c,
      0xb4, 0x10, 0xff, 0x61, 0xf2, 0x00, 0x15, 0xad]
  {
    hide Compress, Serialize, Pad, Padded;
    PaddedMessage();
    FoldBlock(Compress, IV, Padded());
    OneBlock();
    OutputBytes();
  }
}
