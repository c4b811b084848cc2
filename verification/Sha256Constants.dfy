/**
 Where the constants of SHA-256 come from: sections 4.2.2 and 5.3.3 of FIPS 180-4 take them from the
 fractional parts of cube and square roots of the first primes.
 */
module Sha256Constants {
  import opened Octets
  import opened Primes
  import opened Sha256

  function Square(c: nat): nat { c * c }
  function Cube(c: nat): nat { c * c * c }

  /** `k` is the first 32 bits of the fractional part of the square root of `p` ... */
  ghost predicate SquareRootBits(k: bv32, p: nat) {
    exists c: nat {:trigger Square(c)} :: c % TWO_32 == k as nat && Square(c) <= p * Square(TWO_32) < Square(c + 1)
  }

  /** ... and of its cube root. */
  ghost predicate CubeRootBits(k: bv32, p: nat) {
    exists c: nat {:trigger Cube(c)} :: c % TWO_32 == k as nat && Cube(c) <= p * Cube(TWO_32) < Cube(c + 1)
  }

  lemma CubeRoot(k: bv32, p: nat, c: nat)
    requires c % TWO_32 == k as nat && Cube(c) <= p * Cube(TWO_32) < Cube(c + 1)
    ensures CubeRootBits(k, p)
  {
  }

  lemma SquareRoot(k: bv32, p: nat, c: nat)
    requires c % TWO_32 == k as nat && Square(c) <= p * Square(TWO_32) < Square(c + 1)
    ensures SquareRootBits(k, p)
  {
  }

  lemma Constants1()
    ensures forall i :: 0 <= i < 8 ==> CubeRootBits(K[i], PRIMES[i])
  {
    hide CubeRootBits, SquareRootBits;
    CubeRoot(0x428a2f98, 2, 0x1_428a2f98);
    CubeRoot(0x71374491, 3, 0x1_71374491);
    CubeRoot(0xb5c0fbcf, 5, 0x1_b5c0fbcf);
    CubeRoot(0xe9b5dba5, 7, 0x1_e9b5dba5);
    CubeRoot(0x3956c25b, 11, 0x2_3956c25b);
    CubeRoot(0x59f111f1, 13, 0x2_59f111f1);
    CubeRoot(0x923f82a4, 17, 0x2_923f82a4);
    CubeRoot(0xab1c5ed5, 19, 0x2_ab1c5ed5);
  }

  lemma Constants2()
    ensures forall i :: 8 <= i < 16 ==> CubeRootBits(K[i], PRIMES[i])
  {
    hide CubeRootBits, SquareRootBits;
    CubeRoot(0xd807aa98, 23, 0x2_d807aa98);
    CubeRoot(0x12835b01, 29, 0x3_12835b01);
    CubeRoot(0x243185be, 31, 0x3_243185be);
    CubeRoot(0x550c7dc3, 37, 0x3_550c7dc3);
    CubeRoot(0x72be5d74, 41, 0x3_72be5d74);
    CubeRoot(0x80deb1fe, 43, 0x3_80deb1fe);
    CubeRoot(0x9bdc06a7, 47, 0x3_9bdc06a7);
    CubeRoot(0xc19bf174, 53, 0x3_c19bf174);
  }

  lemma Constants3()
    ensures forall i :: 16 <= i < 24 ==> CubeRootBits(K[i], PRIMES[i])
  {
    hide CubeRootBits, SquareRootBits;
    CubeRoot(0xe49b69c1, 59, 0x3_e49b69c1);
    CubeRoot(0xefbe4786, 61, 0x3_efbe4786);
    CubeRoot(0x0fc19dc6, 67, 0x4_0fc19dc6);
    CubeRoot(0x240ca1cc, 71, 0x4_240ca1cc);
    CubeRoot(0x2de92c6f, 73, 0x4_2de92c6f);
    CubeRoot(0x4a7484aa, 79, 0x4_4a7484aa);
    CubeRoot(0x5cb0a9dc, 83, 0x4_5cb0a9dc);
    CubeRoot(0x76f988da, 89, 0x4_76f988da);
  }

  lemma Constants4()
    ensures forall i :: 24 <= i < 32 ==> CubeRootBits(K[i], PRIMES[i])
  {
    hide CubeRootBits, SquareRootBits;
    CubeRoot(0x983e5152, 97, 0x4_983e5152);
    CubeRoot(0xa831c66d, 101, 0x4_a831c66d);
    CubeRoot(0xb00327c8, 103, 0x4_b00327c8);
    CubeRoot(0xbf597fc7, 107, 0x4_bf597fc7);
    CubeRoot(0xc6e00bf3, 109, 0x4_c6e00bf3);
    CubeRoot(0xd5a79147, 113, 0x4_d5a79147);
    CubeRoot(0x06ca6351, 127, 0x5_06ca6351);
    CubeRoot(0x14292967, 131, 0x5_14292967);
  }

  lemma Constants5()
    ensures forall i :: 32 <= i < 40 ==> CubeRootBits(K[i], PRIMES[i])
  {
    hide CubeRootBits, SquareRootBits;
    CubeRoot(0x27b70a85, 137, 0x5_27b70a85);
    CubeRoot(0x2e1b2138, 139, 0x5_2e1b2138);
    CubeRoot(0x4d2c6dfc, 149, 0x5_4d2c6dfc);
    CubeRoot(0x53380d13, 151, 0x5_53380d13);
    CubeRoot(0x650a7354, 157, 0x5_650a7354);
    CubeRoot(0x766a0abb, 163, 0x5_766a0abb);
    CubeRoot(0x81c2c92e, 167, 0x5_81c2c92e);
    CubeRoot(0x92722c85, 173, 0x5_92722c85);
  }

  lemma Constants6()
    ensures forall i :: 40 <= i < 48 ==> CubeRootBits(K[i], PRIMES[i])
  {
    hide CubeRootBits, SquareRootBits;
    CubeRoot(0xa2bfe8a1, 179, 0x5_a2bfe8a1);
    CubeRoot(0xa81a664b, 181, 0x5_a81a664b);
    CubeRoot(0xc24b8b70, 191, 0x5_c24b8b70);
    CubeRoot(0xc76c51a3, 193, 0x5_c76c51a3);
    CubeRoot(0xd192e819, 197, 0x5_d192e819);
    CubeRoot(0xd6990624, 199, 0x5_d6990624);
    CubeRoot(0xf40e3585, 211, 0x5_f40e3585);
    CubeRoot(0x106aa070, 223, 0x6_106aa070);
  }

  lemma Constants7()
    ensures forall i :: 48 <= i < 56 ==> CubeRootBits(K[i], PRIMES[i])
  {
    hide CubeRootBits, SquareRootBits;
    CubeRoot(0x19a4c116, 227, 0x6_19a4c116);
    CubeRoot(0x1e376c08, 229, 0x6_1e376c08);
    CubeRoot(0x2748774c, 233, 0x6_2748774c);
    CubeRoot(0x34b0bcb5, 239, 0x6_34b0bcb5);
    CubeRoot(0x391c0cb3, 241, 0x6_391c0cb3);
    CubeRoot(0x4ed8aa4a, 251, 0x6_4ed8aa4a);
    CubeRoot(0x5b9cca4f, 257, 0x6_5b9cca4f);
    CubeRoot(0x682e6ff3, 263, 0x6_682e6ff3);
  }

  lemma Constants8()
    ensures forall i :: 56 <= i < 64 ==> CubeRootBits(K[i], PRIMES[i])
  {
    hide CubeRootBits, SquareRootBits;
    CubeRoot(0x748f82ee, 269, 0x6_748f82ee);
    CubeRoot(0x78a5636f, 271, 0x6_78a5636f);
    CubeRoot(0x84c87814, 277, 0x6_84c87814);
    CubeRoot(0x8cc70208, 281, 0x6_8cc70208);
    CubeRoot(0x90befffa, 283, 0x6_90befffa);
    CubeRoot(0xa4506ceb, 293, 0x6_a4506ceb);
    CubeRoot(0xbef9a3f7, 307, 0x6_bef9a3f7);
    CubeRoot(0xc67178f2, 311, 0x6_c67178f2);
  }

  lemma RoundConstants()
    ensures |K| == |PRIMES| == 64 && forall i :: 0 <= i < 64 ==> CubeRootBits(K[i], PRIMES[i])
  {
    hide CubeRootBits;
    Constants1();
    Constants2();
    Constants3();
    Constants4();
    Constants5();
    Constants6();
    Constants7();
    Constants8();
  }

  lemma InitialValue()
    ensures forall i :: 0 <= i < 8 ==> SquareRootBits(SeqOf(IV)[i], PRIMES[i])
  {
    hide CubeRootBits, SquareRootBits;
    SquareRoot(0x6a09e667, 2, 0x1_6a09e667);
    SquareRoot(0xbb67ae85, 3, 0x1_bb67ae85);
    SquareRoot(0x3c6ef372, 5, 0x2_3c6ef372);
    SquareRoot(0xa54ff53a, 7, 0x2_a54ff53a);
    SquareRoot(0x510e527f, 11, 0x3_510e527f);
    SquareRoot(0x9b05688c, 13, 0x3_9b05688c);
    SquareRoot(0x1f83d9ab, 17, 0x4_1f83d9ab);
    SquareRoot(0x5be0cd19, 19, 0x4_5be0cd19);
  }
}
