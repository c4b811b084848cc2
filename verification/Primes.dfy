/**
 The first sixty-four primes, from which SHA-256 takes its constants.
 */
module Primes {

  const PRIMES1: seq<nat> := [2, 3, 5, 7, 11, 13, 17, 19, 23, 29, 31, 37, 41, 43, 47, 53]
  const PRIMES2: seq<nat> := [59, 61, 67, 71, 73, 79, 83, 89, 97, 101, 103, 107, 109, 113, 127, 131]
  const PRIMES3: seq<nat> := [137, 139, 149, 151, 157, 163, 167, 173, 179, 181, 191, 193, 197, 199, 211, 223]
  const PRIMES4: seq<nat> := [227, 229, 233, 239, 241, 251, 257, 263, 269, 271, 277, 281, 283, 293, 307, 311]
  const PRIMES: seq<nat> := PRIMES1 + PRIMES2 + PRIMES3 + PRIMES4

  function Product(a: nat, b: nat): nat { a * b }

  /** Not a product of two numbers above one. */
  ghost predicate IsPrime(n: nat) {
    n >= 2 && forall a: nat, b: nat {:trigger Product(a, b)} :: 2 <= a && 2 <= b ==> Product(a, b) != n
  }

  lemma Composite(a: nat, b: nat)
    requires 2 <= a && 2 <= b
    ensures !IsPrime(Product(a, b))
  {
  }

  /** Below 18 squared, trial division by the primes up to 17 is enough. */
  lemma Prime(n: nat)
    requires 2 <= n < 324
    requires n == 2 || n % 2 != 0
    requires n == 3 || n % 3 != 0
    requires n == 5 || n % 5 != 0
    requires n == 7 || n % 7 != 0
    requires n == 11 || n % 11 != 0
    requires n == 13 || n % 13 != 0
    requires n == 17 || n % 17 != 0
    ensures IsPrime(n)
  {
    forall a: nat, b: nat {:trigger Product(a, b)} | 2 <= a && 2 <= b ensures Product(a, b) != n {
      if Product(a, b) == n {
        if a < 18 {
          SmallFactor(n, a, b);
        } else {
          LargeFactors(a, b);
          SmallFactor(n, b, a);
        }
      }
    }
  }

  lemma LargeFactors(a: nat, b: nat)
    requires a >= 18 && Product(a, b) < 324
    ensures b < 18 && Product(b, a) == Product(a, b)
  {
    if b >= 18 {
      BothLarge(a, b);
    }
  }

  lemma BothLarge(a: nat, b: nat)
    requires a >= 18 && b >= 18
    ensures Product(a, b) >= 324
  {
  }

  /** Of the numbers below eighteen, each has one of these seven as a factor. */
  lemma SmallFactor(n: nat, a: nat, b: nat)
    requires 2 <= a < 18 && 2 <= b && n == Product(a, b)
    ensures (2 < n && n % 2 == 0) || (3 < n && n % 3 == 0) || (5 < n && n % 5 == 0) || (7 < n && n % 7 == 0)
            || (11 < n && n % 11 == 0) || (13 < n && n % 13 == 0) || (17 < n && n % 17 == 0)
  {
    hide Product;
    Larger(a, b);
    if a % 2 == 0 {
      TwiceOf(n, a / 2, b);
    } else if a % 3 == 0 {
      ThriceOf(n, a / 3, b);
    } else {
      MultipleOf5(b);
      MultipleOf7(b);
      MultipleOf11(b);
      MultipleOf13(b);
      MultipleOf17(b);
    }
  }

  lemma MultipleOf5(b: nat)
    ensures Product(5, b) % 5 == 0
  {
    assert Product(5, b) == 5 * b;
  }

  lemma MultipleOf7(b: nat)
    ensures Product(7, b) % 7 == 0
  {
    assert Product(7, b) == 7 * b;
  }

  lemma MultipleOf11(b: nat)
    ensures Product(11, b) % 11 == 0
  {
    assert Product(11, b) == 11 * b;
  }

  lemma MultipleOf13(b: nat)
    ensures Product(13, b) % 13 == 0
  {
    assert Product(13, b) == 13 * b;
  }

  lemma MultipleOf17(b: nat)
    ensures Product(17, b) % 17 == 0
  {
    assert Product(17, b) == 17 * b;
  }

  lemma Larger(a: nat, b: nat)
    requires 2 <= a && 2 <= b
    ensures a < Product(a, b)
  {
    assert a * b >= a * 2;
  }

  lemma TwiceOf(n: nat, e: nat, b: nat)
    requires n == Product(2 * e, b)
    ensures n % 2 == 0
  {
    var m := e * b;
    assert n == 2 * m;
  }

  lemma ThriceOf(n: nat, e: nat, b: nat)
    requires n == Product(3 * e, b)
    ensures n % 3 == 0
  {
    var m := e * b;
    assert n == 3 * m;
  }

  predicate Ascending(ps: seq<nat>) {
    forall i :: 0 < i < |ps| ==> ps[i - 1] < ps[i]
  }

  lemma Primes1(n: nat)
    requires 0 <= n < 59
    ensures n in PRIMES1 <==> IsPrime(n)
  {
    hide IsPrime;
    if n in PRIMES1 {
      Listed1();
    } else if n < 2 {
      NotPrime(n);
    } else if n % 2 == 0 {
      Composite(2, n / 2);
    } else if n % 3 == 0 {
      Composite(3, n / 3);
    } else {
      Rest1(n);
    }
  }

  lemma Listed1()
    ensures forall i :: 0 <= i < 16 ==> IsPrime(PRIMES1[i])
  {
    hide IsPrime;
    Prime(2); Prime(3); Prime(5); Prime(7); Prime(11); Prime(13); Prime(17); Prime(19); Prime(23); Prime(29);
    Prime(31); Prime(37); Prime(41); Prime(43); Prime(47); Prime(53);
  }

  lemma Rest1(n: nat)
    requires 2 <= n < 59 && n % 2 != 0 && n % 3 != 0 && n !in PRIMES1
    ensures !IsPrime(n)
  {
    hide IsPrime;
    Composite(5, 5); Composite(5, 7); Composite(7, 7); Composite(5, 11);
    assert PRIMES1[0] == 2 && PRIMES1[1] == 3 && PRIMES1[2] == 5 && PRIMES1[3] == 7;
    assert PRIMES1[4] == 11 && PRIMES1[5] == 13 && PRIMES1[6] == 17 && PRIMES1[7] == 19;
    assert PRIMES1[8] == 23 && PRIMES1[9] == 29 && PRIMES1[10] == 31 && PRIMES1[11] == 37;
    assert PRIMES1[12] == 41 && PRIMES1[13] == 43 && PRIMES1[14] == 47 && PRIMES1[15] == 53;
  }

  lemma Primes2(n: nat)
    requires 59 <= n < 137
    ensures n in PRIMES2 <==> IsPrime(n)
  {
    hide IsPrime;
    if n in PRIMES2 {
      Listed2();
    } else if n % 2 == 0 {
      Composite(2, n / 2);
    } else if n % 3 == 0 {
      Composite(3, n / 3);
    } else {
      Rest2(n);
    }
  }

  lemma Listed2()
    ensures forall i :: 0 <= i < 16 ==> IsPrime(PRIMES2[i])
  {
    hide IsPrime;
    Prime(59); Prime(61); Prime(67); Prime(71); Prime(73); Prime(79); Prime(83); Prime(89); Prime(97);
    Prime(101); Prime(103); Prime(107); Prime(109); Prime(113); Prime(127); Prime(131);
  }

  lemma Rest2(n: nat)
    requires 59 <= n < 137 && n % 2 != 0 && n % 3 != 0 && n !in PRIMES2
    ensures !IsPrime(n)
  {
    hide IsPrime;
    Composite(5, 13); Composite(7, 11); Composite(5, 17); Composite(7, 13); Composite(5, 19); Composite(5, 23);
    Composite(7, 17); Composite(11, 11); Composite(5, 25); Composite(7, 19);
    assert PRIMES2[0] == 59 && PRIMES2[1] == 61 && PRIMES2[2] == 67 && PRIMES2[3] == 71;
    assert PRIMES2[4] == 73 && PRIMES2[5] == 79 && PRIMES2[6] == 83 && PRIMES2[7] == 89;
    assert PRIMES2[8] == 97 && PRIMES2[9] == 101 && PRIMES2[10] == 103 && PRIMES2[11] == 107;
    assert PRIMES2[12] == 109 && PRIMES2[13] == 113 && PRIMES2[14] == 127 && PRIMES2[15] == 131;
  }

  lemma Primes3(n: nat)
    requires 137 <= n < 227
    ensures n in PRIMES3 <==> IsPrime(n)
  {
    hide IsPrime;
    if n in PRIMES3 {
      Listed3();
    } else if n % 2 == 0 {
      Composite(2, n / 2);
    } else if n % 3 == 0 {
      Composite(3, n / 3);
    } else {
      Rest3(n);
    }
  }

  lemma Listed3()
    ensures forall i :: 0 <= i < 16 ==> IsPrime(PRIMES3[i])
  {
    hide IsPrime;
    Prime(137); Prime(139); Prime(149); Prime(151); Prime(157); Prime(163); Prime(167); Prime(173); Prime(179);
    Prime(181); Prime(191); Prime(193); Prime(197); Prime(199); Prime(211); Prime(223);
  }

  lemma Rest3(n: nat)
    requires 137 <= n < 227 && n % 2 != 0 && n % 3 != 0 && n !in PRIMES3
    ensures !IsPrime(n)
  {
    hide IsPrime;
    Composite(11, 13); Composite(5, 29); Composite(5, 31); Composite(7, 23); Composite(13, 13);
    Composite(5, 35); Composite(5, 37); Composite(11, 17); Composite(7, 29); Composite(5, 41);
    Composite(11, 19); Composite(5, 43); Composite(7, 31); Composite(13, 17);
    assert PRIMES3[0] == 137 && PRIMES3[1] == 139 && PRIMES3[2] == 149 && PRIMES3[3] == 151;
    assert PRIMES3[4] == 157 && PRIMES3[5] == 163 && PRIMES3[6] == 167 && PRIMES3[7] == 173;
    assert PRIMES3[8] == 179 && PRIMES3[9] == 181 && PRIMES3[10] == 191 && PRIMES3[11] == 193;
    assert PRIMES3[12] == 197 && PRIMES3[13] == 199 && PRIMES3[14] == 211 && PRIMES3[15] == 223;
  }

  lemma Primes4(n: nat)
    requires 227 <= n < 312
    ensures n in PRIMES4 <==> IsPrime(n)
  {
    hide IsPrime;
    if n in PRIMES4 {
      Listed4();
    } else if n % 2 == 0 {
      Composite(2, n / 2);
    } else if n % 3 == 0 {
      Composite(3, n / 3);
    } else {
      Rest4(n);
    }
  }

  lemma Listed4()
    ensures forall i :: 0 <= i < 16 ==> IsPrime(PRIMES4[i])
  {
    hide IsPrime;
    Prime(227); Prime(229); Prime(233); Prime(239); Prime(241); Prime(251); Prime(257); Prime(263); Prime(269);
    Prime(271); Prime(277); Prime(281); Prime(283); Prime(293); Prime(307); Prime(311);
  }

  lemma Rest4(n: nat)
    requires 227 <= n < 312 && n % 2 != 0 && n % 3 != 0 && n !in PRIMES4
    ensures !IsPrime(n)
  {
    hide IsPrime;
    Composite(5, 47); Composite(5, 49); Composite(13, 19); Composite(11, 23); Composite(7, 37);
    Composite(5, 53); Composite(5, 55); Composite(7, 41); Composite(17, 17); Composite(5, 59);
    Composite(13, 23); Composite(7, 43); Composite(5, 61);
    assert PRIMES4[0] == 227 && PRIMES4[1] == 229 && PRIMES4[2] == 233 && PRIMES4[3] == 239;
    assert PRIMES4[4] == 241 && PRIMES4[5] == 251 && PRIMES4[6] == 257 && PRIMES4[7] == 263;
    assert PRIMES4[8] == 269 && PRIMES4[9] == 271 && PRIMES4[10] == 277 && PRIMES4[11] == 281;
    assert PRIMES4[12] == 283 && PRIMES4[13] == 293 && PRIMES4[14] == 307 && PRIMES4[15] == 311;
  }

  lemma NotPrime(n: nat)
    requires n < 2
    ensures !IsPrime(n)
  {
  }

  predicate Within(ps: seq<nat>, lo: nat, hi: nat) {
    forall i :: 0 <= i < |ps| ==> lo <= ps[i] < hi
  }

  lemma Part1()
    ensures Within(PRIMES1, 0, 59) && Ascending(PRIMES1)
  {
  }

  lemma Part2()
    ensures Within(PRIMES2, 59, 137) && Ascending(PRIMES2)
  {
  }

  lemma Part3()
    ensures Within(PRIMES3, 137, 227) && Ascending(PRIMES3)
  {
  }

  lemma Part4()
    ensures Within(PRIMES4, 227, 312) && Ascending(PRIMES4)
  {
  }

  lemma InParts(a: seq<nat>, b: seq<nat>, lo: nat, mid: nat, hi: nat)
    requires Within(a, lo, mid) && Within(b, mid, hi) && Ascending(a) && Ascending(b)
    ensures lo <= mid <= hi ==> Within(a + b, lo, hi)
    ensures Ascending(a + b)
    ensures forall n :: n in a + b <==> n in a || n in b
  {
  }

  /** The list holds all primes up to 311 and nothing else, in ascending order: the first sixty-four. */
  lemma AllPrimes()
    ensures forall n :: n in PRIMES <==> n <= 311 && IsPrime(n)
    ensures Ascending(PRIMES) && |PRIMES| == 64
  {
    hide IsPrime;
    Part1();
    Part2();
    Part3();
    Part4();
    InParts(PRIMES1, PRIMES2, 0, 59, 137);
    InParts(PRIMES1 + PRIMES2, PRIMES3, 0, 137, 227);
    InParts(PRIMES1 + PRIMES2 + PRIMES3, PRIMES4, 0, 227, 312);
    forall n: nat ensures n in PRIMES <==> n <= 311 && IsPrime(n) {
      Located(n);
    }
  }

  lemma Located(n: nat)
    requires Within(PRIMES1, 0, 59) && Within(PRIMES2, 59, 137)
    requires Within(PRIMES3, 137, 227) && Within(PRIMES4, 227, 312)
    ensures n in PRIMES1 || n in PRIMES2 || n in PRIMES3 || n in PRIMES4 <==> n <= 311 && IsPrime(n)
  {
    hide IsPrime;
    if n < 59 {
      Primes1(n);
    } else if n < 137 {
      Primes2(n);
    } else if n < 227 {
      Primes3(n);
    } else if n < 312 {
      Primes4(n);
    }
  }
}
