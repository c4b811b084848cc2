/**
 MD5 as a context that is updated in place, against the one-shot function of RFC 1321.
 */
module Md5 {
  import opened MerkleDamgard
  import opened Octets
  import opened Word32

  /** The four registers, or the four words of a chaining value. */
  datatype Words = Words(a: bv32, b: bv32, c: bv32, d: bv32)

  const IV := Words(0x67452301, 0xefcdab89, 0x98badcfe, 0x10325476)

  // ---------- The block function, section 3.4 of RFC 1321 ----------

  function F(x: bv32, y: bv32, z: bv32): bv32 { (x & y) | (!x & z) }
  function G(x: bv32, y: bv32, z: bv32): bv32 { (x & z) | (y & !z) }
  function H(x: bv32, y: bv32, z: bv32): bv32 { x ^ y ^ z }
  function I(x: bv32, y: bv32, z: bv32): bv32 { y ^ (x | !z) }

  /** The bits of `x` choose between those of `y` and `z`. */
  lemma FChooses(x: bv32, y: bv32, z: bv32)
    ensures F(x, y, z) & x == y & x && F(x, y, z) & !x == z & !x
  {
  }

  /** The bits of `z` choose between those of `x` and `y`. */
  lemma GChooses(x: bv32, y: bv32, z: bv32)
    ensures G(x, y, z) & z == x & z && G(x, y, z) & !z == y & !z
  {
  }

  /** The parity of the three. */
  lemma HParity(x: bv32, y: bv32, z: bv32)
    ensures H(x, y, z) ^ z == x ^ y
  {
  }

  /** `y`, turned over where `x` is one or `z` is zero ... */
  lemma ITurns(x: bv32, y: bv32, z: bv32)
    ensures I(x, y, z) & (x | !z) == !y & (x | !z)
  {
  }

  /** ... and left alone elsewhere. */
  lemma IKeeps(x: bv32, y: bv32, z: bv32)
    ensures I(x, y, z) & (!x & z) == y & (!x & z)
  {
  }

  /** The table of sines, sixteen entries for each round. */
  function T1(j: nat): bv32 {
    match j
    case 1 => 0xd76aa478 case 2 => 0xe8c7b756 case 3 => 0x242070db case 4 => 0xc1bdceee
    case 5 => 0xf57c0faf case 6 => 0x4787c62a case 7 => 0xa8304613 case 8 => 0xfd469501
    case 9 => 0x698098d8 case 10 => 0x8b44f7af case 11 => 0xffff5bb1 case 12 => 0x895cd7be
    case 13 => 0x6b901122 case 14 => 0xfd987193 case 15 => 0xa679438e case 16 => 0x49b40821
    case _ => 0
  }

  function T2(j: nat): bv32 {
    match j
    case 1 => 0xf61e2562 case 2 => 0xc040b340 case 3 => 0x265e5a51 case 4 => 0xe9b6c7aa
    case 5 => 0xd62f105d case 6 => 0x02441453 case 7 => 0xd8a1e681 case 8 => 0xe7d3fbc8
    case 9 => 0x21e1cde6 case 10 => 0xc33707d6 case 11 => 0xf4d50d87 case 12 => 0x455a14ed
    case 13 => 0xa9e3e905 case 14 => 0xfcefa3f8 case 15 => 0x676f02d9 case 16 => 0x8d2a4c8a
    case _ => 0
  }

  function T3(j: nat): bv32 {
    match j
    case 1 => 0xfffa3942 case 2 => 0x8771f681 case 3 => 0x6d9d6122 case 4 => 0xfde5380c
    case 5 => 0xa4beea44 case 6 => 0x4bdecfa9 case 7 => 0xf6bb4b60 case 8 => 0xbebfbc70
    case 9 => 0x289b7ec6 case 10 => 0xeaa127fa case 11 => 0xd4ef3085 case 12 => 0x04881d05
    case 13 => 0xd9d4d039 case 14 => 0xe6db99e5 case 15 => 0x1fa27cf8 case 16 => 0xc4ac5665
    case _ => 0
  }

  function T4(j: nat): bv32 {
    match j
    case 1 => 0xf4292244 case 2 => 0x432aff97 case 3 => 0xab9423a7 case 4 => 0xfc93a039
    case 5 => 0x655b59c3 case 6 => 0x8f0ccc92 case 7 => 0xffeff47d case 8 => 0x85845dd1
    case 9 => 0x6fa87e4f case 10 => 0xfe2ce6e0 case 11 => 0xa3014314 case 12 => 0x4e0811a1
    case 13 => 0xf7537e82 case 14 => 0xbd3af235 case 15 => 0x2ad7d2bb case 16 => 0xeb86d391
    case _ => 0
  }

  function T(i: nat): bv32 {
    if i < 16 then T1(i + 1)
    else if i < 32 then T2(i - 15)
    else if i < 48 then T3(i - 31)
    else if i < 64 then T4(i - 47)
    else 0
  }

  /** The auxiliary function of step `i`. */
  function Aux(i: nat, x: bv32, y: bv32, z: bv32): bv32 {
    if i < 16 then F(x, y, z) else if i < 32 then G(x, y, z) else if i < 48 then H(x, y, z) else I(x, y, z)
  }

  /** The word of the block that step `i` reads. */
  function WordIndex(i: nat): (k: nat)
    ensures k < 16
  {
    (if i < 16 then i else if i < 32 then 5 * i + 1 else if i < 48 then 3 * i + 5 else 7 * i) % 16
  }

  function ShiftAmount(i: nat): (s: bv32)
    ensures 0 < s < 32
  {
    if i < 16 then
      if i % 4 == 0 then 7 else if i % 4 == 1 then 12 else if i % 4 == 2 then 17 else 22
    else if i < 32 then
      if i % 4 == 0 then 5 else if i % 4 == 1 then 9 else if i % 4 == 2 then 14 else 20
    else if i < 48 then
      if i % 4 == 0 then 4 else if i % 4 == 1 then 11 else if i % 4 == 2 then 16 else 23
    else
      if i % 4 == 0 then 6 else if i % 4 == 1 then 10 else if i % 4 == 2 then 15 else 21
  }

  /** What the step macro leaves in its first register, `f` being the auxiliary value. */
  function Turn(a: bv32, b: bv32, f: bv32, x: bv32, t: bv32, s: bv32): bv32
    requires 0 < s < 32
  {
    Plus(Rotl(Plus(a, Plus(Plus(f, x), t)), s), b)
  }

  function StepF(a: bv32, b: bv32, c: bv32, d: bv32, x: bv32, t: bv32, s: bv32): bv32
    requires 0 < s < 32
  {
    Turn(a, b, F(b, c, d), x, t, s)
  }

  function StepG(a: bv32, b: bv32, c: bv32, d: bv32, x: bv32, t: bv32, s: bv32): bv32
    requires 0 < s < 32
  {
    Turn(a, b, G(b, c, d), x, t, s)
  }

  function StepH(a: bv32, b: bv32, c: bv32, d: bv32, x: bv32, t: bv32, s: bv32): bv32
    requires 0 < s < 32
  {
    Turn(a, b, H(b, c, d), x, t, s)
  }

  function StepI(a: bv32, b: bv32, c: bv32, d: bv32, x: bv32, t: bv32, s: bv32): bv32
    requires 0 < s < 32
  {
    Turn(a, b, I(b, c, d), x, t, s)
  }

  /** Step `i`, after which the registers change roles: the one just written becomes `b`. */
  function Step(v: Words, x: seq<bv32>, i: nat): Words
    requires |x| == 16
  {
    Words(v.d, Turn(v.a, v.b, Aux(i, v.b, v.c, v.d), x[WordIndex(i)], T(i), ShiftAmount(i)), v.b, v.c)
  }

  function Steps(v: Words, x: seq<bv32>, n: nat): Words
    requires |x| == 16
    decreases n
  {
    if n == 0 then v else Step(Steps(v, x, n - 1), x, n - 1)
  }

  lemma Table1()
    ensures WordIndex(0) == 0 && T(0) == 0xd76aa478 && ShiftAmount(0) == 7
    ensures WordIndex(1) == 1 && T(1) == 0xe8c7b756 && ShiftAmount(1) == 12
    ensures WordIndex(2) == 2 && T(2) == 0x242070db && ShiftAmount(2) == 17
    ensures WordIndex(3) == 3 && T(3) == 0xc1bdceee && ShiftAmount(3) == 22
    ensures WordIndex(4) == 4 && T(4) == 0xf57c0faf && ShiftAmount(4) == 7
    ensures WordIndex(5) == 5 && T(5) == 0x4787c62a && ShiftAmount(5) == 12
    ensures WordIndex(6) == 6 && T(6) == 0xa8304613 && ShiftAmount(6) == 17
    ensures WordIndex(7) == 7 && T(7) == 0xfd469501 && ShiftAmount(7) == 22
    ensures WordIndex(8) == 8 && T(8) == 0x698098d8 && ShiftAmount(8) == 7
    ensures WordIndex(9) == 9 && T(9) == 0x8b44f7af && ShiftAmount(9) == 12
    ensures WordIndex(10) == 10 && T(10) == 0xffff5bb1 && ShiftAmount(10) == 17
    ensures WordIndex(11) == 11 && T(11) == 0x895cd7be && ShiftAmount(11) == 22
    ensures WordIndex(12) == 12 && T(12) == 0x6b901122 && ShiftAmount(12) == 7
    ensures WordIndex(13) == 13 && T(13) == 0xfd987193 && ShiftAmount(13) == 12
    ensures WordIndex(14) == 14 && T(14) == 0xa679438e && ShiftAmount(14) == 17
    ensures WordIndex(15) == 15 && T(15) == 0x49b40821 && ShiftAmount(15) == 22
  {
  }

  lemma Table2()
    ensures WordIndex(16) == 1 && T(16) == 0xf61e2562 && ShiftAmount(16) == 5
    ensures WordIndex(17) == 6 && T(17) == 0xc040b340 && ShiftAmount(17) == 9
    ensures WordIndex(18) == 11 && T(18) == 0x265e5a51 && ShiftAmount(18) == 14
    ensures WordIndex(19) == 0 && T(19) == 0xe9b6c7aa && ShiftAmount(19) == 20
    ensures WordIndex(20) == 5 && T(20) == 0xd62f105d && ShiftAmount(20) == 5
    ensures WordIndex(21) == 10 && T(21) == 0x02441453 && ShiftAmount(21) == 9
    ensures WordIndex(22) == 15 && T(22) == 0xd8a1e681 && ShiftAmount(22) == 14
    ensures WordIndex(23) == 4 && T(23) == 0xe7d3fbc8 && ShiftAmount(23) == 20
    ensures WordIndex(24) == 9 && T(24) == 0x21e1cde6 && ShiftAmount(24) == 5
    ensures WordIndex(25) == 14 && T(25) == 0xc33707d6 && ShiftAmount(25) == 9
    ensures WordIndex(26) == 3 && T(26) == 0xf4d50d87 && ShiftAmount(26) == 14
    ensures WordIndex(27) == 8 && T(27) == 0x455a14ed && ShiftAmount(27) == 20
    ensures WordIndex(28) == 13 && T(28) == 0xa9e3e905 && ShiftAmount(28) == 5
    ensures WordIndex(29) == 2 && T(29) == 0xfcefa3f8 && ShiftAmount(29) == 9
    ensures WordIndex(30) == 7 && T(30) == 0x676f02d9 && ShiftAmount(30) == 14
    ensures WordIndex(31) == 12 && T(31) == 0x8d2a4c8a && ShiftAmount(31) == 20
  {
  }

  lemma Table3()
    ensures WordIndex(32) == 5 && T(32) == 0xfffa3942 && ShiftAmount(32) == 4
    ensures WordIndex(33) == 8 && T(33) == 0x8771f681 && ShiftAmount(33) == 11
    ensures WordIndex(34) == 11 && T(34) == 0x6d9d6122 && ShiftAmount(34) == 16
    ensures WordIndex(35) == 14 && T(35) == 0xfde5380c && ShiftAmount(35) == 23
    ensures WordIndex(36) == 1 && T(36) == 0xa4beea44 && ShiftAmount(36) == 4
    ensures WordIndex(37) == 4 && T(37) == 0x4bdecfa9 && ShiftAmount(37) == 11
    ensures WordIndex(38) == 7 && T(38) == 0xf6bb4b60 && ShiftAmount(38) == 16
    ensures WordIndex(39) == 10 && T(39) == 0xbebfbc70 && ShiftAmount(39) == 23
    ensures WordIndex(40) == 13 && T(40) == 0x289b7ec6 && ShiftAmount(40) == 4
    ensures WordIndex(41) == 0 && T(41) == 0xeaa127fa && ShiftAmount(41) == 11
    ensures WordIndex(42) == 3 && T(42) == 0xd4ef3085 && ShiftAmount(42) == 16
    ensures WordIndex(43) == 6 && T(43) == 0x04881d05 && ShiftAmount(43) == 23
    ensures WordIndex(44) == 9 && T(44) == 0xd9d4d039 && ShiftAmount(44) == 4
    ensures WordIndex(45) == 12 && T(45) == 0xe6db99e5 && ShiftAmount(45) == 11
    ensures WordIndex(46) == 15 && T(46) == 0x1fa27cf8 && ShiftAmount(46) == 16
    ensures WordIndex(47) == 2 && T(47) == 0xc4ac5665 && ShiftAmount(47) == 23
  {
  }

  lemma Table4()
    ensures WordIndex(48) == 0 && T(48) == 0xf4292244 && ShiftAmount(48) == 6
    ensures WordIndex(49) == 7 && T(49) == 0x432aff97 && ShiftAmount(49) == 10
    ensures WordIndex(50) == 14 && T(50) == 0xab9423a7 && ShiftAmount(50) == 15
    ensures WordIndex(51) == 5 && T(51) == 0xfc93a039 && ShiftAmount(51) == 21
    ensures WordIndex(52) == 12 && T(52) == 0x655b59c3 && ShiftAmount(52) == 6
    ensures WordIndex(53) == 3 && T(53) == 0x8f0ccc92 && ShiftAmount(53) == 10
    ensures WordIndex(54) == 10 && T(54) == 0xffeff47d && ShiftAmount(54) == 15
    ensures WordIndex(55) == 1 && T(55) == 0x85845dd1 && ShiftAmount(55) == 21
    ensures WordIndex(56) == 8 && T(56) == 0x6fa87e4f && ShiftAmount(56) == 6
    ensures WordIndex(57) == 15 && T(57) == 0xfe2ce6e0 && ShiftAmount(57) == 10
    ensures WordIndex(58) == 6 && T(58) == 0xa3014314 && ShiftAmount(58) == 15
    ensures WordIndex(59) == 13 && T(59) == 0x4e0811a1 && ShiftAmount(59) == 21
    ensures WordIndex(60) == 4 && T(60) == 0xf7537e82 && ShiftAmount(60) == 6
    ensures WordIndex(61) == 11 && T(61) == 0xbd3af235 && ShiftAmount(61) == 10
    ensures WordIndex(62) == 2 && T(62) == 0x2ad7d2bb && ShiftAmount(62) == 15
    ensures WordIndex(63) == 9 && T(63) == 0xeb86d391 && ShiftAmount(63) == 21
  {
  }

  lemma StepFAt(v0: Words, x: seq<bv32>, i: nat, v: Words)
    requires |x| == 16 && 0 <= i < 16 && v == Steps(v0, x, i)
    ensures Steps(v0, x, i + 1) ==
            Words(v.d, StepF(v.a, v.b, v.c, v.d, x[WordIndex(i)], T(i), ShiftAmount(i)), v.b, v.c)
  {
    hide F, G, H, I, Turn, T, WordIndex, ShiftAmount;
  }

  lemma StepGAt(v0: Words, x: seq<bv32>, i: nat, v: Words)
    requires |x| == 16 && 16 <= i < 32 && v == Steps(v0, x, i)
    ensures Steps(v0, x, i + 1) ==
            Words(v.d, StepG(v.a, v.b, v.c, v.d, x[WordIndex(i)], T(i), ShiftAmount(i)), v.b, v.c)
  {
    hide F, G, H, I, Turn, T, WordIndex, ShiftAmount;
  }

  lemma StepHAt(v0: Words, x: seq<bv32>, i: nat, v: Words)
    requires |x| == 16 && 32 <= i < 48 && v == Steps(v0, x, i)
    ensures Steps(v0, x, i + 1) ==
            Words(v.d, StepH(v.a, v.b, v.c, v.d, x[WordIndex(i)], T(i), ShiftAmount(i)), v.b, v.c)
  {
    hide F, G, H, I, Turn, T, WordIndex, ShiftAmount;
  }

  lemma StepIAt(v0: Words, x: seq<bv32>, i: nat, v: Words)
    requires |x| == 16 && 48 <= i < 64 && v == Steps(v0, x, i)
    ensures Steps(v0, x, i + 1) ==
            Words(v.d, StepI(v.a, v.b, v.c, v.d, x[WordIndex(i)], T(i), ShiftAmount(i)), v.b, v.c)
  {
    hide F, G, H, I, Turn, T, WordIndex, ShiftAmount;
  }

  method Round1(ghost v0: Words, v: Words, x: seq<bv32>) returns (r: Words)
    requires |x| == 16 && v == v0
    ensures r == Steps(v0, x, 16)
  {
    assert v == Steps(v0, x, 0);
    hide F, G, H, I, Turn, Step, Steps, T, WordIndex, ShiftAmount, Aux;
    Table1();
    var a, b, c, d := v.a, v.b, v.c, v.d;
    StepFAt(v0, x, 0, Words(a, b, c, d));
    a := StepF(a, b, c, d, x[0], 0xd76aa478, 7);
    StepFAt(v0, x, 1, Words(d, a, b, c));
    d := StepF(d, a, b, c, x[1], 0xe8c7b756, 12);
    StepFAt(v0, x, 2, Words(c, d, a, b));
    c := StepF(c, d, a, b, x[2], 0x242070db, 17);
    StepFAt(v0, x, 3, Words(b, c, d, a));
    b := StepF(b, c, d, a, x[3], 0xc1bdceee, 22);
    StepFAt(v0, x, 4, Words(a, b, c, d));
    a := StepF(a, b, c, d, x[4], 0xf57c0faf, 7);
    StepFAt(v0, x, 5, Words(d, a, b, c));
    d := StepF(d, a, b, c, x[5], 0x4787c62a, 12);
    StepFAt(v0, x, 6, Words(c, d, a, b));
    c := StepF(c, d, a, b, x[6], 0xa8304613, 17);
    StepFAt(v0, x, 7, Words(b, c, d, a));
    b := StepF(b, c, d, a, x[7], 0xfd469501, 22);
    StepFAt(v0, x, 8, Words(a, b, c, d));
    a := StepF(a, b, c, d, x[8], 0x698098d8, 7);
    StepFAt(v0, x, 9, Words(d, a, b, c));
    d := StepF(d, a, b, c, x[9], 0x8b44f7af, 12);
    StepFAt(v0, x, 10, Words(c, d, a, b));
    c := StepF(c, d, a, b, x[10], 0xffff5bb1, 17);
    StepFAt(v0, x, 11, Words(b, c, d, a));
    b := StepF(b, c, d, a, x[11], 0x895cd7be, 22);
    StepFAt(v0, x, 12, Words(a, b, c, d));
    a := StepF(a, b, c, d, x[12], 0x6b901122, 7);
    StepFAt(v0, x, 13, Words(d, a, b, c));
    d := StepF(d, a, b, c, x[13], 0xfd987193, 12);
    StepFAt(v0, x, 14, Words(c, d, a, b));
    c := StepF(c, d, a, b, x[14], 0xa679438e, 17);
    StepFAt(v0, x, 15, Words(b, c, d, a));
    b := StepF(b, c, d, a, x[15], 0x49b40821, 22);
    r := Words(a, b, c, d);
  }

  method Round2(ghost v0: Words, v: Words, x: seq<bv32>) returns (r: Words)
    requires |x| == 16 && v == Steps(v0, x, 16)
    ensures r == Steps(v0, x, 32)
  {
    hide F, G, H, I, Turn, Step, Steps, T, WordIndex, ShiftAmount, Aux;
    Table2();
    var a, b, c, d := v.a, v.b, v.c, v.d;
    StepGAt(v0, x, 16, Words(a, b, c, d));
    a := StepG(a, b, c, d, x[1], 0xf61e2562, 5);
    StepGAt(v0, x, 17, Words(d, a, b, c));
    d := StepG(d, a, b, c, x[6], 0xc040b340, 9);
    StepGAt(v0, x, 18, Words(c, d, a, b));
    c := StepG(c, d, a, b, x[11], 0x265e5a51, 14);
    StepGAt(v0, x, 19, Words(b, c, d, a));
    b := StepG(b, c, d, a, x[0], 0xe9b6c7aa, 20);
    StepGAt(v0, x, 20, Words(a, b, c, d));
    a := StepG(a, b, c, d, x[5], 0xd62f105d, 5);
    StepGAt(v0, x, 21, Words(d, a, b, c));
    d := StepG(d, a, b, c, x[10], 0x02441453, 9);
    StepGAt(v0, x, 22, Words(c, d, a, b));
    c := StepG(c, d, a, b, x[15], 0xd8a1e681, 14);
    StepGAt(v0, x, 23, Words(b, c, d, a));
    b := StepG(b, c, d, a, x[4], 0xe7d3fbc8, 20);
    StepGAt(v0, x, 24, Words(a, b, c, d));
    a := StepG(a, b, c, d, x[9], 0x21e1cde6, 5);
    StepGAt(v0, x, 25, Words(d, a, b, c));
    d := StepG(d, a, b, c, x[14], 0xc33707d6, 9);
    StepGAt(v0, x, 26, Words(c, d, a, b));
    c := StepG(c, d, a, b, x[3], 0xf4d50d87, 14);
    StepGAt(v0, x, 27, Words(b, c, d, a));
    b := StepG(b, c, d, a, x[8], 0x455a14ed, 20);
    StepGAt(v0, x, 28, Words(a, b, c, d));
    a := StepG(a, b, c, d, x[13], 0xa9e3e905, 5);
    StepGAt(v0, x, 29, Words(d, a, b, c));
    d := StepG(d, a, b, c, x[2], 0xfcefa3f8, 9);
    StepGAt(v0, x, 30, Words(c, d, a, b));
    c := StepG(c, d, a, b, x[7], 0x676f02d9, 14);
    StepGAt(v0, x, 31, Words(b, c, d, a));
    b := StepG(b, c, d, a, x[12], 0x8d2a4c8a, 20);
    r := Words(a, b, c, d);
  }

  method Round3(ghost v0: Words, v: Words, x: seq<bv32>) returns (r: Words)
    requires |x| == 16 && v == Steps(v0, x, 32)
    ensures r == Steps(v0, x, 48)
  {
    hide F, G, H, I, Turn, Step, Steps, T, WordIndex, ShiftAmount, Aux;
    Table3();
    var a, b, c, d := v.a, v.b, v.c, v.d;
    StepHAt(v0, x, 32, Words(a, b, c, d));
    a := StepH(a, b, c, d, x[5], 0xfffa3942, 4);
    StepHAt(v0, x, 33, Words(d, a, b, c));
    d := StepH(d, a, b, c, x[8], 0x8771f681, 11);
    StepHAt(v0, x, 34, Words(c, d, a, b));
    c := StepH(c, d, a, b, x[11], 0x6d9d6122, 16);
    StepHAt(v0, x, 35, Words(b, c, d, a));
    b := StepH(b, c, d, a, x[14], 0xfde5380c, 23);
    StepHAt(v0, x, 36, Words(a, b, c, d));
    a := StepH(a, b, c, d, x[1], 0xa4beea44, 4);
    StepHAt(v0, x, 37, Words(d, a, b, c));
    d := StepH(d, a, b, c, x[4], 0x4bdecfa9, 11);
    StepHAt(v0, x, 38, Words(c, d, a, b));
    c := StepH(c, d, a, b, x[7], 0xf6bb4b60, 16);
    StepHAt(v0, x, 39, Words(b, c, d, a));
    b := StepH(b, c, d, a, x[10], 0xbebfbc70, 23);
    StepHAt(v0, x, 40, Words(a, b, c, d));
    a := StepH(a, b, c, d, x[13], 0x289b7ec6, 4);
    StepHAt(v0, x, 41, Words(d, a, b, c));
    d := StepH(d, a, b, c, x[0], 0xeaa127fa, 11);
    StepHAt(v0, x, 42, Words(c, d, a, b));
    c := StepH(c, d, a, b, x[3], 0xd4ef3085, 16);
    StepHAt(v0, x, 43, Words(b, c, d, a));
    b := StepH(b, c, d, a, x[6], 0x04881d05, 23);
    StepHAt(v0, x, 44, Words(a, b, c, d));
    a := StepH(a, b, c, d, x[9], 0xd9d4d039, 4);
    StepHAt(v0, x, 45, Words(d, a, b, c));
    d := StepH(d, a, b, c, x[12], 0xe6db99e5, 11);
    StepHAt(v0, x, 46, Words(c, d, a, b));
    c := StepH(c, d, a, b, x[15], 0x1fa27cf8, 16);
    StepHAt(v0, x, 47, Words(b, c, d, a));
    b := StepH(b, c, d, a, x[2], 0xc4ac5665, 23);
    r := Words(a, b, c, d);
  }

  method Round4(ghost v0: Words, v: Words, x: seq<bv32>) returns (r: Words)
    requires |x| == 16 && v == Steps(v0, x, 48)
    ensures r == Steps(v0, x, 64)
  {
    hide F, G, H, I, Turn, Step, Steps, T, WordIndex, ShiftAmount, Aux;
    Table4();
    var a, b, c, d := v.a, v.b, v.c, v.d;
    StepIAt(v0, x, 48, Words(a, b, c, d));
    a := StepI(a, b, c, d, x[0], 0xf4292244, 6);
    StepIAt(v0, x, 49, Words(d, a, b, c));
    d := StepI(d, a, b, c, x[7], 0x432aff97, 10);
    StepIAt(v0, x, 50, Words(c, d, a, b));
    c := StepI(c, d, a, b, x[14], 0xab9423a7, 15);
    StepIAt(v0, x, 51, Words(b, c, d, a));
    b := StepI(b, c, d, a, x[5], 0xfc93a039, 21);
    StepIAt(v0, x, 52, Words(a, b, c, d));
    a := StepI(a, b, c, d, x[12], 0x655b59c3, 6);
    StepIAt(v0, x, 53, Words(d, a, b, c));
    d := StepI(d, a, b, c, x[3], 0x8f0ccc92, 10);
    StepIAt(v0, x, 54, Words(c, d, a, b));
    c := StepI(c, d, a, b, x[10], 0xffeff47d, 15);
    StepIAt(v0, x, 55, Words(b, c, d, a));
    b := StepI(b, c, d, a, x[1], 0x85845dd1, 21);
    StepIAt(v0, x, 56, Words(a, b, c, d));
    a := StepI(a, b, c, d, x[8], 0x6fa87e4f, 6);
    StepIAt(v0, x, 57, Words(d, a, b, c));
    d := StepI(d, a, b, c, x[15], 0xfe2ce6e0, 10);
    StepIAt(v0, x, 58, Words(c, d, a, b));
    c := StepI(c, d, a, b, x[6], 0xa3014314, 15);
    StepIAt(v0, x, 59, Words(b, c, d, a));
    b := StepI(b, c, d, a, x[13], 0x4e0811a1, 21);
    StepIAt(v0, x, 60, Words(a, b, c, d));
    a := StepI(a, b, c, d, x[4], 0xf7537e82, 6);
    StepIAt(v0, x, 61, Words(d, a, b, c));
    d := StepI(d, a, b, c, x[11], 0xbd3af235, 10);
    StepIAt(v0, x, 62, Words(c, d, a, b));
    c := StepI(c, d, a, b, x[2], 0x2ad7d2bb, 15);
    StepIAt(v0, x, 63, Words(b, c, d, a));
    b := StepI(b, c, d, a, x[9], 0xeb86d391, 21);
    r := Words(a, b, c, d);
  }

  /** Word `i` of the block, low byte first. */
  function LittleEndianWord(b0: bv8, b1: bv8, b2: bv8, b3: bv8): bv32 {
    (b0 as bv32) | ((b1 as bv32) << 8) | ((b2 as bv32) << 16) | ((b3 as bv32) << 24)
  }

  function BlockWords(b: Block, n: nat): (x: seq<bv32>)
    requires n <= 16
    ensures |x| == n
  {
    if n == 0 then [] else
      BlockWords(b, n - 1)
      + [LittleEndianWord(b[n * 4 - 4], b[n * 4 - 3], b[n * 4 - 2], b[n * 4 - 1])]
  }

  function Add(x: Words, y: Words): Words {
    Words(Plus(x.a, y.a), Plus(x.b, y.b), Plus(x.c, y.c), Plus(x.d, y.d))
  }

  function Compress(s: Words, b: Block): Words {
    Add(s, Steps(s, BlockWords(b, 16), 64))
  }

  // ---------- The steps are a bijection ----------

  function Unturn(r: bv32, b: bv32, f: bv32, x: bv32, t: bv32, s: bv32): bv32
    requires 0 < s < 32
  {
    Minus(Rotr(Minus(r, b), s), Plus(Plus(f, x), t))
  }

  lemma TurnUndone(a: bv32, b: bv32, f: bv32, x: bv32, t: bv32, s: bv32)
    requires 0 < s < 32
    ensures Unturn(Turn(a, b, f, x, t, s), b, f, x, t, s) == a
    ensures Turn(Unturn(a, b, f, x, t, s), b, f, x, t, s) == a
  {
    hide Plus, Minus, Rotl, Rotr;
    var m := Plus(Plus(f, x), t);
    PlusMinus(a, m);
    RotlThenRotr(Plus(a, m), s);
    PlusMinus(Rotl(Plus(a, m), s), b);
    PlusMinus(a, b);
    RotrThenRotl(Minus(a, b), s);
    PlusMinus(Rotr(Minus(a, b), s), m);
  }

  /** The only registers that step `i` sends to `v`. */
  function Unstep(v: Words, x: seq<bv32>, i: nat): Words
    requires |x| == 16
  {
    Words(Unturn(v.b, v.c, Aux(i, v.c, v.d, v.a), x[WordIndex(i)], T(i), ShiftAmount(i)), v.c, v.d, v.a)
  }

  lemma UnstepStep(v: Words, x: seq<bv32>, i: nat)
    requires |x| == 16
    ensures Unstep(Step(v, x, i), x, i) == v
    ensures Step(Unstep(v, x, i), x, i) == v
  {
    hide Turn, Unturn, Aux, T, WordIndex, ShiftAmount;
    TurnUndone(v.a, v.b, Aux(i, v.b, v.c, v.d), x[WordIndex(i)], T(i), ShiftAmount(i));
    TurnUndone(v.b, v.c, Aux(i, v.c, v.d, v.a), x[WordIndex(i)], T(i), ShiftAmount(i));
  }

  function Unsteps(v: Words, x: seq<bv32>, n: nat): Words
    requires |x| == 16
    decreases n
  {
    if n == 0 then v else Unsteps(Unstep(v, x, n - 1), x, n - 1)
  }

  /** For every block the steps are a bijection on the registers. */
  lemma {:induction false} StepsUndone(v: Words, x: seq<bv32>, n: nat)
    requires |x| == 16
    ensures Unsteps(Steps(v, x, n), x, n) == v
    decreases n
  {
    hide Step, Unstep;
    if n > 0 {
      UnstepStep(Steps(v, x, n - 1), x, n - 1);
      StepsUndone(v, x, n - 1);
    }
  }

  lemma {:induction false} UnstepsRedone(v: Words, x: seq<bv32>, n: nat)
    requires |x| == 16
    ensures Steps(Unsteps(v, x, n), x, n) == v
    decreases n
  {
    hide Step, Unstep;
    if n > 0 {
      UnstepStep(v, x, n - 1);
      UnstepsRedone(Unstep(v, x, n - 1), x, n - 1);
    }
  }

  // ---------- The digest ----------

  function Bytes(x: bv32): (b: WordBytes)
    ensures LittleEndianWord(b[0], b[1], b[2], b[3]) == x
  {
    [(x & 0xFF) as bv8, ((x >> 8) & 0xFF) as bv8, ((x >> 16) & 0xFF) as bv8, ((x >> 24) & 0xFF) as bv8]
  }

  lemma BytesInjective()
    ensures forall x, y :: Bytes(x) == Bytes(y) ==> x == y
  {
    hide LittleEndianWord;
  }

  function SeqOf(s: Words): (w: seq<bv32>)
    ensures |w| == 4
  {
    [s.a, s.b, s.c, s.d]
  }

  /** The initial value, low byte first as section 3.3 of RFC 1321 writes it. */
  lemma InitialBytes()
    ensures Serialize(Bytes, SeqOf(IV), 4)
            == [0x01, 0x23, 0x45, 0x67, 0x89, 0xab, 0xcd, 0xef, 0xfe, 0xdc, 0xba, 0x98, 0x76, 0x54, 0x32, 0x10]
  {
    var w := SeqOf(IV);
    assert Bytes(w[0]) == [0x01, 0x23, 0x45, 0x67] && Bytes(w[1]) == [0x89, 0xab, 0xcd, 0xef];
    assert Bytes(w[2]) == [0xfe, 0xdc, 0xba, 0x98] && Bytes(w[3]) == [0x76, 0x54, 0x32, 0x10];
    hide Bytes;
    assert Serialize(Bytes, w, 2) == Bytes(w[0]) + Bytes(w[1]);
    assert Serialize(Bytes, w, 4) == Serialize(Bytes, w, 2) + Bytes(w[2]) + Bytes(w[3]);
  }

  /** The one-shot function of RFC 1321. */
  function Hash(m: seq<bv8>): (d: seq<bv8>)
    ensures |d| == 16
  {
    Serialize(Bytes, SeqOf(Digest(Compress, IV, LittleEndianLength, m)), 4)
  }

  lemma WordsOfBytes(s: Words, t: Words)
    requires Serialize(Bytes, SeqOf(s), 4) == Serialize(Bytes, SeqOf(t), 4)
    ensures s == t
  {
    hide Serialize, Bytes;
    BytesInjective();
    SerializeInjective(Bytes, SeqOf(s), SeqOf(t), 4);
    assert SeqOf(s)[..4] == SeqOf(s) && SeqOf(t)[..4] == SeqOf(t);
    assert SeqOf(s)[0] == SeqOf(t)[0] && SeqOf(s)[1] == SeqOf(t)[1];
    assert SeqOf(s)[2] == SeqOf(t)[2] && SeqOf(s)[3] == SeqOf(t)[3];
  }

  /** Messages of any length, as RFC 1321 admits them.  A collision of MD5 comes with a collision of the
      block transform met while hashing the two messages, or else the lengths agree in their low 61
      bits only and the blocks by which the longer message is ahead lead back to the initial value. */
  lemma CollisionOrReturn(m1: seq<bv8>, m2: seq<bv8>)
    requires m1 != m2 && |m1| <= |m2| && Hash(m1) == Hash(m2)
    ensures var p, q := Pad(LittleEndianLength, m1), Pad(LittleEndianLength, m2);
      || Collides(Compress, IV, p, q)
      || (BitLength(|m1|) == BitLength(|m2|) && |m1| < |m2| && LeadsBack(Compress, IV, p, q))
  {
    hide Compress, Serialize, Digest, Pad, LittleEndianLength, BitLength, LeadsBack, Collides;
    LengthFields(|m1|, |m2|);
    WordsOfBytes(Digest(Compress, IV, LittleEndianLength, m1), Digest(Compress, IV, LittleEndianLength, m2));
    MerkleDamgard.CollisionOrReturn(Compress, IV, LittleEndianLength, m1, m2);
  }

  /** Unless the lengths differ by a multiple of 2^61 bytes, it is a collision of the block transform. */
  lemma CollisionOfTransform(m1: seq<bv8>, m2: seq<bv8>)
    requires BitLength(|m1|) == BitLength(|m2|) ==> |m1| == |m2|
    requires m1 != m2 && Hash(m1) == Hash(m2)
    ensures Collides(Compress, IV, Pad(LittleEndianLength, m1), Pad(LittleEndianLength, m2))
  {
    hide Compress, Serialize, Digest, Pad, LittleEndianLength, BitLength, LeadsBack, Collides, Hash;
    if |m1| <= |m2| {
      CollisionOrReturn(m1, m2);
    } else {
      CollisionOrReturn(m2, m1);
      CollidesBothWays(Compress, IV, Pad(LittleEndianLength, m2), Pad(LittleEndianLength, m1));
    }
  }

  // ---------- The split counter ----------

  /** The two counter words after `len` more bytes: a carry is detected by the low word having
      become smaller than what was added to it. */
  function Count(lo: nat, hi: nat, len: nat): (nat, nat) {
    var added := len * 8 % TWO_32;
    var lo' := (lo + added) % TWO_32;
    var carried := if lo' < added then (hi + 1) % TWO_32 else hi;
    (lo', (carried + len / 0x2000_0000 % TWO_32) % TWO_32)
  }

  /** The counter words stand for the bit length of `n` bytes modulo 2^64. */
  ghost predicate Counts(lo: nat, hi: nat, n: nat) {
    lo < TWO_32 && hi < TWO_32 && hi * TWO_32 + lo == BitLength(n)
  }

  /** The low word has wrapped around exactly when it is smaller than what was added. */
  lemma LowWraps(lo: nat, added: nat)
    requires lo < TWO_32 && added < TWO_32
    ensures var c := if (lo + added) % TWO_32 < added then 1 else 0;
      lo + added == c * TWO_32 + (lo + added) % TWO_32
  {
  }

  lemma Split(len: nat)
    ensures len * 8 == len / 0x2000_0000 * TWO_32 + len * 8 % TWO_32
  {
  }

  lemma HighWraps(hi: nat, c: nat, high: nat) returns (q: nat)
    requires c <= 1 && hi < TWO_32
    ensures ((if c == 1 then (hi + 1) % TWO_32 else hi) + high % TWO_32) % TWO_32 + q * TWO_32 == hi + c + high
  {
    CarryInHigh(hi, c, high);
    q := (hi + c + high) / TWO_32;
  }

  lemma CarryIntoHigh(lo: nat, hi: nat, len: nat) returns (q: nat)
    requires lo < TWO_32 && hi < TWO_32
    ensures var (lo', hi') := Count(lo, hi, len);
            && lo' < TWO_32 && hi' < TWO_32
            && hi' * TWO_32 + lo' + q * TWO_64 == hi * TWO_32 + lo + 8 * len
  {
    var added, high := len * 8 % TWO_32, len / 0x2000_0000;
    var c := if (lo + added) % TWO_32 < added then 1 else 0;
    LowWraps(lo, added);
    Split(len);
    q := HighWraps(hi, c, high);
  }

  lemma CarryInHigh(hi: nat, c: nat, high: nat)
    requires c <= 1 && hi < TWO_32
    ensures ((if c == 1 then (hi + 1) % TWO_32 else hi) + high % TWO_32) % TWO_32 == (hi + c + high) % TWO_32
  {
  }

  lemma Residue(x: nat, r: nat, k: nat)
    requires r < TWO_64 && x == r + k * TWO_64
    ensures x % TWO_64 == r
  {
  }

  /** Despite the split, the counter is the bit length modulo 2^64, for chunks of any size. */
  lemma CountCorrect(lo: nat, hi: nat, n: nat, len: nat)
    requires Counts(lo, hi, n)
    ensures Counts(Count(lo, hi, len).0, Count(lo, hi, len).1, n + len)
  {
    var q := CarryIntoHigh(lo, hi, len);
    var (lo', hi') := Count(lo, hi, len);
    Residue(8 * (n + len), hi' * TWO_32 + lo', q + 8 * n / TWO_64);
  }

  /** The position in the buffer can be read off the low word alone. */
  lemma BufferIndex(lo: nat, hi: nat, n: nat)
    requires Counts(lo, hi, n)
    ensures lo / 8 % 64 == n % 64
  {
    var q := 8 * n / TWO_64;
    assert 8 * n == q * TWO_64 + hi * TWO_32 + lo;
    var r := q * 0x80_0000_0000_0000 + hi * 0x80_0000;
    assert 8 * n == 512 * r + lo;
    assert n == 64 * r + lo / 8;
  }

  // ---------- The implementation ----------

  function WordsOf(state: seq<bv32>): Words
    requires |state| == 4
  {
    Words(state[0], state[1], state[2], state[3])
  }

  method Transform(state: array<bv32>, block: array<bv8>)
    requires state.Length == 4 && block.Length == 64
    modifies state
    ensures WordsOf(state[..]) == Compress(old(WordsOf(state[..])), block[..])
  {
    hide Steps, BlockWords, Plus;
    var v := WordsOf(state[..]);
    var x := DecodeBlock(block);
    var r := Round1(v, v, x[..]);
    r := Round2(v, r, x[..]);
    r := Round3(v, r, x[..]);
    r := Round4(v, r, x[..]);
    state[0] := Plus(state[0], r.a);
    state[1] := Plus(state[1], r.b);
    state[2] := Plus(state[2], r.c);
    state[3] := Plus(state[3], r.d);
  }

  method DecodeBlock(block: array<bv8>) returns (x: array<bv32>)
    requires block.Length == 64
    ensures fresh(x) && x.Length == 16 && x[..] == BlockWords(block[..], 16)
  {
    x := new bv32[16];
    for i := 0 to 16
      invariant x[..i] == BlockWords(block[..], i)
    {
      x[i] := LittleEndianWord(block[i * 4], block[i * 4 + 1], block[i * 4 + 2], block[i * 4 + 3]);
      assert x[..i + 1] == x[..i] + [x[i]];
    }
    assert x[..] == x[..16];
  }

  method PutDigest(outDigest: array<bv8>, state: array<bv32>)
    requires outDigest.Length == 16 && state.Length == 4 && outDigest as object != state
    modifies outDigest
    ensures outDigest[..] == Serialize(Bytes, state[..], 4)
  {
    hide LittleEndianWord, Bytes;
    for i := 0 to 4
      invariant outDigest[..4 * i] == Serialize(Bytes, state[..], i)
    {
      PutWord(outDigest, 4 * i, Bytes(state[i]));
    }
    assert outDigest[..] == outDigest[..16];
  }

  function ShiftRight(x: nat, bytes: nat): nat
    decreases bytes
  {
    if bytes == 0 then x else ShiftRight(x / 256, bytes - 1)
  }

  /** Byte `i` of the length field, cut out of one of the two counter words. */
  function LengthByte(lo: nat, hi: nat, i: nat): bv8 {
    ByteOf(if i < 4 then ShiftRight(lo, i) else ShiftRight(hi, i - 4))
  }

  lemma {:induction false} DigitsOfWord(x: nat, n: nat, i: nat)
    requires i < n
    ensures Digits(x, n)[i] == ByteOf(ShiftRight(x, i))
    decreases i
  {
    hide ByteOf;
    if i > 0 {
      DigitsOfWord(x / 256, n - 1, i - 1);
    }
  }

  lemma Mod256(m: nat, q: nat)
    ensures (256 * m + q) % 256 == q % 256
  {
  }

  lemma LowByte0(lo: nat, hi: nat)
    ensures (hi * TWO_32 + lo) % 256 == lo % 256
  {
    Mod256(hi * 0x100_0000, lo);
  }

  lemma LowByte1(lo: nat, hi: nat)
    ensures (hi * TWO_32 + lo) / 0x100 % 256 == lo / 0x100 % 256
  {
    Quotient1(lo, hi, lo / 0x100, lo % 0x100);
    Mod256(hi * 0x1_0000, lo / 0x100);
  }

  lemma Quotient1(lo: nat, hi: nat, q: nat, r: nat)
    requires lo == 0x100 * q + r && r < 0x100
    ensures (hi * TWO_32 + lo) / 0x100 == 256 * (hi * 0x1_0000) + q
  {
    assert hi * TWO_32 + lo == 0x100 * (256 * (hi * 0x1_0000) + q) + r;
  }

  lemma LowByte2(lo: nat, hi: nat)
    ensures (hi * TWO_32 + lo) / 0x1_0000 % 256 == lo / 0x1_0000 % 256
  {
    Quotient2(lo, hi, lo / 0x1_0000, lo % 0x1_0000);
    Mod256(hi * 0x100, lo / 0x1_0000);
  }

  lemma Quotient2(lo: nat, hi: nat, q: nat, r: nat)
    requires lo == 0x1_0000 * q + r && r < 0x1_0000
    ensures (hi * TWO_32 + lo) / 0x1_0000 == 256 * (hi * 0x100) + q
  {
    assert hi * TWO_32 + lo == 0x1_0000 * (256 * (hi * 0x100) + q) + r;
  }

  lemma LowByte3(lo: nat, hi: nat)
    ensures (hi * TWO_32 + lo) / 0x100_0000 % 256 == lo / 0x100_0000 % 256
  {
    Quotient3(lo, hi, lo / 0x100_0000, lo % 0x100_0000);
    Mod256(hi, lo / 0x100_0000);
  }

  lemma Quotient3(lo: nat, hi: nat, q: nat, r: nat)
    requires lo == 0x100_0000 * q + r && r < 0x100_0000
    ensures (hi * TWO_32 + lo) / 0x100_0000 == 256 * hi + q
  {
    assert hi * TWO_32 + lo == 0x100_0000 * (256 * hi + q) + r;
  }

  /** Only the low 32 bits of the counter reach the first four bytes. */
  lemma LowDigits(lo: nat, hi: nat)
    ensures Digits(hi * TWO_32 + lo, 4) == Digits(lo, 4)
  {
    hide ByteOf, Digits;
    var x := hi * TWO_32 + lo;
    FourDigits(x);
    FourDigits(lo);
    LowByte0(lo, hi);
    LowByte1(lo, hi);
    LowByte2(lo, hi);
    LowByte3(lo, hi);
    ByteOfInjective(x, lo);
    ByteOfInjective(x / 0x100, lo / 0x100);
    ByteOfInjective(x / 0x1_0000, lo / 0x1_0000);
    ByteOfInjective(x / 0x100_0000, lo / 0x100_0000);
  }

  lemma LengthBytes(lo: nat, hi: nat)
    requires lo < TWO_32
    ensures forall i :: 0 <= i < 8 ==> LittleEndian(hi * TWO_32 + lo)[i] == LengthByte(lo, hi, i)
  {
    hide ByteOf, Digits, ShiftRight;
    var x := hi * TWO_32 + lo;
    EightDigits(x);
    LowDigits(lo, hi);
    assert x / TWO_32 == hi;
    forall i | 0 <= i < 8 ensures LittleEndian(x)[i] == LengthByte(lo, hi, i) {
      if i < 4 {
        DigitsOfWord(lo, 4, i);
      } else {
        DigitsOfWord(hi, 4, i - 4);
      }
    }
  }

  class Context {
    const state: array<bv32>
    var count0: nat
    var count1: nat
    const buffer: array<bv8>

    /** What has been absorbed since `Init`. */
    ghost var message: seq<bv8>

    /** The shape of the C struct. */
    ghost predicate Shape() {
      state.Length == 4 && buffer.Length == 64 && state as object != buffer
    }

    /** The chaining value covers every whole block of `m`, and the buffer holds the rest. */
    ghost predicate Absorbed(m: seq<bv8>)
      reads state, buffer
      ensures Absorbed(m) ==> Shape()
    {
      && Shape()
      && WordsOf(state[..]) == Fold(Compress, IV, Whole(m))
      && buffer[..|m| % 64] == Tail(m)
    }

    /** The invariant of a streaming run. */
    ghost predicate Valid()
      reads this, state, buffer
    {
      Absorbed(message) && Counts(count0, count1, |message|)
    }

    constructor ()
      ensures Shape() && fresh(state) && fresh(buffer)
    {
      state := new bv32[4];
      buffer := new bv8[64];
    }

    method Init()
      requires Shape()
      modifies this, state, buffer
      ensures Valid() && message == []
    {
      state[0] := 0x67452301;
      state[1] := 0xefcdab89;
      state[2] := 0x98badcfe;
      state[3] := 0x10325476;
      count0 := 0;
      count1 := 0;
      forall i | 0 <= i < 64 { buffer[i] := 0; }
      message := [];
    }

    /** One turn of the update loop. */
    method Append(piece: seq<bv8>, idx: nat, ghost m: seq<bv8>) returns (idx': nat)
      requires Absorbed(m) && idx == |m| % 64 && idx + |piece| <= 64
      modifies state, buffer
      ensures Absorbed(m + piece) && idx' == |m + piece| % 64
    {
      hide Compress, Fold, WordsOf;
      AbsorbPiece(Compress, IV, m, piece);
      forall i | 0 <= i < |piece| { buffer[idx + i] := piece[i]; }
      assert buffer[..idx + |piece|] == Tail(m) + piece;
      assert state[..] == old(state[..]);
      idx' := idx + |piece|;
      if idx' == 64 {
        assert buffer[..] == buffer[..64];
        Transform(state, buffer);
        idx' := 0;
      }
    }

    method Update(data: seq<bv8>)
      requires Valid()
      modifies this, state, buffer
      ensures Valid() && message == old(message) + data
    {
      hide Absorbed, Counts;
      var len := |data|;
      var idx := count0 / 8 % 64;
      BufferIndex(count0, count1, |message|);
      CountCorrect(count0, count1, |message|, len);
      count0 := (count0 + len * 8 % TWO_32) % TWO_32;
      if count0 < len * 8 % TWO_32 {
        count1 := (count1 + 1) % TWO_32;
      }
      count1 := (count1 + len / 0x2000_0000 % TWO_32) % TWO_32;

      var i := 0;
      assert message + data[..0] == message;
      while i < len
        invariant 0 <= i <= len && Absorbed(message + data[..i])
        invariant idx == |message + data[..i]| % 64
        invariant message == old(message) && Counts(count0, count1, |message| + len)
      {
        var copy := 64 - idx;
        if copy > len - i {
          copy := len - i;
        }
        ghost var m := message + data[..i];
        assert message + data[..i + copy] == m + data[i..i + copy];
        idx := Append(data[i..i + copy], idx, m);
        i := i + copy;
      }
      assert data[..len] == data;
      message := message + data;
    }

    /** Pads by calling `Update` and writes the digest; the context is spent afterwards. */
    method Final(outDigest: array<bv8>)
      requires Valid() && outDigest.Length == 16
      requires outDigest as object != state && outDigest != buffer
      modifies this, state, buffer, outDigest
      ensures outDigest[..] == Hash(old(message))
    {
      hide Absorbed, Counts, Compress, Serialize, Fold, Pad, ZeroBytes, ZeroCount, LittleEndianLength;
      ghost var m := message;
      var lenBytes := LengthArray(count0, count1, |m|);
      var pad, padLen := PaddingArray(count0, count1, |m|);
      Update(pad[..padLen]);
      Update(lenBytes[..]);
      PadByUpdates(LittleEndianLength, m);
      Complete();
      PutDigest(outDigest, state);
      assert SeqOf(WordsOf(state[..])) == state[..];
    }

    lemma Complete()
      requires Valid() && |message| % 64 == 0
      ensures Shape() && WordsOf(state[..]) == Fold(Compress, IV, message)
    {
      assert Whole(message) == message;
    }
  }

  method LengthArray(lo: nat, hi: nat, ghost n: nat) returns (lenBytes: array<bv8>)
    requires Counts(lo, hi, n)
    ensures fresh(lenBytes) && lenBytes[..] == LittleEndianLength(n)
  {
    hide ByteOf, Digits, LengthByte;
    lenBytes := new bv8[8];
    for i := 0 to 8
      invariant forall j :: 0 <= j < i ==> lenBytes[j] == LengthByte(lo, hi, j)
    {
      lenBytes[i] := LengthByte(lo, hi, i);
    }
    LengthBytes(lo, hi);
  }

  method PaddingArray(lo: nat, hi: nat, ghost n: nat) returns (pad: array<bv8>, padLen: nat)
    requires Counts(lo, hi, n)
    ensures fresh(pad) && padLen <= pad.Length == 64 && pad[..padLen] == [0x80] + ZeroBytes(ZeroCount(n))
  {
    hide Counts, ZeroCount;
    var idx := lo / 8 % 64;
    BufferIndex(lo, hi, n);
    ZeroCountByIndex(n);
    padLen := if idx < 56 then 56 - idx else 120 - idx;
    pad := new bv8[64];
    pad[0] := 0x80;
    if padLen > 1 {
      forall i | 1 <= i < padLen { pad[i] := 0; }
    }
  }

  method Compute(data: seq<bv8>, outDigest: array<bv8>)
    requires outDigest.Length == 16
    modifies outDigest
    ensures outDigest[..] == Hash(data)
  {
    hide Hash;
    var ctx := new Context();
    ctx.Init();
    ctx.Update(data);
    assert [] + data == data;
    ctx.Final(outDigest);
  }

  /** Any caller of the streaming interface: the split of the message into chunks does not matter. */
  method ComputeChunks(chunks: seq<seq<bv8>>, outDigest: array<bv8>)
    requires outDigest.Length == 16
    modifies outDigest
    ensures outDigest[..] == Hash(Concat(chunks))
  {
    hide Hash;
    var ctx := new Context();
    ctx.Init();
    for i := 0 to |chunks|
      invariant ctx.Valid() && ctx.message == Concat(chunks[..i])
      invariant fresh(ctx) && fresh(ctx.state) && fresh(ctx.buffer)
    {
      ctx.Update(chunks[i]);
      ConcatLast(chunks, i);
    }
    assert chunks[..|chunks|] == chunks;
    ctx.Final(outDigest);
  }
}
