/**
 The bits of a register, as coefficients of a polynomial.

 Narrow registers and bytes are looked at through their zero extension to 32 bits.
 */
module WordBits {
  import opened Gf2
  import opened Octets

  function Half(c: bv32): bv32 { c >> 1 }
  predicate Odd(c: bv32) { c & 1 != 0 }
  function Double(c: bv32): bv32 { c << 1 }
  function Sum(a: bv32, b: bv32): bv32 { a ^ b }

  function Bit(c: bv32, k: nat): bool
    decreases k
  {
    if k == 0 then Odd(c) else Bit(Half(c), k - 1)
  }

  /** The low `w` bits, most significant first. */
  function Msb(c: bv32, w: nat): (b: Bits)
    ensures |b| == w && forall i :: 0 <= i < w ==> b[i] == Bit(c, w - 1 - i)
  {
    seq(w, i requires 0 <= i < w => Bit(c, w - 1 - i))
  }

  /** The low `w` bits, least significant first. */
  function Lsb(c: bv32, w: nat): (b: Bits)
    ensures |b| == w && forall i :: 0 <= i < w ==> b[i] == Bit(c, i)
  {
    seq(w, i requires 0 <= i < w => Bit(c, i))
  }

  lemma SumCancels(a: bv32, b: bv32)
    ensures Sum(Sum(a, b), b) == a && Sum(a, 0) == a
  {
  }

  lemma HalfSum(a: bv32, b: bv32)
    ensures Half(Sum(a, b)) == Sum(Half(a), Half(b))
    ensures Odd(Sum(a, b)) == (Odd(a) != Odd(b))
  {
  }

  lemma {:induction false} BitSum(a: bv32, b: bv32, k: nat)
    ensures Bit(Sum(a, b), k) == (Bit(a, k) != Bit(b, k))
    decreases k
  {
    hide Half, Odd, Sum;
    HalfSum(a, b);
    if k > 0 {
      BitSum(Half(a), Half(b), k - 1);
    }
  }

  // ---------- Masks ----------

  /** Ones from position `n` up. */
  function HighMask(n: nat): bv32
    decreases n
  {
    if n == 0 then 0xFFFF_FFFF else HighMask(n - 1) << 1
  }

  lemma MaskValues()
    ensures HighMask(8) == 0xFFFF_FF00 && HighMask(16) == 0xFFFF_0000
    ensures HighMask(31) == 0x8000_0000 && HighMask(32) == 0
  {
    assert HighMask(2) == 0xFFFFFFFC;
    assert HighMask(4) == 0xFFFFFFF0;
    assert HighMask(6) == 0xFFFFFFC0;
    assert HighMask(8) == 0xFFFFFF00;
    assert HighMask(10) == 0xFFFFFC00;
    assert HighMask(12) == 0xFFFFF000;
    assert HighMask(14) == 0xFFFFC000;
    assert HighMask(16) == 0xFFFF0000;
    assert HighMask(18) == 0xFFFC0000;
    assert HighMask(20) == 0xFFF00000;
    assert HighMask(22) == 0xFFC00000;
    assert HighMask(24) == 0xFF000000;
    assert HighMask(26) == 0xFC000000;
    assert HighMask(28) == 0xF0000000;
    assert HighMask(30) == 0xC0000000;
    assert HighMask(32) == 0x00000000;
  }

  /** `c` has no bit at or above position `n`. */
  predicate Below(c: bv32, n: nat) {
    c & HighMask(n) == 0
  }

  /** `c` has no bit below position `n`. */
  predicate Above(c: bv32, n: nat) {
    c & !HighMask(n) == 0
  }

  lemma HalfBelow(c: bv32, n: nat)
    requires Below(c, n)
    ensures if n == 0 then c == 0 else Below(Half(c), n - 1)
  {
    if n > 0 {
      MaskShift(c, HighMask(n - 1));
    }
  }

  lemma HalfAbove(c: bv32, n: nat)
    requires Above(c, n) && n > 0
    ensures !Odd(c) && Above(Half(c), n - 1)
  {
    MaskShift(c, HighMask(n - 1));
  }

  lemma MaskShift(c: bv32, m: bv32)
    ensures c & (m << 1) == 0 ==> (c >> 1) & m == 0
    ensures c & !(m << 1) == 0 ==> (c >> 1) & !m == 0 && c & 1 == 0
  {
  }

  lemma {:induction false} BitZero(k: nat)
    ensures !Bit(0, k)
    decreases k
  {
    if k > 0 {
      BitZero(k - 1);
    }
  }

  lemma {:induction false} BitAtOrAbove(c: bv32, n: nat, k: nat)
    requires Below(c, n) && n <= k
    ensures !Bit(c, k)
    decreases n
  {
    hide Half, Odd, Below;
    HalfBelow(c, n);
    if n == 0 {
      BitZero(k);
    } else {
      BitAtOrAbove(Half(c), n - 1, k - 1);
    }
  }

  lemma {:induction false} BitUnder(c: bv32, n: nat, k: nat)
    requires Above(c, n) && k < n
    ensures !Bit(c, k)
    decreases n
  {
    hide Half, Odd, Above;
    HalfAbove(c, n);
    if k > 0 {
      BitUnder(Half(c), n - 1, k - 1);
    }
  }

  /** A word is known by its bits. */
  lemma {:induction false} BitsDecide(a: bv32, b: bv32, n: nat)
    requires Below(a, n) && Below(b, n)
    requires forall k {:trigger Bit(a, k)} :: 0 <= k < n ==> Bit(a, k) == Bit(b, k)
    ensures a == b
    decreases n
  {
    hide Half, Odd, Below;
    HalfBelow(a, n);
    HalfBelow(b, n);
    if n > 0 {
      forall k {:trigger Bit(Half(a), k)} | 0 <= k < n - 1 ensures Bit(Half(a), k) == Bit(Half(b), k) {
        assert Bit(a, k + 1) == Bit(b, k + 1);
      }
      BitsDecide(Half(a), Half(b), n - 1);
      assert Bit(a, 0) == Bit(b, 0);
      HalvesDecide(a, b);
    }
  }

  lemma HalvesDecide(a: bv32, b: bv32)
    requires Half(a) == Half(b) && Odd(a) == Odd(b)
    ensures a == b
  {
  }

  // ---------- Shifting ----------

  /** Shifting left moves every bit up; the top one is lost. */
  lemma BitDouble(c: bv32, k: nat)
    requires k < 32
    ensures Bit(Double(c), k) == (k > 0 && Bit(c, k - 1))
  {
    hide Half, Odd, Above, Double, Sum;
    HalfOfDouble(c);
    if k > 0 {
      var top := c & 0x8000_0000;
      BitSum(c, top, k - 1);
      TopBitAbove(c);
      BitUnder(top, 31, k - 1);
    }
  }

  lemma HalfOfDouble(c: bv32)
    ensures Half(Double(c)) == Sum(c, c & 0x8000_0000) && !Odd(Double(c))
  {
  }

  lemma TopBitAbove(c: bv32)
    ensures Above(c & 0x8000_0000, 31)
  {
    MaskValues();
  }

  lemma BitHalf(c: bv32, k: nat)
    requires k < 32
    ensures Bit(Half(c), k) == (k < 31 && Bit(c, k + 1))
  {
    hide Half, Odd;
    assert Bit(c, k + 1) == Bit(Half(c), k);
    if k == 31 {
      MaskValues();
      BitAtOrAbove(c, 32, 32);
    }
  }

  /** Ones below position `n`. */
  function LowOnes(n: nat): bv32
    decreases n
  {
    if n == 0 then 0 else Sum(Double(LowOnes(n - 1)), 1)
  }

  lemma {:induction false} BitOfOnes(n: nat, k: nat)
    requires k < n <= 32
    ensures Bit(LowOnes(n), k)
    decreases n
  {
    hide Bit, Double, Sum;
    BitSum(Double(LowOnes(n - 1)), 1, k);
    BitDouble(LowOnes(n - 1), k);
    BitOfOne(k);
    if k > 0 {
      BitOfOnes(n - 1, k - 1);
    }
  }

  lemma AllOnes()
    ensures LowOnes(32) == 0xFFFF_FFFF
  {
    assert LowOnes(8) == 0xFF;
    assert LowOnes(16) == 0xFFFF;
    assert LowOnes(24) == 0xFF_FFFF;
  }

  lemma BitOfOne(k: nat)
    ensures Bit(1, k) <==> k == 0
  {
    if k > 0 {
      BitZero(k - 1);
    }
  }

  function Doubles(c: bv32, n: nat): bv32
    decreases n
  {
    if n == 0 then c else Double(Doubles(c, n - 1))
  }

  lemma {:induction false} BitDoubles(c: bv32, n: nat, k: nat)
    requires k < 32
    ensures Bit(Doubles(c, n), k) == (k >= n && Bit(c, k - n))
    decreases n
  {
    hide Double, Bit;
    if n > 0 {
      BitDouble(Doubles(c, n - 1), k);
      if k > 0 {
        BitDoubles(c, n - 1, k - 1);
      }
    }
  }

  function Halves(c: bv32, n: nat): bv32
    decreases n
  {
    if n == 0 then c else Halves(Half(c), n - 1)
  }

  lemma {:induction false} BitHalves(c: bv32, n: nat, k: nat)
    ensures Bit(Halves(c, n), k) == Bit(c, n + k)
    decreases n
  {
    hide Half;
    if n > 0 {
      BitHalves(Half(c), n - 1, k);
    }
  }

  /** Byte `j` of a word, counted from the low end. */
  function ByteAt(v: bv32, j: nat): bv8
    decreases j
  {
    if j == 0 then (v & 0xFF) as bv8 else ByteAt(v >> 8, j - 1)
  }

  lemma {:induction false} ByteAtBits(v: bv32, j: nat, i: nat)
    requires i < 8
    ensures Bit(ByteAt(v, j) as bv32, i) == Bit(v, 8 * j + i)
    decreases j
  {
    hide Bit;
    if j == 0 {
      LowByteBits(v, i);
    } else {
      ByteAtBits(v >> 8, j - 1, i);
      BitsByByte(v, 8 * (j - 1) + i);
    }
  }

  lemma LowByteBits(v: bv32, i: nat)
    requires i < 8
    ensures Bit(((v & 0xFF) as bv8) as bv32, i) == Bit(v, i)
  {
    var high := v & 0xFFFF_FF00;
    LowByte(v);
    HighBytes(v);
    hide Bit, Sum, Above;
    BitSum(v, high, i);
    BitUnder(high, 8, i);
  }

  lemma LowByte(x: bv32)
    ensures ((x & 0xFF) as bv8) as bv32 == Sum(x, x & 0xFFFF_FF00)
  {
  }

  lemma HighBytes(x: bv32)
    ensures Above(x & 0xFFFF_FF00, 8)
  {
    MaskValues();
  }

  lemma EightHalves(v: bv32)
    ensures Halves(v, 8) == v >> 8
  {
  }

  lemma BitsByByte(v: bv32, k: nat)
    ensures Bit(v >> 8, k) == Bit(v, 8 + k)
  {
    hide Bit, Halves;
    EightHalves(v);
    BitHalves(v, 8, k);
  }

  lemma EightDoubles(v: bv32)
    ensures Doubles(v, 8) == v << 8
  {
  }

  // ---------- Whole registers ----------

  lemma MsbSum(a: bv32, b: bv32, w: nat)
    ensures Msb(Sum(a, b), w) == Xor(Msb(a, w), Msb(b, w))
    ensures Lsb(Sum(a, b), w) == Xor(Lsb(a, w), Lsb(b, w))
  {
    hide Sum, Bit;
    forall k | 0 <= k < w ensures Bit(Sum(a, b), k) == (Bit(a, k) != Bit(b, k)) {
      BitSum(a, b, k);
    }
  }

  lemma MsbInjective(a: bv32, b: bv32, w: nat)
    requires Below(a, w) && Below(b, w)
    requires Msb(a, w) == Msb(b, w) || Lsb(a, w) == Lsb(b, w)
    ensures a == b
  {
    hide Below;
    forall k {:trigger Bit(a, k)} | 0 <= k < w ensures Bit(a, k) == Bit(b, k) {
      assert Msb(a, w)[w - 1 - k] == Bit(a, k) && Msb(b, w)[w - 1 - k] == Bit(b, k);
      assert Lsb(a, w)[k] == Bit(a, k) && Lsb(b, w)[k] == Bit(b, k);
    }
    BitsDecide(a, b, w);
  }

  /** Doubling a register drops its leading coefficient, also when a carry beyond it is cut off. */
  lemma MsbDouble(c: bv32, carry: bv32, w: nat)
    requires 0 < w <= 32 && Above(carry, w)
    ensures Msb(Sum(Double(c), carry), w) == Msb(c, w)[1..] + [false]
  {
    hide Above, Bit, Double, Sum;
    forall i | 0 <= i < w
      ensures Msb(Sum(Double(c), carry), w)[i] == (Msb(c, w)[1..] + [false])[i]
    {
      BitSum(Double(c), carry, w - 1 - i);
      BitDouble(c, w - 1 - i);
      BitUnder(carry, w, w - 1 - i);
    }
  }

  /** Halving does the same to a register read from its low end. */
  lemma LsbHalf(c: bv32)
    ensures Lsb(Half(c), 32) == Lsb(c, 32)[1..] + [false]
  {
    hide Half, Bit;
    forall i | 0 <= i < 32 ensures Lsb(Half(c), 32)[i] == (Lsb(c, 32)[1..] + [false])[i] {
      BitHalf(c, i);
    }
  }

  /** The low `n` bits of `c` in reverse order. */
  function Mirror(c: bv32, n: nat): bv32
    decreases n
  {
    if n == 0 then 0 else Sum(Doubles(if Odd(c) then 1 else 0, n - 1), Mirror(Half(c), n - 1))
  }

  lemma {:induction false} BitMirror(c: bv32, n: nat, k: nat)
    requires n <= 32 && k < 32
    ensures Bit(Mirror(c, n), k) == (k < n && Bit(c, n - 1 - k))
    decreases n
  {
    hide Sum, Doubles, Half, Odd;
    if n == 0 {
      BitZero(k);
    } else {
      var b: bv32 := if Odd(c) then 1 else 0;
      BitSum(Doubles(b, n - 1), Mirror(Half(c), n - 1), k);
      BitDoubles(b, n - 1, k);
      BitMirror(Half(c), n - 1, k);
      if k >= n - 1 {
        BitOfOne(k - (n - 1));
        BitZero(k - (n - 1));
      }
    }
  }

  lemma MsbOfMirror(c: bv32)
    ensures Msb(Mirror(c, 32), 32) == Lsb(c, 32)
  {
    hide Bit, Mirror;
    forall i | 0 <= i < 32 ensures Msb(Mirror(c, 32), 32)[i] == Lsb(c, 32)[i] {
      BitMirror(c, 32, 31 - i);
    }
  }

  // ---------- Messages ----------

  /** The bits of a byte in the order in which a register takes them in. */
  function ByteBits(b: bv8, lowFirst: bool): (r: Bits)
    ensures |r| == 8
  {
    if lowFirst then Lsb(b as bv32, 8) else Msb(b as bv32, 8)
  }

  function MessageBits(data: seq<bv8>, lowFirst: bool): (m: Bits)
    ensures |m| == 8 * |data|
    decreases |data|
  {
    if data == [] then [] else
      MessageBits(data[..|data| - 1], lowFirst) + ByteBits(data[|data| - 1], lowFirst)
  }

  function XorBytes(a: seq<bv8>, b: seq<bv8>): (c: seq<bv8>)
    requires |a| == |b|
    ensures |c| == |a| && forall i :: 0 <= i < |a| ==> c[i] == a[i] ^ b[i]
  {
    seq(|a|, i requires 0 <= i < |a| => a[i] ^ b[i])
  }

  lemma ByteBitsXor(a: bv8, b: bv8, lowFirst: bool)
    ensures ByteBits(a ^ b, lowFirst) == Xor(ByteBits(a, lowFirst), ByteBits(b, lowFirst))
  {
    assert (a ^ b) as bv32 == Sum(a as bv32, b as bv32);
    MsbSum(a as bv32, b as bv32, 8);
  }

  lemma ByteBitsInjective(a: bv8, b: bv8, lowFirst: bool)
    requires ByteBits(a, lowFirst) == ByteBits(b, lowFirst)
    ensures a == b
  {
    MaskValues();
    MsbInjective(a as bv32, b as bv32, 8);
  }

  lemma {:induction false} MessageBitsXor(a: seq<bv8>, b: seq<bv8>, lowFirst: bool)
    requires |a| == |b|
    ensures MessageBits(XorBytes(a, b), lowFirst) == Xor(MessageBits(a, lowFirst), MessageBits(b, lowFirst))
    decreases |a|
  {
    hide ByteBits, Xor;
    var n := |a| - 1;
    if n >= 0 {
      ByteBitsXor(a[n], b[n], lowFirst);
      assert XorBytes(a, b)[..n] == XorBytes(a[..n], b[..n]);
      MessageBitsXor(a[..n], b[..n], lowFirst);
      XorAppend(MessageBits(a[..n], lowFirst), ByteBits(a[n], lowFirst),
                MessageBits(b[..n], lowFirst), ByteBits(b[n], lowFirst));
    }
  }

  lemma {:induction false} MessageBitsInjective(a: seq<bv8>, b: seq<bv8>, lowFirst: bool)
    requires |a| == |b| && MessageBits(a, lowFirst) == MessageBits(b, lowFirst)
    ensures a == b
    decreases |a|
  {
    hide ByteBits;
    var n := |a| - 1;
    if n >= 0 {
      var x, y := MessageBits(a, lowFirst), MessageBits(b, lowFirst);
      assert x[..8 * n] == MessageBits(a[..n], lowFirst) && y[..8 * n] == MessageBits(b[..n], lowFirst);
      assert x[8 * n..] == ByteBits(a[n], lowFirst) && y[8 * n..] == ByteBits(b[n], lowFirst);
      MessageBitsInjective(a[..n], b[..n], lowFirst);
      ByteBitsInjective(a[n], b[n], lowFirst);
      assert a == a[..n] + [a[n]] && b == b[..n] + [b[n]];
    }
  }

  lemma MessageBitsZeros(n: nat, lowFirst: bool)
    ensures MessageBits(ZeroBytes(n), lowFirst) == Zeros(8 * n)
  {
    hide ByteBits;
    if n > 0 {
      MessageBitsZeros(n - 1, lowFirst);
      assert ZeroBytes(n)[..n - 1] == ZeroBytes(n - 1);
      ZeroByteBits(lowFirst);
    }
  }

  lemma ZeroByteBits(lowFirst: bool)
    ensures ByteBits(0, lowFirst) == Zeros(8)
  {
    hide Bit;
    forall k | 0 <= k < 8 ensures !Bit(0, k) {
      BitZero(k);
    }
  }

  lemma XorZeroBytes(b: seq<bv8>)
    ensures XorBytes(b, ZeroBytes(|b|)) == b
  {
  }
}
