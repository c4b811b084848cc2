/**
 CRC-32 of Ethernet: a right-shifting table machine, the bitwise register it stands for, the
 left-shifting register it mirrors, and the division both perform.
 */
module Crc32 {
  import opened CrcMachine
  import opened Gf2
  import opened WordBits

  const INIT: bv32 := 0xFFFF_FFFF
  const XOR_OUT: bv32 := 0xFFFF_FFFF

  /** One shift of the register, as the table is built. */
  function Shift(c: bv32): bv32 {
    if Odd(c) then Sum(Half(c), 0xEDB8_8320) else Half(c)
  }

  function Wide(b: bv8): bv32 { b as bv32 }

  /** The bitwise register that the table machine stands for. */
  function Register(): Machine<bv32> {
    Machine(Shift, Wide, Sum, Reg, Poly(), true, INIT, XOR_OUT)
  }

  // ---------- The register as a sequence of coefficients ----------

  /** The low end of the register holds the highest coefficient. */
  function Reg(c: bv32): (r: Bits)
    ensures |r| == 32
  {
    Lsb(c, 32)
  }

  function Poly(): (p: Bits)
    ensures |p| == 32
  {
    Reg(0xEDB8_8320)
  }

  lemma PolyBytes()
    ensures ByteBits(0x20, true) == [false, false, false, false, false, true, false, false]
    ensures ByteBits(0x83, true) == [true, true, false, false, false, false, false, true]
    ensures ByteBits(0xB8, true) == [false, false, false, true, true, true, false, true]
    ensures ByteBits(0xED, true) == [true, false, true, true, false, true, true, true]
  {
    assert !Bit(0x20, 0) && !Bit(0x20, 1) && !Bit(0x20, 2) && !Bit(0x20, 3);
    assert !Bit(0x20, 4) && Bit(0x20, 5) && !Bit(0x20, 6) && !Bit(0x20, 7);
    assert Bit(0x83, 0) && Bit(0x83, 1) && !Bit(0x83, 2) && !Bit(0x83, 3);
    assert !Bit(0x83, 4) && !Bit(0x83, 5) && !Bit(0x83, 6) && Bit(0x83, 7);
    assert !Bit(0xB8, 0) && !Bit(0xB8, 1) && !Bit(0xB8, 2) && Bit(0xB8, 3);
    assert Bit(0xB8, 4) && Bit(0xB8, 5) && !Bit(0xB8, 6) && Bit(0xB8, 7);
    assert Bit(0xED, 0) && !Bit(0xED, 1) && Bit(0xED, 2) && Bit(0xED, 3);
    assert !Bit(0xED, 4) && Bit(0xED, 5) && Bit(0xED, 6) && Bit(0xED, 7);
  }

  lemma PolyTerms()
    ensures Poly() == [
              false, false, false, false, false, true, false, false,
              true, true, false, false, false, false, false, true,
              false, false, false, true, true, true, false, true,
              true, false, true, true, false, true, true, true]
  {
    PolyBytes();
    hide Bit, ByteBits;
    RegBytes(0xEDB8_8320);
  }

  /** A word read from its low end is its four bytes, low byte first. */
  lemma RegBytes(c: bv32)
    ensures Reg(c) == ByteBits(ByteAt(c, 0), true) + ByteBits(ByteAt(c, 1), true)
                      + ByteBits(ByteAt(c, 2), true) + ByteBits(ByteAt(c, 3), true)
  {
    var b0, b1 := ByteBits(ByteAt(c, 0), true), ByteBits(ByteAt(c, 1), true);
    var b2, b3 := ByteBits(ByteAt(c, 2), true), ByteBits(ByteAt(c, 3), true);
    ByteOfReg(c, 0);
    ByteOfReg(c, 1);
    ByteOfReg(c, 2);
    ByteOfReg(c, 3);
    hide Bit, ByteBits, ByteAt, Reg;
    Join(Reg(c), b0, b1, b2, b3);
  }

  lemma Join(b: Bits, p: Bits, q: Bits, r: Bits, s: Bits)
    requires |b| == 32 && b[0..8] == p && b[8..16] == q && b[16..24] == r && b[24..32] == s
    ensures b == p + q + r + s
  {
  }

  lemma ByteOfReg(c: bv32, j: nat)
    requires j < 4
    ensures Reg(c)[8 * j..8 * j + 8] == ByteBits(ByteAt(c, j), true)
  {
    hide Bit, ByteAt;
    var part := Reg(c)[8 * j..8 * j + 8];
    forall i | 0 <= i < 8 ensures part[i] == ByteBits(ByteAt(c, j), true)[i] {
      ByteAtBits(c, j, i);
    }
  }

  lemma RegAdd(a: bv32, b: bv32)
    ensures Reg(Sum(a, b)) == Xor(Reg(a), Reg(b))
  {
    hide Sum, Bit;
    MsbSum(a, b, 32);
  }

  lemma RegInjective(a: bv32, b: bv32)
    requires Reg(a) == Reg(b)
    ensures a == b
  {
    RegBelow(a);
    RegBelow(b);
    hide Below;
    MsbInjective(a, b, 32);
  }

  lemma RegBelow(a: bv32)
    ensures Below(a, 32)
  {
    MaskValues();
  }

  lemma ShiftIsStep(c: bv32)
    ensures Reg(Shift(c)) == Step(Reg(c), false, Poly())
  {
    hide Half, Sum, Odd, Bit;
    LsbHalf(c);
    RegLow(c);
    if Odd(c) {
      RegAdd(Half(c), 0xEDB8_8320);
    } else {
      assert Xor(Reg(c)[1..] + [false], Zeros(32)) == Reg(c)[1..] + [false];
    }
  }

  lemma RegLow(c: bv32)
    ensures Reg(c)[0] <==> Odd(c)
  {
  }

  lemma RegOfByte(b: bv8)
    ensures Reg(Wide(b)) == ByteBits(b, true) + Zeros(24)
  {
    hide Bit, Below;
    ByteBelow(b);
    forall i | 0 <= i < 32 ensures Reg(Wide(b))[i] == (ByteBits(b, true) + Zeros(24))[i] {
      if i >= 8 {
        BitAtOrAbove(Wide(b), 8, i);
      }
    }
  }

  lemma ByteBelow(b: bv8)
    ensures Below(Wide(b), 8)
  {
    MaskValues();
  }

  /** Everything proved of sound machines holds for this one. */
  lemma RegisterSound()
    ensures Sound(Register())
  {
    hide Reg, Shift, Sum, Wide, Step, Xor, ByteBits;
    PolyTerms();
    forall c, d | Reg(c) == Reg(d) ensures c == d {
      RegInjective(c, d);
    }
    forall c, d ensures Reg(Sum(c, d)) == Xor(Reg(c), Reg(d)) {
      RegAdd(c, d);
    }
    forall c ensures Reg(Shift(c)) == Step(Reg(c), false, Poly()) {
      ShiftIsStep(c);
    }
    forall b ensures Reg(Wide(b)) == ByteBits(b, true) + Zeros(24) {
      RegOfByte(b);
    }
  }

  /** The generator of IEEE 802.3: x^32 + x^26 + x^23 + x^22 + x^16 + x^12 + x^11 + x^10 + x^8 + x^7
      + x^5 + x^4 + x^2 + x + 1. */
  function Generator(): Bits {
    [true,
     false, false, false, false, false, true, false, false, true, true, false, false, false, false, false, true,
     false, false, false, true, true, true, false, true, true, false, true, true, false, true, true, true]
  }

  /** The register, read from its low end, is the remainder of `m * x^32 + c * x^(8n)` divided by the
      generator, bytes read low bit first, and no other value is. */
  lemma RunDivides(c: bv32, data: seq<bv8>, r: bv32)
    ensures IsRemainder(Dividend(Reg(c), MessageBits(data, true)), Generator(), Reg(r))
            <==> r == Run(Register(), c, data)
  {
    RegisterSound();
    GeneratorTerms();
    hide Sound, Run, Reg, Dividend, IsRemainder, MessageBits, Generator, Poly;
    RunIsRemainder(Register(), c, data, r);
  }

  lemma GeneratorTerms()
    ensures [true] + Poly() == Generator()
  {
    hide Poly;
    PolyTerms();
  }

  /** The frame check sequence of section 3.2.9 of IEEE 802.3: complement the first 32 bits of the
      frame, multiply by x^32, divide, and complement the remainder. */
  ghost predicate IsFrameCheck(m: Bits, fcs: Bits)
    requires |m| >= 32
  {
    && |fcs| == 32
    && IsRemainder(Complement(m[..32]) + m[32..] + Zeros(32), Generator(), Complement(fcs))
  }

  /** The checksum is the frame check sequence, and nothing else is. */
  lemma CrcIsFrameCheck(data: seq<bv8>, r: bv32)
    requires |data| >= 4
    ensures IsFrameCheck(MessageBits(data, true), Reg(r)) <==> r == Crc(Register(), data)
  {
    hide Reg, Run, MessageBits, IsRemainder, Dividend, Sum, Generator, Complement;
    var m := MessageBits(data, true);
    ComplementedDividend(m);
    ComplementedRegister(r);
    RunDivides(INIT, data, Sum(r, XOR_OUT));
    SumCancels(r, XOR_OUT);
    SumCancels(Run(Register(), INIT, data), XOR_OUT);
  }

  lemma ComplementedDividend(m: Bits)
    requires |m| >= 32
    ensures Dividend(Reg(INIT), m) == Complement(m[..32]) + m[32..] + Zeros(32)
  {
    hide Reg, Xor, Complement;
    RegOnes();
  }

  lemma RegOnes()
    ensures Reg(0xFFFF_FFFF) == Ones(32)
  {
    hide Bit;
    AllOnes();
    forall i | 0 <= i < 32 ensures Reg(0xFFFF_FFFF)[i] {
      BitOfOnes(32, i);
    }
  }

  lemma ComplementedRegister(r: bv32)
    ensures Complement(Reg(r)) == Reg(Sum(r, XOR_OUT))
  {
    hide Sum, Reg, Xor;
    RegOnes();
    RegAdd(r, XOR_OUT);
  }

  /** The checksum as it is appended to a message, low byte first. */
  function Trailer(v: bv32): (t: seq<bv8>)
    ensures |t| == 4
  {
    [ByteAt(v, 0), ByteAt(v, 1), ByteAt(v, 2), ByteAt(v, 3)]
  }

  lemma TrailerBits(v: bv32)
    ensures MessageBits(Trailer(v), true) == Reg(v)
  {
    hide Bit, ByteAt, ByteBits, Reg;
    var t := Trailer(v);
    RegBytes(v);
    assert t[..1][..0] == [] && t[..2][..1] == t[..1] && t[..3][..2] == t[..2];
    assert MessageBits(t[..1], true) == ByteBits(t[0], true);
    assert MessageBits(t[..2], true) == ByteBits(t[0], true) + ByteBits(t[1], true);
    assert MessageBits(t[..3], true) == ByteBits(t[0], true) + ByteBits(t[1], true) + ByteBits(t[2], true);
  }

  /** A message followed by its own checksum, low byte first, always has the same checksum. */
  lemma ChecksumResidue(data: seq<bv8>)
    ensures Crc(Register(), data + Trailer(Crc(Register(), data))) == 0x2144_DF1C
  {
    var m := Register();
    RegisterSound();
    hide Sound, CrcMachine.Crc, Shifts, Reg, Trailer, MessageBits, Sum;
    TrailerBits(Crc(m, data));
    CrcResidue(m, data, Trailer(Crc(m, data)));
    ResidueConstant();
  }

  lemma ResidueConstant()
    ensures Sum(Shifts(Register(), XOR_OUT, 32), XOR_OUT) == 0x2144_DF1C
  {
    var m := Register();
    hide Reg, Poly;
    assert Shifts(m, XOR_OUT, 1) == 0x92477CDF;
    assert Shifts(m, XOR_OUT, 2) == 0xA49B3D4F;
    assert Shifts(m, XOR_OUT, 3) == 0xBFF51D87;
    assert Shifts(m, XOR_OUT, 4) == 0xB2420DE3;
    assert Shifts(m, XOR_OUT, 5) == 0xB49985D1;
    assert Shifts(m, XOR_OUT, 6) == 0xB7F441C8;
    assert Shifts(m, XOR_OUT, 7) == 0x5BFA20E4;
    assert Shifts(m, XOR_OUT, 8) == 0x2DFD1072;
    assert Shifts(m, XOR_OUT, 9) == 0x16FE8839;
    assert Shifts(m, XOR_OUT, 10) == 0xE6C7C73C;
    assert Shifts(m, XOR_OUT, 11) == 0x7363E39E;
    assert Shifts(m, XOR_OUT, 12) == 0x39B1F1CF;
    assert Shifts(m, XOR_OUT, 13) == 0xF1607BC7;
    assert Shifts(m, XOR_OUT, 14) == 0x9508BEC3;
    assert Shifts(m, XOR_OUT, 15) == 0xA73CDC41;
    assert Shifts(m, XOR_OUT, 16) == 0xBE26ED00;
    assert Shifts(m, XOR_OUT, 17) == 0x5F137680;
    assert Shifts(m, XOR_OUT, 18) == 0x2F89BB40;
    assert Shifts(m, XOR_OUT, 19) == 0x17C4DDA0;
    assert Shifts(m, XOR_OUT, 20) == 0x0BE26ED0;
    assert Shifts(m, XOR_OUT, 21) == 0x05F13768;
    assert Shifts(m, XOR_OUT, 22) == 0x02F89BB4;
    assert Shifts(m, XOR_OUT, 23) == 0x017C4DDA;
    assert Shifts(m, XOR_OUT, 24) == 0x00BE26ED;
    assert Shifts(m, XOR_OUT, 25) == 0xEDE79056;
    assert Shifts(m, XOR_OUT, 26) == 0x76F3C82B;
    assert Shifts(m, XOR_OUT, 27) == 0xD6C16735;
    assert Shifts(m, XOR_OUT, 28) == 0x86D830BA;
    assert Shifts(m, XOR_OUT, 29) == 0x436C185D;
    assert Shifts(m, XOR_OUT, 30) == 0xCC0E8F0E;
    assert Shifts(m, XOR_OUT, 31) == 0x66074787;
    assert Shifts(m, XOR_OUT, 32) == 0xDEBB20E3;
  }

  // ---------- The mirror image ----------

  /** One shift of the register that the standard describes, highest coefficient at the high end. */
  function NormalShift(c: bv32): bv32 {
    if Bit(c, 31) then Sum(Double(c), 0x04C1_1DB7) else Double(c)
  }

  function NormalReg(c: bv32): (r: Bits)
    ensures |r| == 32
  {
    Msb(c, 32)
  }

  /** Bytes enter at the high end in reversed bit order. */
  function EnterReversed(b: bv8): bv32 {
    Mirror(Wide(b), 32)
  }

  /** The register of the standard. */
  function NormalRegister(): Machine<bv32> {
    Machine(NormalShift, EnterReversed, Sum, NormalReg, Poly(), true, INIT, XOR_OUT)
  }

  /** A word read from its high end is its four bytes, high byte first. */
  lemma MsbBytes(c: bv32)
    ensures Msb(c, 32) == ByteBits(ByteAt(c, 3), false) + ByteBits(ByteAt(c, 2), false)
                          + ByteBits(ByteAt(c, 1), false) + ByteBits(ByteAt(c, 0), false)
  {
    var b3, b2 := ByteBits(ByteAt(c, 3), false), ByteBits(ByteAt(c, 2), false);
    var b1, b0 := ByteBits(ByteAt(c, 1), false), ByteBits(ByteAt(c, 0), false);
    ByteOfMsb(c, 0);
    ByteOfMsb(c, 1);
    ByteOfMsb(c, 2);
    ByteOfMsb(c, 3);
    hide Bit, ByteBits, ByteAt, Msb;
    Join(Msb(c, 32), b3, b2, b1, b0);
  }

  lemma ByteOfMsb(c: bv32, j: nat)
    requires j < 4
    ensures Msb(c, 32)[8 * j..8 * j + 8] == ByteBits(ByteAt(c, 3 - j), false)
  {
    hide Bit, ByteAt;
    var part := Msb(c, 32)[8 * j..8 * j + 8];
    forall i | 0 <= i < 8 ensures part[i] == ByteBits(ByteAt(c, 3 - j), false)[i] {
      assert part[i] == Bit(c, 31 - (8 * j + i));
      ByteAtBits(c, 3 - j, 7 - i);
    }
  }

  lemma NormalPolyBytes()
    ensures ByteBits(0x04, false) == [false, false, false, false, false, true, false, false]
    ensures ByteBits(0xC1, false) == [true, true, false, false, false, false, false, true]
    ensures ByteBits(0x1D, false) == [false, false, false, true, true, true, false, true]
    ensures ByteBits(0xB7, false) == [true, false, true, true, false, true, true, true]
  {
    assert !Bit(0x04, 0) && !Bit(0x04, 1) && Bit(0x04, 2) && !Bit(0x04, 3);
    assert !Bit(0x04, 4) && !Bit(0x04, 5) && !Bit(0x04, 6) && !Bit(0x04, 7);
    assert Bit(0xC1, 0) && !Bit(0xC1, 1) && !Bit(0xC1, 2) && !Bit(0xC1, 3);
    assert !Bit(0xC1, 4) && !Bit(0xC1, 5) && Bit(0xC1, 6) && Bit(0xC1, 7);
    assert Bit(0x1D, 0) && !Bit(0x1D, 1) && Bit(0x1D, 2) && Bit(0x1D, 3);
    assert Bit(0x1D, 4) && !Bit(0x1D, 5) && !Bit(0x1D, 6) && !Bit(0x1D, 7);
    assert Bit(0xB7, 0) && Bit(0xB7, 1) && Bit(0xB7, 2) && !Bit(0xB7, 3);
    assert Bit(0xB7, 4) && Bit(0xB7, 5) && !Bit(0xB7, 6) && Bit(0xB7, 7);
  }

  lemma PolyMirrored()
    ensures Msb(0x04C1_1DB7, 32) == Poly()
  {
    PolyTerms();
    NormalPolyBytes();
    hide Bit, ByteBits, Poly;
    MsbBytes(0x04C1_1DB7);
  }

  lemma NormalShiftIsStep(n: bv32)
    ensures NormalReg(NormalShift(n)) == Step(NormalReg(n), false, Poly())
  {
    hide Double, Sum, Bit, Above, Poly;
    assert NormalReg(n)[0] == Bit(n, 31);
    ZeroAbove();
    MsbDouble(n, 0, 32);
    SumCancels(Double(n), 0);
    PolyMirrored();
    MsbSum(Double(n), 0x04C1_1DB7, 32);
    assert Xor(NormalReg(n)[1..] + [false], Zeros(32)) == NormalReg(n)[1..] + [false];
  }

  lemma ZeroAbove()
    ensures Above(0, 32)
  {
  }

  lemma NormalInjective(c: bv32, d: bv32)
    requires NormalReg(c) == NormalReg(d)
    ensures c == d
  {
    RegBelow(c);
    RegBelow(d);
    hide Below;
    MsbInjective(c, d, 32);
  }

  lemma NormalAdd(c: bv32, d: bv32)
    ensures NormalReg(Sum(c, d)) == Xor(NormalReg(c), NormalReg(d))
  {
    hide Sum, Bit;
    MsbSum(c, d, 32);
  }

  lemma MirrorReads(c: bv32)
    ensures NormalReg(Mirror(c, 32)) == Reg(c)
  {
    MsbOfMirror(c);
  }

  lemma NormalSound()
    ensures Sound(NormalRegister())
  {
    hide NormalReg, NormalShift, Sum, Wide, Step, Xor, ByteBits, Mirror, Reg;
    PolyTerms();
    forall c, d | NormalReg(c) == NormalReg(d) ensures c == d {
      NormalInjective(c, d);
    }
    forall c, d ensures NormalReg(Sum(c, d)) == Xor(NormalReg(c), NormalReg(d)) {
      NormalAdd(c, d);
    }
    forall c ensures NormalReg(NormalShift(c)) == Step(NormalReg(c), false, Poly()) {
      NormalShiftIsStep(c);
    }
    forall b ensures NormalReg(EnterReversed(b)) == ByteBits(b, true) + Zeros(24) {
      MirrorReads(Wide(b));
      RegOfByte(b);
    }
  }

  /** At every point of every message the left-shifting register holds the bit reversal of the
      right-shifting one. */
  lemma RunMirrored(c: bv32, data: seq<bv8>)
    ensures Run(NormalRegister(), Mirror(c, 32), data) == Mirror(Run(Register(), c, data), 32)
  {
    var x, y := Run(Register(), c, data), Run(NormalRegister(), Mirror(c, 32), data);
    RegisterSound();
    NormalSound();
    hide Sound, Run, Mirror, Reg, NormalReg, Feed, MessageBits, Poly;
    RunIsFeed(Register(), c, data);
    RunIsFeed(NormalRegister(), Mirror(c, 32), data);
    MirrorReads(c);
    MirrorReads(x);
    NormalInjective(y, Mirror(x, 32));
  }

  // ---------- The implementation ----------

  lemma ShiftsDown(c: bv32)
    requires c & 0xFF == 0
    ensures Shift(c) == c >> 1 && Shift(c >> 1) == c >> 2 && Shift(c >> 2) == c >> 3
    ensures Shift(c >> 3) == c >> 4 && Shift(c >> 4) == c >> 5 && Shift(c >> 5) == c >> 6
    ensures Shift(c >> 6) == c >> 7 && Shift(c >> 7) == c >> 8
  {
  }

  /** Eight shifts move the upper bytes down without feedback. */
  lemma ShiftsHigh(c: bv32)
    requires c & 0xFF == 0
    ensures Shifts(Register(), c, 8) == c >> 8
  {
    ShiftsDown(c);
    hide Shift, Reg, Poly, Sum, Wide;
    var m := Register();
    assert Shifts(m, c, 1) == m.shift(c);
    assert Shifts(m, c, 2) == c >> 2;
    assert Shifts(m, c, 3) == c >> 3;
    assert Shifts(m, c, 4) == c >> 4;
    assert Shifts(m, c, 5) == c >> 5;
    assert Shifts(m, c, 6) == c >> 6;
    assert Shifts(m, c, 7) == c >> 7;
  }

  function Index(c: bv32, b: bv8): bv8 {
    ((c ^ (b as bv32)) & 0xFF) as bv8
  }

  lemma SplitAtIndex(c: bv32, b: bv8)
    ensures Sum(c, Wide(b)) == Sum(c & 0xFFFF_FF00, Wide(Index(c, b)))
  {
    LowByteOf(c, b, Wide(b));
  }

  lemma LowByteOf(c: bv32, b: bv8, x: bv32)
    requires x == b as bv32
    ensures Sum(c, x) == Sum(c & 0xFFFF_FF00, (((c ^ x) & 0xFF) as bv8) as bv32)
  {
  }

  lemma UpperBytes(c: bv32)
    ensures (c & 0xFFFF_FF00) & 0xFF == 0 && (c & 0xFFFF_FF00) >> 8 == c >> 8
  {
  }

  /** The step with the table is eight steps of the bitwise register. */
  lemma LookUp(c: bv32, b: bv8)
    ensures Sum(c >> 8, Entry(Register(), Index(c, b))) == Absorb(Register(), c, b)
  {
    RegisterSound();
    hide Sound, Shifts, Sum, Index, Wide;
    SplitAtIndex(c, b);
    UpperBytes(c);
    ShiftsHigh(c & 0xFFFF_FF00);
    TableStep(Register(), c, b, c & 0xFFFF_FF00, Index(c, b));
  }

  /** The table of this checksum, right whenever it is said to be ready. */
  ghost predicate IsTable(table: Table<bv32>)
    reads table, table.entries
  {
    table.m == Register() && table.Valid()
  }

  class Context {
    var crc: bv32

    method Init(table: Table<bv32>)
      requires IsTable(table)
      modifies this, table, table.entries
      ensures IsTable(table) && table.ready && crc == INIT
    {
      table.EnsureReady();
      crc := 0xFFFF_FFFF;
    }

    method Update(table: Table<bv32>, data: seq<bv8>)
      requires IsTable(table) && table.ready
      modifies this
      ensures crc == Run(Register(), old(crc), data)
    {
      hide Absorb, Sum, Index, Entry, Register;
      var c := crc;
      for i := 0 to |data|
        invariant crc == old(crc) && c == Run(Register(), crc, data[..i])
      {
        hide Run;
        RunNext(Register(), crc, data, i);
        LookUp(c, data[i]);
        c := Sum(c >> 8, table.entries[Index(c, data[i]) as int]);
      }
      assert data[..|data|] == data;
      crc := c;
    }

    method Final() returns (r: bv32)
      ensures r == Sum(crc, XOR_OUT)
    {
      r := crc ^ 0xFFFF_FFFF;
    }
  }

  method Compute(table: Table<bv32>, data: seq<bv8>) returns (r: bv32)
    requires IsTable(table)
    modifies table, table.entries
    ensures IsTable(table) && table.ready && r == Crc(Register(), data)
  {
    var ctx := new Context;
    ctx.Init(table);
    ctx.Update(table, data);
    r := ctx.Final();
  }
}
