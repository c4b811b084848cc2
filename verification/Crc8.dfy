/**
 CRC-8 with polynomial x^8 + x^2 + x + 1: a table machine, the bitwise register it stands for, and
 the division the register performs.
 */
module Crc8 {
  import opened CrcMachine
  import opened Gf2
  import opened WordBits

  const INIT: bv8 := 0x00

  /** Addition of registers, as polynomials over GF(2). */
  function Add(a: bv8, b: bv8): bv8 { a ^ b }

  /** One shift of the register, as the table is built. */
  function Shift(c: bv8): bv8 {
    if c & 0x80 != 0 then (c << 1) ^ 0x07 else c << 1
  }

  function Enter(b: bv8): bv8 { b }

  /** The bitwise register that the table machine stands for. */
  function Register(): Machine<bv8> {
    Machine(Shift, Enter, Add, Reg, Poly(), false, INIT, 0)
  }

  // ---------- The register as a sequence of coefficients ----------

  function Reg(c: bv8): (r: Bits)
    ensures |r| == 8
  {
    Msb(c as bv32, 8)
  }

  function Poly(): (p: Bits)
    ensures |p| == 8
  {
    Reg(0x07)
  }

  lemma PolyTerms()
    ensures Poly() == [false, false, false, false, false, true, true, true]
  {
    var p := 0x07 as bv32;
    assert Bit(p, 0) && Bit(p, 1) && Bit(p, 2) && !Bit(p, 3);
    assert !Bit(p, 4) && !Bit(p, 5) && !Bit(p, 6) && !Bit(p, 7);
  }

  lemma ExtendAdd(a: bv8, b: bv8)
    ensures Add(a, b) as bv32 == Sum(a as bv32, b as bv32)
  {
    ExtendXor(a, b);
    assert Add(a, b) == a ^ b;
    assert Sum(a as bv32, b as bv32) == (a as bv32) ^ (b as bv32);
  }

  lemma ExtendXor(a: bv8, b: bv8)
    ensures (a ^ b) as bv32 == (a as bv32) ^ (b as bv32)
  {
  }

  lemma RegAdd(a: bv8, b: bv8)
    ensures Reg(Add(a, b)) == Xor(Reg(a), Reg(b))
  {
    ExtendAdd(a, b);
    hide Add, Sum, Bit;
    MsbSum(a as bv32, b as bv32, 8);
  }

  lemma RegInjective(a: bv8, b: bv8)
    requires Reg(a) == Reg(b)
    ensures a == b
  {
    RegBelow(a);
    RegBelow(b);
    hide Below;
    MsbInjective(a as bv32, b as bv32, 8);
  }

  lemma RegBelow(a: bv8)
    ensures Below(a as bv32, 8)
  {
    MaskValues();
  }

  lemma RegDouble(c: bv8)
    ensures Reg(c << 1) == Reg(c)[1..] + [false]
  {
    var carry := ((c as bv32) << 1) & 0x100;
    assert (c << 1) as bv32 == Sum(Double(c as bv32), carry);
    MaskValues();
    MsbDouble(c as bv32, carry, 8);
  }

  lemma ShiftIsStep(c: bv8)
    ensures Reg(Shift(c)) == Step(Reg(c), false, Poly())
  {
    RegDouble(c);
    RegTop(c);
    if c & 0x80 != 0 {
      RegAdd(c << 1, 0x07);
    } else {
      assert Xor(Reg(c)[1..] + [false], Zeros(8)) == Reg(c)[1..] + [false];
    }
  }

  lemma RegTop(c: bv8)
    ensures Reg(c)[0] <==> c & 0x80 != 0
  {
    var x := c as bv32;
    assert Bit(x, 7) == Odd(x >> 7);
  }

  /** Everything proved of sound machines holds for this one. */
  lemma RegisterSound()
    ensures Sound(Register())
  {
    hide Reg, Shift, Add, Step, Xor, ByteBits;
    PolyTerms();
    forall c, d | Reg(c) == Reg(d) ensures c == d {
      RegInjective(c, d);
    }
    forall c, d ensures Reg(Add(c, d)) == Xor(Reg(c), Reg(d)) {
      RegAdd(c, d);
    }
    forall c ensures Reg(Shift(c)) == Step(Reg(c), false, Poly()) {
      ShiftIsStep(c);
    }
    forall b ensures Reg(Enter(b)) == ByteBits(b, false) + Zeros(0) {
      RegOfByte(b);
    }
  }

  lemma RegOfByte(b: bv8)
    ensures Reg(b) == ByteBits(b, false) + Zeros(0)
  {
    assert Reg(b) + Zeros(0) == Reg(b);
  }

  /** The register is the remainder of `m * x^8 + c * x^(8n)` divided by x^8 + x^2 + x + 1, bytes read
      high bit first, and no other value is. */
  lemma RunDivides(c: bv8, data: seq<bv8>, r: bv8)
    ensures IsRemainder(Dividend(Reg(c), MessageBits(data, false)),
                        [true, false, false, false, false, false, true, true, true], Reg(r))
            <==> r == Run(Register(), c, data)
  {
    RegisterSound();
    PolyTerms();
    hide Sound, Run, Reg, Dividend, IsRemainder, MessageBits;
    RunIsRemainder(Register(), c, data, r);
    assert [true] + Poly() == [true, false, false, false, false, false, true, true, true];
  }

  /** The checksum itself: the message times x^8 leaves it as its remainder. */
  lemma CrcDivides(data: seq<bv8>, r: bv8)
    ensures IsRemainder(MessageBits(data, false) + Zeros(8),
                        [true, false, false, false, false, false, true, true, true], Reg(r))
            <==> r == Crc(Register(), data)
  {
    hide Reg, Run, MessageBits, IsRemainder;
    RunDivides(INIT, data, r);
    RegZero();
    var m := MessageBits(data, false);
    assert Dividend(Zeros(8), m) == m + Zeros(8);
    NoFinalWord(Run(Register(), INIT, data));
  }

  lemma NoFinalWord(c: bv8)
    ensures Register().add(c, Register().out) == c
  {
  }

  /** The generator has an even number of terms. */
  lemma PolyOdd()
    ensures Parity(Poly())
  {
    PolyTerms();
  }

  lemma RegZero()
    ensures Reg(0) == Zeros(8)
  {
    forall k | 0 <= k < 8 ensures !Bit(0, k) {
      BitZero(k);
    }
  }

  /** A message followed by its own checksum has checksum zero. */
  lemma ChecksumResidue(data: seq<bv8>)
    ensures Crc(Register(), data + [Crc(Register(), data)]) == 0
  {
    var m := Register();
    var v := Crc(m, data);
    RegisterSound();
    RegZero();
    assert MessageBits([v], false) == Reg(v);
    hide Sound, CrcMachine.Crc, Shifts, Reg;
    CrcResidue(m, data, [v]);
    EmptyResidue(m);
  }

  // ---------- Double errors ----------

  /** None of the next `n` shifts brings `c` to 0x80, the single one at the high end. */
  predicate Avoids(c: bv8, n: nat)
    decreases n
  {
    n == 0 || (Shift(c) != 0x80 && Avoids(Shift(c), n - 1))
  }

  lemma {:induction false} AvoidsShifts(c: bv8, n: nat, d: nat)
    requires Avoids(c, n) && 0 < d <= n
    ensures Shifts(Register(), c, d) != 0x80
    decreases d
  {
    hide Shift, Register;
    FirstShift(c, d - 1);
    if d > 1 {
      AvoidsShifts(Shift(c), n - 1, d - 1);
    }
  }

  lemma FirstShift(c: bv8, n: nat)
    ensures Shifts(Register(), c, n + 1) == Shifts(Register(), Shift(c), n)
    ensures Shifts(Register(), c, 1) == Shift(c)
  {
    hide Shift;
    assert Shifts(Register(), c, 1) == Register().shift(c);
    ShiftsConcat(Register(), c, 1, n);
  }

  lemma Leg(c: bv8, e: bv8)
    requires Avoids(c, 7) && e == ShiftTimes(c, 7)
    ensures Shifts(Register(), c, 7) == e
    ensures forall d :: 0 < d <= 7 ==> Shifts(Register(), c, d) != 0x80
  {
    hide Avoids, ShiftTimes, Shift, Register;
    ShiftTimesShifts(c, 7);
    forall d | 0 < d <= 7 ensures Shifts(Register(), c, d) != 0x80 {
      AvoidsShifts(c, 7, d);
    }
  }

  function ShiftTimes(c: bv8, n: nat): bv8
    decreases n
  {
    if n == 0 then c else ShiftTimes(Shift(c), n - 1)
  }

  lemma {:induction false} ShiftTimesShifts(c: bv8, n: nat)
    ensures ShiftTimes(c, n) == Shifts(Register(), c, n)
    decreases n
  {
    hide Shift, Register;
    if n > 0 {
      ShiftTimesShifts(Shift(c), n - 1);
      FirstShift(c, n - 1);
    }
  }

  /** The start of leg `k` of the round trip of a single one. */
  function LegStart(k: nat): bv8 {
    match k
    case 0 => 0x80 case 1 => 0xC7 case 2 => 0xAE case 3 => 0xA2 case 4 => 0xB0 case 5 => 0x8F
    case 6 => 0x52 case 7 => 0xDF case 8 => 0x8A case 9 => 0xDC case 10 => 0x0D case 11 => 0x92
    case 12 => 0xF8 case 13 => 0x73 case 14 => 0x2F case 15 => 0xE5 case 16 => 0xD9 case 17 => 0x83
    case _ => 0x40
  }

  lemma LegAvoids(k: nat)
    requires k < 18
    ensures Avoids(LegStart(k), 7)
  {
    match k
    case 0 => case 1 => case 2 => case 3 => case 4 => case 5 => case 6 => case 7 => case 8 =>
    case 9 => case 10 => case 11 => case 12 => case 13 => case 14 => case 15 => case 16 =>
    case _ =>
  }

  lemma LegEnds(k: nat)
    requires k < 18
    ensures ShiftTimes(LegStart(k), 7) == LegStart(k + 1)
  {
    match k
    case 0 => case 1 => case 2 => case 3 => case 4 => case 5 => case 6 => case 7 => case 8 =>
    case 9 => case 10 => case 11 => case 12 => case 13 => case 14 => case 15 => case 16 =>
    case _ =>
  }

  lemma FirstLeg()
    ensures LegStart(0) == 0x80
  {
  }

  lemma {:induction false} Reached(k: nat)
    requires k <= 18
    ensures Shifts(Register(), 0x80, 7 * k) == LegStart(k)
    ensures forall d :: 0 < d <= 7 * k ==> Shifts(Register(), 0x80, d) != 0x80
    decreases k
  {
    hide Avoids, ShiftTimes, Shift, Register, LegStart;
    if k == 0 {
      FirstLeg();
    } else {
      Reached(k - 1);
      LegAvoids(k - 1);
      LegEnds(k - 1);
      Leg(LegStart(k - 1), LegStart(k));
      hide Shifts;
      ShiftsConcat(Register(), 0x80, 7 * (k - 1), 7);
      forall d | 7 * (k - 1) < d <= 7 * k ensures Shifts(Register(), 0x80, d) != 0x80 {
        ShiftsConcat(Register(), 0x80, 7 * (k - 1), d - 7 * (k - 1));
      }
    }
  }

  /** A single one comes back after 127 shifts and not before. */
  lemma {:induction false} Period(d: nat)
    ensures Shifts(Register(), 0x80, d) == 0x80 <==> d % 127 == 0
    decreases d
  {
    hide Shift, Register, LegStart;
    Reached(18);
    if d >= 127 {
      RoundTrip();
      ShiftsConcat(Register(), 0x80, 127, d - 127);
      Period(d - 127);
    }
  }

  lemma RoundTrip()
    ensures Shifts(Register(), 0x80, 127) == 0x80
  {
    Reached(18);
    assert Shift(0x40) == 0x80;
    hide Shift, Register;
    ShiftsConcat(Register(), 0x80, 126, 1);
    FirstShift(0x40, 0);
  }

  lemma SingleOne()
    ensures Reg(0x80) == One(8)
  {
    var x := 0x80 as bv32;
    assert Bit(x, 7) && !Bit(x, 6) && !Bit(x, 5) && !Bit(x, 4) && !Bit(x, 3) && !Bit(x, 2) && !Bit(x, 1) && !Bit(x, 0);
  }

  /** Two wrong bits change the checksum exactly when their distance is not a multiple of 127. */
  lemma DoubleErrorsDetected(c: bv8, m1: seq<bv8>, m2: seq<bv8>, i: nat, d: nat)
    requires DifferInTwo(MessageBits(m1, false), MessageBits(m2, false), i, d)
    ensures Run(Register(), c, m1) != Run(Register(), c, m2) <==> d % 127 != 0
  {
    RegisterSound();
    SingleOne();
    Period(d);
    hide Sound, Run, Shifts, Reg, MessageBits, DifferInTwo, One;
    DoubleErrors(Register(), c, m1, m2, i, d, 0x80);
  }

  // ---------- The implementation ----------

  lemma LookUp(c: bv8, b: bv8)
    ensures Entry(Register(), Add(c, b)) == Absorb(Register(), c, b)
  {
    hide Shifts, Add;
    assert Register().add(c, Register().enter(b)) == Add(c, b);
    assert Register().enter(Add(c, b)) == Add(c, b);
  }

  /** The table of this checksum, right whenever it is said to be ready. */
  ghost predicate IsTable(table: Table<bv8>)
    reads table, table.entries
  {
    table.m == Register() && table.Valid()
  }

  class Context {
    var crc: bv8

    method Init(table: Table<bv8>)
      requires IsTable(table)
      modifies this, table, table.entries
      ensures IsTable(table) && table.ready && crc == INIT
    {
      table.EnsureReady();
      crc := 0x00;
    }

    method Update(table: Table<bv8>, data: seq<bv8>)
      requires IsTable(table) && table.ready
      modifies this
      ensures crc == Run(Register(), old(crc), data)
    {
      hide Absorb, Entry, Add, Register;
      var c := crc;
      for i := 0 to |data|
        invariant crc == old(crc) && c == Run(Register(), crc, data[..i])
      {
        hide Run;
        RunNext(Register(), crc, data, i);
        LookUp(c, data[i]);
        c := table.entries[Add(c, data[i]) as int];
      }
      assert data[..|data|] == data;
      crc := c;
    }

    method Final() returns (r: bv8)
      ensures r == crc
    {
      r := crc;
    }
  }

  method Compute(table: Table<bv8>, data: seq<bv8>) returns (r: bv8)
    requires IsTable(table)
    modifies table, table.entries
    ensures IsTable(table) && table.ready && r == Crc(Register(), data)
  {
    var ctx := new Context;
    ctx.Init(table);
    ctx.Update(table, data);
    r := ctx.Final();
  }
}
