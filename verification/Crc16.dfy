/**
 CRC-16-CCITT with polynomial x^16 + x^12 + x^5 + 1: a table machine, the bitwise register it stands for, and
 the division the register performs.
 */
module Crc16 {
  import opened CrcMachine
  import opened Gf2
  import opened WordBits

  const INIT: bv16 := 0xFFFF

  /** Addition of registers, as polynomials over GF(2). */
  function Add(a: bv16, b: bv16): bv16 { a ^ b }

  /** One shift of the register, as the table is built. */
  function Shift(c: bv16): bv16 {
    if c & 0x8000 != 0 then (c << 1) ^ 0x1021 else c << 1
  }

  function AtHighEnd(b: bv8): bv16 {
    (b as bv16) << 8
  }

  /** The bitwise register that the table machine stands for. */
  function Register(): Machine<bv16> {
    Machine(Shift, AtHighEnd, Add, Reg, Poly(), false, INIT, 0)
  }

  // ---------- The register as a sequence of coefficients ----------

  function Wide(c: bv16): bv32 { c as bv32 }

  function Reg(c: bv16): (r: Bits)
    ensures |r| == 16
  {
    Msb(Wide(c), 16)
  }

  function Poly(): (p: Bits)
    ensures |p| == 16
  {
    Reg(0x1021)
  }

  lemma PolyBytes()
    ensures ByteBits(0x10, false) == [false, false, false, true, false, false, false, false]
    ensures ByteBits(0x21, false) == [false, false, true, false, false, false, false, true]
  {
    assert !Bit(0x10, 0) && !Bit(0x10, 1) && !Bit(0x10, 2) && !Bit(0x10, 3);
    assert Bit(0x10, 4) && !Bit(0x10, 5) && !Bit(0x10, 6) && !Bit(0x10, 7);
    assert Bit(0x21, 0) && !Bit(0x21, 1) && !Bit(0x21, 2) && !Bit(0x21, 3);
    assert !Bit(0x21, 4) && Bit(0x21, 5) && !Bit(0x21, 6) && !Bit(0x21, 7);
  }

  lemma PolyTerms()
    ensures Poly() == [false, false, false, true, false, false, false, false,
                       false, false, true, false, false, false, false, true]
  {
    PolyBytes();
    hide Bit, ByteBits;
    RegBytes(0x1021);
  }

  lemma PolyOdd()
    ensures Parity(Poly())
  {
    hide Poly, Parity;
    PolyTerms();
    var a, b, c := Zeros(3) + [true], Zeros(6) + [true], Zeros(4) + [true];
    assert Poly() == a + (b + c);
    ParityOfOne(3);
    ParityOfOne(6);
    ParityOfOne(4);
    ParityConcat(b, c);
    ParityConcat(a, b + c);
  }

  lemma WideAdd(a: bv16, b: bv16)
    ensures Wide(Add(a, b)) == Sum(Wide(a), Wide(b))
  {
  }

  lemma RegAdd(a: bv16, b: bv16)
    ensures Reg(Add(a, b)) == Xor(Reg(a), Reg(b))
  {
    hide Add, Sum, Bit, Wide;
    WideAdd(a, b);
    MsbSum(Wide(a), Wide(b), 16);
  }

  lemma RegInjective(a: bv16, b: bv16)
    requires Reg(a) == Reg(b)
    ensures a == b
  {
    RegBelow(a);
    RegBelow(b);
    WideInjective(a, b);
    hide Below, Wide;
    MsbInjective(Wide(a), Wide(b), 16);
  }

  lemma WideInjective(a: bv16, b: bv16)
    ensures Wide(a) == Wide(b) <==> a == b
  {
  }

  lemma RegBelow(a: bv16)
    ensures Below(Wide(a), 16)
  {
    MaskValues();
  }

  lemma RegDouble(c: bv16)
    ensures Reg(c << 1) == Reg(c)[1..] + [false]
  {
    var carry := Double(Wide(c)) & 0x1_0000;
    assert Wide(c << 1) == Sum(Double(Wide(c)), carry);
    MaskValues();
    MsbDouble(Wide(c), carry, 16);
  }

  lemma ShiftIsStep(c: bv16)
    ensures Reg(Shift(c)) == Step(Reg(c), false, Poly())
  {
    RegDouble(c);
    RegTop(c);
    if c & 0x8000 != 0 {
      RegAdd(c << 1, 0x1021);
    } else {
      assert Xor(Reg(c)[1..] + [false], Zeros(16)) == Reg(c)[1..] + [false];
    }
  }

  lemma RegTop(c: bv16)
    ensures Reg(c)[0] <==> c & 0x8000 != 0
  {
    var x := Wide(c);
    assert Bit(x, 15) == Odd(x >> 15);
  }

  lemma RegOfByte(b: bv8)
    ensures Reg(AtHighEnd(b)) == ByteBits(b, false) + Zeros(8)
  {
    hide Bit, Doubles;
    var x := b as bv32;
    EightDoubles(x);
    assert Wide(AtHighEnd(b)) == x << 8;
    forall i | 0 <= i < 16 ensures Reg(AtHighEnd(b))[i] == (ByteBits(b, false) + Zeros(8))[i] {
      BitDoubles(x, 8, 15 - i);
    }
  }

  /** Everything proved of sound machines holds for this one. */
  lemma RegisterSound()
    ensures Sound(Register())
  {
    hide Reg, Shift, Add, AtHighEnd, Step, Xor, ByteBits;
    PolyTerms();
    forall c, d | Reg(c) == Reg(d) ensures c == d {
      RegInjective(c, d);
    }
    forall c, d ensures Reg(Add(c, d)) == Xor(Reg(c), Reg(d)) {
      RegAdd(c, d);
    }
    forall c ensures Reg(Shift(c)) == Step(Reg(c), false, Poly()) {
      ShiftIsStep(c);
    }
    forall b ensures Reg(AtHighEnd(b)) == ByteBits(b, false) + Zeros(8) {
      RegOfByte(b);
    }
  }

  /** The register is the remainder of `m * x^16 + c * x^(8n)` divided by x^16 + x^12 + x^5 + 1, bytes
      read high bit first, and no other value is. */
  lemma RunDivides(c: bv16, data: seq<bv8>, r: bv16)
    ensures IsRemainder(Dividend(Reg(c), MessageBits(data, false)),
                        [true, false, false, false, true, false, false, false, false,
                         false, false, true, false, false, false, false, true], Reg(r))
            <==> r == Run(Register(), c, data)
  {
    RegisterSound();
    PolyTerms();
    hide Sound, Run, Reg, Dividend, IsRemainder, MessageBits;
    RunIsRemainder(Register(), c, data, r);
    assert [true] + Poly() == [true, false, false, false, true, false, false, false, false,
                               false, false, true, false, false, false, false, true];
  }

  lemma RegOnes()
    ensures Reg(0xFFFF) == Ones(16)
  {
    hide Bit;
    var x := Wide(0xFFFF);
    assert LowOnes(16) == x by {
      assert LowOnes(8) == 0xFF;
    }
    forall i | 0 <= i < 16 ensures Reg(0xFFFF)[i] {
      BitOfOnes(16, 15 - i);
    }
  }

  /** The checksum itself: its remainder is that of the message times x^16, with sixteen ones added at
      the front; messages shorter than the register included. */
  lemma CrcDivides(data: seq<bv8>, r: bv16)
    ensures var m := MessageBits(data, false);
      IsRemainder(Xor(m + Zeros(16), Ones(16) + Zeros(|m|)),
                  [true, false, false, false, true, false, false, false, false,
                   false, false, true, false, false, false, false, true], Reg(r))
      <==> r == Crc(Register(), data)
  {
    hide Reg, Run, MessageBits, IsRemainder;
    RunDivides(INIT, data, r);
    RegOnes();
    NoFinalWord(Run(Register(), INIT, data));
  }

  /** From two bytes on that complements the first sixteen bits of the message. */
  lemma CrcComplements(data: seq<bv8>, r: bv16)
    requires |data| >= 2
    ensures var m := MessageBits(data, false);
      IsRemainder(Complement(m[..16]) + m[16..] + Zeros(16),
                  [true, false, false, false, true, false, false, false, false,
                   false, false, true, false, false, false, false, true], Reg(r))
      <==> r == Crc(Register(), data)
  {
    hide Reg, Crc, MessageBits, IsRemainder;
    var m := MessageBits(data, false);
    CrcDivides(data, r);
    assert Xor(m + Zeros(16), Ones(16) + Zeros(|m|)) == Complement(m[..16]) + m[16..] + Zeros(16);
  }

  lemma NoFinalWord(c: bv16)
    ensures Register().add(c, Register().out) == c
  {
  }

  /** The checksum as it is appended to a message, high byte first. */
  function Trailer(c: bv16): (t: seq<bv8>)
    ensures |t| == 2
  {
    [ByteAt(Wide(c), 1), ByteAt(Wide(c), 0)]
  }

  lemma TrailerBits(c: bv16)
    ensures MessageBits(Trailer(c), false) == Reg(c)
  {
    hide Bit, ByteAt;
    var t := Trailer(c);
    assert t[..1][..0] == [];
    assert MessageBits(t[..1], false) == ByteBits(t[0], false);
    assert MessageBits(t, false) == ByteBits(t[0], false) + ByteBits(t[1], false);
    RegBytes(c);
  }

  lemma RegBytes(c: bv16)
    ensures Reg(c) == ByteBits(ByteAt(Wide(c), 1), false) + ByteBits(ByteAt(Wide(c), 0), false)
  {
    hide Bit, ByteAt, Wide;
    var x := Wide(c);
    forall i | 0 <= i < 8
      ensures Bit(x, 15 - i) == ByteBits(ByteAt(x, 1), false)[i]
      ensures Bit(x, 7 - i) == ByteBits(ByteAt(x, 0), false)[i]
    {
      ByteAtBits(x, 1, 7 - i);
      ByteAtBits(x, 0, 7 - i);
    }
  }

  /** A message followed by its own checksum, high byte first, has checksum zero. */
  lemma ChecksumResidue(data: seq<bv8>)
    ensures Crc(Register(), data + Trailer(Crc(Register(), data))) == 0
  {
    var m := Register();
    RegisterSound();
    RegZero();
    hide Sound, CrcMachine.Crc, Shifts, Reg, Trailer, MessageBits;
    TrailerBits(Crc(m, data));
    CrcResidue(m, data, Trailer(Crc(m, data)));
    EmptyResidue(m);
  }

  lemma RegZero()
    ensures Reg(0) == Zeros(16)
  {
    forall k | 0 <= k < 16 ensures !Bit(0, k) {
      BitZero(k);
    }
  }

  // ---------- The table ----------

  lemma ShiftsUp(c: bv16)
    requires c & 0xFF00 == 0
    ensures Shift(c) == c << 1 && Shift(c << 1) == c << 2 && Shift(c << 2) == c << 3
    ensures Shift(c << 3) == c << 4 && Shift(c << 4) == c << 5 && Shift(c << 5) == c << 6
    ensures Shift(c << 6) == c << 7 && Shift(c << 7) == c << 8
  {
  }

  /** Eight shifts move a low byte up without feedback. */
  lemma ShiftsLow(c: bv16)
    requires c & 0xFF00 == 0
    ensures Shifts(Register(), c, 8) == c << 8
  {
    ShiftsUp(c);
    hide Shift, Reg, Poly, Add, AtHighEnd;
    var m := Register();
    assert Shifts(m, c, 1) == m.shift(c);
    assert Shifts(m, c, 2) == c << 2;
    assert Shifts(m, c, 3) == c << 3;
    assert Shifts(m, c, 4) == c << 4;
    assert Shifts(m, c, 5) == c << 5;
    assert Shifts(m, c, 6) == c << 6;
    assert Shifts(m, c, 7) == c << 7;
  }

  function Index(c: bv16, b: bv8): bv8 {
    (((c >> 8) ^ (b as bv16)) & 0xFF) as bv8
  }

  lemma SplitAtIndex(c: bv16, b: bv8)
    ensures Add(c, AtHighEnd(b)) == Add(c & 0xFF, AtHighEnd(Index(c, b)))
    ensures (c & 0xFF) & 0xFF00 == 0 && (c & 0xFF) << 8 == c << 8
  {
    HighByte(c, b);
    assert Index(c, b) == (((c >> 8) ^ (b as bv16)) & 0xFF) as bv8;
  }

  lemma HighByte(c: bv16, b: bv8)
    ensures c ^ ((b as bv16) << 8) == (c & 0xFF) ^ (((((c >> 8) ^ (b as bv16)) & 0xFF) as bv8) as bv16 << 8)
  {
  }

  /** The step with the table is eight steps of the bitwise register. */
  lemma LookUp(c: bv16, b: bv8)
    ensures Add(c << 8, Entry(Register(), Index(c, b))) == Absorb(Register(), c, b)
  {
    RegisterSound();
    hide Sound, Shifts, Add, Index, AtHighEnd;
    SplitAtIndex(c, b);
    ShiftsLow(c & 0xFF);
    TableStep(Register(), c, b, c & 0xFF, Index(c, b));
  }

  /** The table of this checksum, right whenever it is said to be ready. */
  ghost predicate IsTable(table: Table<bv16>)
    reads table, table.entries
  {
    table.m == Register() && table.Valid()
  }

  class Context {
    var crc: bv16

    method Init(table: Table<bv16>)
      requires IsTable(table)
      modifies this, table, table.entries
      ensures IsTable(table) && table.ready && crc == INIT
    {
      table.EnsureReady();
      crc := 0xFFFF;
    }

    method Update(table: Table<bv16>, data: seq<bv8>)
      requires IsTable(table) && table.ready
      modifies this
      ensures crc == Run(Register(), old(crc), data)
    {
      hide Absorb, Add, Index, Entry, Register;
      var c := crc;
      for i := 0 to |data|
        invariant crc == old(crc) && c == Run(Register(), crc, data[..i])
      {
        hide Run;
        RunNext(Register(), crc, data, i);
        LookUp(c, data[i]);
        c := Add(c << 8, table.entries[Index(c, data[i]) as int]);
      }
      assert data[..|data|] == data;
      crc := c;
    }

    method Final() returns (r: bv16)
      ensures r == crc
    {
      r := crc;
    }
  }

  method Compute(table: Table<bv16>, data: seq<bv8>) returns (r: bv16)
    requires IsTable(table)
    modifies table, table.entries
    ensures IsTable(table) && table.ready && r == Crc(Register(), data)
  {
    var ctx := new Context;
    ctx.Init(table);
    ctx.Update(table, data);
    r := ctx.Final();
  }
}
