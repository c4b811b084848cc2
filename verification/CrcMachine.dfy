/**
 What the three checksums share: a register of any width that takes in bytes, and what follows once
 its contents, read as coefficients, behave like the dividing register of module Gf2.
 */
module CrcMachine {
  import opened Gf2
  import opened Octets
  import opened WordBits

  /** A register over words `W`.  `enter` places a byte where it is added, `reg` reads the contents as
      coefficients from the highest power down, `poly` is the generator below its leading term. */
  datatype Machine<!W> = Machine(
    shift: W -> W, enter: bv8 -> W, add: (W, W) -> W, reg: W -> Bits,
    poly: Bits, lowFirst: bool, init: W, out: W)

  /** `n` shifts without input. */
  function Shifts<W>(m: Machine<W>, c: W, n: nat): W
    decreases n
  {
    if n == 0 then c else m.shift(Shifts(m, c, n - 1))
  }

  /** A byte is added to the register, then shifted through. */
  function Absorb<W>(m: Machine<W>, c: W, b: bv8): W {
    Shifts(m, m.add(c, m.enter(b)), 8)
  }

  /** The register after `data`, from contents `c`. */
  function Run<W>(m: Machine<W>, c: W, data: seq<bv8>): W
    decreases |data|
  {
    if data == [] then c else Absorb(m, Run(m, c, data[..|data| - 1]), data[|data| - 1])
  }

  function Crc<W>(m: Machine<W>, data: seq<bv8>): W {
    m.add(Run(m, m.init, data), m.out)
  }

  /** Entry `k` of the table. */
  function Entry<W>(m: Machine<W>, k: bv8): W {
    Shifts(m, m.enter(k), 8)
  }

  /** The register is the dividing register, seen through `reg`; the generator has a constant term. */
  ghost predicate Sound<W(!new)>(m: Machine<W>) {
    && |m.poly| >= 8 && m.poly[|m.poly| - 1]
    && (forall c :: |m.reg(c)| == |m.poly|)
    && (forall c, d :: m.reg(c) == m.reg(d) ==> c == d)
    && (forall c, d :: m.reg(m.add(c, d)) == Xor(m.reg(c), m.reg(d)))
    && (forall c :: m.reg(m.shift(c)) == Step(m.reg(c), false, m.poly))
    && (forall b :: m.reg(m.enter(b)) == ByteBits(b, m.lowFirst) + Zeros(|m.poly| - 8))
  }

  lemma RunNext<W>(m: Machine<W>, c: W, data: seq<bv8>, i: nat)
    requires i < |data|
    ensures Run(m, c, data[..i + 1]) == Absorb(m, Run(m, c, data[..i]), data[i])
  {
    assert data[..i + 1][..i] == data[..i];
  }

  // ---------- The register divides ----------

  lemma {:induction false} ShiftsIsFeed<W(!new)>(m: Machine<W>, c: W, n: nat)
    requires Sound(m)
    ensures m.reg(Shifts(m, c, n)) == Feed(m.reg(c), Zeros(n), m.poly)
    decreases n
  {
    hide Step, ByteBits, Xor;
    if n > 0 {
      ShiftsIsFeed(m, c, n - 1);
      assert Zeros(n) == Zeros(n - 1) + [false];
      FeedConcat(m.reg(c), Zeros(n - 1), [false], m.poly);
      FeedOne(m.reg(Shifts(m, c, n - 1)), false, m.poly);
    }
  }

  lemma AbsorbIsFeed<W(!new)>(m: Machine<W>, c: W, b: bv8)
    requires Sound(m)
    ensures m.reg(Absorb(m, c, b)) == Feed(m.reg(c), ByteBits(b, m.lowFirst), m.poly)
  {
    hide Shifts, Feed, ByteBits, Xor, Step;
    ShiftsIsFeed(m, m.add(c, m.enter(b)), 8);
    FeedAbsorb(m.reg(c), ByteBits(b, m.lowFirst), m.poly);
  }

  /** The byte-wise register is the bit-wise one, read as polynomial coefficients. */
  lemma {:induction false} RunIsFeed<W(!new)>(m: Machine<W>, c: W, data: seq<bv8>)
    requires Sound(m)
    ensures m.reg(Run(m, c, data)) == Feed(m.reg(c), MessageBits(data, m.lowFirst), m.poly)
    decreases |data|
  {
    hide Absorb, Feed, ByteBits, Step, Xor;
    var n := |data| - 1;
    if n < 0 {
      FeedNothing(m.reg(c), m.poly);
    } else {
      RunIsFeed(m, c, data[..n]);
      AbsorbIsFeed(m, Run(m, c, data[..n]), data[n]);
      FeedConcat(m.reg(c), MessageBits(data[..n], m.lowFirst), ByteBits(data[n], m.lowFirst), m.poly);
    }
  }

  /** With `w` the width, the register is the remainder of `m * x^w + c * x^(8n)` divided by the
      generator, and no other value is. */
  lemma RunIsRemainder<W(!new)>(m: Machine<W>, c: W, data: seq<bv8>, r: W)
    requires Sound(m)
    ensures IsRemainder(Dividend(m.reg(c), MessageBits(data, m.lowFirst)), [true] + m.poly, m.reg(r))
            <==> r == Run(m, c, data)
  {
    hide Run, Feed, MessageBits, IsRemainder, Dividend, Step, Xor, ByteBits;
    RunIsFeed(m, c, data);
    FeedIsRemainder(m.reg(c), MessageBits(data, m.lowFirst), m.poly, m.reg(r));
  }

  // ---------- Error detection ----------

  lemma OutInjective<W(!new)>(m: Machine<W>, c: W, d: W)
    requires Sound(m) && m.add(c, m.out) == m.add(d, m.out)
    ensures c == d
  {
    hide Step, ByteBits, Xor;
    var x, y, o := m.reg(c), m.reg(d), m.reg(m.out);
    assert Xor(x, o) == Xor(y, o);
    forall i | 0 <= i < |x| ensures x[i] == y[i] {
      assert Xor(x, o)[i] == (x[i] != o[i]);
    }
  }

  /** Messages that differ only inside a window of as many consecutive bits as the register has
      lead to different registers and have different checksums. */
  lemma BurstsDetected<W(!new)>(m: Machine<W>, c: W, m1: seq<bv8>, m2: seq<bv8>, lo: nat, hi: nat)
    requires Sound(m) && m1 != m2
    requires SameOutside(MessageBits(m1, m.lowFirst), MessageBits(m2, m.lowFirst), lo, hi) && hi - lo <= |m.poly|
    ensures Run(m, c, m1) != Run(m, c, m2)
    ensures c == m.init ==> Crc(m, m1) != Crc(m, m2)
  {
    hide Run, Feed, MessageBits, Crc, Sound, SameOutside;
    MessagesDiffer(m1, m2, m.lowFirst, lo, hi);
    RunsMeet(m, c, m1, m2);
    SameCrc(m, m1, m2);
    BurstDetected(m.reg(c), MessageBits(m1, m.lowFirst), MessageBits(m2, m.lowFirst), lo, hi, m.poly);
  }

  lemma MessagesDiffer(m1: seq<bv8>, m2: seq<bv8>, lowFirst: bool, lo: nat, hi: nat)
    requires SameOutside(MessageBits(m1, lowFirst), MessageBits(m2, lowFirst), lo, hi) && m1 != m2
    ensures MessageBits(m1, lowFirst) != MessageBits(m2, lowFirst)
  {
    hide MessageBits;
    if MessageBits(m1, lowFirst) == MessageBits(m2, lowFirst) {
      MessageBitsInjective(m1, m2, lowFirst);
    }
  }

  /** The bound is exact: in a window of one bit more, the messages collide exactly when their
      difference there is the generator. */
  lemma WiderBurstsDetected<W(!new)>(m: Machine<W>, c: W, m1: seq<bv8>, m2: seq<bv8>, lo: nat, hi: nat)
    requires Sound(m) && m1 != m2 && hi - lo == |m.poly| + 1
    requires SameOutside(MessageBits(m1, m.lowFirst), MessageBits(m2, m.lowFirst), lo, hi)
    ensures Run(m, c, m1) == Run(m, c, m2)
            <==> Difference(MessageBits(m1, m.lowFirst), MessageBits(m2, m.lowFirst), lo, hi) == [true] + m.poly
    ensures c == m.init ==> (Crc(m, m1) == Crc(m, m2) <==> Run(m, c, m1) == Run(m, c, m2))
  {
    hide Run, Feed, MessageBits, Crc, Sound, SameOutside, Difference;
    MessagesDiffer(m1, m2, m.lowFirst, lo, hi);
    RunsMeet(m, c, m1, m2);
    SameCrc(m, m1, m2);
    WiderBurst(m.reg(c), MessageBits(m1, m.lowFirst), MessageBits(m2, m.lowFirst), lo, hi, m.poly);
  }

  /** Registers agree exactly when their coefficients do. */
  lemma RunsMeet<W(!new)>(m: Machine<W>, c: W, m1: seq<bv8>, m2: seq<bv8>)
    requires Sound(m)
    ensures |m.reg(c)| == |m.poly| > 0 && m.poly[|m.poly| - 1]
    ensures Run(m, c, m1) == Run(m, c, m2)
            <==> Feed(m.reg(c), MessageBits(m1, m.lowFirst), m.poly)
                 == Feed(m.reg(c), MessageBits(m2, m.lowFirst), m.poly)
  {
    hide Run, Feed, MessageBits, Step, Xor, ByteBits;
    RunIsFeed(m, c, m1);
    RunIsFeed(m, c, m2);
    SameRegister(m, Run(m, c, m1), Run(m, c, m2));
  }

  lemma SameRegister<W(!new)>(m: Machine<W>, c: W, d: W)
    requires Sound(m)
    ensures m.reg(c) == m.reg(d) <==> c == d
  {
    hide Step, Xor, ByteBits;
  }

  lemma SameCrc<W(!new)>(m: Machine<W>, m1: seq<bv8>, m2: seq<bv8>)
    requires Sound(m)
    ensures Crc(m, m1) == Crc(m, m2) <==> Run(m, m.init, m1) == Run(m, m.init, m2)
  {
    hide Sound, Run;
    if Crc(m, m1) == Crc(m, m2) {
      OutInjective(m, Run(m, m.init, m1), Run(m, m.init, m2));
    }
  }

  /** Two wrong bits at distance `d` go undetected exactly when `d` shifts bring a single one at the high
      end of the register back there. */
  lemma DoubleErrors<W(!new)>(m: Machine<W>, c: W, m1: seq<bv8>, m2: seq<bv8>, i: nat, d: nat, one: W)
    requires Sound(m) && m.reg(one) == One(|m.poly|)
    requires DifferInTwo(MessageBits(m1, m.lowFirst), MessageBits(m2, m.lowFirst), i, d)
    ensures Run(m, c, m1) == Run(m, c, m2) <==> Shifts(m, one, d) == one
    ensures c == m.init ==> (Crc(m, m1) == Crc(m, m2) <==> Shifts(m, one, d) == one)
  {
    hide Run, Feed, MessageBits, Crc, Shifts, DifferInTwo, One, Sound;
    RunsMeet(m, c, m1, m2);
    SameCrc(m, m1, m2);
    ShiftsIsFeed(m, one, d);
    SameRegister(m, Shifts(m, one, d), one);
    DoubleError(m.reg(c), MessageBits(m1, m.lowFirst), MessageBits(m2, m.lowFirst), i, d, m.poly);
  }

  lemma {:induction false} ShiftsConcat<W>(m: Machine<W>, c: W, a: nat, b: nat)
    ensures Shifts(m, c, a + b) == Shifts(m, Shifts(m, c, a), b)
    decreases b
  {
    if b > 0 {
      ShiftsConcat(m, c, a, b - 1);
    }
  }

  /** With the factor `x + 1` in the generator, an odd number of wrong bits, anywhere, is detected. */
  lemma OddErrorsDetected<W(!new)>(m: Machine<W>, c: W, m1: seq<bv8>, m2: seq<bv8>)
    requires Sound(m) && Parity(m.poly)
    requires |m1| == |m2| && Parity(MessageBits(m1, m.lowFirst)) != Parity(MessageBits(m2, m.lowFirst))
    ensures Run(m, c, m1) != Run(m, c, m2)
    ensures c == m.init ==> Crc(m, m1) != Crc(m, m2)
  {
    hide Run, Feed, MessageBits, Step, Xor, ByteBits, Parity;
    RunIsFeed(m, c, m1);
    RunIsFeed(m, c, m2);
    FeedParity(m.reg(c), MessageBits(m1, m.lowFirst), m.poly);
    FeedParity(m.reg(c), MessageBits(m2, m.lowFirst), m.poly);
    SameCrc(m, m1, m2);
  }

  // ---------- Linearity and concatenation ----------

  lemma RunLinear<W(!new)>(m: Machine<W>, c: W, d: W, a: seq<bv8>, b: seq<bv8>)
    requires Sound(m) && |a| == |b|
    ensures Run(m, m.add(c, d), XorBytes(a, b)) == m.add(Run(m, c, a), Run(m, d, b))
  {
    hide Run, Feed, MessageBits, Xor, XorBytes, Step, ByteBits;
    RunIsFeed(m, m.add(c, d), XorBytes(a, b));
    RunIsFeed(m, c, a);
    RunIsFeed(m, d, b);
    MessageBitsXor(a, b, m.lowFirst);
    FeedLinear(m.reg(c), m.reg(d), MessageBits(a, m.lowFirst), MessageBits(b, m.lowFirst), m.poly);
  }

  lemma ShiftsLinear<W(!new)>(m: Machine<W>, c: W, d: W, n: nat)
    requires Sound(m)
    ensures Shifts(m, m.add(c, d), n) == m.add(Shifts(m, c, n), Shifts(m, d, n))
  {
    hide Feed, Shifts, Xor, Step, ByteBits;
    ShiftsIsFeed(m, m.add(c, d), n);
    ShiftsIsFeed(m, c, n);
    ShiftsIsFeed(m, d, n);
    FeedLinear(m.reg(c), m.reg(d), Zeros(n), Zeros(n), m.poly);
    assert Xor(Zeros(n), Zeros(n)) == Zeros(n);
  }

  /** The table step: what the byte does not reach is shifted, and the rest is looked up. */
  lemma TableStep<W(!new)>(m: Machine<W>, c: W, b: bv8, rest: W, index: bv8)
    requires Sound(m) && m.add(c, m.enter(b)) == m.add(rest, m.enter(index))
    ensures Absorb(m, c, b) == m.add(Shifts(m, rest, 8), Entry(m, index))
  {
    hide Sound, Shifts;
    ShiftsLinear(m, rest, m.enter(index), 8);
  }

  lemma Thrice<W(!new)>(m: Machine<W>, a: W, b: W, c: W, k: W)
    requires Sound(m)
    ensures m.add(m.add(m.add(a, k), m.add(b, k)), m.add(c, k)) == m.add(m.add(m.add(a, b), c), k)
    ensures m.add(m.add(k, k), k) == k
    ensures m.add(k, m.add(a, k)) == a && m.add(m.add(a, k), k) == a
    ensures m.add(m.add(a, b), k) == m.add(m.add(a, k), b)
  {
    hide Step, ByteBits, Xor;
    var x, y, z, o := m.reg(a), m.reg(b), m.reg(c), m.reg(k);
    XorThrice(x, y, z, o);
  }

  lemma XorThrice(x: Bits, y: Bits, z: Bits, o: Bits)
    requires |x| == |y| == |z| == |o|
    ensures Xor(Xor(Xor(x, o), Xor(y, o)), Xor(z, o)) == Xor(Xor(Xor(x, y), z), o)
    ensures Xor(Xor(o, o), o) == o
    ensures Xor(o, Xor(x, o)) == x && Xor(Xor(x, o), o) == x
    ensures Xor(Xor(x, y), o) == Xor(Xor(x, o), y)
  {
  }

  /** Not linear, because of the initial and final words, but affine. */
  lemma CrcAffine<W(!new)>(m: Machine<W>, a: seq<bv8>, b: seq<bv8>, d: seq<bv8>)
    requires Sound(m) && |a| == |b| == |d|
    ensures Crc(m, XorBytes(XorBytes(a, b), d)) == m.add(m.add(Crc(m, a), Crc(m, b)), Crc(m, d))
  {
    hide Sound, Run, XorBytes;
    var i := m.init;
    RunLinear(m, i, i, a, b);
    RunLinear(m, m.add(i, i), i, XorBytes(a, b), d);
    Thrice(m, i, i, i, i);
    Thrice(m, Run(m, i, a), Run(m, i, b), Run(m, i, d), m.out);
  }

  lemma {:induction false} RunConcat<W>(m: Machine<W>, c: W, a: seq<bv8>, b: seq<bv8>)
    ensures Run(m, c, a + b) == Run(m, Run(m, c, a), b)
    decreases |b|
  {
    hide Absorb;
    if b == [] {
      assert a + b == a;
    } else {
      assert (a + b)[..|a + b| - 1] == a + b[..|b| - 1];
      RunConcat(m, c, a, b[..|b| - 1]);
    }
  }

  /** The checksum of a concatenation from the two checksums and the length of the second part. */
  lemma CrcCombine<W(!new)>(m: Machine<W>, a: seq<bv8>, b: seq<bv8>)
    requires Sound(m)
    ensures Crc(m, a + b)
            == m.add(Crc(m, b), Run(m, m.add(m.add(Crc(m, a), m.out), m.init), ZeroBytes(|b|)))
  {
    hide Sound, Run;
    var i, o, x := m.init, m.out, Run(m, m.init, a);
    RunConcat(m, i, a, b);
    RunLinear(m, i, m.add(x, i), b, ZeroBytes(|b|));
    XorZeroBytes(b);
    Thrice(m, x, x, x, i);
    Thrice(m, x, x, x, o);
    Thrice(m, Run(m, i, b), Run(m, m.add(x, i), ZeroBytes(|b|)), x, o);
  }

  // ---------- Residues ----------

  /** A message followed by its own checksum, in the bit order of the register, always has the same
      checksum. */
  lemma CrcResidue<W(!new)>(m: Machine<W>, data: seq<bv8>, trailer: seq<bv8>)
    requires Sound(m) && MessageBits(trailer, m.lowFirst) == m.reg(Crc(m, data))
    ensures Crc(m, data + trailer) == m.add(Shifts(m, m.out, |m.poly|), m.out)
  {
    hide Run, Feed, MessageBits, Shifts, Xor, Step, ByteBits;
    var c := Run(m, m.init, data);
    RunConcat(m, m.init, data, trailer);
    RunIsFeed(m, c, trailer);
    FeedSelf(m.reg(c), m.reg(m.out), m.poly);
    ShiftsIsFeed(m, m.out, |m.poly|);
  }

  /** Without a final word it is the empty register. */
  lemma EmptyResidue<W(!new)>(m: Machine<W>)
    requires Sound(m) && m.reg(m.out) == Zeros(|m.poly|)
    ensures m.add(Shifts(m, m.out, |m.poly|), m.out) == m.out
  {
    hide Feed, Shifts, Step, ByteBits;
    ShiftsIsFeed(m, m.out, |m.poly|);
    FeedZeros(|m.poly|, m.poly);
  }

  // ---------- The table ----------

  /** A lookup table that is built when it is first needed. */
  class Table<W(!new)> {
    const m: Machine<W>
    const entries: array<W>
    var ready: bool

    ghost predicate Valid()
      reads this, entries
    {
      entries.Length == 256 && (ready ==> Filled(256))
    }

    /** The first `n` entries hold eight shifts of their index. */
    ghost predicate Filled(n: nat)
      requires n <= entries.Length == 256
      reads entries
    {
      forall k: bv8 :: k as int < n ==> entries[k as int] == Entry(m, k)
    }

    constructor (m: Machine<W>)
      ensures Valid() && !ready && this.m == m && fresh(entries)
    {
      this.m := m;
      entries := new W[256](_ => m.init);
      ready := false;
    }

    method BuildEntry(i: bv8) returns (c: W)
      ensures c == Entry(m, i)
    {
      c := m.enter(i);
      for j := 0 to 8
        invariant c == Shifts(m, m.enter(i), j)
      {
        c := m.shift(c);
      }
    }

    method Build()
      requires entries.Length == 256
      modifies entries
      ensures Filled(256)
    {
      hide Entry;
      for i := 0 to 256
        invariant Filled(i)
      {
        var c := BuildEntry(i as bv8);
        entries[i] := c;
        assert forall k: bv8 {:trigger Entry(m, k)} :: k as int == i ==> Entry(m, k) == c;
      }
    }

    method EnsureReady()
      requires Valid()
      modifies this, entries
      ensures Valid() && ready
    {
      if !ready {
        Build();
        ready := true;
      }
    }
  }
}
