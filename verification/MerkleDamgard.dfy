/**
 The Merkle–Damgård construction, for an arbitrary compression function `f` on 64-byte blocks.

 Both digests of the crypto component are instances: they differ in the compression function, in
 the initial value and in the byte order of the length field.  Everything that does not depend on
 these three is stated here once: chunked absorption, padding, and the reduction of a collision of
 the whole digest to a collision of `f`.
 */
module MerkleDamgard {
  import opened Octets

  type Block = b: seq<bv8> | |b| == 64 witness seq(64, _ => 0)
  type LengthField = b: seq<bv8> | |b| == 8 witness seq(8, _ => 0)

  /** The chaining value after absorbing the whole blocks of `m`, starting from `s`. */
  function Fold<S>(f: (S, Block) -> S, s: S, m: seq<bv8>): S
    requires |m| % 64 == 0
  {
    if m == [] then s else Fold(f, f(s, m[..64]), m[64..])
  }

  lemma {:induction false} FoldAppend<S>(f: (S, Block) -> S, s: S, a: seq<bv8>, b: seq<bv8>)
    requires |a| % 64 == 0 && |b| % 64 == 0
    ensures Fold(f, s, a + b) == Fold(f, Fold(f, s, a), b)
    decreases |a|
  {
    if a == [] {
      assert a + b == b;
    } else {
      assert (a + b)[..64] == a[..64];
      assert (a + b)[64..] == a[64..] + b;
      FoldAppend(f, f(s, a[..64]), a[64..], b);
    }
  }

  lemma FoldBlock<S>(f: (S, Block) -> S, s: S, b: Block)
    ensures Fold(f, s, b) == f(s, b)
  {
    assert b[..64] == b && b[64..] == [];
  }

  lemma FoldLast<S>(f: (S, Block) -> S, s: S, m: seq<bv8>, b: Block)
    requires |m| % 64 == 0
    ensures Fold(f, s, m + b) == f(Fold(f, s, m), b)
  {
    FoldAppend(f, s, m, b);
    FoldBlock(f, Fold(f, s, m), b);
  }

  // ---------- Chunked absorption ----------

  /** The part of `m` that has gone through the compression function ... */
  function Whole(m: seq<bv8>): (w: seq<bv8>)
    ensures |w| % 64 == 0
  {
    m[..|m| - |m| % 64]
  }

  /** ... and the part that still waits in the buffer. */
  function Tail(m: seq<bv8>): (t: seq<bv8>)
    ensures |t| == |m| % 64
  {
    m[|m| - |m| % 64..]
  }

  /** One turn of an update loop: a piece that fits in the buffer either leaves the chaining value
      alone or completes exactly one more block. */
  lemma AbsorbPiece<S>(f: (S, Block) -> S, iv: S, m: seq<bv8>, p: seq<bv8>)
    requires |m| % 64 + |p| <= 64
    ensures |m| % 64 + |p| < 64 ==>
              Whole(m + p) == Whole(m) && Tail(m + p) == Tail(m) + p
    ensures |m| % 64 + |p| == 64 ==>
              && Fold(f, iv, Whole(m + p)) == f(Fold(f, iv, Whole(m)), Tail(m) + p)
              && Tail(m + p) == []
  {
    if |m| % 64 + |p| < 64 {
      PieceWaits(m, p);
    } else {
      PieceCompletes(m, p);
      hide Fold, Whole, Tail;
      FoldLast(f, iv, Whole(m), Tail(m) + p);
    }
  }

  lemma PieceWaits(m: seq<bv8>, p: seq<bv8>)
    requires |m| % 64 + |p| < 64
    ensures Whole(m + p) == Whole(m) && Tail(m + p) == Tail(m) + p
  {
    assert |m + p| % 64 == |m| % 64 + |p|;
  }

  lemma PieceCompletes(m: seq<bv8>, p: seq<bv8>)
    requires |m| % 64 + |p| == 64
    ensures Whole(m + p) == Whole(m) + (Tail(m) + p) && Tail(m + p) == []
  {
    assert |m + p| % 64 == 0;
    assert m + p == Whole(m) + (Tail(m) + p);
  }

  function Concat(chunks: seq<seq<bv8>>): seq<bv8> {
    if chunks == [] then [] else chunks[0] + Concat(chunks[1..])
  }

  lemma {:induction false} ConcatLast(chunks: seq<seq<bv8>>, n: nat)
    requires n < |chunks|
    ensures Concat(chunks[..n + 1]) == Concat(chunks[..n]) + chunks[n]
    decreases n
  {
    if n == 0 {
      assert chunks[..1] == [chunks[0]] && chunks[..1][1..] == [];
    } else {
      ConcatLast(chunks[1..], n - 1);
      assert chunks[..n + 1][1..] == chunks[1..][..n];
      assert chunks[..n][1..] == chunks[1..][..n - 1];
    }
  }

  // ---------- Padding ----------

  /** The number of zero bytes after the mark byte that leaves room for the length field at the end
      of a block; being less than 64, it is the least such number. */
  function ZeroCount(n: nat): (k: nat)
    ensures (n + 1 + k) % 64 == 56
    ensures k < 64
  {
    (55 - n) % 64
  }

  /** The number of zeros from the position in the open block alone. */
  lemma ZeroCountByIndex(n: nat)
    ensures ZeroCount(n) == if n % 64 < 56 then 55 - n % 64 else 119 - n % 64
  {
  }

  function Pad(length: nat -> LengthField, m: seq<bv8>): (p: seq<bv8>)
    ensures |p| % 64 == 0 && m < p
    ensures p[|p| - 8..] == length(|m|)
  {
    m + [0x80] + ZeroBytes(ZeroCount(|m|)) + length(|m|)
  }

  /** The padding as two more pieces of the message. */
  lemma PadByUpdates(length: nat -> LengthField, m: seq<bv8>)
    ensures Pad(length, m) == m + ([0x80] + ZeroBytes(ZeroCount(|m|))) + length(|m|)
  {
  }

  function Digest<S>(f: (S, Block) -> S, iv: S, length: nat -> LengthField, m: seq<bv8>): S {
    Fold(f, iv, Pad(length, m))
  }

  /** No two messages have the same padding, whatever the length field says. */
  lemma PadInjective(length: nat -> LengthField, m1: seq<bv8>, m2: seq<bv8>)
    requires Pad(length, m1) == Pad(length, m2)
    ensures m1 == m2
  {
    if |m1| < |m2| {
      PadMark(length, m1, m2);
    } else if |m2| < |m1| {
      PadMark(length, m2, m1);
    } else {
      assert m1 == Pad(length, m1)[..|m1|];
      assert m2 == Pad(length, m2)[..|m2|];
    }
  }

  lemma PadMark(length: nat -> LengthField, m1: seq<bv8>, m2: seq<bv8>)
    requires |m1| < |m2|
    ensures Pad(length, m1) != Pad(length, m2)
  {
    assert |Pad(length, m1)| == |m1| + 9 + ZeroCount(|m1|);
    assert |Pad(length, m2)| == |m2| + 9 + ZeroCount(|m2|);
    if |Pad(length, m1)| == |Pad(length, m2)| {
      assert Pad(length, m1)[|m2|] == 0;
      assert Pad(length, m2)[|m2|] == 0x80;
    }
  }

  /** The padding fits in the open block when at most 55 bytes wait in the buffer ... */
  lemma PadOneBlock(length: nat -> LengthField, m: seq<bv8>)
    requires |m| % 64 <= 55
    ensures Pad(length, m) ==
            Whole(m) + (Tail(m) + [0x80] + ZeroBytes(55 - |m| % 64) + length(|m|))
  {
    assert m == Whole(m) + Tail(m);
    ZeroCountByIndex(|m|);
  }

  /** ... and spills into a second one otherwise. */
  lemma PadTwoBlocks(length: nat -> LengthField, m: seq<bv8>)
    requires |m| % 64 > 55
    ensures Pad(length, m) ==
            Whole(m) + (Tail(m) + [0x80] + ZeroBytes(63 - |m| % 64)) + (ZeroBytes(56) + length(|m|))
  {
    assert m == Whole(m) + Tail(m);
    ZeroCountByIndex(|m|);
    assert ZeroBytes(ZeroCount(|m|)) == ZeroBytes(63 - |m| % 64) + ZeroBytes(56);
  }

  // ---------- Collisions ----------

  function BlockAt(p: seq<bv8>, i: nat): Block
    requires 64 * i + 64 <= |p|
  {
    p[64 * i..64 * i + 64]
  }

  /** The chaining value that meets block `i` of `p`. */
  function Chain<S>(f: (S, Block) -> S, iv: S, p: seq<bv8>, i: nat): S
    requires 64 * i <= |p|
  {
    Fold(f, iv, p[..64 * i])
  }

  lemma ChainStep<S>(f: (S, Block) -> S, iv: S, p: seq<bv8>, i: nat)
    requires 64 * i + 64 <= |p|
    ensures Chain(f, iv, p, i + 1) == f(Chain(f, iv, p, i), BlockAt(p, i))
  {
    assert p[..64 * (i + 1)] == p[..64 * i] + BlockAt(p, i);
    FoldLast(f, iv, p[..64 * i], BlockAt(p, i));
  }

  /** Hashing `p` and hashing `q` call `f` on different inputs, at blocks `i` and `j`, and get the
      same output. */
  ghost predicate CollidesAt<S>(f: (S, Block) -> S, iv: S, p: seq<bv8>, q: seq<bv8>, i: nat, j: nat)
    requires 64 * i + 64 <= |p| && 64 * j + 64 <= |q|
  {
    && (Chain(f, iv, p, i) != Chain(f, iv, q, j) || BlockAt(p, i) != BlockAt(q, j))
    && f(Chain(f, iv, p, i), BlockAt(p, i)) == f(Chain(f, iv, q, j), BlockAt(q, j))
  }

  ghost predicate Collides<S(!new)>(f: (S, Block) -> S, iv: S, p: seq<bv8>, q: seq<bv8>) {
    exists i: nat, j: nat ::
      64 * i + 64 <= |p| && 64 * j + 64 <= |q| && CollidesAt(f, iv, p, q, i, j)
  }

  lemma BlocksGrow(p: seq<bv8>, i: nat, j: nat)
    requires i <= j && 64 * j + 64 <= |p|
    ensures p[64 * i..64 * (j + 1)] == p[64 * i..64 * j] + BlockAt(p, j)
  {
  }

  /** Backward induction over the blocks, `q` being `d` blocks ahead: while the chaining values agree,
      either the last calls collide, or the last blocks are equal and the chaining values before them
      agree too. */
  lemma {:induction false} CollisionBackwards<S(!new)>(f: (S, Block) -> S, iv: S,
                                                       p: seq<bv8>, q: seq<bv8>, d: nat, n: nat)
    requires 64 * n <= |p| && 64 * (d + n) <= |q|
    requires Chain(f, iv, p, n) == Chain(f, iv, q, d + n)
    ensures Collides(f, iv, p, q)
            || (p[..64 * n] == q[64 * d..64 * (d + n)] && Chain(f, iv, q, d) == iv)
    decreases n
  {
    hide BlockAt;
    if n > 0 {
      ChainStep(f, iv, p, n - 1);
      ChainStep(f, iv, q, d + n - 1);
      if !CollidesAt(f, iv, p, q, n - 1, d + n - 1) {
        CollisionBackwards(f, iv, p, q, d, n - 1);
        BlocksGrow(p, 0, n - 1);
        BlocksGrow(q, d, d + n - 1);
      }
    }
  }

  /** Different length fields make the last calls collide. */
  lemma CollisionAtEnd<S(!new)>(f: (S, Block) -> S, iv: S, p: seq<bv8>, q: seq<bv8>)
    requires |p| % 64 == 0 && |q| % 64 == 0 && |p| > 0 && |q| > 0
    requires Fold(f, iv, p) == Fold(f, iv, q)
    requires p[|p| - 8..] != q[|q| - 8..]
    ensures Collides(f, iv, p, q)
  {
    var i, j := |p| / 64 - 1, |q| / 64 - 1;
    ChainStep(f, iv, p, i);
    ChainStep(f, iv, q, j);
    assert p[..64 * (i + 1)] == p && q[..64 * (j + 1)] == q;
    assert BlockAt(p, i)[56..] == p[|p| - 8..];
    assert BlockAt(q, j)[56..] == q[|q| - 8..];
    assert CollidesAt(f, iv, p, q, i, j);
  }

  /** The blocks by which `q` is longer than `p` bring the chaining value back to where it started. */
  ghost predicate LeadsBack<S>(f: (S, Block) -> S, iv: S, p: seq<bv8>, q: seq<bv8>) {
    |p| + 64 <= |q| && Chain(f, iv, q, (|q| - |p|) / 64) == iv
  }

  lemma PadGrows(length: nat -> LengthField, m1: seq<bv8>, m2: seq<bv8>)
    requires |m1| <= |m2|
    ensures |Pad(length, m1)| <= |Pad(length, m2)|
  {
    var a, b := |m1| + 9 + ZeroCount(|m1|), |m2| + 9 + ZeroCount(|m2|);
    assert |Pad(length, m1)| == a && |Pad(length, m2)| == b;
    assert a % 64 == 0 && b % 64 == 0;
  }

  /** For messages of any length: a collision of the digest comes with a collision of `f`, or else the
      length fields agree and the blocks by which the longer message is ahead lead back to `iv`. */
  lemma CollisionOrReturn<S(!new)>(f: (S, Block) -> S, iv: S, length: nat -> LengthField,
                                   m1: seq<bv8>, m2: seq<bv8>)
    requires m1 != m2 && |m1| <= |m2|
    requires Digest(f, iv, length, m1) == Digest(f, iv, length, m2)
    ensures var p, q := Pad(length, m1), Pad(length, m2);
      || Collides(f, iv, p, q)
      || (length(|m1|) == length(|m2|) && |m1| < |m2| && LeadsBack(f, iv, p, q))
  {
    hide Pad;
    var p, q := Pad(length, m1), Pad(length, m2);
    if length(|m1|) != length(|m2|) {
      CollisionAtEnd(f, iv, p, q);
    } else {
      PadGrows(length, m1, m2);
      var n, d := |p| / 64, (|q| - |p|) / 64;
      assert p[..64 * n] == p && q[..64 * (d + n)] == q;
      CollisionBackwards(f, iv, p, q, d, n);
      if d == 0 && p == q {
        PadInjective(length, m1, m2);
      } else if |m1| == |m2| {
        PadGrows(length, m2, m1);
      }
    }
  }

  /** Damgård's theorem: any collision of the digest comes with a collision of `f`, provided that
      equal length fields mean equal lengths. */
  lemma CollisionReduction<S(!new)>(f: (S, Block) -> S, iv: S, length: nat -> LengthField,
                                    m1: seq<bv8>, m2: seq<bv8>)
    requires length(|m1|) == length(|m2|) ==> |m1| == |m2|
    requires m1 != m2
    requires Digest(f, iv, length, m1) == Digest(f, iv, length, m2)
    ensures Collides(f, iv, Pad(length, m1), Pad(length, m2))
  {
    hide Pad, Digest;
    if |m1| <= |m2| {
      CollisionOrReturn(f, iv, length, m1, m2);
    } else {
      CollisionOrReturn(f, iv, length, m2, m1);
      CollidesBothWays(f, iv, Pad(length, m2), Pad(length, m1));
    }
  }

  lemma CollidesBothWays<S(!new)>(f: (S, Block) -> S, iv: S, p: seq<bv8>, q: seq<bv8>)
    requires Collides(f, iv, p, q)
    ensures Collides(f, iv, q, p)
  {
    var i: nat, j: nat :| 64 * i + 64 <= |p| && 64 * j + 64 <= |q| && CollidesAt(f, iv, p, q, i, j);
    assert CollidesAt(f, iv, q, p, j, i);
  }

  // ---------- The length field ----------

  function HexDigit(x: nat): (d: bv8)
    ensures d < 16
  {
    match x % 16
    case 0 => 0 case 1 => 1 case 2 => 2 case 3 => 3 case 4 => 4 case 5 => 5 case 6 => 6 case 7 => 7
    case 8 => 8 case 9 => 9 case 10 => 10 case 11 => 11 case 12 => 12 case 13 => 13 case 14 => 14
    case _ => 15
  }

  /** The cast `(uint8_t)x`, written with the two hexadecimal digits of the result. */
  function ByteOf(x: nat): bv8 {
    (HexDigit(x / 16) << 4) | HexDigit(x)
  }

  lemma HexDigitInjective(x: nat, y: nat)
    ensures HexDigit(x) == HexDigit(y) <==> x % 16 == y % 16
  {
  }

  lemma DigitsApart(a: bv8, b: bv8, c: bv8, d: bv8)
    requires a < 16 && b < 16 && c < 16 && d < 16
    requires (a << 4) | b == (c << 4) | d
    ensures a == c && b == d
  {
  }

  lemma ByteOfInjective(x: nat, y: nat)
    ensures ByteOf(x) == ByteOf(y) <==> x % 256 == y % 256
  {
    hide HexDigit;
    HexDigitInjective(x, y);
    HexDigitInjective(x / 16, y / 16);
    assert x % 256 == x / 16 % 16 * 16 + x % 16;
    assert y % 256 == y / 16 % 16 * 16 + y % 16;
    if ByteOf(x) == ByteOf(y) {
      DigitsApart(HexDigit(x / 16), HexDigit(x), HexDigit(y / 16), HexDigit(y));
    }
  }

  lemma HexDigitValue(x: nat)
    ensures HexDigit(x) as int == x % 16
  {
  }

  lemma HexPair(a: bv8, b: bv8)
    requires a < 16 && b < 16
    ensures ((a << 4) | b) as int == 16 * (a as int) + b as int
  {
    assert (a << 4) | b == 16 * a + b;
  }

  /** It is the cast: the remainder modulo 256. */
  lemma ByteOfValue(x: nat)
    ensures ByteOf(x) as int == x % 256
  {
    hide HexDigit;
    HexDigitValue(x / 16);
    HexDigitValue(x);
    var a, b := HexDigit(x / 16), HexDigit(x);
    assert ByteOf(x) == (a << 4) | b;
    hide ByteOf;
    HexPair(a, b);
    TwoDigits(x);
  }

  lemma TwoDigits(x: nat)
    ensures x % 256 == 16 * (x / 16 % 16) + x % 16
  {
  }

  /** The `n` low base-256 digits of `x`, least significant first. */
  function Digits(x: nat, n: nat): (d: seq<bv8>)
    ensures |d| == n
    decreases n
  {
    if n == 0 then [] else [ByteOf(x)] + Digits(x / 256, n - 1)
  }

  function Pow256(n: nat): (p: nat)
    ensures p > 0
  {
    if n == 0 then 1 else 256 * Pow256(n - 1)
  }

  /** What bytes are worth, the least significant one first. */
  function Value(d: seq<bv8>): nat {
    if d == [] then 0 else d[0] as nat + 256 * Value(d[1..])
  }

  lemma {:induction false} DigitsValue(x: nat, n: nat)
    requires x < Pow256(n)
    ensures Value(Digits(x, n)) == x
    decreases n
  {
    hide ByteOf;
    if n > 0 {
      ByteOfValue(x);
      DigitsValue(x / 256, n - 1);
      assert Digits(x, n)[1..] == Digits(x / 256, n - 1);
    }
  }

  lemma {:induction false} DigitsInjective(x: nat, y: nat, n: nat)
    requires x < Pow256(n) && y < Pow256(n)
    requires Digits(x, n) == Digits(y, n)
    ensures x == y
    decreases n
  {
    if n > 0 {
      assert Digits(x, n)[0] == Digits(y, n)[0];
      hide ByteOf;
      ByteOfInjective(x, y);
      assert Digits(x, n)[1..] == Digits(y, n)[1..];
      DigitsInjective(x / 256, y / 256, n - 1);
    }
  }

  /** The bit length of an `n`-byte message, as a 64-bit counter holds it. */
  function BitLength(n: nat): (b: nat)
    ensures b < TWO_64
    ensures n < 0x2000_0000_0000_0000 ==> b == 8 * n
  {
    8 * n % TWO_64
  }

  lemma BitLengthGrows(n: nat, k: nat)
    ensures (BitLength(n) + k * 8) % TWO_64 == BitLength(n + k)
  {
  }

  function LittleEndian(x: nat): LengthField {
    Digits(x, 8)
  }

  function BigEndian(x: nat): LengthField {
    seq(8, i requires 0 <= i < 8 => Digits(x, 8)[7 - i])
  }

  lemma FourDigits(x: nat)
    ensures Digits(x, 4) == [ByteOf(x), ByteOf(x / 0x100), ByteOf(x / 0x1_0000), ByteOf(x / 0x100_0000)]
  {
    hide ByteOf;
    var y := x / 256;
    var z := y / 256;
    assert z == x / 0x1_0000 && z / 256 == x / 0x100_0000;
    assert Digits(z, 2) == [ByteOf(z), ByteOf(z / 256)];
    assert Digits(y, 3) == [ByteOf(y)] + Digits(z, 2);
    assert Digits(x, 4) == [ByteOf(x)] + Digits(y, 3);
  }

  lemma EightDigits(x: nat)
    ensures Digits(x, 8) == Digits(x, 4) + Digits(x / 0x1_0000_0000, 4)
  {
    hide ByteOf;
    var y := x / 256;
    var z := y / 256;
    var u := z / 256;
    assert u / 256 == x / 0x1_0000_0000;
    assert Digits(u, 5) == [ByteOf(u)] + Digits(u / 256, 4);
    assert Digits(z, 6) == [ByteOf(z)] + Digits(u, 5);
    assert Digits(u, 1) == [ByteOf(u)];
    assert Digits(z, 2) == [ByteOf(z)] + Digits(u, 1);
    assert Digits(y, 3) == [ByteOf(y)] + Digits(z, 2);
  }

  /** The eight bytes one by one, as the code cuts them out of a 64-bit counter. */
  lemma BigEndianBytes(x: nat)
    ensures BigEndian(x) == [
              ByteOf(x / 0x100_0000_0000_0000), ByteOf(x / 0x1_0000_0000_0000),
              ByteOf(x / 0x100_0000_0000), ByteOf(x / 0x1_0000_0000),
              ByteOf(x / 0x100_0000), ByteOf(x / 0x1_0000), ByteOf(x / 0x100), ByteOf(x)]
  {
    hide ByteOf, Digits;
    FourDigits(x);
    FourDigits(x / 0x1_0000_0000);
    EightDigits(x);
    assert x / 0x1_0000_0000 / 0x100 == x / 0x100_0000_0000;
    assert x / 0x1_0000_0000 / 0x1_0000 == x / 0x1_0000_0000_0000;
    assert x / 0x1_0000_0000 / 0x100_0000 == x / 0x100_0000_0000_0000;
  }

  /** Low byte first, as section 3.2 of RFC 1321 appends the length. */
  function LittleEndianLength(n: nat): LengthField {
    LittleEndian(BitLength(n))
  }

  /** High byte first, as section 5.1.1 of FIPS 180-4 appends the length. */
  function BigEndianLength(n: nat): LengthField {
    BigEndian(BitLength(n))
  }

  lemma EightBytes()
    ensures Pow256(8) == TWO_64
  {
  }

  /** The length field is eight times the length in bytes modulo 2^64, low byte first ... */
  lemma LengthValue(n: nat)
    ensures Value(LittleEndianLength(n)) == 8 * n % 0x1_0000_0000_0000_0000
  {
    hide Digits, Value, Pow256;
    EightBytes();
    DigitsValue(BitLength(n), 8);
  }

  /** ... or high byte first. */
  lemma LengthReversed(n: nat)
    ensures forall i :: 0 <= i < 8 ==> BigEndianLength(n)[i] == LittleEndianLength(n)[7 - i]
  {
    hide Digits, BitLength;
  }

  /** The length fields of a message of three bytes, of which each order has its own. */
  lemma BigEndianOfThree()
    ensures BigEndianLength(3) == [0, 0, 0, 0, 0, 0, 0, 0x18]
  {
    assert BitLength(3) == 24;
    assert ByteOf(0) == 0 && ByteOf(24) == 0x18;
    hide ByteOf, BigEndian;
    BigEndianBytes(24);
  }

  lemma LittleEndianOfThree()
    ensures LittleEndianLength(3) == [0x18, 0, 0, 0, 0, 0, 0, 0]
  {
    hide BigEndianLength, LittleEndianLength;
    BigEndianOfThree();
    LengthReversed(3);
    var l, b := LittleEndianLength(3), BigEndianLength(3);
    assert l[0] == b[7] && l[1] == b[6] && l[2] == b[5] && l[3] == b[4];
    assert l[4] == b[3] && l[5] == b[2] && l[6] == b[1] && l[7] == b[0];
  }

  /** The eight bytes determine the bit length modulo 2^64 ... */
  lemma LengthFields(n1: nat, n2: nat)
    ensures LittleEndianLength(n1) == LittleEndianLength(n2) ==> BitLength(n1) == BitLength(n2)
    ensures BigEndianLength(n1) == BigEndianLength(n2) ==> BitLength(n1) == BitLength(n2)
  {
    var d1, d2 := Digits(BitLength(n1), 8), Digits(BitLength(n2), 8);
    if BigEndianLength(n1) == BigEndianLength(n2) {
      forall i | 0 <= i < 8 ensures d1[i] == d2[i] {
        assert BigEndian(BitLength(n1))[7 - i] == BigEndian(BitLength(n2))[7 - i];
      }
    }
    if d1 == d2 {
      EightBytes();
      DigitsInjective(BitLength(n1), BitLength(n2), 8);
    }
  }

  /** ... and with it, below 2^61 bytes, the length. */
  lemma LengthsInjective(n1: nat, n2: nat)
    requires n1 < 0x2000_0000_0000_0000 && n2 < 0x2000_0000_0000_0000
    ensures LittleEndianLength(n1) == LittleEndianLength(n2) ==> n1 == n2
    ensures BigEndianLength(n1) == BigEndianLength(n2) ==> n1 == n2
  {
    hide LittleEndianLength, BigEndianLength;
    LengthFields(n1, n2);
  }

  // ---------- The digest bytes ----------

  type WordBytes = b: seq<bv8> | |b| == 4 witness seq(4, _ => 0)

  /** The bytes of the first `n` words, each word cut up by `bytes`. */
  function Serialize(bytes: bv32 -> WordBytes, w: seq<bv32>, n: nat): (d: seq<bv8>)
    requires n <= |w|
    ensures |d| == 4 * n
  {
    if n == 0 then [] else Serialize(bytes, w, n - 1) + bytes(w[n - 1])
  }

  /** The bytes of `d` four at a time, when each word gives its four. */
  lemma {:induction false} SerializePieces(bytes: bv32 -> WordBytes, w: seq<bv32>, d: seq<bv8>, n: nat)
    requires n <= |w| && 4 * n <= |d|
    requires forall i :: 0 <= i < n ==> bytes(w[i]) == [d[4 * i], d[4 * i + 1], d[4 * i + 2], d[4 * i + 3]]
    ensures Serialize(bytes, w, n) == d[..4 * n]
  {
    if n > 0 {
      SerializePieces(bytes, w, d, n - 1);
    }
  }

  lemma {:induction false} SerializeInjective(bytes: bv32 -> WordBytes, v: seq<bv32>, w: seq<bv32>, n: nat)
    requires forall x, y :: bytes(x) == bytes(y) ==> x == y
    requires n <= |v| && n <= |w|
    requires Serialize(bytes, v, n) == Serialize(bytes, w, n)
    ensures v[..n] == w[..n]
    decreases n
  {
    if n > 0 {
      LastWord(Serialize(bytes, v, n - 1), bytes(v[n - 1]), Serialize(bytes, w, n - 1), bytes(w[n - 1]));
      SerializeInjective(bytes, v, w, n - 1);
      assert v[..n] == v[..n - 1] + [v[n - 1]] && w[..n] == w[..n - 1] + [w[n - 1]];
    }
  }

  lemma LastWord(x: seq<bv8>, b: WordBytes, y: seq<bv8>, c: WordBytes)
    requires x + b == y + c && |x| == |y|
    ensures x == y && b == c
  {
    assert (x + b)[..|x|] == x && (y + c)[..|y|] == y;
    assert (x + b)[|x|..] == b && (y + c)[|y|..] == c;
  }

  /** Writes the bytes of one word behind the first `at` bytes. */
  method PutWord(outDigest: array<bv8>, at: nat, b: WordBytes)
    requires at + 4 <= outDigest.Length
    modifies outDigest
    ensures outDigest[..at + 4] == old(outDigest[..at]) + b
  {
    outDigest[at] := b[0];
    outDigest[at + 1] := b[1];
    outDigest[at + 2] := b[2];
    outDigest[at + 3] := b[3];
  }
}
