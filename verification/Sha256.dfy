/**
 SHA-256 as a context that is updated in place, against the one-shot function of FIPS 180-4.
 */
module Sha256 {
  import opened MerkleDamgard
  import opened Octets
  import opened Word32

  /** Eight working variables, or the eight words of a chaining value. */
  datatype Words = Words(a: bv32, b: bv32, c: bv32, d: bv32, e: bv32, f: bv32, g: bv32, h: bv32)

  const K1: seq<bv32> := [
    0x428a2f98, 0x71374491, 0xb5c0fbcf, 0xe9b5dba5, 0x3956c25b, 0x59f111f1, 0x923f82a4, 0xab1c5ed5,
    0xd807aa98, 0x12835b01, 0x243185be, 0x550c7dc3, 0x72be5d74, 0x80deb1fe, 0x9bdc06a7, 0xc19bf174
  ]
  const K2: seq<bv32> := [
    0xe49b69c1, 0xefbe4786, 0x0fc19dc6, 0x240ca1cc, 0x2de92c6f, 0x4a7484aa, 0x5cb0a9dc, 0x76f988da,
    0x983e5152, 0xa831c66d, 0xb00327c8, 0xbf597fc7, 0xc6e00bf3, 0xd5a79147, 0x06ca6351, 0x14292967
  ]
  const K3: seq<bv32> := [
    0x27b70a85, 0x2e1b2138, 0x4d2c6dfc, 0x53380d13, 0x650a7354, 0x766a0abb, 0x81c2c92e, 0x92722c85,
    0xa2bfe8a1, 0xa81a664b, 0xc24b8b70, 0xc76c51a3, 0xd192e819, 0xd6990624, 0xf40e3585, 0x106aa070
  ]
  const K4: seq<bv32> := [
    0x19a4c116, 0x1e376c08, 0x2748774c, 0x34b0bcb5, 0x391c0cb3, 0x4ed8aa4a, 0x5b9cca4f, 0x682e6ff3,
    0x748f82ee, 0x78a5636f, 0x84c87814, 0x8cc70208, 0x90befffa, 0xa4506ceb, 0xbef9a3f7, 0xc67178f2
  ]
  const K: seq<bv32> := K1 + K2 + K3 + K4

  const IV := Words(0x6a09e667, 0xbb67ae85, 0x3c6ef372, 0xa54ff53a,
                    0x510e527f, 0x9b05688c, 0x1f83d9ab, 0x5be0cd19)

  // ---------- Section 4.1.2 of FIPS 180-4 ----------

  function Ch(x: bv32, y: bv32, z: bv32): bv32 { (x & y) ^ (!x & z) }
  function Maj(x: bv32, y: bv32, z: bv32): bv32 { (x & y) ^ (x & z) ^ (y & z) }

  /** Each bit of `x` chooses between the bits of `y` and `z` at its place. */
  lemma ChChooses(x: bv32, y: bv32, z: bv32)
    ensures Ch(x, y, z) & x == y & x && Ch(x, y, z) & !x == z & !x
  {
  }

  /** Where two of the three are one the majority is one, ... */
  lemma MajOnes(x: bv32, y: bv32, z: bv32)
    ensures Maj(x, y, z) & (x & y) == x & y
    ensures Maj(x, y, z) & (x & z) == x & z
    ensures Maj(x, y, z) & (y & z) == y & z
  {
    hide Maj;
    MajOnesXY(x, y, z);
    MajOnesXZ(x, y, z);
    MajOnesYZ(x, y, z);
  }

  lemma MajOnesXY(x: bv32, y: bv32, z: bv32)
    ensures Maj(x, y, z) & (x & y) == x & y
  {
  }

  lemma MajOnesXZ(x: bv32, y: bv32, z: bv32)
    ensures Maj(x, y, z) & (x & z) == x & z
  {
  }

  lemma MajOnesYZ(x: bv32, y: bv32, z: bv32)
    ensures Maj(x, y, z) & (y & z) == y & z
  {
  }

  /** ... and where two are zero it is zero. */
  lemma MajZeros(x: bv32, y: bv32, z: bv32)
    ensures Maj(x, y, z) | (x | y) == x | y
    ensures Maj(x, y, z) | (x | z) == x | z
    ensures Maj(x, y, z) | (y | z) == y | z
  {
    hide Maj;
    MajZerosXY(x, y, z);
    MajZerosXZ(x, y, z);
    MajZerosYZ(x, y, z);
  }

  lemma MajZerosXY(x: bv32, y: bv32, z: bv32)
    ensures Maj(x, y, z) | (x | y) == x | y
  {
  }

  lemma MajZerosXZ(x: bv32, y: bv32, z: bv32)
    ensures Maj(x, y, z) | (x | z) == x | z
  {
  }

  lemma MajZerosYZ(x: bv32, y: bv32, z: bv32)
    ensures Maj(x, y, z) | (y | z) == y | z
  {
  }

  function Ep0(x: bv32): bv32 { Rotr(x, 2) ^ Rotr(x, 13) ^ Rotr(x, 22) }
  function Ep1(x: bv32): bv32 { Rotr(x, 6) ^ Rotr(x, 11) ^ Rotr(x, 25) }
  function Sig0(x: bv32): bv32 { Rotr(x, 7) ^ Rotr(x, 18) ^ (x >> 3) }
  function Sig1(x: bv32): bv32 { Rotr(x, 17) ^ Rotr(x, 19) ^ (x >> 10) }

  // ---------- The compression function, section 6.2.2 of FIPS 180-4 ----------

  function BigEndianWord(b0: bv8, b1: bv8, b2: bv8, b3: bv8): bv32 {
    ((b0 as bv32) << 24) | ((b1 as bv32) << 16) | ((b2 as bv32) << 8) | (b3 as bv32)
  }

  /** Word `i` of the message schedule, given the words before it. */
  function ScheduleWord(b: Block, w: seq<bv32>): bv32
    requires |w| < 64
  {
    var i := |w|;
    if i < 16 then
      BigEndianWord(b[i * 4], b[i * 4 + 1], b[i * 4 + 2], b[i * 4 + 3])
    else
      Plus(Plus(Plus(Sig1(w[i - 2]), w[i - 7]), Sig0(w[i - 15])), w[i - 16])
  }

  /** The first `n` words of the message schedule. */
  function Schedule(b: Block, n: nat): (w: seq<bv32>)
    requires n <= 64
    ensures |w| == n
  {
    if n == 0 then [] else
      var w := Schedule(b, n - 1);
      w + [ScheduleWord(b, w)]
  }

  function T1(h: bv32, e: bv32, f: bv32, g: bv32, k: bv32, w: bv32): bv32 {
    Plus(Plus(Plus(Plus(h, Ep1(e)), Ch(e, f, g)), k), w)
  }

  function T2(a: bv32, b: bv32, c: bv32): bv32 {
    Plus(Ep0(a), Maj(a, b, c))
  }

  function Round(v: Words, k: bv32, w: bv32): Words {
    var t1 := T1(v.h, v.e, v.f, v.g, k, w);
    Words(Plus(t1, T2(v.a, v.b, v.c)), v.a, v.b, v.c, Plus(v.d, t1), v.e, v.f, v.g)
  }

  /** The first `n` rounds, with round constants `k` and schedule words `w`. */
  function Rounds(v: Words, k: seq<bv32>, w: seq<bv32>, n: nat): Words
    requires n <= |k| && n <= |w|
    decreases n
  {
    if n == 0 then v else Round(Rounds(v, k, w, n - 1), k[n - 1], w[n - 1])
  }

  function Add(x: Words, y: Words): Words {
    Words(Plus(x.a, y.a), Plus(x.b, y.b), Plus(x.c, y.c), Plus(x.d, y.d),
          Plus(x.e, y.e), Plus(x.f, y.f), Plus(x.g, y.g), Plus(x.h, y.h))
  }

  function Compress(s: Words, b: Block): Words {
    Add(s, Rounds(s, K, Schedule(b, 64), 64))
  }

  // ---------- The rounds are a bijection ----------

  function UndoT1(t1: bv32, e: bv32, f: bv32, g: bv32, k: bv32, w: bv32): bv32 {
    Minus(Minus(Minus(Minus(t1, w), k), Ch(e, f, g)), Ep1(e))
  }

  lemma T1Undone(h: bv32, e: bv32, f: bv32, g: bv32, k: bv32, w: bv32)
    ensures UndoT1(T1(h, e, f, g, k, w), e, f, g, k, w) == h
    ensures T1(UndoT1(h, e, f, g, k, w), e, f, g, k, w) == h
  {
    var p, q := Ep1(e), Ch(e, f, g);
    PlusMinus(h, p);
    PlusMinus(Plus(h, p), q);
    PlusMinus(Plus(Plus(h, p), q), k);
    PlusMinus(Plus(Plus(Plus(h, p), q), k), w);
    PlusMinus(h, w);
    PlusMinus(Minus(h, w), k);
    PlusMinus(Minus(Minus(h, w), k), q);
    PlusMinus(Minus(Minus(Minus(h, w), k), q), p);
  }

  /** The only working variables that `Round` sends to `v`. */
  function Unround(v: Words, k: bv32, w: bv32): Words {
    var t1 := Minus(v.a, T2(v.b, v.c, v.d));
    Words(v.b, v.c, v.d, Minus(v.e, t1), v.f, v.g, v.h, UndoT1(t1, v.f, v.g, v.h, k, w))
  }

  lemma UnroundRound(v: Words, k: bv32, w: bv32)
    ensures Unround(Round(v, k, w), k, w) == v
    ensures Round(Unround(v, k, w), k, w) == v
  {
    var t1 := T1(v.h, v.e, v.f, v.g, k, w);
    T1Undone(v.h, v.e, v.f, v.g, k, w);
    PlusMinus(t1, T2(v.a, v.b, v.c));
    PlusMinus(v.d, t1);
    var u1 := Minus(v.a, T2(v.b, v.c, v.d));
    T1Undone(u1, v.f, v.g, v.h, k, w);
    PlusMinus(v.a, T2(v.b, v.c, v.d));
    PlusMinus(v.e, u1);
  }

  function Unrounds(v: Words, k: seq<bv32>, w: seq<bv32>, n: nat): Words
    requires n <= |k| && n <= |w|
    decreases n
  {
    if n == 0 then v else Unrounds(Unround(v, k[n - 1], w[n - 1]), k, w, n - 1)
  }

  /** For every schedule the rounds are a bijection on the working variables: before the
      feed-forward no two chaining values can meet, and every value is reached. */
  lemma {:induction false} RoundsUndone(v: Words, k: seq<bv32>, w: seq<bv32>, n: nat)
    requires n <= |k| && n <= |w|
    ensures Unrounds(Rounds(v, k, w, n), k, w, n) == v
    decreases n
  {
    if n > 0 {
      UnroundRound(Rounds(v, k, w, n - 1), k[n - 1], w[n - 1]);
      RoundsUndone(v, k, w, n - 1);
    }
  }

  lemma {:induction false} UnroundsRedone(v: Words, k: seq<bv32>, w: seq<bv32>, n: nat)
    requires n <= |k| && n <= |w|
    ensures Rounds(Unrounds(v, k, w, n), k, w, n) == v
    decreases n
  {
    if n > 0 {
      UnroundRound(v, k[n - 1], w[n - 1]);
      UnroundsRedone(Unround(v, k[n - 1], w[n - 1]), k, w, n - 1);
    }
  }

  // ---------- The digest ----------

  function Bytes(x: bv32): (b: WordBytes)
    ensures BigEndianWord(b[0], b[1], b[2], b[3]) == x
  {
    [((x >> 24) & 0xFF) as bv8, ((x >> 16) & 0xFF) as bv8, ((x >> 8) & 0xFF) as bv8, (x & 0xFF) as bv8]
  }

  lemma BytesInjective()
    ensures forall x, y :: Bytes(x) == Bytes(y) ==> x == y
  {
    hide BigEndianWord;
  }

  function SeqOf(s: Words): (w: seq<bv32>)
    ensures |w| == 8
  {
    [s.a, s.b, s.c, s.d, s.e, s.f, s.g, s.h]
  }

  /** The one-shot function of FIPS 180-4. */
  function Hash(m: seq<bv8>): (d: seq<bv8>)
    ensures |d| == 32
  {
    Serialize(Bytes, SeqOf(Digest(Compress, IV, BigEndianLength, m)), 8)
  }

  lemma WordsOfBytes(s: Words, t: Words)
    requires Serialize(Bytes, SeqOf(s), 8) == Serialize(Bytes, SeqOf(t), 8)
    ensures s == t
  {
    hide Serialize, Bytes;
    BytesInjective();
    SerializeInjective(Bytes, SeqOf(s), SeqOf(t), 8);
    assert SeqOf(s)[..8] == SeqOf(s) && SeqOf(t)[..8] == SeqOf(t);
    assert SeqOf(s)[0] == SeqOf(t)[0] && SeqOf(s)[1] == SeqOf(t)[1];
    assert SeqOf(s)[2] == SeqOf(t)[2] && SeqOf(s)[3] == SeqOf(t)[3];
    assert SeqOf(s)[4] == SeqOf(t)[4] && SeqOf(s)[5] == SeqOf(t)[5];
    assert SeqOf(s)[6] == SeqOf(t)[6] && SeqOf(s)[7] == SeqOf(t)[7];
  }

  /** Messages of any length that the code accepts.  A collision of SHA-256 comes with a collision of the
      block transform met while hashing the two messages, or else the lengths agree in their low 61
      bits only and the blocks by which the longer message is ahead lead back to the initial value. */
  lemma CollisionOrReturn(m1: seq<bv8>, m2: seq<bv8>)
    requires m1 != m2 && |m1| <= |m2| && Hash(m1) == Hash(m2)
    ensures var p, q := Pad(BigEndianLength, m1), Pad(BigEndianLength, m2);
      || Collides(Compress, IV, p, q)
      || (BitLength(|m1|) == BitLength(|m2|) && |m1| < |m2| && LeadsBack(Compress, IV, p, q))
  {
    hide Compress, Serialize, Digest, Pad, BigEndianLength, BitLength, LeadsBack, Collides;
    LengthFields(|m1|, |m2|);
    WordsOfBytes(Digest(Compress, IV, BigEndianLength, m1), Digest(Compress, IV, BigEndianLength, m2));
    MerkleDamgard.CollisionOrReturn(Compress, IV, BigEndianLength, m1, m2);
  }

  /** Unless the lengths differ by a multiple of 2^61 bytes, which the standard excludes, it is a
      collision of the block transform. */
  lemma CollisionOfTransform(m1: seq<bv8>, m2: seq<bv8>)
    requires BitLength(|m1|) == BitLength(|m2|) ==> |m1| == |m2|
    requires m1 != m2 && Hash(m1) == Hash(m2)
    ensures Collides(Compress, IV, Pad(BigEndianLength, m1), Pad(BigEndianLength, m2))
  {
    hide Compress, Serialize, Digest, Pad, BigEndianLength, BitLength, LeadsBack, Collides, Hash;
    if |m1| <= |m2| {
      CollisionOrReturn(m1, m2);
    } else {
      CollisionOrReturn(m2, m1);
      CollidesBothWays(Compress, IV, Pad(BigEndianLength, m2), Pad(BigEndianLength, m1));
    }
  }

  // ---------- The implementation ----------

  function WordsOf(state: seq<bv32>): Words
    requires |state| == 8
  {
    Words(state[0], state[1], state[2], state[3], state[4], state[5], state[6], state[7])
  }

  method FillSchedule(w: array<bv32>, block: array<bv8>)
    requires w.Length == 64 && block.Length == 64 && w as object != block
    modifies w
    ensures w[..] == Schedule(block[..], 64)
  {
    hide BigEndianWord, Sig0, Sig1, Plus, Schedule, ScheduleWord;
    ghost var b := block[..];
    assert w[..0] == Schedule(b, 0) by {
      ScheduleStart(b);
    }
    for i := 0 to 16
      invariant w[..i] == Schedule(b, i) && block[..] == b
    {
      ScheduleLoaded(b, i);
      w[i] := BigEndianWord(block[i * 4], block[i * 4 + 1], block[i * 4 + 2], block[i * 4 + 3]);
      assert w[..i + 1] == w[..i] + [w[i]];
    }
    for i := 16 to 64
      invariant w[..i] == Schedule(b, i) && block[..] == b
    {
      ScheduleExpanded(b, i, w[..i]);
      w[i] := Plus(Plus(Plus(Sig1(w[i - 2]), w[i - 7]), Sig0(w[i - 15])), w[i - 16]);
      assert w[..i + 1] == w[..i] + [w[i]];
    }
    assert w[..] == w[..64];
  }

  lemma ScheduleStart(b: Block)
    ensures Schedule(b, 0) == []
  {
  }

  lemma ScheduleLoaded(b: Block, i: nat)
    requires i < 16
    ensures Schedule(b, i + 1)
            == Schedule(b, i) + [BigEndianWord(b[i * 4], b[i * 4 + 1], b[i * 4 + 2], b[i * 4 + 3])]
  {
    hide BigEndianWord, Sig0, Sig1, Plus;
  }

  lemma ScheduleExpanded(b: Block, i: nat, w: seq<bv32>)
    requires 16 <= i < 64 && w == Schedule(b, i)
    ensures Schedule(b, i + 1)
            == w + [Plus(Plus(Plus(Sig1(w[i - 2]), w[i - 7]), Sig0(w[i - 15])), w[i - 16])]
  {
    hide BigEndianWord, Sig0, Sig1, Plus;
  }

  method RunRounds(v: Words, w: array<bv32>) returns (r: Words)
    requires w.Length == 64
    ensures r == Rounds(v, K, w[..], 64)
  {
    var a, b, c, d, e, f, g, h := v.a, v.b, v.c, v.d, v.e, v.f, v.g, v.h;
    for i := 0 to 64
      invariant Words(a, b, c, d, e, f, g, h) == Rounds(v, K, w[..], i)
    {
      var t1 := T1(h, e, f, g, K[i], w[i]);
      var t2 := T2(a, b, c);
      h := g;
      g := f;
      f := e;
      e := Plus(d, t1);
      d := c;
      c := b;
      b := a;
      a := Plus(t1, t2);
    }
    r := Words(a, b, c, d, e, f, g, h);
  }

  method Transform(state: array<bv32>, block: array<bv8>)
    requires state.Length == 8 && block.Length == 64
    modifies state
    ensures WordsOf(state[..]) == Compress(old(WordsOf(state[..])), block[..])
  {
    hide Rounds, Schedule, Plus;
    var w := new bv32[64];
    FillSchedule(w, block);
    var v := RunRounds(WordsOf(state[..]), w);
    state[0] := Plus(state[0], v.a);
    state[1] := Plus(state[1], v.b);
    state[2] := Plus(state[2], v.c);
    state[3] := Plus(state[3], v.d);
    state[4] := Plus(state[4], v.e);
    state[5] := Plus(state[5], v.f);
    state[6] := Plus(state[6], v.g);
    state[7] := Plus(state[7], v.h);
  }

  method PutLength(block: array<bv8>, totalBits: nat)
    requires block.Length == 64
    modifies block
    ensures block[..56] == old(block[..56]) && block[56..] == BigEndian(totalBits)
  {
    hide ByteOf, BigEndian;
    BigEndianBytes(totalBits);
    block[56] := ByteOf(totalBits / 0x100_0000_0000_0000);
    block[57] := ByteOf(totalBits / 0x1_0000_0000_0000);
    block[58] := ByteOf(totalBits / 0x100_0000_0000);
    block[59] := ByteOf(totalBits / 0x1_0000_0000);
    block[60] := ByteOf(totalBits / 0x100_0000);
    block[61] := ByteOf(totalBits / 0x1_0000);
    block[62] := ByteOf(totalBits / 0x100);
    block[63] := ByteOf(totalBits);
  }

  method PutDigest(outDigest: array<bv8>, state: array<bv32>)
    requires outDigest.Length == 32 && state.Length == 8 && outDigest as object != state
    modifies outDigest
    ensures outDigest[..] == Serialize(Bytes, state[..], 8)
  {
    hide BigEndianWord, Bytes;
    for i := 0 to 8
      invariant outDigest[..4 * i] == Serialize(Bytes, state[..], i)
    {
      PutWord(outDigest, 4 * i, Bytes(state[i]));
    }
    assert outDigest[..] == outDigest[..32];
  }

  method FillZeros(block: array<bv8>, from: nat, to: nat)
    requires from <= to <= block.Length
    modifies block
    ensures block[..to] == old(block[..from]) + ZeroBytes(to - from)
    ensures block[to..] == old(block[to..])
  {
    forall i | from <= i < to { block[i] := 0; }
  }

  class Context {
    const state: array<bv32>
    var bitCount: nat
    const buffer: array<bv8>
    var bufferLen: nat

    /** What has been absorbed since `Init`. */
    ghost var message: seq<bv8>

    /** The shape of the C struct. */
    ghost predicate Shape() {
      state.Length == 8 && buffer.Length == 64 && state as object != buffer
    }

    /** The chaining value covers every whole block of `m`, and the buffer holds the rest. */
    ghost predicate Absorbed(m: seq<bv8>)
      reads this`bufferLen, state, buffer
      ensures Absorbed(m) ==> Shape() && bufferLen < 64
    {
      && Shape()
      && WordsOf(state[..]) == Fold(Compress, IV, Whole(m))
      && bufferLen == |m| % 64
      && buffer[..bufferLen] == Tail(m)
    }

    /** The invariant of a streaming run; the counter holds the bit length modulo 2^64. */
    ghost predicate Valid()
      reads this, state, buffer
    {
      Absorbed(message) && bitCount == BitLength(|message|)
    }

    constructor ()
      ensures Shape() && fresh(state) && fresh(buffer)
    {
      state := new bv32[8];
      buffer := new bv8[64];
    }

    method Init()
      requires Shape()
      modifies this, state, buffer
      ensures Valid() && message == []
    {
      state[0] := 0x6a09e667;
      state[1] := 0xbb67ae85;
      state[2] := 0x3c6ef372;
      state[3] := 0xa54ff53a;
      state[4] := 0x510e527f;
      state[5] := 0x9b05688c;
      state[6] := 0x1f83d9ab;
      state[7] := 0x5be0cd19;
      bitCount := 0;
      bufferLen := 0;
      forall i | 0 <= i < 64 { buffer[i] := 0; }
      message := [];
    }

    /** One turn of the update loop. */
    method Append(piece: seq<bv8>, ghost m: seq<bv8>)
      requires Absorbed(m) && bufferLen + |piece| <= 64
      modifies this`bufferLen, state, buffer
      ensures Absorbed(m + piece)
    {
      hide Compress, Fold, WordsOf;
      AbsorbPiece(Compress, IV, m, piece);
      forall i | 0 <= i < |piece| { buffer[bufferLen + i] := piece[i]; }
      assert buffer[..bufferLen + |piece|] == Tail(m) + piece;
      assert state[..] == old(state[..]);
      bufferLen := bufferLen + |piece|;
      if bufferLen == 64 {
        assert buffer[..] == buffer[..64];
        Transform(state, buffer);
        bufferLen := 0;
      }
    }

    method Update(data: seq<bv8>)
      requires Valid()
      modifies this, state, buffer
      ensures Valid() && message == old(message) + data
    {
      hide Absorbed, BitLength;
      BitLengthGrows(|message|, |data|);
      bitCount := (bitCount + |data| * 8) % TWO_64;
      var p, len := 0, |data|;
      assert message + data[..0] == message;
      while len > 0
        invariant 0 <= p <= |data| && len == |data| - p && Absorbed(message + data[..p])
        invariant message == old(message) && bitCount == BitLength(|message| + |data|)
      {
        var space := 64 - bufferLen;
        var copy := if len < space then len else space;
        Append(data[p..p + copy], message + data[..p]);
        assert message + data[..p + copy] == message + data[..p] + data[p..p + copy];
        p := p + copy;
        len := len - copy;
      }
      assert data[..p] == data;
      message := message + data;
    }

    /** The open block with the mark byte: what waits in the buffer, then 0x80. */
    method MarkedBlock(ghost m: seq<bv8>) returns (block: array<bv8>, idx: nat)
      requires Absorbed(m)
      ensures fresh(block) && block.Length == 64 && idx == |m| % 64 + 1
      ensures block[..idx] == Tail(m) + [0x80]
    {
      hide Compress, Fold, WordsOf, Whole;
      block := new bv8[64];
      idx := bufferLen;
      forall i | 0 <= i < idx { block[i] := buffer[i]; }
      block[idx] := 0x80;
      idx := idx + 1;
    }

    /** Absorbs one block that already stands in an array. */
    method Flush(block: array<bv8>, ghost done: seq<bv8>)
      requires Shape() && block != buffer && block.Length == 64 && |done| % 64 == 0
      requires WordsOf(state[..]) == Fold(Compress, IV, done)
      modifies state
      ensures |done + block[..]| % 64 == 0
      ensures WordsOf(state[..]) == Fold(Compress, IV, done + block[..])
    {
      hide Compress, Fold, WordsOf;
      FoldLast(Compress, IV, done, block[..]);
      Transform(state, block);
    }

    /** The last one or two blocks: the marked block, zeros and the length. */
    method Finish(totalBits: nat, ghost m: seq<bv8>)
      requires Absorbed(m) && totalBits == BitLength(|m|)
      modifies state
      ensures WordsOf(state[..]) == Digest(Compress, IV, BigEndianLength, m)
    {
      hide Compress, Fold, WordsOf, Whole, Tail, Pad, BigEndian, BitLength, ZeroBytes;
      var block, idx := MarkedBlock(m);
      ghost var done := Whole(m);
      if idx <= 56 {
        FillZeros(block, idx, 56);
        PadOneBlock(BigEndianLength, m);
      } else {
        FillZeros(block, idx, 64);
        assert state[..] == old(state[..]);
        Flush(block, done);
        done := done + block[..];
        FillZeros(block, 0, 56);
        PadTwoBlocks(BigEndianLength, m);
      }
      ghost var s := state[..];
      ghost var head := block[..56];
      assert done + (head + BigEndian(totalBits)) == Pad(BigEndianLength, m);
      PutLength(block, totalBits);
      assert block[..] == head + BigEndian(totalBits);
      assert state[..] == s;
      Flush(block, done);
    }

    /** Pads the open block and writes the digest; the context is spent afterwards. */
    method Final(outDigest: array<bv8>)
      requires Valid() && outDigest.Length == 32 && outDigest as object != state
      modifies this, state, outDigest
      ensures outDigest[..] == Hash(old(message))
    {
      hide Compress, Serialize, Digest;
      Finish(bitCount, message);
      PutDigest(outDigest, state);
      assert SeqOf(WordsOf(state[..])) == state[..];
    }
  }

  method Compute(data: seq<bv8>, outDigest: array<bv8>)
    requires outDigest.Length == 32
    modifies outDigest
    ensures outDigest[..] == Hash(data)
  {
    hide Hash;
    var ctx := new Context();
    ctx.Init();
    ctx.Update(data);
    assert [] + data == data;
    ctx.Final(outDigest);
  }

  /** Any caller of the streaming interface: the split of the message into chunks does not matter. */
  method ComputeChunks(chunks: seq<seq<bv8>>, outDigest: array<bv8>)
    requires outDigest.Length == 32
    modifies outDigest
    ensures outDigest[..] == Hash(Concat(chunks))
  {
    hide Hash;
    var ctx := new Context();
    ctx.Init();
    for i := 0 to |chunks|
      invariant ctx.Valid() && ctx.message == Concat(chunks[..i])
      invariant fresh(ctx) && fresh(ctx.state) && fresh(ctx.buffer)
    {
      ctx.Update(chunks[i]);
      ConcatLast(chunks, i);
    }
    assert chunks[..|chunks|] == chunks;
    ctx.Final(outDigest);
  }
}
