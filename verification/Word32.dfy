/**
 32-bit words as both digests use them: addition wraps modulo 2^32, rotations lose no bit.
 */
module Word32 {

  function Plus(x: bv32, y: bv32): bv32 { x + y }
  function Minus(x: bv32, y: bv32): bv32 { x - y }

  lemma PlusMinus(x: bv32, y: bv32)
    ensures Minus(Plus(x, y), y) == x
    ensures Plus(Minus(x, y), y) == x
  {
    assert Plus(x, y) == x + y && (x + y) - y == x;
    assert Minus(x, y) == x - y && (x - y) + y == x;
  }

  function Rotr(x: bv32, n: bv32): bv32
    requires 0 < n < 32
  {
    (x >> n) | (x << (32 - n))
  }

  function Rotl(x: bv32, n: bv32): bv32
    requires 0 < n < 32
  {
    (x << n) | (x >> (32 - n))
  }

  lemma RotlThenRotr(x: bv32, n: bv32)
    requires 0 < n < 32
    ensures Rotr(Rotl(x, n), n) == x
  {
    var y := (x << n) | (x >> (32 - n));
    assert y == Rotl(x, n);
    ShiftBack(x, n);
  }

  lemma RotrThenRotl(x: bv32, n: bv32)
    requires 0 < n < 32
    ensures Rotl(Rotr(x, n), n) == x
  {
    var y := (x >> n) | (x << (32 - n));
    assert y == Rotr(x, n);
    ShiftForth(x, n);
  }

  lemma ShiftBack(x: bv32, n: bv32)
    requires 0 < n < 32
    ensures (((x << n) | (x >> (32 - n))) >> n) | (((x << n) | (x >> (32 - n))) << (32 - n)) == x
  {
    match n
    case 1 => case 2 => case 3 => case 4 => case 5 => case 6 => case 7 => case 8 => case 9 =>
    case 10 => case 11 => case 12 => case 13 => case 14 => case 15 => case 16 => case 17 =>
    case 18 => case 19 => case 20 => case 21 => case 22 => case 23 => case 24 => case 25 =>
    case 26 => case 27 => case 28 => case 29 => case 30 =>
    case _ =>
  }

  lemma ShiftForth(x: bv32, n: bv32)
    requires 0 < n < 32
    ensures (((x >> n) | (x << (32 - n))) << n) | (((x >> n) | (x << (32 - n))) >> (32 - n)) == x
  {
    match n
    case 1 => case 2 => case 3 => case 4 => case 5 => case 6 => case 7 => case 8 => case 9 =>
    case 10 => case 11 => case 12 => case 13 => case 14 => case 15 => case 16 => case 17 =>
    case 18 => case 19 => case 20 => case 21 => case 22 => case 23 => case 24 => case 25 =>
    case 26 => case 27 => case 28 => case 29 => case 30 =>
    case _ =>
  }
}
