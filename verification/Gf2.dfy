/**
 Polynomials over GF(2) and the shift register that divides by one of them.

 A polynomial is the sequence of its coefficients, from the highest power down, with as many
 leading zeros as the context needs.  A generator of degree `w` is given by `poly`, its `w`
 coefficients below the leading one, as the CRC constants do.
 */
module Gf2 {

  type Bits = seq<bool>

  function Zeros(n: nat): (z: Bits)
    ensures |z| == n && forall i :: 0 <= i < n ==> !z[i]
  {
    seq(n, _ => false)
  }

  function Xor(a: Bits, b: Bits): (c: Bits)
    requires |a| == |b|
    ensures |c| == |a| && forall i :: 0 <= i < |a| ==> c[i] == (a[i] != b[i])
  {
    seq(|a|, i requires 0 <= i < |a| => a[i] != b[i])
  }

  lemma XorAppend(a: Bits, b: Bits, c: Bits, d: Bits)
    requires |a| == |c| && |b| == |d|
    ensures Xor(a + b, c + d) == Xor(a, c) + Xor(b, d)
  {
  }

  function Scale(k: bool, p: Bits): (r: Bits)
    ensures |r| == |p| && forall i :: 0 <= i < |p| ==> r[i] == (k && p[i])
  {
    if k then p else Zeros(|p|)
  }

  function Ones(n: nat): (z: Bits)
    ensures |z| == n && forall i :: 0 <= i < n ==> z[i]
  {
    seq(n, _ => true)
  }

  function Complement(m: Bits): (c: Bits)
    ensures |c| == |m| && forall i :: 0 <= i < |m| ==> c[i] == !m[i]
  {
    Xor(m, Ones(|m|))
  }

  /** Schoolbook multiplication. */
  function Mul(q: Bits, p: Bits): (r: Bits)
    requires |p| > 0
    ensures |r| == |q| + |p| - 1
  {
    if q == [] then Zeros(|p| - 1) else
      Xor(Scale(q[0], p) + Zeros(|q| - 1), [false] + Mul(q[1..], p))
  }

  /** `d == q * g + r`, with `r` of lower degree than `g`. */
  ghost predicate DividesWith(d: Bits, g: Bits, q: Bits, r: Bits) {
    && |g| > 0 && |r| == |g| - 1 && |d| == |q| + |r|
    && d == Xor(Mul(q, g), Zeros(|q|) + r)
  }

  ghost predicate IsRemainder(d: Bits, g: Bits, r: Bits) {
    exists q :: DividesWith(d, g, q, r)
  }

  /** Division by a generator with leading coefficient one has one quotient and one remainder. */
  lemma {:induction false} DivisionUnique(d: Bits, g: Bits, q1: Bits, r1: Bits, q2: Bits, r2: Bits)
    requires DividesWith(d, g, q1, r1) && DividesWith(d, g, q2, r2) && g[0]
    ensures q1 == q2 && r1 == r2
    decreases |q1|
  {
    hide Mul, Xor, Scale, Zeros, Reduced;
    if q1 == [] {
      DivisionBase(d, g, r1);
      DivisionBase(d, g, r2);
    } else {
      DivisionTail(d, g, q1, r1);
      DivisionTail(d, g, q2, r2);
      DivisionUnique(Reduced(d, g), g, q1[1..], r1, q2[1..], r2);
      assert q1 == [q1[0]] + q1[1..] && q2 == [q2[0]] + q2[1..];
    }
  }

  lemma DivisionBase(d: Bits, g: Bits, r: Bits)
    requires DividesWith(d, g, [], r)
    ensures r == d
  {
    assert Zeros(0) + r == r;
  }

  /** One turn of long division: what is left of `d` once its leading term is cancelled. */
  function Reduced(d: Bits, g: Bits): (r: Bits)
    requires 0 < |g| <= |d|
    ensures |r| == |d| - 1
  {
    Xor(d, Scale(d[0], g) + Zeros(|d| - |g|))[1..]
  }

  lemma DivisionTail(d: Bits, g: Bits, q: Bits, r: Bits)
    requires DividesWith(d, g, q, r) && g[0] && q != []
    ensures d[0] == q[0] && DividesWith(Reduced(d, g), g, q[1..], r)
  {
    hide Xor, Zeros, Scale;
    var z := Zeros(|q|) + r;
    var t := Mul(q[1..], g);
    var s := Scale(q[0], g) + Zeros(|q| - 1);
    assert Mul(q, g) == Xor(s, [false] + t);
    assert s[0] == q[0] && !z[0] && d[0] == q[0];
    forall i | 0 <= i < |d| - 1 ensures Reduced(d, g)[i] == (t[i] != (Zeros(|q| - 1) + r)[i]) {
      assert ([false] + t)[i + 1] == t[i];
      assert z[i + 1] == (Zeros(|q| - 1) + r)[i];
      assert d[i + 1] == ((s[i + 1] != t[i]) != z[i + 1]);
    }
    assert Reduced(d, g) == Xor(t, Zeros(|q| - 1) + r);
  }

  // ---------- The register ----------

  /** One bit `b` of the message enters at the high end. */
  function Step(c: Bits, b: bool, poly: Bits): (r: Bits)
    requires |c| == |poly| > 0
    ensures |r| == |c|
  {
    Xor(c[1..] + [false], Scale(c[0] != b, poly))
  }

  function Feed(c: Bits, m: Bits, poly: Bits): (r: Bits)
    requires |c| == |poly| > 0
    ensures |r| == |c|
    decreases |m|
  {
    if m == [] then c else Feed(Step(c, m[0], poly), m[1..], poly)
  }

  lemma FeedOne(c: Bits, b: bool, poly: Bits)
    requires |c| == |poly| > 0
    ensures Feed(c, [b], poly) == Step(c, b, poly)
  {
    assert [b][1..] == [];
  }

  lemma FeedNothing(c: Bits, poly: Bits)
    requires |c| == |poly| > 0
    ensures Feed(c, [], poly) == c
  {
  }

  /** `m * x^w + c * x^|m|`, with `w == |c|`. */
  function Dividend(c: Bits, m: Bits): (d: Bits)
    ensures |d| == |m| + |c|
  {
    Xor(m + Zeros(|c|), c + Zeros(|m|))
  }

  lemma DividendStep(c: Bits, m: Bits, poly: Bits)
    requires |c| == |poly| > 0 && m != []
    ensures Dividend(c, m)[0] == (c[0] != m[0])
    ensures Dividend(c, m) ==
            Xor(Scale(c[0] != m[0], [true] + poly) + Zeros(|m| - 1),
                [false] + Dividend(Step(c, m[0], poly), m[1..]))
  {
    hide Xor, Zeros, Scale;
    var k := c[0] != m[0];
    var c' := Step(c, m[0], poly);
    var x, y := Scale(k, [true] + poly) + Zeros(|m| - 1), [false] + Dividend(c', m[1..]);
    forall i | 0 <= i < |m| + |c| ensures Dividend(c, m)[i] == (x[i] != y[i]) {
      var shifted := c[1..] + [false];
      if i == 0 {
        assert x[0] == k && !y[0];
      } else if i < |c| {
        assert c'[i - 1] == (c[i] != (k && poly[i - 1]));
        assert y[i] == ((m[1..] + Zeros(|c|))[i - 1] != c'[i - 1]);
      } else if i == |c| {
        assert c'[i - 1] == (k && poly[i - 1]);
        assert y[i] == ((m[1..] + Zeros(|c|))[i - 1] != c'[i - 1]);
      } else {
        assert y[i] == (m[1..] + Zeros(|c|))[i - 1];
      }
    }
  }

  lemma XorShifted(s: Bits, t: Bits, r: Bits)
    requires |s| == |t| + 1 && |r| <= |t|
    ensures Xor(s, [false] + Xor(t, Zeros(|t| - |r|) + r)) ==
            Xor(Xor(s, [false] + t), Zeros(|s| - |r|) + r)
  {
  }

  /** The bits fed back are the quotient. */
  lemma {:induction false} FeedDivides(c: Bits, m: Bits, poly: Bits) returns (q: Bits)
    requires |c| == |poly| > 0
    ensures DividesWith(Dividend(c, m), [true] + poly, q, Feed(c, m, poly))
    decreases |m|
  {
    if m == [] {
      q := [];
      assert Dividend(c, m) == c;
      assert Zeros(0) + c == c;
    } else {
      var k, c' := c[0] != m[0], Step(c, m[0], poly);
      var q' := FeedDivides(c', m[1..], poly);
      q := [k] + q';
      var g, r := [true] + poly, Feed(c, m, poly);
      DividendStep(c, m, poly);
      assert q[1..] == q';
      XorShifted(Scale(k, g) + Zeros(|m| - 1), Mul(q', g), r);
    }
  }

  /** The register holds the remainder of the division, and nothing else is a remainder. */
  lemma FeedIsRemainder(c: Bits, m: Bits, poly: Bits, r: Bits)
    requires |c| == |poly| > 0
    ensures IsRemainder(Dividend(c, m), [true] + poly, r) <==> r == Feed(c, m, poly)
  {
    var q := FeedDivides(c, m, poly);
    if IsRemainder(Dividend(c, m), [true] + poly, r) {
      var q' :| DividesWith(Dividend(c, m), [true] + poly, q', r);
      DivisionUnique(Dividend(c, m), [true] + poly, q, Feed(c, m, poly), q', r);
    }
  }

  // ---------- Concatenation and linearity ----------

  lemma {:induction false} FeedConcat(c: Bits, a: Bits, b: Bits, poly: Bits)
    requires |c| == |poly| > 0
    ensures Feed(c, a + b, poly) == Feed(Feed(c, a, poly), b, poly)
    decreases |a|
  {
    if a == [] {
      assert a + b == b;
    } else {
      assert (a + b)[1..] == a[1..] + b;
      FeedConcat(Step(c, a[0], poly), a[1..], b, poly);
    }
  }

  lemma StepLinear(c: Bits, d: Bits, a: bool, b: bool, poly: Bits)
    requires |c| == |d| == |poly| > 0
    ensures Step(Xor(c, d), a != b, poly) == Xor(Step(c, a, poly), Step(d, b, poly))
  {
    assert Xor(c, d)[1..] == Xor(c[1..], d[1..]);
  }

  lemma {:induction false} FeedLinear(c: Bits, d: Bits, a: Bits, b: Bits, poly: Bits)
    requires |c| == |d| == |poly| > 0 && |a| == |b|
    ensures Feed(Xor(c, d), Xor(a, b), poly) == Xor(Feed(c, a, poly), Feed(d, b, poly))
    decreases |a|
  {
    if a != [] {
      StepLinear(c, d, a[0], b[0], poly);
      assert Xor(a, b)[1..] == Xor(a[1..], b[1..]);
      FeedLinear(Step(c, a[0], poly), Step(d, b[0], poly), a[1..], b[1..], poly);
    }
  }

  lemma {:induction false} FeedZeros(n: nat, poly: Bits)
    requires |poly| > 0
    ensures Feed(Zeros(|poly|), Zeros(n), poly) == Zeros(|poly|)
    decreases n
  {
    if n > 0 {
      assert Step(Zeros(|poly|), false, poly) == Zeros(|poly|);
      assert Zeros(n)[1..] == Zeros(n - 1);
      FeedZeros(n - 1, poly);
    }
  }

  lemma StepAbsorb(c: Bits, e: Bits, poly: Bits)
    requires |c| == |poly| > 0 && 0 < |e| <= |c|
    ensures Step(Xor(c, e + Zeros(|c| - |e|)), false, poly) ==
            Xor(Step(c, e[0], poly), e[1..] + Zeros(|c| - |e| + 1))
  {
    hide Xor, Zeros, Scale;
    var c1 := Step(c, e[0], poly);
    var x := e + Zeros(|c| - |e|);
    var c2 := Xor(c, x);
    assert c2[0] == (c[0] != e[0]);
    forall i | 0 <= i < |c|
      ensures Step(c2, false, poly)[i] == (c1[i] != (e[1..] + Zeros(|c| - |e| + 1))[i])
    {
      if i < |c| - 1 {
        assert c2[i + 1] == (c[i + 1] != x[i + 1]);
      }
    }
  }

  /** Up to `w` bits can as well be added to the register before it is shifted. */
  lemma {:induction false} FeedAbsorb(c: Bits, e: Bits, poly: Bits)
    requires |c| == |poly| > 0 && |e| <= |c|
    ensures Feed(c, e, poly) == Feed(Xor(c, e + Zeros(|c| - |e|)), Zeros(|e|), poly)
    decreases |e|
  {
    if e == [] {
      assert Xor(c, [] + Zeros(|c|)) == c;
    } else {
      StepAbsorb(c, e, poly);
      assert Zeros(|e|)[1..] == Zeros(|e| - 1);
      FeedAbsorb(Step(c, e[0], poly), e[1..], poly);
    }
  }

  // ---------- Error detection ----------

  /** With a constant term in the generator, shifting loses nothing: the register can be recovered. */
  lemma {:induction false} FeedInjective(c: Bits, d: Bits, m: Bits, poly: Bits)
    requires |c| == |d| == |poly| > 0 && poly[|poly| - 1]
    requires Feed(c, m, poly) == Feed(d, m, poly)
    ensures c == d
    decreases |m|
  {
    if m != [] {
      FeedInjective(Step(c, m[0], poly), Step(d, m[0], poly), m[1..], poly);
      StepInjective(c, d, m[0], poly);
    }
  }

  lemma StepInjective(c: Bits, d: Bits, b: bool, poly: Bits)
    requires |c| == |d| == |poly| > 0 && poly[|poly| - 1]
    requires Step(c, b, poly) == Step(d, b, poly)
    ensures c == d
  {
    var w := |poly|;
    assert Step(c, b, poly)[w - 1] == (c[0] != b) && Step(d, b, poly)[w - 1] == (d[0] != b);
    forall i | 0 < i < w ensures c[i] == d[i] {
      assert Step(c, b, poly)[i - 1] == (c[i] != ((c[0] != b) && poly[i - 1]));
      assert Step(d, b, poly)[i - 1] == (d[i] != ((d[0] != b) && poly[i - 1]));
    }
  }

  lemma FeedThreeParts(c: Bits, a: Bits, e: Bits, t: Bits, poly: Bits)
    requires |c| == |poly| > 0
    ensures Feed(c, a + (e + t), poly) == Feed(Feed(Feed(c, a, poly), e, poly), t, poly)
  {
    hide Feed;
    FeedConcat(c, a, e + t, poly);
    FeedConcat(Feed(c, a, poly), e, t, poly);
  }

  lemma SplitInThree(m: Bits, lo: nat, hi: nat)
    requires lo <= hi <= |m|
    ensures m == m[..lo] + (m[lo..hi] + m[hi..])
  {
    var rest := m[lo..];
    assert m == m[..lo] + rest;
    assert rest[..hi - lo] == m[lo..hi] && rest[hi - lo..] == m[hi..];
    assert rest == rest[..hi - lo] + rest[hi - lo..];
  }

  /** The messages differ at most in the window from bit `lo` up to bit `hi`. */
  predicate SameOutside(m1: Bits, m2: Bits, lo: nat, hi: nat) {
    |m1| == |m2| && lo <= hi <= |m1| && m1[..lo] == m2[..lo] && m1[hi..] == m2[hi..]
  }

  /** Their difference in the window. */
  function Difference(m1: Bits, m2: Bits, lo: nat, hi: nat): (e: Bits)
    requires SameOutside(m1, m2, lo, hi)
    ensures |e| == hi - lo
  {
    Xor(m1[lo..hi], m2[lo..hi])
  }

  /** Two messages that differ only inside a window of at most `w` bits never meet. */
  lemma BurstDetected(c: Bits, m1: Bits, m2: Bits, lo: nat, hi: nat, poly: Bits)
    requires |c| == |poly| > 0 && poly[|poly| - 1]
    requires SameOutside(m1, m2, lo, hi) && hi - lo <= |poly| && m1 != m2
    ensures Feed(c, m1, poly) != Feed(c, m2, poly)
  {
    hide Feed;
    SplitInThree(m1, lo, hi);
    SplitInThree(m2, lo, hi);
    WindowDetected(c, m1[..lo], m1[lo..hi], m2[lo..hi], m1[hi..], poly);
  }

  lemma WindowDetected(c: Bits, a: Bits, e1: Bits, e2: Bits, t: Bits, poly: Bits)
    requires |c| == |poly| > 0 && poly[|poly| - 1]
    requires |e1| == |e2| <= |poly| && e1 != e2
    ensures Feed(c, a + (e1 + t), poly) != Feed(c, a + (e2 + t), poly)
  {
    hide Feed;
    var s := Feed(c, a, poly);
    FeedThreeParts(c, a, e1, t, poly);
    FeedThreeParts(c, a, e2, t, poly);
    if Feed(c, a + (e1 + t), poly) == Feed(c, a + (e2 + t), poly) {
      FeedInjective(Feed(s, e1, poly), Feed(s, e2, poly), t, poly);
      FeedWindowInjective(s, e1, e2, poly);
    }
  }

  lemma FeedWindowInjective(c: Bits, e1: Bits, e2: Bits, poly: Bits)
    requires |c| == |poly| > 0 && poly[|poly| - 1]
    requires |e1| == |e2| <= |c| && Feed(c, e1, poly) == Feed(c, e2, poly)
    ensures e1 == e2
  {
    var z := Zeros(|c| - |e1|);
    FeedAbsorb(c, e1, poly);
    FeedAbsorb(c, e2, poly);
    FeedInjective(Xor(c, e1 + z), Xor(c, e2 + z), Zeros(|e1|), poly);
    forall i | 0 <= i < |e1| ensures e1[i] == e2[i] {
      assert Xor(c, e1 + z)[i] == (c[i] != e1[i]);
      assert Xor(c, e2 + z)[i] == (c[i] != e2[i]);
    }
  }

  lemma XorZero(c: Bits, d: Bits)
    requires |c| == |d|
    ensures Xor(c, c) == Zeros(|c|) && (Xor(c, d) == Zeros(|c|) <==> c == d)
  {
    assert Xor(c, d) == Zeros(|c|) ==> forall i :: 0 <= i < |c| ==> !Xor(c, d)[i];
  }

  lemma FeedNext(c: Bits, m: Bits, poly: Bits)
    requires |c| == |poly| > 0 && m != []
    ensures Feed(c, m, poly) == Feed(Step(c, m[0], poly), m[1..], poly)
  {
    hide Step;
  }

  lemma StepFromZero(b: bool, poly: Bits)
    requires 0 < |poly|
    ensures Step(Zeros(|poly|), b, poly) == Scale(b, poly)
  {
  }

  /** From an empty register, `w + 1` bits vanish exactly when they are zero or the generator itself. */
  lemma FeedVanishes(e: Bits, poly: Bits)
    requires 0 < |poly| && poly[|poly| - 1] && |e| == |poly| + 1
    ensures Feed(Zeros(|poly|), e, poly) == Zeros(|poly|) <==> (e == Zeros(|e|) || e == [true] + poly)
  {
    hide Feed, Step, Xor;
    var w := |poly|;
    var first := Scale(e[0], poly);
    var z := Zeros(w);
    FeedNext(z, e, poly);
    StepFromZero(e[0], poly);
    FeedAbsorb(first, e[1..], poly);
    assert e[1..] + Zeros(0) == e[1..];
    FeedZeros(w, poly);
    if Feed(Xor(first, e[1..]), Zeros(w), poly) == z {
      FeedInjective(Xor(first, e[1..]), z, Zeros(w), poly);
    }
    XorZero(first, e[1..]);
    assert e == [e[0]] + e[1..];
    assert Zeros(w + 1) == [false] + z;
  }

  /** One bit more than the register has, and there is exactly one difference that goes undetected:
      the generator. */
  lemma WiderBurst(c: Bits, m1: Bits, m2: Bits, lo: nat, hi: nat, poly: Bits)
    requires |c| == |poly| > 0 && poly[|poly| - 1]
    requires SameOutside(m1, m2, lo, hi) && hi - lo == |poly| + 1 && m1 != m2
    ensures Feed(c, m1, poly) == Feed(c, m2, poly) <==> Difference(m1, m2, lo, hi) == [true] + poly
  {
    WindowDiffers(m1, m2, lo, hi);
    hide Feed, Xor, SameOutside, Difference;
    WindowDecides(c, m1, m2, lo, hi, poly);
    FeedVanishes(Difference(m1, m2, lo, hi), poly);
  }

  lemma WindowDiffers(m1: Bits, m2: Bits, lo: nat, hi: nat)
    requires SameOutside(m1, m2, lo, hi) && m1 != m2
    ensures Difference(m1, m2, lo, hi) != Zeros(hi - lo)
  {
    hide Xor;
    SplitInThree(m1, lo, hi);
    SplitInThree(m2, lo, hi);
    XorZero(m1[lo..hi], m2[lo..hi]);
  }

  /** Messages that are equal outside a window meet exactly when their difference there vanishes. */
  lemma WindowDecides(c: Bits, m1: Bits, m2: Bits, lo: nat, hi: nat, poly: Bits)
    requires |c| == |poly| > 0 && poly[|poly| - 1] && SameOutside(m1, m2, lo, hi)
    ensures Feed(c, m1, poly) == Feed(c, m2, poly)
            <==> Feed(Zeros(|poly|), Difference(m1, m2, lo, hi), poly) == Zeros(|poly|)
  {
    hide Feed, Xor;
    var a, e1, e2, t := m1[..lo], m1[lo..hi], m2[lo..hi], m1[hi..];
    assert m1 == a + (e1 + t) by {
      SplitInThree(m1, lo, hi);
    }
    assert m2 == a + (e2 + t) by {
      SplitInThree(m2, lo, hi);
    }
    DifferenceDecides(c, a, e1, e2, t, poly);
  }

  lemma DifferenceDecides(c: Bits, a: Bits, e1: Bits, e2: Bits, t: Bits, poly: Bits)
    requires |c| == |poly| > 0 && poly[|poly| - 1] && |e1| == |e2|
    ensures Feed(c, a + (e1 + t), poly) == Feed(c, a + (e2 + t), poly)
            <==> Feed(Zeros(|poly|), Xor(e1, e2), poly) == Zeros(|poly|)
  {
    hide Feed, Xor;
    var s := Feed(c, a, poly);
    FeedThreeParts(c, a, e1, t, poly);
    FeedThreeParts(c, a, e2, t, poly);
    var x, y := Feed(s, e1, poly), Feed(s, e2, poly);
    if Feed(x, t, poly) == Feed(y, t, poly) {
      FeedInjective(x, y, t, poly);
    }
    FeedLinear(s, s, e1, e2, poly);
    XorZero(s, s);
    XorZero(x, y);
  }

  // ---------- Double errors ----------

  /** The register that holds a single one, at its high end. */
  function One(w: nat): (c: Bits)
    requires w > 0
    ensures |c| == w
  {
    [true] + Zeros(w - 1)
  }

  lemma StepOne(poly: Bits)
    requires |poly| > 0
    ensures Step(One(|poly|), false, poly) == poly && Step(One(|poly|), true, poly) == Zeros(|poly|)
  {
  }

  /** A one leaves a register empty exactly when the register holds a single one. */
  lemma StepVanishes(s: Bits, poly: Bits)
    requires |s| == |poly| > 0 && poly[|poly| - 1]
    ensures Step(s, true, poly) == Zeros(|poly|) <==> s == One(|poly|)
  {
    hide Step, Xor;
    StepOne(poly);
    if Step(s, true, poly) == Zeros(|poly|) {
      StepInjective(s, One(|poly|), true, poly);
    }
  }

  /** Two ones at distance `d`, and zeros between them. */
  function Pair(d: nat): (e: Bits)
    requires d > 0
    ensures |e| == d + 1
  {
    [true] + Zeros(d - 1) + [true]
  }

  lemma PairVanishes(d: nat, poly: Bits)
    requires d > 0 && |poly| > 0 && poly[|poly| - 1]
    ensures Feed(Zeros(|poly|), Pair(d), poly) == Zeros(|poly|)
            <==> Feed(One(|poly|), Zeros(d), poly) == One(|poly|)
  {
    hide Feed, Step, Xor, Pair, One;
    FeedPair(d, poly);
    FeedFromOne(d, poly);
    StepVanishes(Feed(poly, Zeros(d - 1), poly), poly);
  }

  lemma FeedPair(d: nat, poly: Bits)
    requires d > 0 && |poly| > 0
    ensures Feed(Zeros(|poly|), Pair(d), poly) == Step(Feed(poly, Zeros(d - 1), poly), true, poly)
  {
    hide Feed, Step, Scale;
    assert Pair(d)[1..] == Zeros(d - 1) + [true];
    FeedNext(Zeros(|poly|), Pair(d), poly);
    StepFromZero(true, poly);
    assert Scale(true, poly) == poly;
    FeedConcat(poly, Zeros(d - 1), [true], poly);
    FeedOne(Feed(poly, Zeros(d - 1), poly), true, poly);
  }

  lemma FeedFromOne(d: nat, poly: Bits)
    requires d > 0 && |poly| > 0
    ensures Feed(One(|poly|), Zeros(d), poly) == Feed(poly, Zeros(d - 1), poly)
  {
    hide Feed, Step, One;
    FeedNext(One(|poly|), Zeros(d), poly);
    assert Zeros(d)[1..] == Zeros(d - 1);
    StepOne(poly);
  }

  /** `m1` and `m2` differ in bits `i` and `i + d` and nowhere else. */
  predicate DifferInTwo(m1: Bits, m2: Bits, i: nat, d: nat) {
    && |m1| == |m2| && 0 < d && i + d < |m1|
    && forall k :: 0 <= k < |m1| ==> (m1[k] != m2[k] <==> k == i || k == i + d)
  }

  lemma PairDifference(m1: Bits, m2: Bits, i: nat, d: nat)
    requires DifferInTwo(m1, m2, i, d)
    ensures 0 < d && SameOutside(m1, m2, i, i + d + 1) && Difference(m1, m2, i, i + d + 1) == Pair(d)
  {
    var x := Difference(m1, m2, i, i + d + 1);
    forall k | 0 <= k < d + 1 ensures x[k] == Pair(d)[k] {
      assert x[k] == (m1[i + k] != m2[i + k]);
    }
  }

  /** Two wrong bits at distance `d` go undetected exactly when `d` shifts bring the register with a
      single one back to itself. */
  lemma DoubleError(c: Bits, m1: Bits, m2: Bits, i: nat, d: nat, poly: Bits)
    requires |c| == |poly| > 0 && poly[|poly| - 1] && DifferInTwo(m1, m2, i, d)
    ensures Feed(c, m1, poly) == Feed(c, m2, poly) <==> Feed(One(|poly|), Zeros(d), poly) == One(|poly|)
  {
    hide Feed, DifferInTwo, Pair, One, SameOutside, Difference;
    PairDifference(m1, m2, i, d);
    WindowDecides(c, m1, m2, i, i + d + 1, poly);
    PairVanishes(d, poly);
  }

  /** Whether the number of ones is odd. */
  function Parity(m: Bits): bool {
    if m == [] then false else m[0] != Parity(m[1..])
  }

  lemma {:induction false} ParityXor(a: Bits, b: Bits)
    requires |a| == |b|
    ensures Parity(Xor(a, b)) == (Parity(a) != Parity(b))
    decreases |a|
  {
    if a != [] {
      assert Xor(a, b)[1..] == Xor(a[1..], b[1..]);
      ParityXor(a[1..], b[1..]);
    }
  }

  lemma {:induction false} ParityConcat(a: Bits, b: Bits)
    ensures Parity(a + b) == (Parity(a) != Parity(b))
    decreases |a|
  {
    if a == [] {
      assert a + b == b;
    } else {
      assert (a + b)[1..] == a[1..] + b;
      ParityConcat(a[1..], b);
    }
  }

  lemma {:induction false} ParityZeros(n: nat)
    ensures !Parity(Zeros(n))
    decreases n
  {
    if n > 0 {
      assert Zeros(n)[1..] == Zeros(n - 1);
      ParityZeros(n - 1);
    }
  }

  lemma ParityOfOne(n: nat)
    ensures Parity(Zeros(n) + [true])
  {
    ParityConcat(Zeros(n), [true]);
    ParityZeros(n);
    assert [true][1..] == [];
  }

  /** A generator with an even number of terms, that is with the factor `x + 1`, keeps the parity of
      register and message together. */
  lemma {:induction false} FeedParity(c: Bits, m: Bits, poly: Bits)
    requires |c| == |poly| > 0 && Parity(poly)
    ensures Parity(Feed(c, m, poly)) == (Parity(c) != Parity(m))
    decreases |m|
  {
    if m != [] {
      ParityConcat(c[1..], [false]);
      assert !Parity([false]);
      ParityZeros(|poly|);
      ParityXor(c[1..] + [false], Scale(c[0] != m[0], poly));
      FeedParity(Step(c, m[0], poly), m[1..], poly);
    }
  }

  /** Feeding the register its own contents, changed by `k`, leaves what `k` alone would leave. */
  lemma FeedSelf(c: Bits, k: Bits, poly: Bits)
    requires |c| == |k| == |poly| > 0
    ensures Feed(c, Xor(c, k), poly) == Feed(k, Zeros(|k|), poly)
  {
    hide Feed;
    FeedAbsorb(c, Xor(c, k), poly);
    assert Xor(c, k) + Zeros(0) == Xor(c, k);
    assert Xor(c, Xor(c, k)) == k;
  }
}
