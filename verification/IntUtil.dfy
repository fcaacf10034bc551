/** IntUtil::next32Pow2: the next power of two by shifting and or-ing, against a search by
    doubling. */
module IntUtil {
  const HALF: bv32 := 0x8000_0000

  // Named so that proofs can treat each bit-level fact as one unit

  predicate Le(a: bv32, b: bv32) { a <= b }
  predicate InRange(v: bv32) { 1 <= v <= HALF }
  predicate IsPow2(p: bv32) { p != 0 && p & (p - 1) == 0 }
  function Inc(v: bv32): bv32 { v + 1 }
  function Dec(v: bv32): bv32 { v - 1 }

  /** A mask of low bits: every bit below a set bit is set. */
  predicate IsMask(m: bv32) { m & (m + 1) == 0 }

  /** m is the least mask covering u, for u != 0. */
  predicate SameTop(u: bv32, m: bv32) { m >> 1 < u <= m }

  /** r is the least power of two not below v. */
  ghost predicate LeastPow2(v: bv32, r: bv32) {
    IsPow2(r) && Le(v, r) && forall p: bv32 :: IsPow2(p) && Le(v, p) ==> Le(r, p)
  }

  /** What the shift-or steps compute. */
  function Smear(v: bv32): bv32 {
    var a := v | (v >> 1);
    var b := a | (a >> 2);
    var c := b | (b >> 4);
    var d := c | (c >> 8);
    d | (d >> 16)
  }

  lemma ClosedIsMask(m: bv32)
    requires m | (m >> 1) == m
    ensures IsMask(m)
  {
  }

  lemma SmearClosed(v: bv32)
    ensures Smear(v) | (Smear(v) >> 1) == Smear(v)
  {
  }

  lemma SmearIsMask(v: bv32)
    ensures IsMask(Smear(v))
  {
    SmearClosed(v);
    hide Smear, IsMask;
    ClosedIsMask(Smear(v));
  }

  lemma SmearCovers(v: bv32)
    ensures Le(v, Smear(v))
  {
  }

  lemma SmearSameTop(v: bv32)
    requires v != 0
    ensures SameTop(v, Smear(v))
  {
    SmearCovers(v);
    SmearHalf(v);
    hide Smear;
  }

  lemma SmearHalf(v: bv32)
    requires v != 0
    ensures Smear(v) >> 1 < v
  {
  }

  lemma SmearTop(v: bv32)
    ensures v & HALF == 0 ==> Smear(v) & HALF == 0
    ensures v & HALF != 0 ==> Smear(v) + 1 == 0
  {
  }

  lemma TopOfPredecessor(v: bv32)
    ensures InRange(v) <==> Dec(v) & HALF == 0
  {
  }

  /** The successor of a mask is a power of two ... */
  lemma MaskSuccessor(m: bv32, v: bv32)
    requires IsMask(m) && m & HALF == 0 && Le(Dec(v), m)
    ensures IsPow2(Inc(m)) && Le(v, Inc(m))
  {
  }

  /** ... and no power of two from v on is smaller, if v - 1 has the mask's top bit. */
  lemma NothingBetween(m: bv32, v: bv32, p: bv32)
    requires IsMask(m) && SameTop(Dec(v), m) && IsPow2(p) && InRange(v) && Le(v, p)
    ensures Le(Inc(m), p)
  {
  }

  lemma OneIsLeast(p: bv32)
    ensures Inc(Smear(0)) == 1 && IsPow2(1) && !IsPow2(0) && (IsPow2(p) ==> Le(1, p))
  {
  }

  lemma SmearBelow(v: bv32, p: bv32)
    requires InRange(v) && IsPow2(p) && Le(v, p)
    ensures Le(Inc(Smear(Dec(v))), p)
  {
    hide IsPow2, Smear, IsMask, Le, InRange, Inc, Dec, SameTop;
    if Dec(v) == 0 {
      OneIsLeast(p);
    } else {
      SmearIsMask(Dec(v));
      SmearSameTop(Dec(v));
      NothingBetween(Smear(Dec(v)), v, p);
    }
  }

  lemma SmearLeast(v: bv32)
    ensures LeastPow2(v, Inc(Smear(Dec(v)))) <==> InRange(v)
    ensures !InRange(v) ==> Inc(Smear(Dec(v))) == 0
  {
    TopOfPredecessor(v);
    var u := Dec(v);
    assert u & HALF != 0 ==> Inc(Smear(u)) == 0 by { SmearTop(u); hide Smear; }
    assert u & HALF == 0 ==> Smear(u) & HALF == 0 by { SmearTop(u); hide Smear; }
    hide IsPow2, Smear, IsMask, Le, InRange, Inc, Dec, SameTop;
    OneIsLeast(0);
    if InRange(v) {
      SmearIsMask(u);
      SmearCovers(u);
      MaskSuccessor(Smear(u), v);
      forall p: bv32 | IsPow2(p) && Le(v, p) ensures Le(Inc(Smear(u)), p) {
        SmearBelow(v, p);
      }
    }
  }

  /** The shift-or chain returns the least power of two not below v0 exactly for
      1 <= v0 <= 2^31; outside that range the result wraps to 0. */
  method Next32Pow2(v0: bv32) returns (v: bv32)
    ensures LeastPow2(v0, v) <==> InRange(v0)
    ensures !InRange(v0) ==> v == 0
  {
    hide IsPow2, Le, InRange, Inc, Dec;
    v := v0;
    v := Dec(v);
    v := v | (v >> 1);
    v := v | (v >> 2);
    v := v | (v >> 4);
    v := v | (v >> 8);
    v := v | (v >> 16);
    SmearLeast(v0);
    assert v == Smear(Dec(v0));
    hide Smear;
    v := Inc(v);
  }

  // The obvious algorithm

  lemma DoubleNext(p: bv32, q: bv32, v: bv32)
    requires IsPow2(p) && IsPow2(q) && !Le(v, p) && Le(v, q)
    ensures Le(p << 1, q)
  {
  }

  lemma Doubled(v: bv32, p: bv32)
    requires IsPow2(p) && !Le(v, p) && Le(v, HALF)
    ensures IsPow2(p << 1) && !(p << 1) < !p
  {
  }

  /** Doubling from 1 until v is reached. */
  method DoublingSearch(v: bv32) returns (p: bv32)
    requires Le(v, HALF)
    ensures LeastPow2(v, p)
  {
    forall q: bv32 | IsPow2(q) ensures Le(1, q) { OneIsLeast(q); }
    hide IsPow2, Le;
    p := 1;
    OneIsLeast(1);
    while !Le(v, p)
      invariant IsPow2(p) && forall q: bv32 :: IsPow2(q) && Le(v, q) ==> Le(p, q)
      decreases !p
    {
      forall q: bv32 | IsPow2(q) && Le(v, q) ensures Le(p << 1, q) {
        DoubleNext(p, q, v);
      }
      Doubled(v, p);
      p := p << 1;
    }
  }

  /** The least power of two is unique, so any value the doubling search can return is the
      value of the shift-or chain. */
  lemma LeastPow2Unique(v: bv32, r: bv32)
    requires InRange(v) && LeastPow2(v, r)
    ensures r == Inc(Smear(Dec(v)))
  {
    SmearLeast(v);
    hide Smear, IsPow2, Inc, Dec, Le;
    SameOrder(r, Inc(Smear(Dec(v))));
  }

  lemma SameOrder(a: bv32, b: bv32)
    requires Le(a, b) && Le(b, a) && IsPow2(a) && IsPow2(b)
    ensures a == b
  {
  }
}
