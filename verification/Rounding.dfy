/** Facts about floor division, powers and products used by the price and conversion proofs. */
module Rounding {

  /** Least z with z * d >= a. */
  function CeilDiv(a: nat, d: nat): (z: nat)
    requires d > 0
    ensures z * d >= a
    ensures z > 0 ==> (z - 1) * d < a
  {
    FloorBounds(a, d);
    OneMore(a / d, d);
    if (a / d) * d == a then a / d else a / d + 1
  }

  lemma OneMore(q: int, d: int)
    ensures (q + 1) * d == q * d + d
  {}

  function Pow(b: nat, k: nat): (p: nat)
    ensures b > 0 ==> p > 0
  {
    if k == 0 then 1 else b * Pow(b, k - 1)
  }

  function Abs(x: int): nat {
    if x < 0 then -x else x
  }

  function Min(x: int, y: int): int {
    if x < y then x else y
  }

  function Max(x: int, y: int): int {
    if x < y then y else x
  }

  lemma MulMono(a: int, b: int, c: nat)
    requires a <= b
    ensures a * c <= b * c
  {}

  lemma MulMonoStrict(a: int, b: int, c: nat)
    requires a < b && c > 0
    ensures a * c < b * c
  {}

  lemma CancelFactor(a: int, b: int, c: int)
    requires c > 0 && a * c <= b * c
    ensures a <= b
  {
    if a > b { MulMonoStrict(b, a, c); }
  }

  lemma FloorBounds(a: int, d: int)
    requires d > 0
    ensures (a / d) * d <= a < (a / d) * d + d
    ensures a - (a / d) * d == a % d
  {
    assert a == d * (a / d) + a % d;
  }

  /** The floor is the largest multiple below: q * d <= a gives q <= a / d. */
  lemma FloorGreatest(q: int, a: int, d: int)
    requires d > 0 && q * d <= a
    ensures q <= a / d
  {
    FloorBounds(a, d);
    if q > a / d {
      MulMono(a / d + 1, q, d);
    }
  }

  /** a < q * d gives a / d < q. */
  lemma FloorLess(q: int, a: int, d: int)
    requires d > 0 && a < q * d
    ensures a / d < q
  {
    FloorBounds(a, d);
    if q <= a / d {
      MulMono(q, a / d, d);
    }
  }

  lemma FloorUnique(q: int, a: int, d: int)
    requires d > 0 && q * d <= a < q * d + d
    ensures a / d == q
  {
    FloorGreatest(q, a, d);
    FloorLess(q + 1, a, d);
  }

  lemma FloorSuperadditive(a: int, b: int, d: int)
    requires d > 0
    ensures a / d + b / d <= (a + b) / d <= a / d + b / d + 1
  {
    FloorBounds(a, d);
    FloorBounds(b, d);
    FloorGreatest(a / d + b / d, a + b, d);
    FloorLess(a / d + b / d + 2, a + b, d);
  }

  /** Two floor divisions in a row are one. */
  lemma FloorTwice(a: int, d: int, e: int)
    requires d > 0 && e > 0
    ensures d * e > 0 && a / d / e == a / (d * e)
  {
    var q := a / d / e;
    FloorBounds(a, d);
    FloorBounds(a / d, e);
    assert d * e > 0;
    assert q * (d * e) <= a by {
      MulMono(q * e, a / d, d);
      assert q * e * d == q * (d * e);
    }
    assert a < (q + 1) * (d * e) by {
      MulMono(a / d + 1, (q + 1) * e, d);
      assert (q + 1) * e * d == (q + 1) * (d * e);
    }
    FloorUnique(q, a, d * e);
  }

  lemma CeilLeast(z: int, a: nat, d: nat)
    requires d > 0
    ensures CeilDiv(a, d) <= z <==> a <= z * d
  {
    var c := CeilDiv(a, d);
    if c <= z {
      MulMono(c, z, d);
    } else {
      MulMono(z, c - 1, d);
    }
  }

  lemma Swap(x: int, y: int, z: int)
    ensures x * y * z == x * z * y
    ensures x * (y * z) == x * y * z
  {}

  /** p * x <= q * y and a * y <= b * z chain into (a * p) * x <= (b * q) * z. */
  lemma Chain(p: nat, q: nat, a: nat, b: nat, x: nat, y: nat, z: nat)
    requires p * x <= q * y && q > 0
    ensures a * y <= b * z ==> (a * p) * x <= (b * q) * z
    ensures a * y < b * z ==> (a * p) * x < (b * q) * z
  {
    calc {
      (a * p) * x;
      { Swap(a, p, x); }
      a * (p * x);
    <= { MulMono(p * x, q * y, a); }
      a * (q * y);
      { Swap(a, q, y); Swap(a, y, q); }
      (a * y) * q;
    }
    assert (b * z) * q == (b * q) * z by { Swap(b, z, q); }
    if a * y <= b * z { MulMono(a * y, b * z, q); }
    if a * y < b * z { MulMonoStrict(a * y, b * z, q); }
  }

  /** One more factor on both sides of a compounded lower bound. */
  lemma CompoundLower(a: nat, b: nat, k: nat, x: nat, y: nat, z: nat)
    requires b > 0
    requires Pow(a, k) * x <= Pow(b, k) * y
    ensures a * y <= b * z ==> Pow(a, k + 1) * x <= Pow(b, k + 1) * z
    ensures a * y < b * z ==> Pow(a, k + 1) * x < Pow(b, k + 1) * z
  {
    Chain(Pow(a, k), Pow(b, k), a, b, x, y, z);
  }

  /** One more factor on both sides of a compounded upper bound. */
  lemma CompoundUpper(a: nat, b: nat, k: nat, x: nat, y: nat, z: nat)
    requires a > 0
    requires Pow(a, k) * y <= Pow(b, k) * x
    ensures a * z <= b * y ==> Pow(a, k + 1) * z <= Pow(b, k + 1) * x
    ensures a * z < b * y ==> Pow(a, k + 1) * z < Pow(b, k + 1) * x
  {
    var p, q := Pow(a, k), Pow(b, k);
    assert (b * y) * p <= (b * q) * x by {
      MulMono(p * y, q * x, b);
      Swap(b, y, p);
      Swap(b, p, y);
      Swap(b, q, x);
    }
    assert (a * z) * p == (a * p) * z by { Swap(a, z, p); }
    if a * z <= b * y { MulMono(a * z, b * y, p); }
    if a * z < b * y { MulMonoStrict(a * z, b * y, p); }
  }

  /** A bound compounded k times also holds when compounded K >= k times, for a <= b. */
  lemma {:induction false} CompoundMore(a: nat, b: nat, k: nat, K: nat, x: nat, y: nat)
    requires 0 < a <= b && k <= K
    requires Pow(a, k) * x <= Pow(b, k) * y
    ensures Pow(a, K) * x <= Pow(b, K) * y
    decreases K - k
  {
    if k == K {
    } else {
      MulMono(a, b, y);
      CompoundLower(a, b, k, x, y, y);
      CompoundMore(a, b, k + 1, K, x, y);
    }
  }

  lemma Interchange(a: nat, b: nat, c: nat, d: nat)
    ensures (a * b) * (c * d) == (a * c) * (b * d)
  {
    Swap(a, b, c * d);
    Swap(b, c, d);
    Swap(c, b, d);
    Swap(a, c, b * d);
    assert b * (c * d) == c * (b * d) by { Swap(b, c, d); }
  }

  lemma ProductStep(x: nat, y: nat, z: nat, w: nat)
    requires x <= y && z <= w
    ensures x * z <= y * w
  {
    MulMono(x, y, z);
    MulMono(z, w, y);
  }

  lemma {:induction false} PowersOfBand(lo: nat, base: nat, hi: nat, k: nat)
    requires lo * hi <= base * base
    ensures Pow(lo, k) * Pow(hi, k) <= Pow(base, k) * Pow(base, k)
  {
    if k == 0 {
    } else {
      var a, b, c := Pow(lo, k - 1), Pow(base, k - 1), Pow(hi, k - 1);
      PowersOfBand(lo, base, hi, k - 1);
      BandStep(lo, base, hi, a, b, c);
    }
  }

  lemma BandStep(lo: nat, base: nat, hi: nat, a: nat, b: nat, c: nat)
    requires lo * hi <= base * base && a * c <= b * b
    ensures (lo * a) * (hi * c) <= (base * b) * (base * b)
  {
    Interchange(lo, a, hi, c);
    Interchange(base, b, base, b);
    ProductStep(lo * hi, base * base, a * c, b * b);
  }

  /** A compounded rise by hi/base is at most the inverse of a compounded fall by lo/base. */
  lemma CompoundFlip(lo: nat, base: nat, hi: nat, k: nat, x: nat, y: nat)
    requires base > 0 && lo * hi <= base * base
    requires Pow(base, k) * y <= Pow(hi, k) * x
    ensures Pow(lo, k) * y <= Pow(base, k) * x
  {
    var a, b, c := Pow(lo, k), Pow(base, k), Pow(hi, k);
    PowersOfBand(lo, base, hi, k);
    calc {
      (a * y) * b;
      { Swap(a, y, b); Swap(a, b, y); }
      a * (b * y);
    <= { MulMono(b * y, c * x, a); }
      a * (c * x);
      { Swap(a, c, x); }
      (a * c) * x;
    <= { MulMono(a * c, b * b, x); }
      (b * b) * x;
      { Swap(b, b, x); }
      (b * x) * b;
    }
    CancelFactor(a * y, b * x, b);
  }

  /** Positive values, each strictly between lo/base and hi/base of its predecessor. */
  predicate IsChain(values: seq<int>, lo: nat, base: nat, hi: nat) {
    var k := |values| - 1;
    && k >= 0
    && values[k] > 0
    && (k > 0 ==>
          && IsChain(values[..k], lo, base, hi)
          && lo * values[k - 1] < base * values[k] < hi * values[k - 1])
  }

  lemma {:induction false} CompoundChain(values: seq<int>, lo: nat, base: nat, hi: nat)
    requires base > 0 && IsChain(values, lo, base, hi)
    ensures var k := |values| - 1;
            && values[0] > 0
            && Pow(lo, k) * values[0] <= Pow(base, k) * values[k] <= Pow(hi, k) * values[0]
            && (k > 0 ==> Pow(lo, k) * values[0] < Pow(base, k) * values[k] < Pow(hi, k) * values[0])
  {
    var k := |values| - 1;
    if k == 0 {
    } else {
      CompoundChain(values[..k], lo, base, hi);
      CompoundLower(lo, base, k - 1, values[0], values[k - 1], values[k]);
      CompoundUpper(base, hi, k - 1, values[0], values[k - 1], values[k]);
    }
  }
}
