/** The planner counts bits in floating point.  The conversion of an integer to a double, which has 53
    significant bits, rounds it; here the number of significant bits is any `p`.  The logarithm is
    taken to be exact. */
module FloatBits {
  import opened Powers
  import BitPacking

  /** How many units of `u` are nearest to `y`; of two that are equally near, the even one. */
  function Units(y: nat, u: nat): nat
    requires u > 0
  {
    if 2 * (y % u) < u || (2 * (y % u) == u && y / u % 2 == 0) then y / u else y / u + 1
  }

  /** The nearest integer with `p` significant bits: behind the leading bit there is room for `p - 1`. */
  function Nearest(p: nat, x: nat): nat
    requires p > 0
  {
    if Bits(x) <= p then x
    else
      var k := Bits(x) - 1;
      Pow2(k) + Units(x - Pow2(k), Pow2(k + 1 - p)) * Pow2(k + 1 - p)
  }

  /** `bits`: the smallest exponent of a power of two that is not below the double nearest to `max + 1`. */
  function Count(p: nat, max: nat): nat
    requires p > 0
  {
    var x := Nearest(p, max + 1);
    if x == 0 then 0 else Bits(x - 1)
  }

  /** `max + 1` is above the power of two with exponent `k`, by at most half a unit. */
  predicate JustAbove(p: nat, max: nat, k: nat) {
    k >= p && Pow2(k) < max + 1 <= Pow2(k) + Pow2(k - p)
  }

  lemma SmallDivides(y: nat, u: nat)
    requires y < u
    ensures y / u == 0 && y % u == y
  {
    DivMod(y, u);
    Unique(u, y / u, y % u, 0, y);
  }

  lemma LargeDivides(y: nat, u: nat)
    requires 0 < u <= y
    ensures y / u >= 1
  {
    DivMod(y, u);
    QuotientPositive(y / u, y % u, u, y);
  }

  lemma QuotientPositive(q: nat, r: nat, u: nat, y: nat)
    requires q * u + r == y && r < u <= y
    ensures q >= 1
  {
    assert q == 0 ==> q * u == 0;
  }

  lemma UnitsZero(y: nat, h: nat)
    requires h > 0
    ensures Units(y, 2 * h) == 0 <==> y <= h
  {
    if y < 2 * h { SmallDivides(y, 2 * h); } else { LargeDivides(y, 2 * h); }
  }

  lemma UnitsBelow(y: nat, u: nat, n: nat)
    requires u > 0 && y < n * u
    ensures Units(y, u) * u <= n * u
  {
    DivMod(y, u);
    if y / u >= n { BitPacking.MulMono(n, y / u, u); }
    BitPacking.MulMono(Units(y, u), n, u);
  }

  lemma {:induction false} BitsBetween(n: nat, k: nat, low: nat)
    requires low == Pow2(k) && low <= n < 2 * low
    ensures Bits(n) == k + 1
  {
    var w := Bits(n);
    assert Pow2(k + 1) == 2 * low;
    if w < k + 1 { Pow2Grows(w, k); }
    if w > k + 1 { Pow2Grows(k + 1, w - 1); }
  }

  lemma {:induction false} BitsOfOnes(k: nat, n: nat)
    requires n + 1 == Pow2(k)
    ensures Bits(n) == k
  {
    if k > 0 { BitsBetween(n, k - 1, Pow2(k - 1)); }
  }

  /** What rounding does to a number with leading bit `k`; `h` is half a unit. */
  lemma {:induction false} NearestIs(p: nat, x: nat, k: nat, low: nat, h: nat)
    requires 0 < p <= k && low == Pow2(k) && low <= x < 2 * low && h == Pow2(k - p)
    ensures Nearest(p, x) == low + Units(x - low, 2 * h) * (2 * h)
  {
    BitsBetween(x, k, low);
    assert Pow2(k + 1 - p) == 2 * h;
  }

  /** A number above a power of two is rounded to that power if it is just above it, and otherwise to a
      larger number. */
  lemma {:induction false} NearestAbove(p: nat, x: nat, k: nat, low: nat)
    requires 0 < p <= k && low == Pow2(k) && low < x < 2 * low
    ensures low <= Nearest(p, x) <= 2 * low
    ensures Nearest(p, x) == low <==> x <= low + Pow2(k - p)
  {
    var h, y := Pow2(k - p), x - low;
    NearestIs(p, x, k, low, h);
    assert Pow2(k + 1 - p) == 2 * h;
    Pow2Add(p - 1, k + 1 - p);
    UnitsZero(y, h);
    UnitsBelow(y, 2 * h, Pow2(p - 1));
    NoneIsZero(Units(y, 2 * h), 2 * h);
  }

  lemma NoneIsZero(n: nat, u: nat)
    requires u > 0
    ensures n * u >= 0 && (n * u == 0 <==> n == 0)
  {
    if n > 0 { MulAtLeast(n, u); }
  }

  /** A power of two is not rounded. */
  lemma {:induction false} PowerIsExact(p: nat, k: nat, x: nat)
    requires 0 < p <= k && x == Pow2(k)
    ensures Nearest(p, x) == x
  {
    var h := Pow2(k - p);
    NearestIs(p, x, k, x, h);
    UnitsZero(0, h);
    NoneIsZero(Units(0, 2 * h), 2 * h);
  }

  /** A number can be just above the power of its leading bit only. */
  lemma {:induction false} OnlyLeading(p: nat, max: nat, k: nat, low: nat, j: nat)
    requires p > 0 && low == Pow2(k) && low <= max + 1 < 2 * low && JustAbove(p, max, j)
    ensures j == k
  {
    Pow2Grows(j - p, j - 1);
    assert Pow2(j) == 2 * Pow2(j - 1) && Pow2(j + 1) == 2 * Pow2(j) && Pow2(k + 1) == 2 * low;
    if j > k { Pow2Grows(k + 1, j); }
    if j < k { Pow2Grows(j + 1, k); }
  }

  /** The count is exact if and only if `max + 1` is not just above a power of two. */
  lemma {:induction false} CountExact(p: nat, max: nat)
    requires p > 0
    ensures Count(p, max) == Bits(max) <==> forall k: nat :: !JustAbove(p, max, k)
  {
    var x := max + 1;
    if Bits(x) <= p {
      forall k: nat ensures !JustAbove(p, max, k) {
        if k >= p { Pow2Grows(Bits(x), k); }
      }
    } else {
      var k: nat := Bits(x) - 1;
      var low := Pow2(k);
      assert Pow2(k + 1) == 2 * low;
      forall j: nat | JustAbove(p, max, j) ensures j == k { OnlyLeading(p, max, k, low, j); }
      LeadingDecides(p, max, k, low);
    }
  }

  lemma {:induction false} LeadingDecides(p: nat, max: nat, k: nat, low: nat)
    requires 0 < p <= k && low == Pow2(k) && low <= max + 1 < 2 * low
    ensures Count(p, max) == Bits(max) <==> !JustAbove(p, max, k)
  {
    var x := max + 1;
    if x == low {
      PowerIsExact(p, k, x);
    } else {
      NearestAbove(p, x, k, low);
      BitsBetween(max, k, low);
      BitsBelow(k, low, Nearest(p, x));
    }
  }

  /** The exponent for a number from a power of two up to the next. */
  lemma {:induction false} BitsBelow(k: nat, low: nat, r: nat)
    requires low == Pow2(k) && low <= r <= 2 * low
    ensures Bits(r - 1) == if r == low then k else k + 1
  {
    if r == low { BitsOfOnes(k, r - 1); } else { BitsBetween(r - 1, k, low); }
  }

  /** A largest value of two to the power of `p` is given `p` bits where it needs one more, so that it is
      unpacked as zero. */
  lemma {:induction false} CountShort(p: nat)
    requires p > 0
    ensures Count(p, Pow2(p)) == p && Bits(Pow2(p)) == p + 1 && BitPacking.BitUnpack(Pow2(p), 0, p) == 0
  {
    var low := Pow2(p);
    assert Pow2(p - p) == 1 && low == 2 * Pow2(p - 1);
    BitsBetween(low, p, low);
    NearestAbove(p, low + 1, p, low);
    BitsBelow(p, low, Nearest(p, low + 1));
    UnpackedZero(p, low);
  }

  lemma {:induction false} UnpackedZero(p: nat, low: nat)
    requires low == Pow2(p)
    ensures BitPacking.BitUnpack(low, 0, p) == 0
  {
    assert Pow2(0) == 1 && low / 1 == low;
    Digits(1, 0, low);
  }
}
