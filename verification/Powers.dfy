/** Powers of two and bit lengths. */
module Powers {

  function Pow2(n: nat): (p: nat)
    ensures p > 0
  {
    if n == 0 then 1 else 2 * Pow2(n - 1)
  }

  lemma {:induction false} Pow2Grows(m: nat, n: nat)
    requires m <= n
    ensures Pow2(m) <= Pow2(n)
  {
    if m < n {
      Pow2Grows(m, n - 1);
    }
  }

  lemma {:induction false} Pow2Add(m: nat, n: nat)
    ensures Pow2(m + n) == Pow2(m) * Pow2(n)
  {
    if m > 0 {
      Pow2Add(m - 1, n);
      assert Pow2(m + n) == 2 * (Pow2(m - 1) * Pow2(n));
    }
  }

  lemma Pow2Of63()
    ensures Pow2(63) == 0x8000_0000_0000_0000
  {
    assert Pow2(7) == 128 && Pow2(8) == 256;
    Pow2Add(8, 8);
    Pow2Add(16, 16);
    Pow2Add(16, 8);
    Pow2Add(24, 7);
    Pow2Add(32, 31);
  }

  /** The number of bits of a number: what `ceil(log2(n + 1))` is exactly. */
  function Bits(n: nat): (w: nat)
    ensures n < Pow2(w)
    ensures w > 0 ==> Pow2(w - 1) <= n
  {
    if n == 0 then 0 else 1 + Bits(n / 2)
  }

  lemma MulAtLeast(k: int, b: nat)
    requires k >= 1
    ensures k * b >= b
  {
    assert (k - 1) * b >= 0;
    assert k * b == (k - 1) * b + b;
  }

  /** Quotient and remainder are unique. */
  lemma Unique(b: nat, q1: int, r1: nat, q2: int, r2: nat)
    requires r1 < b && r2 < b && q1 * b + r1 == q2 * b + r2
    ensures q1 == q2 && r1 == r2
  {
    if q1 < q2 {
      MulAtLeast(q2 - q1, b);
    } else if q2 < q1 {
      MulAtLeast(q1 - q2, b);
    }
  }

  lemma DivMod(x: nat, b: nat)
    requires b > 0
    ensures x / b * b + x % b == x && x / b >= 0 && 0 <= x % b < b
  {
  }

  /** Dividing a sum of high and low digits. */
  lemma Digits(high: nat, low: nat, base: nat)
    requires low < base
    ensures (high * base + low) / base == high && (high * base + low) % base == low
  {
    var x: nat := high * base + low;
    DivMod(x, base);
    Unique(base, x / base, x % base, high, low);
  }
}
