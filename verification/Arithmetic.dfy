/** Products and quotients, in the small steps the solver can follow. */
module Arithmetic {
  import opened Machine

  lemma {:induction false} NextMultiple(q: int, low: int, high: int)
    requires 0 <= q && low < high
    ensures q * high >= q * low + q
    decreases high - low
  {
    if high == low + 1 {
      assert q * high == q * low + q;
    } else {
      NextMultiple(q, low, high - 1);
      assert q * high == q * (high - 1) + q;
    }
  }

  lemma MulMonotone(q: int, low: int, high: int)
    requires 0 <= q && low <= high
    ensures q * low <= q * high
  {
    if low < high { NextMultiple(q, low, high); }
  }

  lemma Bracketed(q: int, quotient: int, n: int, rest: int, slack: int)
    requires 0 <= rest < q && 0 <= slack && 0 <= q * quotient + rest
    requires q * quotient + rest + slack == q * n
    ensures 0 <= quotient <= n
    ensures slack == 0 ==> quotient == n
  {
    if quotient > n { NextMultiple(q, n, quotient); }
    if quotient < n { NextMultiple(q, quotient, n); }
    if quotient < 0 { NextMultiple(q, quotient, 0); }
  }

  /** A quotient of something at most `q * n` is at most `n`, and an exact multiple divides exactly. */
  lemma QuotientAtMost(x: int, q: int, n: int)
    requires 0 <= x <= q * n && 0 < q
    ensures 0 <= x / q <= n
    ensures x == q * n ==> x / q == n
  {
    var quotient, rest := x / q, x % q;
    assert x == q * quotient + rest && 0 <= rest < q;
    Bracketed(q, quotient, n, rest, q * n - x);
  }

  /** Scaling by a proper fraction, rounded down. */
  lemma ScaledDown(n: int, part: int, whole: int)
    requires 0 <= n && 0 <= part <= whole && 0 < whole
    ensures 0 <= n * part && 0 <= (n * part) / whole <= n
    ensures part == whole ==> (n * part) / whole == n
  {
    MulMonotone(n, 0, part);
    MulMonotone(n, part, whole);
    assert n * whole == whole * n;
    QuotientAtMost(n * part, whole, n);
  }

  lemma SignedScaledDown(v: int, part: int, whole: int)
    requires 0 <= part <= whole && 0 < whole
    ensures var scaled := TruncDiv(v * part, whole);
            Abs(scaled) <= Abs(v) && (scaled == 0 || Sign(scaled) == Sign(v)) && (part == whole ==> scaled == v)
  {
    if v >= 0 {
      ScaledDown(v, part, whole);
    } else {
      ScaledDown(-v, part, whole);
      assert (-v) * part == -(v * part);
    }
  }
}
