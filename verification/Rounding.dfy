/** Python's `round` on a fixed decimal grid: the nearest grid point, a tie going to the even one.
    Prices and P&L are counted in ticks of 1e-4 INR, margins in paise of 1e-2 INR. */
module Rounding {

  const TICKS_PER_PAISA: int := 100

  /** n / d rounded to the nearest integer, ties to even. */
  function RoundDiv(n: int, d: int): (r: int)
    requires d > 0
    ensures -d <= 2 * (n - d * r) <= d
    ensures 2 * (n - d * r) == d || 2 * (n - d * r) == -d ==> r % 2 == 0
  {
    var q, m := n / d, n % d;
    assert n - d * q == m && n - d * (q + 1) == m - d;
    if 2 * m < d || (2 * m == d && q % 2 == 0) then q else q + 1
  }

  /** The two clauses above leave only one answer. */
  lemma RoundDivUnique(n: int, d: int, r: int)
    requires d > 0
    requires -d <= 2 * (n - d * r) <= d
    requires 2 * (n - d * r) == d || 2 * (n - d * r) == -d ==> r % 2 == 0
    ensures r == RoundDiv(n, d)
  {
    var s := RoundDiv(n, d);
    GridGap(n, d, r, s);
    GridGap(n, d, s, r);
    assert d * (r + 1) == d * r + d && d * (s + 1) == d * s + d;
  }

  /** Two grid points within half a step of n are at most one step apart. */
  lemma GridGap(n: int, d: int, r: int, s: int)
    requires d > 0
    requires 2 * (n - d * r) <= d && -d <= 2 * (n - d * s)
    ensures s <= r + 1
  {
    assert d * (r + 2) == d * r + 2 * d;
    if s >= r + 2 {
      MulMono(d, r + 2, s);
    }
  }

  /** Rounding keeps order. */
  lemma RoundDivMono(a: int, b: int, d: int)
    requires a <= b && d > 0
    ensures RoundDiv(a, d) <= RoundDiv(b, d)
  {
    var r, s := RoundDiv(a, d), RoundDiv(b, d);
    if s < r {
      TiesMeet(a, b, d, r, s);
    }
  }

  /** Only two ties half-way between neighbours could be out of order; half-even settles those alike. */
  lemma TiesMeet(a: int, b: int, d: int, r: int, s: int)
    requires a <= b && d > 0 && s < r
    requires -d <= 2 * (a - d * r) && 2 * (b - d * s) <= d
    ensures r == s + 1 && 2 * (b - d * s) == d && 2 * (a - d * r) == -d
  {
    MulMono(d, s + 1, r);
    assert d * (s + 1) == d * s + d;
    assert d * (s + 2) == d * s + 2 * d;
    if s + 2 <= r {
      MulMono(d, s + 2, r);
    }
  }

  lemma RoundDivExact(k: int, d: int)
    requires d > 0
    ensures RoundDiv(k * d, d) == k
  {
    RoundDivUnique(k * d, d, k);
  }

  /** A share of a non-negative amount never rounds to more than the amount. */
  lemma RoundShare(amount: int, part: int, whole: int)
    requires 0 <= amount && 0 <= part <= whole && whole > 0
    ensures 0 <= RoundDiv(amount * part, whole) <= amount
  {
    var r := RoundDiv(amount * part, whole);
    MulMono(amount, part, whole);
    MulMono(amount, 0, part);
    assert whole * (amount + 1) == amount * whole + whole;
    if r > amount {
      MulMono(whole, amount + 1, r);
    }
    if r < 0 {
      MulMono(whole, r, -1);
    }
  }

  lemma MulMono(a: int, x: int, y: int)
    requires a >= 0 && x <= y
    ensures a * x <= a * y
  {
    if x < y {
      assert a * y - a * x == a * (y - x);
    }
  }

  function Abs(x: int): (r: int)
    ensures r >= 0 && (r == x || r == -x)
  {
    if x < 0 then -x else x
  }

  function Min(x: int, y: int): (r: int)
    ensures r <= x && r <= y && (r == x || r == y)
  {
    if x < y then x else y
  }

  function Max(x: int, y: int): (r: int)
    ensures r >= x && r >= y && (r == x || r == y)
  {
    if x < y then y else x
  }
}
