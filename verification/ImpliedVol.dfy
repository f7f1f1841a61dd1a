/** Implied volatility by bisection, over real numbers and for any price function of volatility. */
module ImpliedVol {
  import opened Rows

  const LO := 0.000001
  const HI := 5.0
  const TOLERANCE := 0.000001
  const ROUNDS := 80

  function AbsReal(x: real): real { if x < 0.0 then -x else x }

  function PowerOfTwo(n: nat): (p: int)
    ensures p > 0
  {
    if n == 0 then 1 else 2 * PowerOfTwo(n - 1)
  }

  /** Two volatilities of the search range that price on either side of the target. */
  predicate Brackets(price: real -> real, target: real, lo: real, hi: real) {
    LO <= lo <= hi <= HI && price(lo) <= target <= price(hi)
  }

  /** s is the midpoint of a bracket as wide as the range halved `rounds` times. */
  predicate MidOf(price: real -> real, target: real, s: real, lo: real, hi: real, rounds: nat) {
    && Brackets(price, target, lo, hi)
    && s == 0.5 * (lo + hi)
    && (hi - lo) * PowerOfTwo(rounds) as real == HI - LO
  }

  /** What a returned volatility is: it prices to within the tolerance, or it ends the search. */
  ghost predicate IsAnswer(price: real -> real, target: real, s: real, rounds: nat) {
    LO <= s <= HI && (AbsReal(price(s) - target) < TOLERANCE
      || exists lo, hi :: MidOf(price, target, s, lo, hi, rounds))
  }

  /** The search loop. */
  method Bisect(price: real -> real, target: real, rounds: nat) returns (sigma: real)
    requires Brackets(price, target, LO, HI)
    ensures IsAnswer(price, target, sigma, rounds)
  {
    var lo, hi := LO, HI;
    for i := 0 to rounds
      invariant Brackets(price, target, lo, hi)
      invariant (hi - lo) * PowerOfTwo(i) as real == HI - LO
    {
      var mid := 0.5 * (lo + hi);
      HalfWidth(lo, hi, mid, i);
      var priceMid := price(mid);
      if AbsReal(priceMid - target) < TOLERANCE {
        return mid;
      }
      if priceMid < target {
        lo := mid;
      } else {
        hi := mid;
      }
    }
    sigma := 0.5 * (lo + hi);
    assert MidOf(price, target, sigma, lo, hi, rounds);
  }

  method ImpliedVolatility(price: real -> real, target: real, intrinsic: real) returns (sigma: Option<real>)
    ensures sigma == None <==>
            target <= intrinsic + 0.000000001 || !(price(0.000001) <= target <= price(5.0))
    ensures sigma.Some? ==> IsAnswer(price, target, sigma.value, 80)
    ensures sigma.Some? ==>
              && 0.000001 <= sigma.value <= 5.0
              && (|| AbsReal(price(sigma.value) - target) < 0.000001
                  || exists lo, hi ::
                       && price(lo) <= target <= price(hi) && sigma.value == 0.5 * (lo + hi)
                       && (hi - lo) * PowerOfTwo(80) as real == 5.0 - 0.000001)
  {
    if target <= intrinsic + 0.000000001 {
      return None;
    }
    if !(price(LO) <= target <= price(HI)) {
      return None;
    }
    var s := Bisect(price, target, ROUNDS);
    return Some(s);
  }

  lemma HalfWidth(lo: real, hi: real, mid: real, i: nat)
    requires mid == 0.5 * (lo + hi)
    ensures (hi - mid) * PowerOfTwo(i + 1) as real == (hi - lo) * PowerOfTwo(i) as real
    ensures (mid - lo) * PowerOfTwo(i + 1) as real == (hi - lo) * PowerOfTwo(i) as real
  {
    var p := PowerOfTwo(i) as real;
    assert PowerOfTwo(i + 1) as real == 2.0 * p;
    assert hi - mid == 0.5 * (hi - lo) && mid - lo == 0.5 * (hi - lo);
    assert (0.5 * (hi - lo)) * (2.0 * p) == (hi - lo) * p;
  }

  ghost predicate StrictlyIncreasing(price: real -> real) {
    forall x, y :: LO <= x < y <= HI ==> price(x) < price(y)
  }

  /** A bracket of an increasing price holds every volatility that prices the target. */
  lemma BracketHoldsRoot(price: real -> real, target: real, lo: real, hi: real, root: real)
    requires StrictlyIncreasing(price) && Brackets(price, target, lo, hi)
    requires LO <= root <= HI && price(root) == target
    ensures lo <= root <= hi
  {
    assert root < lo ==> price(root) < price(lo);
    assert hi < root ==> price(hi) < price(root);
  }

  lemma RootIsUnique(price: real -> real, target: real, r: real, s: real)
    requires StrictlyIncreasing(price)
    requires LO <= r <= HI && price(r) == target && LO <= s <= HI && price(s) == target
    ensures r == s
  {
    assert r < s ==> price(r) < price(s);
    assert s < r ==> price(s) < price(r);
  }

  /** For an increasing price, the answer is within tolerance in price of the one true volatility, or within
      half of the final bracket of it: its distance, times 2^(rounds + 1), is at most the width of the range. */
  lemma AnswerIsNearTheRoot(price: real -> real, target: real, s: real, root: real, rounds: nat)
    requires StrictlyIncreasing(price) && IsAnswer(price, target, s, rounds)
    requires LO <= root <= HI && price(root) == target
    ensures || AbsReal(price(s) - price(root)) < TOLERANCE
            || AbsReal(s - root) * PowerOfTwo(rounds + 1) as real <= HI - LO
  {
    if !(AbsReal(price(s) - target) < TOLERANCE) {
      var lo, hi :| MidOf(price, target, s, lo, hi, rounds);
      BracketHoldsRoot(price, target, lo, hi, root);
      HalfBracket(lo, hi, AbsReal(s - root), rounds);
    }
  }

  lemma HalfBracket(lo: real, hi: real, d: real, rounds: nat)
    requires d <= 0.5 * (hi - lo)
    ensures d * PowerOfTwo(rounds + 1) as real <= (hi - lo) * PowerOfTwo(rounds) as real
  {
    var p := PowerOfTwo(rounds) as real;
    ScaleUp(d, 0.5 * (hi - lo), p);
    assert PowerOfTwo(rounds + 1) as real == 2.0 * p;
    assert d * (2.0 * p) == 2.0 * (d * p);
  }

  lemma ScaleUp(a: real, b: real, p: real)
    requires a <= b && p > 0.0
    ensures a * p <= b * p
  {
  }
}
