/** The one text a strike has in a symbol: plain decimal, with nothing to spare at either end. The symbol
    master is searched by that text, so a reader that accepts another spelling is no excuse for it. */
module StrikeText {
  import opened Rows
  import opened Digits
  import opened OptionSymbols

  predicate NoLeadingZero(w: string) { w != "" && AllDigits(w) && (w[0] == '0' ==> |w| == 1) }

  predicate NoTrailingZero(t: string) { t != "" && AllDigits(t) && t[|t| - 1] != '0' }

  /** Digits, or digits, one point and digits, without idle zeros. */
  predicate Plain(s: string) {
    NoLeadingZero(s) ||
    exists i :: 0 <= i < |s| && s[i] == '.' && NoLeadingZero(s[..i]) && NoTrailingZero(s[i + 1..])
  }

  // ----- printing -----

  lemma {:induction false} PrintsNoLeadingZero(n: nat)
    ensures NoLeadingZero(PrintNat(n)) && (n > 0 ==> PrintNat(n)[0] != '0')
  {
    if n >= 10 {
      PrintsNoLeadingZero(n / 10);
      assert PrintNat(n)[0] == PrintNat(n / 10)[0];
    }
  }

  lemma {:induction false} PrintsNoTrailingZero(f: nat, width: nat)
    requires 0 < f < Pow10(width)
    ensures NoTrailingZero(FractionDigits(f, width))
    decreases width
  {
    if f % 10 == 0 {
      PrintsNoTrailingZero(f / 10, width - 1);
    } else {
      var s := Padded(f, width);
      assert DigitValue(s[|s| - 1]) == f % 10;
    }
  }

  /** The strike's text: all digits exactly when the strike is whole; no leading zero but in "0" and before
      the point; with a fraction one point only, and no zero at the end. */
  lemma {:induction false} StrikeIsPlain(strike: nat)
    ensures var s := FormatStrike(strike);
            && Plain(s) && s != ""
            && (AllDigits(s) <==> strike % 10000 == 0)
            && (s[0] == '0' ==> s == "0" || (|s| > 1 && s[1] == '.'))
            && (strike % 10000 != 0 ==>
                  && s[|s| - 1] != '0'
                  && exists i :: 0 < i < |s| - 1 && s[i] == '.' && forall j :: 0 <= j < |s| && s[j] == '.' ==> j == i)
  {
    var whole, f := strike / 10000, strike % 10000;
    PrintsNoLeadingZero(whole);
    if f != 0 {
      assert Pow10(4) == 10000;
      PrintsNoTrailingZero(f, 4);
      PointIsPlain(PrintNat(whole), FractionDigits(f, 4));
    }
  }

  lemma {:induction false} PointIsPlain(w: string, t: string)
    requires NoLeadingZero(w) && NoTrailingZero(t)
    ensures var s := w + "." + t;
            && Plain(s) && !AllDigits(s) && s[|s| - 1] != '0'
            && (s[0] == '0' ==> s[1] == '.')
            && 0 < |w| < |s| - 1 && s[|w|] == '.' && forall j :: 0 <= j < |s| && s[j] == '.' ==> j == |w|
  {
    var s := w + "." + t;
    assert s[..|w|] == w && s[|w| + 1..] == t && s[|w|] == '.';
    assert !IsDigit(s[|w|]);
    assert s[|s| - 1] == t[|t| - 1];
    assert forall j :: 0 <= j < |s| && j != |w| ==> IsDigit(s[j]);
  }

  // ----- one text only -----

  lemma {:induction false} LastDigit(s: string)
    requires s != "" && AllDigits(s)
    ensures ParseDigits(s) / 10 == ParseDigits(s[..|s| - 1])
    ensures ParseDigits(s) % 10 == DigitValue(s[|s| - 1])
  {
  }

  lemma SameDigit(c: char, d: char)
    requires IsDigit(c) && IsDigit(d) && DigitValue(c) == DigitValue(d)
    ensures c == d
  {
  }

  lemma {:induction false} SameDigits(s: string, t: string)
    requires AllDigits(s) && AllDigits(t) && |s| == |t| && ParseDigits(s) == ParseDigits(t)
    ensures s == t
  {
    if s != "" {
      LastDigit(s);
      LastDigit(t);
      SameDigits(s[..|s| - 1], t[..|t| - 1]);
      SameDigit(s[|s| - 1], t[|t| - 1]);
      assert s == s[..|s| - 1] + [s[|s| - 1]] && t == t[..|t| - 1] + [t[|t| - 1]];
    }
  }

  /** Digits without a leading zero are the print of what they say. */
  lemma {:induction false} PrintsBack(w: string)
    requires NoLeadingZero(w)
    ensures PrintNat(ParseDigits(w)) == w
    ensures w[0] != '0' ==> ParseDigits(w) > 0
  {
    var rest, n := w[..|w| - 1], ParseDigits(w);
    LastDigit(w);
    SameDigit(DigitChar(n % 10), w[|w| - 1]);
    assert w == rest + [w[|w| - 1]];
    if rest == "" {
      assert ParseDigits(rest) == 0;
      if n == 0 { SameDigit(w[0], '0'); }
    } else {
      assert rest[0] == w[0];
      PrintsBack(rest);
    }
  }

  lemma {:induction false} Pow10Adds(a: nat, b: nat)
    ensures Pow10(a + b) == Pow10(a) * Pow10(b)
  {
    if a > 0 {
      Pow10Adds(a - 1, b);
      assert 10 * (Pow10(a - 1) * Pow10(b)) == 10 * Pow10(a - 1) * Pow10(b);
    }
  }

  lemma {:induction false} FitsWidth(t: string)
    requires AllDigits(t)
    ensures ParseDigits(t) < Pow10(|t|)
  {
    if t != "" {
      FitsWidth(t[..|t| - 1]);
      LastDigit(t);
    }
  }

  lemma CancelFactor(x: int, y: int, p: int)
    requires p > 0 && x * p == y * p
    ensures x == y
  {
    assert (x - y) * p == 0;
  }

  lemma TenTimes(a: int, more: int, p: int, u: int)
    requires p > 0 && a * (10 * more * p) == u * p
    ensures u == 10 * (a * more) && u % 10 == 0
  {
    assert a * (10 * more * p) == (10 * (a * more)) * p;
    CancelFactor(10 * (a * more), u, p);
  }

  /** A longer fraction of the same worth would end in zeros. */
  lemma {:induction false} NotLonger(t: string, u: string)
    requires NoTrailingZero(t) && NoTrailingZero(u)
    requires ParseDigits(t) * Pow10(|u|) == ParseDigits(u) * Pow10(|t|)
    ensures |u| <= |t|
  {
    if |t| < |u| {
      var more := |u| - |t| - 1;
      Pow10Adds(more + 1, |t|);
      TenTimes(ParseDigits(t), Pow10(more), Pow10(|t|), ParseDigits(u));
      LastDigit(u);
      SameDigit(u[|u| - 1], '0');
    }
  }

  lemma {:induction false} SameFractionText(t: string, u: string)
    requires NoTrailingZero(t) && NoTrailingZero(u)
    requires ParseDigits(t) * Pow10(|u|) == ParseDigits(u) * Pow10(|t|)
    ensures t == u
  {
    NotLonger(t, u);
    NotLonger(u, t);
    CancelFactor(ParseDigits(t), ParseDigits(u), Pow10(|t|));
    SameDigits(t, u);
  }

  // ----- against the reader -----

  lemma WholeFromReal(strike: nat, n: nat)
    requires strike as real / 10000.0 == n as real
    ensures strike == 10000 * n
  {
    assert strike as real == (10000 * n) as real;
  }

  lemma PartsFromReal(strike: nat, w: nat, t: nat, p: nat)
    requires p > 0 && strike as real / 10000.0 == w as real + t as real / p as real
    ensures (strike - 10000 * w) * p == 10000 * t
  {
    var x := t as real / p as real;
    assert x * p as real == t as real;
    assert (strike - 10000 * w) as real == 10000.0 * x;
    assert ((strike - 10000 * w) * p) as real == (strike - 10000 * w) as real * p as real;
    assert 10000.0 * x * p as real == 10000.0 * (x * p as real);
  }

  lemma Between(f: int, p: int)
    requires 0 < f * p < 10000 * p && p > 0
    ensures 0 < f < 10000
  {
    if f <= 0 {
      AtMost(f, 0, p);
    } else if f >= 10000 {
      AtMost(10000, f, p);
    }
  }

  lemma AtMost(x: int, y: int, p: int)
    requires x <= y && p > 0
    ensures x * p <= y * p
  {
  }

  lemma FractionOf(strike: nat, w: nat, t: nat, p: nat)
    requires p > 0 && (strike - 10000 * w) * p == 10000 * t && 0 < t < p
    ensures strike / 10000 == w && 0 < strike % 10000 == strike - 10000 * w
  {
    var f := strike - 10000 * w;
    Between(f, p);
  }

  lemma CrossFractions(f: nat, t: nat, p: nat, u: nat, q: nat)
    requires f * p == 10000 * t && u * 10000 == f * q
    ensures t * q == u * p
  {
    assert 10000 * (t * q) == (10000 * t) * q == f * p * q;
    assert 10000 * (u * p) == (u * 10000) * p == f * q * p;
  }

  lemma {:induction false} PointText(strike: nat, w: string, t: string)
    requires NoLeadingZero(w) && NoTrailingZero(t) && PointValue(w, t) == strike as real / 10000.0
    ensures w + "." + t == FormatStrike(strike)
  {
    LastDigit(t);
    FitsWidth(t);
    if ParseDigits(t) == 0 { SameDigit(t[|t| - 1], '0'); }
    PartsFromReal(strike, ParseDigits(w), ParseDigits(t), Pow10(|t|));
    FractionOf(strike, ParseDigits(w), ParseDigits(t), Pow10(|t|));
    PrintsBack(w);
    SameFractionOfStrike(strike % 10000, t);
  }

  lemma {:induction false} SameFractionOfStrike(f: nat, t: string)
    requires 0 < f < 10000 && NoTrailingZero(t) && f * Pow10(|t|) == 10000 * ParseDigits(t)
    ensures f < Pow10(4) && FractionDigits(f, 4) == t
  {
    assert Pow10(4) == 10000;
    var u := FractionDigits(f, 4);
    FractionValue(f, 4);
    PrintsNoTrailingZero(f, 4);
    CrossFractions(f, ParseDigits(t), Pow10(|t|), ParseDigits(u), Pow10(|u|));
    SameFractionText(t, u);
  }

  lemma {:induction false} WholeIsFormatted(strike: nat, s: string)
    requires NoLeadingZero(s) && ParseDigits(s) as real == strike as real / 10000.0
    ensures s == FormatStrike(strike)
  {
    WholeFromReal(strike, ParseDigits(s));
    PrintsBack(s);
  }

  lemma {:induction false} PointIsFormatted(strike: nat, w: string, t: string)
    requires NoLeadingZero(w) && NoTrailingZero(t)
    requires AllNumber(w + "." + t) && ParseFloat(w + "." + t) == Some(strike as real / 10000.0)
    ensures w + "." + t == FormatStrike(strike)
  {
    FloatReads(w, t);
    PointText(strike, w, t);
  }

  lemma {:induction false} PlainIsFormatted(strike: nat, s: string)
    requires AllNumber(s) && Plain(s) && ParseFloat(s) == Some(strike as real / 10000.0)
    ensures s == FormatStrike(strike)
  {
    if NoLeadingZero(s) {
      WholeIsFormatted(strike, s);
    } else {
      var i :| 0 <= i < |s| && s[i] == '.' && NoLeadingZero(s[..i]) && NoTrailingZero(s[i + 1..]);
      assert s == s[..i] + "." + s[i + 1..];
      PointIsFormatted(strike, s[..i], s[i + 1..]);
    }
  }

  /** The builder's text of a strike is the only plain text that `float` reads as it. */
  lemma {:induction false} OnlyOneText(strike: nat, s: string)
    requires AllNumber(s)
    ensures s == FormatStrike(strike) <==> Plain(s) && ParseFloat(s) == Some(strike as real / 10000.0)
  {
    StrikeReads(strike);
    StrikeIsPlain(strike);
    if Plain(s) && ParseFloat(s) == Some(strike as real / 10000.0) {
      PlainIsFormatted(strike, s);
    }
  }
}
