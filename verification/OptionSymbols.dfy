/** The option symbol builder, BASE + DDMMMYY + strike + CE or PE, and the three readers of its output. */
module OptionSymbols {
  import opened Rows
  import opened Digits

  datatype Date = Date(year: int, month: int, day: int)
  datatype OptionType = CE | PE

  const MONTHS := ["JAN", "FEB", "MAR", "APR", "MAY", "JUN", "JUL", "AUG", "SEP", "OCT", "NOV", "DEC"]

  function DaysIn(year: int, month: int): int {
    if month == 2 then (if year % 4 == 0 && (year % 100 != 0 || year % 400 == 0) then 29 else 28)
    else if month == 4 || month == 6 || month == 9 || month == 11 then 30 else 31
  }

  predicate ValidDate(d: Date) {
    1 <= d.month <= 12 && 1 <= d.day <= DaysIn(d.year, d.month)
  }

  /** The dates a two-digit year can name. */
  predicate Datable(d: Date) { ValidDate(d) && 2000 <= d.year < 2100 }

  function MonthName(m: int): (name: string)
    requires 1 <= m <= 12
    ensures |name| == 3 && AllUpper(name)
  {
    MONTHS[m - 1]
  }

  /** The month map: 0 when the three letters are no month. */
  function MonthNumber(name: string): (m: int)
    ensures 0 <= m <= 12
    ensures m > 0 ==> MonthName(m) == name
  {
    if name == "JAN" then 1 else if name == "FEB" then 2 else if name == "MAR" then 3
    else if name == "APR" then 4 else if name == "MAY" then 5 else if name == "JUN" then 6
    else if name == "JUL" then 7 else if name == "AUG" then 8 else if name == "SEP" then 9
    else if name == "OCT" then 10 else if name == "NOV" then 11 else if name == "DEC" then 12 else 0
  }

  function TwoDigits(n: int): (s: string)
    requires 0 <= n < 100
    ensures |s| == 2 && AllDigits(s)
  {
    [DigitChar(n / 10), DigitChar(n % 10)]
  }

  /** DDMMMYY. */
  function DateCode(d: Date): (s: string)
    requires Datable(d)
    ensures |s| == 7
  {
    TwoDigits(d.day) + MonthName(d.month) + TwoDigits(d.year - 2000)
  }

  function Pow10(k: nat): (p: nat)
    ensures p > 0
  {
    if k == 0 then 1 else 10 * Pow10(k - 1)
  }

  /** f / 10^width in decimal after the point, without trailing zeros. */
  function FractionDigits(f: nat, width: nat): (s: string)
    requires 0 < f < Pow10(width)
    ensures s != "" && AllDigits(s)
    decreases width
  {
    if f % 10 == 0 then FractionDigits(f / 10, width - 1) else Padded(f, width)
  }

  function Padded(f: nat, width: nat): (s: string)
    requires f < Pow10(width)
    ensures |s| == width && AllDigits(s)
    decreases width
  {
    if width == 0 then "" else Padded(f / 10, width - 1) + [DigitChar(f % 10)]
  }

  /** A strike, counted in 1e-4: an integer without a point, any other as the shortest decimal. */
  function FormatStrike(strike: nat): (s: string) {
    if strike % 10000 == 0 then PrintNat(strike / 10000)
    else assert Pow10(4) == 10000; PrintNat(strike / 10000) + "." + FractionDigits(strike % 10000, 4)
  }

  function TypeCode(t: OptionType): string { if t == CE then "CE" else "PE" }

  function Build(base: string, d: Date, strike: nat, t: OptionType): (s: string)
    requires Datable(d)
  {
    base + Tail(d, strike, t)
  }

  function Tail(d: Date, strike: nat, t: OptionType): (s: string)
    requires Datable(d)
  {
    DateCode(d) + FormatStrike(strike) + TypeCode(t)
  }

  // ---------------------------------------------------------------- reading

  /** Two digits, three capitals, two digits at position i. */
  predicate DateAt(s: string, i: int) {
    && 0 <= i && i + 7 <= |s|
    && IsDigit(s[i]) && IsDigit(s[i + 1])
    && IsUpper(s[i + 2]) && IsUpper(s[i + 3]) && IsUpper(s[i + 4])
    && IsDigit(s[i + 5]) && IsDigit(s[i + 6])
  }

  /** The date written at i; None for an unknown month or a day the month lacks. */
  function ReadDate(s: string, i: int): (d: Option<Date>)
    requires DateAt(s, i)
    ensures d.Some? ==> Datable(d.value) && MonthName(d.value.month) == s[i + 2..i + 5]
  {
    var d := Date(2000 + ParseTwo(s[i + 5], s[i + 6]), MonthNumber(s[i + 2..i + 5]), ParseTwo(s[i], s[i + 1]));
    if ValidDate(d) then Some(d) else None
  }

  function ParseTwo(a: char, b: char): (n: int)
    requires IsDigit(a) && IsDigit(b)
    ensures 0 <= n < 100
  {
    10 * DigitValue(a) + DigitValue(b)
  }

  /** The leftmost date pattern at or after i. */
  function FindDate(s: string, i: nat): (r: Option<nat>)
    ensures r.Some? ==> i <= r.value && DateAt(s, r.value) && forall j :: i <= j < r.value ==> !DateAt(s, j)
    ensures r.None? ==> forall j :: i <= j ==> !DateAt(s, j)
    decreases |s| - i
  {
    if i + 7 > |s| then None else if DateAt(s, i) then Some(i) else FindDate(s, i + 1)
  }

  predicate IsFno(exchange: string) {
    exchange in ["NFO", "BFO", "MCX", "CDS", "BCD", "NCDEX"]
  }

  function ParseExpiry(symbol: string, exchange: string): Option<Date> {
    if !IsFno(exchange) then None
    else match FindDate(symbol, 0) case None => None case Some(i) => ReadDate(symbol, i)
  }

  predicate IsNumberChar(c: char) { IsDigit(c) || c == '.' }

  predicate AllNumber(s: string) { forall j :: 0 <= j < |s| ==> IsNumberChar(s[j]) }

  /** How far the capitals run from i. */
  function UpperEnd(s: string, i: nat): (e: nat)
    requires i <= |s|
    ensures i <= e <= |s| && (forall j :: i <= j < e ==> IsUpper(s[j])) && (e < |s| ==> !IsUpper(s[e]))
    decreases |s| - i
  {
    if i < |s| && IsUpper(s[i]) then UpperEnd(s, i + 1) else i
  }

  /** How far digits and points run from i. */
  function NumberEnd(s: string, i: nat): (e: nat)
    requires i <= |s|
    ensures i <= e <= |s| && (forall j :: i <= j < e ==> IsNumberChar(s[j])) && (e < |s| ==> !IsNumberChar(s[e]))
    decreases |s| - i
  {
    if i < |s| && IsNumberChar(s[i]) then NumberEnd(s, i + 1) else i
  }

  function FirstDot(s: string): (k: nat)
    ensures k <= |s| && (k < |s| ==> s[k] == '.') && forall j :: 0 <= j < k ==> s[j] != '.'
  {
    if s == "" || s[0] == '.' then 0 else 1 + FirstDot(s[1..])
  }

  /** `float` on digits and points: at most one point and at least one digit. */
  function ParseFloat(s: string): Option<real>
    requires AllNumber(s)
  {
    if AllDigits(s) then (if s == "" then None else Some(ParseDigits(s) as real))
    else
      var k := FirstDot(s);
      assert forall j :: 0 <= j < k ==> IsNumberChar(s[j]) && s[j] != '.';
      if k == |s| || !AllDigits(s[k + 1..]) || |s| == 1 then None
      else Some(PointValue(s[..k], s[k + 1..]))
  }

  function PointValue(w: string, t: string): real
    requires AllDigits(w) && AllDigits(t)
  {
    ParseDigits(w) as real + ParseDigits(t) as real / Pow10(|t|) as real
  }

  datatype ParsedOption = Parsed(base: string, date: Date, minutes: int, strike: real, optionType: OptionType)

  /** Minutes past midnight at which an exchange's options expire, unless the caller says otherwise. */
  function ExpiryMinutes(exchange: string): int {
    var e := Upper(exchange);
    if e == "CDS" then 12 * 60 + 30 else if e == "MCX" then 23 * 60 + 30 else 15 * 60 + 30
  }

  function ParseOption(symbol: string, exchange: string): (r: Option<ParsedOption>)
    ensures r.Some? ==> r.value.base != "" && AllUpper(r.value.base)
  {
    ParseCapitals(Upper(symbol), ExpiryMinutes(exchange))
  }

  function ParseCapitals(s: string, minutes: int): (r: Option<ParsedOption>)
    ensures r.Some? ==> r.value.base != "" && AllUpper(r.value.base)
  {
    var k := UpperEnd(s, 0);
    if k == 0 || !DateAt(s, k) then None
    else
      var e := NumberEnd(s, k + 7);
      if e == k + 7 || e + 2 > |s| || (s[e..e + 2] != "CE" && s[e..e + 2] != "PE") then None
      else
        var d, strike := ReadDate(s, k), ParseFloat(s[k + 7..e]);
        if d.None? || strike.None? then None
        else Some(Parsed(s[..k], d.value, minutes, strike.value, if s[e..e + 2] == "CE" then CE else PE))
  }

  /** Every way the pattern letters, date, number, type could fall on s: the runs above are the only one. */
  lemma OnlyOneReading(s: string, k: nat, e: nat)
    requires 0 < k && DateAt(s, k) && AllUpper(s[..k])
    requires k + 7 < e && e + 2 <= |s| && (s[e..e + 2] == "CE" || s[e..e + 2] == "PE")
    requires forall j :: k + 7 <= j < e ==> IsNumberChar(s[j])
    ensures k == UpperEnd(s, 0) && e == NumberEnd(s, k + 7)
  {
    var u, n := UpperEnd(s, 0), NumberEnd(s, k + 7);
    assert forall j :: 0 <= j < k ==> IsUpper(s[..k][j]);
    assert s[e] == s[e..e + 2][0];
  }

  predicate IsAlnum(c: char) { IsUpper(c) || IsDigit(c) }

  predicate PrefixEndsAt(s: string, p: nat) {
    && 1 <= p && DateAt(s, p) && p + 7 < |s| && IsDigit(s[p + 7])
    && forall j :: 0 <= j < p ==> IsAlnum(s[j])
  }

  /** The lazily matched prefix: the shortest one that works. */
  function FindPrefix(s: string, p: nat): (r: Option<nat>)
    ensures r.Some? ==> p <= r.value && PrefixEndsAt(s, r.value) && forall j :: p <= j < r.value ==> !PrefixEndsAt(s, j)
    ensures r.None? ==> forall j :: p <= j ==> !PrefixEndsAt(s, j)
    decreases |s| - p
  {
    if p + 7 > |s| then None else if PrefixEndsAt(s, p) then Some(p) else FindPrefix(s, p + 1)
  }

  function Underlying(symbol: string): Option<string> {
    var s := Upper(symbol);
    match FindPrefix(s, 1) case None => None case Some(p) => Some(s[..p])
  }

  // ---------------------------------------------------------------- numbers back from their text

  lemma {:induction false} ParsePadded(f: nat, width: nat)
    requires f < Pow10(width)
    ensures ParseDigits(Padded(f, width)) == f
    decreases width
  {
    if width > 0 {
      ParsePadded(f / 10, width - 1);
      var s := Padded(f, width);
      assert s[..|s| - 1] == Padded(f / 10, width - 1);
    }
  }

  lemma TimesTen(a: int, b: int, c: int, d: int)
    requires a * b == c * d
    ensures a * (10 * b) == (10 * c) * d
  {
  }

  /** The digits after the point, read over their own power of ten, are the fraction. */
  lemma {:induction false} FractionValue(f: nat, width: nat)
    requires 0 < f < Pow10(width)
    ensures ParseDigits(FractionDigits(f, width)) * Pow10(width) == f * Pow10(|FractionDigits(f, width)|)
    decreases width
  {
    if f % 10 == 0 {
      FractionValue(f / 10, width - 1);
      TimesTen(ParseDigits(FractionDigits(f, width)), Pow10(width - 1), f / 10, Pow10(|FractionDigits(f, width)|));
    } else {
      ParsePadded(f, width);
    }
  }

  lemma SameFraction(a: int, b: int, c: int, d: int)
    requires b > 0 && d > 0 && a * d == c * b
    ensures a as real / b as real == c as real / d as real
  {
    var x, y := a as real / b as real, c as real / d as real;
    assert x * b as real == a as real && y * d as real == c as real;
    assert (a * d) as real == a as real * d as real && (c * b) as real == c as real * b as real;
    assert x * b as real * d as real == y * d as real * b as real;
    SameFactor(x, y, b as real, d as real);
  }

  lemma SameFactor(x: real, y: real, b: real, d: real)
    requires b > 0.0 && d > 0.0 && x * b * d == y * d * b
    ensures x == y
  {
    assert (x - y) * (b * d) == 0.0;
    assert b * d > 0.0;
  }

  lemma FirstDotAt(w: string, t: string)
    requires AllDigits(w)
    ensures FirstDot(w + "." + t) == |w|
  {
    var s := w + "." + t;
    assert s[|w|] == '.';
    assert forall j :: 0 <= j < |w| ==> s[j] == w[j];
  }

  lemma FloatReads(w: string, t: string)
    requires w != "" && AllDigits(w) && t != "" && AllDigits(t)
    ensures var s := w + "." + t;
            && AllNumber(s)
            && ParseFloat(s) == Some(PointValue(w, t))
  {
    var s := w + "." + t;
    FirstDotAt(w, t);
    assert !IsDigit(s[|w|]);
    assert s[..|w|] == w && s[|w| + 1..] == t;
  }

  lemma WholeStrikeReads(whole: nat)
    ensures AllNumber(PrintNat(whole)) && ParseFloat(PrintNat(whole)) == Some(whole as real)
  {
    ParsePrint(whole);
    assert AllDigits(PrintNat(whole));
  }

  lemma PointValueIs(w: string, t: string, whole: nat, f: nat)
    requires AllDigits(w) && AllDigits(t) && ParseDigits(w) == whole
    requires ParseDigits(t) * 10000 == f * Pow10(|t|)
    ensures PointValue(w, t) == whole as real + f as real / 10000.0
  {
    SameFraction(ParseDigits(t), Pow10(|t|), f, 10000);
  }

  lemma PointStrikeReads(whole: nat, f: nat)
    requires 0 < f < 10000 == Pow10(4)
    ensures var s := PrintNat(whole) + "." + FractionDigits(f, 4);
            AllNumber(s) && ParseFloat(s) == Some(whole as real + f as real / 10000.0)
  {
    var w, t := PrintNat(whole), FractionDigits(f, 4);
    PointValueIs(w, t, whole, f) by {
      ParsePrint(whole);
      FractionValue(f, 4);
    }
    FloatReads(w, t);
  }

  /** `float` reads a printed strike back exactly, with or without a fraction. */
  lemma StrikeReads(strike: nat)
    ensures var s := FormatStrike(strike);
            AllNumber(s) && s != "" && IsDigit(s[0]) && ParseFloat(s) == Some(strike as real / 10000.0)
  {
    var whole, f := strike / 10000, strike % 10000;
    assert IsDigit(PrintNat(whole)[0]);
    WholePlus(strike, whole, f);
    if f == 0 {
      WholeStrikeReads(whole);
    } else {
      assert Pow10(4) == 10000;
      PointStrikeReads(whole, f);
    }
  }

  lemma WholePlus(n: int, whole: int, f: int)
    requires n == 10000 * whole + f
    ensures n as real / 10000.0 == whole as real + f as real / 10000.0
  {
  }

  // ---------------------------------------------------------------- the layout of a built symbol

  lemma CodeShape(d: Date)
    requires Datable(d)
    ensures var c := DateCode(d);
            && IsDigit(c[0]) && IsDigit(c[1]) && ParseTwo(c[0], c[1]) == d.day
            && c[2..5] == MonthName(d.month) && IsUpper(c[2]) && IsUpper(c[3]) && IsUpper(c[4])
            && IsDigit(c[5]) && IsDigit(c[6]) && ParseTwo(c[5], c[6]) == d.year - 2000
  {
    var c, name := DateCode(d), MonthName(d.month);
    assert c[2] == name[0] && c[3] == name[1] && c[4] == name[2];
    assert c[2..5] == name;
  }

  lemma MonthReads(m: int)
    requires 1 <= m <= 12
    ensures MonthNumber(MonthName(m)) == m
  {
  }

  lemma DateReads(s: string, i: nat, d: Date)
    requires Datable(d) && i + 7 <= |s| && s[i..i + 7] == DateCode(d)
    ensures DateAt(s, i) && ReadDate(s, i) == Some(d)
  {
    var c := DateCode(d);
    CodeShape(d);
    MonthReads(d.month);
    Window(s, i, c);
    assert s[i + 2..i + 5] == c[2..5];
  }

  lemma Window(s: string, i: nat, c: string)
    requires |c| == 7 && i + 7 <= |s| && s[i..i + 7] == c
    ensures s[i] == c[0] && s[i + 1] == c[1] && s[i + 2] == c[2] && s[i + 3] == c[3]
    ensures s[i + 4] == c[4] && s[i + 5] == c[5] && s[i + 6] == c[6]
    ensures s[i + 2..i + 5] == c[2..5]
  {
  }

  lemma FourParts(a: string, b: string, c: string, d: string)
    ensures var s, i, j, k := a + (b + c + d), |a|, |a| + |b|, |a| + |b| + |c|;
            s[..i] == a && s[i..j] == b && s[j..k] == c && s[k..] == d && |s| == k + |d|
  {
  }

  lemma Layout(base: string, d: Date, strike: nat, t: OptionType)
    requires Datable(d)
    ensures var s, b, e := Build(base, d, strike, t), |base|, |base| + 7 + |FormatStrike(strike)|;
            && |s| == e + 2 && s[..b] == base && s[b..b + 7] == DateCode(d)
            && s[b + 7..e] == FormatStrike(strike) && s[e..] == TypeCode(t)
            && DateAt(s, b) && ReadDate(s, b) == Some(d)
  {
    FourParts(base, DateCode(d), FormatStrike(strike), TypeCode(t));
    DateReads(Build(base, d, strike, t), |base|, d);
  }

  // ---------------------------------------------------------------- what each reader recovers

  predicate AllAlnum(s: string) { forall j :: 0 <= j < |s| ==> IsAlnum(s[j]) }

  lemma TailIsUpper(d: Date, strike: nat, t: OptionType)
    requires Datable(d)
    ensures Upper(Tail(d, strike, t)) == Tail(d, strike, t)
  {
    var tail, c, f := Tail(d, strike, t), DateCode(d), FormatStrike(strike);
    CodeShape(d);
    StrikeReads(strike);
    forall i | 0 <= i < |tail| ensures UpperChar(tail[i]) == tail[i] {
      assert tail[i] == if i < 7 then c[i] else if i < 7 + |f| then f[i - 7] else TypeCode(t)[i - 7 - |f|];
    }
  }

  lemma UpperConcat(a: string, b: string)
    ensures Upper(a + b) == Upper(a) + Upper(b)
  {
  }

  lemma UpperBuild(base: string, d: Date, strike: nat, t: OptionType)
    requires Datable(d)
    ensures Upper(Build(base, d, strike, t)) == Build(Upper(base), d, strike, t)
  {
    UpperConcat(base, Tail(d, strike, t));
    TailIsUpper(d, strike, t);
  }

  /** The option parser returns the builder's inputs exactly for bases made of letters only. */
  lemma OptionReads(base: string, d: Date, strike: nat, t: OptionType, exchange: string)
    requires Datable(d)
    ensures ParseOption(Build(base, d, strike, t), exchange)
              == Some(Parsed(base, d, ExpiryMinutes(exchange), strike as real / 10000.0, t))
            <==> base != "" && AllUpper(base)
  {
    if base != "" && AllUpper(base) {
      LettersRead(base, d, strike, t, exchange);
    }
  }

  /** The month codes, the exchanges with expiries, and the minute of the day at which their options expire. */
  lemma CodesAndHours(exchange: string)
    ensures MonthName(1) == "JAN" && MonthName(2) == "FEB" && MonthName(3) == "MAR" && MonthName(4) == "APR"
    ensures MonthName(5) == "MAY" && MonthName(6) == "JUN" && MonthName(7) == "JUL" && MonthName(8) == "AUG"
    ensures MonthName(9) == "SEP" && MonthName(10) == "OCT" && MonthName(11) == "NOV" && MonthName(12) == "DEC"
    ensures IsFno(exchange) <==> exchange in {"NFO", "BFO", "MCX", "CDS", "BCD", "NCDEX"}
    ensures ExpiryMinutes("CDS") == 750 && ExpiryMinutes("MCX") == 1410
    ensures Upper(exchange) !in {"CDS", "MCX"} ==> ExpiryMinutes(exchange) == 930
  {
    UpperIsStable("CDS");
    UpperIsStable("MCX");
  }

  /** A string that falls into letters, date, number and type parses as those parts. */
  lemma PartsRead(s: string, k: nat, e: nat, minutes: int)
    requires 0 < k && DateAt(s, k) && AllUpper(s[..k])
    requires k + 7 < e && e + 2 <= |s| && (s[e..e + 2] == "CE" || s[e..e + 2] == "PE")
    requires AllNumber(s[k + 7..e])
    ensures ParseCapitals(s, minutes) ==
            (var d, strike := ReadDate(s, k), ParseFloat(s[k + 7..e]);
             if d.None? || strike.None? then None
             else Some(Parsed(s[..k], d.value, minutes, strike.value, if s[e..e + 2] == "CE" then CE else PE)))
  {
    NumberChars(s, k + 7, e);
    OnlyOneReading(s, k, e);
  }

  lemma SlicesRead(s: string, base: string, d: Date, f: string, v: real, code: string, minutes: int)
    requires base != "" && AllUpper(base) && f != "" && AllNumber(f) && ParseFloat(f) == Some(v)
    requires code == "CE" || code == "PE"
    requires var b, e := |base|, |base| + 7 + |f|;
             && |s| == e + 2 && s[..b] == base && s[b + 7..e] == f && s[e..] == code
             && DateAt(s, b) && ReadDate(s, b) == Some(d)
    ensures ParseCapitals(s, minutes) == Some(Parsed(base, d, minutes, v, if code == "CE" then CE else PE))
  {
    var b, e := |base|, |base| + 7 + |f|;
    assert s[e..e + 2] == s[e..];
    PartsRead(s, b, e, minutes);
  }

  lemma LayoutReads(base: string, d: Date, f: string, v: real, t: OptionType, minutes: int)
    requires Datable(d) && base != "" && AllUpper(base) && f != "" && AllNumber(f) && ParseFloat(f) == Some(v)
    ensures ParseCapitals(base + (DateCode(d) + f + TypeCode(t)), minutes) == Some(Parsed(base, d, minutes, v, t))
  {
    var c, code := DateCode(d), TypeCode(t);
    var s := base + (c + f + code);
    FourParts(base, c, f, code);
    DateReads(s, |base|, d);
    SlicesRead(s, base, d, f, v, code, minutes);
  }

  lemma LettersRead(base: string, d: Date, strike: nat, t: OptionType, exchange: string)
    requires Datable(d) && base != "" && AllUpper(base)
    ensures ParseOption(Build(base, d, strike, t), exchange)
              == Some(Parsed(base, d, ExpiryMinutes(exchange), strike as real / 10000.0, t))
  {
    assert Upper(Build(base, d, strike, t)) == Build(base, d, strike, t) by {
      UpperIsStable(base);
      UpperBuild(base, d, strike, t);
    }
    StrikeReads(strike);
    LayoutReads(base, d, FormatStrike(strike), strike as real / 10000.0, t, ExpiryMinutes(exchange));
  }

  lemma NumberChars(s: string, i: nat, e: nat)
    requires i <= e <= |s|
    requires AllNumber(s[i..e])
    ensures forall j :: i <= j < e ==> IsNumberChar(s[j])
  {
    forall j | i <= j < e ensures IsNumberChar(s[j]) {
      assert s[j] == s[i..e][j - i];
    }
  }

  /** A place in the base where a date pattern begins that the real date completes. */
  predicate Clouded(base: string, i: int) {
    && 0 <= i && i + 5 <= |base|
    && IsDigit(base[i]) && IsDigit(base[i + 1])
    && IsUpper(base[i + 2]) && IsUpper(base[i + 3]) && IsUpper(base[i + 4])
    && (i + 5 < |base| ==> IsDigit(base[i + 5]))
    && (i + 6 < |base| ==> IsDigit(base[i + 6]))
  }

  lemma PatternInBase(base: string, d: Date, strike: nat, t: OptionType, i: nat)
    requires Datable(d) && i < |base|
    ensures DateAt(Build(base, d, strike, t), i) <==> Clouded(base, i)
  {
    var s, b, c := Build(base, d, strike, t), |base|, DateCode(d);
    Layout(base, d, strike, t);
    CodeShape(d);
    assert forall j :: 0 <= j < b ==> s[j] == base[j];
    Window(s, b, c);
  }

  /** The expiry parser returns the builder's date, whatever the date, exactly when the base is not clouded. */
  lemma ExpiryReads(base: string, exchange: string)
    requires IsFno(exchange)
    ensures (forall d, strike, t | Datable(d) :: ParseExpiry(Build(base, d, strike, t), exchange) == Some(d))
            <==> !exists i :: Clouded(base, i)
  {
    if i :| Clouded(base, i) {
      var d := CloudedMisreads(base, i, exchange);
      assert ParseExpiry(Build(base, d, 0, CE), exchange) != Some(d);
    } else {
      forall d, strike, t | Datable(d) ensures ParseExpiry(Build(base, d, strike, t), exchange) == Some(d) {
        ClearReads(base, d, strike, t, exchange);
      }
    }
  }

  lemma ClearReads(base: string, d: Date, strike: nat, t: OptionType, exchange: string)
    requires Datable(d) && IsFno(exchange) && !exists i :: Clouded(base, i)
    ensures ParseExpiry(Build(base, d, strike, t), exchange) == Some(d)
  {
    Layout(base, d, strike, t);
    var at := FindDate(Build(base, d, strike, t), 0);
    if at.Some? && at.value < |base| {
      PatternInBase(base, d, strike, t, at.value);
    }
  }

  /** Whatever the real date, the month read from a clouded base is the one in its first clouded place. */
  lemma MonthFromBase(base: string, i: int, d: Date, exchange: string) returns (j: nat)
    requires Clouded(base, i) && Datable(d) && IsFno(exchange)
    ensures Clouded(base, j) && forall k :: 0 <= k < j ==> !Clouded(base, k)
    ensures var r := ParseExpiry(Build(base, d, 0, CE), exchange);
            r.Some? ==> MonthName(r.value.month) == base[j + 2..j + 5]
  {
    var s := Build(base, d, 0, CE);
    Layout(base, d, 0, CE);
    PatternInBase(base, d, 0, CE, i);
    j := FindDate(s, 0).value;
    forall k | 0 <= k <= j ensures Clouded(base, k) <==> k == j {
      PatternInBase(base, d, 0, CE, k);
    }
    assert s[..|base|][j + 2..j + 5] == s[j + 2..j + 5];
  }

  lemma CloudedMisreads(base: string, i: int, exchange: string) returns (d: Date)
    requires Clouded(base, i) && IsFno(exchange)
    ensures Datable(d) && ParseExpiry(Build(base, d, 0, CE), exchange) != Some(d)
  {
    var jan, feb := Date(2026, 1, 1), Date(2026, 2, 1);
    var j := MonthFromBase(base, i, jan, exchange);
    var k := MonthFromBase(base, i, feb, exchange);
    assert j == k;
    assert MonthName(1)[0] == 'J' && MonthName(2)[0] == 'F';
    d := if base[j + 2..j + 5] == MonthName(1) then feb else jan;
  }

  /** A place in the base where the prefix pattern already ends: a clouded place with a digit behind it. */
  predicate Cut(base: string, i: int) {
    1 <= i && Clouded(base, i) && i + 6 <= |base| && (i + 7 < |base| ==> IsDigit(base[i + 7]))
  }

  lemma PrefixInBase(base: string, d: Date, strike: nat, t: OptionType, i: nat)
    requires Datable(d) && AllAlnum(base) && i < |base|
    ensures PrefixEndsAt(Build(base, d, strike, t), i) <==> Cut(base, i)
  {
    var s, b, c := Build(base, d, strike, t), |base|, DateCode(d);
    Layout(base, d, strike, t);
    PatternInBase(base, d, strike, t, i);
    CodeShape(d);
    assert forall j :: 0 <= j < b ==> s[j] == base[j];
    Window(s, b, c);
  }

  lemma PrefixAtBase(base: string, d: Date, strike: nat, t: OptionType)
    requires Datable(d) && AllAlnum(base) && base != ""
    ensures PrefixEndsAt(Build(base, d, strike, t), |base|)
  {
    var s, b, f := Build(base, d, strike, t), |base|, FormatStrike(strike);
    Layout(base, d, strike, t);
    StrikeReads(strike);
    assert forall j :: 0 <= j < b ==> s[j] == base[j];
    assert s[b + 7] == s[b + 7..b + 7 + |f|][0];
  }

  /** The underlying parser returns the base exactly for letters and digits with no cut. */
  lemma UnderlyingReads(base: string, d: Date, strike: nat, t: OptionType)
    requires Datable(d)
    ensures Underlying(Build(base, d, strike, t)) == Some(base)
            <==> base != "" && AllAlnum(base) && !exists i :: Cut(base, i)
  {
    UpperBuild(base, d, strike, t);
    if AllAlnum(base) {
      UpperIsStable(base);
      AlnumPrefix(base, d, strike, t);
      Layout(base, d, strike, t);
    } else {
      NotAlnum(Build(Upper(base), d, strike, t), base);
    }
  }

  /** Of a base of letters and digits, the shortest prefix is the base unless there is a cut before it. */
  lemma AlnumPrefix(base: string, d: Date, strike: nat, t: OptionType)
    requires Datable(d) && AllAlnum(base)
    ensures FindPrefix(Build(base, d, strike, t), 1) == Some(|base|) <==> base != "" && !exists i :: Cut(base, i)
  {
    var s := Build(base, d, strike, t);
    if base != "" {
      PrefixAtBase(base, d, strike, t);
    }
    forall i | 0 <= i < |base| ensures PrefixEndsAt(s, i) <==> Cut(base, i) {
      PrefixInBase(base, d, strike, t, i);
    }
    if i :| Cut(base, i) {
      assert PrefixEndsAt(s, i);
    }
  }

  lemma NotAlnum(s: string, base: string)
    requires !AllAlnum(base)
    ensures var at := FindPrefix(s, 1); at.Some? ==> s[..at.value] != base
  {
    var at := FindPrefix(s, 1);
    var j :| 0 <= j < |base| && !IsAlnum(base[j]);
    assert at.Some? && j < at.value ==> s[..at.value][j] == s[j];
  }

  /** A ticker the repository itself names: no date is ever read from its option symbols, though the
      underlying is. */
  lemma DigitsInTickerHideExpiry(d: Date, strike: nat, t: OptionType)
    requires Datable(d)
    ensures ParseExpiry(Build("360ONE", d, strike, t), "NFO") == None
    ensures Underlying(Build("360ONE", d, strike, t)) == Some("360ONE")
  {
    OneIsClouded();
    UnderlyingReads("360ONE", d, strike, t);
    SecondPlaceClouded("360ONE", d, strike, t);
  }

  lemma SecondPlaceClouded(base: string, d: Date, strike: nat, t: OptionType)
    requires Datable(d) && |base| == 6 && Clouded(base, 1) && !Clouded(base, 0) && MonthNumber(base[3..6]) == 0
    ensures ParseExpiry(Build(base, d, strike, t), "NFO") == None
  {
    var s := Build(base, d, strike, t);
    Layout(base, d, strike, t);
    PatternInBase(base, d, strike, t, 0);
    PatternInBase(base, d, strike, t, 1);
    FoundAt(s, 1);
    assert s[3..6] == s[..6][3..6];
  }

  lemma FoundAt(s: string, i: nat)
    requires DateAt(s, i) && forall j :: 0 <= j < i ==> !DateAt(s, j)
    ensures FindDate(s, 0) == Some(i)
  {
  }

  lemma OneIsClouded()
    ensures forall i :: Clouded("360ONE", i) <==> i == 1
    ensures forall i :: !Cut("360ONE", i)
    ensures AllAlnum("360ONE") && "360ONE"[3..6] == "ONE"
  {
  }

  /** For a base of letters, all three readers recover what was built. */
  lemma LettersRoundTrip(base: string, d: Date, strike: nat, t: OptionType, exchange: string)
    requires Datable(d) && base != "" && AllUpper(base) && IsFno(exchange)
    ensures ParseOption(Build(base, d, strike, t), exchange)
              == Some(Parsed(base, d, ExpiryMinutes(exchange), strike as real / 10000.0, t))
    ensures ParseExpiry(Build(base, d, strike, t), exchange) == Some(d)
    ensures Underlying(Build(base, d, strike, t)) == Some(base)
  {
    assert forall i :: Clouded(base, i) ==> IsDigit(base[i]) && IsUpper(base[i]);
    OptionReads(base, d, strike, t, exchange);
    ClearReads(base, d, strike, t, exchange);
    UnderlyingReads(base, d, strike, t);
  }
}
