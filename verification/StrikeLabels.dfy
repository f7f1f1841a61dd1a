/** ITM/ATM/OTM labels around the money, and the resolver that reads them back. */
module StrikeLabels {
  import opened Rounding
  import opened Rows
  import opened Digits

  datatype StrikeRow = StrikeRow(strike: int, ceLabel: string, peLabel: string)

  datatype Resolved = AtStrike(strike: int) | NoStrike | BadNumber

  predicate StrictlyIncreasing(s: seq<int>) {
    forall i, j :: 0 <= i < j < |s| ==> s[i] < s[j]
  }

  /** `list.index`: the first position of x. */
  function IndexOf(s: seq<int>, x: int): (i: nat)
    requires x in s
    ensures i < |s| && s[i] == x && forall j :: 0 <= j < i ==> s[j] != x
  {
    if s[0] == x then 0 else 1 + IndexOf(s[1..], x)
  }

  /** A Python slice bound: from the end when negative, clipped to the list. */
  function Bound(i: int, n: nat): (b: nat)
    ensures b <= n
  {
    if i < 0 then Max(0, n + i) else Min(i, n)
  }

  function Slice(s: seq<int>, i: int, j: int): seq<int> {
    var a, b := Bound(i, |s|), Bound(j, |s|);
    if a <= b then s[a..b] else []
  }

  /** The row of one strike: how far it is from the money, and on which side for calls and for puts. */
  function RowFor(strikes: seq<int>, atm: int, strike: int): StrikeRow
    requires atm in strikes && strike in strikes
  {
    var a, i := IndexOf(strikes, atm), IndexOf(strikes, strike);
    if strike == atm then StrikeRow(strike, "ATM", "ATM")
    else if strike < atm then StrikeRow(strike, "ITM" + PrintInt(a - i), "OTM" + PrintInt(a - i))
    else StrikeRow(strike, "OTM" + PrintInt(i - a), "ITM" + PrintInt(i - a))
  }

  function PrintInt(n: int): string {
    if n < 0 then "-" + PrintNat(-n) else PrintNat(n)
  }

  /** The window of strikes shown: all of them, or `count` on either side of the money. */
  function Window(strikes: seq<int>, atm: int, count: Option<int>): seq<int>
    requires atm in strikes
  {
    if count == None then strikes
    else
      var a := IndexOf(strikes, atm);
      Slice(strikes, Max(0, a - count.value), Min(|strikes|, a + count.value + 1))
  }

  lemma WindowInStrikes(strikes: seq<int>, atm: int, count: Option<int>)
    requires atm in strikes
    ensures AllIn(Window(strikes, atm, count), strikes)
  {
  }

  predicate AllIn(part: seq<int>, strikes: seq<int>) {
    forall i :: 0 <= i < |part| ==> part[i] in strikes
  }

  function Each<A, B>(f: A --> B, s: seq<A>): (r: seq<B>)
    requires forall i :: 0 <= i < |s| ==> f.requires(s[i])
    ensures |r| == |s| && forall i :: 0 <= i < |s| ==> r[i] == f(s[i])
  {
    if s == [] then [] else Each(f, s[..|s| - 1]) + [f(s[|s| - 1])]
  }

  function Labeller(strikes: seq<int>, atm: int): int --> StrikeRow
    requires atm in strikes
  {
    (strike: int) requires strike in strikes => RowFor(strikes, atm, strike)
  }

  lemma {:induction false} RowBelow(strikes: seq<int>, atm: int, strike: int, n: int)
    requires atm in strikes && strike in strikes && strike < atm
    requires IndexOf(strikes, atm) - IndexOf(strikes, strike) == n
    ensures RowFor(strikes, atm, strike) == StrikeRow(strike, "ITM" + PrintInt(n), "OTM" + PrintInt(n))
  {
  }

  lemma {:induction false} RowAbove(strikes: seq<int>, atm: int, strike: int, n: int)
    requires atm in strikes && strike in strikes && strike > atm
    requires IndexOf(strikes, strike) - IndexOf(strikes, atm) == n
    ensures RowFor(strikes, atm, strike) == StrikeRow(strike, "OTM" + PrintInt(n), "ITM" + PrintInt(n))
  {
  }

  /** One row of the label loop. */
  method LabelRow(strikes: seq<int>, atm: int, strike: int) returns (row: StrikeRow)
    requires atm in strikes && strike in strikes
    ensures row == RowFor(strikes, atm, strike)
  {
    var atmIdx := IndexOf(strikes, atm);
    var ceLabel, peLabel;
    if strike == atm {
      ceLabel, peLabel := "ATM", "ATM";
    } else if strike < atm {
      var n := atmIdx - IndexOf(strikes, strike);
      ceLabel, peLabel := "ITM" + PrintInt(n), "OTM" + PrintInt(n);
      RowBelow(strikes, atm, strike, n);
    } else {
      var n := IndexOf(strikes, strike) - atmIdx;
      ceLabel, peLabel := "OTM" + PrintInt(n), "ITM" + PrintInt(n);
      RowAbove(strikes, atm, strike, n);
    }
    row := StrikeRow(strike, ceLabel, peLabel);
  }

  /** The label loop. */
  method LabelSelected(strikes: seq<int>, atm: int, selected: seq<int>) returns (out: seq<StrikeRow>)
    requires atm in strikes && AllIn(selected, strikes)
    ensures out == Each(Labeller(strikes, atm), selected)
  {
    out := [];
    ghost var f := Labeller(strikes, atm);
    for i := 0 to |selected|
      invariant out == Each(f, selected[..i])
    {
      var row := LabelRow(strikes, atm, selected[i]);
      assert row == f(selected[i]);
      assert selected[..i + 1][..i] == selected[..i];
      out := out + [row];
    }
    assert selected[..|selected|] == selected;
  }

  /** Rows of the window around the money, or unlabelled rows when the money is not a listed strike. */
  method LabelStrikes(strikes: seq<int>, atm: int, count: Option<int>) returns (out: seq<StrikeRow>)
    ensures atm !in strikes ==> |out| == |strikes| && forall i :: 0 <= i < |out| ==>
            out[i] == StrikeRow(strikes[i], "", "")
    ensures atm in strikes ==>
              && AllIn(Window(strikes, atm, count), strikes)
              && out == Each(Labeller(strikes, atm), Window(strikes, atm, count))
    ensures count == None ==> |out| == |strikes| && forall i :: 0 <= i < |out| ==> out[i].strike == strikes[i]
  {
    if atm !in strikes {
      return seq(|strikes|, i requires 0 <= i < |strikes| => StrikeRow(strikes[i], "", ""));
    }
    var atmIdx := IndexOf(strikes, atm);
    var selected := strikes;
    if count.Some? {
      selected := Slice(strikes, Max(0, atmIdx - count.value), Min(|strikes|, atmIdx + count.value + 1));
    }
    assert selected == Window(strikes, atm, count);
    WindowInStrikes(strikes, atm, count);
    out := LabelSelected(strikes, atm, selected);
  }

  predicate StartsWith(s: string, prefix: string) {
    |prefix| <= |s| && s[..|prefix|] == prefix
  }

  /** Resolve a label against the full strike list. */
  function ApplyOffset(atm: int, offset: string, optionType: string, strikes: seq<int>): Resolved {
    Resolve(atm, Upper(offset), Upper(optionType) == "CE", strikes)
  }

  function Resolve(atm: int, offset: string, call: bool, strikes: seq<int>): Resolved {
    if atm !in strikes then NoStrike
    else if offset == "ATM" then AtStrike(atm)
    else if StartsWith(offset, "ITM") || StartsWith(offset, "OTM") then
      match PyInt(offset[3..])
      case None => BadNumber
      case Some(n) => Target(strikes, IndexOf(strikes, atm), n, StartsWith(offset, "ITM") == call)
    else NoStrike
  }

  /** n strikes from the money: down the list for ITM calls and OTM puts, up it for the others. */
  function Target(strikes: seq<int>, atmIdx: int, n: int, down: bool): Resolved {
    var target := if down then atmIdx - n else atmIdx + n;
    if 0 <= target < |strikes| then AtStrike(strikes[target]) else NoStrike
  }

  /** A printed distance behind either prefix reads back as that distance. */
  lemma ReadLabel(prefix: string, n: nat, atm: int, call: bool, strikes: seq<int>)
    requires prefix == "ITM" || prefix == "OTM"
    requires atm in strikes
    ensures Upper(prefix + PrintNat(n)) == prefix + PrintNat(n)
    ensures Resolve(atm, prefix + PrintNat(n), call, strikes)
              == Target(strikes, IndexOf(strikes, atm), n, (prefix == "ITM") == call)
  {
    var s := prefix + PrintNat(n);
    UpperIsStable(s);
    assert s[..3] == prefix && s[3..] == PrintNat(n);
    PyIntPrint(n);
    assert |s| > 3;
  }

  /** The same through the public entry, which upper-cases both texts first. */
  lemma OffsetReads(prefix: string, n: nat, atm: int, optionType: string, strikes: seq<int>)
    requires prefix == "ITM" || prefix == "OTM"
    requires optionType == "CE" || optionType == "PE"
    requires atm in strikes
    ensures ApplyOffset(atm, prefix + PrintNat(n), optionType, strikes)
              == Target(strikes, IndexOf(strikes, atm), n, (prefix == "ITM") == (optionType == "CE"))
  {
    UpperIsStable(optionType);
    ReadLabel(prefix, n, atm, optionType == "CE", strikes);
  }

  /** A distance that runs off either end of the list resolves to nothing; it never wraps round. */
  lemma BeyondTheList(prefix: string, n: nat, atm: int, optionType: string, strikes: seq<int>)
    requires prefix == "ITM" || prefix == "OTM"
    requires optionType == "CE" || optionType == "PE"
    requires atm in strikes
    ensures var down := (prefix == "ITM") == (optionType == "CE");
            (if down then IndexOf(strikes, atm) < n else IndexOf(strikes, atm) + n >= |strikes|) <==>
            ApplyOffset(atm, prefix + PrintNat(n), optionType, strikes) == NoStrike
  {
    OffsetReads(prefix, n, atm, optionType, strikes);
  }

  lemma AtmReads(atm: int, optionType: string, strikes: seq<int>)
    requires atm in strikes
    ensures ApplyOffset(atm, "ATM", optionType, strikes) == AtStrike(atm)
  {
    UpperIsStable("ATM");
  }

  /** The call and put labels of a row name the same distance, in the money for one and out for the other;
      and that distance is how many strikes away the row is. */
  lemma LabelsMirror(strikes: seq<int>, atm: int, strike: int)
    requires StrictlyIncreasing(strikes) && atm in strikes && strike in strikes
    ensures var row := RowFor(strikes, atm, strike);
            var n := Abs(IndexOf(strikes, strike) - IndexOf(strikes, atm));
            if strike == atm then row.ceLabel == "ATM" && row.peLabel == "ATM"
            else if strike < atm then row.ceLabel == "ITM" + PrintNat(n) && row.peLabel == "OTM" + PrintNat(n) && n > 0
            else row.ceLabel == "OTM" + PrintNat(n) && row.peLabel == "ITM" + PrintNat(n) && n > 0
  {
  }

  lemma IndexFollowsOrder(strikes: seq<int>, x: int, y: int)
    requires StrictlyIncreasing(strikes) && x in strikes && y in strikes
    ensures IndexOf(strikes, x) < IndexOf(strikes, y) <==> x < y
  {
  }

  lemma TargetReached(strikes: seq<int>, a: nat, i: nat, n: nat, down: bool)
    requires a < |strikes| && i < |strikes| && n == Abs(i - a) && (down <==> i < a)
    ensures Target(strikes, a, n, down) == AtStrike(strikes[i])
  {
  }

  lemma SideResolves(strikes: seq<int>, atm: int, strike: int, prefix: string, optionType: string, n: nat)
    requires StrictlyIncreasing(strikes) && atm in strikes && strike in strikes
    requires n == Abs(IndexOf(strikes, strike) - IndexOf(strikes, atm))
    requires prefix == "ITM" || prefix == "OTM"
    requires optionType == "CE" || optionType == "PE"
    requires (prefix == "ITM") == (optionType == "CE") <==> strike < atm
    ensures ApplyOffset(atm, prefix + PrintNat(n), optionType, strikes) == AtStrike(strike)
  {
    var a, i := IndexOf(strikes, atm), IndexOf(strikes, strike);
    IndexFollowsOrder(strikes, strike, atm);
    TargetReached(strikes, a, i, n, (prefix == "ITM") == (optionType == "CE"));
    OffsetReads(prefix, n, atm, optionType, strikes);
  }

  lemma CallLabelResolves(strikes: seq<int>, atm: int, strike: int)
    requires StrictlyIncreasing(strikes) && atm in strikes && strike in strikes
    ensures ApplyOffset(atm, RowFor(strikes, atm, strike).ceLabel, "CE", strikes) == AtStrike(strike)
  {
    LabelsMirror(strikes, atm, strike);
    var n := Abs(IndexOf(strikes, strike) - IndexOf(strikes, atm));
    if strike == atm {
      AtmReads(atm, "CE", strikes);
    } else {
      SideResolves(strikes, atm, strike, if strike < atm then "ITM" else "OTM", "CE", n);
    }
  }

  lemma PutLabelResolves(strikes: seq<int>, atm: int, strike: int)
    requires StrictlyIncreasing(strikes) && atm in strikes && strike in strikes
    ensures ApplyOffset(atm, RowFor(strikes, atm, strike).peLabel, "PE", strikes) == AtStrike(strike)
  {
    LabelsMirror(strikes, atm, strike);
    var n := Abs(IndexOf(strikes, strike) - IndexOf(strikes, atm));
    if strike == atm {
      AtmReads(atm, "PE", strikes);
    } else {
      SideResolves(strikes, atm, strike, if strike < atm then "OTM" else "ITM", "PE", n);
    }
  }

  /** Every label, on either side, resolves to its own row's strike. */
  lemma LabelsResolve(strikes: seq<int>, atm: int, strike: int)
    requires StrictlyIncreasing(strikes) && atm in strikes && strike in strikes
    ensures ApplyOffset(atm, RowFor(strikes, atm, strike).ceLabel, "CE", strikes) == AtStrike(strike)
    ensures ApplyOffset(atm, RowFor(strikes, atm, strike).peLabel, "PE", strikes) == AtStrike(strike)
  {
    CallLabelResolves(strikes, atm, strike);
    PutLabelResolves(strikes, atm, strike);
  }

  /** Two rows never share a label on one side, and the two sides of a row mirror each other. */
  lemma LabelsAreDistinct(strikes: seq<int>, atm: int, x: int, y: int)
    requires StrictlyIncreasing(strikes) && atm in strikes && x in strikes && y in strikes && x != y
    ensures RowFor(strikes, atm, x).ceLabel != RowFor(strikes, atm, y).ceLabel
    ensures RowFor(strikes, atm, x).peLabel != RowFor(strikes, atm, y).peLabel
  {
    LabelsResolve(strikes, atm, x);
    LabelsResolve(strikes, atm, y);
  }

  /** The window is a stretch of the list with the money in it, at most `count` strikes on each side, and
      stops short only where the list does. */
  lemma WindowShape(strikes: seq<int>, atm: int, count: nat) returns (from: nat, to: nat)
    requires StrictlyIncreasing(strikes) && atm in strikes
    ensures from <= IndexOf(strikes, atm) < to <= |strikes|
    ensures Window(strikes, atm, Some(count)) == strikes[from..to]
    ensures to - from <= 2 * count + 1
    ensures (from == 0 || IndexOf(strikes, atm) - from == count)
            && (to == |strikes| || to - 1 - IndexOf(strikes, atm) == count)
    ensures atm in Window(strikes, atm, Some(count))
  {
    var a := IndexOf(strikes, atm);
    from, to := Max(0, a - count), Min(|strikes|, a + count + 1);
    assert strikes[from..to][a - from] == atm;
  }

  /** The strike nearest to the last price; the first of two equally near. */
  method FindAtm(ltp: int, strikes: seq<int>) returns (atm: Option<int>)
    ensures atm == None <==> strikes == []
    ensures atm.Some? ==>
              && atm.value in strikes
              && forall i :: 0 <= i < |strikes| ==>
                   && Abs(atm.value - ltp) <= Abs(strikes[i] - ltp)
                   && (Abs(strikes[i] - ltp) == Abs(atm.value - ltp) ==> IndexOf(strikes, atm.value) <= i)
  {
    if strikes == [] { return None; }
    var at := 0;
    for i := 1 to |strikes|
      invariant 0 <= at < i && at < |strikes|
      invariant forall j :: 0 <= j < i ==> Abs(strikes[at] - ltp) <= Abs(strikes[j] - ltp)
      invariant forall j :: 0 <= j < at ==> Abs(strikes[at] - ltp) < Abs(strikes[j] - ltp)
    {
      if Abs(strikes[i] - ltp) < Abs(strikes[at] - ltp) {
        at := i;
      }
    }
    assert strikes[at] in strikes;
    return Some(strikes[at]);
  }
}
