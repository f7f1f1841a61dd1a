/** Max pain: the listed strike at which option writers' total loss is least. Strikes are in ticks, and the
    reported loss is rounded to paise before the minimum is taken. */
module MaxPain {
  import opened Rounding
  import opened Rows

  datatype ChainRow = ChainRow(strike: Option<int>, ceOi: Option<int>, peOi: Option<int>)

  datatype PainRow = PainRow(strike: int, ceOi: int, peOi: int, totalPain: int)

  function OrNothing(x: Option<int>): int { if x.Some? then x.value else 0 }

  /** The strikes that are present, in chain order. */
  function Strikes(chain: seq<ChainRow>): seq<int> {
    if chain == [] then []
    else
      var rest, row := Strikes(chain[..|chain| - 1]), chain[|chain| - 1];
      if row.strike.Some? then rest + [row.strike.value] else rest
  }

  /** Call and put interest by strike; a repeated strike keeps its last row. */
  function CallInterest(chain: seq<ChainRow>): map<int, int> {
    if chain == [] then map[]
    else
      var rest, row := CallInterest(chain[..|chain| - 1]), chain[|chain| - 1];
      if row.strike.Some? then rest[row.strike.value := OrNothing(row.ceOi)] else rest
  }

  function PutInterest(chain: seq<ChainRow>): map<int, int> {
    if chain == [] then map[]
    else
      var rest, row := PutInterest(chain[..|chain| - 1]), chain[|chain| - 1];
      if row.strike.Some? then rest[row.strike.value := OrNothing(row.peOi)] else rest
  }

  /** The interest of a strike is what its last row in the chain gives, and nothing for a side it leaves out. */
  lemma {:induction false} InterestIsLastRow(chain: seq<ChainRow>, k: int) returns (j: nat)
    requires k in CallInterest(chain)
    ensures j < |chain| && chain[j].strike == Some(k)
    ensures forall i :: j < i < |chain| ==> chain[i].strike != Some(k)
    ensures CallInterest(chain)[k] == match chain[j].ceOi case Some(n) => n case None => 0
    ensures k in PutInterest(chain) && PutInterest(chain)[k] == match chain[j].peOi case Some(n) => n case None => 0
  {
    var rest, row := chain[..|chain| - 1], chain[|chain| - 1];
    if row.strike == Some(k) {
      j := |chain| - 1;
    } else {
      j := InterestIsLastRow(rest, k);
    }
  }

  /** The interest at a strike; none where the chain has no such strike. */
  function At(m: map<int, int>, k: int): int { if k in m then m[k] else 0 }

  /** What writers lose in all if the contract settles at x, a whole number of ticks. */
  function Pain(x: int, strikes: seq<int>, ce: map<int, int>, pe: map<int, int>): int {
    if strikes == [] then 0
    else Pain(x, strikes[..|strikes| - 1], ce, pe) + LossAt(x, strikes[|strikes| - 1], ce, pe)
  }

  /** One strike's share of the loss, by its interest. */
  function Loss(x: int, t: int, c: int, p: int): int {
    (if x > t then (x - t) * c else 0) + (if x < t then (t - x) * p else 0)
  }

  function LossAt(x: int, k: int, ce: map<int, int>, pe: map<int, int>): int {
    Loss(x, k, At(ce, k), At(pe, k))
  }

  /** The same loss at any real settlement price. */
  function RealPain(x: real, strikes: seq<int>, ce: map<int, int>, pe: map<int, int>): real {
    if strikes == [] then 0.0
    else RealPain(x, strikes[..|strikes| - 1], ce, pe) + RealLossAt(x, strikes[|strikes| - 1], ce, pe)
  }

  function RealLossAt(x: real, k: int, ce: map<int, int>, pe: map<int, int>): real {
    var s := k as real;
    (if x > s then (x - s) * At(ce, k) as real else 0.0) + (if x < s then (s - x) * At(pe, k) as real else 0.0)
  }

  ghost predicate NonNegative(m: map<int, int>) { forall k :: k in m ==> m[k] >= 0 }

  lemma {:induction false} StrikesHaveInterest(chain: seq<ChainRow>)
    ensures forall k :: k in Strikes(chain) <==> k in CallInterest(chain)
    ensures CallInterest(chain).Keys == PutInterest(chain).Keys
  {
    if chain != [] {
      StrikesHaveInterest(chain[..|chain| - 1]);
    }
  }

  /** Who loses where: at or above every strike only call writers do, at or below every strike only put writers. */
  lemma {:induction false} CallsLoseAbove(x: int, strikes: seq<int>, ce: map<int, int>, pe: map<int, int>)
    ensures (forall k :: k in strikes ==> k <= x) ==> Pain(x, strikes, ce, pe) == Pain(x, strikes, ce, map[])
    ensures (forall k :: k in strikes ==> k >= x) ==> Pain(x, strikes, ce, pe) == Pain(x, strikes, map[], pe)
  {
    if strikes != [] {
      var rest := strikes[..|strikes| - 1];
      CallsLoseAbove(x, rest, ce, pe);
      assert strikes[|strikes| - 1] in strikes && forall k :: k in rest ==> k in strikes;
      assert At(map[], strikes[|strikes| - 1]) == 0;
    }
  }

  /** What the writers of n options of one strike lose. */
  lemma OneStrikeLoses(x: int, k: int, n: int)
    ensures Pain(x, [k], map[k := n], map[]) == if x > k then (x - k) * n else 0
    ensures Pain(x, [k], map[], map[k := n]) == if x < k then (k - x) * n else 0
  {
    assert [k][..0] == [];
    assert Pain(x, [], map[k := n], map[]) == 0 && Pain(x, [], map[], map[k := n]) == 0;
  }

  // ----- the curve -----

  predicate SortedByStrike(rows: seq<PainRow>) {
    forall i, j :: 0 <= i < j < |rows| ==> rows[i].strike <= rows[j].strike
  }

  function RowAt(k: int, strikes: seq<int>, ce: map<int, int>, pe: map<int, int>): PainRow {
    PainRow(k, At(ce, k), At(pe, k), RoundDiv(Pain(k, strikes, ce, pe), TICKS_PER_PAISA))
  }

  /** One row for each strike of the chain, sorted, with the rounded loss at that strike. */
  ghost predicate CurveOf(out: seq<PainRow>, chain: seq<ChainRow>) {
    var strikes, ce, pe := Strikes(chain), CallInterest(chain), PutInterest(chain);
    && |out| == |strikes| && SortedByStrike(out)
    && (forall i :: 0 <= i < |out| ==> out[i].strike in strikes && out[i] == RowAt(out[i].strike, strikes, ce, pe))
    && (forall k :: k in strikes ==> exists i :: 0 <= i < |out| && out[i].strike == k)
    && (forall i :: 0 <= i < |out| ==> out[i].ceOi == At(ce, out[i].strike) && out[i].peOi == At(pe, out[i].strike))
  }

  /** The inner loop: what option writers lose at one candidate. */
  method PainAt(candidate: int, strikes: seq<int>, ce: map<int, int>, pe: map<int, int>) returns (pain: int)
    requires forall k :: k in strikes ==> k in ce && k in pe
    ensures pain == Pain(candidate, strikes, ce, pe)
  {
    pain := 0;
    for j := 0 to |strikes|
      invariant pain == Pain(candidate, strikes[..j], ce, pe)
    {
      assert strikes[..j + 1][..j] == strikes[..j];
      var held := strikes[j];
      assert held in strikes;
      if candidate > held {
        pain := pain + (candidate - held) * ce[held];
      }
      if candidate < held {
        pain := pain + (held - candidate) * pe[held];
      }
    }
    assert strikes[..|strikes|] == strikes;
  }

  method BuildPainCurve(chain: seq<ChainRow>) returns (out: seq<PainRow>)
    ensures CurveOf(out, chain)
  {
    var strikes: seq<int> := [];
    var ce: map<int, int>, pe: map<int, int> := map[], map[];
    for i := 0 to |chain|
      invariant strikes == Strikes(chain[..i]) && ce == CallInterest(chain[..i]) && pe == PutInterest(chain[..i])
    {
      assert chain[..i + 1][..i] == chain[..i];
      if chain[i].strike == None { continue; }
      var k := chain[i].strike.value;
      strikes := strikes + [k];
      ce := ce[k := OrNothing(chain[i].ceOi)];
      pe := pe[k := OrNothing(chain[i].peOi)];
    }
    assert chain[..|chain|] == chain;
    StrikesHaveInterest(chain);
    out := [];
    for i := 0 to |strikes|
      invariant |out| == i
      invariant forall j :: 0 <= j < i ==> out[j] == RowAt(strikes[j], strikes, ce, pe)
    {
      var candidate := strikes[i];
      var pain := PainAt(candidate, strikes, ce, pe);
      assert candidate in strikes;
      out := out + [PainRow(candidate, ce[candidate], pe[candidate], RoundDiv(pain, TICKS_PER_PAISA))];
    }
    ghost var unsorted := out;
    out := SortRows(out);
    forall k | k in strikes ensures exists i :: 0 <= i < |out| && out[i].strike == k {
      var j :| 0 <= j < |strikes| && strikes[j] == k;
      assert unsorted[j] in multiset(out);
      assert unsorted[j] in out;
    }
    forall i | 0 <= i < |out| ensures out[i].strike in strikes && out[i] == RowAt(out[i].strike, strikes, ce, pe) {
      assert out[i] in multiset(unsorted);
    }
  }

  /** Put a row after every row whose strike is not greater. */
  method InsertRow(rows: seq<PainRow>, row: PainRow) returns (out: seq<PainRow>)
    requires SortedByStrike(rows)
    ensures SortedByStrike(out) && multiset(out) == multiset(rows) + multiset{row} && |out| == |rows| + 1
  {
    var j := |rows|;
    while j > 0 && rows[j - 1].strike > row.strike
      invariant 0 <= j <= |rows|
      invariant forall k :: j <= k < |rows| ==> rows[k].strike > row.strike
    {
      j := j - 1;
    }
    out := rows[..j] + [row] + rows[j..];
    InsertedSorted(rows, j, row);
    InsertedSame(rows, j, row);
  }

  lemma InsertedSorted(rows: seq<PainRow>, j: nat, row: PainRow)
    requires SortedByStrike(rows) && j <= |rows|
    requires j > 0 ==> rows[j - 1].strike <= row.strike
    requires j < |rows| ==> rows[j].strike > row.strike
    ensures SortedByStrike(rows[..j] + [row] + rows[j..])
  {
    var out := rows[..j] + [row] + rows[j..];
    forall a, b | 0 <= a < b < |out| ensures out[a].strike <= out[b].strike {
      assert out[a] == if a < j then rows[a] else if a == j then row else rows[a - 1];
      assert out[b] == if b < j then rows[b] else if b == j then row else rows[b - 1];
    }
  }

  lemma InsertedSame(rows: seq<PainRow>, j: nat, row: PainRow)
    requires j <= |rows|
    ensures multiset(rows[..j] + [row] + rows[j..]) == multiset(rows) + multiset{row}
  {
    assert rows == rows[..j] + rows[j..];
  }

  /** The stable sort on the strike. */
  method SortRows(rows: seq<PainRow>) returns (out: seq<PainRow>)
    ensures SortedByStrike(out) && multiset(out) == multiset(rows) && |out| == |rows|
  {
    out := [];
    for i := 0 to |rows|
      invariant SortedByStrike(out) && multiset(out) == multiset(rows[..i]) && |out| == i
    {
      assert rows[..i + 1] == rows[..i] + [rows[i]];
      out := InsertRow(out, rows[i]);
    }
    assert rows[..|rows|] == rows;
  }

  /** The first row with the least total: among sorted rows, the lowest strike of a tie. */
  method LeastPain(rows: seq<PainRow>) returns (best: PainRow)
    requires rows != [] && SortedByStrike(rows)
    ensures best in rows
    ensures forall i :: 0 <= i < |rows| ==> best.totalPain <= rows[i].totalPain
    ensures forall i :: 0 <= i < |rows| && rows[i].totalPain == best.totalPain ==> best.strike <= rows[i].strike
  {
    var at := 0;
    for i := 1 to |rows|
      invariant 0 <= at < |rows| && at < i
      invariant forall j :: 0 <= j < i ==> rows[at].totalPain <= rows[j].totalPain
      invariant forall j :: 0 <= j < i && rows[j].totalPain == rows[at].totalPain ==> at <= j
    {
      if rows[i].totalPain < rows[at].totalPain {
        at := i;
      }
    }
    best := rows[at];
  }

  // ----- no settlement price does better -----

  lemma {:induction false} RealPainAtTick(x: int, strikes: seq<int>, ce: map<int, int>, pe: map<int, int>)
    ensures RealPain(x as real, strikes, ce, pe) == Pain(x, strikes, ce, pe) as real
  {
    if strikes != [] {
      RealPainAtTick(x, strikes[..|strikes| - 1], ce, pe);
      RealLossAtTick(x, strikes[|strikes| - 1], ce, pe);
    }
  }

  lemma RealLossAtTick(x: int, k: int, ce: map<int, int>, pe: map<int, int>)
    ensures RealLossAt(x as real, k, ce, pe) == LossAt(x, k, ce, pe) as real
  {
    RealProduct(x - k, At(ce, k));
    RealProduct(k - x, At(pe, k));
  }

  lemma RealProduct(a: int, b: int)
    ensures (a * b) as real == a as real * b as real
  {
  }

  /** The points (lo, a), (x, m), (hi, c) lie on one line. */
  predicate Collinear(lo: real, x: real, hi: real, a: real, m: real, c: real) {
    (hi - lo) * m == (hi - x) * a + (x - lo) * c
  }

  /** Between two points with no strike strictly between them the loss is a straight line. */
  lemma {:induction false} PainIsLinear(lo: real, x: real, hi: real, strikes: seq<int>, ce: map<int, int>,
    pe: map<int, int>)
    requires lo <= x <= hi
    requires forall k :: k in strikes ==> k as real <= lo || hi <= k as real
    ensures Collinear(lo, x, hi, RealPain(lo, strikes, ce, pe), RealPain(x, strikes, ce, pe),
            RealPain(hi, strikes, ce, pe))
  {
    if strikes != [] {
      var rest, k := strikes[..|strikes| - 1], strikes[|strikes| - 1];
      assert k in strikes && forall j :: j in rest ==> j in strikes;
      PainIsLinear(lo, x, hi, rest, ce, pe);
      LossIsLinear(lo, x, hi, k, ce, pe);
      var a, b, c := RealPain(lo, rest, ce, pe), RealPain(x, rest, ce, pe), RealPain(hi, rest, ce, pe);
      var d, e, f := RealLossAt(lo, k, ce, pe), RealLossAt(x, k, ce, pe), RealLossAt(hi, k, ce, pe);
      AddLines(lo, x, hi, a, b, c, d, e, f);
      assert RealPain(lo, strikes, ce, pe) == a + d;
      assert RealPain(x, strikes, ce, pe) == b + e;
      assert RealPain(hi, strikes, ce, pe) == c + f;
    }
  }

  lemma AddLines(lo: real, x: real, hi: real, a: real, b: real, c: real, d: real, e: real, f: real)
    requires Collinear(lo, x, hi, a, b, c) && Collinear(lo, x, hi, d, e, f)
    ensures Collinear(lo, x, hi, a + d, b + e, c + f)
  {
    assert (hi - lo) * (b + e) == (hi - lo) * b + (hi - lo) * e;
    assert (hi - x) * (a + d) == (hi - x) * a + (hi - x) * d;
    assert (x - lo) * (c + f) == (x - lo) * c + (x - lo) * f;
  }

  lemma LossIsLinear(lo: real, x: real, hi: real, k: int, ce: map<int, int>, pe: map<int, int>)
    requires lo <= x <= hi && (k as real <= lo || hi <= k as real)
    ensures Collinear(lo, x, hi, RealLossAt(lo, k, ce, pe), RealLossAt(x, k, ce, pe), RealLossAt(hi, k, ce, pe))
  {
    var s := k as real;
    if s <= lo {
      LineThrough(lo, x, hi, s, At(ce, k) as real);
    } else {
      LineThrough(lo, x, hi, s, -(At(pe, k) as real));
    }
  }

  lemma LineThrough(lo: real, x: real, hi: real, s: real, w: real)
    ensures (hi - lo) * ((x - s) * w) == (hi - x) * ((lo - s) * w) + (x - lo) * ((hi - s) * w)
  {
    assert (hi - lo) * (x - s) == (hi - x) * (lo - s) + (x - lo) * (hi - s);
    assert (hi - lo) * ((x - s) * w) == ((hi - lo) * (x - s)) * w;
    assert (hi - x) * ((lo - s) * w) == ((hi - x) * (lo - s)) * w;
    assert (x - lo) * ((hi - s) * w) == ((x - lo) * (hi - s)) * w;
  }

  predicate AllAbove(y: real, strikes: seq<int>) { forall i :: 0 <= i < |strikes| ==> y <= strikes[i] as real }

  predicate AllBelow(x: real, strikes: seq<int>) { forall i :: 0 <= i < |strikes| ==> strikes[i] as real <= x }

  lemma LossGrowsDown(x: real, y: real, k: int, ce: map<int, int>, pe: map<int, int>)
    requires NonNegative(pe) && x <= y <= k as real
    ensures RealLossAt(y, k, ce, pe) <= RealLossAt(x, k, ce, pe)
  {
    Scale(k as real - y, k as real - x, At(pe, k) as real);
  }

  lemma LossGrowsUp(x: real, y: real, k: int, ce: map<int, int>, pe: map<int, int>)
    requires NonNegative(ce) && k as real <= x <= y
    ensures RealLossAt(x, k, ce, pe) <= RealLossAt(y, k, ce, pe)
  {
    Scale(x - k as real, y - k as real, At(ce, k) as real);
  }

  /** Below the lowest strike the loss only grows downwards. */
  lemma {:induction false} PainGrowsDown(x: real, y: real, strikes: seq<int>, ce: map<int, int>, pe: map<int, int>)
    requires NonNegative(pe) && x <= y && AllAbove(y, strikes)
    ensures RealPain(y, strikes, ce, pe) <= RealPain(x, strikes, ce, pe)
  {
    if strikes != [] {
      var k := strikes[|strikes| - 1];
      PainGrowsDown(x, y, strikes[..|strikes| - 1], ce, pe);
      LossGrowsDown(x, y, k, ce, pe);
    }
  }

  /** Above the highest strike it only grows upwards. */
  lemma {:induction false} PainGrowsUp(x: real, y: real, strikes: seq<int>, ce: map<int, int>, pe: map<int, int>)
    requires NonNegative(ce) && x <= y && AllBelow(x, strikes)
    ensures RealPain(x, strikes, ce, pe) <= RealPain(y, strikes, ce, pe)
  {
    if strikes != [] {
      var k := strikes[|strikes| - 1];
      PainGrowsUp(x, y, strikes[..|strikes| - 1], ce, pe);
      LossGrowsUp(x, y, k, ce, pe);
    }
  }

  lemma Scale(a: real, b: real, w: real)
    requires a <= b && w >= 0.0
    ensures a * w <= b * w
  {
  }

  lemma PositiveMean(p: real, q: real, d: real, e: real)
    requires p >= 0.0 && q >= 0.0 && p + q > 0.0 && d > 0.0 && e > 0.0
    ensures p * d + q * e > 0.0
  {
    if p > 0.0 {
      assert p * d > 0.0;
    }
    if q > 0.0 {
      assert q * e > 0.0;
    }
  }

  /** A weighted mean of two numbers is not below both. */
  lemma MeanIsBetween(lo: real, x: real, hi: real, a: real, m: real, c: real)
    requires lo <= x <= hi && lo < hi
    requires Collinear(lo, x, hi, a, m, c)
    ensures a <= m || c <= m
  {
    if !(a <= m || c <= m) {
      PositiveMean(hi - x, x - lo, a - m, c - m);
    }
  }

  /** The greatest strike not above x, and the least not below it. */
  lemma {:induction false} NearestBelow(x: real, strikes: seq<int>) returns (k: int)
    requires exists j :: j in strikes && j as real <= x
    ensures k in strikes && k as real <= x
    ensures forall j :: j in strikes && j as real <= x ==> j <= k
  {
    var rest, last := strikes[..|strikes| - 1], strikes[|strikes| - 1];
    assert forall j :: j in strikes <==> j in rest || j == last;
    if exists j :: j in rest && j as real <= x {
      k := NearestBelow(x, rest);
      if last as real <= x && last > k {
        k := last;
      }
    } else {
      k := last;
    }
  }

  lemma {:induction false} NearestAbove(x: real, strikes: seq<int>) returns (k: int)
    requires exists j :: j in strikes && x <= j as real
    ensures k in strikes && x <= k as real
    ensures forall j :: j in strikes && x <= j as real ==> k <= j
  {
    var rest, last := strikes[..|strikes| - 1], strikes[|strikes| - 1];
    assert forall j :: j in strikes <==> j in rest || j == last;
    if exists j :: j in rest && x <= j as real {
      k := NearestAbove(x, rest);
      if x <= last as real && last < k {
        k := last;
      }
    } else {
      k := last;
    }
  }

  /** Whatever the settlement price, some listed strike costs writers no more. */
  lemma SomeStrikeIsNoWorse(x: real, strikes: seq<int>, ce: map<int, int>, pe: map<int, int>) returns (k: int)
    requires strikes != [] && NonNegative(ce) && NonNegative(pe)
    ensures k in strikes
    ensures RealPain(k as real, strikes, ce, pe) <= RealPain(x, strikes, ce, pe)
  {
    if AllAbove(x, strikes) {
      assert strikes[0] in strikes;
      k := NearestAbove(x, strikes);
      forall i | 0 <= i < |strikes| ensures k as real <= strikes[i] as real { assert strikes[i] in strikes; }
      PainGrowsDown(x, k as real, strikes, ce, pe);
    } else if AllBelow(x, strikes) {
      assert strikes[0] in strikes;
      k := NearestBelow(x, strikes);
      forall i | 0 <= i < |strikes| ensures strikes[i] as real <= k as real { assert strikes[i] in strikes; }
      PainGrowsUp(k as real, x, strikes, ce, pe);
    } else {
      var i :| 0 <= i < |strikes| && strikes[i] as real < x;
      var j :| 0 <= j < |strikes| && x < strikes[j] as real;
      assert strikes[i] in strikes && strikes[j] in strikes;
      k := NoWorseBetween(x, strikes, ce, pe);
    }
  }

  lemma NoWorseBetween(x: real, strikes: seq<int>, ce: map<int, int>, pe: map<int, int>) returns (k: int)
    requires exists j :: j in strikes && j as real <= x
    requires exists j :: j in strikes && x <= j as real
    ensures k in strikes
    ensures RealPain(k as real, strikes, ce, pe) <= RealPain(x, strikes, ce, pe)
  {
    var lo := NearestBelow(x, strikes);
    var hi := NearestAbove(x, strikes);
    if lo == hi {
      k := lo;
    } else {
      PainIsLinear(lo as real, x, hi as real, strikes, ce, pe);
      var a, m, c := RealPain(lo as real, strikes, ce, pe), RealPain(x, strikes, ce, pe),
        RealPain(hi as real, strikes, ce, pe);
      MeanIsBetween(lo as real, x, hi as real, a, m, c);
      k := if a <= m then lo else hi;
    }
  }

  // ----- what rounding first can do -----

  /** Rounding first can only swap strikes whose losses are within a paisa of each other. */
  lemma RoundedOrder(a: int, b: int)
    requires RoundDiv(a, TICKS_PER_PAISA) <= RoundDiv(b, TICKS_PER_PAISA)
    ensures a <= b + TICKS_PER_PAISA
  {
  }

  /** A paisa of difference survives rounding, unless it is exactly a paisa between two ties. */
  lemma RoundedStrictly(a: int, b: int)
    requires a - b > TICKS_PER_PAISA || (a - b == TICKS_PER_PAISA && a % 4 == 0)
    ensures RoundDiv(b, TICKS_PER_PAISA) < RoundDiv(a, TICKS_PER_PAISA)
  {
  }

  predicate Distinct(strikes: seq<int>) {
    forall i, j :: 0 <= i < j < |strikes| ==> strikes[i] != strikes[j]
  }

  predicate InFours(strikes: seq<int>) {
    forall j, k :: j in strikes && k in strikes ==> (j - k) % 4 == 0
  }

  /** Strikes are at least a paisa apart; and where two are exactly a paisa apart, every difference is a
      multiple of four ticks, so that no loss is half a paisa off the grid. */
  predicate Apart(strikes: seq<int>) {
    && (forall j, k :: j in strikes && k in strikes && j < k ==> k - j >= TICKS_PER_PAISA)
    && ((exists j, k :: j in strikes && k in strikes && k - j == TICKS_PER_PAISA) ==> InFours(strikes))
  }

  /** Strikes in whole paise are apart. */
  lemma WholePaiseIsApart(strikes: seq<int>)
    requires forall k :: k in strikes ==> k % TICKS_PER_PAISA == 0
    ensures Apart(strikes)
  {
    forall j, k | j in strikes && k in strikes
      ensures (j - k) % 4 == 0 && (j < k ==> k - j >= TICKS_PER_PAISA)
    {
      PaiseApart(j, k);
    }
  }

  lemma PaiseApart(j: int, k: int)
    requires j % TICKS_PER_PAISA == 0 && k % TICKS_PER_PAISA == 0
    ensures (j - k) % 4 == 0 && (j < k ==> k - j >= TICKS_PER_PAISA)
  {
  }

  // ----- the slope of the loss -----

  /** The slope just above k, and just below it. */
  function SlopeAfter(k: int, strikes: seq<int>, ce: map<int, int>, pe: map<int, int>): int {
    if strikes == [] then 0
    else
      var t := strikes[|strikes| - 1];
      SlopeAfter(k, strikes[..|strikes| - 1], ce, pe) + if t <= k then At(ce, t) else -At(pe, t)
  }

  function SlopeBefore(k: int, strikes: seq<int>, ce: map<int, int>, pe: map<int, int>): int {
    if strikes == [] then 0
    else
      var t := strikes[|strikes| - 1];
      SlopeBefore(k, strikes[..|strikes| - 1], ce, pe) + if t < k then At(ce, t) else -At(pe, t)
  }

  /** The loss is convex: above k it stays over the line of the slope just above k. */
  lemma {:induction false} SupportAfter(k: int, j: int, strikes: seq<int>, ce: map<int, int>, pe: map<int, int>)
    requires k <= j && NonNegative(ce) && NonNegative(pe)
    ensures Pain(j, strikes, ce, pe) >= Pain(k, strikes, ce, pe) + (j - k) * SlopeAfter(k, strikes, ce, pe)
  {
    if strikes != [] {
      var rest, t := strikes[..|strikes| - 1], strikes[|strikes| - 1];
      SupportAfter(k, j, rest, ce, pe);
      LossAbove(k, j, t, At(ce, t), At(pe, t));
      Spread(j - k, SlopeAfter(k, rest, ce, pe), if t <= k then At(ce, t) else -At(pe, t));
    }
  }

  lemma {:induction false} SupportBefore(k: int, j: int, strikes: seq<int>, ce: map<int, int>, pe: map<int, int>)
    requires j <= k && NonNegative(ce) && NonNegative(pe)
    ensures Pain(j, strikes, ce, pe) >= Pain(k, strikes, ce, pe) + (j - k) * SlopeBefore(k, strikes, ce, pe)
  {
    if strikes != [] {
      var rest, t := strikes[..|strikes| - 1], strikes[|strikes| - 1];
      SupportBefore(k, j, rest, ce, pe);
      LossBelow(k, j, t, At(ce, t), At(pe, t));
      Spread(j - k, SlopeBefore(k, rest, ce, pe), if t < k then At(ce, t) else -At(pe, t));
    }
  }

  /** Between two strikes with none between them it is that line. */
  lemma {:induction false} StepUp(lo: int, hi: int, strikes: seq<int>, ce: map<int, int>, pe: map<int, int>)
    requires lo <= hi && forall t :: t in strikes ==> t <= lo || hi <= t
    ensures Pain(hi, strikes, ce, pe) == Pain(lo, strikes, ce, pe) + (hi - lo) * SlopeAfter(lo, strikes, ce, pe)
    ensures lo < hi ==> SlopeBefore(hi, strikes, ce, pe) == SlopeAfter(lo, strikes, ce, pe)
  {
    if strikes != [] {
      var rest, t := strikes[..|strikes| - 1], strikes[|strikes| - 1];
      assert t in strikes && forall u :: u in rest ==> u in strikes;
      StepUp(lo, hi, rest, ce, pe);
      LossStep(lo, hi, t, At(ce, t), At(pe, t));
      Spread(hi - lo, SlopeAfter(lo, rest, ce, pe), if t <= lo then At(ce, t) else -At(pe, t));
    }
  }

  lemma LossAbove(k: int, j: int, t: int, c: int, p: int)
    requires k <= j && c >= 0 && p >= 0
    ensures Loss(j, t, c, p) >= Loss(k, t, c, p) + (j - k) * (if t <= k then c else -p)
  {
    if t <= k {
      assert (j - t) * c == (k - t) * c + (j - k) * c;
    } else if j <= t {
      assert (t - k) * p == (t - j) * p + (j - k) * p;
    } else {
      MulMono(p, t - k, j - k);
      MulMono(c, 0, j - t);
    }
  }

  lemma LossBelow(k: int, j: int, t: int, c: int, p: int)
    requires j <= k && c >= 0 && p >= 0
    ensures Loss(j, t, c, p) >= Loss(k, t, c, p) + (j - k) * (if t < k then c else -p)
  {
    if t >= k {
      assert (t - j) * p == (t - k) * p + (k - j) * p;
    } else if t <= j {
      assert (k - t) * c == (j - t) * c + (k - j) * c;
    } else {
      MulMono(c, k - t, k - j);
      MulMono(p, 0, t - j);
    }
  }

  lemma LossStep(lo: int, hi: int, t: int, c: int, p: int)
    requires lo <= hi && (t <= lo || hi <= t)
    ensures Loss(hi, t, c, p) == Loss(lo, t, c, p) + (hi - lo) * (if t <= lo then c else -p)
  {
    if t <= lo {
      assert (hi - t) * c == (lo - t) * c + (hi - lo) * c;
    } else {
      assert (t - lo) * p == (t - hi) * p + (hi - lo) * p;
    }
  }

  lemma Spread(a: int, b: int, c: int)
    ensures a * (b + c) == a * b + a * c
  {
  }

  // ----- strikes apart: the choice is the best -----

  /** Strikes in step leave losses in step. */
  lemma {:induction false} PainInFours(x: int, strikes: seq<int>, ce: map<int, int>, pe: map<int, int>)
    requires forall t :: t in strikes ==> (x - t) % 4 == 0
    ensures Pain(x, strikes, ce, pe) % 4 == 0
  {
    if strikes != [] {
      var rest, t := strikes[..|strikes| - 1], strikes[|strikes| - 1];
      assert t in strikes && forall u :: u in rest ==> u in strikes;
      PainInFours(x, rest, ce, pe);
      LossInFours(x, t, ce, pe);
      SumInFours(Pain(x, rest, ce, pe), LossAt(x, t, ce, pe));
    }
  }

  lemma SumInFours(a: int, b: int)
    requires a % 4 == 0 && b % 4 == 0
    ensures (a + b) % 4 == 0
  {
  }

  lemma LossInFours(x: int, t: int, ce: map<int, int>, pe: map<int, int>)
    requires (x - t) % 4 == 0
    ensures LossAt(x, t, ce, pe) % 4 == 0
  {
    FourTimes(x - t, At(ce, t));
    FourTimes(t - x, At(pe, t));
  }

  lemma FourTimes(a: int, w: int)
    requires a % 4 == 0
    ensures (a * w) % 4 == 0
  {
    assert a * w == 4 * ((a / 4) * w);
  }

  /** The strike next to k on the side of j. */
  lemma {:induction false} Neighbour(k: int, j: int, strikes: seq<int>) returns (n: int)
    requires j in strikes && j != k
    ensures n in strikes
    ensures k < j ==> k < n <= j && forall t :: t in strikes ==> t <= k || n <= t
    ensures j < k ==> j <= n < k && forall t :: t in strikes ==> t <= n || k <= t
    decreases Abs(j - k)
  {
    if k < j && exists t :: t in strikes && k < t < j {
      var t :| t in strikes && k < t < j;
      n := Neighbour(k, t, strikes);
    } else if j < k && exists t :: t in strikes && j < t < k {
      var t :| t in strikes && j < t < k;
      n := Neighbour(k, t, strikes);
    } else {
      n := j;
    }
  }

  lemma LessAbove(k: int, n: int, j: int, strikes: seq<int>, ce: map<int, int>, pe: map<int, int>)
    requires NonNegative(ce) && NonNegative(pe) && k < n && k < j
    requires forall t :: t in strikes ==> t <= k || n <= t
    requires Pain(j, strikes, ce, pe) < Pain(k, strikes, ce, pe)
    ensures Pain(k, strikes, ce, pe) - Pain(n, strikes, ce, pe) >= n - k
  {
    var s := SlopeAfter(k, strikes, ce, pe);
    SupportAfter(k, j, strikes, ce, pe);
    StepUp(k, n, strikes, ce, pe);
    SignOf(j - k, s);
    MulMono(n - k, s, -1);
  }

  lemma LessBelow(k: int, n: int, j: int, strikes: seq<int>, ce: map<int, int>, pe: map<int, int>)
    requires NonNegative(ce) && NonNegative(pe) && n < k && j < k
    requires forall t :: t in strikes ==> t <= n || k <= t
    requires Pain(j, strikes, ce, pe) < Pain(k, strikes, ce, pe)
    ensures Pain(k, strikes, ce, pe) - Pain(n, strikes, ce, pe) >= k - n
  {
    var s := SlopeBefore(k, strikes, ce, pe);
    SupportBefore(k, j, strikes, ce, pe);
    StepUp(n, k, strikes, ce, pe);
    SignBelow(j - k, s);
    MulMono(k - n, 1, s);
  }

  lemma SignBelow(a: int, s: int)
    requires a < 0 && a * s < 0
    ensures s >= 1
  {
    assert (-a) * (-s) == a * s;
    SignOf(-a, -s);
  }

  /** If some strike loses less than k, then k's neighbour on that side loses less by at least the gap. */
  lemma NeighbourLosesLess(k: int, j: int, strikes: seq<int>, ce: map<int, int>, pe: map<int, int>) returns (n: int)
    requires NonNegative(ce) && NonNegative(pe) && k in strikes && j in strikes
    requires Pain(j, strikes, ce, pe) < Pain(k, strikes, ce, pe)
    ensures n in strikes && n != k && Pain(k, strikes, ce, pe) - Pain(n, strikes, ce, pe) >= Abs(n - k)
  {
    n := Neighbour(k, j, strikes);
    if k < j {
      LessAbove(k, n, j, strikes, ce, pe);
    } else {
      LessBelow(k, n, j, strikes, ce, pe);
    }
  }

  lemma SignOf(a: int, s: int)
    requires a > 0 && a * s < 0
    ensures s <= -1
  {
    if s >= 0 {
      MulMono(a, 0, s);
    }
  }

  /** With strikes apart, the least rounded loss is the least loss. */
  lemma LeastRoundedIsLeast(k: int, j: int, strikes: seq<int>, ce: map<int, int>, pe: map<int, int>)
    requires NonNegative(ce) && NonNegative(pe) && k in strikes && j in strikes && Apart(strikes)
    requires forall t :: t in strikes ==> RowAt(k, strikes, ce, pe).totalPain <= RowAt(t, strikes, ce, pe).totalPain
    ensures Pain(k, strikes, ce, pe) <= Pain(j, strikes, ce, pe)
  {
    if Pain(j, strikes, ce, pe) < Pain(k, strikes, ce, pe) {
      var n := NeighbourLosesLess(k, j, strikes, ce, pe);
      if Abs(n - k) == TICKS_PER_PAISA {
        assert n - k == TICKS_PER_PAISA || k - n == TICKS_PER_PAISA;
        PainInFours(k, strikes, ce, pe);
      }
      assert RowAt(k, strikes, ce, pe).totalPain <= RowAt(n, strikes, ce, pe).totalPain;
      RoundedStrictly(Pain(k, strikes, ce, pe), Pain(n, strikes, ce, pe));
    }
  }

  // ----- the choice -----

  ghost predicate GoodInterest(chain: seq<ChainRow>) {
    NonNegative(CallInterest(chain)) && NonNegative(PutInterest(chain))
  }

  /** The row the service reports: least rounded loss, the lowest strike of a tie. */
  ghost predicate Chosen(chain: seq<ChainRow>, row: PainRow) {
    var strikes, ce, pe := Strikes(chain), CallInterest(chain), PutInterest(chain);
    && row.strike in strikes && row == RowAt(row.strike, strikes, ce, pe)
    && (forall j :: j in strikes ==> row.totalPain <= RowAt(j, strikes, ce, pe).totalPain)
    && (forall j :: j in strikes && RowAt(j, strikes, ce, pe).totalPain == row.totalPain ==> row.strike <= j)
  }

  ghost predicate BestAt(chain: seq<ChainRow>, row: PainRow, x: real, slack: real) {
    var strikes, ce, pe := Strikes(chain), CallInterest(chain), PutInterest(chain);
    Pain(row.strike, strikes, ce, pe) as real <= RealPain(x, strikes, ce, pe) + slack
  }

  /** No settlement price, listed or not, costs writers less, give or take some slack. */
  ghost predicate BestWithin(chain: seq<ChainRow>, row: PainRow, slack: real) {
    forall x: real :: BestAt(chain, row, x, slack)
  }

  /** The max-pain strike. Its loss is no more than the loss at any real settlement price when strikes are
      apart, and to within a paisa in any case; a tie goes to the lowest strike. */
  method MaxPainStrike(chain: seq<ChainRow>) returns (best: Option<PainRow>)
    ensures best == None <==> Strikes(chain) == []
    ensures best.Some? ==> Chosen(chain, best.value)
    ensures best.Some? && GoodInterest(chain) ==> BestWithin(chain, best.value, TICKS_PER_PAISA as real)
    ensures best.Some? && GoodInterest(chain) && Apart(Strikes(chain)) ==> BestWithin(chain, best.value, 0.0)
  {
    var rows := BuildPainCurve(chain);
    if rows == [] {
      return None;
    }
    var row := LeastPain(rows);
    best := Some(row);
    ghost var strikes, ce, pe := Strikes(chain), CallInterest(chain), PutInterest(chain);
    forall j | j in strikes
      ensures row.totalPain <= RowAt(j, strikes, ce, pe).totalPain
              && (RowAt(j, strikes, ce, pe).totalPain == row.totalPain ==> row.strike <= j)
    {
      var i :| 0 <= i < |rows| && rows[i].strike == j;
      assert rows[i] == RowAt(j, strikes, ce, pe);
    }
    ChosenIsBest(chain, row);
  }

  lemma ChosenIsBest(chain: seq<ChainRow>, row: PainRow)
    requires Chosen(chain, row)
    ensures GoodInterest(chain) ==> BestWithin(chain, row, TICKS_PER_PAISA as real)
    ensures GoodInterest(chain) && Apart(Strikes(chain)) ==> BestWithin(chain, row, 0.0)
  {
    if GoodInterest(chain) {
      var slack := TICKS_PER_PAISA as real;
      forall x: real ensures BestAt(chain, row, x, slack) {
        BestEverywhere(x, Strikes(chain), CallInterest(chain), PutInterest(chain), row.strike);
      }
      if Apart(Strikes(chain)) {
        forall x: real ensures BestAt(chain, row, x, 0.0) {
          BestEverywhere(x, Strikes(chain), CallInterest(chain), PutInterest(chain), row.strike);
        }
      }
    }
  }

  lemma BestEverywhere(x: real, strikes: seq<int>, ce: map<int, int>, pe: map<int, int>, best: int)
    requires NonNegative(ce) && NonNegative(pe) && best in strikes
    requires forall j :: j in strikes ==> RowAt(best, strikes, ce, pe).totalPain <= RowAt(j, strikes, ce, pe).totalPain
    ensures Pain(best, strikes, ce, pe) as real <= RealPain(x, strikes, ce, pe) + TICKS_PER_PAISA as real
    ensures Apart(strikes) ==> Pain(best, strikes, ce, pe) as real <= RealPain(x, strikes, ce, pe)
  {
    var k := SomeStrikeIsNoWorse(x, strikes, ce, pe);
    RealPainAtTick(k, strikes, ce, pe);
    assert RowAt(best, strikes, ce, pe).totalPain <= RowAt(k, strikes, ce, pe).totalPain;
    RoundedOrder(Pain(best, strikes, ce, pe), Pain(k, strikes, ce, pe));
    if Apart(strikes) {
      LeastRoundedIsLeast(best, k, strikes, ce, pe);
    }
  }

  // ----- strikes not apart: some interest misleads -----

  /** Calls at lo, puts at hi, and both at a third strike. */
  datatype Masses = Masses(lo: int, hi: int, third: int, calls: nat, puts: nat, thirdCalls: nat, thirdPuts: nat)

  function CallsAt(m: Masses, k: int): int {
    if k == m.lo then m.calls else if k == m.third then m.thirdCalls else 0
  }

  function PutsAt(m: Masses, k: int): int {
    if k == m.hi then m.puts else if k == m.third then m.thirdPuts else 0
  }

  /** A chain over the given strikes with that interest. */
  function ChainOf(strikes: seq<int>, m: Masses): seq<ChainRow> {
    if strikes == [] then []
    else
      var k := strikes[|strikes| - 1];
      ChainOf(strikes[..|strikes| - 1], m) + [ChainRow(Some(k), Some(CallsAt(m, k)), Some(PutsAt(m, k)))]
  }

  lemma {:induction false} ChainOfReads(strikes: seq<int>, m: Masses)
    ensures var chain := ChainOf(strikes, m);
            && Strikes(chain) == strikes && GoodInterest(chain)
            && (forall k :: k in strikes ==> At(CallInterest(chain), k) == CallsAt(m, k))
            && (forall k :: k in strikes ==> At(PutInterest(chain), k) == PutsAt(m, k))
  {
    if strikes != [] {
      var rest, k := strikes[..|strikes| - 1], strikes[|strikes| - 1];
      ChainOfReads(rest, m);
      var chain := ChainOf(strikes, m);
      assert chain[..|chain| - 1] == ChainOf(rest, m);
      assert strikes == rest + [k];
    }
  }

  /** One strike's share of the loss at x. */
  function Part(x: int, k: int, m: Masses): int {
    Loss(x, k, CallsAt(m, k), PutsAt(m, k))
  }

  function MassPain(x: int, strikes: seq<int>, m: Masses): int {
    if strikes == [] then 0
    else MassPain(x, strikes[..|strikes| - 1], m) + Part(x, strikes[|strikes| - 1], m)
  }

  lemma {:induction false} PainIsMassPain(x: int, strikes: seq<int>, ce: map<int, int>, pe: map<int, int>, m: Masses)
    requires forall k :: k in strikes ==> At(ce, k) == CallsAt(m, k) && At(pe, k) == PutsAt(m, k)
    ensures Pain(x, strikes, ce, pe) == MassPain(x, strikes, m)
  {
    if strikes != [] {
      var rest, k := strikes[..|strikes| - 1], strikes[|strikes| - 1];
      assert k in strikes && forall u :: u in rest ==> u in strikes;
      PainIsMassPain(x, rest, ce, pe, m);
    }
  }

  function PartIn(x: int, strikes: seq<int>, k: int, m: Masses): int {
    if k in strikes then Part(x, k, m) else 0
  }

  /** Only the three strikes count, each once. */
  lemma {:induction false} ThreeParts(x: int, strikes: seq<int>, m: Masses)
    requires Distinct(strikes) && m.lo != m.hi && m.third != m.lo && m.third != m.hi
    ensures MassPain(x, strikes, m) ==
            PartIn(x, strikes, m.lo, m) + PartIn(x, strikes, m.hi, m) + PartIn(x, strikes, m.third, m)
  {
    if strikes != [] {
      var rest, k := strikes[..|strikes| - 1], strikes[|strikes| - 1];
      assert strikes == rest + [k] && k !in rest;
      ThreeParts(x, rest, m);
      NoPart(x, k, m);
    }
  }

  lemma NoPart(x: int, k: int, m: Masses)
    ensures k != m.lo && k != m.hi && k != m.third ==> Part(x, k, m) == 0
  {
  }

  function MassLoss(x: int, m: Masses): int {
    Loss(x, m.lo, m.calls, 0) + Loss(x, m.hi, 0, m.puts) + Loss(x, m.third, m.thirdCalls, m.thirdPuts)
  }

  predicate GoodMasses(m: Masses, strikes: seq<int>) {
    && m.lo in strikes && m.hi in strikes && m.lo < m.hi && m.third != m.lo && m.third != m.hi
    && (m.third in strikes || (m.thirdCalls == 0 && m.thirdPuts == 0))
  }

  lemma PartsOfMasses(x: int, strikes: seq<int>, m: Masses)
    requires GoodMasses(m, strikes)
    ensures PartIn(x, strikes, m.lo, m) == Loss(x, m.lo, m.calls, 0)
    ensures PartIn(x, strikes, m.hi, m) == Loss(x, m.hi, 0, m.puts)
    ensures PartIn(x, strikes, m.third, m) == Loss(x, m.third, m.thirdCalls, m.thirdPuts)
  {
  }

  lemma PainOfMasses(x: int, strikes: seq<int>, m: Masses)
    requires Distinct(strikes) && GoodMasses(m, strikes)
    ensures var chain := ChainOf(strikes, m);
            Pain(x, strikes, CallInterest(chain), PutInterest(chain)) == MassLoss(x, m)
  {
    ChainOfReads(strikes, m);
    PainIsMassPain(x, strikes, CallInterest(ChainOf(strikes, m)), PutInterest(ChainOf(strikes, m)), m);
    ThreeParts(x, strikes, m);
    PartsOfMasses(x, strikes, m);
  }

  /** The higher strike loses less, the two round alike, nothing loses less than the higher one, and nothing
      at or below the lower one loses less than it. */
  ghost predicate Misleading(m: Masses) {
    && MassLoss(m.hi, m) < MassLoss(m.lo, m)
    && RoundDiv(MassLoss(m.hi, m), TICKS_PER_PAISA) == RoundDiv(MassLoss(m.lo, m), TICKS_PER_PAISA)
    && (forall x :: MassLoss(x, m) >= MassLoss(m.hi, m))
    && (forall x :: x <= m.lo ==> MassLoss(x, m) >= MassLoss(m.lo, m))
  }

  /** Then the choice falls at or below the lower strike, and the higher strike is a better price. */
  lemma MisledChoice(strikes: seq<int>, m: Masses, row: PainRow)
    requires Distinct(strikes) && GoodMasses(m, strikes) && Misleading(m)
    requires Chosen(ChainOf(strikes, m), row)
    ensures row.strike <= m.lo && !BestWithin(ChainOf(strikes, m), row, 0.0)
  {
    var chain := ChainOf(strikes, m);
    var ce, pe := CallInterest(chain), PutInterest(chain);
    ChainOfReads(strikes, m);
    PainOfMasses(m.lo, strikes, m);
    PainOfMasses(m.hi, strikes, m);
    PainOfMasses(row.strike, strikes, m);
    RoundDivMono(MassLoss(m.hi, m), MassLoss(row.strike, m), TICKS_PER_PAISA);
    assert row.totalPain <= RowAt(m.lo, strikes, ce, pe).totalPain;
    assert row.strike <= m.lo;
    RealPainAtTick(m.hi, strikes, ce, pe);
    assert !BestAt(chain, row, m.hi as real, 0.0);
  }

  /** Two neighbouring multiples of a gap round alike. */
  predicate RoundAlike(gap: int, i: int) {
    RoundDiv(gap * i, TICKS_PER_PAISA) == RoundDiv(gap * i + gap, TICKS_PER_PAISA)
  }

  /** While no two neighbours do, the rounded multiples climb. */
  lemma {:induction false} Climb(gap: int, n: nat)
    requires gap > 0
    requires forall i :: 0 <= i < n ==> !RoundAlike(gap, i)
    ensures RoundDiv(gap * n, TICKS_PER_PAISA) >= n
  {
    if n == 0 {
      RoundDivExact(0, TICKS_PER_PAISA);
    } else {
      Climb(gap, n - 1);
      assert gap * n == gap * (n - 1) + gap;
      RoundDivMono(gap * (n - 1), gap * n, TICKS_PER_PAISA);
      assert !RoundAlike(gap, n - 1);
    }
  }

  /** So among the first hundred multiples of a gap under a paisa, some two do. */
  lemma SameRounding(gap: int) returns (i: nat)
    requires 0 < gap < TICKS_PER_PAISA
    ensures RoundAlike(gap, i)
  {
    if j :| 0 <= j < TICKS_PER_PAISA && RoundAlike(gap, j) {
      i := j;
    } else {
      Climb(gap, TICKS_PER_PAISA);
      RoundDivExact(gap, TICKS_PER_PAISA);
      assert false;
    }
  }

  /** Less than a paisa apart. */
  lemma CloseMislead(lo: int, hi: int) returns (m: Masses)
    requires 0 < hi - lo < TICKS_PER_PAISA
    ensures m.lo == lo && m.hi == hi && m.third == lo - 1 && m.thirdCalls == 0 && m.thirdPuts == 0 && Misleading(m)
  {
    var i := SameRounding(hi - lo);
    m := Masses(lo, hi, lo - 1, i, i + 1, 0, 0);
    forall x ensures MassLoss(x, m) >= MassLoss(hi, m) && (x <= lo ==> MassLoss(x, m) >= MassLoss(lo, m)) {
      CloseLoss(x, m);
    }
    CloseLoss(lo, m);
    Spread(hi - lo, i, 1);
  }

  lemma CloseLoss(x: int, m: Masses)
    requires m.lo < m.hi && m.puts == m.calls + 1 && m.thirdCalls == 0 && m.thirdPuts == 0
    ensures MassLoss(m.lo, m) == (m.hi - m.lo) * (m.calls + 1) && MassLoss(m.hi, m) == (m.hi - m.lo) * m.calls
    ensures MassLoss(x, m) >= MassLoss(m.hi, m) && (x <= m.lo ==> MassLoss(x, m) >= MassLoss(m.lo, m))
    ensures MassLoss(m.hi, m) < MassLoss(m.lo, m)
  {
    var d, c := m.hi - m.lo, m.calls;
    Spread(d, c, 1);
    if x <= m.lo {
      MulMono(c + 1, d, m.hi - x);
    } else if x >= m.hi {
      MulMono(c, d, x - m.lo);
    } else {
      Spread(c, x - m.lo, m.hi - x);
      Spread(m.hi - x, c, 1);
    }
  }

  /** So many of a difference that is no multiple of four make a whole number of paise and a half. */
  lemma OddShare(d: int) returns (n: nat, q: int)
    requires d % 4 != 0
    ensures n > 0 && n * d == TICKS_PER_PAISA * q + 50
  {
    if d % 2 != 0 {
      q := OddParts(d);
      n := 50;
    } else {
      q := EvenParts(d);
      n := 25;
    }
  }

  lemma OddParts(d: int) returns (q: int)
    requires d % 2 != 0
    ensures 50 * d == TICKS_PER_PAISA * q + 50
  {
    q := d / 2;
  }

  lemma EvenParts(d: int) returns (q: int)
    requires d % 2 == 0 && d % 4 != 0
    ensures 25 * d == TICKS_PER_PAISA * q + 50
  {
    var h := d / 2;
    assert d == 2 * h;
    q := h / 2;
    assert h == 2 * q || h == 2 * q + 1;
    assert h == 2 * q ==> d == 4 * q;
  }

  /** Half a paisa either side of an even paisa rounds to it. */
  lemma TiesRoundAlike(m: int)
    requires m % 2 == 0
    ensures RoundDiv(TICKS_PER_PAISA * m + 50, TICKS_PER_PAISA) == RoundDiv(TICKS_PER_PAISA * m - 50, TICKS_PER_PAISA)
  {
    RoundDivUnique(TICKS_PER_PAISA * m + 50, TICKS_PER_PAISA, m);
    RoundDivUnique(TICKS_PER_PAISA * m - 50, TICKS_PER_PAISA, m);
  }

  lemma TiesMislead(m: Masses, k: int)
    requires k % 2 == 0 && MassLoss(m.lo, m) == TICKS_PER_PAISA * k + 50
    requires MassLoss(m.hi, m) == MassLoss(m.lo, m) - TICKS_PER_PAISA
    requires forall x :: MassLoss(x, m) >= MassLoss(m.hi, m)
    requires forall x :: x <= m.lo ==> MassLoss(x, m) >= MassLoss(m.lo, m)
    ensures Misleading(m)
  {
    TiesRoundAlike(k);
  }

  /** Exactly a paisa apart, with a third strike below out of step. */
  lemma TieMisleadsBelow(lo: int, hi: int, third: int) returns (m: Masses)
    requires hi - lo == TICKS_PER_PAISA && third < lo && (lo - third) % 4 != 0
    ensures m.lo == lo && m.hi == hi && m.third == third && Misleading(m)
  {
    var n, q := OddShare(lo - third);
    var c := (q + n + 1) % 2;
    m := Masses(lo, hi, third, c, n + 1 + c, n, 0);
    TieLossesBelow(m);
    TiesMislead(m, q + n + 1 + c);
  }

  lemma TieLossesBelow(m: Masses)
    requires m.third < m.lo && m.hi == m.lo + TICKS_PER_PAISA
    requires m.thirdPuts == 0 && m.puts == m.thirdCalls + 1 + m.calls
    ensures MassLoss(m.lo, m) == m.thirdCalls * (m.lo - m.third) + TICKS_PER_PAISA * m.puts
    ensures MassLoss(m.hi, m) == MassLoss(m.lo, m) - TICKS_PER_PAISA
    ensures forall x :: MassLoss(x, m) >= MassLoss(m.hi, m)
    ensures forall x :: x <= m.lo ==> MassLoss(x, m) >= MassLoss(m.lo, m)
  {
    forall x ensures MassLoss(x, m) >= MassLoss(m.hi, m) && (x <= m.lo ==> MassLoss(x, m) >= MassLoss(m.lo, m)) {
      TieLossBelow(x, m);
    }
    TieLossBelow(m.lo, m);
  }

  lemma TieLossBelow(x: int, m: Masses)
    requires m.third < m.lo && m.hi == m.lo + TICKS_PER_PAISA
    requires m.thirdPuts == 0 && m.puts == m.thirdCalls + 1 + m.calls
    ensures MassLoss(m.lo, m) == m.thirdCalls * (m.lo - m.third) + TICKS_PER_PAISA * m.puts
    ensures MassLoss(m.hi, m) == MassLoss(m.lo, m) - TICKS_PER_PAISA
    ensures MassLoss(x, m) >= MassLoss(m.hi, m) && (x <= m.lo ==> MassLoss(x, m) >= MassLoss(m.lo, m))
  {
    var n, c := m.thirdCalls, m.calls;
    Spread(n, m.lo - m.third, TICKS_PER_PAISA);
    if x <= m.lo {
      BelowTies(m.lo - x, m.lo - m.third, c, n);
    } else if x < m.hi {
      WithinTies(m.hi - x, x - m.lo, x - m.third, c, n);
    } else {
      MulMono(n, m.hi - m.third, x - m.third);
      MulMono(c, TICKS_PER_PAISA, x - m.lo);
    }
  }

  lemma WithinTies(a: int, b: int, e: int, c: int, n: int)
    requires a + b == TICKS_PER_PAISA
    ensures e * n + b * c + a * (n + 1 + c) == n * (a + e) + TICKS_PER_PAISA * c + a
  {
    Spread(a, n + 1, c);
    Spread(a, n, 1);
    Spread(c, a, b);
    Spread(n, a, e);
  }

  lemma BelowTies(u: int, e: int, c: int, n: int)
    requires u >= 0 && e > 0 && c >= 0 && n >= 0
    ensures Max(0, e - u) * n + (u + TICKS_PER_PAISA) * (n + 1 + c) >= n * e + TICKS_PER_PAISA * (n + 1 + c)
  {
    Spread(n + 1 + c, u, TICKS_PER_PAISA);
    Spread(u, n, 1 + c);
    Spread(n, e - u, u);
    MulMono(n, e - u, Max(0, e - u));
    MulMono(u, 0, 1 + c);
  }

  /** Exactly a paisa apart, with a third strike above out of step. */
  lemma TieMisleadsAbove(lo: int, hi: int, third: int) returns (m: Masses)
    requires hi - lo == TICKS_PER_PAISA && hi < third && (third - lo) % 4 != 0
    ensures m.lo == lo && m.hi == hi && m.third == third && Misleading(m)
  {
    var n, q := OddShare(third - lo);
    var p := if q % 2 == 0 then 2 else 1;
    m := Masses(lo, hi, third, p + n - 1, p, 0, n);
    TieLossesAbove(m);
    TiesMislead(m, q + p);
  }

  lemma TieLossesAbove(m: Masses)
    requires m.hi == m.lo + TICKS_PER_PAISA && m.hi < m.third
    requires m.thirdCalls == 0 && m.puts > 0 && m.calls == m.puts + m.thirdPuts - 1
    ensures MassLoss(m.lo, m) == m.thirdPuts * (m.third - m.lo) + TICKS_PER_PAISA * m.puts
    ensures MassLoss(m.hi, m) == MassLoss(m.lo, m) - TICKS_PER_PAISA
    ensures forall x :: MassLoss(x, m) >= MassLoss(m.hi, m)
    ensures forall x :: x <= m.lo ==> MassLoss(x, m) >= MassLoss(m.lo, m)
  {
    TieEndsAbove(m);
    forall x ensures MassLoss(x, m) >= MassLoss(m.hi, m) && (x <= m.lo ==> MassLoss(x, m) >= MassLoss(m.lo, m)) {
      TieLossAbove(x, m);
    }
  }

  lemma TieEndsAbove(m: Masses)
    requires m.hi == m.lo + TICKS_PER_PAISA && m.hi < m.third
    requires m.thirdCalls == 0 && m.puts > 0 && m.calls == m.puts + m.thirdPuts - 1
    ensures MassLoss(m.lo, m) == m.thirdPuts * (m.third - m.lo) + TICKS_PER_PAISA * m.puts
    ensures MassLoss(m.hi, m) == MassLoss(m.lo, m) - TICKS_PER_PAISA
  {
    Spread(m.thirdPuts, m.third - m.hi, TICKS_PER_PAISA);
  }

  lemma TieLossAbove(x: int, m: Masses)
    requires m.hi == m.lo + TICKS_PER_PAISA && m.hi < m.third
    requires m.thirdCalls == 0 && m.puts > 0 && m.calls == m.puts + m.thirdPuts - 1
    ensures var floor := m.thirdPuts * (m.third - m.lo) + TICKS_PER_PAISA * m.puts;
            MassLoss(x, m) >= floor - TICKS_PER_PAISA && (x <= m.lo ==> MassLoss(x, m) >= floor)
  {
    var n, p := m.thirdPuts, m.puts;
    if x <= m.lo {
      MulMono(n, m.third - m.lo, m.third - x);
      MulMono(p, TICKS_PER_PAISA, m.hi - x);
    } else if x < m.hi {
      BetweenTies(x - m.lo, m.hi - x, m.third - x, p, n);
    } else {
      BeyondTies(x - m.lo, m.third - x, p, n);
    }
  }

  lemma BetweenTies(a: int, b: int, c: int, p: int, n: int)
    requires a + b == TICKS_PER_PAISA
    ensures a * (p + n - 1) + p * b + c * n == n * (a + c) + TICKS_PER_PAISA * p - a
  {
    Spread(a, p + n, -1);
    Spread(a, p, n);
    Spread(p, a, b);
    Spread(n, a, c);
  }

  lemma BeyondTies(a: int, c: int, p: int, n: int)
    requires a >= TICKS_PER_PAISA && p > 0 && n >= 0
    ensures a * (p + n - 1) + Max(0, c) * n >= n * (a + c) + TICKS_PER_PAISA * p - TICKS_PER_PAISA
  {
    Spread(a, p - 1, n);
    Spread(n, a, c);
    MulMono(p - 1, TICKS_PER_PAISA, a);
    MulMono(n, c, Max(0, c));
  }

  /** Strikes that are not apart have interest that misleads. */
  lemma NotApartMisleads(strikes: seq<int>) returns (m: Masses)
    requires Distinct(strikes) && !Apart(strikes)
    ensures GoodMasses(m, strikes) && Misleading(m)
  {
    if j, k :| j in strikes && k in strikes && j < k && k - j < TICKS_PER_PAISA {
      m := CloseMislead(j, k);
    } else {
      var lo, hi :| lo in strikes && hi in strikes && hi - lo == TICKS_PER_PAISA;
      var third := OutOfStep(strikes, lo);
      assert third != hi;
      if third < lo {
        m := TieMisleadsBelow(lo, hi, third);
      } else {
        m := TieMisleadsAbove(lo, hi, third);
      }
    }
  }

  lemma OutOfStep(strikes: seq<int>, lo: int) returns (third: int)
    requires lo in strikes && !InFours(strikes)
    ensures third in strikes && (third - lo) % 4 != 0 && (lo - third) % 4 != 0
  {
    var j, k :| j in strikes && k in strikes && (j - k) % 4 != 0;
    third := if (j - lo) % 4 != 0 then j else k;
  }

  /** The choice exists for every chain with a strike. */
  lemma {:induction false} LeastRow(part: seq<int>, strikes: seq<int>, ce: map<int, int>, pe: map<int, int>)
    returns (k: int)
    requires part != []
    ensures k in part
    ensures forall j :: j in part ==> RowAt(k, strikes, ce, pe).totalPain <= RowAt(j, strikes, ce, pe).totalPain
    ensures forall j :: j in part && RowAt(j, strikes, ce, pe).totalPain == RowAt(k, strikes, ce, pe).totalPain ==>
            k <= j
  {
    var rest, last := part[..|part| - 1], part[|part| - 1];
    assert part == rest + [last];
    k := last;
    if rest != [] {
      var before := LeastRow(rest, strikes, ce, pe);
      var a, b := RowAt(before, strikes, ce, pe).totalPain, RowAt(last, strikes, ce, pe).totalPain;
      if a < b || (a == b && before <= last) {
        k := before;
      }
    }
  }

  /** Whatever the interest, the chosen strike is the best settlement price. */
  ghost predicate AlwaysBest(strikes: seq<int>) {
    forall chain, row :: Strikes(chain) == strikes && GoodInterest(chain) && Chosen(chain, row) ==>
      BestWithin(chain, row, 0.0)
  }

  /** That holds exactly for strikes that are apart. */
  lemma BestExactlyWhenApart(strikes: seq<int>)
    requires Distinct(strikes)
    ensures AlwaysBest(strikes) <==> Apart(strikes)
  {
    if Apart(strikes) {
      forall chain, row | Strikes(chain) == strikes && GoodInterest(chain) && Chosen(chain, row)
        ensures BestWithin(chain, row, 0.0)
      {
        ChosenIsBest(chain, row);
      }
    } else {
      var m := NotApartMisleads(strikes);
      var chain := ChainOf(strikes, m);
      ChainOfReads(strikes, m);
      var k := LeastRow(strikes, strikes, CallInterest(chain), PutInterest(chain));
      MisledChoice(strikes, m, RowAt(k, strikes, CallInterest(chain), PutInterest(chain)));
    }
  }

  /** The least case: for two strikes less than a paisa apart there is a chain on which the lower one is
      reported although the higher one loses less. */
  lemma CloseStrikesMislead(lo: int, gap: int) returns (chain: seq<ChainRow>)
    requires 0 < gap < TICKS_PER_PAISA
    ensures Strikes(chain) == [lo, lo + gap] && GoodInterest(chain)
    ensures forall row :: Chosen(chain, row) ==> row.strike == lo && !BestWithin(chain, row, 0.0)
  {
    var strikes := [lo, lo + gap];
    assert strikes[0] in strikes && strikes[1] in strikes;
    var m := CloseMislead(lo, lo + gap);
    chain := ChainOf(strikes, m);
    ChainOfReads(strikes, m);
    forall row | Chosen(chain, row) ensures row.strike == lo && !BestWithin(chain, row, 0.0) {
      MisledChoice(strikes, m, row);
    }
  }
}
