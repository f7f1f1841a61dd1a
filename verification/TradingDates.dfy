/** Two ways to keep the rows of the last n distinct dates of a series: a backward scan for a midnight
    cutoff, and the set of the n latest dates. Local time is a fixed offset from UTC. */
module TradingDates {

  /** A row: its unix time in seconds, and its payload. */
  datatype Row<+T> = Row(time: int, value: T)

  const DAY: int := 86400

  /** The local calendar date, as a day number. */
  function DateOf(time: int, offset: int): int { (time + offset) / DAY }

  /** A date is the day of 24 hours that holds the shifted time. */
  lemma DateHolds(time: int, offset: int, d: int)
    ensures DateOf(time, offset) == d <==> d * 24 * 60 * 60 <= time + offset < (d + 1) * 24 * 60 * 60
  {
  }

  /** The first second of a local date. */
  function Midnight(date: int, offset: int): int { date * DAY - offset }

  lemma FromMidnightOn(time: int, date: int, offset: int)
    ensures time >= Midnight(date, offset) <==> DateOf(time, offset) >= date
  {
  }

  predicate Sorted<T>(rows: seq<Row<T>>) {
    forall i, j :: 0 <= i <= j < |rows| ==> rows[i].time <= rows[j].time
  }

  function Dates<T>(rows: seq<Row<T>>, offset: int): set<int> {
    set i | 0 <= i < |rows| :: DateOf(rows[i].time, offset)
  }

  function Later(dates: set<int>, d: int): set<int> {
    set x | x in dates && x > d
  }

  /** The rows satisfying a condition on their date, in order. */
  function Keep<T>(rows: seq<Row<T>>, offset: int, good: int -> bool): seq<Row<T>> {
    if rows == [] then []
    else Keep(rows[..|rows| - 1], offset, good) +
         (if good(DateOf(rows[|rows| - 1].time, offset)) then [rows[|rows| - 1]] else [])
  }

  /** What both implementations are for: the rows with fewer than n distinct later dates. A count of
      zero or less keeps everything. */
  function LastDates<T>(rows: seq<Row<T>>, n: int, offset: int): seq<Row<T>> {
    if n <= 0 then rows
    else var dates := Dates(rows, offset); Keep(rows, offset, d => |Later(dates, d)| < n)
  }

  lemma {:induction false} KeepSame<T>(rows: seq<Row<T>>, offset: int, f: int -> bool, g: int -> bool)
    requires forall i :: 0 <= i < |rows| ==> f(DateOf(rows[i].time, offset)) == g(DateOf(rows[i].time, offset))
    ensures Keep(rows, offset, f) == Keep(rows, offset, g)
  {
    if rows != [] {
      KeepSame(rows[..|rows| - 1], offset, f, g);
    }
  }

  // ---------------------------------------------------------------- the n latest dates as a set

  lemma Member<T>(s: set<T>) returns (x: T)
    requires s != {}
    ensures x in s
  {
    x :| x in s;
  }

  lemma Outside<T>(s: set<T>, t: set<T>) returns (x: T)
    requires !(s <= t)
    ensures x in s && x !in t
  {
    x :| x in s && x !in t;
  }

  lemma {:induction false} Greatest(s: set<int>) returns (m: int)
    requires s != {}
    ensures m in s && forall x :: x in s ==> x <= m
  {
    var y := Member(s);
    var rest := s - {y};
    assert forall x :: x in s ==> x in rest || x == y;
    if rest == {} {
      m := y;
    } else {
      m := Greatest(rest);
      if y > m {
        m := y;
      }
    }
  }

  lemma HasMax(s: set<int>)
    requires s != {}
    ensures exists m :: m in s && forall x :: x in s ==> x <= m
  {
    var m := Greatest(s);
  }

  function MaxOf(s: set<int>): (m: int)
    requires s != {}
    ensures m in s && forall x :: x in s ==> x <= m
  {
    HasMax(s);
    var m :| m in s && forall x :: x in s ==> x <= m;
    m
  }

  /** The n largest members: the first n in descending order. */
  function Largest(s: set<int>, n: nat): (r: set<int>)
    ensures r <= s
    decreases n
  {
    if n == 0 || s == {} then {} else {MaxOf(s)} + Largest(s - {MaxOf(s)}, n - 1)
  }

  /** A member is among the n largest exactly when fewer than n are above it. */
  lemma {:induction false} LargestByRank(s: set<int>, n: nat, d: int)
    requires d in s
    ensures d in Largest(s, n) <==> |Later(s, d)| < n
    decreases n
  {
    if n > 0 {
      var m := MaxOf(s);
      if d == m {
        assert Later(s, d) == {};
      } else {
        LargestByRank(s - {m}, n - 1, d);
        assert Later(s, d) == {m} + Later(s - {m}, d);
      }
    }
  }

  lemma {:induction false} LargestSize(s: set<int>, n: nat)
    ensures |Largest(s, n)| == if |s| < n then |s| else n
    decreases n
  {
    if n > 0 && s != {} {
      LargestSize(s - {MaxOf(s)}, n - 1);
    }
  }

  /** The IV chart's version. */
  function CapByDateSet<T>(rows: seq<Row<T>>, n: int, offset: int): seq<Row<T>> {
    if rows == [] || n <= 0 then rows
    else var keep := Largest(Dates(rows, offset), n); Keep(rows, offset, d => d in keep)
  }

  lemma DateSetIsLastDates<T>(rows: seq<Row<T>>, n: int, offset: int)
    ensures CapByDateSet(rows, n, offset) == LastDates(rows, n, offset)
  {
    if rows != [] && n > 0 {
      var dates := Dates(rows, offset);
      var keep := Largest(dates, n);
      forall i | 0 <= i < |rows|
        ensures DateOf(rows[i].time, offset) in keep <==> |Later(dates, DateOf(rows[i].time, offset))| < n
      {
        LargestByRank(dates, n, DateOf(rows[i].time, offset));
      }
      KeepSame(rows, offset, d => d in keep, d => |Later(dates, d)| < n);
    }
  }

  // ---------------------------------------------------------------- the backward scan

  function FromTime<T>(rows: seq<Row<T>>, cutoff: int): seq<Row<T>> {
    if rows == [] then []
    else FromTime(rows[..|rows| - 1], cutoff) + (if rows[|rows| - 1].time >= cutoff then [rows[|rows| - 1]] else [])
  }

  lemma {:induction false} FromMidnightKeeps<T>(rows: seq<Row<T>>, date: int, offset: int)
    ensures FromTime(rows, Midnight(date, offset)) == Keep(rows, offset, d => d >= date)
  {
    if rows != [] {
      FromMidnightKeeps(rows[..|rows| - 1], date, offset);
      FromMidnightOn(rows[|rows| - 1].time, date, offset);
    }
  }

  lemma SizeOfPart(a: set<int>, b: set<int>)
    requires a <= b
    ensures |a| <= |b|
  {
    assert b == a + (b - a);
  }

  /** The dates from the cutoff on are those with fewer than n later ones. */
  lemma CutoffRanks(dates: set<int>, seen: set<int>, cutoff: int, n: int, d: int)
    requires cutoff in seen && seen <= dates && d in dates
    requires forall x :: x in seen ==> x >= cutoff
    requires forall x :: x in dates && x > cutoff ==> x in seen
    requires |seen| == n || (|seen| < n && seen == dates)
    ensures d >= cutoff <==> |Later(dates, d)| < n
  {
    if d >= cutoff {
      SizeOfPart(Later(dates, d), seen - {cutoff});
    } else {
      SizeOfPart(seen, Later(dates, d));
    }
  }

  /** The dates met walking back from row i, in the order met, given those met so far; at most n. */
  function Scan<T>(rows: seq<Row<T>>, i: nat, met: seq<int>, n: int, offset: int): (r: seq<int>)
    requires i <= |rows|
    ensures |met| <= |r| && (i > 0 && n > 0 ==> r != [])
    decreases i
  {
    if i == 0 || |met| >= n then met
    else
      var d := DateOf(rows[i - 1].time, offset);
      Scan(rows, i - 1, if d in met then met else met + [d], n, offset)
  }

  /** The straddle chart's version as a function. */
  function CapByScan<T>(rows: seq<Row<T>>, n: int, offset: int): seq<Row<T>> {
    if rows == [] || n <= 0 then rows
    else
      var met := Scan(rows, |rows|, [], n, offset);
      FromTime(rows, Midnight(met[|met| - 1], offset))
  }

  lemma {:induction false} ScanStep<T>(rows: seq<Row<T>>, i: nat, met: seq<int>, n: int, offset: int)
    requires 0 < i <= |rows| && |met| < n
    ensures var d := DateOf(rows[i - 1].time, offset);
            Scan(rows, i, met, n, offset) == Scan(rows, i - 1, if d in met then met else met + [d], n, offset)
  {
  }

  /** The backward scan, and then the filter. */
  method CapByCutoff<T>(series: seq<Row<T>>, n: int, offset: int) returns (out: seq<Row<T>>)
    ensures out == CapByScan(series, n, offset)
  {
    if series == [] || n <= 0 {
      return series;
    }
    var datesSeen: seq<int>, seenSet: set<int> := [], {};
    var i := |series|;
    while i > 0
      invariant 0 <= i <= |series|
      invariant forall x :: x in seenSet <==> x in datesSeen
      invariant i < |series| ==> datesSeen != []
      invariant Scan(series, |series|, [], n, offset) == Scan(series, i, datesSeen, n, offset)
      invariant |datesSeen| < n
    {
      ScanStep(series, i, datesSeen, n, offset);
      i := i - 1;
      var d := DateOf(series[i].time, offset);
      if d !in seenSet {
        seenSet := seenSet + {d};
        datesSeen := datesSeen + [d];
        if |datesSeen| >= n { break; }
      }
    }
    assert datesSeen == Scan(series, |series|, [], n, offset);
    out := RowsFrom(series, Midnight(datesSeen[|datesSeen| - 1], offset));
  }

  /** The rows at or after the cutoff. */
  method RowsFrom<T>(series: seq<Row<T>>, cutoff: int) returns (out: seq<Row<T>>)
    ensures out == FromTime(series, cutoff)
  {
    out := [];
    for k := 0 to |series|
      invariant out == FromTime(series[..k], cutoff)
    {
      assert series[..k + 1][..k] == series[..k];
      if series[k].time >= cutoff {
        out := out + [series[k]];
      }
    }
    assert series[..|series|] == series;
  }

  function Elements(s: seq<int>): set<int> { set x | x in s }

  function At<T>(rows: seq<Row<T>>, i: int, offset: int): int
    requires 0 <= i < |rows|
  {
    DateOf(rows[i].time, offset)
  }

  /** The dates of the rows from i on. */
  function DatesFrom<T>(rows: seq<Row<T>>, i: nat, offset: int): set<int> {
    set j | i <= j < |rows| :: At(rows, j, offset)
  }

  /** Every date later than row j's own still has a row from j on. */
  predicate LaterAhead<T>(rows: seq<Row<T>>, j: int, offset: int)
    requires 0 <= j < |rows|
  {
    Later(Dates(rows, offset), At(rows, j, offset)) <= DatesFrom(rows, j, offset)
  }

  /** The last row of each date comes before the last row of every later date. */
  predicate InOrder<T>(rows: seq<Row<T>>, offset: int) {
    forall j :: 0 <= j < |rows| ==> LaterAhead(rows, j, offset)
  }

  lemma SortedIsInOrder<T>(rows: seq<Row<T>>, offset: int)
    requires Sorted(rows)
    ensures InOrder(rows, offset)
  {
    forall j, d | 0 <= j < |rows| && d in Later(Dates(rows, offset), At(rows, j, offset))
      ensures d in DatesFrom(rows, j, offset)
    {
      var i :| 0 <= i < |rows| && d == DateOf(rows[i].time, offset);
      assert j < i;
      assert d == At(rows, i, offset);
    }
  }

  /** What the scan has met, standing before row i: the dates from there on, the last met the least, and
      none later missing. */
  predicate Met<T>(rows: seq<Row<T>>, i: nat, met: seq<int>, offset: int)
    requires i <= |rows|
  {
    && |Elements(met)| == |met| && Elements(met) == DatesFrom(rows, i, offset)
    && (i < |rows| ==>
          && met != []
          && (forall x :: x in Elements(met) ==> x >= met[|met| - 1])
          && Later(Dates(rows, offset), met[|met| - 1]) <= Elements(met))
  }

  lemma NewDateIsLeast<T>(rows: seq<Row<T>>, i: nat, d: int, offset: int)
    requires i <= |rows| && d in Dates(rows, offset) && d !in DatesFrom(rows, i, offset)
    requires forall j :: i <= j < |rows| ==> LaterAhead(rows, j, offset)
    ensures forall x :: x in DatesFrom(rows, i, offset) ==> x > d
  {
    forall x | x in DatesFrom(rows, i, offset) ensures x > d {
      var j :| i <= j < |rows| && x == At(rows, j, offset);
      assert LaterAhead(rows, j, offset);
      FewerFrom(rows, i, j, offset);
      assert d in Later(Dates(rows, offset), x) <==> x < d;
    }
  }

  lemma FewerFrom<T>(rows: seq<Row<T>>, i: nat, j: nat, offset: int)
    requires i <= j <= |rows|
    ensures DatesFrom(rows, j, offset) <= DatesFrom(rows, i, offset) <= Dates(rows, offset)
  {
    forall x | x in DatesFrom(rows, i, offset) ensures x in Dates(rows, offset) {
      var k :| i <= k < |rows| && x == At(rows, k, offset);
    }
  }

  lemma DatesFromStart<T>(rows: seq<Row<T>>, offset: int)
    ensures DatesFrom(rows, 0, offset) == Dates(rows, offset)
  {
    FewerFrom(rows, 0, 0, offset);
    forall x | x in Dates(rows, offset) ensures x in DatesFrom(rows, 0, offset) {
      var k :| 0 <= k < |rows| && x == DateOf(rows[k].time, offset);
      assert x == At(rows, k, offset);
    }
  }

  lemma MoreDates<T>(rows: seq<Row<T>>, i: nat, offset: int)
    requires 0 < i <= |rows|
    ensures DatesFrom(rows, i - 1, offset) == DatesFrom(rows, i, offset) + {At(rows, i - 1, offset)}
    ensures At(rows, i - 1, offset) in Dates(rows, offset)
  {
  }

  function Meet(met: seq<int>, d: int): seq<int> { if d in met then met else met + [d] }

  lemma MetStep<T>(rows: seq<Row<T>>, i: nat, met: seq<int>, offset: int)
    requires 0 < i <= |rows| && Met(rows, i, met, offset)
    requires forall j :: i - 1 <= j < |rows| ==> LaterAhead(rows, j, offset)
    ensures Met(rows, i - 1, Meet(met, At(rows, i - 1, offset)), offset)
  {
    var d := At(rows, i - 1, offset);
    MoreDates(rows, i, offset);
    if d in met {
      assert d in Elements(met);
      assert Elements(met) == DatesFrom(rows, i - 1, offset);
    } else {
      assert d !in Elements(met);
      NewDateIsLeast(rows, i, d, offset);
      assert Elements(met + [d]) == Elements(met) + {d};
      assert LaterAhead(rows, i - 1, offset);
    }
  }

  /** Where the scan stops. */
  lemma {:induction false} ScanStops<T>(rows: seq<Row<T>>, i: nat, met: seq<int>, n: nat, offset: int) returns (k: nat)
    requires InOrder(rows, offset) && i <= |rows| && Met(rows, i, met, offset) && |met| <= n
    ensures k <= i && Met(rows, k, Scan(rows, i, met, n, offset), offset)
    ensures var r := Scan(rows, i, met, n, offset); |r| == n || (k == 0 && |r| < n)
    decreases i
  {
    if i == 0 || |met| >= n {
      k := i;
    } else {
      MetStep(rows, i, met, offset);
      k := ScanStops(rows, i - 1, Meet(met, At(rows, i - 1, offset)), n, offset);
    }
  }

  lemma ScanCutoff<T>(rows: seq<Row<T>>, k: nat, met: seq<int>, n: nat, offset: int)
    requires k < |rows| && Met(rows, k, met, offset)
    requires |met| == n || (k == 0 && |met| < n)
    ensures FromTime(rows, Midnight(met[|met| - 1], offset)) ==
            Keep(rows, offset, d => |Later(Dates(rows, offset), d)| < n)
  {
    var cutoff, dates := met[|met| - 1], Dates(rows, offset);
    DatesFromStart(rows, offset);
    FewerFrom(rows, k, k, offset);
    forall j | 0 <= j < |rows|
      ensures DateOf(rows[j].time, offset) >= cutoff <==> |Later(dates, DateOf(rows[j].time, offset))| < n
    {
      CutoffRanks(dates, Elements(met), cutoff, n, DateOf(rows[j].time, offset));
    }
    FromMidnightKeeps(rows, cutoff, offset);
    KeepSame(rows, offset, d => d >= cutoff, d => |Later(dates, d)| < n);
  }

  lemma NothingMet<T>(rows: seq<Row<T>>, offset: int)
    ensures Met(rows, |rows|, [], offset)
  {
    assert Elements([]) == {};
    assert DatesFrom(rows, |rows|, offset) == {};
  }

  lemma ScanIsLastDates<T>(rows: seq<Row<T>>, n: int, offset: int)
    requires InOrder(rows, offset)
    ensures CapByScan(rows, n, offset) == LastDates(rows, n, offset)
  {
    if rows != [] && n > 0 {
      NothingMet(rows, offset);
      var k := ScanStops(rows, |rows|, [], n, offset);
      ScanCutoff(rows, k, Scan(rows, |rows|, [], n, offset), n, offset);
    }
  }

  /** On a series in time order, which is what every caller builds, the two charts keep the same rows,
      whatever the count. */
  lemma CapsAgree<T>(rows: seq<Row<T>>, n: int, offset: int)
    requires Sorted(rows)
    ensures CapByScan(rows, n, offset) == CapByDateSet(rows, n, offset)
  {
    SortedIsInOrder(rows, offset);
    ScanIsLastDates(rows, n, offset);
    DateSetIsLastDates(rows, n, offset);
  }

  // ---------------------------------------------------------------- exactly when they agree

  lemma {:induction false} KeptDates<T>(rows: seq<Row<T>>, offset: int, good: int -> bool, d: int)
    ensures d in Dates(Keep(rows, offset, good), offset) <==> d in Dates(rows, offset) && good(d)
  {
    if rows != [] {
      var rest, last := rows[..|rows| - 1], rows[|rows| - 1];
      KeptDates(rest, offset, good, d);
      DatesPush(rest, last, offset, d);
      assert rest + [last] == rows;
      if good(DateOf(last.time, offset)) {
        DatesPush(Keep(rest, offset, good), last, offset, d);
      } else {
        assert Keep(rows, offset, good) == Keep(rest, offset, good);
      }
    }
  }

  lemma DatesPush<T>(rows: seq<Row<T>>, last: Row<T>, offset: int, d: int)
    ensures d in Dates(rows + [last], offset) <==> d in Dates(rows, offset) || d == DateOf(last.time, offset)
  {
    var all := rows + [last];
    assert all[|rows|] == last;
    if d in Dates(rows, offset) {
      var i :| 0 <= i < |rows| && d == DateOf(rows[i].time, offset);
      assert all[i] == rows[i];
    }
  }

  /** The scan reaches row i with fewer than n dates met. */
  lemma {:induction false} ScanReaches<T>(rows: seq<Row<T>>, from: nat, met: seq<int>, i: nat, n: nat, offset: int)
    returns (r: seq<int>)
    requires i <= from <= |rows| && Met(rows, from, met, offset)
    requires forall j :: i <= j < |rows| ==> LaterAhead(rows, j, offset)
    requires |DatesFrom(rows, i, offset)| < n
    ensures Met(rows, i, r, offset) && Scan(rows, from, met, n, offset) == Scan(rows, i, r, n, offset)
    decreases from
  {
    if from == i {
      r := met;
    } else {
      SizeOfPart(DatesFrom(rows, from, offset), DatesFrom(rows, i, offset));
      MetStep(rows, from, met, offset);
      r := ScanReaches(rows, from - 1, Meet(met, At(rows, from - 1, offset)), i, n, offset);
    }
  }

  /** The last row at which the order breaks. */
  lemma {:induction false} LastBreak<T>(rows: seq<Row<T>>, j: nat, offset: int) returns (k: nat)
    requires j < |rows| && !LaterAhead(rows, j, offset)
    ensures j <= k < |rows| && !LaterAhead(rows, k, offset)
    ensures forall l :: k < l < |rows| ==> LaterAhead(rows, l, offset)
    decreases |rows| - j
  {
    if l :| j < l < |rows| && !LaterAhead(rows, l, offset) {
      k := LastBreak(rows, l, offset);
    } else {
      k := j;
    }
  }

  /** Where the order breaks last, the row's date is new to the scan and a later date is missing. */
  lemma BreakIsNew<T>(rows: seq<Row<T>>, j: nat, offset: int) returns (missing: int)
    requires j < |rows| && !LaterAhead(rows, j, offset)
    requires forall l :: j < l < |rows| ==> LaterAhead(rows, l, offset)
    ensures At(rows, j, offset) !in DatesFrom(rows, j + 1, offset)
    ensures missing in Dates(rows, offset) && missing > At(rows, j, offset) && missing !in DatesFrom(rows, j, offset)
  {
    var d := At(rows, j, offset);
    missing := Outside(Later(Dates(rows, offset), d), DatesFrom(rows, j, offset));
    forall l | j < l < |rows| ensures At(rows, l, offset) != d {
      assert LaterAhead(rows, l, offset);
      FewerFrom(rows, j, l, offset);
    }
  }

  /** With just enough dates to stop there, the scan cuts at that row's date. */
  lemma ScanStopsAtBreak<T>(rows: seq<Row<T>>, j: nat, n: nat, offset: int)
    requires j < |rows| && n == |DatesFrom(rows, j, offset)|
    requires forall l :: j < l < |rows| ==> LaterAhead(rows, l, offset)
    requires At(rows, j, offset) !in DatesFrom(rows, j + 1, offset)
    ensures n > 0 && CapByScan(rows, n, offset) == Keep(rows, offset, x => x >= At(rows, j, offset))
  {
    var d := At(rows, j, offset);
    MoreDates(rows, j + 1, offset);
    NothingMet(rows, offset);
    var met := ScanReaches(rows, |rows|, [], j + 1, n, offset);
    assert d !in Elements(met);
    assert Scan(rows, j + 1, met, n, offset) == met + [d];
    FromMidnightKeeps(rows, d, offset);
    KeepSame(rows, offset, x => x >= d, x => x >= At(rows, j, offset));
  }

  /** It then keeps one date too many. */
  lemma BreakDiffers<T>(rows: seq<Row<T>>, j: nat, offset: int)
    requires j < |rows| && !LaterAhead(rows, j, offset)
    requires forall l :: j < l < |rows| ==> LaterAhead(rows, l, offset)
    ensures var n := |DatesFrom(rows, j, offset)|; CapByScan(rows, n, offset) != CapByDateSet(rows, n, offset)
  {
    var n, dates := |DatesFrom(rows, j, offset)|, Dates(rows, offset);
    var missing := BreakIsNew(rows, j, offset);
    ScanStopsAtBreak(rows, j, n, offset);
    var keep := Largest(dates, n);
    LargestSize(dates, n);
    var e := Uncounted(DatesFrom(rows, j, offset), missing, keep);
    FromBreakOn(rows, j, offset, e, missing);
    KeptDates(rows, offset, x => x >= At(rows, j, offset), e);
    KeptDates(rows, offset, x => x in keep, e);
  }

  lemma FromBreakOn<T>(rows: seq<Row<T>>, j: nat, offset: int, e: int, missing: int)
    requires j < |rows| && e in DatesFrom(rows, j, offset) + {missing}
    requires forall l :: j < l < |rows| ==> LaterAhead(rows, l, offset)
    requires At(rows, j, offset) !in DatesFrom(rows, j + 1, offset)
    requires missing in Dates(rows, offset) && missing > At(rows, j, offset)
    ensures e in Dates(rows, offset) && e >= At(rows, j, offset)
  {
    FewerFrom(rows, j, j, offset);
    MoreDates(rows, j + 1, offset);
    NewDateIsLeast(rows, j + 1, At(rows, j, offset), offset);
  }

  /** A set of no more than |s| members misses one of s and one more. */
  lemma Uncounted(s: set<int>, more: int, keep: set<int>) returns (e: int)
    requires more !in s && |keep| <= |s|
    ensures e in s + {more} && e !in keep
  {
    if s + {more} <= keep {
      SizeOfPart(s + {more}, keep);
    }
    e := Outside(s + {more}, keep);
  }

  /** The two filters keep the same rows for every count exactly when the last row of each date comes
      before the last row of every later date. */
  lemma CapsAgreeExactly<T>(rows: seq<Row<T>>, offset: int)
    ensures (forall n :: CapByScan(rows, n, offset) == CapByDateSet(rows, n, offset)) <==> InOrder(rows, offset)
  {
    if InOrder(rows, offset) {
      forall n ensures CapByScan(rows, n, offset) == CapByDateSet(rows, n, offset) {
        ScanIsLastDates(rows, n, offset);
        DateSetIsLastDates(rows, n, offset);
      }
    } else {
      var j :| 0 <= j < |rows| && !LaterAhead(rows, j, offset);
      var k := LastBreak(rows, j, offset);
      BreakDiffers(rows, k, offset);
    }
  }

  lemma KeepTwo<T>(a: Row<T>, b: Row<T>, offset: int, good: int -> bool)
    ensures Keep([a, b], offset, good) ==
            (if good(DateOf(a.time, offset)) then [a] else []) + (if good(DateOf(b.time, offset)) then [b] else [])
  {
    assert [a, b][..1] == [a] && [a][..0] == [];
    assert Keep([a][..0], offset, good) == [];
  }

  lemma LatestOfTwo(dates: set<int>)
    requires dates == {0, 1}
    ensures Largest(dates, 1) == {1}
  {
    assert 0 in dates && 1 in dates;
    assert MaxOf(dates) == 1;
  }

  /** Out of time order they do not: the scan stops at whichever date happens to come last. */
  lemma CapsDifferOutOfOrder<T>(x: T, y: T, offset: int)
    ensures var late, early := Row(Midnight(1, offset), x), Row(Midnight(0, offset), y);
            CapByScan([late, early], 1, offset) == [late, early] && CapByDateSet([late, early], 1, offset) == [late]
  {
    var late, early := Row(Midnight(1, offset), x), Row(Midnight(0, offset), y);
    var rows := [late, early];
    assert DateOf(rows[0].time, offset) == 1 && DateOf(rows[1].time, offset) == 0;
    assert Scan(rows, 2, [], 1, offset) == [0];
    FromMidnightKeeps(rows, 0, offset);
    KeepTwo(late, early, offset, d => d >= 0);
    assert Dates(rows, offset) == {0, 1};
    LatestOfTwo(Dates(rows, offset));
    var keep := Largest(Dates(rows, offset), 1);
    KeepTwo(late, early, offset, d => d in keep);
  }

  // ---------------------------------------------------------------- what is kept

  lemma GoodLater<T>(rows: seq<Row<T>>, offset: int, good: int -> bool, i: nat, j: nat)
    requires Sorted(rows) && i <= j < |rows|
    requires forall d, e :: d <= e && good(d) ==> good(e)
    ensures good(DateOf(rows[i].time, offset)) ==> good(DateOf(rows[j].time, offset))
  {
    assert DateOf(rows[i].time, offset) <= DateOf(rows[j].time, offset);
  }

  lemma {:induction false} KeepUpwards<T>(rows: seq<Row<T>>, offset: int, good: int -> bool) returns (k: nat)
    requires Sorted(rows)
    requires forall d, e :: d <= e && good(d) ==> good(e)
    ensures k <= |rows| && Keep(rows, offset, good) == rows[k..]
    ensures forall i :: 0 <= i < |rows| ==> (i >= k <==> good(DateOf(rows[i].time, offset)))
  {
    if rows == [] {
      k := 0;
    } else {
      var last := |rows| - 1;
      k := KeepUpwards(rows[..last], offset, good);
      if k < last {
        GoodLater(rows, offset, good, k, last);
      }
      KeepOneMore(rows, offset, good, k);
      if !good(DateOf(rows[last].time, offset)) {
        k := last + 1;
      }
    }
  }

  lemma {:induction false} KeepOneMore<T>(rows: seq<Row<T>>, offset: int, good: int -> bool, k: nat)
    requires rows != [] && k < |rows|
    requires var last := |rows| - 1;
             && Keep(rows[..last], offset, good) == rows[..last][k..]
             && (forall i :: 0 <= i < last ==> (i >= k <==> good(DateOf(rows[..last][i].time, offset))))
             && (k < last ==> good(DateOf(rows[last].time, offset)))
    ensures var from := if good(DateOf(rows[|rows| - 1].time, offset)) then k else |rows|;
            && Keep(rows, offset, good) == rows[from..]
            && forall i :: 0 <= i < |rows| ==> (i >= from <==> good(DateOf(rows[i].time, offset)))
  {
    var last := |rows| - 1;
    assert forall i :: 0 <= i < last ==> rows[..last][i] == rows[i];
    if good(DateOf(rows[last].time, offset)) {
      assert rows[..last][k..] + [rows[last]] == rows[k..];
    } else {
      assert rows[..last][k..] == [];
    }
  }

  lemma TailDates<T>(rows: seq<Row<T>>, k: nat, n: nat, offset: int)
    requires k <= |rows|
    requires forall i :: 0 <= i < |rows| ==>
             (i >= k <==> |Later(Dates(rows, offset), DateOf(rows[i].time, offset))| < n)
    ensures Dates(rows[k..], offset) == Largest(Dates(rows, offset), n)
  {
    var dates := Dates(rows, offset);
    forall d | d in Dates(rows[k..], offset) ensures d in Largest(dates, n) {
      var i :| 0 <= i < |rows| - k && d == DateOf(rows[k..][i].time, offset);
      assert rows[k..][i] == rows[k + i];
      LargestByRank(dates, n, d);
    }
    forall d | d in Largest(dates, n) ensures d in Dates(rows[k..], offset) {
      LargestByRank(dates, n, d);
      var i :| 0 <= i < |rows| && d == DateOf(rows[i].time, offset);
      assert rows[i] == rows[k..][i - k];
    }
  }

  /** For a positive count on a series in time order, the result is the tail of the series that holds
      min(n, all) dates, every one of them later than all the dates dropped. */
  lemma LastDatesIsTail<T>(rows: seq<Row<T>>, n: nat, offset: int) returns (k: nat)
    requires Sorted(rows) && n > 0
    ensures k <= |rows| && LastDates(rows, n, offset) == rows[k..]
    ensures Dates(rows[k..], offset) == Largest(Dates(rows, offset), n)
    ensures |Dates(rows[k..], offset)| == if |Dates(rows, offset)| < n then |Dates(rows, offset)| else n
    ensures forall i, j :: 0 <= i < k <= j < |rows| ==> DateOf(rows[i].time, offset) < DateOf(rows[j].time, offset)
  {
    var dates := Dates(rows, offset);
    var good := d => |Later(dates, d)| < n;
    forall d, e | d <= e && good(d) ensures good(e) {
      SizeOfPart(Later(dates, e), Later(dates, d));
    }
    k := KeepUpwards(rows, offset, good);
    TailDates(rows, k, n, offset);
    LargestSize(dates, n);
  }
}
