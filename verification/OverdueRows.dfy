/** Start-up catch-up and T+1 settlement: rows whose session is over, closed or delivered outside the order
    path. Which rows are overdue is a parameter. */
module OverdueRows {
  import opened Rounding
  import opened Sums
  import opened Rows
  import opened Positions
  import opened Funds
  import opened Books
  import opened Ledger
  import opened LedgerProofs
  import opened Sequential
  import opened Validation
  import opened Batches
  import opened SandboxService
  import opened Squareoff

  // ----- catch-up -----

  predicate StaleIntraday(k: PosKey, p: Position, overdue: set<PosKey>) {
    k.product == MIS && p.net != 0 && k in overdue
  }

  /** The last price if there is one, else the row's own average: no gain is invented. */
  function StalePrice(env: Env, k: PosKey, p: Position): int {
    var ltp := Ltp(env, k.inst);
    if ltp.Some? then ltp.value else p.average
  }

  predicate ExpiredContract(k: PosKey, p: Position, expired: set<PosKey>) {
    && (k.product == MIS || k.product == NRML) && p.net != 0
    && k.inst.exchange in {NFO, BFO, MCX, CDS, BCD}
    && k in expired
  }

  /** Options expire at nothing; a future at the price on its row, else the last price, else its average. */
  function ExpiryPrice(env: Env, k: PosKey, p: Position): int {
    var kind := InstrumentType(if k.inst in env.master then env.master[k.inst] else SymbolInfo(1, 0, ""), k.inst);
    if kind == "CE" || kind == "PE" then 0
    else if p.ltp != 0 then p.ltp
    else if Ltp(env, k.inst).Some? then Ltp(env, k.inst).value
    else p.average
  }

  /** Close the listed rows in one transaction, collecting what each user is due, then settle up. */
  method CloseListed(db: Sandbox, closes: seq<(PosKey, int)>) returns (closed: nat)
    requires DistinctKeys(closes)
    requires forall i :: 0 <= i < |closes| ==> closes[i].0 in db.positions && db.positions[closes[i].0].net != 0
    modifies db`positions, db`funds
    ensures db.Snapshot() == old(CatchUp(db.Snapshot(), closes))
    ensures closed == |closes|
  {
    ghost var b := db.Snapshot();
    var releases: seq<Due> := [];
    closed := 0;
    for i := 0 to |closes|
      invariant closed == i
      invariant (db.Snapshot(), releases) == CloseTx(b, closes[..i])
    {
      var (k, price) := closes[i];
      assert closes[..i + 1][..i] == closes[..i];
      CloseKeys(b, closes[..i]);
      ClosePointwise(b, closes[..i], k);
      var pos := db.positions[k];
      var realized := if pos.net > 0 then (price - pos.average) * pos.net else (pos.average - price) * Abs(pos.net);
      var margin := pos.margin;
      pos := pos.(realized := pos.realized + realized);
      pos := pos.(net := 0, average := 0, margin := 0, unrealized := 0);
      pos := pos.(pnl := pos.realized);
      db.positions := db.positions[k := pos];
      releases := AddDue(releases, k.user, margin, realized);
      closed := closed + 1;
    }
    assert closes[..|closes|] == closes;
    ghost var c := db.Snapshot();
    for i := 0 to |releases|
      invariant db.Snapshot() == PayDues(c, releases[..i])
      invariant db.positions == c.positions
    {
      assert releases[..i + 1][..i] == releases[..i];
      if releases[i].margin > 0 {
        db.ReleaseMargin(releases[i].user, releases[i].margin, 0);
      }
      if releases[i].pnl != 0 {
        db.BookEarlierPnl(releases[i].user, releases[i].pnl);
      }
    }
    assert releases[..|releases|] == releases;
  }

  /** The state after a closing pass over the rows in `keys`, at the prices `price` gives. */
  ghost predicate ClosedPass(b: Books, c: Books, keys: set<PosKey>, price: (PosKey, Position) -> int) {
    && c == b.(positions := c.positions, funds := c.funds)
    && c.positions.Keys == b.positions.Keys
    && (forall k :: k in b.positions ==>
          c.positions[k] == if k in keys then CloseRow(b.positions[k], price(k, b.positions[k])) else b.positions[k])
    && (GoodLedger(b) ==>
          && GoodLedger(c)
          && forall u :: FundOf(c, u) == Paid(FundOf(b, u), PositionMargin(b, u) - PositionMargin(c, u),
                                              PositionRealized(c, u) - PositionRealized(b, u)))
  }

  lemma ClosedPassHolds(b: Books, closes: seq<(PosKey, int)>, keys: set<PosKey>, price: (PosKey, Position) -> int)
    requires DistinctKeys(closes)
    requires forall i :: 0 <= i < |closes| ==>
               closes[i].0 in keys && closes[i].0 in b.positions
                 && closes[i].1 == price(closes[i].0, b.positions[closes[i].0])
    requires forall k :: k in keys ==>
             k in b.positions && b.positions[k].net != 0 && exists i :: 0 <= i < |closes| && closes[i].0 == k
    ensures ClosedPass(b, CatchUp(b, closes), keys, price)
  {
    var c := CatchUp(b, closes);
    PayDuesRest(CloseTx(b, closes).0, CloseTx(b, closes).1);
    CloseKeys(b, closes);
    CloseFrame(b, closes);
    forall k | k in b.positions
      ensures c.positions[k] == if k in keys then CloseRow(b.positions[k], price(k, b.positions[k])) else b.positions[k]
    {
      ClosePointwise(b, closes, k);
      if k in keys {
        var i :| 0 <= i < |closes| && closes[i].0 == k;
        assert c.positions[k] == CloseRow(b.positions[k], closes[i].1);
      }
    }
    if GoodLedger(b) {
      CatchUpGood(b, closes);
      forall u ensures FundOf(c, u) == Paid(FundOf(b, u), PositionMargin(b, u) - PositionMargin(c, u),
                                            PositionRealized(c, u) - PositionRealized(b, u)) {
        CatchUpFunds(b, closes, u);
      }
    }
  }

  lemma {:induction false} CloseFrame(b: Books, closes: seq<(PosKey, int)>)
    ensures CloseTx(b, closes).0 == b.(positions := CloseTx(b, closes).0.positions)
  {
    if closes != [] {
      CloseFrame(b, closes[..|closes| - 1]);
    }
  }

  /** Put a price to each row. */
  method Price(rows: seq<PosKey>, db: Sandbox, price: (PosKey, Position) -> int) returns (closes: seq<(PosKey, int)>)
    requires forall i :: 0 <= i < |rows| ==> rows[i] in db.positions
    ensures |closes| == |rows|
    ensures forall i :: 0 <= i < |rows| ==> closes[i] == (rows[i], price(rows[i], db.positions[rows[i]]))
  {
    closes := [];
    for i := 0 to |rows|
      invariant |closes| == i
      invariant forall j :: 0 <= j < i ==> closes[j] == (rows[j], price(rows[j], db.positions[rows[j]]))
    {
      closes := closes + [(rows[i], price(rows[i], db.positions[rows[i]]))];
    }
  }

  /** The rows due are flat with nothing held, their day untouched, and their realized P&L has grown by `gain`;
      every other row is as it was. */
  ghost predicate GainsBooked(b: Books, c: Books, due: (PosKey, Position) -> bool, gain: (PosKey, Position) -> int) {
    forall k :: k in b.positions ==>
      var p := b.positions[k];
      && k in c.positions
      && var q := c.positions[k];
         if due(k, p) then
           && q.net == 0 && q.average == 0 && q.margin == 0 && q.unrealized == 0
           && q.today == p.today && q.pnl == q.realized && q.realized == p.realized + gain(k, p)
         else q == p
  }

  lemma GainsOfPass(b: Books, c: Books, keys: set<PosKey>, price: (PosKey, Position) -> int,
    due: (PosKey, Position) -> bool, gain: (PosKey, Position) -> int)
    requires ClosedPass(b, c, keys, price)
    requires forall k :: k in b.positions ==> (k in keys <==> due(k, b.positions[k]))
    requires forall k :: k in keys ==>
             k in b.positions && var p := b.positions[k]; (price(k, p) - p.average) * p.net == gain(k, p)
    ensures GainsBooked(b, c, due, gain)
  {
    forall k | k in b.positions && due(k, b.positions[k])
      ensures CloseRow(b.positions[k], price(k, b.positions[k])).realized ==
              b.positions[k].realized + gain(k, b.positions[k])
    {
      CloseRowIsFlat(b.positions[k], price(k, b.positions[k]));
    }
  }

  /** What a stale intraday row gains: up to the quoted price, and nothing without one. */
  function StaleGain(env: Env, k: PosKey, p: Position): int {
    if Quoted(env, k.inst) then (env.prices[k.inst] - p.average) * p.net else 0
  }

  /** What an expired row gains: an option loses its whole cost, a future goes to the price on its row, or
      to the quoted price where the row has none, or gains nothing where there is neither. */
  function ExpiryGain(env: Env, k: PosKey, p: Position): int {
    if IsOption(env, k.inst) then -(p.average * p.net)
    else if p.ltp != 0 then (p.ltp - p.average) * p.net
    else if Quoted(env, k.inst) then (env.prices[k.inst] - p.average) * p.net
    else 0
  }

  predicate DueAtExpiry(k: PosKey, p: Position, expired: set<PosKey>) {
    && (k.product == MIS || k.product == NRML) && p.net != 0
    && k.inst.exchange in {NFO, BFO, MCX, CDS, BCD} && k in expired
  }

  lemma StalePriceGains(env: Env, k: PosKey, p: Position)
    ensures (StalePrice(env, k, p) - p.average) * p.net == StaleGain(env, k, p)
  {
  }

  lemma ExpiryPriceIs(env: Env, k: PosKey, p: Position)
    ensures ExpiryPrice(env, k, p) ==
            if IsOption(env, k.inst) then 0 else if p.ltp != 0 then p.ltp
            else if Quoted(env, k.inst) then env.prices[k.inst] else p.average
  {
    KindOf(env, k.inst);
  }

  lemma ExpiryPriceGains(env: Env, k: PosKey, p: Position)
    ensures (ExpiryPrice(env, k, p) - p.average) * p.net == ExpiryGain(env, k, p)
  {
    ExpiryPriceIs(env, k, p);
    NothingLess(p.average, p.net);
  }

  lemma NothingLess(average: int, net: int)
    ensures (0 - average) * net == -(average * net) && (average - average) * net == 0
  {
  }

  /** The books once every expired contract is settled. */
  ghost predicate Settled(b: Books, c: Books, env: Env, expired: set<PosKey>) {
    && ClosedPass(b, c, set k | k in b.positions && ExpiredContract(k, b.positions[k], expired),
                  (k: PosKey, p: Position) => ExpiryPrice(env, k, p))
    && GainsBooked(b, c, (k: PosKey, p: Position) => DueAtExpiry(k, p, expired),
                   (k: PosKey, p: Position) => ExpiryGain(env, k, p))
  }

  /** Close every stale intraday row. The day's realized bucket of the row and of the fund is untouched. */
  method CloseStaleIntraday(db: Sandbox, env: Env, overdue: set<PosKey>) returns (closed: nat)
    modifies db`positions, db`funds
    ensures ClosedPass(old(db.Snapshot()), db.Snapshot(),
                       old(set k | k in db.positions && StaleIntraday(k, db.positions[k], overdue)),
                       (k: PosKey, p: Position) => StalePrice(env, k, p))
    ensures closed == |old(set k | k in db.positions && StaleIntraday(k, db.positions[k], overdue))|
    ensures forall k :: k in db.positions ==> !StaleIntraday(k, db.positions[k], overdue)
    ensures GainsBooked(old(db.Snapshot()), db.Snapshot(),
                        (k: PosKey, p: Position) => k.product == MIS && p.net != 0 && k in overdue,
                        (k: PosKey, p: Position) => StaleGain(env, k, p))
  {
    ghost var b := db.Snapshot();
    var keys := set k | k in db.positions && StaleIntraday(k, db.positions[k], overdue);
    closed := CloseKeysAt(db, keys, (k: PosKey, p: Position) => StalePrice(env, k, p));
    forall k, p ensures (StalePrice(env, k, p) - p.average) * p.net == StaleGain(env, k, p) {
      StalePriceGains(env, k, p);
    }
    GainsOfPass(b, db.Snapshot(), keys, (k: PosKey, p: Position) => StalePrice(env, k, p),
                (k: PosKey, p: Position) => k.product == MIS && p.net != 0 && k in overdue,
                (k: PosKey, p: Position) => StaleGain(env, k, p));
  }

  /** Settle every expired contract. */
  method CloseExpired(db: Sandbox, env: Env, expired: set<PosKey>) returns (closed: nat)
    modifies db`positions, db`funds
    ensures Settled(old(db.Snapshot()), db.Snapshot(), env, expired)
    ensures closed == |old(set k | k in db.positions && ExpiredContract(k, db.positions[k], expired))|
    ensures forall k :: k in db.positions ==> !ExpiredContract(k, db.positions[k], expired)
  {
    ghost var b := db.Snapshot();
    var keys := set k | k in db.positions && ExpiredContract(k, db.positions[k], expired);
    closed := CloseKeysAt(db, keys, (k: PosKey, p: Position) => ExpiryPrice(env, k, p));
    forall k, p ensures (ExpiryPrice(env, k, p) - p.average) * p.net == ExpiryGain(env, k, p) {
      ExpiryPriceGains(env, k, p);
    }
    GainsOfPass(b, db.Snapshot(), keys, (k: PosKey, p: Position) => ExpiryPrice(env, k, p),
                (k: PosKey, p: Position) => DueAtExpiry(k, p, expired),
                (k: PosKey, p: Position) => ExpiryGain(env, k, p));
  }

  method CloseKeysAt(db: Sandbox, keys: set<PosKey>, price: (PosKey, Position) -> int) returns (closed: nat)
    requires forall k :: k in keys ==> k in db.positions && db.positions[k].net != 0
    modifies db`positions, db`funds
    ensures ClosedPass(old(db.Snapshot()), db.Snapshot(), keys, price)
    ensures closed == |keys|
  {
    ghost var b := db.Snapshot();
    var rows := Enumerate(keys);
    assert forall i :: 0 <= i < |rows| ==> rows[i] in rows;
    SeqSetSize(rows, keys);
    var closes := Price(rows, db, price);
    forall k | k in keys ensures exists i :: 0 <= i < |closes| && closes[i].0 == k {
      var i :| 0 <= i < |rows| && rows[i] == k;
      assert closes[i].0 == k;
    }
    closed := CloseListed(db, closes);
    ClosedPassHolds(b, closes, keys, price);
  }

  lemma {:induction false} SeqSetSize<T>(xs: seq<T>, s: set<T>)
    requires forall x :: x in xs <==> x in s
    requires forall i, j :: 0 <= i < j < |xs| ==> xs[i] != xs[j]
    ensures |xs| == |s|
  {
    if xs == [] {
      assert s == {};
    } else {
      var n := |xs| - 1;
      assert xs == xs[..n] + [xs[n]];
      SeqSetSize(xs[..n], s - {xs[n]});
    }
  }

  // ----- T+1 settlement -----

  predicate DueForDelivery(k: PosKey, p: Position, overdue: set<PosKey>) {
    Deliverable(k, p) && k in overdue
  }

  lemma {:induction false} SettlePointwise(b: Books, keys: seq<PosKey>, k: PosKey)
    requires forall i, j :: 0 <= i < j < |keys| ==> keys[i] != keys[j]
    requires forall i :: 0 <= i < |keys| ==> keys[i] in b.positions && Deliverable(keys[i], b.positions[keys[i]])
    ensures var c := SettleTx(b, keys).0;
            && c == b.(positions := c.positions, holdings := c.holdings)
            && (k in c.positions <==> k in b.positions && k !in keys)
            && (k in c.positions ==> c.positions[k] == b.positions[k])
  {
    if keys != [] {
      var n := |keys| - 1;
      assert keys == keys[..n] + [keys[n]];
      SettlePointwise(b, keys[..n], k);
      SettlePointwise(b, keys[..n], keys[n]);
      assert keys[n] !in keys[..n];
    }
  }

  /** Per user and instrument, shares held and long are as before, and their cost within half a tick per
      share of the merged holding. */
  ghost predicate SharesKept(b: Books, c: Books) {
    GoodHoldings(b) ==>
      && GoodHoldings(c)
      && forall h ::
           AllShares(c, h) == AllShares(b, h) && 2 * Abs(AllCost(c, h) - AllCost(b, h)) <= HeldQuantity(c, h)
  }

  /** Used margin falls by exactly the margin of the rows that left; nothing else in the fund moves. */
  ghost predicate MarginMoved(b: Books, c: Books) {
    GoodLedger(b) ==>
      && GoodLedger(c)
      && forall u ::
           FundOf(c, u) == FundOf(b, u).(used := FundOf(b, u).used - (PositionMargin(b, u) - PositionMargin(c, u)))
  }

  function DueRows(b: Books, overdue: set<PosKey>): set<PosKey> {
    set k | k in b.positions && DueForDelivery(k, b.positions[k], overdue)
  }

  /** Deliver the listed rows in one transaction, collecting what each user's fund must move, then move it. */
  method DeliverRows(db: Sandbox, rows: seq<PosKey>) returns (moved: nat)
    requires forall i, j :: 0 <= i < j < |rows| ==> rows[i] != rows[j]
    requires forall i :: 0 <= i < |rows| ==> rows[i] in db.positions && Deliverable(rows[i], db.positions[rows[i]])
    modifies db`positions, db`holdings, db`funds
    ensures db.Snapshot() == old(SettleAll(db.Snapshot(), rows))
    ensures moved == |rows|
  {
    ghost var b := db.Snapshot();
    var transfers: seq<Due> := [];
    moved := 0;
    for i := 0 to |rows|
      invariant moved == i
      invariant (db.Snapshot(), transfers) == SettleTx(b, rows[..i])
    {
      var k := rows[i];
      assert rows[..i + 1][..i] == rows[..i];
      assert k !in rows[..i];
      SettlePointwise(b, rows[..i], k);
      var pos := db.positions[k];
      var h := HoldKey(k.user, k.inst);
      var merged := MergeRow(if h in db.holdings then Some(db.holdings[h]) else None, pos);
      db.holdings := db.holdings[h := merged];
      if pos.margin > 0 {
        transfers := AddDue(transfers, k.user, pos.margin, 0);
      }
      db.positions := db.positions - {k};
      moved := moved + 1;
    }
    assert rows[..|rows|] == rows;
    ghost var c := db.Snapshot();
    for i := 0 to |transfers|
      invariant db.Snapshot() == MoveDues(c, transfers[..i])
    {
      assert transfers[..i + 1][..i] == transfers[..i];
      db.TransferMarginToHoldings(transfers[i].user, transfers[i].margin);
    }
    assert transfers[..|transfers|] == transfers;
  }

  /** Move long delivery rows into holdings: each due row leaves the position book, its shares and cost join
      the holding, and used margin falls by exactly its margin. Nothing else moves. */
  method SettleCncToHoldings(db: Sandbox, overdue: set<PosKey>) returns (moved: nat)
    modifies db`positions, db`holdings, db`funds
    ensures var b, c := old(db.Snapshot()), db.Snapshot();
            && c == b.(positions := c.positions, holdings := c.holdings, funds := c.funds)
            && (forall k :: k in c.positions <==> k in b.positions && !DueForDelivery(k, b.positions[k], overdue))
            && (forall k :: k in c.positions ==> c.positions[k] == b.positions[k])
            && (forall k :: k in b.positions ==>
                  (k !in c.positions <==> k.product == CNC && b.positions[k].net > 0 && k in overdue))
            && SharesKept(b, c) && MarginMoved(b, c)
            && moved == |DueRows(b, overdue)|
  {
    ghost var b := db.Snapshot();
    var due := DueRows(db.Snapshot(), overdue);
    var rows := Enumerate(due);
    assert forall i :: 0 <= i < |rows| ==> rows[i] in rows;
    SeqSetSize(rows, due);
    moved := DeliverRows(db, rows);
    SettlementHolds(b, rows);
    ghost var c := db.Snapshot();
    forall k ensures (k in c.positions <==> k in b.positions && k !in rows)
      && (k in c.positions ==> c.positions[k] == b.positions[k]) {
      SettlePointwise(b, rows, k);
    }
  }

  method MergeRow(existing: Option<Holding>, pos: Position) returns (h: Holding)
    ensures h == Merge(existing, pos)
  {
    var ltp := if pos.ltp != 0 then pos.ltp else pos.average;
    if existing == None {
      return Holding(pos.net, pos.average, ltp, RoundDiv((ltp - pos.average) * pos.net, TICKS_PER_PAISA));
    }
    h := existing.value;
    var total := h.quantity + pos.net;
    if total > 0 {
      var totalCost := h.average * h.quantity + pos.average * pos.net;
      var newAvg := RoundDiv(totalCost, total);
      h := h.(average := newAvg, quantity := total, ltp := ltp);
      h := h.(pnl := RoundDiv((ltp - newAvg) * total, TICKS_PER_PAISA));
    }
  }

  lemma SettlementHolds(b: Books, rows: seq<PosKey>)
    ensures var c := SettleAll(b, rows);
            c == SettleTx(b, rows).0.(funds := c.funds) && SharesKept(b, c) && MarginMoved(b, c)
  {
    MoveDuesRest(SettleTx(b, rows).0, SettleTx(b, rows).1);
    if GoodHoldings(b) {
      SettlementShares(b, rows);
    }
    if GoodLedger(b) {
      SettlementMargin(b, rows);
    }
  }

  lemma SettlementShares(b: Books, rows: seq<PosKey>)
    requires GoodHoldings(b)
    ensures SharesKept(b, SettleAll(b, rows))
  {
    var m, c := SettleTx(b, rows).0, SettleAll(b, rows);
    MoveDuesRest(m, SettleTx(b, rows).1);
    SettlementKeepsHoldings(b, rows);
    forall h
      ensures AllShares(c, h) == AllShares(b, h) && 2 * Abs(AllCost(c, h) - AllCost(b, h)) <= HeldQuantity(c, h)
    {
      SettlementKeepsShares(b, rows, h);
      SameShares(m, c, h);
    }
  }

  lemma SameShares(b: Books, c: Books, h: HoldKey)
    requires b.positions == c.positions && b.holdings == c.holdings
    ensures AllShares(b, h) == AllShares(c, h) && AllCost(b, h) == AllCost(c, h)
            && HeldQuantity(b, h) == HeldQuantity(c, h)
  {
  }

  lemma SettlementMargin(b: Books, rows: seq<PosKey>)
    requires GoodLedger(b)
    ensures MarginMoved(b, SettleAll(b, rows))
  {
    var c := SettleAll(b, rows);
    forall u
      ensures FundOf(c, u) == FundOf(b, u).(used := FundOf(b, u).used - (PositionMargin(b, u) - PositionMargin(c, u)))
              && Leak(Quiet(c, true), u) >= 0
    {
      SettleAllFunds(b, rows, u);
      assert Leak(Quiet(b, true), u) >= 0;
    }
    SettleAllFunds(b, rows, 0);
  }

  lemma {:induction false} SettlementKeepsHoldings(b: Books, keys: seq<PosKey>)
    requires GoodHoldings(b)
    ensures GoodHoldings(SettleTx(b, keys).0)
  {
    if keys != [] {
      SettlementKeepsHoldings(b, keys[..|keys| - 1]);
    }
  }
}
