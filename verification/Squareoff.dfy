/** Intraday square-off: cancel what is pending, then reverse what is open. */
module Squareoff {
  import opened Rounding
  import opened Sums
  import opened Rows
  import opened Positions
  import opened Funds
  import opened Books
  import opened Ledger
  import opened LedgerProofs
  import opened OrderLife
  import opened Sequential
  import opened Leaks
  import opened Validation
  import opened Reversal
  import opened Batches
  import opened SandboxService

  /** The exchanges of a bucket; none for an unknown name. */
  function BucketExchanges(bucket: string): set<Exchange> {
    if bucket == "nse_nfo_bse_bfo" then {NSE, NFO, BSE, BFO}
    else if bucket == "cds" then {CDS, BCD}
    else if bucket == "mcx" then {MCX}
    else {}
  }

  /** The bucket that squares an exchange off; none for crypto and for exchanges it has never heard of. */
  function BucketOf(exchange: Exchange): Option<string> {
    match exchange
    case NSE => Some("nse_nfo_bse_bfo")
    case NFO => Some("nse_nfo_bse_bfo")
    case BSE => Some("nse_nfo_bse_bfo")
    case BFO => Some("nse_nfo_bse_bfo")
    case CDS => Some("cds")
    case BCD => Some("cds")
    case MCX => Some("mcx")
    case CRYPTO => None
    case OtherExchange(_) => None
  }

  /** Seven exchanges have a bucket, each one only. */
  lemma EachExchangeHasItsBucket(bucket: string, exchange: Exchange)
    ensures exchange in BucketExchanges(bucket) <==> BucketOf(exchange) == Some(bucket)
    ensures BucketExchanges(bucket) == {} <==> bucket !in {"nse_nfo_bse_bfo", "cds", "mcx"}
    ensures BucketOf(exchange).Some? <==> exchange in {NSE, NFO, BSE, BFO, CDS, BCD, MCX}
  {
    assert NSE in BucketExchanges("nse_nfo_bse_bfo") && CDS in BucketExchanges("cds") && MCX in BucketExchanges("mcx");
  }

  /** The rows of a query, in some order. */
  method Enumerate<T(==)>(s: set<T>) returns (xs: seq<T>)
    ensures forall x :: x in xs <==> x in s
    ensures forall i, j :: 0 <= i < j < |xs| ==> xs[i] != xs[j]
  {
    xs := [];
    var rest := s;
    while rest != {}
      invariant forall x :: x in s <==> x in xs || x in rest
      invariant forall x :: x in rest ==> x !in xs
      invariant forall i, j :: 0 <= i < j < |xs| ==> xs[i] != xs[j]
      decreases rest
    {
      var x :| x in rest;
      xs := xs + [x];
      rest := rest - {x};
    }
  }

  function SweepIds(b: Books, exchanges: set<Exchange>): set<OrderId> {
    set id | id in b.orders && Sweepable(b.orders[id], exchanges)
  }

  /** An order that is not in the list is not touched; one that is, and can be, is cancelled. */
  lemma {:induction false} SweepPointwise(b: Books, exchanges: set<Exchange>, ids: seq<OrderId>, id: OrderId)
    requires id in b.orders
    requires forall i, j :: 0 <= i < j < |ids| ==> ids[i] != ids[j]
    ensures var c := SweepTx(b, exchanges, ids).0;
            && c.orders.Keys == b.orders.Keys
            && c.orders[id] == if id in ids && Sweepable(b.orders[id], exchanges)
                               then b.orders[id].(status := CANCELLED, margin := 0) else b.orders[id]
  {
    if ids != [] {
      SweepPointwise(b, exchanges, ids[..|ids| - 1], id);
      SweepAddsNone(b, exchanges, ids[..|ids| - 1]);
      assert ids == ids[..|ids| - 1] + [ids[|ids| - 1]];
    }
  }

  predicate NoPnl(dues: seq<Due>) {
    forall i :: 0 <= i < |dues| ==> dues[i].pnl == 0
  }

  lemma {:induction false} AddNoPnl(dues: seq<Due>, u: UserId, margin: int)
    requires NoPnl(dues)
    ensures NoPnl(AddDue(dues, u, margin, 0))
  {
    if dues != [] && dues[0].user != u {
      AddNoPnl(dues[1..], u, margin);
    }
  }

  method CancelPendingMisOrders(db: Sandbox, exchanges: set<Exchange>) returns (cancelled: nat, ghost ids: seq<OrderId>)
    modifies db`orders, db`funds
    ensures forall id :: id in ids <==> id in old(SweepIds(db.Snapshot(), exchanges))
    ensures forall i, j :: 0 <= i < j < |ids| ==> ids[i] != ids[j]
    ensures cancelled == |ids|
    ensures db.Snapshot() == old(SweepAndPay(db.Snapshot(), exchanges, ids))
    ensures db.orders.Keys == old(db.orders.Keys)
  {
    ghost var b := db.Snapshot();
    var rows := Enumerate<OrderId>(SweepIds(db.Snapshot(), exchanges));
    ids := rows;
    var releases: seq<Due> := [];
    forall j | 0 <= j < |rows| ensures rows[j] in b.orders && Sweepable(b.orders[rows[j]], exchanges) {
      assert rows[j] in rows;
    }
    cancelled := 0;
    for i := 0 to |rows|
      invariant cancelled == i
      invariant (db.Snapshot(), releases) == SweepTx(b, exchanges, rows[..i])
      invariant NoPnl(releases)
      invariant db.orders.Keys == b.orders.Keys
    {
      var id := rows[i];
      var o := db.orders[id];
      SweepPointwise(b, exchanges, rows[..i], id);
      assert rows[..i + 1][..i] == rows[..i];
      if o.margin > 0 {
        AddNoPnl(releases, o.key.user, o.margin);
        releases := AddDue(releases, o.key.user, o.margin, 0);
      }
      db.orders := db.orders[id := o.(status := CANCELLED, margin := 0)];
      cancelled := cancelled + 1;
    }
    assert rows[..|rows|] == rows;
    ghost var c := db.Snapshot();
    for i := 0 to |releases|
      invariant db.Snapshot() == PayDues(c, releases[..i])
      invariant db.orders == c.orders
    {
      assert releases[..i + 1][..i] == releases[..i];
      db.ReleaseMargin(releases[i].user, releases[i].margin, 0);
    }
    assert releases[..|releases|] == releases;
  }

  // ----- placing keeps the ledger -----

  lemma PlaceNowIsQuiet(b: Books, initialised: bool, request: Order, reference: int, leverage: Leverage, id: OrderId,
    ltp: int)
    requires Placeable(Quiet(b, initialised), request, id)
    ensures PlaceNow(Quiet(b, initialised), request, reference, leverage, id, ltp).tasks == [Idle]
  {
    var w := Quiet(b, initialised);
    CreatedTask(w, request, reference, leverage, id, ltp);
    var v := CreatedWorld(w, request, reference, leverage, id, ltp);
    assert |v.tasks| == 1;
    FillNowIsQuiet(v);
  }

  lemma FillNowIsQuiet(v: World)
    requires |v.tasks| == 1 && (v.tasks[0].Idle? || v.tasks[0].Attempt?)
    ensures FillNow(v, 0).tasks == [Idle]
  {
    var x := Do(v, TryFill(0));
    assert x.tasks[0].Idle? || x.tasks[0].Filled?;
    var y := Do(x, ApplyStep(0));
    assert y.tasks[0].Idle? || y.tasks[0].Releasing?;
  }

  lemma IdleLeak(b: Books, initialised: bool, u: UserId)
    ensures Leak(World(b, initialised, [Idle]), u) == Leak(Quiet(b, true), u)
    ensures Leak(Quiet(b, initialised), u) == Leak(Quiet(b, true), u)
  {
    OneTask(Idle, u);
  }

  lemma StepKeepsEquity(w: World, e: Event, u: UserId)
    requires Inv(w) && !e.TransferStep?
    ensures Inv(Do(w, e)) && Equity(FundOf(Do(w, e).db, u)) == Equity(FundOf(w.db, u))
  {
    InvStep(w, e);
    StepAccounts(w, e, u);
  }

  lemma PlaceNowKeepsEquity(w: World, request: Order, reference: int, leverage: Leverage, id: OrderId, ltp: int,
    u: UserId)
    requires Inv(w)
    ensures Equity(FundOf(PlaceNow(w, request, reference, leverage, id, ltp).db, u)) == Equity(FundOf(w.db, u))
  {
    var i := |w.tasks|;
    var w1 := Do(w, Place(request, reference, leverage));
    var w2 := Do(w1, BlockStep(i));
    var w3 := Do(w2, CreateStep(i, id, ltp));
    var w4 := Do(w3, TryFill(i));
    StepKeepsEquity(w, Place(request, reference, leverage), u);
    StepKeepsEquity(w1, BlockStep(i), u);
    StepKeepsEquity(w2, CreateStep(i, id, ltp), u);
    StepKeepsEquity(w3, TryFill(i), u);
    StepKeepsEquity(w4, ApplyStep(i), u);
    StepKeepsEquity(Do(w4, ApplyStep(i)), ReleaseStep(i), u);
  }

  /** The reverse order keeps every user's ledger, leak and equity. */
  lemma ReversedKeepsLedger(b: Books, k: PosKey, id: OrderId, ltp: int)
    requires GoodLedger(b) && k in b.positions && b.positions[k].net != 0 && id !in b.orders && ltp > 0
    ensures GoodLedger(Reversed(b, k, id, ltp))
    ensures forall u :: Leak(Quiet(Reversed(b, k, id, ltp), true), u) == Leak(Quiet(b, true), u)
                        && Equity(FundOf(Reversed(b, k, id, ltp), u)) == Equity(FundOf(b, u))
  {
    var c := Reversed(b, k, id, ltp);
    forall u ensures Leak(Quiet(c, true), u) == Leak(Quiet(b, true), u) && Leak(Quiet(c, true), u) >= 0
                     && Equity(FundOf(c, u)) == Equity(FundOf(b, u)) {
      ReversedKeepsUser(b, k, id, ltp, u);
      assert Leak(Quiet(b, true), u) >= 0;
    }
    ReversedKeepsUser(b, k, id, ltp, 0);
  }

  lemma ReversedKeepsUser(b: Books, k: PosKey, id: OrderId, ltp: int, u: UserId)
    requires GoodLedger(b) && k in b.positions && b.positions[k].net != 0 && id !in b.orders && ltp > 0
    ensures var c := Reversed(b, k, id, ltp);
            && GoodBooks(c)
            && Leak(Quiet(c, true), u) == Leak(Quiet(b, true), u)
            && Equity(FundOf(c, u)) == Equity(FundOf(b, u))
  {
    var w, request, lev := Quiet(b, true), ReverseOrder(k, b.positions[k].net), Leverage(1, 1);
    QuietInv(b, true);
    PlaceNowLeak(w, request, ltp, lev, id, ltp, u);
    PlaceNowKeepsEquity(w, request, ltp, lev, id, ltp, u);
    ReverseGoesThrough(b, true, k, lev, id, ltp);
    PlaceNowIsQuiet(b, true, request, ltp, lev, id, ltp);
    var v, c := PlaceNow(w, request, ltp, lev, id, ltp), Reversed(b, k, id, ltp);
    IdleLeak(c, true, u);
    assert v == World(c, true, [Idle]);
  }

  /** So does recording a rejected order. */
  lemma RejectedKeepsLedger(b: Books, request: Order, id: OrderId)
    requires GoodLedger(b) && id !in b.orders
    ensures var c := CreateTx(b, id, NewOrder(request, 0, REJECTED));
            && GoodLedger(c)
            && (forall u :: Leak(Quiet(c, true), u) == Leak(Quiet(b, true), u) && FundOf(c, u) == FundOf(b, u))
  {
    var c := CreateTx(b, id, NewOrder(request, 0, REJECTED));
    forall u ensures Leak(Quiet(c, true), u) == Leak(Quiet(b, true), u) && Leak(Quiet(c, true), u) >= 0 {
      TotalUpdate(b.orders, PendingMarginOf(u), id, NewOrder(request, 0, REJECTED));
      assert Leak(Quiet(b, true), u) >= 0;
    }
  }

  // ----- the reverse step -----

  predicate OpenIn(k: PosKey, p: Position, exchanges: set<Exchange>) {
    k.product == MIS && p.net != 0 && k.inst.exchange in exchanges
  }

  /** Placing the reverse order of one open row: it goes through exactly when it passes and has a price;
      otherwise a rejected order is recorded and nothing else changes. */
  lemma ReverseOutcome(b: Books, initialised: bool, env: Env, k: PosKey, id: OrderId)
    requires k in b.positions && b.positions[k].net != 0 && id !in b.orders
    ensures var request := ReverseOrder(k, b.positions[k].net);
            PlaceOrderSpec(b, initialised, env, request, id).db ==
            if Reversible(b, env, k) then Reversed(b, k, id, Ltp(env, k.inst).value)
            else CreateTx(b, id, NewOrder(request, 0, REJECTED))
  {
    var request := ReverseOrder(k, b.positions[k].net);
    if Reversible(b, env, k) {
      var info := Validate(b, env, request).info;
      ReverseGoesThrough(b, initialised, k, LeverageFor(env, request, InstrumentType(info, k.inst)), id,
        Ltp(env, k.inst).value);
    }
  }

  /** What the pass has done so far, given the rows it has handled. */
  ghost predicate PassState(b: Books, c: Books, env: Env, handled: set<PosKey>) {
    && c.capital == b.capital && c.holdings == b.holdings
    && c.positions.Keys == b.positions.Keys
    && (forall k :: k in b.positions ==>
          c.positions[k] == if k in handled && Reversible(b, env, k)
                            then ReversedRow(b.positions[k], Ltp(env, k.inst).value).pos else b.positions[k])
    && (forall id :: id in b.orders ==> id in c.orders && c.orders[id] == b.orders[id])
    && (forall id :: id in c.orders && id !in b.orders ==>
          (c.orders[id].status == COMPLETE || c.orders[id].status == REJECTED) && c.orders[id].margin == 0)
  }

  ghost predicate SameLedger(b: Books, c: Books) {
    GoodLedger(b) ==>
      GoodLedger(c) && forall u :: Leak(Quiet(c, true), u) == Leak(Quiet(b, true), u)
                                   && Equity(FundOf(c, u)) == Equity(FundOf(b, u))
  }

  lemma ReversedPassState(b: Books, c: Books, env: Env, handled: set<PosKey>, k: PosKey, id: OrderId)
    requires PassState(b, c, env, handled)
    requires k in b.positions && k !in handled && b.positions[k].net != 0 && id !in c.orders
    requires Reversible(b, env, k)
    ensures PassState(b, Reversed(c, k, id, Ltp(env, k.inst).value), env, handled + {k})
  {
    var ltp := Ltp(env, k.inst).value;
    var d := Reversed(c, k, id, ltp);
    assert c.positions[k] == b.positions[k];
    assert d.positions == c.positions[k := ReversedRow(b.positions[k], ltp).pos];
    assert d.orders == c.orders[id := CompletedReverse(k, b.positions[k].net, ltp)];
  }

  lemma RejectedPassState(b: Books, c: Books, env: Env, handled: set<PosKey>, k: PosKey, id: OrderId, o: Order)
    requires PassState(b, c, env, handled)
    requires k in b.positions && id !in c.orders && o.status == REJECTED && o.margin == 0
    requires !Reversible(b, env, k)
    ensures PassState(b, CreateTx(c, id, o), env, handled + {k})
  {
  }

  lemma PassLedger(b: Books, c: Books, env: Env, k: PosKey, id: OrderId)
    requires SameLedger(b, c)
    requires k in c.positions && c.positions[k].net != 0 && id !in c.orders
    ensures if Reversible(c, env, k) then SameLedger(b, Reversed(c, k, id, Ltp(env, k.inst).value))
            else SameLedger(b, CreateTx(c, id, NewOrder(ReverseOrder(k, c.positions[k].net), 0, REJECTED)))
  {
    if GoodLedger(b) {
      if Reversible(c, env, k) {
        ReversedKeepsLedger(c, k, id, Ltp(env, k.inst).value);
      } else {
        RejectedKeepsLedger(c, ReverseOrder(k, c.positions[k].net), id);
      }
    }
  }

  /** Reverse one open row. */
  method ReverseRow(db: Sandbox, k: PosKey, env: Env, ghost b: Books, ghost handled: set<PosKey>)
    returns (ok: bool, id: OrderId)
    requires db.Valid() && PassState(b, db.Snapshot(), env, handled) && SameLedger(b, db.Snapshot())
    requires k in b.positions && k !in handled && b.positions[k].net != 0
    modifies db
    ensures id !in old(db.orders) && db.orders.Keys == old(db.orders.Keys) + {id}
    ensures db.Valid() && PassState(b, db.Snapshot(), env, handled + {k}) && SameLedger(b, db.Snapshot())
    ensures ok == Reversible(b, env, k)
  {
    var qty := db.positions[k].net;
    var action := if qty > 0 then SELL else BUY;
    var request := Order(k, action, Abs(qty), 0, MARKET, 0, 0, 0, OPEN, 0);
    ghost var c, next := db.Snapshot(), db.nextId;
    ReversibleFrame(b, c, env, k);
    ReverseOutcome(c, db.initialised, env, k, next);
    PassLedger(b, c, env, k, next);
    if Reversible(b, env, k) {
      ReversedPassState(b, c, env, handled, k, next);
    } else {
      RejectedPassState(b, c, env, handled, k, next, NewOrder(request, 0, REJECTED));
    }
    var outcome;
    outcome, id := db.PlaceOrder(env, request);
    ok := outcome == Accepts;
  }

  ghost function Closed(b: Books, env: Env, keys: set<PosKey>): set<PosKey>
    requires keys <= b.positions.Keys
  {
    set k | k in keys && Reversible(b, env, k)
  }

  lemma ClosedGrows(b: Books, env: Env, keys: set<PosKey>, k: PosKey)
    requires keys <= b.positions.Keys && k in b.positions && k !in keys
    ensures |Closed(b, env, keys + {k})| == |Closed(b, env, keys)| + if Reversible(b, env, k) then 1 else 0
  {
    assert Closed(b, env, keys + {k}) ==
           if Reversible(b, env, k) then Closed(b, env, keys) + {k} else Closed(b, env, keys);
  }

  /** The open intraday rows of some exchanges. */
  function OpenRows(b: Books, exchanges: set<Exchange>): (keys: set<PosKey>)
    ensures keys <= b.positions.Keys
  {
    set k | k in b.positions && OpenIn(k, b.positions[k], exchanges)
  }

  /** The orders recorded so far: one new one for each row handled. */
  ghost predicate Recorded(before: set<OrderId>, after: set<OrderId>, ids: seq<OrderId>) {
    && (forall id :: id in after <==> id in before || id in ids)
    && (forall id :: id in ids ==> id !in before)
    && (forall i, j :: 0 <= i < j < |ids| ==> ids[i] != ids[j])
  }

  lemma RecordedGrows(before: set<OrderId>, after: set<OrderId>, ids: seq<OrderId>, id: OrderId)
    requires Recorded(before, after, ids) && id !in after
    ensures Recorded(before, after + {id}, ids + [id])
  {
    assert forall x :: x in ids + [id] <==> x in ids || x == id;
  }

  /** The acceptances counted and the orders recorded, one for each row handled. */
  ghost predicate PassCounts(b: Books, after: set<OrderId>, env: Env, handled: set<PosKey>, placed: nat,
                             ids: seq<OrderId>)
    requires handled <= b.positions.Keys
  {
    placed == |Closed(b, env, handled)| && Recorded(b.orders.Keys, after, ids) && |ids| == |handled|
  }

  lemma CountsGrow(b: Books, after: set<OrderId>, env: Env, handled: set<PosKey>, placed: nat, ids: seq<OrderId>,
                   k: PosKey, id: OrderId)
    requires handled <= b.positions.Keys && PassCounts(b, after, env, handled, placed, ids)
    requires k in b.positions && k !in handled && id !in after
    ensures PassCounts(b, after + {id}, env, handled + {k}, if Reversible(b, env, k) then placed + 1 else placed,
                       ids + [id])
  {
    ClosedGrows(b, env, handled, k);
    RecordedGrows(b.orders.Keys, after, ids, id);
  }

  /** What the loop over the rows has done. */
  ghost predicate PassDone(b: Books, c: Books, env: Env, handled: set<PosKey>, placed: nat, ids: seq<OrderId>)
    requires handled <= b.positions.Keys
  {
    && PassState(b, c, env, handled) && SameLedger(b, c)
    && PassCounts(b, c.orders.Keys, env, handled, placed, ids)
  }

  lemma PassBegins(b: Books, env: Env)
    ensures PassDone(b, b, env, {}, 0, [])
  {
    assert Closed(b, env, {}) == {};
  }

  /** One turn of the loop. */
  method ReverseNext(db: Sandbox, k: PosKey, env: Env, placed: nat, ids: seq<OrderId>,
                     ghost b: Books, ghost handled: set<PosKey>)
    returns (count: nat, recorded: seq<OrderId>)
    requires db.Valid() && handled <= b.positions.Keys && PassDone(b, db.Snapshot(), env, handled, placed, ids)
    requires k in b.positions && k !in handled && b.positions[k].net != 0
    modifies db
    ensures db.Valid() && PassDone(b, db.Snapshot(), env, handled + {k}, count, recorded)
  {
    ghost var before := db.orders.Keys;
    var ok, id := ReverseRow(db, k, env, b, handled);
    CountsGrow(b, before, env, handled, placed, ids, k, id);
    count := if ok then placed + 1 else placed;
    recorded := ids + [id];
  }

  /** Reverse the listed open rows, one market order each. */
  method ReverseRows(db: Sandbox, keys: set<PosKey>, env: Env) returns (placed: nat, ids: seq<OrderId>)
    requires db.Valid()
    requires forall k :: k in keys ==> k in db.positions && db.positions[k].net != 0
    modifies db
    ensures db.Valid()
    ensures keys <= old(db.Snapshot()).positions.Keys
    ensures PassDone(old(db.Snapshot()), db.Snapshot(), env, keys, placed, ids)
  {
    ghost var b := db.Snapshot();
    var rows := Enumerate(keys);
    forall j | 0 <= j < |rows| ensures rows[j] in keys {
      assert rows[j] in rows;
    }
    placed, ids := 0, [];
    ghost var handled: set<PosKey> := {};
    PassBegins(b, env);
    for i := 0 to |rows|
      invariant db.Valid() && handled <= keys
      invariant forall j :: 0 <= j < |rows| ==> (rows[j] in handled <==> j < i)
      invariant PassDone(b, db.Snapshot(), env, handled, placed, ids)
    {
      placed, ids := ReverseNext(db, rows[i], env, placed, ids, b, handled);
      handled := handled + {rows[i]};
    }
    AllHandled(rows, keys, handled);
  }

  lemma AllHandled(rows: seq<PosKey>, keys: set<PosKey>, handled: set<PosKey>)
    requires forall k :: k in keys ==> k in rows
    requires handled <= keys && forall j :: 0 <= j < |rows| ==> rows[j] in handled
    ensures handled == keys
  {
  }

  /** The ledger survives the cancel step. */
  lemma SweepKeepsLedger(b: Books, exchanges: set<Exchange>, ids: seq<OrderId>)
    ensures SameLedger(b, SweepAndPay(b, exchanges, ids))
  {
    if GoodLedger(b) {
      var c := SweepAndPay(b, exchanges, ids);
      forall u ensures Leak(Quiet(c, true), u) == Leak(Quiet(b, true), u) && Leak(Quiet(c, true), u) >= 0
                       && Equity(FundOf(c, u)) == Equity(FundOf(b, u)) {
        SweepAndPayFunds(b, exchanges, ids, u);
        assert Leak(Quiet(b, true), u) >= 0;
      }
      SweepAndPayFunds(b, exchanges, ids, 0);
    }
  }

  lemma SweepAndPayRows(b: Books, exchanges: set<Exchange>, ids: seq<OrderId>)
    ensures var c := SweepAndPay(b, exchanges, ids);
            && c == b.(orders := c.orders, funds := c.funds)
            && c.orders == SweepTx(b, exchanges, ids).0.orders
  {
    PayDuesRest(SweepTx(b, exchanges, ids).0, SweepTx(b, exchanges, ids).1);
    SweepFrame(b, exchanges, ids);
  }

  lemma {:induction false} SweepFrame(b: Books, exchanges: set<Exchange>, ids: seq<OrderId>)
    ensures SweepTx(b, exchanges, ids).0 == b.(orders := SweepTx(b, exchanges, ids).0.orders)
  {
    if ids != [] {
      SweepFrame(b, exchanges, ids[..|ids| - 1]);
    }
  }

  /** The open intraday rows that can be closed. */
  ghost function ClosedIntraday(b: Books, env: Env, exchanges: set<Exchange>): set<PosKey> {
    set k | k in b.positions && OpenIn(k, b.positions[k], exchanges) && Closable(env, k, b.positions[k])
  }

  /** The cancelled orders, and the rest as they were. */
  ghost predicate Swept(b: Books, c: Books, exchanges: set<Exchange>) {
    forall id :: id in b.orders ==>
      id in c.orders && c.orders[id] == if Sweepable(b.orders[id], exchanges)
                                        then b.orders[id].(status := CANCELLED, margin := 0) else b.orders[id]
  }

  /** A closed row: its gain at the quoted price is booked and nothing else is left. */
  predicate ClosedAt(p: Position, q: Position, price: int) {
    && q.net == 0 && q.average == 0 && q.margin == 0
    && q.realized == p.realized + (price - p.average) * p.net
  }

  /** An open intraday row of the bucket's exchanges. */
  predicate DueIn(k: PosKey, p: Position, bucket: string) {
    k.product == MIS && p.net != 0 && BucketOf(k.inst.exchange) == Some(bucket)
  }

  /** What one bucket does to the books, by the exchanges' names. */
  ghost predicate BucketRun(b: Books, c: Books, bucket: string, env: Env) {
    && c.positions.Keys == b.positions.Keys && c.holdings == b.holdings
    && (forall k :: k in b.positions ==>
          if DueIn(k, b.positions[k], bucket) && Closable(env, k, b.positions[k])
          then ClosedAt(b.positions[k], c.positions[k], env.prices[k.inst])
          else c.positions[k] == b.positions[k])
    && (forall id :: id in b.orders ==>
          var o := b.orders[id];
          && id in c.orders
          && c.orders[id] == if o.key.product == MIS && Pending(o) && BucketOf(o.key.inst.exchange) == Some(bucket)
                             then o.(status := CANCELLED, margin := 0) else o)
    && (bucket !in {"nse_nfo_bse_bfo", "cds", "mcx"} ==> c == b)
  }

  lemma BucketRunHolds(b: Books, c: Books, bucket: string, env: Env)
    requires SquaredOff(b, c, BucketExchanges(bucket), env)
    requires BucketExchanges(bucket) == {} ==> c == b
    ensures BucketRun(b, c, bucket, env)
  {
    EachExchangeHasItsBucket(bucket, NSE);
    forall k | k in b.positions
      ensures if DueIn(k, b.positions[k], bucket) && Closable(env, k, b.positions[k])
              then ClosedAt(b.positions[k], c.positions[k], env.prices[k.inst])
              else c.positions[k] == b.positions[k]
    {
      EachExchangeHasItsBucket(bucket, k.inst.exchange);
      if DueIn(k, b.positions[k], bucket) && Closable(env, k, b.positions[k]) {
        ReversedRowIsFlat(b.positions[k], env.prices[k.inst]);
      }
    }
    forall id | id in b.orders
      ensures var o := b.orders[id];
              && id in c.orders
              && c.orders[id] == if o.key.product == MIS && Pending(o) && BucketOf(o.key.inst.exchange) == Some(bucket)
                                 then o.(status := CANCELLED, margin := 0) else o
    {
      EachExchangeHasItsBucket(bucket, b.orders[id].key.inst.exchange);
    }
  }

  // ----- the buckets of a day -----

  /** The buckets that ran, one after the other, each with the prices of its hour. */
  ghost predicate BucketDay(books: seq<Books>, names: seq<string>, envs: seq<Env>) {
    && |books| == |names| + 1 == |envs| + 1
    && forall i :: 0 <= i < |names| ==> BucketRun(books[i], books[i + 1], names[i], envs[i])
  }

  /** Some run is of the row's bucket and can close it. */
  predicate ReachedBy(names: seq<string>, envs: seq<Env>, k: PosKey, p: Position)
    requires |names| == |envs|
  {
    exists i :: 0 <= i < |names| && DueIn(k, p, names[i]) && Closable(envs[i], k, p)
  }

  lemma ReachedByLast(names: seq<string>, envs: seq<Env>, k: PosKey, p: Position)
    requires |names| == |envs| > 0
    ensures var n := |names| - 1;
            ReachedBy(names, envs, k, p) <==>
            ReachedBy(names[..n], envs[..n], k, p) || (DueIn(k, p, names[n]) && Closable(envs[n], k, p))
  {
    var n := |names| - 1;
    if ReachedBy(names[..n], envs[..n], k, p) {
      var i :| 0 <= i < n && DueIn(k, p, names[..n][i]) && Closable(envs[..n][i], k, p);
      assert DueIn(k, p, names[i]) && Closable(envs[i], k, p);
    }
    if ReachedBy(names, envs, k, p) {
      var i :| 0 <= i < |names| && DueIn(k, p, names[i]) && Closable(envs[i], k, p);
      if i < n {
        assert DueIn(k, p, names[..n][i]) && Closable(envs[..n][i], k, p);
      }
    }
  }

  /** Whatever buckets run, in whatever order: a row is flat and released if one of them reaches it, and
      otherwise it is as it was. */
  lemma {:induction false} RowOverBuckets(books: seq<Books>, names: seq<string>, envs: seq<Env>, k: PosKey)
    requires BucketDay(books, names, envs) && k in books[0].positions
    ensures k in books[|names|].positions
    ensures var p, q := books[0].positions[k], books[|names|].positions[k];
            if ReachedBy(names, envs, k, p) then q.net == 0 && q.margin == 0 && q.average == 0 else q == p
  {
    if names != [] {
      var n := |names| - 1;
      var p := books[0].positions[k];
      RowOverBuckets(books[..n + 1], names[..n], envs[..n], k);
      assert BucketRun(books[n], books[n + 1], names[n], envs[n]);
      ReachedByLast(names, envs, k, p);
    }
  }

  /** So once the three have run, in any order, no intraday row of the seven exchanges that could be closed
      at every run is open; rows of other products and exchanges are as they were. */
  lemma ThreeBucketsCloseTheDay(books: seq<Books>, names: seq<string>, envs: seq<Env>)
    requires BucketDay(books, names, envs)
    requires "nse_nfo_bse_bfo" in names && "cds" in names && "mcx" in names
    ensures forall k :: k in books[0].positions ==>
            var p := books[0].positions[k];
            && k in books[|names|].positions
            && (k.product == MIS && k.inst.exchange in {NSE, NFO, BSE, BFO, CDS, BCD, MCX}
                && (forall i :: 0 <= i < |envs| ==> Closable(envs[i], k, p))
                ==> books[|names|].positions[k].net == 0)
            && (k.product != MIS || k.inst.exchange !in {NSE, NFO, BSE, BFO, CDS, BCD, MCX}
                ==> books[|names|].positions[k] == p)
  {
    forall k | k in books[0].positions
      ensures var p := books[0].positions[k];
              && k in books[|names|].positions
              && (k.product == MIS && k.inst.exchange in {NSE, NFO, BSE, BFO, CDS, BCD, MCX}
                  && (forall i :: 0 <= i < |envs| ==> Closable(envs[i], k, p))
                  ==> books[|names|].positions[k].net == 0)
              && (k.product != MIS || k.inst.exchange !in {NSE, NFO, BSE, BFO, CDS, BCD, MCX}
                  ==> books[|names|].positions[k] == p)
    {
      RowOverBuckets(books, names, envs, k);
      var p := books[0].positions[k];
      if BucketOf(k.inst.exchange).Some? && k.product == MIS && p.net != 0 {
        var i :| 0 <= i < |names| && names[i] == BucketOf(k.inst.exchange).value;
        assert DueIn(k, p, names[i]);
      }
    }
  }

  /** The books after a square-off of these exchanges, by what it was given. */
  ghost predicate SquaredOff(b: Books, c: Books, exchanges: set<Exchange>, env: Env) {
    && c.holdings == b.holdings && c.positions.Keys == b.positions.Keys
    && Swept(b, c, exchanges)
    && (forall k :: k in b.positions ==>
          var p := b.positions[k];
          c.positions[k] == if OpenIn(k, p, exchanges) && Closable(env, k, p)
                            then ReversedRow(p, Ltp(env, k.inst).value).pos else p)
    && (forall id :: id in c.orders ==> !Sweepable(c.orders[id], exchanges))
    && ((forall k :: k in b.positions && OpenIn(k, b.positions[k], exchanges) ==> Closable(env, k, b.positions[k]))
        ==> forall k :: k in c.positions ==> !OpenIn(k, c.positions[k], exchanges))
  }

  /** From the swept books to the reversed ones. */
  lemma SquaredOffHolds(b: Books, m: Books, c: Books, exchanges: set<Exchange>, env: Env)
    requires Swept(b, m, exchanges) && m.orders.Keys == b.orders.Keys
    requires m.positions == b.positions && m.holdings == b.holdings
    requires PassState(m, c, env, OpenRows(m, exchanges))
    requires forall k :: k in OpenRows(m, exchanges) ==> k.inst.exchange in EQUITY + DERIVATIVES
    ensures SquaredOff(b, c, exchanges, env)
    ensures Closed(m, env, OpenRows(m, exchanges)) == ClosedIntraday(b, env, exchanges)
  {
    forall k | k in m.positions && OpenIn(k, m.positions[k], exchanges)
      ensures Reversible(m, env, k) <==> Closable(env, k, m.positions[k])
      ensures Ltp(env, k.inst).Some? ==> ReversedRow(m.positions[k], Ltp(env, k.inst).value).pos.net == 0
    {
      assert k in OpenRows(m, exchanges);
      IntradayReversible(m, env, k);
      if Ltp(env, k.inst).Some? {
        ReversedRowIsFlat(m.positions[k], Ltp(env, k.inst).value);
      }
    }
  }

  /** Square off a bucket, end to end: every pending intraday order of its exchanges is cancelled and holds
      no margin, every open intraday row is flat and released wherever it can be closed and untouched where
      it cannot, and no other position, holding or order changes. No margin leaks and no cash is made. */
  method SquareoffBucket(db: Sandbox, bucket: string, env: Env) returns (placed: nat)
    requires db.Valid()
    modifies db
    ensures db.Valid()
    ensures SquaredOff(old(db.Snapshot()), db.Snapshot(), BucketExchanges(bucket), env)
    ensures placed == |ClosedIntraday(old(db.Snapshot()), env, BucketExchanges(bucket))|
    ensures SameLedger(old(db.Snapshot()), db.Snapshot())
    ensures BucketRun(old(db.Snapshot()), db.Snapshot(), bucket, env)
  {
    var exchanges := BucketExchanges(bucket);
    ghost var b := db.Snapshot();
    if exchanges == {} {
      assert ClosedIntraday(b, env, exchanges) == {};
      BucketRunHolds(b, b, bucket, env);
      return 0;
    }
    var cancelled, ids := CancelPendingMisOrders(db, exchanges);
    ghost var m := db.Snapshot();
    SweepKeepsLedger(b, exchanges, ids);
    SweepAndPayRows(b, exchanges, ids);
    forall id | id in b.orders
      ensures m.orders[id] == if Sweepable(b.orders[id], exchanges)
                              then b.orders[id].(status := CANCELLED, margin := 0) else b.orders[id]
    {
      SweepPointwise(b, exchanges, ids, id);
    }
    var orderIds;
    placed, orderIds := ReverseRows(db, OpenRows(db.Snapshot(), exchanges), env);
    SquaredOffHolds(b, m, db.Snapshot(), exchanges, env);
    BucketRunHolds(b, db.Snapshot(), bucket, env);
  }

  /** What flattening a user's positions does: every open row whose reverse order passes is closed, no other
      row changes, and there is one new order for each open row, rejected ones too. */
  ghost predicate Flattened(b: Books, c: Books, u: UserId, env: Env, closed: seq<OrderId>) {
    && c.holdings == b.holdings && c.positions.Keys == b.positions.Keys
    && (forall k :: k in b.positions ==>
          var p := b.positions[k];
          c.positions[k] == if k.user == u && p.net != 0 && Reversible(b, env, k)
                            then ReversedRow(p, Ltp(env, k.inst).value).pos else p)
    && (forall id :: id in b.orders ==> id in c.orders && c.orders[id] == b.orders[id])
    && Recorded(b.orders.Keys, c.orders.Keys, closed)
    && |closed| == |set k | k in b.positions && k.user == u && b.positions[k].net != 0|
  }

  /** Reverse a user's open rows with market orders, and report the id of every one, rejected ones too. */
  method ReverseListed(db: Sandbox, u: UserId, env: Env) returns (closed: seq<OrderId>)
    requires db.Valid()
    modifies db
    ensures db.Valid()
    ensures Flattened(old(db.Snapshot()), db.Snapshot(), u, env, closed)
    ensures SameLedger(old(db.Snapshot()), db.Snapshot())
  {
    var open := set k | k in db.positions && k.user == u && db.positions[k].net != 0;
    var placed;
    placed, closed := ReverseRows(db, open, env);
  }
}
