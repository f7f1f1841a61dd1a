/** The rows of the ledger, whatever the threads did: each is the end of its own history of fills, marks and
    closes since it was last delivered. */
module LedgerRows {
  import opened Rounding
  import opened Rows
  import opened Positions
  import opened RowHistory
  import opened Books
  import opened Ledger
  import opened LedgerProofs

  function CloseEvents(closes: seq<(PosKey, int)>, k: PosKey): seq<RowEvent> {
    if closes == [] then []
    else
      var (j, price) := closes[|closes| - 1];
      CloseEvents(closes[..|closes| - 1], k) + if j == k then [Closed(price)] else []
  }

  /** What a step of the ledger does to one row. */
  function RowEvents(w: World, e: Event, k: PosKey): seq<RowEvent> {
    match e
    case ApplyStep(i) =>
      (match TaskAt(w, i)
       case Filled(_, copy, quantity, price) =>
         if copy.key == k then [RowEvent.Filled(FillEvent(copy.action, quantity, price, copy.margin))] else []
       case _ => [])
    case Mark(j, ltp) => if j == k then [Marked(ltp)] else []
    case Close(closes) => CloseEvents(closes, k)
    case _ => []
  }

  /** A settlement delivers the row, and what comes after starts a new one. */
  predicate Delivered(w: World, e: Event, k: PosKey) {
    k in w.db.positions && k !in Do(w, e).db.positions
  }

  function History(w: World, es: seq<Event>, k: PosKey): seq<RowEvent> {
    if es == [] then []
    else
      var before, e := Run(w, es[..|es| - 1]), es[|es| - 1];
      if Delivered(before, e, k) then [] else History(w, es[..|es| - 1], k) + RowEvents(before, e, k)
  }

  lemma {:induction false} RowAfterConcat(initialised: bool, p: Position, a: seq<RowEvent>, b: seq<RowEvent>)
    ensures RowAfter(initialised, p, a + b) == RowAfter(initialised, RowAfter(initialised, p, a), b)
  {
    if b == [] {
      assert a + b == a;
    } else {
      RowAfterConcat(initialised, p, a, Front(b));
      assert Front(a + b) == a + Front(b) && Last(a + b) == Last(b);
    }
  }

  lemma OneEvent(initialised: bool, p: Position, e: RowEvent)
    ensures RowAfter(initialised, p, [e]) == Step(initialised, p, e)
  {
    assert Front([e]) == [];
    assert RowAfter(initialised, p, []) == p;
  }

  /** One close of a batch, seen from one row. */
  lemma LastClose(c: Books, j: PosKey, price: int, k: PosKey, initialised: bool)
    ensures var d := if j in c.positions && c.positions[j].net != 0
                     then c.(positions := c.positions[j := CloseRow(c.positions[j], price)]) else c;
            && PositionOf(d, k) ==
               RowAfter(initialised, PositionOf(c, k), if j == k then [Closed(price)] else [])
            && d.positions.Keys == c.positions.Keys
  {
    OneEvent(initialised, PositionOf(c, k), Closed(price));
    assert RowAfter(initialised, PositionOf(c, k), []) == PositionOf(c, k);
  }

  lemma {:induction false} CloseRows(b: Books, closes: seq<(PosKey, int)>, k: PosKey, initialised: bool)
    ensures PositionOf(CloseTx(b, closes).0, k) == RowAfter(initialised, PositionOf(b, k), CloseEvents(closes, k))
    ensures CloseTx(b, closes).0.positions.Keys == b.positions.Keys
  {
    if closes != [] {
      var rest := closes[..|closes| - 1];
      var (j, price) := closes[|closes| - 1];
      CloseRows(b, rest, k, initialised);
      RowAfterConcat(initialised, PositionOf(b, k), CloseEvents(rest, k), if j == k then [Closed(price)] else []);
      LastClose(CloseTx(b, rest).0, j, price, k, initialised);
    }
  }

  lemma {:induction false} SettleRows(b: Books, keys: seq<PosKey>, k: PosKey)
    ensures var c := SettleTx(b, keys).0;
            k in c.positions ==> k in b.positions && c.positions[k] == b.positions[k]
  {
    if keys != [] {
      SettleRows(b, keys[..|keys| - 1], k);
    }
  }

  lemma {:induction false} SweepKeepsRows(b: Books, exchanges: set<Exchange>, ids: seq<OrderId>)
    ensures SweepTx(b, exchanges, ids).0.positions == b.positions
  {
    if ids != [] {
      SweepKeepsRows(b, exchanges, ids[..|ids| - 1]);
    }
  }

  lemma FillsKeepRows(w: World, i: nat)
    ensures DoTryFill(w, i).db.positions == w.db.positions
  {
  }

  lemma CreatesKeepRows(w: World, i: nat, id: OrderId, ltp: int)
    ensures DoCreate(w, i, id, ltp).db.positions == w.db.positions
    ensures DoBlock(w, i).db.positions == w.db.positions
  {
  }

  lemma FundsKeepRows(w: World, i: nat)
    ensures DoRelease(w, i).db.positions == w.db.positions
    ensures DoBook(w, i).db.positions == w.db.positions
    ensures DoTransfer(w, i).db.positions == w.db.positions
  {
  }

  lemma OthersKeepRows(w: World, e: Event)
    requires !e.ApplyStep? && !e.Mark? && !e.Close? && !e.Settle? && !e.Sweep?
    ensures Do(w, e).db.positions == w.db.positions
  {
    match e
    case BlockStep(i) => CreatesKeepRows(w, i, 0, 0);
    case CreateStep(i, id, ltp) => CreatesKeepRows(w, i, id, ltp);
    case TryFill(i) => FillsKeepRows(w, i);
    case ReleaseStep(i) => FundsKeepRows(w, i);
    case BookStep(i) => FundsKeepRows(w, i);
    case TransferStep(i) => FundsKeepRows(w, i);
    case _ =>
  }

  lemma DoKeepsFlag(w: World, e: Event)
    ensures Do(w, e).initialised == w.initialised
  {
  }

  lemma ApplyRow(w: World, i: nat, k: PosKey)
    ensures PositionOf(Do(w, ApplyStep(i)).db, k) ==
            RowAfter(w.initialised, PositionOf(w.db, k), RowEvents(w, ApplyStep(i), k))
    ensures w.db.positions.Keys <= Do(w, ApplyStep(i)).db.positions.Keys
  {
    if TaskAt(w, i).Filled? {
      var t := TaskAt(w, i);
      OneEvent(w.initialised, PositionOf(w.db, k),
               RowEvent.Filled(FillEvent(t.copy.action, t.quantity, t.price, t.copy.margin)));
    }
  }

  lemma MarkRow(w: World, j: PosKey, ltp: int, k: PosKey)
    ensures PositionOf(Do(w, Mark(j, ltp)).db, k) ==
            RowAfter(w.initialised, PositionOf(w.db, k), RowEvents(w, Mark(j, ltp), k))
    ensures w.db.positions.Keys == Do(w, Mark(j, ltp)).db.positions.Keys
  {
    OneEvent(w.initialised, PositionOf(w.db, k), Marked(ltp));
  }

  /** One step of the ledger is that step of the row's history. */
  lemma RowStep(w: World, e: Event, k: PosKey)
    ensures PositionOf(Do(w, e).db, k) ==
            if Delivered(w, e, k) then FLAT
            else RowAfter(w.initialised, PositionOf(w.db, k), RowEvents(w, e, k))
  {
    match e
    case ApplyStep(i) => ApplyRow(w, i, k);
    case Mark(j, ltp) => MarkRow(w, j, ltp, k);
    case Close(closes) => CloseRows(w.db, closes, k, w.initialised);
    case Settle(keys) => SettleRows(w.db, keys, k);
    case Sweep(exchanges, ids) => SweepKeepsRows(w.db, exchanges, ids);
    case _ => OthersKeepRows(w, e);
  }

  /** Under every interleaving, a row is the end of its history. */
  lemma {:induction false} RowIsItsHistory(w: World, es: seq<Event>, k: PosKey)
    requires k !in w.db.positions
    ensures Run(w, es).initialised == w.initialised
    ensures PositionOf(Run(w, es).db, k) == RowAfter(w.initialised, FLAT, History(w, es, k))
  {
    if es != [] {
      var rest, e := es[..|es| - 1], es[|es| - 1];
      RowIsItsHistory(w, rest, k);
      RowStep(Run(w, rest), e, k);
      DoKeepsFlag(Run(w, rest), e);
      RowAfterConcat(w.initialised, FLAT, History(w, rest, k), RowEvents(Run(w, rest), e, k));
    }
  }

  lemma {:induction false} CloseEventsGood(closes: seq<(PosKey, int)>, k: PosKey)
    ensures GoodEvents(CloseEvents(closes, k))
  {
    if closes != [] {
      CloseEventsGood(closes[..|closes| - 1], k);
    }
  }

  lemma RowEventsGood(w: World, e: Event, k: PosKey)
    requires Inv(w)
    ensures GoodEvents(RowEvents(w, e, k))
  {
    match e
    case ApplyStep(i) =>
      if TaskAt(w, i).Filled? {
        assert GoodTask(w.db, w.tasks[i]);
      }
    case Close(closes) => CloseEventsGood(closes, k);
    case _ =>
  }

  lemma {:induction false} HistoryGood(w: World, es: seq<Event>, k: PosKey)
    requires Inv(w)
    ensures GoodEvents(History(w, es, k))
  {
    if es != [] {
      HistoryGood(w, es[..|es| - 1], k);
      RunInv(w, es[..|es| - 1]);
      RowEventsGood(Run(w, es[..|es| - 1]), es[|es| - 1], k);
    }
  }

  /** A row that ends this history, marked once more at ltp: its realized and unrealized are its cash flow
      with what it holds at that price, and what a flat row has left over, within the rounding bound, and
      exactly as the code stands; and that is its `pnl` column. */
  predicate TotalIsExplained(initialised: bool, p: Position, events: seq<RowEvent>, ltp: int) {
    var row := MarkToMarket(p, ltp);
    var gap := row.realized + row.unrealized
               - (CashPlusMarket(initialised, events, ltp) + LeftOver(initialised, events));
    && row.pnl == row.realized + row.unrealized
    && 2 * Abs(gap) <= RoundingBudget(FLAT, Flow(initialised, FLAT, events))
    && (!initialised ==> gap == 0)
  }

  lemma {:induction false} HistoryExplainsTotal(initialised: bool, events: seq<RowEvent>, ltp: int)
    requires GoodEvents(events) && ltp > 0
    ensures TotalIsExplained(initialised, RowAfter(initialised, FLAT, events), events, ltp)
  {
    RowTotalIsCashPlusMarket(initialised, events, ltp);
    ShownIsTotal(initialised, FLAT, events);
    StepShows(initialised, RowAfter(initialised, FLAT, events), Marked(ltp));
  }

  /** So it is for every row of every reachable state. */
  lemma {:induction false} ReachableRowTotal(capital: int, initialised: bool, es: seq<Event>, k: PosKey, ltp: int)
    requires ltp > 0
    ensures var w := Start(capital, initialised);
            TotalIsExplained(initialised, PositionOf(Run(w, es).db, k), History(w, es, k), ltp)
  {
    var w := Start(capital, initialised);
    StartInv(capital, initialised);
    RowIsItsHistory(w, es, k);
    HistoryGood(w, es, k);
    HistoryExplainsTotal(initialised, History(w, es, k), ltp);
  }
}
