/** The reverse market order: what square-off, close-all and close-position place against an open row. */
module Reversal {
  import opened Rounding
  import opened Sums
  import opened Rows
  import opened Positions
  import opened Funds
  import opened Books
  import opened Ledger
  import opened LedgerProofs
  import opened Sequential
  import opened Validation

  /** A market order on the opposite side, for all that is held. */
  function ReverseOrder(k: PosKey, net: int): Order {
    Order(k, if net > 0 then SELL else BUY, Abs(net), 0, MARKET, 0, 0, 0, OPEN, 0)
  }

  /** `place_order` for a given free order id: the gates, then the uninterrupted schedule. */
  function PlaceOrderSpec(b: Books, initialised: bool, env: Env, request: Order, id: OrderId): World {
    var w := Quiet(b, initialised);
    match Validate(b, env, request)
    case Fails(_) => Do(w, Reject(request, id))
    case Passes(info) =>
      var ltp := Ltp(env, request.key.inst);
      if (request.pricetype == MARKET || request.pricetype == SLM) && ltp.None? then Do(w, Reject(request, id))
      else
        var reference := if request.pricetype == MARKET || request.pricetype == SLM then ltp.value else request.price;
        PlaceNow(w, request, reference, LeverageFor(env, request, InstrumentType(info, request.key.inst)), id,
          Get(ltp, 0))
  }

  /** The reverse order of an open row passes the gates, and a last price is known. */
  predicate Reversible(b: Books, env: Env, k: PosKey) {
    && k in b.positions
    && Validate(b, env, ReverseOrder(k, b.positions[k].net)).Passes?
    && Ltp(env, k.inst).Some?
  }

  /** The master knows the symbol, the row is in whole lots, and a last price is known. */
  predicate Closable(env: Env, k: PosKey, p: Position) {
    && k.inst in env.master
    && (k.inst.exchange in EQUITY || env.master[k.inst].lot <= 1 || Abs(p.net) % env.master[k.inst].lot == 0)
    && Ltp(env, k.inst).Some?
  }

  /** After the cut-off or before it, the reverse order of an intraday row needs nothing else to pass. */
  lemma IntradayReversible(b: Books, env: Env, k: PosKey)
    requires k in b.positions && b.positions[k].net != 0
    requires k.product == MIS && k.inst.exchange in EQUITY + DERIVATIVES
    ensures Reversible(b, env, k) <==> Closable(env, k, b.positions[k])
  {
  }

  /** A long delivery row can always be sold: what is owned includes the row itself. */
  lemma DeliveryReversible(b: Books, env: Env, k: PosKey)
    requires k in b.positions && b.positions[k].net > 0 && k.product == CNC && k.inst.exchange in EQUITY
    requires HoldKey(k.user, k.inst) in b.holdings ==> b.holdings[HoldKey(k.user, k.inst)].quantity >= 0
    ensures Reversible(b, env, k) <==> k.inst in env.master && Ltp(env, k.inst).Some?
  {
  }

  /** The gates look at the row itself and at holdings, so other rows' reversals do not matter. */
  lemma ReversibleFrame(b: Books, c: Books, env: Env, k: PosKey)
    requires k in b.positions && k in c.positions && c.positions[k] == b.positions[k] && c.holdings == b.holdings
    ensures Reversible(c, env, k) <==> Reversible(b, env, k)
  {
  }

  /** The closed row: everything released, the gain booked, nothing left. */
  function ReversedRow(p: Position, ltp: int): FillResult {
    Fill(p, if p.net > 0 then SELL else BUY, Abs(p.net), ltp, 0)
  }

  lemma ReversedRowIsFlat(p: Position, ltp: int)
    requires p.net != 0
    ensures var f := ReversedRow(p, ltp);
            && f.pos.net == 0 && f.pos.average == 0 && f.pos.margin == 0
            && f.release == p.margin
            && f.realized == (ltp - p.average) * p.net
            && f.pos.realized == p.realized + f.realized
            && f.pos.today == p.today + f.realized
  {
    if p.net < 0 {
      assert (p.average - ltp) * (-p.net) == (ltp - p.average) * p.net;
    }
  }

  function CompletedReverse(k: PosKey, net: int, ltp: int): Order {
    ReverseOrder(k, net).(filled := Abs(net), average := ltp, status := COMPLETE)
  }

  function ReverseTrade(id: OrderId, k: PosKey, net: int, ltp: int): Trade {
    Trade(id, k, if net > 0 then SELL else BUY, Abs(net), ltp)
  }

  /** The database after the reverse order of one row went through. */
  function Reversed(b: Books, k: PosKey, id: OrderId, ltp: int): Books {
    var p := PositionOf(b, k);
    var f := ReversedRow(p, ltp);
    ReleaseTx(b.(positions := b.positions[k := f.pos],
                 orders := b.orders[id := CompletedReverse(k, p.net, ltp)],
                 trades := b.trades + [ReverseTrade(id, k, p.net, ltp)]),
              k.user, f.release, f.realized)
  }

  /** Sized to nothing, blocked as nothing, filled at once at the last price, closed and released. */
  lemma ReverseGoesThrough(b: Books, initialised: bool, k: PosKey, leverage: Leverage, id: OrderId, ltp: int)
    requires k in b.positions && b.positions[k].net != 0
    requires id !in b.orders && ltp > 0
    ensures PlaceNow(Quiet(b, initialised), ReverseOrder(k, b.positions[k].net), ltp, leverage, id, ltp).db ==
            Reversed(b, k, id, ltp)
  {
    var net := b.positions[k].net;
    var request := ReverseOrder(k, net);
    var w1 := Do(Quiet(b, initialised), Place(request, ltp, leverage));
    assert w1.tasks == [Sized(request, 0)];
    var w2 := Do(w1, BlockStep(0));
    assert w2.db == b && w2.tasks == [Blocked(request, 0)];
    var w3 := Do(w2, CreateStep(0, id, ltp));
    assert w3.db == b.(orders := b.orders[id := request]) && w3.tasks == [Attempt(id, request, ltp)];
    var w4 := Do(w3, TryFill(0));
    RoundDivExact(ltp, Abs(net));
    var completed := CompletedReverse(k, net, ltp);
    assert b.orders[id := request][id := completed] == b.orders[id := completed];
    assert w4.db == b.(orders := b.orders[id := completed], trades := b.trades + [ReverseTrade(id, k, net, ltp)]);
    assert w4.tasks == [Filled(id, request, Abs(net), ltp)];
    ReverseApplies(w4, k, id, request, ltp);
  }

  lemma ReverseApplies(w: World, k: PosKey, id: OrderId, request: Order, ltp: int)
    requires k in w.db.positions && w.db.positions[k].net != 0
    requires request == ReverseOrder(k, w.db.positions[k].net)
    requires w.tasks == [Filled(id, request, Abs(w.db.positions[k].net), ltp)]
    ensures var f := ReversedRow(w.db.positions[k], ltp);
            Do(Do(w, ApplyStep(0)), ReleaseStep(0)).db ==
            ReleaseTx(w.db.(positions := w.db.positions[k := f.pos]), k.user, f.release, f.realized)
  {
    var p := w.db.positions[k];
    var f := ReversedRow(p, ltp);
    assert ApplyFillTx(w.db, w.initialised, k, request.action, request.quantity, ltp, 0) ==
           Some((w.db.(positions := w.db.positions[k := f.pos]), f));
    if p.margin > 0 {
      assert f.release > 0;
    }
  }
}
