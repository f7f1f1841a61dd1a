/** The gates an order passes before it is placed. */
module Validation {
  import opened Rounding
  import opened Rows
  import opened Positions
  import opened Funds
  import opened Books
  import opened Ledger

  datatype SymbolInfo = SymbolInfo(lot: int, tick: int, instrumentType: string)

  datatype LeverageKey = OptionBuy | OptionSell | Futures | EquityMis | EquityCnc | Legacy(product: Product)

  /** What the outside world says at the moment of a call: the symbol master, the last prices, the
      leverage settings, the cut-off times (seconds of the day) and the clock. */
  datatype Env = Env(
    master: map<Instrument, SymbolInfo>,
    prices: map<Instrument, int>,
    leverages: map<LeverageKey, Leverage>,
    cutoffs: map<Exchange, int>,
    now: int
  )

  const EQUITY: set<Exchange> := {NSE, BSE}
  const DERIVATIVES: set<Exchange> := {NFO, BFO, MCX, CDS, BCD, CRYPTO}
  const NINE_O_CLOCK := 9 * 3600

  datatype Reason = BadAction | BadPriceType | BadProduct | BadQuantity | WrongExchange | UnknownSymbol | OddLot
                  | BadPrice | PriceOffTick | BadTrigger | TriggerOffTick | NotOwned | AfterCutoff

  datatype Verdict = Passes(info: SymbolInfo) | Fails(reason: Reason)

  /** The last price, absent unless positive. */
  function Ltp(env: Env, inst: Instrument): (p: Option<int>)
    ensures p.Some? ==> p.value > 0
  {
    if inst in env.prices && env.prices[inst] > 0 then Some(env.prices[inst]) else None
  }

  predicate Quoted(env: Env, inst: Instrument) { inst in env.prices && env.prices[inst] > 0 }

  predicate Compatible(product: Product, exchange: Exchange) {
    match product
    case CNC => exchange in EQUITY
    case NRML => exchange in DERIVATIVES
    case MIS => exchange in EQUITY + DERIVATIVES
    case OtherProduct(_) => false
  }

  predicate OnTick(price: int, tick: int) {
    tick > 0 ==> RoundDiv(price, tick) * tick == price
  }

  /** What a CNC sale may draw on: the settled holding and a long CNC position. */
  function OwnedQuantity(b: Books, u: UserId, inst: Instrument): int {
    (if HoldKey(u, inst) in b.holdings then b.holdings[HoldKey(u, inst)].quantity else 0)
    + Max(0, PositionOf(b, PosKey(u, inst, CNC)).net)
  }

  /** From the cut-off until nine the next morning. */
  predicate AfterSquareoff(env: Env, exchange: Exchange) {
    exchange in env.cutoffs &&
    var cutoff := env.cutoffs[exchange];
    if cutoff >= NINE_O_CLOCK then env.now >= cutoff || env.now < NINE_O_CLOCK
    else env.now < NINE_O_CLOCK && env.now >= cutoff
  }

  function Validate(b: Books, env: Env, o: Order): Verdict {
    var inst := o.key.inst;
    if o.action.OtherAction? then Fails(BadAction)
    else if o.pricetype.OtherType? then Fails(BadPriceType)
    else if o.key.product.OtherProduct? then Fails(BadProduct)
    else if o.quantity <= 0 then Fails(BadQuantity)
    else if !Compatible(o.key.product, inst.exchange) then Fails(WrongExchange)
    else if inst !in env.master then Fails(UnknownSymbol)
    else
      var info := env.master[inst];
      if inst.exchange !in EQUITY && info.lot > 1 && o.quantity % info.lot != 0 then Fails(OddLot)
      else if (o.pricetype == LIMIT || o.pricetype == SL) && o.price <= 0 then Fails(BadPrice)
      else if (o.pricetype == LIMIT || o.pricetype == SL) && !OnTick(o.price, info.tick) then Fails(PriceOffTick)
      else if (o.pricetype == SL || o.pricetype == SLM) && o.trigger <= 0 then Fails(BadTrigger)
      else if (o.pricetype == SL || o.pricetype == SLM) && !OnTick(o.trigger, info.tick) then Fails(TriggerOffTick)
      else if o.key.product == CNC && o.action == SELL && o.quantity > OwnedQuantity(b, o.key.user, inst)
      then Fails(NotOwned)
      else if o.key.product == MIS && AfterSquareoff(env, inst.exchange)
              && !Reduces(PositionOf(b, o.key).net, o.action) then Fails(AfterCutoff)
      else Passes(info)
  }

  predicate EndsWith(s: string, suffix: string) {
    |suffix| <= |s| && s[|s| - |suffix|..] == suffix
  }

  /** The instrument type, from the master if it has one, else from the tail of the symbol. */
  function InstrumentType(info: SymbolInfo, inst: Instrument): string {
    if info.instrumentType != "" then info.instrumentType
    else if EndsWith(inst.symbol, "CE") then "CE"
    else if EndsWith(inst.symbol, "PE") then "PE"
    else if EndsWith(inst.symbol, "FUT") then "FUT"
    else if inst.exchange in EQUITY then "EQ" else ""
  }

  function LeverageKeyFor(o: Order, instrumentType: string): LeverageKey {
    if instrumentType == "CE" || instrumentType == "PE" then if o.action == BUY then OptionBuy else OptionSell
    else if EndsWith(instrumentType, "FUT") then Futures
    else if o.key.inst.exchange in EQUITY then if o.key.product == MIS then EquityMis else EquityCnc
    else Legacy(o.key.product)
  }

  function LeverageFor(env: Env, o: Order, instrumentType: string): Leverage {
    var key := LeverageKeyFor(o, instrumentType);
    if key in env.leverages then env.leverages[key] else Leverage(1, 1)
  }

  /** After the cut-off, an intraday order still passes exactly when it works against an open position;
      every other gate is as before the cut-off. */
  lemma CutoffBlocksEntriesOnly(b: Books, env: Env, o: Order)
    requires o.key.product == MIS && AfterSquareoff(env, o.key.inst.exchange)
    ensures var open := env.(cutoffs := map[]);
            Validate(b, env, o).Passes? <==>
            Validate(b, open, o).Passes? && Reduces(PositionOf(b, o.key).net, o.action)
  {
  }

  predicate Priced(o: Order) { o.pricetype == LIMIT || o.pricetype == SL }

  predicate HasTrigger(o: Order) { o.pricetype == SL || o.pricetype == SLM }

  /** A price the exchange would quote. */
  predicate Quotable(price: int, tick: int) { price > 0 && (tick > 0 ==> price % tick == 0) }

  /** The ladder of gates, read as one condition: a known symbol in whole lots at quotable prices, on an
      exchange its product trades on, within what is owned for a delivery sale and within what is open for
      an intraday order after the cut-off. */
  lemma PassesExactly(b: Books, env: Env, o: Order)
    ensures var inst := o.key.inst;
            Validate(b, env, o).Passes? <==>
            && (o.action == BUY || o.action == SELL) && !o.pricetype.OtherType? && o.quantity > 0
            && (o.key.product == MIS || o.key.product == CNC || o.key.product == NRML)
            && (inst.exchange in {NSE, BSE} ==> o.key.product != NRML)
            && (inst.exchange !in {NSE, BSE} ==> o.key.product != CNC)
            && inst.exchange in {NSE, BSE, NFO, BFO, MCX, CDS, BCD, CRYPTO}
            && inst in env.master
            && (inst.exchange in {NSE, BSE} || env.master[inst].lot <= 1 || o.quantity % env.master[inst].lot == 0)
            && (Priced(o) ==> Quotable(o.price, env.master[inst].tick))
            && (HasTrigger(o) ==> Quotable(o.trigger, env.master[inst].tick))
            && (o.key.product == CNC && o.action == SELL ==>
               var settled := HoldKey(o.key.user, inst);
               var long := Max(0, PositionOf(b, PosKey(o.key.user, inst, CNC)).net);
               o.quantity <= long + if settled in b.holdings then b.holdings[settled].quantity else 0)
            && (o.key.product == MIS && AfterSquareoff(env, inst.exchange) ==>
               var net := PositionOf(b, o.key).net;
               (net > 0 && o.action == SELL) || (net < 0 && o.action == BUY))
  {
    if o.key.inst in env.master {
      OnTickMeans(o.price, env.master[o.key.inst].tick);
      OnTickMeans(o.trigger, env.master[o.key.inst].tick);
    }
  }

  /** On the clock's face, the block runs from the cut-off round to nine in the morning; a cut-off at nine
      sharp blocks the whole day. */
  lemma AfterSquareoffMeans(env: Env, exchange: Exchange)
    requires exchange in env.cutoffs && 0 <= env.cutoffs[exchange] < 86400 && 0 <= env.now < 86400
    ensures var cutoff := env.cutoffs[exchange];
            AfterSquareoff(env, exchange) <==>
            cutoff == 32400 || (env.now - cutoff) % 86400 < (32400 - cutoff) % 86400
  {
  }

  predicate TailIs(s: string, tail: string) { |s| >= |tail| && s[|s| - |tail|..] == tail }

  /** A call or a put, by the master's type, or by the symbol's tail where the master has none. */
  predicate IsOption(env: Env, inst: Instrument) {
    if inst in env.master && env.master[inst].instrumentType != ""
    then env.master[inst].instrumentType == "CE" || env.master[inst].instrumentType == "PE"
    else TailIs(inst.symbol, "CE") || TailIs(inst.symbol, "PE")
  }

  predicate IsFuture(env: Env, inst: Instrument) {
    if inst in env.master && env.master[inst].instrumentType != ""
    then TailIs(env.master[inst].instrumentType, "FUT") else TailIs(inst.symbol, "FUT")
  }

  lemma KindOf(env: Env, inst: Instrument)
    ensures var info := if inst in env.master then env.master[inst] else SymbolInfo(1, 0, "");
            var kind := InstrumentType(info, inst);
            && (kind == "CE" || kind == "PE" <==> IsOption(env, inst))
            && (EndsWith(kind, "FUT") <==> IsFuture(env, inst))
  {
    assert forall s :: EndsWith(s, "CE") == TailIs(s, "CE") && EndsWith(s, "PE") == TailIs(s, "PE");
    assert EndsWith("FUT", "FUT");
  }

  /** Which leverage an order gets: for an option by its side, for a future one for all, for a share by its
      product, otherwise by product alone; none configured is none taken. */
  lemma LeverageTable(env: Env, o: Order)
    requires o.key.inst in env.master
    ensures var inst := o.key.inst;
            var key := if IsOption(env, inst) && o.action == BUY then OptionBuy
                       else if IsOption(env, inst) then OptionSell
                       else if IsFuture(env, inst) then Futures
                       else if inst.exchange == NSE || inst.exchange == BSE then
                         if o.key.product == MIS then EquityMis else EquityCnc
                       else Legacy(o.key.product);
            LeverageFor(env, o, InstrumentType(env.master[inst], inst)) ==
            if key in env.leverages then env.leverages[key] else Leverage(1, 1)
  {
    KindOf(env, o.key.inst);
  }

  lemma OnTickMeans(price: int, tick: int)
    ensures OnTick(price, tick) <==> (tick > 0 ==> price % tick == 0)
  {
    if tick > 0 {
      if price % tick == 0 {
        RoundDivExact(price / tick, tick);
        assert price == (price / tick) * tick;
      } else if RoundDiv(price, tick) * tick == price {
        MultipleOf(RoundDiv(price, tick), tick);
      }
    }
  }
}
