/** The tick cache: what it remembers of a run of ticks, connection changes and health checks, when it
    lets trading act on it, and whom it tells. Times are seconds as reals. */
module MarketCache {
  import opened Rows

  /** What a tick may carry as its price. */
  datatype Price = Missing | NotNumber | Nan | Infinite(up: bool) | Finite(value: real)

  predicate IsNumber(p: Price) { p.Nan? || p.Infinite? || p.Finite? }

  /** `price <= 0`, which no comparison with a NaN makes true. */
  predicate AtMostZero(p: Price) {
    (p.Finite? && p.value <= 0.0) || p == Infinite(false)
  }

  predicate Positive(p: Price) {
    (p.Finite? && p.value > 0.0) || p == Infinite(true)
  }

  /** A tick; an absent symbol or exchange is empty. Modes: 1 LTP, 2 Quote, 3 Depth. */
  datatype Tick = Tick(symbol: string, exchange: string, mode: Option<int>, price: Price, hasLevels: bool)

  function Key(t: Tick): string { t.exchange + ":" + t.symbol }

  /** The key tells instruments apart, exchanges having no colon in their names. */
  lemma KeyTellsApart(t: Tick, u: Tick)
    requires ':' !in t.exchange && ':' !in u.exchange
    ensures Key(t) == Key(u) <==> t.symbol == u.symbol && t.exchange == u.exchange
  {
    if Key(t) == Key(u) {
      ColonAt(t.exchange, t.symbol);
      ColonAt(u.exchange, u.symbol);
      assert Key(t)[..|t.exchange|] == t.exchange && Key(u)[..|u.exchange|] == u.exchange;
      assert Key(t)[|t.exchange| + 1..] == t.symbol && Key(u)[|u.exchange| + 1..] == u.symbol;
    }
  }

  /** The first colon of a key stands right behind the exchange. */
  lemma ColonAt(exchange: string, symbol: string)
    requires ':' !in exchange
    ensures var key := exchange + ":" + symbol;
            forall j :: 0 <= j < |key| && key[j] == ':' ==> j >= |exchange|
    ensures (exchange + ":" + symbol)[|exchange|] == ':'
  {
  }

  /** The validator. Depth packets with levels may come without a usable price. */
  predicate Accepts(t: Tick) {
    && t.symbol != "" && t.exchange != ""
    && (|| (t.mode == Some(3) && t.hasLevels && (t.price.Missing? || (IsNumber(t.price) && AtMostZero(t.price))))
        || (IsNumber(t.price) && !AtMostZero(t.price)))
  }

  /** A named depth tick with levels needs no usable price, only not text for one; every other named tick needs
      a number that does not compare as zero or less. */
  lemma AcceptsMeans(t: Tick)
    ensures Accepts(t) <==>
            && t.symbol != "" && t.exchange != ""
            && if t.mode == Some(3) && t.hasLevels then t.price != NotNumber
               else t.price == Nan || t.price == Infinite(true) || (t.price.Finite? && t.price.value > 0.0)
  {
  }

  /** A tick that replaces the cached price of its key. */
  predicate SetsPrice(t: Tick) { Accepts(t) && (t.mode == Some(1) || t.mode == Some(2)) }

  datatype Entry = Entry(ltp: Option<Price>, quote: Option<Price>, depth: Option<Price>, lastUpdate: real)
  datatype Status = Disconnected | Connecting | Connected | Authenticated | Stale
  datatype Reason = NoReason | ConnectionLost | NoTicks(age: real) | WrongStatus(status: Status)

  const MAX_GAP: real := 30.0

  datatype Feed = Feed(
    cache: map<string, Entry>,
    status: Status,
    lastTick: real,       // 0.0 before the first accepted tick
    reconnects: nat,
    paused: bool,
    reason: Reason,
    updates: nat,
    errors: nat,
    staleEvents: nat
  )

  const INITIAL := Feed(map[], Disconnected, 0.0, 0, false, NoReason, 0, 0, 0)

  function Store(e: Entry, t: Tick, now: real): Entry {
    if t.mode == Some(1) then e.(ltp := Some(t.price), lastUpdate := now)
    else if t.mode == Some(2) then e.(quote := Some(t.price), ltp := Some(t.price), lastUpdate := now)
    else if t.mode == Some(3) then e.(depth := Some(t.price), lastUpdate := now)
    else e.(lastUpdate := now)
  }

  function Ingest(f: Feed, t: Tick, now: real): Feed {
    if !Accepts(t) then f.(errors := f.errors + 1)
    else
      var entry := if Key(t) in f.cache then f.cache[Key(t)] else Entry(None, None, None, now);
      var g := f.(cache := f.cache[Key(t) := Store(entry, t, now)], updates := f.updates + 1, lastTick := now);
      if f.status == Stale then g.(status := Authenticated, paused := false, reason := NoReason) else g
  }

  function Connect(f: Feed, connected: bool, authenticated: bool): Feed {
    if connected then
      var g := f.(status := if authenticated then Authenticated else Connected);
      if f.status == Disconnected then g.(paused := false, reason := NoReason)
      else if f.status == Stale then g.(reconnects := f.reconnects + 1, paused := false, reason := NoReason)
      else g
    else
      f.(reconnects := if f.status == Connected || f.status == Authenticated then f.reconnects + 1 else f.reconnects,
         status := Disconnected, paused := true, reason := ConnectionLost, staleEvents := f.staleEvents + 1)
  }

  function Check(f: Feed, now: real): Feed {
    if f.status == Authenticated && f.lastTick > 0.0 && now - f.lastTick > MAX_GAP then
      f.(status := Stale, paused := true, reason := NoTicks(now - f.lastTick), staleEvents := f.staleEvents + 1)
    else f
  }

  function CachedPrice(f: Feed, key: string): Option<Price> {
    if key in f.cache then f.cache[key].ltp else None
  }

  /** The gate callers consult before acting on cached prices. */
  predicate Safe(f: Feed, now: real) {
    && !f.paused
    && f.status == Authenticated
    && (var age := if f.lastTick != 0.0 then now - f.lastTick else -1.0; 0.0 <= age < MAX_GAP)
  }

  // ---------------------------------------------------------------- runs

  datatype Event = Ticked(tick: Tick, now: real) | Link(connected: bool, authenticated: bool) | HealthCheck(now: real)

  function Step(f: Feed, e: Event): Feed {
    match e
    case Ticked(t, now) => Ingest(f, t, now)
    case Link(connected, authenticated) => Connect(f, connected, authenticated)
    case HealthCheck(now) => Check(f, now)
  }

  function Run(events: seq<Event>): Feed {
    if events == [] then INITIAL else Step(Run(Front(events)), Last(events))
  }

  function Front(events: seq<Event>): seq<Event>
    requires events != []
  {
    events[..|events| - 1]
  }

  function Last(events: seq<Event>): Event
    requires events != []
  {
    events[|events| - 1]
  }

  /** The price of the latest tick in the history that sets the key's price. */
  function LastPrice(events: seq<Event>, key: string): Option<Price> {
    if events == [] then None
    else if Last(events).Ticked? && SetsPrice(Last(events).tick) && Key(Last(events).tick) == key
    then Some(Last(events).tick.price)
    else LastPrice(Front(events), key)
  }

  /** When the latest accepted tick came. */
  function LastTickAt(events: seq<Event>): Option<real> {
    if events == [] then None
    else if Last(events).Ticked? && Accepts(Last(events).tick) then Some(Last(events).now)
    else LastTickAt(Front(events))
  }

  /** Whether the latest connection change was a successful login. */
  predicate LoggedIn(events: seq<Event>) {
    if events == [] then false
    else if Last(events).Link? then Last(events).connected && Last(events).authenticated
    else LoggedIn(Front(events))
  }

  /** The clock never ran backwards, and now is no earlier than any event. */
  predicate Clocked(events: seq<Event>, now: real) {
    if events == [] then true
    else if Last(events).Link? then Clocked(Front(events), now)
    else Last(events).now <= now && Clocked(Front(events), Last(events).now)
  }

  lemma {:induction false} CacheIsLastPrice(events: seq<Event>, key: string)
    ensures CachedPrice(Run(events), key) == LastPrice(events, key)
  {
    if events != [] {
      CacheIsLastPrice(Front(events), key);
    }
  }

  lemma {:induction false} LastPriceAccepted(events: seq<Event>, key: string)
    ensures var p := LastPrice(events, key); p.Some? ==> Positive(p.value) || p.value == Nan
  {
    if events != [] {
      LastPriceAccepted(Front(events), key);
    }
  }

  /** A cached price is the last accepted LTP or Quote price, and is positive unless it is a NaN. */
  lemma CachedPriceIsPositive(events: seq<Event>, key: string)
    ensures var p := CachedPrice(Run(events), key);
            p == LastPrice(events, key) && (p.Some? ==> (Positive(p.value) <==> p.value != Nan))
  {
    CacheIsLastPrice(events, key);
    LastPriceAccepted(events, key);
  }

  predicate AllPositive(f: Feed) {
    forall key :: key in f.cache && f.cache[key].ltp.Some? ==> Positive(f.cache[key].ltp.value)
  }

  /** One tick keeps every cached price positive exactly when it is not a NaN LTP or Quote tick. */
  lemma TickKeepsPositive(f: Feed, t: Tick, now: real)
    requires AllPositive(f)
    ensures AllPositive(Ingest(f, t, now)) <==> !(SetsPrice(t) && t.price == Nan)
  {
    var g := Ingest(f, t, now);
    if SetsPrice(t) {
      assert g.cache[Key(t)].ltp == Some(t.price);
    }
  }

  /** The validator lets a NaN through, and the cache then serves it. */
  lemma NanIsServed(symbol: string, exchange: string, now: real)
    requires symbol != "" && exchange != ""
    ensures var t := Tick(symbol, exchange, Some(1), Nan, false);
            Accepts(t) && CachedPrice(Run([Ticked(t, now)]), Key(t)) == Some(Nan)
  {
    var t := Tick(symbol, exchange, Some(1), Nan, false);
    CacheIsLastPrice([Ticked(t, now)], Key(t));
  }

  /** A stale feed pauses trading, a live one never does. */
  lemma {:induction false} PauseFollowsStatus(events: seq<Event>)
    ensures var f := Run(events);
            && (f.status == Stale ==> f.paused)
            && (f.status == Connected || f.status == Authenticated ==> !f.paused)
            && f.status != Connecting
  {
    if events != [] {
      PauseFollowsStatus(Front(events));
    }
  }

  lemma {:induction false} LastTickIsRemembered(events: seq<Event>)
    ensures Run(events).lastTick == match LastTickAt(events) case None => 0.0 case Some(t) => t
  {
    if events != [] {
      LastTickIsRemembered(Front(events));
    }
  }

  /** A feed is live or stale exactly while its latest connection change was a login. */
  function AcceptedIn(events: seq<Event>): nat {
    if events == [] then 0
    else AcceptedIn(Front(events)) + if Last(events).Ticked? && Accepts(Last(events).tick) then 1 else 0
  }

  function TicksIn(events: seq<Event>): nat {
    if events == [] then 0 else TicksIn(Front(events)) + if Last(events).Ticked? then 1 else 0
  }

  /** Every tick is counted once, as an update or as an error. */
  lemma {:induction false} TicksAreCounted(events: seq<Event>)
    ensures var f := Run(events); f.updates == AcceptedIn(events) && f.updates + f.errors == TicksIn(events)
  {
    if events != [] {
      TicksAreCounted(Front(events));
    }
  }

  lemma {:induction false} LoginIsRemembered(events: seq<Event>)
    ensures Run(events).status == Authenticated || Run(events).status == Stale <==> LoggedIn(events)
  {
    if events != [] {
      LoginIsRemembered(Front(events));
    }
  }

  /** A feed found stale is still silent: its last tick is over the limit old. */
  lemma {:induction false} StaleIsOld(events: seq<Event>, now: real)
    requires Clocked(events, now) && Run(events).status == Stale
    ensures now - Run(events).lastTick > 30.0
  {
    var before, e := Run(Front(events)), Last(events);
    if before.status == Stale {
      StaleIsOld(Front(events), if e.Link? then now else e.now);
    }
  }

  /** The gate opens exactly when the feed is authenticated with a tick less than 30 s old: the pause flag
      never decides. */
  lemma GateIgnoresPause(events: seq<Event>, now: real)
    ensures var f := Run(events);
            Safe(f, now) <==> f.status == Authenticated && f.lastTick != 0.0 && 0.0 <= now - f.lastTick < 30.0
  {
    PauseFollowsStatus(events);
  }

  /** What the gate says of the past: the latest connection change was a login, and the latest accepted
      tick is less than 30 s old. No health check, however timed, changes the answer. */
  lemma GateSaysWhatHappened(events: seq<Event>, now: real)
    requires Clocked(events, now)
    ensures Safe(Run(events), now) <==>
            && LoggedIn(events)
            && LastTickAt(events).Some? && LastTickAt(events).value != 0.0
               && 0.0 <= now - LastTickAt(events).value < 30.0
  {
    GateIgnoresPause(events, now);
    LastTickIsRemembered(events);
    LoginIsRemembered(events);
    if Run(events).status == Stale {
      StaleIsOld(events, now);
    }
  }

  // ---------------------------------------------------------------- subscribers

  datatype Kind = Ltp | Quote | Depth | All | OtherKind(text: string)

  /** An empty filter lets every key through. */
  datatype Subscriber = Subscriber(id: nat, kind: Kind, filter: set<string>)

  datatype Delivery = Delivery(priority: int, id: nat)

  /** Subscribers by priority, 1 first to 4 last, each list in the order they subscribed. */
  type Registry = map<int, seq<Subscriber>>

  function EventOf(mode: Option<int>): Kind {
    if mode == Some(1) then Ltp else if mode == Some(2) then Quote else if mode == Some(3) then Depth else All
  }

  predicate Wants(s: Subscriber, key: string, event: Kind) {
    (s.kind == All || s.kind == event) && (s.filter == {} || key in s.filter)
  }

  predicate Subscribed(r: Registry, p: int, s: Subscriber) { p in r && s in r[p] }

  /** Every id at most once, none above the counter, each list in ascending order. */
  predicate ValidRegistry(r: Registry, counter: nat) {
    && (forall p :: p in r ==> 1 <= p <= 4)
    && (forall p :: p in r ==> Ascending(r[p]))
    && (forall p, i :: p in r && 0 <= i < |r[p]| ==> r[p][i].id <= counter)
    && (forall p, q, i, j :: p in r && q in r && 0 <= i < |r[p]| && 0 <= j < |r[q]| && r[p][i].id == r[q][j].id
          ==> p == q)
  }

  function Heard(subs: seq<Subscriber>, p: int, key: string, event: Kind): (d: seq<Delivery>)
    ensures forall i :: 0 <= i < |d| ==> d[i].priority == p
  {
    if subs == [] then []
    else Heard(subs[..|subs| - 1], p, key, event) +
         (var s := subs[|subs| - 1]; if Wants(s, key, event) then [Delivery(p, s.id)] else [])
  }

  lemma {:induction false} HeardNext(subs: seq<Subscriber>, i: nat, p: int, key: string, event: Kind)
    requires i < |subs|
    ensures Heard(subs[..i + 1], p, key, event) ==
            Heard(subs[..i], p, key, event) + if Wants(subs[i], key, event) then [Delivery(p, subs[i].id)] else []
  {
    assert subs[..i + 1][..i] == subs[..i];
  }

  function ListOf(r: Registry, p: int): seq<Subscriber> { if p in r then r[p] else [] }

  /** Everyone told of one tick, in the order they are told, for priorities below p. */
  function Audience(r: Registry, p: nat, key: string, event: Kind): seq<Delivery> {
    if p == 0 then [] else Audience(r, p - 1, key, event) + Heard(ListOf(r, p), p, key, event)
  }

  lemma {:induction false} HeardMeans(subs: seq<Subscriber>, p: int, key: string, event: Kind, d: Delivery)
    ensures d in Heard(subs, p, key, event) <==>
            d.priority == p && exists s :: s in subs && s.id == d.id && Wants(s, key, event)
  {
    if subs != [] {
      var last := |subs| - 1;
      HeardMeans(subs[..last], p, key, event, d);
      assert forall s :: s in subs <==> s in subs[..last] || s == subs[last];
    }
  }

  predicate Before(a: Delivery, b: Delivery) {
    a.priority < b.priority || (a.priority == b.priority && a.id < b.id)
  }

  predicate Ordered(a: seq<Delivery>) {
    forall i, j :: 0 <= i < j < |a| ==> Before(a[i], a[j])
  }

  lemma OrderedConcat(a: seq<Delivery>, b: seq<Delivery>)
    requires Ordered(a) && Ordered(b)
    requires forall i, j :: 0 <= i < |a| && 0 <= j < |b| ==> Before(a[i], b[j])
    ensures Ordered(a + b)
  {
  }

  predicate Ascending(subs: seq<Subscriber>) {
    forall i, j :: 0 <= i < j < |subs| ==> subs[i].id < subs[j].id
  }

  lemma {:induction false} HeardAscends(subs: seq<Subscriber>, p: int, key: string, event: Kind)
    requires Ascending(subs)
    ensures var d := Heard(subs, p, key, event);
            Ordered(d) && forall i :: 0 <= i < |d| ==> subs != [] && d[i].id <= subs[|subs| - 1].id
  {
    if subs != [] {
      var init, s := subs[..|subs| - 1], subs[|subs| - 1];
      HeardAscends(init, p, key, event);
      assert init != [] ==> init[|init| - 1].id < s.id;
      OrderedConcat(Heard(init, p, key, event), if Wants(s, key, event) then [Delivery(p, s.id)] else []);
    }
  }

  /** Those told are exactly the subscribers who want the tick. */
  lemma {:induction false} AudienceMeans(r: Registry, p: nat, key: string, event: Kind, d: Delivery)
    ensures d in Audience(r, p, key, event) <==>
            1 <= d.priority <= p && exists s :: Subscribed(r, d.priority, s) && s.id == d.id && Wants(s, key, event)
  {
    if p > 0 {
      AudienceMeans(r, p - 1, key, event, d);
      HeardMeans(ListOf(r, p), p, key, event, d);
      assert forall s :: s in ListOf(r, p) <==> Subscribed(r, p, s);
    }
  }

  /** They are told in order of priority, then of subscription, so nobody is told twice. */
  lemma {:induction false} AudienceInOrder(r: Registry, counter: nat, p: nat, key: string, event: Kind)
    requires ValidRegistry(r, counter)
    ensures Ordered(Audience(r, p, key, event))
    ensures forall i :: 0 <= i < |Audience(r, p, key, event)| ==> Audience(r, p, key, event)[i].priority <= p
  {
    if p > 0 {
      AudienceInOrder(r, counter, p - 1, key, event);
      HeardAscends(ListOf(r, p), p, key, event);
      OrderedConcat(Audience(r, p - 1, key, event), Heard(ListOf(r, p), p, key, event));
    }
  }

  lemma SameId(r: Registry, counter: nat, p: int, s: Subscriber, w: Subscriber)
    requires ValidRegistry(r, counter) && Subscribed(r, p, s) && Subscribed(r, p, w) && s.id == w.id
    ensures s == w
  {
    var i :| 0 <= i < |r[p]| && r[p][i] == s;
    var j :| 0 <= j < |r[p]| && r[p][j] == w;
    assert !(i < j) && !(j < i);
  }

  /** A Quote tick replaces the cached price, yet no subscriber to LTP events, which is what the
      critical-priority shortcut registers, is told of it. */
  lemma QuotesPassLtpSubscribersBy(f: Feed, r: Registry, counter: nat, t: Tick, now: real, d: Delivery)
    requires ValidRegistry(r, counter) && Accepts(t) && t.mode == Some(2)
    requires d in Audience(r, 4, Key(t), EventOf(t.mode))
    ensures CachedPrice(Ingest(f, t, now), Key(t)) == Some(t.price)
    ensures exists s :: Subscribed(r, d.priority, s) && s.id == d.id && (s.kind == All || s.kind == Quote)
    ensures forall s :: Subscribed(r, d.priority, s) && s.id == d.id ==> s.kind != Ltp
  {
    AudienceMeans(r, 4, Key(t), Quote, d);
    var w :| Subscribed(r, d.priority, w) && w.id == d.id && Wants(w, Key(t), Quote);
    forall s | Subscribed(r, d.priority, s) && s.id == d.id ensures s == w {
      SameId(r, counter, d.priority, s, w);
    }
  }

  function Join(r: Registry, p: int, s: Subscriber): Registry { r[p := ListOf(r, p) + [s]] }

  lemma JoinIsValid(r: Registry, counter: nat, p: int, s: Subscriber)
    requires ValidRegistry(r, counter) && 1 <= p <= 4 && s.id == counter + 1
    ensures ValidRegistry(Join(r, p, s), counter + 1)
  {
    var t := Join(r, p, s);
    forall q, i | q in t && 0 <= i < |t[q]| ensures OldOrNew(r, p, s, q, t[q][i], i) {
    }
    assert Ascending(ListOf(r, p) + [s]);
  }

  predicate OldOrNew(r: Registry, p: int, s: Subscriber, q: int, x: Subscriber, i: nat) {
    (q in r && i < |r[q]| && x == r[q][i]) || (q == p && x == s)
  }

  lemma JoinAdds(r: Registry, p: int, s: Subscriber)
    ensures forall q, x :: Subscribed(Join(r, p, s), q, x) <==> Subscribed(r, q, x) || (q == p && x == s)
  {
    forall q, x ensures Subscribed(Join(r, p, s), q, x) <==> Subscribed(r, q, x) || (q == p && x == s) {
      assert q == p ==> (x in Join(r, p, s)[q] <==> x in ListOf(r, p) || x == s);
    }
  }

  class MarketDataCache {
    var cache: map<string, Entry>
    var subscribers: Registry
    var subId: nat
    var status: Status
    var lastTick: real
    var reconnects: nat
    var paused: bool
    var reason: Reason
    var updates: nat
    var errors: nat
    var staleEvents: nat

    ghost function State(): Feed
      reads this
    {
      Feed(cache, status, lastTick, reconnects, paused, reason, updates, errors, staleEvents)
    }

    ghost predicate Valid()
      reads this
    {
      ValidRegistry(subscribers, subId)
    }

    constructor ()
      ensures Valid() && State() == Run([]) && subscribers == map[]
    {
      cache, subscribers, subId := map[], map[], 0;
      status, lastTick, reconnects := Disconnected, 0.0, 0;
      paused, reason := false, NoReason;
      updates, errors, staleEvents := 0, 0, 0;
    }

    /** One tick: validate, store, wake a stale feed, tell the subscribers. */
    method ProcessMarketData(t: Tick, now: real) returns (ok: bool, told: seq<Delivery>)
      modifies this`cache, this`updates, this`errors, this`lastTick, this`status, this`paused, this`reason
      ensures State() == Ingest(old(State()), t, now)
      ensures ok == Accepts(t)
      ensures told == if ok then Audience(subscribers, 4, Key(t), EventOf(t.mode)) else []
    {
      if !Accepts(t) {
        errors := errors + 1;
        return false, [];
      }
      var key := Key(t);
      var entry := if key in cache then cache[key] else Entry(None, None, None, now);
      if t.mode == Some(1) {
        entry := entry.(ltp := Some(t.price));
      } else if t.mode == Some(2) {
        entry := entry.(quote := Some(t.price));
        entry := entry.(ltp := Some(t.price));
      } else if t.mode == Some(3) {
        entry := entry.(depth := Some(t.price));
      }
      entry := entry.(lastUpdate := now);
      cache := cache[key := entry];
      updates := updates + 1;
      lastTick := now;
      if status == Stale {
        status := Authenticated;
        paused := false;
        reason := NoReason;
      }
      told := Broadcast(key, t.mode);
      ok := true;
    }

    method GetLtp(symbol: string, exchange: string) returns (price: Option<Price>)
      ensures price == CachedPrice(State(), exchange + ":" + symbol)
    {
      var key := exchange + ":" + symbol;
      if key in cache {
        return cache[key].ltp;
      }
      return None;
    }

    method SetConnected(connected: bool, authenticated: bool)
      modifies this`status, this`reconnects, this`paused, this`reason, this`staleEvents
      ensures State() == Connect(old(State()), connected, authenticated)
    {
      var prev := status;
      if connected {
        status := if authenticated then Authenticated else Connected;
        if prev == Disconnected || prev == Stale {
          if prev == Stale {
            reconnects := reconnects + 1;
          }
          paused := false;
          reason := NoReason;
        }
      } else {
        if prev == Connected || prev == Authenticated {
          reconnects := reconnects + 1;
        }
        status := Disconnected;
        paused := true;
        reason := ConnectionLost;
        staleEvents := staleEvents + 1;
      }
    }

    /** One pass of the health loop. */
    method CheckHealth(now: real)
      modifies this`status, this`paused, this`reason, this`staleEvents
      ensures State() == Check(old(State()), now)
    {
      if status == Authenticated && lastTick > 0.0 {
        var age := now - lastTick;
        if age > MAX_GAP {
          status := Stale;
          paused := true;
          reason := NoTicks(age);
          staleEvents := staleEvents + 1;
        }
      }
    }

    /** The gate, with the reason it gives when it stays shut. */
    method IsTradeManagementSafe(now: real) returns (safe: bool, why: Reason)
      ensures safe == Safe(State(), now)
      ensures safe ==> why == NoReason
      ensures paused ==> why == reason
      ensures !paused && status != Authenticated ==> why == WrongStatus(status)
    {
      if paused {
        return false, reason;
      }
      if status != Authenticated {
        return false, WrongStatus(status);
      }
      var age := if lastTick != 0.0 then now - lastTick else -1.0;
      if age < 0.0 || age >= MAX_GAP {
        return false, NoTicks(age);
      }
      return true, NoReason;
    }

    method Subscribe(priority: int, kind: Kind, filter: set<string>) returns (sid: nat)
      requires Valid() && 1 <= priority <= 4
      modifies this`subscribers, this`subId
      ensures Valid() && sid == subId == old(subId) + 1
      ensures forall q, x :: Subscribed(subscribers, q, x) <==>
                old(Subscribed(subscribers, q, x)) || (q == priority && x == Subscriber(sid, kind, filter))
    {
      sid := subId + 1;
      JoinIsValid(subscribers, subId, priority, Subscriber(sid, kind, filter));
      JoinAdds(subscribers, priority, Subscriber(sid, kind, filter));
      subId := sid;
      subscribers := Join(subscribers, priority, Subscriber(sid, kind, filter));
    }

    /** Tell everyone who wants the tick, by priority and then by subscription. */
    method Broadcast(key: string, mode: Option<int>) returns (told: seq<Delivery>)
      ensures told == Audience(subscribers, 4, key, EventOf(mode))
    {
      told := [];
      var event := EventOf(mode);
      for p := 1 to 5
        invariant told == Audience(subscribers, p - 1, key, event)
      {
        var subs := ListOf(subscribers, p);
        for i := 0 to |subs|
          invariant told == Audience(subscribers, p - 1, key, event) + Heard(subs[..i], p, key, event)
        {
          HeardNext(subs, i, p, key, event);
          if Wants(subs[i], key, event) {
            told := told + [Delivery(p, subs[i].id)];
          }
        }
        assert subs[..|subs|] == subs;
      }
    }
  }
}
