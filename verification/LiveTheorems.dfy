/** What one live submission can do, and how far the live ledger agrees with the exchange. */
module LiveTheorems {
  import opened Wrappers
  import opened RealFacts
  import opened OrderedDict
  import opened Costs
  import opened Broker
  import opened Tick
  import opened OrderProtocol
  import opened OrderTheorems
  import opened Live

  // ---------------------------------------------------------------- what is sent

  /**
   Of a positive wish, what is sent never exceeds it nor, for a sale, what may be sold, and is whole for a
   KR symbol. It is empty in exactly one case: a KR sale when less than one share may be sold.
   */
  lemma TrimmedQuantityIs(s: Symbol, side: Side, wanted: real, sellable: Option<real>)
    requires wanted > 0.0 && TrimmedQuantity(s, side, wanted, sellable).Ok?
    ensures var sent := TrimmedQuantity(s, side, wanted, sellable).value;
            && 0.0 <= sent <= wanted
            && (side == Sell ==> sellable.Some? && sent <= sellable.value)
            && (CountryOf(s) == KR ==> IsWhole(sent))
            && (sent == 0.0 <==> CountryOf(s) == KR && side == Sell && sellable.value < 1.0)
  {
    hide CountryOf;
    TruncateIsBelow(wanted);
    WholeOfInt(Truncate(wanted));
    if side == Sell {
      TruncateIsBelow(sellable.value);
      WholeOfInt(Truncate(sellable.value));
    }
  }

  /**
   A KR limit price is sent on the grid of its instrument, at least as aggressive as asked, and no valid price
   lies strictly between.
   */
  lemma LimitPriceIs(setup: Setup, s: Symbol, side: Side, price: real, other: real)
    requires CountryOf(s) == KR && price >= 0.0
    ensures var sent := LimitPrice(setup, s, side, price);
            && IsValidTick(TableFor(setup, s), sent)
            && (if side == Buy then sent >= price else sent <= price)
            && (IsValidTick(TableFor(setup, s), other) ==>
                  if side == Buy then !(price <= other < sent) else !(sent < other <= price))
  {
    hide RoundToTick, IsValidTick;
    var table := TableFor(setup, s);
    if side == Buy { BuyIsLeastValid(table, price); } else { SellIsGreatestValid(table, price); }
  }

  /** How far a price lies above a whole number of cents, in cents. */
  function PastTheCent(price: real): real {
    price / 0.01 - (price / 0.01).Floor as real
  }

  /** Half-even rounding to the cent moves this price the way this side wants it, or not at all. */
  predicate RoundsItsWay(side: Side, price: real) {
    var past, even := PastTheCent(price), (price / 0.01).Floor % 2 == 0;
    if side == Buy then past == 0.0 || past > 0.5 || (past == 0.5 && !even) else past < 0.5 || (past == 0.5 && even)
  }

  /**
   A US limit price is sent in whole cents, at most half a cent away. Unlike a KR price it is rounded half-even
   whatever the side, so it is at least as aggressive as asked exactly when the rounding happens to go its way.
   */
  lemma UsLimitPriceIs(setup: Setup, s: Symbol, side: Side, price: real)
    requires CountryOf(s) == US
    ensures var sent := LimitPrice(setup, s, side, price);
            && OnGrid(sent, 0.01) && Abs(sent - price) <= 0.005
            && ((if side == Buy then sent >= price else sent <= price) <==> RoundsItsWay(side, price))
  {
    hide CountryOf;
    var cents := price / 0.01;
    var whole := Quantize(cents, HalfEven);
    GridOf(whole, 0.01);
    CentsToPrice(cents, whole, price);
  }

  lemma CentsToPrice(cents: real, whole: int, price: real)
    requires cents * 0.01 == price
    ensures whole as real * 0.01 - price == (whole as real - cents) * 0.01
  {
  }

  /** A US BUY limit at 10.004 dollars goes out at 10.00: less than asked. */
  lemma UsBuyLosesGround(setup: Setup)
    ensures LimitPrice(setup, "SPY", Buy, 10.004) == 10.00
  {
    assert 10.004 / 0.01 == 1000.4;
    assert (1000.4).Floor == 1000;
  }

  // ---------------------------------------------------------------- one submission, one order

  /**
   One submission under a fresh key leaves at most one order for it at the exchange, whatever the network
   does before and after it returns. If it reports an order, that order exists, asks for what was prepared,
   and is in the ledger under its key; otherwise the ledger is as it was.
   */
  lemma SubmitPlacesAtMostOne(setup: Setup, t: Tables, x: Wish, key: string, sellable: Option<real>, maxRetries: nat,
                              start: Progress, fates: nat -> Fate, polls: nat -> Polls, stragglers: seq<Late>)
    requires start == Start(start.world, start.tokens, start.requestCount)
    requires OneOrderPerKey(start.world.orders)
    requires forall i :: 0 <= i < |start.world.orders| ==> start.world.orders[i].key != key
    requires forall m :: m in start.world.inFlight ==> m.key != key
    requires forall id: nat, n: nat :: polls(id)(n).Some? ==> polls(id)(n).value.id == id
    ensures var after := SubmitOf(setup, t, x, key, sellable, maxRetries, start, fates, polls);
            var orders := ArriveAll(after.world, stragglers).orders;
            && CountKey(orders, key) <= 1
            && (after.result.Ok? && after.result.value.id.Some? ==>
                  var id := after.result.value.id.value;
                  && Prepared(setup, x, sellable).Ok?
                  && id < |orders| && orders[id] == Order(id, key, Prepared(setup, x, sellable).value)
                  && id in after.tables.orders && after.tables.orders[id].key == Some(key))
            && (!(after.result.Ok? && after.result.value.id.Some?) ==> after.tables == t)
  {
    hide Finish, ArriveAll, Prepared, FillOf, OneOrderPerKey;
    var sent := Prepared(setup, x, sellable);
    if sent.Ok? {
      var call := Call(key, sent.value, true, maxRetries);
      AtMostOnce(call, start, fates, stragglers);
      var done := Finish(call, start, fates).done;
      if done.value.Ok? { AwaitNames(polls(done.value.value), done.value.value, 0); }
    } else {
      NothingSent(start.world, key, stragglers);
    }
  }

  /** Stragglers of other keys never create an order for this one. */
  lemma {:induction false} NothingSent(w: World, key: string, ls: seq<Late>)
    requires OneOrderPerKey(w.orders)
    requires forall i :: 0 <= i < |w.orders| ==> w.orders[i].key != key
    requires forall m :: m in w.inFlight ==> m.key != key
    ensures var now := ArriveAll(w, ls);
            && CountKey(now.orders, key) == 0
            && (forall i :: 0 <= i < |now.orders| ==> now.orders[i].key != key)
            && (forall m :: m in now.inFlight ==> m.key != key)
    decreases |ls|
  {
    hide Find, OneOrderPerKey, CountKey;
    if |ls| == 0 {
      AtMostOnePerKey(w.orders, key);
    } else {
      NothingSent(w, key, ls[..|ls| - 1]);
      CountOfAppend(ArriveAll(w, ls[..|ls| - 1]).orders, key);
    }
  }

  lemma CountOfAppend(orders: seq<Order>, key: string)
    ensures forall o: Order :: o.key != key ==> CountKey(orders + [o], key) == CountKey(orders, key)
  {
    forall o: Order | o.key != key ensures CountKey(orders + [o], key) == CountKey(orders, key) {
      assert (orders + [o])[..|orders|] == orders;
    }
  }

  lemma {:induction false} AwaitNames(polls: Polls, id: nat, n: nat)
    requires forall k: nat :: polls(k).Some? ==> polls(k).value.id == id
    ensures AwaitFrom(polls, n).Some? ==> AwaitFrom(polls, n).value.id == id && AwaitFrom(polls, n).value.Terminal()
    decreases FILL_POLL_ATTEMPTS - n
  {
    if n < FILL_POLL_ATTEMPTS { AwaitNames(polls, id, n + 1); }
  }

  // ---------------------------------------------------------------- runs of the ledger

  /** An acknowledged submission with what its polls saw, or a reconciliation. */
  datatype Event = Placed(id: nat, key: string, intent: Intent, final: Option<Report>) | Reconciled(history: seq<Report>)

  function EventStep(t: Tables, e: Event): Tables {
    match e
    case Placed(id, key, i, final) => Logged(t, id, key, i, final)
    case Reconciled(h) => t.(orders := Synced(t.orders, h))
  }

  function AfterEvents(t: Tables, events: seq<Event>): Tables {
    if |events| == 0 then t else EventStep(AfterEvents(t, events[..|events| - 1]), events[|events| - 1])
  }

  function FillsFor(fills: seq<LiveFill>, id: nat): seq<LiveFill> {
    if |fills| == 0 then []
    else FillsFor(fills[..|fills| - 1], id) + if fills[|fills| - 1].id == id then [fills[|fills| - 1]] else []
  }

  /** The executions of one order that its own submission waited for and saw. */
  function SeenFor(events: seq<Event>, id: nat): seq<LiveFill> {
    if |events| == 0 then []
    else
      SeenFor(events[..|events| - 1], id)
      + match events[|events| - 1]
        case Placed(i, _, _, Some(r)) => if i == id then FillOf(r) else []
        case _ => []
  }

  /** Each report answers for the order it was polled for. */
  ghost predicate OwnReports(events: seq<Event>) {
    forall i :: 0 <= i < |events| && events[i].Placed? && events[i].final.Some? ==> events[i].final.value.id == events[i].id
  }

  /** The exchange never gives an id twice. */
  ghost predicate FreshIds(events: seq<Event>) {
    forall i, j :: 0 <= i < j < |events| && events[i].Placed? && events[j].Placed? ==> events[i].id != events[j].id
  }

  lemma FillsForAppend(fills: seq<LiveFill>, r: Report, id: nat)
    ensures FillsFor(fills + FillOf(r), id) == FillsFor(fills, id) + if r.id == id then FillOf(r) else []
  {
    if |FillOf(r)| == 1 {
      assert (fills + FillOf(r))[..|fills|] == fills;
    } else {
      assert fills + FillOf(r) == fills;
    }
  }

  /**
   The fills table holds, for every order, exactly the executions its own submission saw: reconciling never
   adds one. So an order that completes after the polling window has no fill row, ever.
   */
  lemma {:induction false} FillsAreThoseSeen(events: seq<Event>, id: nat)
    requires OwnReports(events)
    ensures FillsFor(AfterEvents(Tables(map[], []), events).fills, id) == SeenFor(events, id)
  {
    hide FillOf;
    if |events| > 0 {
      var n := |events| - 1;
      FillsAreThoseSeen(events[..n], id);
      var e := events[n];
      if e.Placed? && e.final.Some? {
        FillsForAppend(AfterEvents(Tables(map[], []), events[..n]).fills, e.final.value, id);
      }
    }
  }

  lemma {:induction false} SeenNothing(events: seq<Event>, id: nat)
    requires forall i :: 0 <= i < |events| && events[i].Placed? ==> events[i].id != id
    ensures SeenFor(events, id) == []
  {
    hide FillOf;
    if |events| > 0 { SeenNothing(events[..|events| - 1], id); }
  }

  /** No execution is ever booked twice. */
  lemma {:induction false} AtMostOneFill(events: seq<Event>, id: nat)
    requires FreshIds(events)
    ensures |SeenFor(events, id)| <= 1
  {
    if |events| > 0 {
      var n := |events| - 1;
      if events[n].Placed? && events[n].id == id {
        SeenNothing(events[..n], id);
      } else {
        AtMostOneFill(events[..n], id);
      }
    }
  }

  // ---------------------------------------------------------------- reconciling

  /** One report per order. */
  ghost predicate OnePerOrder(history: seq<Report>) {
    forall i, j :: 0 <= i < j < |history| ==> history[i].id != history[j].id
  }

  lemma {:induction false} SyncLeavesOthers(orders: map<nat, Row>, history: seq<Report>, id: nat)
    requires forall i :: 0 <= i < |history| ==> history[i].id != id
    ensures id in Synced(orders, history) <==> id in orders
    ensures id in orders ==> Synced(orders, history)[id] == orders[id]
  {
    if |history| > 0 { SyncLeavesOthers(orders, history[..|history| - 1], id); }
  }

  /**
   After a reconciliation every listed order has the exchange's status. Its filled quantity agrees exactly
   unless the status was known already and the quantity was not: such a row is skipped.
   */
  lemma {:induction false} SyncAgrees(orders: map<nat, Row>, history: seq<Report>, k: nat)
    requires OnePerOrder(history) && k < |history|
    ensures var r := history[k]; var now := Synced(orders, history);
            && r.id in now && now[r.id].status == r.status
            && (now[r.id].filled == r.Filled() <==>
                  !(r.id in orders && orders[r.id].status == r.status && orders[r.id].filled != r.Filled()))
    ensures var r := history[k]; var now := Synced(orders, history)[history[k].id];
            if r.id in orders && orders[r.id].status == r.status then now == orders[r.id]
            else
              && now.filled == r.Filled() && now.price == r.Price()
              && now.symbol == (if r.id in orders then orders[r.id].symbol else r.symbol)
              && now.side == (if r.id in orders then orders[r.id].side else r.side)
              && now.key == if r.id in orders then orders[r.id].key else None
  {
    var n := |history| - 1;
    if k < n {
      SyncAgrees(orders, history[..n], k);
    } else {
      SyncLeavesOthers(orders, history[..n], history[k].id);
    }
  }

  ghost predicate Settled(orders: map<nat, Row>, history: seq<Report>) {
    forall i :: 0 <= i < |history| ==> history[i].id in orders && orders[history[i].id].status == history[i].status
  }

  lemma {:induction false} SettledSyncsToItself(orders: map<nat, Row>, history: seq<Report>)
    requires Settled(orders, history)
    ensures Synced(orders, history) == orders && UpdatesOf(orders, history) == 0
  {
    if |history| > 0 { SettledSyncsToItself(orders, history[..|history| - 1]); }
  }

  /** Reconciling again with the same history changes nothing and reports nothing. */
  lemma SyncIsIdempotent(orders: map<nat, Row>, history: seq<Report>)
    requires OnePerOrder(history)
    ensures Synced(Synced(orders, history), history) == Synced(orders, history)
    ensures UpdatesOf(Synced(orders, history), history) == 0
  {
    forall k | 0 <= k < |history|
      ensures history[k].id in Synced(orders, history) && Synced(orders, history)[history[k].id].status == history[k].status
    {
      SyncAgrees(orders, history, k);
    }
    SettledSyncsToItself(Synced(orders, history), history);
  }

  /**
   Where the ledger parts from the exchange: after the history has been reconciled, an order that filled for
   a price has a fill row if and only if its own submission saw it complete.
   */
  lemma FillIsBookedIffSeen(events: seq<Event>, history: seq<Report>, k: nat)
    requires OwnReports(events) && OnePerOrder(history) && k < |history|
    ensures var now := EventStep(AfterEvents(Tables(map[], []), events), Reconciled(history));
            && history[k].id in now.orders && now.orders[history[k].id].status == history[k].status
            && (FillsFor(now.fills, history[k].id) != [] <==>
                  exists i :: 0 <= i < |events| && SawFill(events[i], history[k].id))
  {
    var t := AfterEvents(Tables(map[], []), events);
    SyncAgrees(t.orders, history, k);
    FillsAreThoseSeen(events, history[k].id);
    SeenIff(events, history[k].id);
  }

  predicate SawFill(e: Event, id: nat) {
    e.Placed? && e.id == id && e.final.Some? && FillOf(e.final.value) != []
  }

  lemma {:induction false} SeenIff(events: seq<Event>, id: nat)
    ensures SeenFor(events, id) != [] <==> exists i :: 0 <= i < |events| && SawFill(events[i], id)
  {
    hide FillOf;
    if |events| > 0 {
      var n := |events| - 1;
      SeenIff(events[..n], id);
      if i :| 0 <= i < n && SawFill(events[..n][i], id) { assert SawFill(events[i], id); }
      if i :| 0 <= i < |events| && SawFill(events[i], id) {
        if i < n { assert SawFill(events[..n][i], id); }
      }
    }
  }
}
