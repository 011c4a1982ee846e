/** What a live submission does with a wish: which wishes never leave the house, and what the order at the exchange says. */
module SubmitTheorems {
  import opened Wrappers
  import opened RealFacts
  import opened OrderedDict
  import opened Costs
  import opened Broker
  import opened Tick
  import opened OrderProtocol
  import opened OrderTheorems
  import opened Live
  import opened LiveTheorems

  // ---------------------------------------------------------------- which wishes are sent

  /** Less than one KR share, or a sale of something of which nothing may be sold. */
  ghost predicate IsDeclined(x: Wish, sellable: Option<real>) {
    && x.intent.quantity.Some?
    && ((CountryOf(x.intent.symbol) == KR && x.intent.quantity.value < 1.0)
        || (x.intent.side == Sell && (sellable.None? || sellable.value <= 0.0)))
  }

  /** Not exactly one of quantity and amount; a limit without a price; a market order with one; an amount at a limit. */
  ghost predicate IsRaised(x: Wish) {
    || x.intent.quantity.Some? == x.intent.orderAmount.Some?
    || (x.orderType == "LIMIT" && x.price.None?)
    || (x.orderType == "MARKET" && x.price.Some?)
    || (x.intent.orderAmount.Some? && x.orderType != "MARKET")
  }

  lemma TrimsToNothingIff(s: Symbol, side: Side, wanted: real, sellable: Option<real>)
    ensures TrimmedQuantity(s, side, wanted, sellable).Ok?
       <==> !(CountryOf(s) == KR && wanted < 1.0) && !(side == Sell && (sellable.None? || sellable.value <= 0.0))
    ensures TrimmedQuantity(s, side, wanted, sellable).Err? ==> TrimmedQuantity(s, side, wanted, sellable).error.Declined?
  {
    hide CountryOf;
    WholePartIsPositiveIff(wanted);
  }

  lemma WholePartIsPositiveIff(x: real)
    ensures Truncate(x) as real <= 0.0 <==> x < 1.0
  {
  }

  lemma OrderBodyIs(s: Symbol, side: Side, orderType: string, quantity: Option<real>, price: Option<real>, amount: Option<real>, confirm: bool)
    ensures var r := OrderBody(s, side, orderType, quantity, price, amount, confirm);
            && (r.Err? <==> quantity.Some? == amount.Some? || (orderType == "LIMIT" && price.None?)
                            || (orderType == "MARKET" && price.Some?) || (amount.Some? && orderType != "MARKET"))
            && (r.Err? ==> r.error.Raised?)
            && (r.Ok? ==>
                  && r.value.symbol == s && (r.value.isBuy <==> side == Buy) && r.value.orderType == orderType
                  && r.value.quantity == quantity && r.value.amount == amount
                  && r.value.timeInForce == None && r.value.confirmHighValue == confirm
                  && r.value.price == (if quantity.Some? then price else None))
  {
  }

  // ---------------------------------------------------------------- what an order says

  /** As much of the wish, and for a sale of what may be sold, as the market can trade: all of it, or the whole shares. */
  ghost predicate AsMuchAsGoes(s: Symbol, side: Side, wanted: real, sellable: Option<real>, sent: real) {
    var most := if side == Sell && sellable.Some? then Min(wanted, sellable.value) else wanted;
    if CountryOf(s) == US then sent == most else IsWhole(sent) && 0.0 <= most - sent < 1.0
  }

  /** A KR price is the nearest valid one that is no less aggressive than asked, a US price the nearest cent. */
  ghost predicate PricedFor(setup: Setup, s: Symbol, side: Side, asked: real, sent: real) {
    if CountryOf(s) == US then OnGrid(sent, 0.01) && Abs(sent - asked) <= 0.005
    else
      var table := if s in setup.etfSymbols then KRX_ETF_TICKS else KRX_STOCK_TICKS;
      WellFormed(table)
      && (asked >= 0.0 ==>
            IsValidTick(table, sent)
            && if side == Buy then sent >= asked && forall v :: IsValidTick(table, v) ==> !(asked <= v < sent)
               else sent <= asked && forall v :: IsValidTick(table, v) ==> !(sent < v <= asked))
  }

  /** The wish, as an order. */
  ghost predicate Carries(setup: Setup, x: Wish, sellable: Option<real>, b: Body) {
    var i := x.intent;
    && b.symbol == i.symbol && (b.isBuy <==> i.side == Buy)
    && b.orderType == x.orderType && b.amount == i.orderAmount
    && b.timeInForce == None && b.confirmHighValue == setup.confirmHighValue
    && (b.quantity.Some? <==> i.quantity.Some?) && (b.quantity.Some? <==> b.amount.None?)
    && (i.quantity.Some? ==> AsMuchAsGoes(i.symbol, i.side, i.quantity.value, sellable, b.quantity.value))
    && (b.price.Some? <==> i.quantity.Some? && x.price.Some?)
    && (b.price.Some? ==>
          if x.orderType == "LIMIT" then PricedFor(setup, i.symbol, i.side, x.price.value, b.price.value)
          else b.price == x.price)
  }

  lemma TrimsAsMuchAsGoes(s: Symbol, side: Side, wanted: real, sellable: Option<real>)
    requires TrimmedQuantity(s, side, wanted, sellable).Ok?
    ensures AsMuchAsGoes(s, side, wanted, sellable, TrimmedQuantity(s, side, wanted, sellable).value)
  {
    hide CountryOf;
    TrimsToNothingIff(s, side, wanted, sellable);
    WholeOfInt(Truncate(wanted));
    if side == Sell { WholeOfInt(Truncate(sellable.value)); }
  }

  lemma PriceIsSent(setup: Setup, s: Symbol, side: Side, asked: real)
    ensures PricedFor(setup, s, side, asked, LimitPrice(setup, s, side, asked))
  {
    hide CountryOf, RoundToTick, IsValidTick, OnGrid, Snap;
    if CountryOf(s) == US {
      UsLimitPriceIs(setup, s, side, asked);
    } else {
      KrxTablesAreWellFormed();
      var table := TableFor(setup, s);
      if asked >= 0.0 {
        LimitPriceIs(setup, s, side, asked, asked);
        forall v | IsValidTick(table, v)
          ensures if side == Buy then !(asked <= v < LimitPrice(setup, s, side, asked)) else !(LimitPrice(setup, s, side, asked) < v <= asked)
        {
          LimitPriceIs(setup, s, side, asked, v);
        }
      }
    }
  }

  /** Exactly which wishes are declined, which raise, and what the others become. */
  lemma PreparedIs(setup: Setup, x: Wish, sellable: Option<real>)
    ensures var p := Prepared(setup, x, sellable);
            && (p.Ok? <==> !IsDeclined(x, sellable) && !IsRaised(x))
            && (p.Err? ==> (p.error.Declined? <==> IsDeclined(x, sellable)))
            && (p.Ok? ==> Carries(setup, x, sellable, p.value))
  {
    hide TrimmedQuantity, OrderBody, LimitPrice, AsMuchAsGoes, PricedFor, CountryOf;
    var i := x.intent;
    var price := if x.orderType == "LIMIT" && x.price.Some? then Some(LimitPrice(setup, i.symbol, i.side, x.price.value)) else x.price;
    if x.price.Some? { PriceIsSent(setup, i.symbol, i.side, x.price.value); }
    match i.quantity
    case None =>
      OrderBodyIs(i.symbol, i.side, x.orderType, None, price, i.orderAmount, setup.confirmHighValue);
    case Some(wanted) =>
      TrimsToNothingIff(i.symbol, i.side, wanted, sellable);
      if TrimmedQuantity(i.symbol, i.side, wanted, sellable).Ok? {
        TrimsAsMuchAsGoes(i.symbol, i.side, wanted, sellable);
        OrderBodyIs(i.symbol, i.side, x.orderType, Some(TrimmedQuantity(i.symbol, i.side, wanted, sellable).value), price,
                    i.orderAmount, setup.confirmHighValue);
      }
  }

  // ---------------------------------------------------------------- the whole submission

  /** What the caller is told of an order is what its row says, and a refused order is not a success. */
  ghost predicate Answers(r: OrderResult, row: Row) {
    && row.status == (if r.status == "PENDING" then "SUBMITTED" else r.status) && row.filled == r.filled
    && (r.ok <==> r.status !in {"REJECTED", "CANCEL_REJECTED", "REPLACE_REJECTED"})
  }

  /**
   A declined wish fails and a malformed one raises, and neither sends or writes anything; no other wish raises.
   Whatever order is reported exists at the exchange under the submission's key and carries the wish: its side,
   symbol, type and amount, as much of its quantity as goes, at a price no less aggressive. It is logged as such.
   */
  lemma SubmitSendsTheWish(setup: Setup, t: Tables, x: Wish, key: string, sellable: Option<real>, maxRetries: nat,
                           start: Progress, fates: nat -> Fate, polls: nat -> Polls, stragglers: seq<Late>)
    requires start == Start(start.world, start.tokens, start.requestCount)
    requires OneOrderPerKey(start.world.orders)
    requires forall i :: 0 <= i < |start.world.orders| ==> start.world.orders[i].key != key
    requires forall m :: m in start.world.inFlight ==> m.key != key
    requires forall id: nat, n: nat :: polls(id)(n).Some? ==> polls(id)(n).value.id == id
    ensures var after := SubmitOf(setup, t, x, key, sellable, maxRetries, start, fates, polls);
            && (IsDeclined(x, sellable) ==> after == Submission(start.world, t, Ok(FAILED)))
            && (after.result.Err? <==> !IsDeclined(x, sellable) && IsRaised(x))
            && (after.result.Err? ==> after.world == start.world && after.tables == t)
            && (after.result.Ok? && after.result.value.id.Some? ==>
                  var id := after.result.value.id.value;
                  var orders := ArriveAll(after.world, stragglers).orders;
                  && id < |orders| && orders[id].key == key && Carries(setup, x, sellable, orders[id].body)
                  && id in after.tables.orders
                  && after.tables.orders[id].symbol == x.intent.symbol && after.tables.orders[id].side == x.intent.side
                  && Answers(after.result.value, after.tables.orders[id]))
  {
    hide Finish, ArriveAll, Prepared, FillOf, OneOrderPerKey, IsDeclined, IsRaised, Carries;
    PreparedIs(setup, x, sellable);
    SubmitPlacesAtMostOne(setup, t, x, key, sellable, maxRetries, start, fates, polls, stragglers);
    var sent := Prepared(setup, x, sellable);
    if sent.Ok? {
      var call := Call(key, sent.value, true, maxRetries);
      var done := Finish(call, start, fates).done;
      CallEnds(call, start, fates);
      if done.value.Ok? { AwaitNames(polls(done.value.value), done.value.value, 0); }
    }
  }

  // ---------------------------------------------------------------- what is answered and booked

  /** The statuses after which an order changes no more. */
  const FINAL_STATUSES := {"FILLED", "CANCELED", "REJECTED", "REPLACED", "CANCEL_REJECTED", "REPLACE_REJECTED"}

  /** What is waited for is the first final report among the first five polls; any failed poll before it ends the wait. */
  lemma {:induction false} AwaitIsFirstFinal(polls: Polls, n: nat)
    requires n <= 5
    ensures var r := AwaitFrom(polls, n);
            && (r.Some? ==> exists k :: n <= k < 5 && polls(k) == r && r.value.status in FINAL_STATUSES
                              && forall j :: n <= j < k ==> polls(j).Some? && polls(j).value.status !in FINAL_STATUSES)
            && (r.None? ==> (forall j :: n <= j < 5 ==> polls(j).Some? && polls(j).value.status !in FINAL_STATUSES)
                            || exists k :: n <= k < 5 && polls(k).None?
                                 && forall j :: n <= j < k ==> polls(j).Some? && polls(j).value.status !in FINAL_STATUSES)
    decreases 5 - n
  {
    if n < 5 && polls(n).Some? && !polls(n).value.Terminal() { AwaitIsFirstFinal(polls, n + 1); }
  }

  /** A fill row repeats what the report says: the order, its side, and how much was filled at what average price. */
  lemma FillRowIs(r: Report)
    ensures FillOf(r) == match r.execution
                         case Some(Execution(filled, Some(price))) =>
                           if filled > 0.0 && price != 0.0 then [LiveFill(r.id, r.symbol, r.side, filled, price)] else []
                         case _ => []
    ensures r.execution.None? ==> r.Filled() == 0.0 && r.Price() == None
    ensures r.execution.Some? ==>
              && r.Filled() == r.execution.value.filled
              && r.Price() == if r.execution.value.price == Some(0.0) then None else r.execution.value.price
  {
  }
}
