/**
 The live broker as the caller of the order protocol (src/tqt/execution/live.py): what it sends, what it
 writes to the orders and fills tables, and how it reconciles them with the exchange's history.
 */
module Live {
  import opened Wrappers
  import opened RealFacts
  import opened OrderedDict
  import opened Costs
  import opened Broker
  import opened Tick
  import opened OrderProtocol

  // ---------------------------------------------------------------- what is sent

  /** An OrderIntent with its order type and limit price. */
  datatype Wish = Wish(intent: Intent, orderType: string, price: Option<real>)

  datatype Setup = Setup(etfSymbols: set<Symbol>, confirmHighValue: bool)

  /** Refused before sending, or an exception that escapes to the caller. */
  datatype Stop = Declined(why: string) | Raised(why: string)

  /** The quantity after the whole-share and the sellable rule; no sellable figure counts as zero. */
  function TrimmedQuantity(s: Symbol, side: Side, wanted: real, sellable: Option<real>): Result<real, Stop> {
    var qty := if CountryOf(s) == KR then Truncate(wanted) as real else wanted;
    var avail := if sellable.Some? then sellable.value else 0.0;
    if CountryOf(s) == KR && qty <= 0.0 then Err(Declined("quantity rounds to zero"))
    else if side == Buy then Ok(qty)
    else if avail <= 0.0 then Err(Declined("sellable quantity is 0"))
    else if qty <= avail then Ok(qty)
    else Ok(if CountryOf(s) == KR then Truncate(avail) as real else avail)
  }

  function TableFor(setup: Setup, s: Symbol): (t: Table)
    ensures WellFormed(t)
  {
    KrxTablesAreWellFormed();
    if s in setup.etfSymbols then KRX_ETF_TICKS else KRX_STOCK_TICKS
  }

  function LimitPrice(setup: Setup, s: Symbol, side: Side, price: real): real {
    if CountryOf(s) == US then Snap(price, 0.01, HalfEven) else RoundToTick(TableFor(setup, s), price, Some(side))
  }

  /** create_order: its argument checks, and the body it posts. */
  function OrderBody(s: Symbol, side: Side, orderType: string, quantity: Option<real>, price: Option<real>,
                     amount: Option<real>, confirm: bool): Result<Body, Stop>
  {
    if quantity.None? == amount.None? then Err(Raised("pass exactly one of quantity= or order_amount="))
    else if orderType == "LIMIT" && price.None? then Err(Raised("LIMIT orders require price="))
    else if orderType == "MARKET" && price.Some? then Err(Raised("MARKET orders must not carry a price"))
    else if amount.Some? && orderType != "MARKET" then Err(Raised("order_amount= is only valid for MARKET orders"))
    else Ok(Body(s, side == Buy, orderType, quantity, if quantity.Some? then price else None, amount, None, confirm))
  }

  /** submit up to the request. */
  function Prepared(setup: Setup, x: Wish, sellable: Option<real>): Result<Body, Stop> {
    var i := x.intent;
    var price := if x.orderType == "LIMIT" && x.price.Some? then Some(LimitPrice(setup, i.symbol, i.side, x.price.value)) else x.price;
    match i.quantity
    case None => OrderBody(i.symbol, i.side, x.orderType, None, price, i.orderAmount, setup.confirmHighValue)
    case Some(wanted) =>
      match TrimmedQuantity(i.symbol, i.side, wanted, sellable)
      case Err(stop) => Err(stop)
      case Ok(qty) => OrderBody(i.symbol, i.side, x.orderType, Some(qty), price, i.orderAmount, setup.confirmHighValue)
  }

  // ---------------------------------------------------------------- the tables

  datatype Execution = Execution(filled: real, price: Option<real>)

  /** An order as the exchange reports it. */
  datatype Report = Report(id: nat, symbol: Symbol, side: Side, status: string, execution: Option<Execution>)
  {
    predicate Terminal() {
      status in {"FILLED", "CANCELED", "REJECTED", "REPLACED", "CANCEL_REJECTED", "REPLACE_REJECTED"}
    }

    function Filled(): real {
      if execution.Some? then execution.value.filled else 0.0
    }

    /** The average price; a zero one is stored as none. */
    function Price(): Option<real> {
      if execution.Some? && execution.value.price.Some? && execution.value.price.value != 0.0 then execution.value.price else None
    }
  }

  datatype Row = Row(key: Option<string>, symbol: Symbol, side: Side, status: string, filled: real, price: Option<real>)

  datatype LiveFill = LiveFill(id: nat, symbol: Symbol, side: Side, quantity: real, price: real)

  datatype Tables = Tables(orders: map<nat, Row>, fills: seq<LiveFill>)

  const FILL_POLL_ATTEMPTS := 5

  /** The polls of one order: None stands for a failed poll. */
  type Polls = nat -> Option<Report>

  /** `_await_fill` from the nth poll on. */
  function AwaitFrom(polls: Polls, n: nat): Option<Report>
    decreases FILL_POLL_ATTEMPTS - n
  {
    if n >= FILL_POLL_ATTEMPTS || polls(n).None? then None
    else if polls(n).value.Terminal() then polls(n)
    else AwaitFrom(polls, n + 1)
  }

  /** `_record_submission` */
  function WithSubmission(t: Tables, id: nat, key: string, i: Intent): Tables {
    t.(orders := t.orders[id := Row(Some(key), i.symbol, i.side, "SUBMITTED", 0.0, None)])
  }

  function FillOf(r: Report): seq<LiveFill> {
    if r.Filled() > 0.0 && r.Price().Some? then [LiveFill(r.id, r.symbol, r.side, r.Filled(), r.Price().value)] else []
  }

  function Updated(row: Row, r: Report): Row {
    row.(status := r.status, filled := r.Filled(), price := r.Price())
  }

  /** `_record_final`: an UPDATE, which needs the row, and an INSERT, which does not. */
  function WithFinal(t: Tables, r: Report): Tables {
    Tables(if r.id in t.orders then t.orders[r.id := Updated(t.orders[r.id], r)] else t.orders, t.fills + FillOf(r))
  }

  /** The tables after an acknowledged order. */
  function Logged(t: Tables, id: nat, key: string, i: Intent, final: Option<Report>): Tables {
    var submitted := WithSubmission(t, id, key, i);
    if final.None? then submitted else WithFinal(submitted, final.value)
  }

  /** One row of `sync_orders`: left alone if the status is known, else written. */
  function SyncOne(orders: map<nat, Row>, r: Report): map<nat, Row> {
    if r.id in orders && orders[r.id].status == r.status then orders
    else orders[r.id := Updated(if r.id in orders then orders[r.id] else Row(None, r.symbol, r.side, r.status, 0.0, None), r)]
  }

  function Synced(orders: map<nat, Row>, history: seq<Report>): map<nat, Row> {
    if |history| == 0 then orders else SyncOne(Synced(orders, history[..|history| - 1]), history[|history| - 1])
  }

  function UpdatesOf(orders: map<nat, Row>, history: seq<Report>): nat {
    if |history| == 0 then 0
    else
      var n, r := |history| - 1, history[|history| - 1];
      var before := Synced(orders, history[..n]);
      UpdatesOf(orders, history[..n]) + if r.id in before && before[r.id].status == r.status then 0 else 1
  }

  // ---------------------------------------------------------------- submitting

  datatype OrderResult = OrderResult(ok: bool, id: Option<nat>, status: string, filled: real)

  const FAILED := OrderResult(false, None, "UNKNOWN", 0.0)

  function ResultOf(id: nat, final: Option<Report>): OrderResult {
    match final
    case None => OrderResult(true, Some(id), "PENDING", 0.0)
    case Some(r) => OrderResult(r.status !in {"REJECTED", "CANCEL_REJECTED", "REPLACE_REJECTED"}, Some(r.id), r.status, r.Filled())
  }

  /** Where a submission leaves the exchange and the tables, and what it answers; an error is an exception. */
  datatype Submission = Submission(world: World, tables: Tables, result: Result<OrderResult, string>)

  /** The protocol run that posts a body. */
  function PostOf(body: Body, key: string, maxRetries: nat, start: Progress, fates: nat -> Fate): Progress {
    Finish(Call(key, body, true, maxRetries), start, fates)
  }

  function SubmitOf(setup: Setup, t: Tables, x: Wish, key: string, sellable: Option<real>, maxRetries: nat,
                    start: Progress, fates: nat -> Fate, polls: nat -> Polls): Submission
  {
    match Prepared(setup, x, sellable)
    case Err(Declined(_)) => Submission(start.world, t, Ok(FAILED))
    case Err(Raised(why)) => Submission(start.world, t, Err(why))
    case Ok(body) =>
      var p := PostOf(body, key, maxRetries, start, fates);
      match p.done
      case Some(Ok(id)) =>
        var final := AwaitFrom(polls(id), 0);
        Submission(p.world, Logged(t, id, key, x.intent, final), Ok(ResultOf(id, final)))
      case _ => Submission(p.world, t, Ok(FAILED))
  }

  class LiveBroker {
    const client: TossClient
    const setup: Setup
    var orders: map<nat, Row>
    var fills: seq<LiveFill>

    constructor (client: TossClient, setup: Setup)
      ensures this.client == client && this.setup == setup && State() == Tables(map[], [])
    {
      this.client, this.setup := client, setup;
      orders, fills := map[], [];
    }

    function State(): Tables
      reads this
    {
      Tables(orders, fills)
    }

    /** submit: prepare, post, log the acknowledged order, wait briefly for its end and log that. */
    method Submit(w0: World, x: Wish, key: string, sellable: Option<real>, fates: nat -> Fate, polls: nat -> Polls)
      returns (w: World, r: Result<OrderResult, string>)
      modifies this, client, client.tokens
      ensures Submission(w, State(), r)
           == SubmitOf(setup, old(State()), x, key, sellable, client.maxRetries,
                       Start(w0, old(client.tokens.State()), old(client.requestCount)), fates, polls)
    {
      hide Finish, LimitPrice, TrimmedQuantity, OrderBody, ResultOf, Updated, FillOf, AwaitFrom;
      w := w0;
      var price := x.price;
      var qty := x.intent.quantity;
      if qty.Some? {
        var trimmed := TrimmedQuantity(x.intent.symbol, x.intent.side, qty.value, sellable);
        if trimmed.Err? {
          return w, if trimmed.error.Declined? then Ok(FAILED) else Err(trimmed.error.why);
        }
        qty := Some(trimmed.value);
      }
      if x.orderType == "LIMIT" && price.Some? {
        price := Some(LimitPrice(setup, x.intent.symbol, x.intent.side, price.value));
      }
      var body := OrderBody(x.intent.symbol, x.intent.side, x.orderType, qty, price, x.intent.orderAmount, setup.confirmHighValue);
      if body.Err? {
        return w, if body.error.Declined? then Ok(FAILED) else Err(body.error.why);
      }
      var ack;
      w, ack := client.Request(w, key, body.value, true, fates);
      if ack.Err? {
        return w, Ok(FAILED);
      }
      var id := ack.value;
      orders := orders[id := Row(Some(key), x.intent.symbol, x.intent.side, "SUBMITTED", 0.0, None)];
      var final := AwaitFill(polls(id));
      if final.Some? {
        if final.value.id in orders {
          orders := orders[final.value.id := Updated(orders[final.value.id], final.value)];
        }
        fills := fills + FillOf(final.value);
      }
      return w, Ok(ResultOf(id, final));
    }

    /** sync_orders, over the closed orders the exchange lists. */
    method SyncOrders(history: seq<Report>) returns (updated: nat)
      modifies this`orders
      ensures orders == Synced(old(orders), history)
      ensures updated == UpdatesOf(old(orders), history)
    {
      updated := 0;
      for i := 0 to |history|
        invariant orders == Synced(old(orders), history[..i]) && updated == UpdatesOf(old(orders), history[..i])
      {
        assert history[..i + 1][..i] == history[..i];
        var r := history[i];
        if r.id in orders && orders[r.id].status == r.status {
          continue;
        }
        var row := if r.id in orders then orders[r.id] else Row(None, r.symbol, r.side, r.status, 0.0, None);
        orders := orders[r.id := Updated(row, r)];
        updated := updated + 1;
      }
      assert history[..|history|] == history;
    }
  }

  /** `_await_fill`: poll until the order is in a terminal state, a poll fails, or the attempts are used up. */
  method AwaitFill(polls: Polls) returns (final: Option<Report>)
    ensures final == AwaitFrom(polls, 0)
  {
    var n := 0;
    while n < FILL_POLL_ATTEMPTS
      invariant n <= FILL_POLL_ATTEMPTS && AwaitFrom(polls, 0) == AwaitFrom(polls, n)
    {
      var report := polls(n);
      if report.None? || report.value.Terminal() {
        return report;
      }
      n := n + 1;
    }
    return None;
  }
}
