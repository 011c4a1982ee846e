/**
 Creating an order over a faulty network: the retry loop of src/tqt/toss/client.py with the token cache of
 src/tqt/toss/auth.py, against a server that treats clientOrderId as an idempotency key.
 */
module OrderProtocol {
  import opened Wrappers
  import opened TossErrors

  // ---------------------------------------------------------------- the server and the network

  /** What an order says, besides its key. */
  datatype Body = Body(symbol: string, isBuy: bool, orderType: string, quantity: Option<real>, price: Option<real>,
                       amount: Option<real>, timeInForce: Option<string>, confirmHighValue: bool)

  datatype Message = Message(key: string, body: Body, token: nat)

  datatype Order = Order(id: nat, key: string, body: Body)

  /**
   What the server does with one copy of a request: it may or may not create the order, and may or may not
   admit to it. It creates nothing for a key it knows, and a success always names the order of that key.
   */
  datatype Choice = Choice(create: bool, admit: bool, status: int, code: Option<string>, retryAfter: Option<real>)

  datatype Reply = Success(id: nat) | Refused(status: int, code: Option<string>, retryAfter: Option<real>)

  /** The orders the server has created, oldest first, and the copies still travelling. */
  datatype World = World(orders: seq<Order>, inFlight: seq<Message>, sent: seq<Message>)

  function Find(orders: seq<Order>, key: string): Option<nat> {
    if |orders| == 0 then None
    else if orders[|orders| - 1].key == key then Some(orders[|orders| - 1].id)
    else Find(orders[..|orders| - 1], key)
  }

  function Handle(orders: seq<Order>, r: Message, c: Choice): seq<Order> {
    if c.create && Find(orders, r.key).None? then orders + [Order(|orders|, r.key, r.body)] else orders
  }

  function ReplyTo(orders: seq<Order>, r: Message, c: Choice): Reply {
    match Find(orders, r.key)
    case Some(id) => if c.admit then Success(id) else Refused(c.status, c.code, c.retryAfter)
    case None => Refused(c.status, c.code, c.retryAfter)
  }

  /** A copy that was delayed reaches the server now; nobody is waiting for its answer. */
  datatype Late = Late(which: nat, choice: Choice)

  function Arrive(w: World, l: Late): World {
    if l.which >= |w.inFlight| then w
    else w.(orders := Handle(w.orders, w.inFlight[l.which], l.choice),
            inFlight := w.inFlight[..l.which] + w.inFlight[l.which + 1..])
  }

  function ArriveAll(w: World, ls: seq<Late>): World {
    if |ls| == 0 then w else Arrive(ArriveAll(w, ls[..|ls| - 1]), ls[|ls| - 1])
  }

  /** The network's treatment of one attempt: the copy is lost, delayed, or handled with its answer lost or seen. */
  datatype Transit = Lost | Delayed | Unanswered(choice: Choice) | Answered(choice: Choice)

  datatype Outcome = NoResponse | Response(reply: Reply)

  function Exchange(w: World, r: Message, t: Transit): (World, Outcome) {
    var w1 := w.(sent := w.sent + [r]);
    match t
    case Lost => (w1, NoResponse)
    case Delayed => (w1.(inFlight := w1.inFlight + [r]), NoResponse)
    case Unanswered(c) => (w1.(orders := Handle(w1.orders, r, c)), NoResponse)
    case Answered(c) =>
      var orders := Handle(w1.orders, r, c);
      (w1.(orders := orders), Response(ReplyTo(orders, r, c)))
  }

  // ---------------------------------------------------------------- the token cache

  const REFRESH_MARGIN := 300.0

  /** The cached token, by the number of its issue. */
  datatype TokenState = TokenState(token: Option<nat>, expiresAt: real, issued: nat)

  datatype Issue = Issued(at: real, expiresIn: real) | IssueFailed(error: TossError)

  predicate Fresh(s: TokenState, now: real) {
    s.token.Some? && now < s.expiresAt - REFRESH_MARGIN
  }

  function TokenAfter(s: TokenState, now: real, issue: Issue): TokenState {
    if Fresh(s, now) || issue.IssueFailed? then s
    else TokenState(Some(s.issued + 1), issue.at + issue.expiresIn, s.issued + 1)
  }

  function TokenResult(s: TokenState, now: real, issue: Issue): Result<nat, TossError> {
    if Fresh(s, now) then Ok(s.token.value)
    else if issue.IssueFailed? then Err(issue.error)
    else Ok(s.issued + 1)
  }

  function Invalidated(s: TokenState): TokenState {
    s.(token := None, expiresAt := 0.0)
  }

  class TokenManager {
    var token: Option<nat>
    var expiresAt: real
    var issuedCount: nat

    constructor ()
      ensures State() == TokenState(None, 0.0, 0)
    {
      token, expiresAt, issuedCount := None, 0.0, 0;
    }

    function State(): TokenState
      reads this
    {
      TokenState(token, expiresAt, issuedCount)
    }

    /** token(): the cached one while it is fresh, else a new issue. */
    method Token(now: real, issue: Issue) returns (r: Result<nat, TossError>)
      modifies this
      ensures State() == TokenAfter(old(State()), now, issue)
      ensures r == TokenResult(old(State()), now, issue)
    {
      if token.Some? && now < expiresAt - REFRESH_MARGIN {
        return Ok(token.value);
      }
      if issue.IssueFailed? {
        return Err(issue.error);
      }
      issuedCount := issuedCount + 1;
      token := Some(issuedCount);
      expiresAt := issue.at + issue.expiresIn;
      return Ok(issuedCount);
    }

    method Invalidate()
      modifies this`token, this`expiresAt
      ensures State() == Invalidated(old(State()))
    {
      token, expiresAt := None, 0.0;
    }
  }

  // ---------------------------------------------------------------- the retry loop

  /** Everything the environment decides about one attempt. */
  datatype Fate = Fate(late: seq<Late>, now: real, issue: Issue, transit: Transit)

  datatype Call = Call(key: string, body: Body, idempotent: bool, maxRetries: nat)

  datatype Progress = Progress(
    world: World, tokens: TokenState, requestCount: nat, attempts: nat,
    outcomes: seq<Outcome>, done: Option<Result<nat, TossError>>)

  function ErrorOf(o: Outcome): TossError {
    match o
    case Response(Refused(status, code, retryAfter)) => FromResponse(status, code, retryAfter)
    case _ => TRANSPORT_ERROR
  }

  /** Does the loop send the request again after this outcome, retries permitting? */
  predicate Resendable(call: Call, o: Outcome) {
    match o
    case NoResponse => call.idempotent
    case Response(Success(_)) => false
    case Response(Refused(_, _, _)) => ErrorOf(o).Retryable() || ErrorOf(o).InProgress()
  }

  predicate TokenRefused(o: Outcome) {
    o.Response? && o.reply.Refused? && ErrorOf(o).kind == Auth
  }

  /** One turn of the loop. */
  function Turn(call: Call, p: Progress, fate: Fate): Progress {
    if p.done.Some? then p
    else
      var attempt := p.attempts + 1;
      var w := ArriveAll(p.world, fate.late);
      var tokens := TokenAfter(p.tokens, fate.now, fate.issue);
      match TokenResult(p.tokens, fate.now, fate.issue)
      case Err(e) => p.(world := w, tokens := tokens, attempts := attempt, done := Some(Err(e)))
      case Ok(token) =>
        var (w', o) := Exchange(w, Message(call.key, call.body, token), fate.transit);
        Progress(
          w', if TokenRefused(o) && attempt <= call.maxRetries && Resendable(call, o) then Invalidated(tokens) else tokens,
          if o.Response? then p.requestCount + 1 else p.requestCount,
          attempt, p.outcomes + [o],
          match o
          case Response(Success(id)) => Some(Ok(id))
          case _ => if attempt > call.maxRetries || !Resendable(call, o) then Some(Err(ErrorOf(o))) else None)
  }

  function Start(w: World, tokens: TokenState, requestCount: nat): Progress {
    Progress(w, tokens, requestCount, 0, [], None)
  }

  function Turns(call: Call, p: Progress, fates: nat -> Fate, n: nat): Progress {
    if n == 0 then p else Turn(call, Turns(call, p, fates, n - 1), fates(n - 1))
  }

  /** The whole call, under any behaviour of the environment. */
  function Finish(call: Call, p: Progress, fates: nat -> Fate): Progress {
    Turns(call, p, fates, call.maxRetries + 1)
  }

  class TossClient {
    const tokens: TokenManager
    const maxRetries: nat
    var requestCount: nat

    constructor (maxRetries: nat)
      ensures this.maxRetries == maxRetries && requestCount == 0 && fresh(tokens) && tokens.State() == TokenState(None, 0.0, 0)
    {
      tokens := new TokenManager();
      this.maxRetries, requestCount := maxRetries, 0;
    }

    /** _request, for one request in a world that answers, delays and loses as it likes. */
    method Request(w0: World, key: string, body: Body, idempotent: bool, fates: nat -> Fate)
      returns (w: World, result: Result<nat, TossError>)
      modifies this, tokens
      ensures var p := Finish(Call(key, body, idempotent, maxRetries), Start(w0, old(tokens.State()), old(requestCount)), fates);
              w == p.world && p.done == Some(result) && tokens.State() == p.tokens && requestCount == p.requestCount
    {
      hide ArriveAll, Exchange, TokenAfter, TokenResult, FromResponse, TossError.Retryable, TossError.InProgress;
      ghost var call := Call(key, body, idempotent, maxRetries);
      ghost var start := Start(w0, tokens.State(), requestCount);
      w, result := w0, Err(TRANSPORT_ERROR);
      var attempt := 0;
      var finished := false;
      ghost var p := start;
      while !finished
        invariant p == Turns(call, start, fates, attempt)
        invariant p.world == w && p.tokens == tokens.State() && p.requestCount == requestCount && p.attempts == attempt
        invariant finished <==> p.done.Some?
        invariant finished ==> p.done == Some(result)
        invariant !finished ==> attempt <= maxRetries
        invariant attempt <= maxRetries + 1
        decreases maxRetries + 1 - attempt, !finished
      {
        p := Turn(call, p, fates(attempt));
        var fate := fates(attempt);
        attempt := attempt + 1;
        w := ArriveAll(w, fate.late);
        var token := tokens.Token(fate.now, fate.issue);
        if token.Err? {
          result, finished := Err(token.error), true;
        } else {
          var outcome;
          w, outcome := Send(w, Message(key, body, token.value), fate.transit);
          if outcome.NoResponse? {
            if !idempotent || attempt > maxRetries {
              result, finished := Err(TRANSPORT_ERROR), true;
            }
          } else {
            requestCount := requestCount + 1;
            if outcome.reply.Success? {
              result, finished := Ok(outcome.reply.id), true;
            } else {
              var error := FromResponse(outcome.reply.status, outcome.reply.code, outcome.reply.retryAfter);
              if attempt > maxRetries || !(error.Retryable() || error.InProgress()) {
                result, finished := Err(error), true;
              } else if error.kind == Auth {
                tokens.Invalidate();
              }
            }
          }
        }
      }
      DoneStays(call, start, fates, attempt, maxRetries + 1);
    }

    method Send(w: World, r: Message, transit: Transit) returns (w': World, o: Outcome)
      ensures (w', o) == Exchange(w, r, transit)
    {
      var both := Exchange(w, r, transit);
      w', o := both.0, both.1;
    }
  }

  lemma {:induction false} DoneStays(call: Call, p: Progress, fates: nat -> Fate, n: nat, m: nat)
    requires n <= m && Turns(call, p, fates, n).done.Some?
    ensures Turns(call, p, fates, m) == Turns(call, p, fates, n)
  {
    if n < m { DoneStays(call, p, fates, n, m - 1); }
  }
}
