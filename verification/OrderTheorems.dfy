/** At-most-once order creation, and the discipline of the retry loop, for every behaviour of the environment. */
module OrderTheorems {
  import opened Wrappers
  import opened TossErrors
  import opened OrderProtocol

  // ---------------------------------------------------------------- what the world keeps

  ghost predicate OneOrderPerKey(orders: seq<Order>) {
    && (forall i, j :: 0 <= i < j < |orders| ==> orders[i].key != orders[j].key)
    && (forall i :: 0 <= i < |orders| ==> orders[i].id == i)
  }

  /** A copy either belongs to this call or was already travelling when it began. */
  ghost predicate Known(call: Call, w0: World, key: string, body: Body) {
    (key == call.key && body == call.body) || exists m :: m in w0.inFlight && m.key == key && m.body == body
  }

  /** The world so far: orders only appended, one per key, each new one from a known copy. */
  ghost predicate WorldKept(call: Call, w0: World, w: World) {
    && w0.orders <= w.orders && OneOrderPerKey(w.orders)
    && (forall i :: |w0.orders| <= i < |w.orders| ==> Known(call, w0, w.orders[i].key, w.orders[i].body))
    && (forall m :: m in w.inFlight ==> Known(call, w0, m.key, m.body))
    && w0.sent <= w.sent
    && (forall i :: |w0.sent| <= i < |w.sent| ==> w.sent[i].key == call.key && w.sent[i].body == call.body)
  }

  lemma {:induction false} FindIs(orders: seq<Order>, key: string)
    requires OneOrderPerKey(orders)
    ensures Find(orders, key).None? <==> forall i :: 0 <= i < |orders| ==> orders[i].key != key
    ensures Find(orders, key).Some? ==>
              var id := Find(orders, key).value; id < |orders| && orders[id].id == id && orders[id].key == key
  {
    if |orders| > 0 && orders[|orders| - 1].key != key {
      FindIs(orders[..|orders| - 1], key);
    }
  }

  lemma HandleKeeps(call: Call, w0: World, w: World, m: Message, c: Choice)
    requires WorldKept(call, w0, w) && Known(call, w0, m.key, m.body)
    ensures WorldKept(call, w0, w.(orders := Handle(w.orders, m, c)))
  {
    hide Known;
    FindIs(w.orders, m.key);
  }

  lemma ArriveKeeps(call: Call, w0: World, w: World, l: Late)
    requires WorldKept(call, w0, w)
    ensures WorldKept(call, w0, Arrive(w, l))
  {
    hide Known, Handle;
    if l.which < |w.inFlight| {
      HandleKeeps(call, w0, w, w.inFlight[l.which], l.choice);
    }
  }

  lemma {:induction false} ArriveAllKeeps(call: Call, w0: World, w: World, ls: seq<Late>)
    requires WorldKept(call, w0, w)
    ensures WorldKept(call, w0, ArriveAll(w, ls))
  {
    hide WorldKept, Arrive;
    if |ls| > 0 {
      ArriveAllKeeps(call, w0, w, ls[..|ls| - 1]);
      ArriveKeeps(call, w0, ArriveAll(w, ls[..|ls| - 1]), ls[|ls| - 1]);
    }
  }

  lemma ExchangeKeeps(call: Call, w0: World, w: World, token: nat, t: Transit)
    requires WorldKept(call, w0, w)
    ensures WorldKept(call, w0, Exchange(w, Message(call.key, call.body, token), t).0)
  {
    hide Handle, OneOrderPerKey;
    var m := Message(call.key, call.body, token);
    var w1 := w.(sent := w.sent + [m]);
    assert WorldKept(call, w0, w1);
    match t
    case Unanswered(c) => HandleKeeps(call, w0, w1, m, c);
    case Answered(c) => HandleKeeps(call, w0, w1, m, c);
    case _ =>
  }

  lemma {:induction false} TurnsKeepWorld(call: Call, p: Progress, fates: nat -> Fate, n: nat)
    requires OneOrderPerKey(p.world.orders)
    ensures WorldKept(call, p.world, Turns(call, p, fates, n).world)
  {
    hide WorldKept, ArriveAll, Exchange, TokenAfter, TokenResult;
    if n == 0 {
      NothingHappened(call, p.world);
    } else {
      TurnsKeepWorld(call, p, fates, n - 1);
      var q, fate := Turns(call, p, fates, n - 1), fates(n - 1);
      ArriveAllKeeps(call, p.world, q.world, fate.late);
      var token := TokenResult(q.tokens, fate.now, fate.issue);
      if token.Ok? {
        ExchangeKeeps(call, p.world, ArriveAll(q.world, fate.late), token.value, fate.transit);
      }
    }
  }

  lemma NothingHappened(call: Call, w: World)
    requires OneOrderPerKey(w.orders)
    ensures WorldKept(call, w, w)
  {
    forall m | m in w.inFlight ensures Known(call, w, m.key, m.body) {}
  }

  // ---------------------------------------------------------------- what the loop does

  /** The outcomes so far: one per send, and all but the last of an ended call were worth a resend. */
  ghost predicate Disciplined(call: Call, w0: World, p: Progress) {
    && |p.world.sent| == |w0.sent| + |p.outcomes|
    && |p.outcomes| <= p.attempts <= call.maxRetries + 1
    && (forall i :: 0 <= i < |p.outcomes| && (i < |p.outcomes| - 1 || p.done.None?) ==> Resendable(call, p.outcomes[i]))
    && (p.done.None? ==> |p.outcomes| == p.attempts <= call.maxRetries)
  }

  lemma {:induction false} ArriveAllSendsNothing(w: World, ls: seq<Late>)
    ensures ArriveAll(w, ls).sent == w.sent
  {
    if |ls| > 0 { ArriveAllSendsNothing(w, ls[..|ls| - 1]); }
  }

  lemma {:induction false} TurnsAreDisciplined(call: Call, p: Progress, fates: nat -> Fate, n: nat)
    requires p == Start(p.world, p.tokens, p.requestCount)
    ensures Disciplined(call, p.world, Turns(call, p, fates, n))
    ensures Turns(call, p, fates, n).done.None? ==> Turns(call, p, fates, n).attempts == n
  {
    hide Turn, Disciplined;
    if n == 0 {
      NothingSentYet(call, p);
    } else {
      TurnsAreDisciplined(call, p, fates, n - 1);
      TurnIsDisciplined(call, p.world, Turns(call, p, fates, n - 1), fates(n - 1));
    }
  }

  lemma NothingSentYet(call: Call, p: Progress)
    requires p == Start(p.world, p.tokens, p.requestCount)
    ensures Disciplined(call, p.world, p)
  {
  }

  lemma TurnIsDisciplined(call: Call, w0: World, q: Progress, fate: Fate)
    requires Disciplined(call, w0, q)
    ensures Disciplined(call, w0, Turn(call, q, fate))
    ensures Turn(call, q, fate).done.None? ==> q.done.None? && Turn(call, q, fate).attempts == q.attempts + 1
  {
    hide ArriveAll, TokenAfter, TokenResult, Handle, ReplyTo, ErrorOf, TokenRefused;
    ArriveAllSendsNothing(q.world, fate.late);
  }

  /** Every call ends within max_retries + 1 attempts. */
  lemma CallEnds(call: Call, p: Progress, fates: nat -> Fate)
    requires p == Start(p.world, p.tokens, p.requestCount)
    ensures Finish(call, p, fates).done.Some?
  {
    TurnsAreDisciplined(call, p, fates, call.maxRetries + 1);
  }

  // ---------------------------------------------------------------- tokens

  ghost predicate TokensOrdered(s: TokenState) {
    s.token.Some? ==> s.token.value <= s.issued
  }

  /** The server does not accept the token. */
  predicate Unauthorised(o: Outcome) {
    o.Response? && o.reply.Refused? && o.reply.status == 401
  }

  lemma TokenRefusedIff(o: Outcome)
    ensures TokenRefused(o) <==> Unauthorised(o)
  {
  }

  /** If copy j was refused for its token, the next copy's token is newer than that of any copy before it. */
  ghost predicate RenewedAfter(w0: World, p: Progress, j: int)
    requires |p.world.sent| == |w0.sent| + |p.outcomes|
  {
    |w0.sent| <= j < |p.world.sent| - 1 && Unauthorised(p.outcomes[j - |w0.sent|]) ==>
      forall i :: |w0.sent| <= i <= j ==> p.world.sent[i].token < p.world.sent[j + 1].token
  }

  ghost predicate TokensRenewed(w0: World, p: Progress)
    requires |p.world.sent| == |w0.sent| + |p.outcomes|
  {
    && TokensOrdered(p.tokens)
    && (forall i :: |w0.sent| <= i < |p.world.sent| ==> p.world.sent[i].token <= p.tokens.issued)
    && (p.done.None? && |p.outcomes| > 0 && Unauthorised(p.outcomes[|p.outcomes| - 1]) ==> p.tokens.token.None?)
    && (forall j :: RenewedAfter(w0, p, j))
  }

  lemma {:induction false} TurnsRenewTokens(call: Call, p: Progress, fates: nat -> Fate, n: nat)
    requires p == Start(p.world, p.tokens, p.requestCount) && TokensOrdered(p.tokens)
    ensures |Turns(call, p, fates, n).world.sent| == |p.world.sent| + |Turns(call, p, fates, n).outcomes|
    ensures TokensRenewed(p.world, Turns(call, p, fates, n))
  {
    hide ArriveAll, Handle, ReplyTo, ErrorOf, TokenRefused, Unauthorised, Turn;
    TurnsAreDisciplined(call, p, fates, n);
    if n > 0 {
      TurnsAreDisciplined(call, p, fates, n - 1);
      TurnsRenewTokens(call, p, fates, n - 1);
      TurnRenews(call, p.world, Turns(call, p, fates, n - 1), fates(n - 1));
    }
  }

  lemma TurnRenews(call: Call, w0: World, q: Progress, fate: Fate)
    requires Disciplined(call, w0, q) && TokensRenewed(w0, q) && Disciplined(call, w0, Turn(call, q, fate))
    ensures TokensRenewed(w0, Turn(call, q, fate))
  {
    hide ArriveAll, Handle, ReplyTo, ErrorOf, TokenRefused, Resendable, Unauthorised;
    ArriveAllSendsNothing(q.world, fate.late);
    var p := Turn(call, q, fate);
    if |p.outcomes| > 0 { TokenRefusedIff(p.outcomes[|p.outcomes| - 1]); }
    var base := |w0.sent|;
    forall j ensures RenewedAfter(w0, p, j) {
      assert RenewedAfter(w0, q, j);
    }
  }

  // ---------------------------------------------------------------- the main result

  /** How many of the orders carry a key. */
  function CountKey(orders: seq<Order>, key: string): nat {
    if |orders| == 0 then 0
    else CountKey(orders[..|orders| - 1], key) + if orders[|orders| - 1].key == key then 1 else 0
  }

  lemma {:induction false} AtMostOnePerKey(orders: seq<Order>, key: string)
    requires OneOrderPerKey(orders)
    ensures CountKey(orders, key) <= 1
    ensures CountKey(orders, key) == 0 <==> forall i :: 0 <= i < |orders| ==> orders[i].key != key
  {
    if |orders| > 0 { AtMostOnePerKey(orders[..|orders| - 1], key); }
  }

  lemma {:induction false} DoneIsKept(call: Call, p: Progress, fates: nat -> Fate, n: nat, id: nat)
    requires OneOrderPerKey(p.world.orders) && p.done.None?
    requires Turns(call, p, fates, n).done == Some(Ok(id))
    ensures var orders := Turns(call, p, fates, n).world.orders; id < |orders| && orders[id].id == id && orders[id].key == call.key
  {
    hide ArriveAll, TokenAfter, ErrorOf, TokenRefused, Resendable, WorldKept;
    if n > 0 {
      var q := Turns(call, p, fates, n - 1);
      if q.done.Some? {
        DoneIsKept(call, p, fates, n - 1, id);
      } else {
        TurnsKeepWorld(call, p, fates, n);
        AckNamesOrder(call, p.world, q, fates(n - 1), id);
      }
    }
  }

  lemma AckNamesOrder(call: Call, w0: World, q: Progress, fate: Fate, id: nat)
    requires q.done.None? && Turn(call, q, fate).done == Some(Ok(id)) && WorldKept(call, w0, Turn(call, q, fate).world)
    ensures var orders := Turn(call, q, fate).world.orders; id < |orders| && orders[id].id == id && orders[id].key == call.key
  {
    hide ArriveAll, TokenAfter, ErrorOf, TokenRefused, Resendable, Handle, Known;
    FindIs(Turn(call, q, fate).world.orders, call.key);
  }

  /**
   Order creation is at most once. However copies and answers are lost, delayed or refused, and whatever
   stragglers arrive after the call has returned, one call sends at most max_retries + 1 copies, all with
   its key and body, and the server ends with at most one order for the key. An acknowledged id names that
   order, and under a fresh key the order is the one asked for.
   */
  lemma AtMostOnce(call: Call, p: Progress, fates: nat -> Fate, stragglers: seq<Late>)
    requires p == Start(p.world, p.tokens, p.requestCount) && OneOrderPerKey(p.world.orders)
    ensures var end := Finish(call, p, fates); var w := ArriveAll(end.world, stragglers);
            && end.done.Some?
            && |end.world.sent| <= |p.world.sent| + call.maxRetries + 1
            && (forall i :: |p.world.sent| <= i < |end.world.sent| ==>
                  end.world.sent[i].key == call.key && end.world.sent[i].body == call.body)
            && p.world.orders <= w.orders
            && CountKey(w.orders, call.key) <= 1
            && (forall i :: |p.world.orders| <= i < |w.orders| ==> Known(call, p.world, w.orders[i].key, w.orders[i].body))
            && (end.done.value.Ok? ==>
                  var id := end.done.value.value;
                  && id < |w.orders| && w.orders[id].id == id && w.orders[id].key == call.key
                  && (FreshKey(call, p.world) ==> w.orders[id].body == call.body))
  {
    hide Turns, ArriveAll, Disciplined, OneOrderPerKey;
    var end := Finish(call, p, fates);
    TurnsKeepWorld(call, p, fates, call.maxRetries + 1);
    TurnsAreDisciplined(call, p, fates, call.maxRetries + 1);
    CallEnds(call, p, fates);
    SendsAreBounded(call, p.world, end);
    ArriveAllKeeps(call, p.world, end.world, stragglers);
    AtMostOnePerKey(ArriveAll(end.world, stragglers).orders, call.key);
    if end.done.value.Ok? {
      DoneIsKept(call, p, fates, call.maxRetries + 1, end.done.value.value);
      LaterOrdersKeepEarlier(end.world, stragglers);
    }
  }

  lemma SendsAreBounded(call: Call, w0: World, p: Progress)
    requires Disciplined(call, w0, p)
    ensures |p.world.sent| <= |w0.sent| + call.maxRetries + 1
  {
  }

  lemma {:induction false} LaterOrdersKeepEarlier(w: World, ls: seq<Late>)
    ensures w.orders <= ArriveAll(w, ls).orders
  {
    if |ls| > 0 { LaterOrdersKeepEarlier(w, ls[..|ls| - 1]); }
  }

  /** No order and no travelling copy carries the key yet: what a new uuid is for. */
  ghost predicate FreshKey(call: Call, w: World) {
    && (forall i :: 0 <= i < |w.orders| ==> w.orders[i].key != call.key)
    && (forall m :: m in w.inFlight ==> m.key != call.key)
  }

  /**
   What is never sent again: a 422, anything but the transient refusals, and, for a call that is not
   idempotent, anything after a transport failure. And a copy sent after a refused token carries a newer one.
   */
  lemma ResendDiscipline(call: Call, p: Progress, fates: nat -> Fate, i: nat)
    requires p == Start(p.world, p.tokens, p.requestCount) && TokensOrdered(p.tokens)
    ensures var end := Finish(call, p, fates); var base := |p.world.sent|;
            |end.world.sent| == base + |end.outcomes| &&
            (i + 1 < |end.outcomes| ==>
              && (end.outcomes[i].NoResponse? ==> call.idempotent)
              && (end.outcomes[i].Response? ==> end.outcomes[i].reply.Refused? && end.outcomes[i].reply.status != 422)
              && (Unauthorised(end.outcomes[i]) ==> forall j :: base <= j <= base + i ==> end.world.sent[j].token < end.world.sent[base + i + 1].token))
  {
    hide Turns;
    TurnsAreDisciplined(call, p, fates, call.maxRetries + 1);
    TurnsRenewTokens(call, p, fates, call.maxRetries + 1);
    var end := Finish(call, p, fates);
    if i + 1 < |end.outcomes| {
      assert Resendable(call, end.outcomes[i]);
      assert RenewedAfter(p.world, end, |p.world.sent| + i);
    }
  }

  // ---------------------------------------------------------------- what the key is for

  /** The same network and the same server, with a new key for the second copy: two orders for one wish. */
  lemma ChangingTheKeyDuplicates(w: World, body: Body, token: nat, c: Choice)
    requires w == World([], [], []) && c.create && c.admit
    ensures var once := Exchange(w, Message("k1", body, token), Unanswered(c)).0;
            && |Exchange(once, Message("k2", body, token), Answered(c)).0.orders| == 2
            && |Exchange(once, Message("k1", body, token), Answered(c)).0.orders| == 1
  {
    var once := Exchange(w, Message("k1", body, token), Unanswered(c)).0;
    assert once.orders == [Order(0, "k1", body)] && once.orders[..0] == [];
    assert "k1"[1] != "k2"[1];
    assert Find(once.orders, "k2") == None && Find(once.orders, "k1") == Some(0);
  }

  // ---------------------------------------------------------------- exactly what is sent again

  lemma {:induction false} OutcomesGrow(call: Call, p: Progress, fates: nat -> Fate, n: nat, m: nat)
    requires n <= m
    ensures Turns(call, p, fates, n).outcomes <= Turns(call, p, fates, m).outcomes
  {
    hide ArriveAll, Exchange, TokenAfter, TokenResult, ErrorOf, TokenRefused, Resendable;
    if n < m { OutcomesGrow(call, p, fates, n, m - 1); }
  }

  lemma {:induction false} AttemptsAreTurns(call: Call, p: Progress, fates: nat -> Fate, n: nat)
    requires p == Start(p.world, p.tokens, p.requestCount)
    ensures Turns(call, p, fates, n).attempts <= n
  {
    hide ArriveAll, Exchange, TokenAfter, TokenResult, ErrorOf, TokenRefused, Resendable;
    if n > 0 { AttemptsAreTurns(call, p, fates, n - 1); }
  }

  /** Copy i, if there is one, is sent by turn i: every turn before it sent one too. */
  lemma CopyPerTurn(call: Call, p: Progress, fates: nat -> Fate, i: nat)
    requires p == Start(p.world, p.tokens, p.requestCount)
    requires i < |Finish(call, p, fates).outcomes|
    ensures i <= call.maxRetries && Turns(call, p, fates, i).done.None?
    ensures |Turns(call, p, fates, i).outcomes| == Turns(call, p, fates, i).attempts == i
    ensures |Turns(call, p, fates, i + 1).outcomes| == i + 1
    ensures Turns(call, p, fates, i + 1).outcomes <= Finish(call, p, fates).outcomes
  {
    hide Turns;
    TurnsAreDisciplined(call, p, fates, call.maxRetries + 1);
    var last := call.maxRetries + 1;
    TurnsAreDisciplined(call, p, fates, i);
    AttemptsAreTurns(call, p, fates, i);
    if Turns(call, p, fates, i).done.Some? {
      DoneStays(call, p, fates, i, last);
    } else {
      TurnsAreDisciplined(call, p, fates, i + 1);
      OutcomesGrow(call, p, fates, i + 1, last);
      OneTurn(call, p, fates, i);
      if Turns(call, p, fates, i + 1).done.Some? { DoneStays(call, p, fates, i + 1, last); }
    }
  }

  lemma OneTurn(call: Call, p: Progress, fates: nat -> Fate, i: nat)
    ensures Turns(call, p, fates, i + 1) == Turn(call, Turns(call, p, fates, i), fates(i))
  {
  }

  /** What one turn does to a call that is under way: it sends a copy if it gets a token, and ends unless that is worth a resend. */
  lemma TurnSends(call: Call, q: Progress, fate: Fate)
    requires q.done.None?
    ensures var now := Turn(call, q, fate); var token := TokenResult(q.tokens, fate.now, fate.issue);
            && |now.outcomes| == |q.outcomes| + (if token.Ok? then 1 else 0)
            && (token.Err? ==> now.done.Some?)
            && (token.Ok? ==> (now.done.None? <==> Resendable(call, now.outcomes[|q.outcomes|]) && q.attempts + 1 <= call.maxRetries))
  {
    hide ArriveAll, Exchange, TokenAfter, TokenResult, ErrorOf, TokenRefused;
    SuccessIsNotResent(call);
  }

  lemma SuccessIsNotResent(call: Call)
    ensures forall id: nat :: !Resendable(call, Response(Success(id)))
  {
  }

  /** The outcomes after which the request is sent again, retries and a token permitting. */
  predicate WorthResending(call: Call, o: Outcome) {
    match o
    case NoResponse => call.idempotent
    case Response(Success(_)) => false
    case Response(Refused(status, code, _)) =>
      || status == 429
      || (status >= 500 && code != Some("maintenance"))
      || (status == 401 && (code == Some("expired-token") || code == Some("invalid-token")))
      || (status == 409 && code == Some("request-in-progress"))
  }

  lemma ResendableIs(call: Call, o: Outcome)
    ensures Resendable(call, o) <==> WorthResending(call, o)
  {
    hide FromResponse, TossError.Retryable, TossError.InProgress;
    match o
    case Response(Refused(status, code, retryAfter)) => ResentAnswersAre(status, code, retryAfter);
    case _ =>
  }

  /**
   Exactly when another copy follows: its predecessor went unanswered and the call is idempotent, or was refused
   with one of the transient answers, whether it is idempotent or not; retries remain; and a token is obtained.
   */
  lemma NextCopyIff(call: Call, p: Progress, fates: nat -> Fate, i: nat)
    requires p == Start(p.world, p.tokens, p.requestCount) && i < |Finish(call, p, fates).outcomes|
    ensures i + 1 < |Finish(call, p, fates).outcomes| <==>
              && WorthResending(call, Finish(call, p, fates).outcomes[i])
              && i + 1 <= call.maxRetries
              && TokenResult(Turns(call, p, fates, i + 1).tokens, fates(i + 1).now, fates(i + 1).issue).Ok?
  {
    hide Turns, Turn, Finish, WorthResending, Resendable, TokenResult;
    CopyPerTurn(call, p, fates, i);
    var q, next, last := Turns(call, p, fates, i), Turns(call, p, fates, i + 1), call.maxRetries + 1;
    FinishIs(call, p, fates);
    OneTurn(call, p, fates, i);
    TurnSends(call, q, fates(i));
    ResendableIs(call, next.outcomes[i]);
    if next.done.Some? {
      DoneStays(call, p, fates, i + 1, last);
    } else {
      TurnsAreDisciplined(call, p, fates, i + 1);
      OneTurn(call, p, fates, i + 1);
      TurnSends(call, next, fates(i + 1));
      if Turns(call, p, fates, i + 2).done.Some? {
        DoneStays(call, p, fates, i + 2, last);
      } else {
        OutcomesGrow(call, p, fates, i + 2, last);
      }
    }
  }

  /** No behaviour of the environment gets the call to send a second copy. */
  ghost predicate SendsOnce(call: Call, p: Progress) {
    forall fates: nat -> Fate :: |Finish(call, p, fates).world.sent| <= |p.world.sent| + 1
  }

  /** A server that answers every copy with a 503, and a token for every attempt. */
  function Unavailable(): nat -> Fate {
    (i: nat) => Fate([], 0.0, Issued(0.0, 3600.0), Answered(Choice(false, false, 503, None, None)))
  }

  /**
   Exactly when a call that is not idempotent is never sent twice, from any state of the world: when it has no
   retries. The flag guards transport failures only; transient refusals are sent again.
   */
  lemma NonIdempotentSendsOnceIff(call: Call, p: Progress)
    requires !call.idempotent && p == Start(p.world, p.tokens, p.requestCount)
    ensures SendsOnce(call, p) <==> call.maxRetries == 0
  {
    hide Turns, Disciplined;
    if call.maxRetries == 0 {
      forall fates: nat -> Fate ensures |Finish(call, p, fates).world.sent| <= |p.world.sent| + 1 {
        TurnsAreDisciplined(call, p, fates, 1);
        SendsAreBounded(call, p.world, Finish(call, p, fates));
      }
    } else {
      NonIdempotentResentAfter5xx(call, p);
      assert |Finish(call, p, Unavailable()).world.sent| > |p.world.sent| + 1;
    }
  }

  /** While every copy is answered with a 503 the call goes on, idempotent or not. */
  lemma NonIdempotentResentAfter5xx(call: Call, p: Progress)
    requires call.maxRetries > 0 && p == Start(p.world, p.tokens, p.requestCount)
    ensures |Finish(call, p, Unavailable()).world.sent| >= |p.world.sent| + 2
  {
    hide Finish, Turns;
    var fates := Unavailable();
    assert Turns(call, p, fates, 0) == p by { NoTurns(call, p, fates); }
    OneTurn(call, p, fates, 0);
    OneTurn(call, p, fates, 1);
    RefusedTurn(call, p, fates(0));
    RefusedTurn(call, Turns(call, p, fates, 1), fates(1));
    SentGrows(call, p, fates, 2, call.maxRetries + 1);
    FinishIs(call, p, fates);
  }

  lemma NoTurns(call: Call, p: Progress, fates: nat -> Fate)
    ensures Turns(call, p, fates, 0) == p
  {
  }

  lemma RefusedTurn(call: Call, q: Progress, fate: Fate)
    requires q.done.None? && fate == Unavailable()(0)
    ensures var now := Turn(call, q, fate);
            |now.world.sent| == |q.world.sent| + 1 && now.attempts == q.attempts + 1 && (q.attempts < call.maxRetries ==> now.done.None?)
  {
    hide Handle, Find;
    assert ArriveAll(q.world, []) == q.world;
    UnadmittedIsRefused();
    ResendableIs(call, Response(Refused(503, None, None)));
  }

  lemma UnadmittedIsRefused()
    ensures forall orders: seq<Order>, m: Message, c: Choice :: !c.admit ==> ReplyTo(orders, m, c) == Refused(c.status, c.code, c.retryAfter)
  {
  }

  lemma FinishIs(call: Call, p: Progress, fates: nat -> Fate)
    ensures Finish(call, p, fates) == Turns(call, p, fates, call.maxRetries + 1)
  {
  }

  lemma {:induction false} SentGrows(call: Call, p: Progress, fates: nat -> Fate, n: nat, m: nat)
    requires n <= m
    ensures |Turns(call, p, fates, n).world.sent| <= |Turns(call, p, fates, m).world.sent|
  {
    hide Turn;
    if n < m {
      SentGrows(call, p, fates, n, m - 1);
      TurnForgetsNothing(call, Turns(call, p, fates, m - 1), fates(m - 1));
    }
  }

  lemma TurnForgetsNothing(call: Call, q: Progress, fate: Fate)
    ensures |q.world.sent| <= |Turn(call, q, fate).world.sent|
  {
    hide ArriveAll, Handle, ReplyTo, TokenResult, TokenAfter, Resendable, TokenRefused, ErrorOf;
    ArriveAllSendsNothing(q.world, fate.late);
  }

  // ---------------------------------------------------------------- when all goes well

  /** If the first copy arrives and its answer comes back, the order is placed with that one copy, and its id is what is returned. */
  lemma FirstAnswerPlaces(call: Call, p: Progress, fates: nat -> Fate)
    requires p == Start(p.world, p.tokens, p.requestCount) && OneOrderPerKey(p.world.orders)
    requires forall i :: 0 <= i < |p.world.orders| ==> p.world.orders[i].key != call.key
    requires fates(0).late == [] && TokenResult(p.tokens, fates(0).now, fates(0).issue).Ok?
    requires fates(0).transit.Answered? && fates(0).transit.choice.create && fates(0).transit.choice.admit
    ensures var end := Finish(call, p, fates); var id := |p.world.orders|;
            && end.done == Some(Ok(id)) && end.world.orders == p.world.orders + [Order(id, call.key, call.body)]
            && |end.world.sent| == |p.world.sent| + 1 && end.requestCount == p.requestCount + 1
  {
    hide TokenAfter, TokenResult, ErrorOf, TokenRefused, Resendable, Turns;
    FindIs(p.world.orders, call.key);
    AnsweredTurn(call, p, fates(0));
    assert Turns(call, p, fates, 0) == p by { NoTurns(call, p, fates); }
    OneTurn(call, p, fates, 0);
    DoneStays(call, p, fates, 1, call.maxRetries + 1);
  }

  lemma AnsweredTurn(call: Call, q: Progress, fate: Fate)
    requires q.done.None? && Find(q.world.orders, call.key).None?
    requires fate.late == [] && TokenResult(q.tokens, fate.now, fate.issue).Ok?
    requires fate.transit.Answered? && fate.transit.choice.create && fate.transit.choice.admit
    ensures var now := Turn(call, q, fate); var id := |q.world.orders|;
            && now.done == Some(Ok(id)) && now.world.orders == q.world.orders + [Order(id, call.key, call.body)]
            && |now.world.sent| == |q.world.sent| + 1 && now.requestCount == q.requestCount + 1
  {
    hide TokenAfter, TokenResult, ErrorOf, TokenRefused, Resendable;
    assert ArriveAll(q.world, []) == q.world;
    var o := q.world.orders + [Order(|q.world.orders|, call.key, call.body)];
    assert o[..|o| - 1] == q.world.orders;
  }

  /** A call that failed may still place its order: its only copy was delayed, and reaches the server after the call gave up. */
  lemma FailedCallMayPlace(call: Call, p: Progress, fates: nat -> Fate, c: Choice)
    requires p == Start(p.world, p.tokens, p.requestCount) && OneOrderPerKey(p.world.orders) && (!call.idempotent || call.maxRetries == 0)
    requires forall i :: 0 <= i < |p.world.orders| ==> p.world.orders[i].key != call.key
    requires fates(0).late == [] && TokenResult(p.tokens, fates(0).now, fates(0).issue).Ok? && fates(0).transit.Delayed? && c.create
    ensures var end := Finish(call, p, fates); var id := |p.world.orders|;
            && end.done == Some(Err(TRANSPORT_ERROR)) && end.world.orders == p.world.orders && end.requestCount == p.requestCount
            && ArriveAll(end.world, [Late(|p.world.inFlight|, c)]).orders == p.world.orders + [Order(id, call.key, call.body)]
  {
    hide TokenAfter, TokenResult, TokenRefused, Turns;
    FindIs(p.world.orders, call.key);
    DelayedTurn(call, p, fates(0), c);
    assert Turns(call, p, fates, 0) == p by { NoTurns(call, p, fates); }
    OneTurn(call, p, fates, 0);
    DoneStays(call, p, fates, 1, call.maxRetries + 1);
  }

  lemma DelayedTurn(call: Call, q: Progress, fate: Fate, c: Choice)
    requires q.done.None? && q.attempts == 0 && Find(q.world.orders, call.key).None? && (!call.idempotent || call.maxRetries == 0)
    requires fate.late == [] && TokenResult(q.tokens, fate.now, fate.issue).Ok? && fate.transit.Delayed? && c.create
    ensures var now := Turn(call, q, fate); var id := |q.world.orders|;
            && now.done == Some(Err(TRANSPORT_ERROR)) && now.world.orders == q.world.orders && now.requestCount == q.requestCount
            && ArriveAll(now.world, [Late(|q.world.inFlight|, c)]).orders == q.world.orders + [Order(id, call.key, call.body)]
  {
    hide TokenAfter, TokenResult, TokenRefused;
    assert ArriveAll(q.world, []) == q.world;
    var now, l := Turn(call, q, fate).world, Late(|q.world.inFlight|, c);
    assert now.inFlight[|q.world.inFlight|].key == call.key;
    assert [l][..0] == [] && ArriveAll(now, []) == now;
    assert ArriveAll(now, [l]) == Arrive(now, l);
  }

  // ---------------------------------------------------------------- counting and reusing

  /** The answers among the first n outcomes. */
  function Answers(outcomes: seq<Outcome>): nat {
    if |outcomes| == 0 then 0 else Answers(outcomes[..|outcomes| - 1]) + if outcomes[|outcomes| - 1].Response? then 1 else 0
  }

  lemma {:induction false} TurnsCount(call: Call, p: Progress, fates: nat -> Fate, n: nat)
    requires p == Start(p.world, p.tokens, p.requestCount)
    ensures Turns(call, p, fates, n).requestCount == p.requestCount + Answers(Turns(call, p, fates, n).outcomes)
  {
    hide Turn;
    if n > 0 {
      TurnsCount(call, p, fates, n - 1);
      TurnCounts(call, Turns(call, p, fates, n - 1), fates(n - 1));
    }
  }

  lemma TurnCounts(call: Call, q: Progress, fate: Fate)
    ensures Turn(call, q, fate).requestCount - q.requestCount == Answers(Turn(call, q, fate).outcomes) - Answers(q.outcomes)
  {
    hide ArriveAll, Exchange, TokenAfter, TokenResult, Resendable, TokenRefused, ErrorOf;
    var now := Turn(call, q, fate);
    if now.outcomes != q.outcomes { assert now.outcomes[..|q.outcomes|] == q.outcomes; }
  }

  /** Only a refused token that will be tried again is dropped: after any other answer, or none, the next copy has it still. */
  lemma OnlyRefusalDropsToken(call: Call, q: Progress, fate: Fate)
    requires q.done.None? && TokenResult(q.tokens, fate.now, fate.issue).Ok?
    ensures var now := Turn(call, q, fate); var o := now.outcomes[|now.outcomes| - 1];
            |now.outcomes| == |q.outcomes| + 1
            && now.tokens.token == if now.done.None? && Unauthorised(o) then None else Some(TokenResult(q.tokens, fate.now, fate.issue).value)
  {
    hide ArriveAll, Handle, ReplyTo, Resendable, TokenRefused, Unauthorised;
    var now := Turn(call, q, fate);
    TokenRefusedIff(now.outcomes[|now.outcomes| - 1]);
    SuccessIsAuthorised();
  }

  lemma SuccessIsAuthorised()
    ensures forall id: nat :: !Unauthorised(Response(Success(id)))
  {
  }

  /** The request counter grows by exactly the answers a call receives: what went unanswered is not counted. */
  lemma RequestsAreAnswers(call: Call, p: Progress, fates: nat -> Fate)
    requires p == Start(p.world, p.tokens, p.requestCount)
    ensures Finish(call, p, fates).requestCount == p.requestCount + Answers(Finish(call, p, fates).outcomes)
  {
    hide Turns;
    TurnsCount(call, p, fates, call.maxRetries + 1);
  }

  /**
   A token is used again if and only if there is one with more than five minutes of its life left; otherwise a new
   one is issued, with the life it came with, or the call fails and nothing changes.
   */
  lemma TokenIsReusedIff(s: TokenState, now: real, issue: Issue)
    ensures var reused := s.token.Some? && s.expiresAt - now > 300.0;
            var after := TokenAfter(s, now, issue);
            && (reused ==> after == s && TokenResult(s, now, issue) == Ok(s.token.value))
            && (!reused && issue.Issued? ==>
                  && after.issued == s.issued + 1 && after.token == Some(after.issued)
                  && after.expiresAt == issue.at + issue.expiresIn && TokenResult(s, now, issue) == Ok(after.issued))
            && (!reused && issue.IssueFailed? ==> after == s && TokenResult(s, now, issue) == Err(issue.error))
  {
  }
}
