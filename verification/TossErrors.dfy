/** Error classes and which of them are worth a retry (src/tqt/toss/errors.py). */
module TossErrors {
  import opened Wrappers

  datatype Kind =
    | Plain | Transport | Auth | IpBlocked | Forbidden | NotFound | Conflict | RateLimited | OrderRejected | ServerFault

  datatype TossError = TossError(kind: Kind, status: Option<int>, code: Option<string>, retryAfter: Option<real>)
  {
    /** The error classes after which the same request may be sent once more. */
    predicate Retryable() {
      match kind
      case Transport => true
      case Auth => code == Some("expired-token") || code == Some("invalid-token")
      case RateLimited => true
      case ServerFault => code != Some("maintenance")
      case _ => false
    }

    /** A duplicate of our own request that is still being processed. */
    predicate InProgress() {
      kind == Conflict && code == Some("request-in-progress")
    }
  }

  const TRANSPORT_ERROR := TossError(Transport, None, None, None)

  function KindOf(status: int, code: Option<string>): Kind {
    if status == 403 then (if code == Some("edge-blocked") then IpBlocked else Forbidden)
    else if status == 429 then RateLimited
    else if status >= 500 then ServerFault
    else if status == 400 && code == Some("account-header-required") then Forbidden
    else match status
         case 401 => Auth
         case 404 => NotFound
         case 409 => Conflict
         case 422 => OrderRejected
         case _ => Plain
  }

  /** from_response: the exception for an HTTP status and the code in its body. */
  function FromResponse(status: int, code: Option<string>, retryAfter: Option<real>): TossError {
    TossError(KindOf(status, code), Some(status), code, if status == 429 then retryAfter else None)
  }

  /** Exactly the answers that are sent again: everything else ends the call. */
  lemma ResentAnswersAre(status: int, code: Option<string>, retryAfter: Option<real>)
    ensures var e := FromResponse(status, code, retryAfter);
            (e.Retryable() || e.InProgress()) <==>
              || status == 429
              || (status >= 500 && code != Some("maintenance"))
              || (status == 401 && (code == Some("expired-token") || code == Some("invalid-token")))
              || (status == 409 && code == Some("request-in-progress"))
    ensures FromResponse(status, code, retryAfter).retryAfter.Some? ==> status == 429
    ensures status == 429 ==> FromResponse(status, code, retryAfter).retryAfter == retryAfter
  {
  }
}
