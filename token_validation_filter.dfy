/**
 * The global filter that authenticates the caller (highest precedence): a
 * request without an Authorization header is refused, otherwise the first
 * header value is validated by the auth service and ANY successful answer
 * forwards, whatever its body. A refusal sets a bare 401 and completes the
 * response without a body.
 */
module TokenValidationFilter {
  import opened Wrappers
  import opened Http

  /** getOrder(): Ordered.HIGHEST_PRECEDENCE. */
  const Order: int := HighestPrecedence

  /** The decision of the filter. */
  function Decide(req: Request, validate: Option<string> -> Reply<string>): (d: Decision)
    ensures !HasAuthorization(req) ==> d == Decision([], Reject(Unauthorized, MissingHeaderMessage))
    ensures HasAuthorization(req) ==> d.calls == [ValidateToken(FirstAuthorization(req))]
    ensures d.outcome.Forward? <==> HasAuthorization(req) && validate(FirstAuthorization(req)).Ok?
    ensures d.outcome.Reject? ==> d.outcome.status == Unauthorized
    ensures HasAuthorization(req) && d.outcome.Reject? ==> d.outcome.message == InvalidTokenMessage
  {
    if !HasAuthorization(req) then
      Decision([], Reject(Unauthorized, MissingHeaderMessage))
    else
      var token := FirstAuthorization(req);
      Decision([ValidateToken(token)],
               match validate(token)
               case Ok(_) => Forward
               case Failed => Reject(Unauthorized, InvalidTokenMessage))
  }

  /** onError: the status becomes 401 and the response is completed; headers
      and body stay as they were. */
  method OnError(resp: Response)
    modifies resp
    ensures resp.State() == old(resp.State()).(status := Some(Unauthorized.Value()), complete := true)
  {
    resp.status := Some(Unauthorized.Value());
    resp.complete := true;
  }

  /** The filter run on an exchange. */
  method Filter(req: Request, resp: Response, validate: Option<string> -> Reply<string>)
    returns (d: Decision)
    modifies resp
    ensures d == Decide(req, validate)
    ensures d.outcome.Forward? ==> resp.State() == old(resp.State())
    ensures d.outcome.Reject? ==>
              resp.State() == old(resp.State()).(status := Some(401), complete := true)
  {
    d := Decide(req, validate);
    if d.outcome.Reject? {
      OnError(resp);
    }
  }
}
