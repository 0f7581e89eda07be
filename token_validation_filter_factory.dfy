/**
 * The route filter that authenticates the caller (order 1): a request without
 * an Authorization header is refused, otherwise the first header value is
 * validated by the auth service and the request forwarded only on `true`.
 * Every refusal is a 401 JSON error response.
 */
module TokenValidationFilterFactory {
  import opened Wrappers
  import opened Http
  import ErrorResponseUtil

  /** The filter's order among route filters; the role filter's is 2. */
  const Order: int := 1

  /** The decision of the filter.
      The source branches on `isValid` as a Boolean, while the auth client's
      validateToken yields the response body as a String; the model follows
      the filter's intent and gives the validation oracle a Boolean result. */
  function Apply(req: Request, validate: Option<string> -> Reply<bool>): (d: Decision)
    ensures !HasAuthorization(req) ==> d == Decision([], Reject(Unauthorized, MissingHeaderMessage))
    ensures HasAuthorization(req) ==> d.calls == [ValidateToken(FirstAuthorization(req))]
    ensures d.outcome.Forward? <==> HasAuthorization(req) && validate(FirstAuthorization(req)) == Ok(true)
    ensures d.outcome.Reject? ==> d.outcome.status == Unauthorized
    ensures HasAuthorization(req) && d.outcome.Reject? ==> d.outcome.message == InvalidTokenMessage
  {
    if !HasAuthorization(req) then
      Decision([], Reject(Unauthorized, MissingHeaderMessage))
    else
      var token := FirstAuthorization(req);
      Decision([ValidateToken(token)],
               match validate(token)
               case Ok(isValid) => if isValid then Forward else Reject(Unauthorized, InvalidTokenMessage)
               case Failed => Reject(Unauthorized, InvalidTokenMessage))
  }

  /** The filter run on an exchange: a refusal goes through the JSON error
      responder, a forward leaves the response to the rest of the chain. */
  method Filter(req: Request, resp: Response, validate: Option<string> -> Reply<bool>,
                serialize: ErrorResponseUtil.JsonObject -> Option<seq<byte>>) returns (d: Decision)
    modifies resp
    ensures d == Apply(req, validate)
    ensures d.outcome.Forward? ==> resp.State() == old(resp.State())
    ensures d.outcome.Reject? ==>
              resp.State() == ErrorResponseUtil.AfterError(old(resp.State()), Unauthorized,
                                                           d.outcome.message, req.path, serialize)
  {
    d := Apply(req, validate);
    if d.outcome.Reject? {
      ErrorResponseUtil.SendErrorResponse(resp, req.path, Unauthorized, d.outcome.message, serialize);
    }
  }
}
