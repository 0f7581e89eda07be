/**
 * The global filter that authorizes the caller (right after the global token
 * filter). It looks the route up under the attribute where the gateway stores
 * the matched route, resolves the allowed roles as the route filter does and
 * takes the same branches, but every refusal, a failed role lookup included, sets a
 * bare 403 and completes the response without a body.
 */
module RoleValidationFilter {
  import opened Wrappers
  import opened Http
  import opened Routes
  import RoutePolicy
  import RoleValidationFilterFactory

  /** getOrder(): Ordered.HIGHEST_PRECEDENCE + 1 (no 32-bit overflow). */
  const Order: int := HighestPrecedence + 1

  /** getAllowedRolesFromMetadata, this file's own copy: it looks the route
      up where the gateway stores it, then resolves it as the route filter's
      copy does. */
  function AllowedRolesFromMetadata(req: Request): (roles: seq<string>)
    ensures roles == RoleValidationFilterFactory.AllowedRolesFromMetadata(MatchedRoute(req))
    ensures MatchedRoute(req).None? ==> roles == []
  {
    var route := RouteAttribute(req, GatewayRouteAttr);
    match route
    case None => []
    case Some(metadata) =>
      if AllowedRolesKey !in metadata then [PublicRole]
      else
        match metadata[AllowedRolesKey]
        case NotAList => []
        case AList(rolesList) => StringElements(rolesList)
  }

  /** The decision of the filter, which is the reference authorization stage
      on the route's policy, with 403 for a failed role lookup; so every
      refusal is a 403. */
  function Decide(req: Request, extract: Option<string> -> Reply<string>): (d: Decision)
    ensures d == RoutePolicy.Authorize(RoutePolicy.Classify(MatchedRoute(req)), FirstAuthorization(req),
                                       extract, Forbidden)
    ensures d.outcome.Reject? ==> d.outcome.status == Forbidden
  {
    var token := FirstAuthorization(req);
    var allowedRoles := AllowedRolesFromMetadata(req);
    if |allowedRoles| == 0 then
      Decision([], Reject(Forbidden, NoRolesMessage))
    else if PublicRole in allowedRoles then
      Decision([], Forward)
    else
      Decision([ExtractRole(token)],
               match extract(token)
               case Ok(role) => if role !in allowedRoles then Reject(Forbidden, AccessDeniedMessage) else Forward
               case Failed => Reject(Forbidden, InvalidTokenMessage))
  }

  /** Against the route filter with its route lookup corrected, this filter
      makes the same calls and forwards the same requests; a refusal differs
      only in being 403. */
  lemma AgreesWithRouteFilter(req: Request, extract: Option<string> -> Reply<string>)
    ensures Decide(req, extract).calls == RoleValidationFilterFactory.Apply(req, extract).calls
    ensures Decide(req, extract).outcome.Forward? <==>
              RoleValidationFilterFactory.Apply(req, extract).outcome.Forward?
    ensures RoleValidationFilterFactory.Apply(req, extract).outcome.Reject? ==>
              Decide(req, extract).outcome ==
                RoleValidationFilterFactory.Apply(req, extract).outcome.(status := Forbidden)
  {
  }

  /** Against the route filter as written, the two disagree: on a matched
      route open to all, this filter forwards with no remote call, while the
      route filter refuses 403. */
  lemma DisagreesWithRouteFilterAsWritten(extract: Option<string> -> Reply<string>)
    ensures Decide(RoleValidationFilterFactory.OpenRouteRequest(), extract) == Decision([], Forward)
    ensures RoleValidationFilterFactory.ApplyAsWritten(RoleValidationFilterFactory.OpenRouteRequest(), extract)
              == Decision([], Reject(Forbidden, NoRolesMessage))
  {
    RoleValidationFilterFactory.AsWrittenRefusesOpenRoute(extract);
  }

  /** onError: the status becomes 403 and the response is completed; headers
      and body stay as they were. */
  method OnError(resp: Response)
    modifies resp
    ensures resp.State() == old(resp.State()).(status := Some(Forbidden.Value()), complete := true)
  {
    resp.status := Some(Forbidden.Value());
    resp.complete := true;
  }

  /** The filter run on an exchange. */
  method Filter(req: Request, resp: Response, extract: Option<string> -> Reply<string>)
    returns (d: Decision)
    modifies resp
    ensures d == Decide(req, extract)
    ensures d.outcome.Forward? ==> resp.State() == old(resp.State())
    ensures d.outcome.Reject? ==>
              resp.State() == old(resp.State()).(status := Some(403), complete := true)
  {
    d := Decide(req, extract);
    if d.outcome.Reject? {
      OnError(resp);
    }
  }
}
