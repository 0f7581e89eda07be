/**
 * The route filter that authorizes the caller (order 2): it looks up the
 * route, resolves its allowed roles from its metadata, refuses with 403 when
 * there are none, forwards when PUBLIC is among them, and otherwise fetches
 * the caller's role and forwards only when that exact string is allowed. A
 * failed role lookup is refused with 401. Refusals go through the JSON error
 * responder.
 *
 * The source looks the route up under an attribute name the gateway never
 * sets, so as written the filter sees no route and refuses every request.
 * ApplyAsWritten models that lookup; Apply looks the route up where the
 * gateway stores it, as the global role filter does.
 */
module RoleValidationFilterFactory {
  import opened Wrappers
  import opened Http
  import opened Routes
  import RoutePolicy
  import ErrorResponseUtil

  /** The filter's order among route filters; the token filter's is 1. */
  const Order: int := 2

  /** The attribute name the filter looks the route up under: the NAME of
      the constant GATEWAY_ROUTE_ATTR written out as a string, not its value. */
  const RouteAttrAsWritten: string := "org.springframework.cloud.gateway.support.ServerWebExchangeUtils.GATEWAY_ROUTE_ATTR"

  /** getAllowedRolesFromMetadata, from the looked-up route on. The list is
      empty exactly when the route is closed, holds PUBLIC exactly when the
      route is open to all, and otherwise holds exactly the allowed roles; a
      list entry keeps its string elements in order. */
  function AllowedRolesFromMetadata(route: Option<Metadata>): (roles: seq<string>)
    ensures roles == [] <==> RoutePolicy.Classify(route).Deny?
    ensures PublicRole in roles <==> RoutePolicy.Classify(route).Public?
    ensures RoutePolicy.Classify(route).Roles? ==>
              forall r :: r in roles <==> r in RoutePolicy.Classify(route).allowed
    ensures route.Some? && AllowedRolesKey !in route.value ==> roles == [PublicRole]
    ensures route.Some? && AllowedRolesKey in route.value && route.value[AllowedRolesKey].AList? ==>
              roles == StringElements(route.value[AllowedRolesKey].elems)
  {
    match route
    case None => []
    case Some(metadata) =>
      if AllowedRolesKey !in metadata then [PublicRole]
      else
        match metadata[AllowedRolesKey]
        case NotAList => []
        case AList(rolesList) =>
          RoutePolicy.ListAndSetAgree(rolesList);
          StringElements(rolesList)
  }

  /** The filter's decision once the route is looked up: the reference
      authorization stage on the route's policy, with 401 for a failed role
      lookup. */
  function Decide(req: Request, route: Option<Metadata>, extract: Option<string> -> Reply<string>)
    : (d: Decision)
    ensures d == RoutePolicy.Authorize(RoutePolicy.Classify(route), FirstAuthorization(req),
                                       extract, Unauthorized)
  {
    var token := FirstAuthorization(req);
    var allowedRoles := AllowedRolesFromMetadata(route);
    if |allowedRoles| == 0 then
      Decision([], Reject(Forbidden, NoRolesMessage))
    else if PublicRole in allowedRoles then
      Decision([], Forward)
    else
      Decision([ExtractRole(token)],
               match extract(token)
               case Ok(role) => if role !in allowedRoles then Reject(Forbidden, AccessDeniedMessage) else Forward
               case Failed => Reject(Unauthorized, InvalidTokenMessage))
  }

  /** The filter as written: the route is looked up under RouteAttrAsWritten.
      When nothing is stored under that name, which is always the case in the
      gateway, every request is refused 403 before any remote call. */
  function ApplyAsWritten(req: Request, extract: Option<string> -> Reply<string>): (d: Decision)
    ensures d == Decide(req, RouteAttribute(req, RouteAttrAsWritten), extract)
    ensures RouteAttrAsWritten !in req.attributes ==>
              d == Decision([], Reject(Forbidden, NoRolesMessage))
  {
    Decide(req, RouteAttribute(req, RouteAttrAsWritten), extract)
  }

  /** The filter with the route looked up where the gateway stores it. */
  function Apply(req: Request, extract: Option<string> -> Reply<string>): (d: Decision)
    ensures d == RoutePolicy.Authorize(RoutePolicy.Classify(MatchedRoute(req)), FirstAuthorization(req),
                                       extract, Unauthorized)
  {
    Decide(req, MatchedRoute(req), extract)
  }

  /** The request that shows the wrong lookup: an authenticated request on a
      matched route without an `allowedRoles` entry, which is open to all. */
  function OpenRouteRequest(): Request {
    Request("/foo", map[AuthorizationHeader := ["Bearer abc"]], map[GatewayRouteAttr := map[]])
  }

  /** On that request the filter as written refuses 403 "Access Denied (No
      Roles Allowed)", while the filter with the gateway's route attribute
      forwards it without a remote call. */
  lemma AsWrittenRefusesOpenRoute(extract: Option<string> -> Reply<string>)
    ensures ApplyAsWritten(OpenRouteRequest(), extract) == Decision([], Reject(Forbidden, NoRolesMessage))
    ensures Apply(OpenRouteRequest(), extract) == Decision([], Forward)
  {
    assert RouteAttrAsWritten != GatewayRouteAttr by {
      assert |RouteAttrAsWritten| != |GatewayRouteAttr|;
    }
  }

  /** Fail closed: no route, an entry that is not a list, or a list without a
      string is refused 403 before any remote call. */
  lemma FailClosed(req: Request, route: Option<Metadata>, extract: Option<string> -> Reply<string>)
    requires || route.None?
             || (AllowedRolesKey in route.value && route.value[AllowedRolesKey].NotAList?)
             || (AllowedRolesKey in route.value && route.value[AllowedRolesKey].AList?
                 && forall i :: 0 <= i < |route.value[AllowedRolesKey].elems| ==>
                                 route.value[AllowedRolesKey].elems[i].NonString?)
    ensures Decide(req, route, extract) == Decision([], Reject(Forbidden, NoRolesMessage))
  {
  }

  /** A route without an `allowedRoles` entry is open: forwarded with no call. */
  lemma MissingEntryIsPublic(req: Request, metadata: Metadata, extract: Option<string> -> Reply<string>)
    requires AllowedRolesKey !in metadata
    ensures Decide(req, Some(metadata), extract) == Decision([], Forward)
  {
  }

  /** A list naming PUBLIC forwards with no call, whatever else it names. */
  lemma ListedPublicForwards(req: Request, metadata: Metadata, extract: Option<string> -> Reply<string>)
    requires AllowedRolesKey in metadata && metadata[AllowedRolesKey].AList?
    requires Str(PublicRole) in metadata[AllowedRolesKey].elems
    ensures Decide(req, Some(metadata), extract) == Decision([], Forward)
  {
  }

  /** With a returned role, the request is forwarded exactly when the
      resolved list holds that string; otherwise it is refused 403. */
  lemma ExactRoleMatch(req: Request, route: Option<Metadata>, extract: Option<string> -> Reply<string>)
    requires AllowedRolesFromMetadata(route) != [] && PublicRole !in AllowedRolesFromMetadata(route)
    requires extract(FirstAuthorization(req)).Ok?
    ensures Decide(req, route, extract).calls == [ExtractRole(FirstAuthorization(req))]
    ensures Decide(req, route, extract).outcome ==
              if extract(FirstAuthorization(req)).value in AllowedRolesFromMetadata(route) then Forward
              else Reject(Forbidden, AccessDeniedMessage)
  {
  }

  /** The filter run on an exchange: a refusal goes through the JSON error
      responder with the decision's status, a forward leaves the response to
      the rest of the chain. */
  method Filter(req: Request, resp: Response, extract: Option<string> -> Reply<string>,
                serialize: ErrorResponseUtil.JsonObject -> Option<seq<byte>>) returns (d: Decision)
    modifies resp
    ensures d == Apply(req, extract)
    ensures d.outcome.Forward? ==> resp.State() == old(resp.State())
    ensures d.outcome.Reject? ==>
              resp.State() == ErrorResponseUtil.AfterError(old(resp.State()), d.outcome.status,
                                                           d.outcome.message, req.path, serialize)
  {
    d := Apply(req, extract);
    if d.outcome.Reject? {
      ErrorResponseUtil.SendErrorResponse(resp, req.path, d.outcome.status, d.outcome.message, serialize);
    }
  }
}
