/**
 * How the gateway runs the filters of one exchange: in ascending order of
 * their order values, each forwarding to the next, the first refusal ending
 * the exchange. Modelled chains: the two global filters; the two route
 * filters attached to one route; and the same route filters with the role
 * filter's route lookup as written.
 */
module Gateway {
  import opened Wrappers
  import opened Http
  import opened Routes
  import RoutePolicy
  import TokenValidationFilter
  import RoleValidationFilter
  import TokenValidationFilterFactory
  import RoleValidationFilterFactory

  /** A filter of the chain: its order value and what it decides. */
  datatype Stage = Stage(order: int, decision: Decision)

  /** `first` handing the exchange on to `next` when it forwards. */
  function Then(first: Decision, next: Decision): (d: Decision)
    ensures d.outcome.Forward? <==> first.outcome.Forward? && next.outcome.Forward?
    ensures first.outcome.Reject? ==> d == first
    ensures first.outcome.Forward? ==> d.calls == first.calls + next.calls && d.outcome == next.outcome
  {
    if first.outcome.Forward? then Decision(first.calls + next.calls, next.outcome) else first
  }

  /** Two filters run in ascending order; on a tie the first listed runs first. */
  function RunInOrder(a: Stage, b: Stage): Decision {
    if b.order < a.order then Then(b.decision, a.decision) else Then(a.decision, b.decision)
  }

  /** The global filters, listed role filter first: their order values put
      the token filter in front. */
  function GlobalChain(req: Request, validate: Option<string> -> Reply<string>,
                       extract: Option<string> -> Reply<string>): (d: Decision)
    ensures d == Then(TokenValidationFilter.Decide(req, validate), RoleValidationFilter.Decide(req, extract))
  {
    RunInOrder(Stage(RoleValidationFilter.Order, RoleValidationFilter.Decide(req, extract)),
               Stage(TokenValidationFilter.Order, TokenValidationFilter.Decide(req, validate)))
  }

  /** The route filters of a route carrying both, the role filter looking the
      route up where the gateway stores it; listed role filter first, their
      order values put the token filter in front. */
  function RouteChain(req: Request, validate: Option<string> -> Reply<bool>,
                      extract: Option<string> -> Reply<string>): (d: Decision)
    ensures d == Then(TokenValidationFilterFactory.Apply(req, validate),
                      RoleValidationFilterFactory.Apply(req, extract))
  {
    RunInOrder(Stage(RoleValidationFilterFactory.Order, RoleValidationFilterFactory.Apply(req, extract)),
               Stage(TokenValidationFilterFactory.Order, TokenValidationFilterFactory.Apply(req, validate)))
  }

  /** The same route filters with the role filter's route lookup as written. */
  function RouteChainAsWritten(req: Request, validate: Option<string> -> Reply<bool>,
                               extract: Option<string> -> Reply<string>): (d: Decision)
    ensures d == Then(TokenValidationFilterFactory.Apply(req, validate),
                      RoleValidationFilterFactory.ApplyAsWritten(req, extract))
  {
    RunInOrder(Stage(RoleValidationFilterFactory.Order, RoleValidationFilterFactory.ApplyAsWritten(req, extract)),
               Stage(TokenValidationFilterFactory.Order, TokenValidationFilterFactory.Apply(req, validate)))
  }

  /** As written, the route chain forwards nothing and never fetches a role,
      whenever no route is stored under the name its role filter reads. */
  lemma RouteChainAsWrittenNeverForwards(req: Request, validate: Option<string> -> Reply<bool>,
                                         extract: Option<string> -> Reply<string>)
    requires RoleValidationFilterFactory.RouteAttrAsWritten !in req.attributes
    ensures !RouteChainAsWritten(req, validate, extract).outcome.Forward?
    ensures forall c :: c in RouteChainAsWritten(req, validate, extract).calls ==> c.ValidateToken?
    ensures TokenValidationFilterFactory.Apply(req, validate).outcome.Forward? ==>
              RouteChainAsWritten(req, validate, extract).outcome == Reject(Forbidden, NoRolesMessage)
  {
  }

  /** Without an Authorization header every chain refuses 401 and the auth
      service is never called. */
  lemma MissingHeaderNeverCalls(req: Request,
                                validateText: Option<string> -> Reply<string>,
                                validateFlag: Option<string> -> Reply<bool>,
                                extract: Option<string> -> Reply<string>)
    requires !HasAuthorization(req)
    ensures GlobalChain(req, validateText, extract) == Decision([], Reject(Unauthorized, MissingHeaderMessage))
    ensures RouteChain(req, validateFlag, extract) == Decision([], Reject(Unauthorized, MissingHeaderMessage))
    ensures RouteChainAsWritten(req, validateFlag, extract) ==
              Decision([], Reject(Unauthorized, MissingHeaderMessage))
  {
  }

  /** A failed validation ends every chain with 401 after the one validation
      call: the role stage never runs. */
  lemma FailedValidationSkipsRoleStage(req: Request,
                                       validateText: Option<string> -> Reply<string>,
                                       validateFlag: Option<string> -> Reply<bool>,
                                       extract: Option<string> -> Reply<string>)
    requires HasAuthorization(req)
    requires validateText(FirstAuthorization(req)).Failed?
    requires validateFlag(FirstAuthorization(req)) != Ok(true)
    ensures GlobalChain(req, validateText, extract) ==
              Decision([ValidateToken(FirstAuthorization(req))], Reject(Unauthorized, InvalidTokenMessage))
    ensures RouteChain(req, validateFlag, extract) ==
              Decision([ValidateToken(FirstAuthorization(req))], Reject(Unauthorized, InvalidTokenMessage))
    ensures RouteChainAsWritten(req, validateFlag, extract) ==
              Decision([ValidateToken(FirstAuthorization(req))], Reject(Unauthorized, InvalidTokenMessage))
  {
  }

  /** The global chain forwards exactly when a header is present, the token
      validates, and the matched route's policy admits the caller. */
  lemma GlobalForwardsIff(req: Request, validate: Option<string> -> Reply<string>,
                          extract: Option<string> -> Reply<string>)
    ensures GlobalChain(req, validate, extract).outcome.Forward? <==>
              && HasAuthorization(req)
              && validate(FirstAuthorization(req)).Ok?
              && RoutePolicy.Authorize(RoutePolicy.Classify(MatchedRoute(req)), FirstAuthorization(req),
                                       extract, Forbidden).outcome.Forward?
  {
  }

  /** On a closed route an authenticated request is refused 403 by every
      chain, and the role is never fetched. */
  lemma ClosedRouteRefusedAfterAuthentication(req: Request,
                                              validateText: Option<string> -> Reply<string>,
                                              validateFlag: Option<string> -> Reply<bool>,
                                              extract: Option<string> -> Reply<string>)
    requires HasAuthorization(req)
    requires validateText(FirstAuthorization(req)).Ok? && validateFlag(FirstAuthorization(req)) == Ok(true)
    requires RoutePolicy.Classify(MatchedRoute(req)).Deny?
    ensures GlobalChain(req, validateText, extract) ==
              Decision([ValidateToken(FirstAuthorization(req))], Reject(Forbidden, NoRolesMessage))
    ensures RouteChain(req, validateFlag, extract) ==
              Decision([ValidateToken(FirstAuthorization(req))], Reject(Forbidden, NoRolesMessage))
  {
  }

  /** On a matched route without an `allowedRoles` entry an authenticated
      request is forwarded by the global chain and the corrected route chain
      without fetching the role; the route chain as written refuses it 403. */
  lemma OpenRouteNeedsOnlyAuthentication(req: Request,
                                         validateText: Option<string> -> Reply<string>,
                                         validateFlag: Option<string> -> Reply<bool>,
                                         extract: Option<string> -> Reply<string>)
    requires MatchedRoute(req).Some? && AllowedRolesKey !in MatchedRoute(req).value
    requires HasAuthorization(req)
    requires validateText(FirstAuthorization(req)).Ok? && validateFlag(FirstAuthorization(req)) == Ok(true)
    ensures GlobalChain(req, validateText, extract) ==
              Decision([ValidateToken(FirstAuthorization(req))], Forward)
    ensures RouteChain(req, validateFlag, extract) ==
              Decision([ValidateToken(FirstAuthorization(req))], Forward)
    ensures RoleValidationFilterFactory.RouteAttrAsWritten !in req.attributes ==>
              RouteChainAsWritten(req, validateFlag, extract) ==
                Decision([ValidateToken(FirstAuthorization(req))], Reject(Forbidden, NoRolesMessage))
  {
  }

  /** When the Boolean the route filter sees is `true` only for tokens the
      auth service answers successfully, whatever the corrected route chain
      forwards the global chain forwards too; the converse fails (see
      TokenBodyIgnored). */
  lemma RouteChainNoLaxer(req: Request,
                          validateText: Option<string> -> Reply<string>,
                          validateFlag: Option<string> -> Reply<bool>,
                          extract: Option<string> -> Reply<string>)
    requires forall t :: validateFlag(t) == Ok(true) ==> validateText(t).Ok?
    ensures RouteChain(req, validateFlag, extract).outcome.Forward? ==>
              GlobalChain(req, validateText, extract).outcome.Forward?
  {
  }

  /** The global token filter forwards on a successful answer whose body is
      "false"; the route token filter refuses a `false` validation. */
  lemma TokenBodyIgnored(req: Request)
    requires HasAuthorization(req)
    ensures TokenValidationFilter.Decide(req, t => Ok("false")).outcome == Forward
    ensures TokenValidationFilterFactory.Apply(req, t => Ok(false)).outcome ==
              Reject(Unauthorized, InvalidTokenMessage)
  {
  }

  /** The metadata of a route open to ADMIN only. */
  function AdminOnly(): Metadata {
    map[AllowedRolesKey := AList([Str("ADMIN")])]
  }

  /** On a matched route open to ADMIN only, the role "ADMIN" is forwarded
      and the role "admin" refused 403 (the match is case-sensitive), and a
      failed role lookup is refused 401 by the corrected route filter but 403
      by the global one. The route filter as written refuses even "ADMIN". */
  lemma AdminOnlyRoute(req: Request)
    requires MatchedRoute(req) == Some(AdminOnly())
    ensures RoleValidationFilterFactory.Apply(req, t => Ok("ADMIN")).outcome == Forward
    ensures RoleValidationFilter.Decide(req, t => Ok("ADMIN")).outcome == Forward
    ensures RoleValidationFilterFactory.Apply(req, t => Ok("admin")).outcome ==
              Reject(Forbidden, AccessDeniedMessage)
    ensures RoleValidationFilter.Decide(req, t => Ok("admin")).outcome ==
              Reject(Forbidden, AccessDeniedMessage)
    ensures RoleValidationFilterFactory.Apply(req, t => Failed).outcome ==
              Reject(Unauthorized, InvalidTokenMessage)
    ensures RoleValidationFilter.Decide(req, t => Failed).outcome ==
              Reject(Forbidden, InvalidTokenMessage)
    ensures RoleValidationFilterFactory.RouteAttrAsWritten !in req.attributes ==>
              RoleValidationFilterFactory.ApplyAsWritten(req, t => Ok("ADMIN")).outcome ==
                Reject(Forbidden, NoRolesMessage)
  {
    StringElementsKeepsStrings([Str("ADMIN")]);
    assert "admin" != "ADMIN" by { assert "admin"[0] != "ADMIN"[0]; }
  }
}
