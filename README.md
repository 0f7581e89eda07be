# Gateway authentication and authorization filters

A Dafny model of the request-time gate of a Spring Cloud Gateway service.
For every request, a token stage checks the `Authorization` header against a
remote auth service. A role stage then resolves the route's allowed roles
from the route metadata entry `allowedRoles`. It fetches the caller's role
from the auth service only when it has to, and decides whether the request
may go on to the upstream service. Each stage exists twice:

- as a global filter (`TokenValidationFilter`, `RoleValidationFilter`), which
  answers a refusal with a bare status code;
- as a route filter factory (`TokenValidationFilterFactory`,
  `RoleValidationFilterFactory`), which answers through the JSON error
  responder `ErrorResponseUtil`.

The model keeps one Dafny module per source file, so each can be read against
its file. It proves where the copies agree and where they differ, including
where each role filter looks up the matched route.

How the model is built:

- The two remote calls are oracle functions from the token to a `Reply`
  (`Ok(value)` or `Failed`).
- Each filter's decision is a function returning a `Decision`. It records the
  remote calls made, with the token each carried, and the `Outcome`
  (`Forward` or `Reject(status, message)`).
- The request carries the exchange attributes that hold a route, each route
  given by its metadata. Each role filter looks its route up under its own
  attribute name, as its source does.
- The exchange's response is a class, `Http.Response`, whose fields the
  filters and the error responder update in place.
- A reference definition of the route policy, `RoutePolicy.Classify`, gives
  one of three policies: open to all, open to a set of roles, or closed.
  `RoutePolicy.Authorize` is the authorization stage on such a policy. Both
  role filters are proved to decide exactly as `Authorize` does once the
  route is looked up. So the list-based code behaves as a set: order and
  duplicates in the list do not matter.
- `Gateway` runs two filters in ascending order of their order values. It
  proves that the token stage runs first in both the global chain and the
  route chain. It also proves short-circuiting: a refusal ends the chain
  before any later remote call.

Behaviour the code has that a uniform design would not:

- The route role filter looks the matched route up under the attribute name
  "org.springframework.cloud.gateway.support.ServerWebExchangeUtils.GATEWAY_ROUTE_ATTR".
  That string spells the constant's name. The gateway stores the route under
  the constant's value, which ends in "gatewayRoute", and the global role
  filter reads that value. As written, the route role filter therefore sees
  no route and refuses every request 403 "Access Denied (No Roles Allowed)".
  The global role filter forwards a request on a route without an
  `allowedRoles` entry. See "## Findings".
- The global role filter answers a failed role lookup with 403. The route
  filter answers it with 401.
- The global token filter forwards on any successful validation answer,
  whatever its body.
- A list that explicitly names `PUBLIC` opens the route, whatever other roles
  it names.
- The rejection messages are the code's own, e.g. "Missing Authorization
  Header".
- When the error envelope fails to serialize, the error responder only
  completes the response. It sets no status, because the status is set after
  serialization. A refused request then goes out with whatever status the
  response already had.

Role resolution is a Dafny function of the route alone. Resolving the same
route twice therefore gives the same list, and resolution has no effects.

## Model

| member | source | states |
|---|---|---|
| Routes.StringElements | src/main/java/com/example/gateway/filter/RoleValidationFilterFactory.java:89-92 | the resolved list holds a role exactly when the metadata list holds that String, and is no longer than the list |
| Routes.StringElementsAppend | src/main/java/com/example/gateway/filter/RoleValidationFilterFactory.java:89-92 | filtering a concatenation is the concatenation of the filtered parts, so the strings keep their original order |
| Routes.StringElementsKeepsStrings | src/main/java/com/example/gateway/filter/RoleValidationFilterFactory.java:89-92 | a list made only of strings is returned element for element |
| Routes.StringElementsDropsOthers | src/main/java/com/example/gateway/filter/RoleValidationFilterFactory.java:89-92 | a list without a String resolves to the empty list |
| RoutePolicy.RoleSet | src/main/java/com/example/gateway/filter/RoleValidationFilterFactory.java:89-92 | the set of roles holds exactly the strings of the metadata list |
| RoutePolicy.ListAndSetAgree | src/main/java/com/example/gateway/filter/RoleValidationFilterFactory.java:89-92 | the resolved list and the role set hold the same roles; one is empty exactly when the other is |
| RoutePolicy.Classify | src/main/java/com/example/gateway/filter/RoleValidationFilterFactory.java:67-93 | reference policy: a role set it yields is non-empty and never holds PUBLIC; it closes a route only when there is no route or the entry is present (a missing entry never closes) |
| RoutePolicy.Authorize | src/main/java/com/example/gateway/filter/RoleValidationFilterFactory.java:43-60 | reference authorization stage: the role is fetched only for a role-set policy; forward exactly when open to all or the fetched role is in the set; a closed route is refused 403 "Access Denied (No Roles Allowed)", an unlisted role 403 "Access Denied", a failed lookup with the given status and "Invalid Token" |
| ErrorResponseUtil.Envelope | src/main/java/com/example/gateway/util/ErrorResponseUtil.java:21-26 | the envelope has exactly the four fields status, error, message and path, holding the code, its RFC 9110 reason phrase, the message and the request path |
| ErrorResponseUtil.AfterError | src/main/java/com/example/gateway/util/ErrorResponseUtil.java:28-38 | the response is always complete; with a serialized body the status is the given one, the content type JSON, the body the serialized bytes and the content length the body's length; on a serialization failure nothing else changes |
| ErrorResponseUtil.SendErrorResponse | src/main/java/com/example/gateway/util/ErrorResponseUtil.java:19-40 | the response's new state is AfterError of its old state |
| TokenValidationFilterFactory.Apply | src/main/java/com/example/gateway/filter/TokenValidationFilterFactory.java:31-50 | no header: 401 "Missing Authorization Header" with no call; otherwise exactly one validation call with the first header value; forward exactly when validation yields true; every refusal 401, "Invalid Token" once a header is present |
| TokenValidationFilterFactory.Filter | src/main/java/com/example/gateway/filter/TokenValidationFilterFactory.java:53-56 | a refusal sends the 401 JSON error response; a forward leaves the response untouched |
| TokenValidationFilter.Decide | src/main/java/com/example/gateway/filter/TokenValidationFilter.java:24-37 | no header: refused with no call; otherwise exactly one validation call with the first header value; forward exactly when validation succeeds, whatever the body; every refusal 401 |
| TokenValidationFilter.OnError | src/main/java/com/example/gateway/filter/TokenValidationFilter.java:39-43 | sets status 401 and completes the response; headers and body unchanged |
| TokenValidationFilter.Filter | src/main/java/com/example/gateway/filter/TokenValidationFilter.java:23-43 | a refusal leaves a bodiless complete 401 response; a forward leaves the response untouched |
| RoleValidationFilterFactory.AllowedRolesFromMetadata | src/main/java/com/example/gateway/filter/RoleValidationFilterFactory.java:70-92 | given the looked-up route: the list is empty exactly when the reference policy closes the route, holds PUBLIC exactly when it opens it to all, else holds exactly its roles; a missing entry gives ["PUBLIC"], a list its strings in order |
| RoleValidationFilterFactory.Decide | src/main/java/com/example/gateway/filter/RoleValidationFilterFactory.java:36-60 | given the looked-up route, decides exactly as the reference stage on the route's policy, with 401 for a failed role lookup |
| RoleValidationFilterFactory.ApplyAsWritten | src/main/java/com/example/gateway/filter/RoleValidationFilterFactory.java:35-71 | the filter with its route looked up under the literal name at line 68: when nothing is stored under that name, every request is refused 403 "Access Denied (No Roles Allowed)" with no remote call |
| RoleValidationFilterFactory.Apply | src/main/java/com/example/gateway/filter/RoleValidationFilterFactory.java:35-61 | corrected: with the route looked up where the gateway stores the matched route, decides exactly as the reference stage on that route's policy, with 401 for a failed role lookup |
| RoleValidationFilterFactory.AsWrittenRefusesOpenRoute | src/main/java/com/example/gateway/filter/RoleValidationFilterFactory.java:68-71 | on an authenticated request whose matched route has no allowedRoles entry, the filter as written refuses 403 while the corrected filter forwards with no call |
| RoleValidationFilterFactory.FailClosed | src/main/java/com/example/gateway/filter/RoleValidationFilterFactory.java:40-45 | no route, a non-list entry, or a list without a String: refused 403 "Access Denied (No Roles Allowed)" with no remote call |
| RoleValidationFilterFactory.MissingEntryIsPublic | src/main/java/com/example/gateway/filter/RoleValidationFilterFactory.java:76-79 | a route without an allowedRoles entry forwards with no remote call |
| RoleValidationFilterFactory.ListedPublicForwards | src/main/java/com/example/gateway/filter/RoleValidationFilterFactory.java:47-50 | a list naming PUBLIC forwards with no remote call, whatever else it names |
| RoleValidationFilterFactory.ExactRoleMatch | src/main/java/com/example/gateway/filter/RoleValidationFilterFactory.java:53-59 | with a returned role, one role call is made and the request forwards exactly when the list holds that exact string, else 403 "Access Denied" |
| RoleValidationFilterFactory.Filter | src/main/java/com/example/gateway/filter/RoleValidationFilterFactory.java:95-98 | runs the corrected decision; a refusal sends the JSON error response with the decision's status; a forward leaves the response untouched |
| RoleValidationFilter.AllowedRolesFromMetadata | src/main/java/com/example/gateway/filter/RoleValidationFilter.java:56-81 | looks the route up under GATEWAY_ROUTE_ATTR's value (no route gives the empty list) and resolves it to the same list as the route filter's resolution |
| RoleValidationFilter.Decide | src/main/java/com/example/gateway/filter/RoleValidationFilter.java:30-54 | decides exactly as the reference stage on the matched route's policy, with 403 for a failed role lookup; every refusal is 403 |
| RoleValidationFilter.AgreesWithRouteFilter | src/main/java/com/example/gateway/filter/RoleValidationFilter.java:46-53 | against the corrected route role filter: the same calls and the same forwarded requests; a refusal differs only in being 403 |
| RoleValidationFilter.DisagreesWithRouteFilterAsWritten | src/main/java/com/example/gateway/filter/RoleValidationFilter.java:57-66 | against the route role filter as written: on a matched route without an allowedRoles entry this filter forwards with no call, the route filter refuses 403 |
| RoleValidationFilter.OnError | src/main/java/com/example/gateway/filter/RoleValidationFilter.java:83-87 | sets status 403 and completes the response; headers and body unchanged |
| RoleValidationFilter.Filter | src/main/java/com/example/gateway/filter/RoleValidationFilter.java:29-54 | a refusal leaves a bodiless complete 403 response; a forward leaves the response untouched |
| Gateway.Then | src/main/java/com/example/gateway/filter/TokenValidationFilter.java:33-35 | a chain forwards exactly when both stages forward; a refusal by the first ends it unchanged, with no call of the second |
| Gateway.GlobalChain | src/main/java/com/example/gateway/filter/RoleValidationFilter.java:89-92 | ordered by getOrder (HIGHEST_PRECEDENCE and HIGHEST_PRECEDENCE + 1), the global token filter runs before the global role filter |
| Gateway.RouteChain | src/main/java/com/example/gateway/filter/TokenValidationFilterFactory.java:50 | ordered by order values 1 and 2, the route token filter runs before the corrected route role filter |
| Gateway.RouteChainAsWritten | src/main/java/com/example/gateway/filter/RoleValidationFilterFactory.java:61 | ordered by order values 1 and 2, the route token filter runs before the route role filter as written |
| Gateway.RouteChainAsWrittenNeverForwards | src/main/java/com/example/gateway/filter/RoleValidationFilterFactory.java:68-71 | as written, with nothing stored under the literal name, the route chain forwards nothing and never fetches a role; an authenticated request is refused 403 |
| Gateway.MissingHeaderNeverCalls | src/main/java/com/example/gateway/filter/TokenValidationFilter.java:27-28 | without the header every chain refuses 401 and never call the auth service |
| Gateway.FailedValidationSkipsRoleStage | src/main/java/com/example/gateway/filter/TokenValidationFilterFactory.java:40-48 | a failed validation ends every chain with 401 after the one validation call; the role stage never runs |
| Gateway.GlobalForwardsIff | src/main/java/com/example/gateway/filter/TokenValidationFilter.java:24-37 | the global chain forwards exactly when a header is present, validation succeeds, and the matched route's policy admits the caller |
| Gateway.ClosedRouteRefusedAfterAuthentication | src/main/java/com/example/gateway/filter/RoleValidationFilter.java:36-39 | on a closed matched route an authenticated request is refused 403 by the global and the corrected route chain without a role call |
| Gateway.OpenRouteNeedsOnlyAuthentication | src/main/java/com/example/gateway/filter/RoleValidationFilter.java:65-67 | on a matched route without an allowedRoles entry an authenticated request is forwarded by the global and the corrected route chain without a role call; the route chain as written refuses it 403 |
| Gateway.RouteChainNoLaxer | src/main/java/com/example/gateway/filter/TokenValidationFilterFactory.java:40-47 | if `true` is only reported for tokens the service accepts, every request the corrected route chain forwards is forwarded by the global chain |
| Gateway.TokenBodyIgnored | src/main/java/com/example/gateway/filter/TokenValidationFilter.java:33-35 | the global token filter forwards a successful answer whose body is "false"; the route token filter refuses false |
| Gateway.AdminOnlyRoute | src/main/java/com/example/gateway/filter/RoleValidationFilterFactory.java:53-60 | on a matched route open to ADMIN only, "ADMIN" is forwarded and "admin" refused 403 by the global and the corrected route role filter; a failed lookup is 401 in the route filter and 403 in the global one; the route filter as written refuses even "ADMIN" |

## Findings

| source | as written | input that shows it | evidently intended | confidence | as-written member | corrected member |
|---|---|---|---|---|---|---|
| src/main/java/com/example/gateway/filter/RoleValidationFilterFactory.java:68 | the route is looked up under the string "org.springframework.cloud.gateway.support.ServerWebExchangeUtils.GATEWAY_ROUTE_ATTR", a name the gateway never sets, so the route is always null and every request is refused 403 "Access Denied (No Roles Allowed)" | an authenticated request whose matched route has metadata {} (open to all): refused 403 | look the route up under ServerWebExchangeUtils.GATEWAY_ROUTE_ATTR, as RoleValidationFilter.java:57 does | high; not executed | RoleValidationFilterFactory.AsWrittenRefusesOpenRoute | RoleValidationFilterFactory.Apply |

## Left out

- RoleValidationFilterFactory.Filter: updates the response with the corrected
  decision (`Apply`). The as-written decision, which refuses every request,
  is modelled by `ApplyAsWritten` and `Gateway.RouteChainAsWritten`.


- AuthClient is not part of this model beyond the oracle results. Building
  the HTTP client, the URIs, the timeouts and the 16 MiB codec limit are
  network I/O. A timeout and a non-2xx answer both appear as `Failed`.
- TokenValidationFilterFactory.Apply: the validation oracle yields a Boolean,
  as the filter's `if (isValid)` intends. The auth client actually yields the
  response body as a String, and the source does not say how that body
  becomes a Boolean.
- Reactive stream semantics are not modelled. This covers a remote call that
  completes without a value, which neither forwards nor refuses. It also
  covers `onErrorResume` catching errors raised downstream of `chain.filter`,
  cancellation, and scheduling.
- What happens after `Forward` is not modelled. The downstream chain and the
  upstream proxying are an abstract marker.
- Exchange attributes are modelled only where they hold a route, and a route
  only by its metadata.
- Header names are compared exactly. Spring's case-insensitive header map is
  not modelled.
- The JSON serializer is a parameter that may fail. Jackson and the
  unspecified key order of `Map.of` are not modelled, and neither are the
  response's buffer handling and commit state.
- Logging (`log.error`) is left out: it has no effect on the exchange.
- How Spring merges global filters and route filters into one sorted chain is
  not modelled. Each chain is modelled on its own.
- Bean and property wiring (WebClientConfig, PropsConfig,
  WebClientProperties) has no decision logic and is not part of this model.
