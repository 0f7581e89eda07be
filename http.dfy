/**
 * The parts of the HTTP exchange the authentication and authorization filters
 * look at or change: the request's path and headers, the mutable response,
 * the two statuses the filters answer with, and the abstract results of the
 * two remote calls made to the auth service.
 */
module Http {
  import opened Wrappers
  import opened Routes

  newtype byte = x: int | 0 <= x < 256

  /** The two statuses the filters reject with. */
  datatype HttpStatus = Unauthorized | Forbidden {

    function Value(): int {
      match this
      case Unauthorized => 401
      case Forbidden => 403
    }

    /** Reason phrases of sections 15.5.2 and 15.5.4 of RFC 9110. */
    function ReasonPhrase(): string {
      match this
      case Unauthorized => "Unauthorized"
      case Forbidden => "Forbidden"
    }
  }

  /** Ordered.HIGHEST_PRECEDENCE, which is Java's Integer.MIN_VALUE. */
  const HighestPrecedence: int := -0x8000_0000

  const AuthorizationHeader: string := "Authorization"

  // Rejection messages used by the filters.
  const MissingHeaderMessage: string := "Missing Authorization Header"
  const InvalidTokenMessage: string := "Invalid Token"
  const NoRolesMessage: string := "Access Denied (No Roles Allowed)"
  const AccessDeniedMessage: string := "Access Denied"

  /** The exchange attribute under which the gateway stores the matched
      route: the value of ServerWebExchangeUtils.GATEWAY_ROUTE_ATTR, which is
      the class name qualified by "gatewayRoute". */
  const GatewayRouteAttr: string := "org.springframework.cloud.gateway.support.ServerWebExchangeUtils.gatewayRoute"

  /** The inbound request: its path, its header values by header name, and
      the exchange attributes that hold a route, each route given by its
      metadata. */
  datatype Request = Request(path: string, headers: map<string, seq<string>>,
                             attributes: map<string, Metadata>)

  /** exchange.getAttribute(key) for a route: None stands for Java's null. */
  function RouteAttribute(req: Request, key: string): Option<Metadata> {
    if key in req.attributes then Some(req.attributes[key]) else None
  }

  /** The route the gateway matched for the request, if any. */
  function MatchedRoute(req: Request): Option<Metadata> {
    RouteAttribute(req, GatewayRouteAttr)
  }

  /** HttpHeaders.containsKey(AUTHORIZATION). */
  predicate HasAuthorization(req: Request) {
    AuthorizationHeader in req.headers
  }

  /** HttpHeaders.getFirst(AUTHORIZATION): None stands for Java's null. */
  function FirstAuthorization(req: Request): Option<string> {
    if AuthorizationHeader in req.headers && |req.headers[AuthorizationHeader]| > 0
    then Some(req.headers[AuthorizationHeader][0])
    else None
  }

  /** What a remote call resolves to: a value, or an error signal (a non-2xx
      answer, a transport error or a timeout, all alike). */
  datatype Reply<T> = Ok(value: T) | Failed

  /** A remote call made by a filter, with the token it carried. */
  datatype Call = ValidateToken(token: Option<string>) | ExtractRole(token: Option<string>)

  /** How a filter ends: it hands the exchange to the rest of the chain, or it
      rejects it with a status and a message. */
  datatype Outcome = Forward | Reject(status: HttpStatus, message: string)

  /** The remote calls a filter made, in order, and how it ended. */
  datatype Decision = Decision(calls: seq<Call>, outcome: Outcome)

  /** A snapshot of the response's state. */
  datatype ResponseState = ResponseState(
    status: Option<int>,
    contentType: Option<string>,
    contentLength: Option<int>,
    body: seq<byte>,
    complete: bool)

  /** The exchange's response, which the filters update in place. */
  class Response {
    var status: Option<int>
    var contentType: Option<string>
    var contentLength: Option<int>
    var body: seq<byte>
    var complete: bool

    constructor ()
      ensures State() == ResponseState(None, None, None, [], false)
    {
      status, contentType, contentLength := None, None, None;
      body, complete := [], false;
    }

    function State(): ResponseState
      reads this
    {
      ResponseState(status, contentType, contentLength, body, complete)
    }
  }
}
