/**
 * The route policy as a value rather than a list: a route is open to every
 * caller, open to a set of roles, or closed. Both role filters are proved to
 * decide exactly as Authorize does on the policy Classify gives.
 */
module RoutePolicy {
  import opened Wrappers
  import opened Http
  import opened Routes

  datatype Policy = Public | Roles(allowed: set<string>) | Deny

  /** The strings of a metadata list, as a set. */
  function RoleSet(xs: seq<Elem>): (s: set<string>)
    ensures forall r :: r in s <==> Str(r) in xs
  {
    set e | e in xs && e.Str? :: e.s
  }

  /** The list and the set of a metadata list's strings hold the same roles;
      in particular one is empty exactly when the other is. */
  lemma ListAndSetAgree(xs: seq<Elem>)
    ensures forall r :: r in StringElements(xs) <==> r in RoleSet(xs)
    ensures StringElements(xs) == [] <==> RoleSet(xs) == {}
  {
  }

  /** The policy of a route: closed when there is no route, when the entry is
      not a list, or when the list holds no string; open to all when the entry
      is missing or lists PUBLIC; otherwise open to the listed roles. */
  function Classify(route: Option<Metadata>): (p: Policy)
    ensures p.Roles? ==> p.allowed != {} && PublicRole !in p.allowed
    ensures p.Deny? ==> route.None? || AllowedRolesKey in route.value
  {
    match route
    case None => Deny
    case Some(md) =>
      if AllowedRolesKey !in md then Public
      else
        match md[AllowedRolesKey]
        case NotAList => Deny
        case AList(xs) =>
          var allowed := RoleSet(xs);
          if allowed == {} then Deny
          else if PublicRole in allowed then Public
          else Roles(allowed)
  }

  /** The authorization stage on a policy: a closed route is refused and an
      open one forwarded, both without a remote call; otherwise the role is
      fetched once and must be one of the allowed roles, exactly. A failed
      role lookup is refused with `onFailure`. */
  function Authorize(p: Policy, token: Option<string>, extract: Option<string> -> Reply<string>,
                     onFailure: HttpStatus): (d: Decision)
    ensures d.calls == if p.Roles? then [ExtractRole(token)] else []
    ensures d.outcome.Forward? <==>
              p.Public? || (p.Roles? && extract(token).Ok? && extract(token).value in p.allowed)
    ensures p.Deny? ==> d.outcome == Reject(Forbidden, NoRolesMessage)
    ensures p.Roles? && extract(token).Failed? ==> d.outcome == Reject(onFailure, InvalidTokenMessage)
    ensures p.Roles? && extract(token).Ok? && extract(token).value !in p.allowed ==>
              d.outcome == Reject(Forbidden, AccessDeniedMessage)
  {
    match p
    case Deny => Decision([], Reject(Forbidden, NoRolesMessage))
    case Public => Decision([], Forward)
    case Roles(allowed) =>
      Decision([ExtractRole(token)],
               match extract(token)
               case Failed => Reject(onFailure, InvalidTokenMessage)
               case Ok(role) => if role in allowed then Forward else Reject(Forbidden, AccessDeniedMessage))
  }
}
