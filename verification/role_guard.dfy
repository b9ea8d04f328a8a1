/**
  The role whitelist middleware `authorize(roles)`: it runs after
  authentication and lets a request reach its handler only when the actor's
  role is on the route's list.
 */
module RoleGuard {
  import opened Store

  const InsufficientPermissions: string := "Forbidden: Insufficient permissions"

  /** `roles.includes(role)`: a left-to-right scan of the whitelist. */
  function Includes(roles: seq<Role>, role: Role): (found: bool)
    ensures found <==> role in roles
  {
    if |roles| == 0 then false
    else roles[0] == role || Includes(roles[1..], role)
  }

  /** The middleware's decision for an authenticated actor. */
  function Authorize(roles: seq<Role>, actor: Actor): (allowed: bool)
    ensures allowed <==> exists i :: 0 <= i < |roles| && roles[i] == actor.role
  {
    Includes(roles, actor.role)
  }

  /** The decision depends on the actor's role only, never on its identifier. */
  lemma DecisionIgnoresIdentity(roles: seq<Role>, a: Actor, b: Actor)
    requires a.role == b.role
    ensures Authorize(roles, a) == Authorize(roles, b)
  {
  }

  /** An empty whitelist turns every actor away. */
  lemma EmptyWhitelistDeniesAll(actor: Actor)
    ensures !Authorize([], actor)
  {
  }

  /** The role strings of a whitelist, as the source writes it. */
  function Names(roles: seq<Role>): (names: seq<string>)
    ensures |names| == |roles|
    ensures forall i :: 0 <= i < |roles| ==> names[i] == RoleName(roles[i])
  {
    if |roles| == 0 then [] else [RoleName(roles[0])] + Names(roles[1..])
  }

  /**
    Matching role values agrees with the source's comparison of role strings,
    as long as every role is in its canonical spelling.
   */
  lemma {:induction false} AuthorizeMatchesRoleStrings(roles: seq<Role>, actor: Actor)
    requires forall i :: 0 <= i < |roles| ==> Canonical(roles[i])
    ensures Authorize(roles, actor) <==> RoleName(actor.role) in Names(roles)
  {
    if RoleName(actor.role) in Names(roles) {
      var i :| 0 <= i < |roles| && Names(roles)[i] == RoleName(actor.role);
      RoleNameInjective(roles[i], actor.role);
    }
  }

  /**
    For a token whose role claim is the string `claim`, the decision is the
    source's `roles.includes(claim)` on the whitelist's strings.
   */
  lemma AuthorizeClaimString(roles: seq<Role>, id: Id, claim: string)
    requires forall i :: 0 <= i < |roles| ==> Canonical(roles[i])
    ensures Authorize(roles, Actor(id, ParseRole(claim))) <==> claim in Names(roles)
  {
    AuthorizeMatchesRoleStrings(roles, Actor(id, ParseRole(claim)));
  }
}
