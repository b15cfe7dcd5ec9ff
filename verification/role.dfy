/** The role gate (middleware/role.js): the role constants and `authorize(roles)`. */
module Role {
  import opened Wrappers
  import opened Crypto
  import opened Http

  /** `ROLE.ADMIN` and `ROLE.USER`. */
  const AdminRole: string := "admin"
  const UserRole: string := "user"

  const NotAuthenticatedMessage: string := "Not authenticated"
  const ForbiddenMessage: string := "Forbidden: Insufficient role"

  /** `authorize(roles)(req, res, next)`, given `req.user`: 401 when nobody is
      authenticated, 403 when the role is not one of `roles`, otherwise `next`. */
  function Authorize(roles: seq<string>, user: Option<Claims>): (step: Step)
    ensures step.Halt? ==> step.response.status in {401, 403}
    ensures step == Next <==> user.Some? && user.value.role in roles
  {
    if user.None? then Halt(Response(401, Message(NotAuthenticatedMessage)))
    else if user.value.role !in roles then Halt(Response(403, Message(ForbiddenMessage)))
    else Next
  }

  /** Without an authenticated user the answer is 401, whatever roles are permitted: the
      401 check comes before the 403 check. */
  lemma UnauthenticatedFirst(roles: seq<string>)
    ensures Authorize(roles, None) == Halt(Response(401, Message(NotAuthenticatedMessage)))
  {
  }

  /** An authenticated user passes exactly when the role is permitted, and is otherwise
      refused with 403. */
  lemma AuthorizeDecides(roles: seq<string>, claims: Claims)
    ensures Authorize(roles, Some(claims)) == Next <==> claims.role in roles
    ensures claims.role !in roles ==>
      Authorize(roles, Some(claims)) == Halt(Response(403, Message(ForbiddenMessage)))
  {
  }

  /** `authorize([ROLE.ADMIN])` admits role "admin" and refuses role "user" with 403. */
  lemma AdminOnly(id: Id)
    ensures Authorize([AdminRole], Some(Claims(id, "admin"))) == Next
    ensures Authorize([AdminRole], Some(Claims(id, "user"))) == Halt(Response(403, Message(ForbiddenMessage)))
  {
  }
}
