/** The role guard around the protected routes
    (src/components/PrivateRoute.js): no stored user, or a role outside a
    given allow-list, is sent to /login; everyone else sees the page. */
module PrivateRoute {
  import opened Common
  import opened Session

  datatype Outcome = RedirectTo(path: string) | RenderChildren

  /** `allowed.includes(user.role)`: a missing role is in no list of role
      names. */
  predicate Admits(allowed: seq<string>, role: Option<string>) {
    role.Some? && role.value in allowed
  }

  /** The guard. An allow-list, even an empty one, is always consulted when
      given. */
  function Guard(user: Option<StoredUser>, allowed: Option<seq<string>>): (r: Outcome)
    ensures r.RedirectTo? ==> r.path == "/login"
    ensures user.None? ==> r == RedirectTo("/login")
    ensures user.Some? && allowed.Some? && !Admits(allowed.value, user.value.role) ==> r == RedirectTo("/login")
    ensures r == RenderChildren <==> user.Some? && (allowed.None? || Admits(allowed.value, user.value.role))
  {
    if user.None? then RedirectTo("/login")
    else if allowed.Some? && !Admits(allowed.value, user.value.role) then RedirectTo("/login")
    else RenderChildren
  }

  /** Without an allow-list any logged-in user is let in, whatever its role. */
  lemma NoListAdmitsEveryone(u: StoredUser, v: StoredUser)
    ensures Guard(Some(u), None) == Guard(Some(v), None) == RenderChildren
  {
  }

  /** Widening an allow-list never shuts anyone out. */
  lemma WiderListAdmitsMore(user: Option<StoredUser>, allowed: seq<string>, more: seq<string>)
    requires Guard(user, Some(allowed)) == RenderChildren
    ensures Guard(user, Some(allowed + more)) == RenderChildren
  {
    assert user.value.role.value in allowed + more;
  }

  /** An empty allow-list shuts everyone out. */
  lemma EmptyListAdmitsNobody(user: Option<StoredUser>)
    ensures Guard(user, Some([])) == RedirectTo("/login")
  {
  }
}
