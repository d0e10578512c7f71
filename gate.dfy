/** The authorization checks every mutation resolver makes on the request
    context before it touches the store: first that a user is attached,
    then, for catalog mutations, that the user is an admin. */
module Gate {
  import opened Common
  import opened Db

  /** `if (!user) throw new GraphQLError('Not authenticated')`. */
  function RequireUser(user: Option<User>): (r: Option<Error>)
    ensures r.None? <==> user.Some?
    ensures r.Some? ==> r.value == NotAuthenticated
  {
    if user.None? then Some(NotAuthenticated) else None
  }

  /** The authentication check followed by
      `if (user.role !== 'admin') throw new GraphQLError('Not authorized')`. */
  function RequireAdmin(user: Option<User>): (r: Option<Error>)
    ensures r.None? <==> user.Some? && IsAdmin(user.value)
    ensures r == Some(NotAuthenticated) <==> user.None?
    ensures r == Some(NotAuthorized) <==> user.Some? && !IsAdmin(user.value)
  {
    if user.None? then Some(NotAuthenticated)
    else if user.value.role != "admin" then Some(NotAuthorized)
    else None
  }
}
