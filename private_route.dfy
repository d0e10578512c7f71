/** The route guard: render nothing while the session loads, send a
    visitor without a session to the login page, and otherwise render the
    protected page. Its admin-only check compares a boolean with a string
    under `===`, which never holds; `GuardAsWritten` keeps that, `Guard` is
    the check the `adminOnly` flag asks for. */
module PrivateRoute {
  import opened Common

  /** The user in the auth context; `role` may be missing. */
  datatype AuthUser = AuthUser(role: Option<string>)

  datatype Outcome = RenderNothing | NavigateTo(path: string) | RenderChildren

  /** The JavaScript values the admin check touches. */
  datatype JsValue = JsUndefined | JsBool(b: bool) | JsString(s: string)

  function Truthy(v: JsValue): bool {
    match v
    case JsUndefined => false
    case JsBool(b) => b
    case JsString(s) => s != ""
  }

  /** The logical not `!v`: always a boolean. */
  function Not(v: JsValue): (r: JsValue)
    ensures r.JsBool? && r.b == !Truthy(v)
  {
    JsBool(!Truthy(v))
  }

  /** `===`: values of different types are never strictly equal. */
  function StrictEquals(a: JsValue, b: JsValue): (r: bool)
    ensures r ==> a.JsBool? == b.JsBool? && a.JsString? == b.JsString?
    ensures a.JsString? && b.JsString? ==> (r <==> a.s == b.s)
  {
    match (a, b)
    case (JsUndefined, JsUndefined) => true
    case (JsBool(x), JsBool(y)) => x == y
    case (JsString(x), JsString(y)) => x == y
    case _ => false
  }

  function RoleValue(u: AuthUser): JsValue {
    match u.role
    case None => JsUndefined
    case Some(r) => JsString(r)
  }

  /** `!user.role === 'admin'`, which parses as `(!user.role) === 'admin'`. */
  function AdminCheckAsWritten(u: AuthUser): bool {
    StrictEquals(Not(RoleValue(u)), JsString("admin"))
  }

  /** The admin check never redirects anyone, whatever the role. */
  lemma AdminCheckNeverFires(u: AuthUser)
    ensures !AdminCheckAsWritten(u)
  {
  }

  /** `PrivateRoute({ children, adminOnly })` as written. */
  function GuardAsWritten(loading: bool, user: Option<AuthUser>, adminOnly: bool): (o: Outcome)
    ensures loading ==> o == RenderNothing
    ensures !loading && user.None? ==> o == NavigateTo("/login")
    ensures o == RenderChildren <==> !loading && user.Some?
  {
    if loading then RenderNothing
    else if user.None? then NavigateTo("/login")
    else if adminOnly && AdminCheckAsWritten(user.value) then NavigateTo("/")
    else RenderChildren
  }

  predicate IsAdmin(u: AuthUser) {
    u.role == Some("admin")
  }

  /** The guard with the admin check the flag is for: a signed-in user who
      is not an admin is sent to the home page. */
  function Guard(loading: bool, user: Option<AuthUser>, adminOnly: bool): (o: Outcome)
    ensures loading ==> o == RenderNothing
    ensures !loading && user.None? ==> o == NavigateTo("/login")
    ensures o == RenderChildren <==> !loading && user.Some? && (adminOnly ==> IsAdmin(user.value))
    ensures o == NavigateTo("/") <==> !loading && user.Some? && adminOnly && !IsAdmin(user.value)
  {
    if loading then RenderNothing
    else if user.None? then NavigateTo("/login")
    else if adminOnly && !IsAdmin(user.value) then NavigateTo("/")
    else RenderChildren
  }

  /** On routes that are not admin-only, and for admins everywhere, the two
      guards agree. */
  lemma GuardsAgreeOutsideAdminCheck(loading: bool, user: Option<AuthUser>, adminOnly: bool)
    requires !adminOnly || user.None? || IsAdmin(user.value)
    ensures Guard(loading, user, adminOnly) == GuardAsWritten(loading, user, adminOnly)
  {
    if !loading && user.Some? {
      AdminCheckNeverFires(user.value);
    }
  }

  /** The discrepancy: a signed-in guest on an admin-only route sees the
      page as written, and would be sent home by the intended check. */
  lemma GuestReachesAdminRoute()
    ensures GuardAsWritten(false, Some(AuthUser(Some("user"))), true) == RenderChildren
    ensures Guard(false, Some(AuthUser(Some("user"))), true) == NavigateTo("/")
  {
  }
}
