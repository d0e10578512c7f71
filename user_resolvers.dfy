/** Signup, login and the user queries. Hashing, token signing and the
    input schemas are the external calls of `Common.Externals`. */
module UserResolvers {
  import opened Common
  import opened BookingModel
  import opened Db
  import opened Gate
  import BookingResolvers
  import AuthMiddleware

  datatype SignupInput = SignupInput(email: string, password: string, name: string, role: string)
  datatype LoginInput = LoginInput(email: string, password: string)
  datatype AuthPayload = AuthPayload(token: string, user: User)

  /** The stored user registered with this email address (unique in a valid store). */
  ghost function AccountOf(users: map<Id, User>, email: string): (u: User)
    requires EmailTaken(users, email)
    ensures u in users.Values && u.email == email
    ensures EmailsUnique(users) ==> forall k :: k in users && users[k].email == email ==> users[k] == u
  {
    var k :| k in users && users[k].email == email;
    users[k]
  }

  /** The session token issued for a user: `jwt.sign({ id, email }, ...)`. */
  function TokenFor(ext: Externals, u: User): string {
    ext.sign(Claims(u.id, u.email))
  }

  /** Query `me`: the stored user with the caller's id, or null. */
  function Me(db: Store, user: Option<User>): (r: Result<Option<User>>)
    reads db
    ensures user.None? <==> r == Err(NotAuthenticated)
    ensures user.Some? ==> r.Ok? && (r.value.Some? <==> user.value.id in db.users)
    ensures user.Some? && r.value.Some? ==> r.value.value == db.users[user.value.id]
    ensures db.Valid() && user.Some? && r.value.Some? ==> r.value.value.id == user.value.id
  {
    var denied := RequireUser(user);
    if denied.Some? then Err(denied.value) else Ok(FindById(db.users, user.value.id))
  }

  /** Query `user(id)`. */
  function QueryUser(db: Store, id: Id): (r: Option<User>)
    reads db
    ensures r.Some? <==> id in db.users
    ensures r.Some? ==> r.value == db.users[id]
  {
    FindById(db.users, id)
  }

  /** Query `users`. */
  function QueryUsers(db: Store): (r: map<Id, User>)
    reads db
    ensures r.Keys == db.users.Keys
    ensures forall k :: k in r ==> r[k] == db.users[k]
  {
    db.users
  }

  /** Mutation `signup(input)`. */
  method Signup(db: Store, input: SignupInput, salt: string, ext: Externals) returns (r: Result<AuthPayload>)
    requires db.Valid()
    modifies db
    ensures db.Valid()
    ensures db.hotels == old(db.hotels) && db.rooms == old(db.rooms) && db.bookings == old(db.bookings)
    ensures !ext.createUserSchemaOk(input.email, input.password, input.name, input.role) ==>
              r == Err(InvalidInput) && Code(r.error) == Some("BAD_USER_INPUT")
    ensures (ext.createUserSchemaOk(input.email, input.password, input.name, input.role)
             && old(EmailTaken(db.users, input.email))) ==> r == Err(UserAlreadyExists)
    ensures r.Err? ==> db.users == old(db.users) && db.nextId == old(db.nextId)
    ensures r.Ok? <==> ext.createUserSchemaOk(input.email, input.password, input.name, input.role)
                       && !old(EmailTaken(db.users, input.email))
    ensures r.Ok? ==> && r.value.user == User(old(db.nextId), input.name, input.email,
                                              ext.hash(input.password, salt), input.role)
                      && r.value.token == TokenFor(ext, r.value.user)
                      && db.users == old(db.users)[r.value.user.id := r.value.user]
                      && r.value.user.id !in old(db.users)
                      && db.nextId == old(db.nextId) + 1
    ensures r.Ok? && JwtSound(ext) ==>
              AuthMiddleware.ResolveUser(db, Some(AuthMiddleware.BearerPrefix + r.value.token), ext)
                == Some(r.value.user)
  {
    if !ext.createUserSchemaOk(input.email, input.password, input.name, input.role) {
      return Err(InvalidInput);
    }
    if EmailTaken(db.users, input.email) {
      return Err(UserAlreadyExists);
    }
    var hashed := ext.hash(input.password, salt);
    var id := db.NewId();
    var user := User(id, input.name, input.email, hashed, input.role);
    db.users := db.users[id := user];
    var token := TokenFor(ext, user);
    r := Ok(AuthPayload(token, user));
    if JwtSound(ext) {
      AuthMiddleware.IssuedTokenAuthenticates(db, ext, user);
    }
  }

  /** Mutation `login(input)`. An unknown email and a wrong password fail
      with the same error. */
  method Login(db: Store, input: LoginInput, ext: Externals) returns (r: Result<AuthPayload>)
    requires db.Valid()
    ensures !ext.loginSchemaOk(input.email, input.password) ==> r == Err(InvalidInput)
    ensures ext.loginSchemaOk(input.email, input.password) && !EmailTaken(db.users, input.email) ==>
              r == Err(InvalidCredentials)
    ensures ext.loginSchemaOk(input.email, input.password) && EmailTaken(db.users, input.email) ==>
              r == (var u := AccountOf(db.users, input.email);
                    if ext.compare(input.password, u.password) then Ok(AuthPayload(TokenFor(ext, u), u))
                    else Err(InvalidCredentials))
  {
    if !ext.loginSchemaOk(input.email, input.password) {
      return Err(InvalidInput);
    }
    if !EmailTaken(db.users, input.email) {
      return Err(InvalidCredentials);
    }
    var k :| k in db.users && db.users[k].email == input.email;
    var u := db.users[k];
    if !ext.compare(input.password, u.password) {
      return Err(InvalidCredentials);
    }
    r := Ok(AuthPayload(TokenFor(ext, u), u));
  }

  /** Field `User.bookings`: the same bookings the `bookings(userId)` query gives. */
  function UserBookings(db: Store, u: User): (r: map<Id, Booking>)
    reads db
    ensures r == BookingResolvers.QueryBookings(db, u.id)
    ensures forall k :: k in r <==> k in db.bookings && db.bookings[k].userId == u.id
  {
    BookingResolvers.BookingsOf(db.bookings, u.id)
  }
}
