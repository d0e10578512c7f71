/** Values shared by every part of the model: optional values, results, the
    GraphQL errors the resolvers raise, and the external collaborators
    (password hashing, token signing, input schemas) the server only calls. */
module Common {

  /** A document id. Mongoose generates ObjectIds; the model uses naturals. */
  type Id = nat

  datatype Option<+T> = None | Some(value: T) {
    function GetOr(default: T): T {
      match this
      case Some(v) => v
      case None => default
    }

    /** This option when it holds a value, otherwise `other`. */
    function OrElse(other: Option<T>): Option<T> {
      if Some? then this else other
    }
  }

  datatype Result<+T> = Ok(value: T) | Err(error: Error)

  /** The errors a resolver can surface through the GraphQL error channel. */
  datatype Error =
    | NotAuthenticated
    | NotAuthorized
    | UserAlreadyExists
    | InvalidCredentials
    | InvalidInput
    | UserNotFound
    | InternalServerError
      /** Mongoose refused to save a document (a required path is missing). */
    | ValidationFailed
      /** A TypeError from reading a property of null. */
    | NullReference

  /** The message text the client receives for each error the resolvers
      throw themselves. `ValidationFailed` and `NullReference` come from
      Mongoose and from V8, whose messages name the model and the property;
      their texts here are stand-ins. */
  function Message(e: Error): (m: string)
    ensures e == NotAuthenticated <==> m == "Not authenticated"
    ensures e == NotAuthorized <==> m == "Not authorized"
    ensures e == InvalidCredentials <==> m == "Invalid credentials"
    ensures e == UserAlreadyExists <==> m == "User already exists"
    ensures e == InvalidInput <==> m == "Invalid input"
    ensures e == UserNotFound <==> m == "User not found"
    ensures e == InternalServerError <==> m == "Internal server error"
  {
    match e
    case NotAuthenticated => "Not authenticated"
    case NotAuthorized => "Not authorized"
    case UserAlreadyExists => "User already exists"
    case InvalidCredentials => "Invalid credentials"
    case InvalidInput => "Invalid input"
    case UserNotFound => "User not found"
    case InternalServerError => "Internal server error"
    case ValidationFailed => "Validation failed"
    case NullReference => "Cannot read properties of null"
  }

  /** The `extensions.code` attached to an error; only schema failures carry one. */
  function Code(e: Error): (c: Option<string>)
    ensures c.Some? <==> e == InvalidInput
    ensures c.Some? ==> c.value == "BAD_USER_INPUT"
  {
    if e == InvalidInput then Some("BAD_USER_INPUT") else None
  }

  /** What a session token encodes: `{ id, email }`. */
  datatype Claims = Claims(id: Id, email: string)

  /** The library calls the server makes and whose internals are not modelled:
      bcrypt's hashSync/compareSync, jsonwebtoken's sign/verify (with the
      secret and the one-hour expiry folded in), and the zod schemas
      createUserSchema and loginSchema. */
  datatype Externals = Externals(
    hash: (string, string) -> string,
    compare: (string, string) -> bool,
    sign: Claims -> string,
    verify: string -> Option<Claims>,
    createUserSchemaOk: (string, string, string, string) -> bool,
    loginSchemaOk: (string, string) -> bool)

  /** JavaScript's `s.startsWith(prefix)`. */
  predicate StartsWith(s: string, prefix: string) {
    |prefix| <= |s| && s[..|prefix|] == prefix
  }

  /** What a correct bcrypt promises: a password matches its own hash. */
  ghost predicate HashSound(ext: Externals) {
    forall p, s :: ext.compare(p, ext.hash(p, s))
  }

  /** What a correct jsonwebtoken promises for a fresh token: it is a
      non-empty string and verifies to the claims it was signed with. */
  ghost predicate JwtSound(ext: Externals) {
    forall c :: ext.sign(c) != "" && ext.verify(ext.sign(c)) == Some(c)
  }
}
