/** The Express middleware that turns an `Authorization: Bearer <token>`
    header into the request's user. Every failure (no header, another
    scheme, a token that does not verify, a user that no longer exists) is
    swallowed: the request simply goes on without a user. */
module AuthMiddleware {
  import opened Common
  import opened Db

  const BearerPrefix: string := "Bearer "

  /** `authHeader.startsWith('Bearer ') ? authHeader.slice(7, authHeader.length) : ''`. */
  function ExtractToken(authHeader: string): (token: string)
    ensures StartsWith(authHeader, BearerPrefix) <==> authHeader == BearerPrefix + token
    ensures !StartsWith(authHeader, BearerPrefix) ==> token == ""
  {
    if StartsWith(authHeader, BearerPrefix) then authHeader[7..] else ""
  }

  /** The token a client puts after the scheme is the token extracted. */
  lemma {:induction false} ExtractTokenRoundTrip(token: string)
    ensures ExtractToken(BearerPrefix + token) == token
  {
    assert (BearerPrefix + token)[..|BearerPrefix|] == BearerPrefix;
  }

  /** The user the middleware attaches for a given header (`None` when the
      header is absent), or `None` when it attaches no one. */
  function ResolveUser(db: Store, header: Option<string>, ext: Externals): (r: Option<User>)
    reads db
    ensures r.Some? <==> && ExtractToken(header.GetOr("")) != ""
                         && ext.verify(ExtractToken(header.GetOr(""))).Some?
                         && ext.verify(ExtractToken(header.GetOr(""))).value.id in db.users
    ensures r.Some? ==> r.value == db.users[ext.verify(ExtractToken(header.GetOr(""))).value.id]
  {
    var token := ExtractToken(header.GetOr(""));
    if token == "" then None
    else match ext.verify(token)
      case None => None
      case Some(claims) => FindById(db.users, claims.id)
  }

  /** Without an Authorization header nobody is attached. */
  lemma NoHeaderNoUser(db: Store, ext: Externals)
    ensures ResolveUser(db, None, ext) == None
  {
  }

  /** A token the server issued for a stored user authenticates that user. */
  lemma IssuedTokenAuthenticates(db: Store, ext: Externals, u: User)
    requires JwtSound(ext)
    requires u.id in db.users && db.users[u.id] == u
    ensures ResolveUser(db, Some(BearerPrefix + ext.sign(Claims(u.id, u.email))), ext) == Some(u)
  {
    var token := ext.sign(Claims(u.id, u.email));
    ExtractTokenRoundTrip(token);
    assert token != "" && ext.verify(token) == Some(Claims(u.id, u.email));
  }

  /** The part of the Express request the middleware reads and writes. */
  class Request {
    const authorization: Option<string>
    var user: Option<User>
    /** How many times the middleware has handed the request on (`next()`). */
    var nextCalls: nat

    constructor (authorization: Option<string>)
      ensures this.authorization == authorization && user == None && nextCalls == 0
    {
      this.authorization := authorization;
      user := None;
      nextCalls := 0;
    }
  }

  /** `authenticate(req, res, next)`: attaches the resolved user, if any, and
      calls `next()` exactly once whatever happened. */
  method Authenticate(req: Request, db: Store, ext: Externals)
    modifies req
    ensures req.user == (if ResolveUser(db, req.authorization, ext).Some?
                         then ResolveUser(db, req.authorization, ext) else old(req.user))
    ensures req.nextCalls == old(req.nextCalls) + 1
  {
    var authHeader := req.authorization.GetOr("");
    var token := ExtractToken(authHeader);
    if token != "" {
      var decoded := ext.verify(token);
      if decoded.Some? {
        var found := FindById(db.users, decoded.value.id);
        if found.Some? {
          req.user := found;
        }
      }
    }
    req.nextCalls := req.nextCalls + 1;
  }
}
