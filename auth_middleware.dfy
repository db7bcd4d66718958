/** The two middlewares (backend/middleware/authMiddleware.js): `auth` turns the bearer token
    into `req.user`, and `authorize(...roles)` admits a user whose role is listed. */
module AuthMiddleware {
  import opened Wrappers
  import opened Http
  import opened Jwt

  const NoToken := "No token provided, authorization denied"
  const InvalidToken := "Invalid token, authorization denied"
  const NotAuthenticated := "Not authenticated"
  const AccessDenied := "Access denied."

  /** What `auth` does with a request: answers it, raises out of the handler (the error
      `verifyToken` throws, which `auth` does not catch), or calls `next` with the decoded
      claims as `req.user`. */
  datatype AuthOutcome = Rejected(reply: Reply<()>) | Raised(message: string) | Next(user: Claims)

  /** `auth`. The claims are trusted as they are: the user is not looked up again. */
  function Auth(lib: Library, env: Env, header: Option<string>, now: int): (o: AuthOutcome)
    ensures o.Rejected? <==> ExtractTokenFromHeader(header).None? || ExtractTokenFromHeader(header) == Some("")
    ensures o.Rejected? ==> o.reply == Refused(401, NoToken)
    ensures o.Raised? <==> && ExtractTokenFromHeader(header).Some? && ExtractTokenFromHeader(header) != Some("")
                           && !Accepts(lib, ExtractTokenFromHeader(header).value, env.jwtSecret, now)
    ensures o.Raised? ==> o.message == "Invalid token"
    ensures o.Next? ==> o.user == lib.decode(ExtractTokenFromHeader(header).value).value.claims
  {
    var token := ExtractTokenFromHeader(header);
    if token.None? || token.value == "" then Rejected(Refused(401, NoToken))
    else
      match VerifyToken(lib, env, token.value, now)
      case Thrown(m) => Raised(m)
      // A decoded payload is an object, never falsy: the 401 "Invalid token" reply of the
      // source has no path leading to it.
      case Decoded(claims) => Next(claims)
  }

  /** No request gets the 401 "Invalid token" reply: a bad token raises instead. */
  lemma InvalidTokenReplyUnreachable(lib: Library, env: Env, header: Option<string>, now: int)
    ensures Auth(lib, env, header, now) != Rejected(Refused(401, InvalidToken))
  {
  }

  /** A request whose `user` field `auth` fills in. */
  class Request {
    var authorization: Option<string>
    var user: Option<Claims>

    constructor (authorization: Option<string>)
      ensures this.authorization == authorization && user.None?
    {
      this.authorization := authorization;
      user := None;
    }
  }

  /** `auth` on a live request: `req.user = decoded` just before `next()`. */
  method Authenticate(req: Request, lib: Library, env: Env, now: int) returns (o: AuthOutcome)
    modifies req`user
    ensures o == Auth(lib, env, req.authorization, now)
    ensures o.Next? ==> req.user == Some(o.user)
    ensures !o.Next? ==> req.user == old(req.user)
  {
    o := Auth(lib, env, req.authorization, now);
    if o.Next? {
      req.user := Some(o.user);
    }
  }

  /** `req.user.role`: the role claim when it is a string; undefined otherwise. */
  function RoleOf(user: Claims): Option<string> {
    if "role" in user && user["role"].Text? then Some(user["role"].text) else None
  }

  /** What `authorize` does: answers, or calls `next`. */
  datatype Gate = Deny(reply: Reply<()>) | Allow

  /** `authorize(...roles)`: 401 without a user, 403 when the role is not listed (an absent
      role never is), `next` otherwise. */
  function Authorize(roles: seq<string>, user: Option<Claims>): (g: Gate)
    ensures user.None? ==> g == Deny(Refused(401, NotAuthenticated))
    ensures user.Some? ==> (g == Allow <==> RoleOf(user.value).Some? && RoleOf(user.value).value in roles)
    ensures user.Some? && g != Allow ==> g == Deny(Refused(403, AccessDenied))
  {
    if user.None? then Deny(Refused(401, NotAuthenticated))
    else
      var role := RoleOf(user.value);
      if role.None? || role.value !in roles then Deny(Refused(403, AccessDenied)) else Allow
  }
}
