/** Token issuing, checking and header parsing (backend/utils/jwt.js) over an abstract
    signing library. */
module Jwt {
  import opened Wrappers
  import opened Db
  import opened Text

  /** A claim value: a string, or a document id. */
  datatype Claim = Text(text: string) | Ref(id: Id)

  type Claims = map<string, Claim>

  /** The argument of the two generators: an object, or a bare value that they wrap as
      `{ id: value }`. */
  datatype Payload = Object(claims: Claims) | Scalar(value: Claim)

  /** What a signed token holds, as the signing library sees it. */
  datatype Token = Token(claims: Claims, key: string, issuedAt: int, expiresIn: string)

  /** The parts of the signing library the model does not look inside: the text form of a
      token, the decoding of a text back into a token (None when the text is malformed),
      and the number of seconds an `expiresIn` string such as "30d" stands for. */
  datatype Library = Library(encode: Token -> string, decode: string -> Option<Token>, seconds: string -> nat)

  /** Decoding recovers every encoded token, and no token encodes to the empty text. */
  ghost predicate Faithful(lib: Library) {
    forall t :: lib.decode(lib.encode(t)) == Some(t) && lib.encode(t) != ""
  }

  /** The environment variables the token code reads; None is an unset variable. */
  datatype Env = Env(
    jwtSecret: Option<string>,
    jwtExpire: Option<string>,
    refreshSecret: Option<string>,
    refreshExpire: Option<string>)

  /** JavaScript `a || b` on two environment variables: an unset or empty `a` gives `b`. */
  function Or(a: Option<string>, b: Option<string>): Option<string> {
    if a.Some? && a.value != "" then a else b
  }

  const DefaultAccessExpiry := "30d"
  const DefaultRefreshExpiry := "7d"

  function AccessExpiry(env: Env): string {
    Or(env.jwtExpire, Some(DefaultAccessExpiry)).value
  }

  function RefreshExpiry(env: Env): string {
    Or(env.refreshExpire, Some(DefaultRefreshExpiry)).value
  }

  /** The refresh key: `JWT_REFRESH_SECRET`, else `JWT_SECRET`. */
  function RefreshKey(env: Env): Option<string> {
    Or(env.refreshSecret, env.jwtSecret)
  }

  /** What gets signed: an object as it is, anything else wrapped as `{ id: payload }`. */
  function ClaimsOf(p: Payload): Claims {
    match p
    case Object(c) => c
    case Scalar(v) => map["id" := v]
  }

  /** `jwt.sign(claims, key, { expiresIn })` at time `now`; the library throws (None
      here) when the key is unset or empty. */
  function Sign(lib: Library, claims: Claims, key: Option<string>, expiresIn: string, now: int): Option<string> {
    if key.None? || key.value == "" then None
    else Some(lib.encode(Token(claims, key.value, now, expiresIn)))
  }

  /** `generateToken(payload)` */
  function GenerateToken(lib: Library, env: Env, p: Payload, now: int): (r: Option<string>)
    ensures r.None? <==> env.jwtSecret.None? || env.jwtSecret.value == ""
    ensures Faithful(lib) && r.Some? ==>
              lib.decode(r.value) == Some(Token(ClaimsOf(p), env.jwtSecret.value, now, AccessExpiry(env)))
  {
    Sign(lib, ClaimsOf(p), env.jwtSecret, AccessExpiry(env), now)
  }

  /** `generateRefreshToken(payload)` */
  function GenerateRefreshToken(lib: Library, env: Env, p: Payload, now: int): (r: Option<string>)
    ensures r.None? <==> RefreshKey(env).None? || RefreshKey(env).value == ""
    ensures r.None? <==> (env.refreshSecret.None? || env.refreshSecret == Some("")) && (env.jwtSecret.None? || env.jwtSecret == Some(""))
    ensures Faithful(lib) && r.Some? ==>
              lib.decode(r.value) == Some(Token(ClaimsOf(p), RefreshKey(env).value, now, RefreshExpiry(env)))
  {
    Sign(lib, ClaimsOf(p), RefreshKey(env), RefreshExpiry(env), now)
  }

  /** What `verifyToken` does: it returns the decoded claims or throws. */
  datatype Verified = Decoded(claims: Claims) | Thrown(message: string)

  /** The library's own check: the text decodes, was signed with `key`, and has not expired
      (`now` is before issue time plus lifetime). */
  predicate Accepts(lib: Library, token: string, key: Option<string>, now: int) {
    match lib.decode(token)
    case None => false
    case Some(t) =>
      key.Some? && key.value != "" && t.key == key.value && now < t.issuedAt + lib.seconds(t.expiresIn)
  }

  /** `verifyToken(token)`: checks against `JWT_SECRET` only, and turns every failure into
      the one error 'Invalid token'; it never returns a falsy value. */
  function VerifyToken(lib: Library, env: Env, token: string, now: int): (r: Verified)
    ensures r.Decoded? <==> Accepts(lib, token, env.jwtSecret, now)
    ensures r.Decoded? ==> lib.decode(token).Some? && r.claims == lib.decode(token).value.claims
    ensures r.Thrown? ==> r.message == "Invalid token"
  {
    if Accepts(lib, token, env.jwtSecret, now) then Decoded(lib.decode(token).value.claims)
    else Thrown("Invalid token")
  }

  /** `extractTokenFromHeader(h)`: the text after "Bearer ", or null (None). */
  function ExtractTokenFromHeader(h: Option<string>): (r: Option<string>)
    ensures r.Some? <==> h.Some? && StartsWith(h.value, "Bearer ")
    ensures r.Some? ==> h.value == "Bearer " + r.value
  {
    if h.None? || h.value == "" || !StartsWith(h.value, "Bearer ") then None
    else Some(h.value[7..])
  }

  /** Extraction undoes the prefixing the client performs. */
  lemma ExtractBearer(t: string)
    ensures ExtractTokenFromHeader(Some("Bearer " + t)) == Some(t)
  {
    assert StartsWith("Bearer " + t, "Bearer ");
  }

  /** An access token, freshly generated and not yet expired, verifies to the claims of its
      payload; a bare payload comes back as `{ id }`. */
  lemma AccessTokenRoundTrip(lib: Library, env: Env, p: Payload, issued: int, now: int)
    requires Faithful(lib)
    requires env.jwtSecret.Some? && env.jwtSecret.value != ""
    requires issued <= now < issued + lib.seconds(AccessExpiry(env))
    ensures GenerateToken(lib, env, p, issued).Some?
    ensures VerifyToken(lib, env, GenerateToken(lib, env, p, issued).value, now) == Decoded(ClaimsOf(p))
    ensures p.Scalar? ==> ClaimsOf(p) == map["id" := p.value]
  {
    var t := Token(ClaimsOf(p), env.jwtSecret.value, issued, AccessExpiry(env));
    assert lib.decode(lib.encode(t)) == Some(t);
  }

  /** Once its lifetime has passed, a token fails verification. */
  lemma ExpiredTokenThrows(lib: Library, env: Env, p: Payload, issued: int, now: int)
    requires Faithful(lib)
    requires env.jwtSecret.Some? && env.jwtSecret.value != ""
    requires now >= issued + lib.seconds(AccessExpiry(env))
    ensures VerifyToken(lib, env, GenerateToken(lib, env, p, issued).value, now) == Thrown("Invalid token")
  {
    var t := Token(ClaimsOf(p), env.jwtSecret.value, issued, AccessExpiry(env));
    assert lib.decode(lib.encode(t)) == Some(t);
  }

  /** With a refresh secret of its own, a refresh token is not accepted where an access
      token is expected. */
  lemma RefreshTokenIsNotAnAccessToken(lib: Library, env: Env, p: Payload, issued: int, now: int)
    requires Faithful(lib)
    requires env.refreshSecret.Some? && env.refreshSecret.value != ""
    requires env.refreshSecret != env.jwtSecret
    ensures GenerateRefreshToken(lib, env, p, issued).Some?
    ensures VerifyToken(lib, env, GenerateRefreshToken(lib, env, p, issued).value, now).Thrown?
  {
    var t := Token(ClaimsOf(p), env.refreshSecret.value, issued, RefreshExpiry(env));
    assert lib.decode(lib.encode(t)) == Some(t);
  }

  /** Without a refresh secret, refresh tokens are signed with `JWT_SECRET` and so pass
      `verifyToken` while their lifetime lasts. */
  lemma RefreshKeyFallback(lib: Library, env: Env, p: Payload, issued: int, now: int)
    requires Faithful(lib)
    requires env.refreshSecret.None? || env.refreshSecret == Some("")
    requires env.jwtSecret.Some? && env.jwtSecret.value != ""
    requires issued <= now < issued + lib.seconds(RefreshExpiry(env))
    ensures RefreshKey(env) == env.jwtSecret
    ensures VerifyToken(lib, env, GenerateRefreshToken(lib, env, p, issued).value, now) == Decoded(ClaimsOf(p))
  {
    var t := Token(ClaimsOf(p), env.jwtSecret.value, issued, RefreshExpiry(env));
    assert lib.decode(lib.encode(t)) == Some(t);
  }

  /** With the expiry variables unset (or empty), access tokens live "30d" and refresh
      tokens "7d": the refresh default is the shorter one. */
  lemma DefaultExpiries(env: Env)
    requires env.jwtExpire.None? || env.jwtExpire == Some("")
    requires env.refreshExpire.None? || env.refreshExpire == Some("")
    ensures AccessExpiry(env) == "30d" && RefreshExpiry(env) == "7d"
  {
  }
}
