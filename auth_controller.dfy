/** Login and self-registration (backend/controllers/authController.js), over an abstract
    password hasher. */
module AuthController {
  import opened Wrappers
  import opened Db
  import opened Http
  import opened Jwt
  import opened UserModel

  const InvalidCredentials := "Invalid email or password"
  const EmailTaken := "A user with this email already exists"

  /** The two bcrypt calls the handlers make: `hash(password, 10)` and
      `compare(password, hash)`. */
  datatype Crypt = Crypt(hash: string -> string, compare: (string, string) -> bool)

  /** A password matches its own hash. */
  ghost predicate Agrees(c: Crypt) {
    forall p :: c.compare(p, c.hash(p))
  }

  datatype Tokens = Tokens(access: string, refresh: string)

  /** The `data` of a successful login. */
  datatype LoginData = LoginData(tokens: Tokens, user: PublicUser)

  /** The access token's payload: `{ id, email, role }`. */
  function AccessClaims(u: User): (c: Claims)
    ensures c.Keys == {"id", "email", "role"}
  {
    map["id" := Ref(u.id), "email" := Text(u.email), "role" := Text(u.role)]
  }

  /** The refresh token's payload: `{ id }`. */
  function RefreshClaims(u: User): (c: Claims)
    ensures c.Keys == {"id"}
  {
    map["id" := Ref(u.id)]
  }

  /** Whether `email` and `password` name a stored user. */
  predicate Matches(users: map<Id, User>, i: Id, email: string, password: string, crypt: Crypt) {
    i in users && users[i].email == email && crypt.compare(password, users[i].password)
  }

  /** `login`: one refusal for an unknown email and for a wrong password alike; a 500 when a
      token cannot be signed (an unset secret). */
  function Login(users: map<Id, User>, n: nat, lib: Library, env: Env, crypt: Crypt, now: int, email: string, password: string): (r: Reply<LoginData>)
    requires Consistent(users, n)
    ensures r.code == 400 <==> !exists i :: Matches(users, i, email, password, crypt)
    ensures r.code == 400 ==> r == Refused(400, InvalidCredentials)
    ensures r.code == 200 ==> && r.body.Envelope? && r.body.data.Some?
                              && exists i :: Matches(users, i, email, password, crypt) && r.body.data.value.user == Public(users[i])
    ensures r.code in {200, 400, 500}
  {
    var found := FindByEmail(users, n, email);
    if found.None? then Refused(400, InvalidCredentials)
    else
      var u := users[found.value];
      assert crypt.compare(password, u.password) ==> Matches(users, found.value, email, password, crypt);
      if !crypt.compare(password, u.password) then Refused(400, InvalidCredentials)
      else
        var access := GenerateToken(lib, env, Object(AccessClaims(u)), now);
        var refresh := GenerateRefreshToken(lib, env, Object(RefreshClaims(u)), now);
        if access.None? || refresh.None? then Faulted(500, "Internal server error")
        else Succeeded(200, "Login successful", LoginData(Tokens(access.value, refresh.value), Public(u)))
  }

  /** A successful login hands out an access token that verifies to exactly
      `{ id, email, role }` of the user, and a refresh token carrying exactly `{ id }`. */
  lemma LoginTokens(users: map<Id, User>, n: nat, lib: Library, env: Env, crypt: Crypt, now: int, later: int, i: Id, password: string)
    requires Consistent(users, n) && Faithful(lib)
    requires i in users && Matches(users, i, users[i].email, password, crypt)
    requires env.jwtSecret.Some? && env.jwtSecret.value != ""
    requires now <= later < now + lib.seconds(AccessExpiry(env))
    ensures var r := Login(users, n, lib, env, crypt, now, users[i].email, password);
            && r == Succeeded(200, "Login successful", r.body.data.value)
            && r.body.data.value.user == PublicUser(i, users[i].name, users[i].email, users[i].role)
            && VerifyToken(lib, env, r.body.data.value.tokens.access, later) == Decoded(AccessClaims(users[i]))
            && lib.decode(r.body.data.value.tokens.refresh).Some?
            && lib.decode(r.body.data.value.tokens.refresh).value.claims == RefreshClaims(users[i])
  {
    var u := users[i];
    AccessTokenRoundTrip(lib, env, Object(AccessClaims(u)), now, later);
    var key := RefreshKey(env).value;
    var t := Token(RefreshClaims(u), key, now, RefreshExpiry(env));
    assert lib.decode(lib.encode(t)) == Some(t);
  }

  /** What registration leaves: the reply, the users, the id counter. */
  datatype Registered = Registered(reply: Reply<()>, users: map<Id, User>, nextId: nat)

  /** `register`: a taken email is refused; otherwise the user is stored with the hash of
      the password. */
  function Register(users: map<Id, User>, n: nat, crypt: Crypt, name: string, email: string, password: string, role: string): (s: Registered)
    requires Consistent(users, n)
    ensures (exists i :: i in users && users[i].email == email) ==> s == Registered(Refused(400, EmailTaken), users, n)
    ensures (forall i :: i in users ==> users[i].email != email) ==>
              && s.reply == Done(201, "User registered successfully")
              && n !in users
              && s.users == users[n := User(n, name, email, crypt.hash(password), role)]
              && s.nextId == n + 1
              && Consistent(s.users, s.nextId)
  {
    if FindByEmail(users, n, email).Some? then Registered(Refused(400, EmailTaken), users, n)
    else
      InsertKeepsConsistent(users, n, User(n, name, email, crypt.hash(password), role));
      Registered(Done(201, "User registered successfully"), users[n := User(n, name, email, crypt.hash(password), role)], n + 1)
  }

  /** `register` on the live collection. */
  method HandleRegister(store: UserStore, crypt: Crypt, name: string, email: string, password: string, role: string) returns (reply: Reply<()>)
    requires store.Valid()
    modifies store
    ensures store.Valid()
    ensures Registered(reply, store.users, store.nextId) == Register(old(store.users), old(store.nextId), crypt, name, email, password, role)
  {
    var existing := FindByEmail(store.users, store.nextId, email);
    if existing.Some? {
      return Refused(400, EmailTaken);
    }
    var _ := store.Insert(name, email, crypt.hash(password), role);
    reply := Done(201, "User registered successfully");
  }

  /** Whoever registers can log in with the same email and password straight away. */
  lemma {:induction false} RegisterThenLogin(users: map<Id, User>, n: nat, crypt: Crypt, lib: Library, env: Env, now: int,
                                             name: string, email: string, password: string, role: string)
    requires Consistent(users, n) && Agrees(crypt)
    requires env.jwtSecret.Some? && env.jwtSecret.value != ""
    requires Register(users, n, crypt, name, email, password, role).reply.code == 201
    ensures var s := Register(users, n, crypt, name, email, password, role);
            var r := Login(s.users, s.nextId, lib, env, crypt, now, email, password);
            && r.code == 200
            && r.body.data.value.user == PublicUser(n, name, email, role)
  {
    var s := Register(users, n, crypt, name, email, password, role);
    assert Matches(s.users, n, email, password, crypt);
    var found := FindByEmail(s.users, s.nextId, email);
    assert found == Some(n);
  }
}
