/** Properties that span several parts of the system: the guards in front of the handlers,
    tokens against the user collection, and the browser's session store against the
    backend's middleware. */
module Scenarios {
  import opened Wrappers
  import opened Db
  import opened Http
  import opened Jwt
  import opened UserModel
  import opened CourseModel
  import opened AuthMiddleware
  import opened RoleBasedAuth
  import opened InstructorController
  import opened UserController
  import opened AuthController
  import opened AuthService

  /** An admin gets past `instructorOrAdmin`, but the course handlers filter on
      `instructor: req.user.id`: another instructor's course is "not found" to the admin for
      both update and delete, and nothing changes. */
  lemma {:induction false} AdminCannotEditOthersCourses(lib: Library, env: Env, header: Option<string>, now: int,
                                                        courses: map<Id, Course>, id: Id, caller: Id, b: CourseBody)
    requires Auth(lib, env, header, now).Next? && RoleOf(Auth(lib, env, header, now).user) == Some("admin")
    requires id in courses && courses[id].instructor != caller
    ensures Run(InstructorOrAdmin, lib, env, header, now, None).Reached?
    ensures Update(courses, id, caller, b) == Change(Refused(404, NotFoundToUpdate), courses)
    ensures Delete(courses, id, caller) == Change(Faulted(404, NotFoundToDelete), courses)
  {
    InstructorOrAdminRoles(lib, env, header, now);
  }

  /** `auth` trusts the token's claims: once a user is deleted, a token issued to them still
      passes `auth` until it expires, while their own profile is 404. */
  lemma {:induction false} DeletedUserKeepsToken(users: map<Id, User>, lib: Library, env: Env, i: Id, issued: int, now: int)
    requires Faithful(lib) && i in users
    requires env.jwtSecret.Some? && env.jwtSecret.value != ""
    requires issued <= now < issued + lib.seconds(AccessExpiry(env))
    ensures var token := GenerateToken(lib, env, Object(AccessClaims(users[i])), issued).value;
            && Auth(lib, env, Some("Bearer " + token), now) == Next(AccessClaims(users[i]))
            && GetLoggedInUser(users - {i}, i) == Refused(404, UserNotFound)
  {
    AccessTokenRoundTrip(lib, env, Object(AccessClaims(users[i])), issued, now);
    ExtractBearer(GenerateToken(lib, env, Object(AccessClaims(users[i])), issued).value);
  }

  /** A successful sign-in in the browser leads to requests that `auth` admits, with the
      claims of the signed-in user. */
  method SignInThenCall(s: Session, users: map<Id, User>, n: nat, lib: Library, env: Env, crypt: Crypt,
                        now: int, later: int, i: Id, password: string) returns (o: AuthOutcome)
    requires Consistent(users, n) && Faithful(lib)
    requires i in users && Matches(users, i, users[i].email, password, crypt)
    requires env.jwtSecret.Some? && env.jwtSecret.value != ""
    requires now <= later < now + lib.seconds(AccessExpiry(env))
    modifies s
    ensures s.IsAuthenticated() && s.GetCurrentUser() == Some(Public(users[i]))
    ensures o == Next(AccessClaims(users[i]))
  {
    var reply := Login(users, n, lib, env, crypt, now, users[i].email, password);
    LoginTokens(users, n, lib, env, crypt, now, later, i, password);
    var r := s.Login(Some(reply));
    ExtractBearer(reply.body.data.value.tokens.access);
    o := Auth(lib, env, s.AuthorizationHeader(), later);
  }

  /** After any 401, the browser still counts itself signed in through its localStorage
      token, but its requests carry no token, so `auth` refuses every one of them. */
  method StaleSession(s: Session, lib: Library, env: Env, now: int) returns (o: AuthOutcome)
    requires s.storedToken.Some? && s.storedToken.value != ""
    modifies s
    ensures s.IsAuthenticated() && s.location == "/login"
    ensures o == Rejected(Refused(401, NoToken))
  {
    s.OnRejected(Some(401));
    o := Auth(lib, env, s.AuthorizationHeader(), now);
  }
}
