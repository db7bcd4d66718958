/** The guard chains of backend/utils/roleBasedAuth.js, and what running one in front of a
    handler does. */
module RoleBasedAuth {
  import opened Wrappers
  import opened Http
  import opened Jwt
  import opened AuthMiddleware

  /** A middleware of a chain. */
  datatype Guard = AuthGuard | AuthorizeGuard(roles: seq<string>)

  const AdminOnly: seq<Guard> := [AuthGuard, AuthorizeGuard(["admin"])]
  const InstructorOrAdmin: seq<Guard> := [AuthGuard, AuthorizeGuard(["instructor", "admin"])]
  const StudentOrAdmin: seq<Guard> := [AuthGuard, AuthorizeGuard(["student", "admin"])]
  const Authenticated: seq<Guard> := [AuthGuard]

  /** How a request leaves a chain: answered by a guard, raised out of `auth`, or handed to
      the route's handler with `req.user` as the guards left it. */
  datatype ChainOutcome = Answered(reply: Reply<()>) | Escaped(message: string) | Reached(user: Option<Claims>)

  /** Express running the guards in order; each either answers or calls `next`. */
  function Run(chain: seq<Guard>, lib: Library, env: Env, header: Option<string>, now: int, user: Option<Claims>): ChainOutcome
    decreases |chain|
  {
    if chain == [] then Reached(user)
    else
      match chain[0]
      case AuthGuard =>
        (match Auth(lib, env, header, now)
         case Rejected(r) => Answered(r)
         case Raised(m) => Escaped(m)
         case Next(c) => Run(chain[1..], lib, env, header, now, Some(c)))
      case AuthorizeGuard(roles) =>
        (match Authorize(roles, user)
         case Deny(r) => Answered(r)
         case Allow => Run(chain[1..], lib, env, header, now, user))
  }

  /** The outcome of `[auth, authorize(...roles)]`: no token is 401, a bad token raises, and
      a good one reaches the handler exactly when its role claim is listed (403 otherwise). */
  lemma {:induction false} RoleChain(roles: seq<string>, lib: Library, env: Env, header: Option<string>, now: int, user: Option<Claims>)
    ensures var o := Run([AuthGuard, AuthorizeGuard(roles)], lib, env, header, now, user);
            match Auth(lib, env, header, now)
            case Rejected(r) => o == Answered(Refused(401, NoToken))
            case Raised(m) => o == Escaped("Invalid token")
            case Next(c) =>
              if RoleOf(c).Some? && RoleOf(c).value in roles then o == Reached(Some(c))
              else o == Answered(Refused(403, AccessDenied))
  {
    var chain := [AuthGuard, AuthorizeGuard(roles)];
    assert chain[1..] == [AuthorizeGuard(roles)];
    assert chain[1..][1..] == [];
    var a := Auth(lib, env, header, now);
    if a.Next? {
      var c := a.user;
      assert Run(chain, lib, env, header, now, user) == Run([AuthorizeGuard(roles)], lib, env, header, now, Some(c));
      if RoleOf(c).Some? && RoleOf(c).value in roles {
        assert Authorize(roles, Some(c)) == Allow;
        assert Run([AuthorizeGuard(roles)], lib, env, header, now, Some(c)) == Run([], lib, env, header, now, Some(c));
      }
    }
  }

  /** `adminOnly` lets through only a valid token whose role is "admin". */
  lemma {:induction false} AdminOnlyAdmitsAdmins(lib: Library, env: Env, header: Option<string>, now: int)
    ensures var o := Run(AdminOnly, lib, env, header, now, None);
            o.Reached? <==> (Auth(lib, env, header, now).Next? && RoleOf(Auth(lib, env, header, now).user) == Some("admin"))
  {
    RoleChain(["admin"], lib, env, header, now, None);
  }

  /** `instructorOrAdmin` admits instructors and admins; a student's token gets 403. */
  lemma {:induction false} InstructorOrAdminRoles(lib: Library, env: Env, header: Option<string>, now: int)
    ensures var a := Auth(lib, env, header, now);
            var o := Run(InstructorOrAdmin, lib, env, header, now, None);
            && (o.Reached? <==> a.Next? && (RoleOf(a.user) == Some("instructor") || RoleOf(a.user) == Some("admin")))
            && (a.Next? && RoleOf(a.user) == Some("student") ==> o == Answered(Refused(403, AccessDenied)))
  {
    RoleChain(["instructor", "admin"], lib, env, header, now, None);
  }

  /** `studentOrAdmin` admits students and admins; an instructor's token gets 403. */
  lemma {:induction false} StudentOrAdminRoles(lib: Library, env: Env, header: Option<string>, now: int)
    ensures var a := Auth(lib, env, header, now);
            var o := Run(StudentOrAdmin, lib, env, header, now, None);
            && (o.Reached? <==> a.Next? && (RoleOf(a.user) == Some("student") || RoleOf(a.user) == Some("admin")))
            && (a.Next? && RoleOf(a.user) == Some("instructor") ==> o == Answered(Refused(403, AccessDenied)))
  {
    RoleChain(["student", "admin"], lib, env, header, now, None);
  }

  /** `authenticated` admits every valid token whatever its role, even one with no role. */
  lemma {:induction false} AuthenticatedAdmitsAnyToken(lib: Library, env: Env, header: Option<string>, now: int)
    ensures var a := Auth(lib, env, header, now);
            a.Next? ==> Run(Authenticated, lib, env, header, now, None) == Reached(Some(a.user))
  {
    assert Authenticated[1..] == [];
  }

  /** `authorize` alone, with no `auth` before it, refuses with 401 "Not authenticated". */
  lemma AuthorizeWithoutAuth(roles: seq<string>, lib: Library, env: Env, header: Option<string>, now: int)
    ensures Run([AuthorizeGuard(roles)], lib, env, header, now, None) == Answered(Refused(401, NotAuthenticated))
  {
  }

  /** Every chain runs `auth` first, so none of them ever answers "Not authenticated". */
  lemma {:induction false} AuthComesFirst(chain: seq<Guard>, lib: Library, env: Env, header: Option<string>, now: int)
    requires chain in [AdminOnly, InstructorOrAdmin, StudentOrAdmin, Authenticated]
    ensures chain[0] == AuthGuard
    ensures Run(chain, lib, env, header, now, None) != Answered(Refused(401, NotAuthenticated))
  {
    if chain == Authenticated {
      assert chain[1..] == [];
    } else {
      RoleChain(chain[1].roles, lib, env, header, now, None);
      assert chain == [AuthGuard, AuthorizeGuard(chain[1].roles)];
    }
  }
}
