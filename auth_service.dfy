/** The browser-side session store (frontend/src/services/authService.js): the `authToken`
    cookie, the `authToken` and `user` entries of localStorage, and the page location, as
    the service and its two axios interceptors change them. */
module AuthService {
  import opened Wrappers
  import opened Http
  import opened UserModel
  import opened AuthController

  /** The `user` entry of localStorage: the JSON of a user, or text that does not parse. */
  datatype StoredUser = Json(user: PublicUser) | Unparsable

  /** What `login` returns. */
  datatype LoginResult = LoggedIn(user: PublicUser, token: string) | LoginFailed(message: Option<string>)

  /** `response.data.status === 'success'` */
  predicate SaysSuccess<T>(b: Body<T>) {
    !b.Bare? && b.status == Success
  }

  /** `response.data.message` */
  function MessageOf<T>(b: Body<T>): Option<string> {
    if b.Bare? then None else b.message
  }

  /** The login handler's token pair and user, when its body has them. */
  function LoginDataOf(b: Body<LoginData>): Option<LoginData> {
    if b.Envelope? then b.data else None
  }

  /** axios resolves for a 2xx status and rejects for any other. */
  predicate Resolves(code: int) {
    200 <= code < 300
  }

  class Session {
    var cookie: Option<string>
    var storedToken: Option<string>
    var storedUser: Option<StoredUser>
    var location: string

    constructor (cookie: Option<string>, storedToken: Option<string>, storedUser: Option<StoredUser>, location: string)
      ensures this.cookie == cookie && this.storedToken == storedToken
      ensures this.storedUser == storedUser && this.location == location
    {
      this.cookie := cookie;
      this.storedToken := storedToken;
      this.storedUser := storedUser;
      this.location := location;
    }

    /** `getToken`: the localStorage token when it is non-empty, else the cookie's. */
    function GetToken(): (t: Option<string>)
      reads this
      ensures storedToken.Some? && storedToken.value != "" ==> t == storedToken
      ensures (storedToken.None? || storedToken.value == "") ==> t == cookie
    {
      if storedToken.Some? && storedToken.value != "" then storedToken else cookie
    }

    /** `isAuthenticated`: `!!getToken()`. */
    function IsAuthenticated(): (b: bool)
      reads this
      ensures b <==> (storedToken.Some? && storedToken.value != "") || (cookie.Some? && cookie.value != "")
    {
      GetToken().Some? && GetToken().value != ""
    }

    /** `getCurrentUser`: null when nothing is stored or the text does not parse. */
    function GetCurrentUser(): (u: Option<PublicUser>)
      reads this
      ensures u.Some? <==> storedUser.Some? && storedUser.value.Json?
      ensures u.Some? ==> storedUser == Some(Json(u.value))
    {
      if storedUser.Some? && storedUser.value.Json? then Some(storedUser.value.user) else None
    }

    /** `hasRole(role)`, read as a boolean. */
    function HasRole(role: string): (b: bool)
      reads this
      ensures b <==> storedUser.Some? && storedUser.value.Json? && storedUser.value.user.role == role
    {
      var u := GetCurrentUser();
      u.Some? && u.value.role == role
    }

    /** The request interceptor: the `Authorization` header, built from the cookie alone. */
    function AuthorizationHeader(): (h: Option<string>)
      reads this
      ensures h.Some? <==> cookie.Some? && cookie.value != ""
      ensures h.Some? ==> h.value == "Bearer " + cookie.value
    {
      if cookie.Some? && cookie.value != "" then Some("Bearer " + cookie.value) else None
    }

    /** The response interceptor, on a rejected request with the given status (None when no
        response arrived): a 401 removes the cookie, and only the cookie, and goes to /login. */
    method OnRejected(status: Option<int>)
      modifies this
      ensures status == Some(401) ==> cookie.None? && location == "/login"
      ensures status != Some(401) ==> cookie == old(cookie) && location == old(location)
      ensures storedToken == old(storedToken) && storedUser == old(storedUser)
      ensures status == Some(401) && old(storedToken).Some? && old(storedToken).value != "" ==>
                IsAuthenticated() && AuthorizationHeader().None?
    {
      if status == Some(401) {
        cookie := None;
        location := "/login";
      }
    }

    /** `login`, given the reply to the login request (None when no response arrived). A
        success stores the same access token in the cookie and in localStorage, and the
        user; any failure leaves the storage as it was, except that a 401 reply passes
        through the response interceptor. */
    method Login(reply: Option<Reply<LoginData>>) returns (r: LoginResult)
      modifies this
      ensures r.LoggedIn? <==> && reply.Some? && Resolves(reply.value.code) && SaysSuccess(reply.value.body)
                               && LoginDataOf(reply.value.body).Some?
      ensures r.LoggedIn? ==> && var d := LoginDataOf(reply.value.body).value;
                              && r == LoggedIn(d.user, d.tokens.access)
                              && cookie == Some(d.tokens.access) && storedToken == Some(d.tokens.access)
                              && storedUser == Some(Json(d.user)) && location == old(location)
      ensures r.LoginFailed? && reply.Some? && !Resolves(reply.value.code) && reply.value.code == 401 ==>
                && cookie.None? && location == "/login"
                && storedToken == old(storedToken) && storedUser == old(storedUser)
      ensures r.LoginFailed? && !(reply.Some? && reply.value.code == 401 && !Resolves(reply.value.code)) ==>
                && cookie == old(cookie) && storedToken == old(storedToken)
                && storedUser == old(storedUser) && location == old(location)
      ensures r.LoginFailed? && reply.Some? && Resolves(reply.value.code) && !SaysSuccess(reply.value.body) ==>
                r.message == MessageOf(reply.value.body)
      ensures r.LoginFailed? && (reply.None? || !Resolves(reply.value.code) || (SaysSuccess(reply.value.body) && LoginDataOf(reply.value.body).None?)) ==>
                r.message == Some(if reply.Some? && !Resolves(reply.value.code) && MessageOf(reply.value.body).Some? && MessageOf(reply.value.body).value != ""
                                  then MessageOf(reply.value.body).value else "Login failed")
    {
      if reply.None? {
        return LoginFailed(Some("Login failed"));
      }
      var res := reply.value;
      if !Resolves(res.code) {
        OnRejected(Some(res.code));
        var m := MessageOf(res.body);
        return LoginFailed(Some(if m.Some? && m.value != "" then m.value else "Login failed"));
      }
      if !SaysSuccess(res.body) {
        return LoginFailed(MessageOf(res.body));
      }
      var data := LoginDataOf(res.body);
      if data.None? {
        // Destructuring the missing `data` throws; the catch finds no `error.response`.
        return LoginFailed(Some("Login failed"));
      }
      var token := data.value.tokens.access;
      cookie := Some(token);
      storedToken := Some(token);
      storedUser := Some(Json(data.value.user));
      r := LoggedIn(data.value.user, token);
    }

    /** `logout`, given the status of the logout request's rejection, if it was rejected: the
        cookie, the token and the user are removed whatever happened to the request. */
    method Logout(rejected: Option<int>)
      modifies this
      ensures cookie.None? && storedToken.None? && storedUser.None?
      ensures !IsAuthenticated() && GetCurrentUser().None?
      ensures location == if rejected == Some(401) then "/login" else old(location)
    {
      OnRejected(rejected);
      cookie := None;
      storedToken := None;
      storedUser := None;
    }
  }
}
