/** The session and permission utilities of app/lib/auth.ts: reading and writing the cookie
    session, the login redirect, logout, the identity-API proxies and the role table. */
module Auth {
  import opened Wrappers
  import opened Text
  import opened Http
  import UrlEncoding

  datatype User = User(id: string, email: string, name: string, avatar: Option<string>, role: string)

  datatype AuthSession = AuthSession(userId: string, token: string, refreshToken: string, expiresAt: int)

  /** The cookie's max age, in seconds. */
  const CookieMaxAgeSeconds: int := 60 * 60 * 24 * 7

  /** How long a new session lasts, in milliseconds: the cookie's max age. */
  const SessionLifetimeMs: int := 60 * 60 * 24 * 7 * 1000

  const DefaultLanding: string := "/dashboard"
  const LoginPath: string := "/auth/login"

  // ---------------------------------------------------------------- session store

  /** The session of a request: its decoded cookie, or an empty session. */
  function GetSession(request: Request): SessionData
  {
    request.cookie.GetOr(map[])
  }

  /** A session object as the cookie-session storage hands it out, changed in place by `set`. */
  class SessionHandle {
    var data: SessionData

    constructor (data: SessionData)
      ensures this.data == data
    {
      this.data := data;
    }

    method Set(key: string, v: Value)
      modifies this
      ensures data == old(data)[key := v]
    {
      data := data[key := v];
    }
  }

  /** A string field as `session.get` yields it, with a missing field (or one holding a number)
      read as the falsy "". */
  function StrField(data: SessionData, key: string): string
  {
    if key in data && data[key].Str? then data[key].s else ""
  }

  /** A numeric field, with a missing field (or one holding a string) read as the falsy 0. */
  function NumField(data: SessionData, key: string): int
  {
    if key in data && data[key].Num? then data[key].n else 0
  }

  /** The four fields a login writes. */
  function SessionFields(userId: string, token: string, refreshToken: string, expiresAt: int): SessionData
  {
    map["userId" := Str(userId), "token" := Str(token), "refreshToken" := Str(refreshToken),
        "expiresAt" := Num(expiresAt)]
  }

  /** The usable session of a request: all four fields present and truthy, and not yet expired
      (a session is still usable at the very millisecond it expires). */
  function GetUserSession(request: Request, now: int): (r: Option<AuthSession>)
    ensures var data := GetSession(request);
      r.Some? <==>
        (StrField(data, "userId") != "" && StrField(data, "token") != ""
         && StrField(data, "refreshToken") != "" && NumField(data, "expiresAt") != 0
         && now <= NumField(data, "expiresAt"))
    ensures r.Some? ==>
      var data := GetSession(request);
      && "userId" in data && data["userId"] == Str(r.value.userId) && r.value.userId != ""
      && "token" in data && data["token"] == Str(r.value.token) && r.value.token != ""
      && "refreshToken" in data && data["refreshToken"] == Str(r.value.refreshToken) && r.value.refreshToken != ""
      && "expiresAt" in data && data["expiresAt"] == Num(r.value.expiresAt) && r.value.expiresAt != 0
      && now <= r.value.expiresAt
  {
    var data := GetSession(request);
    var userId := StrField(data, "userId");
    var token := StrField(data, "token");
    var refreshToken := StrField(data, "refreshToken");
    var expiresAt := NumField(data, "expiresAt");
    if userId == "" || token == "" || refreshToken == "" || expiresAt == 0 then None
    else if now > expiresAt then None
    else Some(AuthSession(userId, token, refreshToken, expiresAt))
  }

  /** Logging in: a fresh session holding exactly the three credentials and an expiry seven
      days (the cookie's max age) from now, committed on a redirect to `redirectTo`, which
      defaults to the dashboard when the caller passes none. A request carrying that cookie
      reads the same four values back at any instant until the expiry, and nothing after. */
  method CreateUserSession(userId: string, token: string, refreshToken: string,
                           redirectTo: Option<string>, now: nat) returns (r: Response)
    ensures r.Redirect? && r.location == redirectTo.GetOr(DefaultLanding)
    ensures r.setCookie == Some(Commit(SessionFields(userId, token, refreshToken, now + SessionLifetimeMs)))
    ensures forall path, search, later ::
      GetUserSession(Request(path, search, NextCookie(None, r.setCookie)), later) ==
        if userId != "" && token != "" && refreshToken != "" && later <= now + SessionLifetimeMs
        then Some(AuthSession(userId, token, refreshToken, now + SessionLifetimeMs))
        else None
  {
    var session := new SessionHandle(map[]);
    var expiresAt := now + 60 * 60 * 24 * 7 * 1000;
    session.Set("userId", Str(userId));
    session.Set("token", Str(token));
    session.Set("refreshToken", Str(refreshToken));
    session.Set("expiresAt", Num(expiresAt));
    assert session.data == SessionFields(userId, token, refreshToken, expiresAt);
    r := Redirect(redirectTo.GetOr(DefaultLanding), Some(Commit(session.data)));
  }

  /** Where an unauthenticated visitor should come back to: the explicit target when one is
      given and non-empty, else the path and query of the request. */
  function RedirectTarget(request: Request, redirectTo: Option<string>): string
  {
    if redirectTo.Some? && redirectTo.value != "" then redirectTo.value
    else request.pathname + request.search
  }

  /** `/auth/login?` followed by the serialized query `redirectTo=<target>`. */
  function LoginRedirectUrl(target: string): string
  {
    LoginPath + "?" + UrlEncoding.SerializeQuery([("redirectTo", target)])
  }

  /** The login URL carries the target: parsing its query gives the target back exactly. */
  lemma LoginRedirectCarriesTarget(target: string)
    ensures UrlEncoding.QueryGet(UrlEncoding.SearchOf(LoginRedirectUrl(target)), "redirectTo") == Some(target)
  {
    var q := UrlEncoding.SerializeQuery([("redirectTo", target)]);
    UrlEncoding.SplitAtFirstFound(LoginPath, q, '?');
    assert LoginRedirectUrl(target) == LoginPath + ['?'] + q;
    UrlEncoding.QueryRoundTrip("redirectTo", target);
  }

  /** The session of the request, or a thrown redirect to the login page carrying the target. */
  function RequireAuth(request: Request, redirectTo: Option<string>, now: int): (r: Outcome<AuthSession>)
    ensures r.Ok? <==> GetUserSession(request, now).Some?
    ensures !r.Crashed?
    ensures r.Ok? ==> r.value == GetUserSession(request, now).value && now <= r.value.expiresAt
    ensures r.Threw? ==>
      && r.response == Redirect(LoginRedirectUrl(RedirectTarget(request, redirectTo)), None)
      && UrlEncoding.QueryGet(UrlEncoding.SearchOf(r.response.location), "redirectTo")
         == Some(RedirectTarget(request, redirectTo))
  {
    var userSession := GetUserSession(request, now);
    if userSession.None? then
      LoginRedirectCarriesTarget(RedirectTarget(request, redirectTo));
      Threw(Redirect(LoginRedirectUrl(RedirectTarget(request, redirectTo)), None))
    else Ok(userSession.value)
  }

  /** Logging out: a redirect to the login page whose Set-Cookie clears the session, so that the
      browser's next request has no usable session at any time. */
  function Logout(request: Request): (r: Response)
    ensures r == Redirect(LoginPath, Some(Destroy))
    ensures forall path, search, now ::
      GetUserSession(Request(path, search, NextCookie(request.cookie, r.setCookie)), now).None?
  {
    Redirect(LoginPath, Some(Destroy))
  }

  // ---------------------------------------------------------------- identity API

  /** A reply of the identity API: a 2xx status with a JSON body, a 2xx status whose body is
      not JSON, a non-2xx status, or a request that fails. */
  datatype ApiReply<T> = Answered(body: T) | Unparsable | Refused | Unreachable

  /** How an async call settles: it resolves to a value or rejects. */
  datatype Settled<T> = Resolves(value: T) | Rejects

  /** The body of a successful `/auth/refresh` reply; `expiresIn` is in seconds. */
  datatype RefreshBody = RefreshBody(token: string, refreshToken: string, expiresIn: int)

  datatype TokenSet = TokenSet(token: string, refreshToken: string, expiresAt: int)

  /** The new credentials from a refresh reply: the API's two tokens and an expiry `expiresIn`
      seconds from now; nothing when the reply is anything else, since every failure, including
      an unreadable body, is caught. */
  function RefreshAuthToken(reply: ApiReply<RefreshBody>, now: int): (r: Option<TokenSet>)
    ensures r.Some? <==> reply.Answered?
    ensures r.Some? ==>
      && r.value.token == reply.body.token
      && r.value.refreshToken == reply.body.refreshToken
      && r.value.expiresAt - now == reply.body.expiresIn * 1000
  {
    match reply
    case Answered(body) => Some(TokenSet(body.token, body.refreshToken, now + body.expiresIn * 1000))
    case Unparsable => None
    case Refused => None
    case Unreachable => None
  }

  const DevUserId: string := "dev-user-123"
  const DevUserName: string := "Development User"
  const DevAvatar: string := "\U{1F468}\U{200D}\U{1F4BB}"

  function DevUser(email: string): User
  {
    User(DevUserId, email, DevUserName, Some(DevAvatar), "admin")
  }

  /** The user behind a token: the fixed development user in development mode, else the API's
      answer, and nothing on a refused or failed call. A 2xx reply whose body is not JSON makes
      the call reject: its body is read outside the `try` that guards the request. */
  function GetCurrentUser(devMode: bool, reply: ApiReply<User>): (r: Settled<Option<User>>)
    ensures devMode ==> r == Resolves(Some(DevUser("dev@example.com")))
    ensures !devMode ==> (r.Rejects? <==> reply.Unparsable?)
    ensures !devMode ==> (r.Resolves? && r.value.Some? <==> reply.Answered?)
    ensures !devMode && r.Resolves? && r.value.Some? ==> r.value.value == reply.body
  {
    if devMode then Resolves(Some(DevUser("dev@example.com")))
    else
      match reply
      case Answered(user) => Resolves(Some(user))
      case Unparsable => Rejects
      case Refused => Resolves(None)
      // The catch block's development fallback cannot run: development mode returned earlier.
      case Unreachable => Resolves(None)
  }

  datatype AuthResult = AuthResult(user: User, token: string, refreshToken: string)

  function DevToken(now: nat): string
  {
    "dev-token-" + IntToString(now)
  }

  function DevRefreshToken(now: nat): string
  {
    "dev-refresh-token-" + IntToString(now)
  }

  /** Checking credentials: in development mode an admin development user with the given email
      and time-stamped tokens, else the API's answer, nothing on a refused or failed call, and a
      rejection when a 2xx body is not JSON. */
  function AuthenticateUser(devMode: bool, email: string, reply: ApiReply<AuthResult>, now: nat)
    : (r: Settled<Option<AuthResult>>)
    ensures devMode ==>
      r == Resolves(Some(AuthResult(DevUser(email), DevToken(now), DevRefreshToken(now))))
      && r.value.value.user.email == email && r.value.value.user.role == "admin"
    ensures !devMode ==> (r.Rejects? <==> reply.Unparsable?)
    ensures !devMode ==> (r.Resolves? && r.value.Some? <==> reply.Answered?)
    ensures !devMode && r.Resolves? && r.value.Some? ==> r.value.value == reply.body
  {
    if devMode then
      Resolves(Some(AuthResult(DevUser(email), DevToken(now), DevRefreshToken(now))))
    else
      match reply
      case Answered(result) => Resolves(Some(result))
      case Unparsable => Rejects
      case Refused => Resolves(None)
      // The catch block's development fallback cannot run: development mode returned earlier.
      case Unreachable => Resolves(None)
  }

  /** Development tokens issued at different milliseconds differ. */
  lemma DevTokensDistinct(t1: nat, t2: nat)
    requires t1 != t2
    ensures DevToken(t1) != DevToken(t2)
  {
    var prefix := "dev-token-";
    if DevToken(t1) == DevToken(t2) {
      assert NatToString(t1) == DevToken(t1)[|prefix|..];
      assert NatToString(t2) == DevToken(t2)[|prefix|..];
      ParseNatToString(t1);
      ParseNatToString(t2);
    }
  }

  // ---------------------------------------------------------------- permissions

  /** The role table: None for a role it does not list. */
  function RolePermissions(role: string): Option<seq<string>>
  {
    if role == "admin" then Some(["read", "write", "delete", "manage_users", "manage_settings"])
    else if role == "user" then Some(["read", "write"])
    else if role == "viewer" then Some(["read"])
    else None
  }

  const AllPermissions: set<string> := {"read", "write", "delete", "manage_users", "manage_settings"}

  /** Whether the user's role grants the permission: admin holds all five permissions, user
      exactly read and write, viewer exactly read, and any other role none. */
  function HasPermission(user: User, permission: string): (r: bool)
    ensures user.role == "admin" ==> (r <==> permission in AllPermissions)
    ensures user.role == "user" ==> (r <==> permission in {"read", "write"})
    ensures user.role == "viewer" ==> (r <==> permission == "read")
    ensures user.role !in {"admin", "user", "viewer"} ==> !r
  {
    match RolePermissions(user.role)
    case Some(granted) => permission in granted
    case None => false
  }

  /** Each role holds every permission of the role below it: viewer within user within admin. */
  lemma RolesNested(u: User, permission: string)
    ensures u.role == "viewer" && HasPermission(u, permission) ==> HasPermission(u.(role := "user"), permission)
    ensures u.role == "user" && HasPermission(u, permission) ==> HasPermission(u.(role := "admin"), permission)
  {
  }

  /** Nothing, or a thrown 403 when the user lacks the permission. */
  function RequirePermission(user: User, permission: string): (r: Outcome<()>)
    ensures r.Threw? <==> !HasPermission(user, permission)
    ensures r.Threw? ==> r.response == Status(403, "Forbidden")
  {
    if !HasPermission(user, permission) then Threw(Status(403, "Forbidden")) else Ok(())
  }
}
