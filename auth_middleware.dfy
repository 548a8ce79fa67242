/** The route guards of app/lib/auth-middleware.ts: the authenticating loader with its
    near-expiry token refresh, the permission and admin gates, the non-throwing variants and the
    handler wrappers. */
module AuthMiddleware {
  import opened Wrappers
  import opened Http
  import opened Auth

  datatype AuthenticatedRequest = AuthenticatedRequest(user: User, session: AuthSession)

  /** The identity API as the guard sees it: the reply of `/auth/refresh` for a refresh token,
      the reply of `/auth/me` for an access token, and whether the server runs in development
      mode. */
  datatype Identity = Identity(refreshApi: string -> ApiReply<RefreshBody>,
                               meApi: string -> ApiReply<User>,
                               devMode: bool)

  /** A call the guard makes to the identity API. */
  datatype IdentityCall = RefreshCall(refreshToken: string) | UserFetch(token: string)

  /** One run of the guard: what it returns or throws, the identity calls it makes in order, and
      the contents of the session object it updates in place when it refreshes (None when it
      does not refresh). */
  datatype GuardRun = GuardRun(outcome: Outcome<AuthenticatedRequest>,
                               calls: seq<IdentityCall>,
                               refreshed: Option<SessionData>)

  /** Tokens are refreshed once fewer than this many milliseconds remain. */
  const RefreshWindowMs: int := 60000

  predicate InRefreshWindow(s: AuthSession, now: int)
  {
    now > s.expiresAt - RefreshWindowMs
  }

  /** The session with the refreshed credentials; the user stays the same. */
  function Renewed(s: AuthSession, t: TokenSet): AuthSession
  {
    s.(token := t.token, refreshToken := t.refreshToken, expiresAt := t.expiresAt)
  }

  /** The cookie session with the refreshed credentials written over the old ones. */
  function RenewedData(data: SessionData, t: TokenSet): SessionData
  {
    data["token" := Str(t.token)]["refreshToken" := Str(t.refreshToken)]["expiresAt" := Num(t.expiresAt)]
  }

  /** The last step of the guard: the user behind the session's token, a bare redirect to
      the login page when there is none, or the error of a user lookup that rejects. */
  function Resolve(s: AuthSession, id: Identity, calls: seq<IdentityCall>,
                   refreshed: Option<SessionData>): GuardRun
  {
    var calls' := calls + [UserFetch(s.token)];
    match GetCurrentUser(id.devMode, id.meApi(s.token))
    case Rejects => GuardRun(Crashed, calls', refreshed)
    case Resolves(None) => GuardRun(Threw(Redirect(LoginPath, None)), calls', refreshed)
    case Resolves(Some(user)) => GuardRun(Ok(AuthenticatedRequest(user, s)), calls', refreshed)
  }

  /** What `requireAuthLoader` decides: without a usable session, a redirect to the login page
      carrying the way back; within the last minute of the session, a refresh (a failed one
      ends in a bare redirect to the login page); then the user behind the current token. */
  function Guard(request: Request, redirectTo: Option<string>, now: int, id: Identity): GuardRun
  {
    match GetUserSession(request, now)
    case None =>
      GuardRun(Threw(Redirect(LoginRedirectUrl(RedirectTarget(request, redirectTo)), None)), [], None)
    case Some(s) =>
      if InRefreshWindow(s, now) then
        match RefreshAuthToken(id.refreshApi(s.refreshToken), now)
        case None => GuardRun(Threw(Redirect(LoginPath, None)), [RefreshCall(s.refreshToken)], None)
        case Some(t) =>
          Resolve(Renewed(s, t), id, [RefreshCall(s.refreshToken)], Some(RenewedData(GetSession(request), t)))
      else Resolve(s, id, [], None)
  }

  /** The steps of `requireAuthLoader`, in order: the session object is updated in place with
      `set` and the session record field by field. The updated session object is handed back
      so that the loaders below can differ only in what they do with it. */
  method RunGuard(request: Request, redirectTo: Option<string>, now: int, id: Identity)
    returns (outcome: Outcome<AuthenticatedRequest>, calls: seq<IdentityCall>, refreshed: Option<SessionData>)
    ensures GuardRun(outcome, calls, refreshed) == Guard(request, redirectTo, now, id)
  {
    calls := [];
    refreshed := None;
    var found := GetUserSession(request, now);
    if found.None? {
      outcome := Threw(Redirect(LoginRedirectUrl(RedirectTarget(request, redirectTo)), None));
      return;
    }
    var userSession := found.value;
    if now > userSession.expiresAt - 60000 {
      calls := calls + [RefreshCall(userSession.refreshToken)];
      var refreshResult := RefreshAuthToken(id.refreshApi(userSession.refreshToken), now);
      if refreshResult.None? {
        outcome := Threw(Redirect(LoginPath, None));
        return;
      }
      var t := refreshResult.value;
      var session := new SessionHandle(GetSession(request));
      session.Set("token", Str(t.token));
      session.Set("refreshToken", Str(t.refreshToken));
      session.Set("expiresAt", Num(t.expiresAt));
      userSession := userSession.(token := t.token);
      userSession := userSession.(refreshToken := t.refreshToken);
      userSession := userSession.(expiresAt := t.expiresAt);
      refreshed := Some(session.data);
    }
    calls := calls + [UserFetch(userSession.token)];
    var user := GetCurrentUser(id.devMode, id.meApi(userSession.token));
    if user.Rejects? {
      outcome := Crashed;
      return;
    }
    if user.value.None? {
      outcome := Threw(Redirect(LoginPath, None));
      return;
    }
    outcome := Ok(AuthenticatedRequest(user.value.value, userSession));
  }

  /** `requireAuthLoader` as written: the refreshed session object is dropped, so no response
      ever carries a Set-Cookie header from the guard. */
  method RequireAuthLoader(request: Request, redirectTo: Option<string>, now: int, id: Identity)
    returns (auth: Outcome<AuthenticatedRequest>, setCookie: Option<SetCookie>)
    ensures auth == Guard(request, redirectTo, now, id).outcome
    ensures setCookie == None
  {
    var calls, refreshed;
    auth, calls, refreshed := RunGuard(request, redirectTo, now, id);
    setCookie := None;
  }

  /** The Set-Cookie header that commits a refreshed session. */
  function CommitRefresh(refreshed: Option<SessionData>): Option<SetCookie>
  {
    match refreshed
    case None => None
    case Some(data) => Some(Commit(data))
  }

  /** `requireAuthLoader` as its comment intends: a refreshed session object is committed with
      the response, so the browser keeps the new credentials. */
  method RequireAuthLoaderCommitting(request: Request, redirectTo: Option<string>, now: int, id: Identity)
    returns (auth: Outcome<AuthenticatedRequest>, setCookie: Option<SetCookie>)
    ensures auth == Guard(request, redirectTo, now, id).outcome
    ensures setCookie == CommitRefresh(Guard(request, redirectTo, now, id).refreshed)
  {
    var calls, refreshed;
    auth, calls, refreshed := RunGuard(request, redirectTo, now, id);
    setCookie := CommitRefresh(refreshed);
  }

  /** `requireAuthAction` runs the same guard as the loader. */
  method RequireAuthAction(request: Request, redirectTo: Option<string>, now: int, id: Identity)
    returns (auth: Outcome<AuthenticatedRequest>, setCookie: Option<SetCookie>)
    ensures auth == Guard(request, redirectTo, now, id).outcome
    ensures setCookie == None
  {
    auth, setCookie := RequireAuthLoader(request, redirectTo, now, id);
  }

  // ---------------------------------------------------------------- properties of the guard

  /** Without a usable session the guard calls nothing and redirects to the login page, whose
      query gives back the page to return to. */
  lemma NoSessionRedirectsWithTarget(request: Request, redirectTo: Option<string>, now: int, id: Identity)
    requires GetUserSession(request, now).None?
    ensures var run := Guard(request, redirectTo, now, id);
      && run.calls == [] && run.refreshed == None
      && run.outcome.Threw? && run.outcome.response.Redirect?
      && UrlEncoding.QueryGet(UrlEncoding.SearchOf(run.outcome.response.location), "redirectTo")
         == Some(RedirectTarget(request, redirectTo))
  {
    LoginRedirectCarriesTarget(RedirectTarget(request, redirectTo));
  }

  /** The guard refreshes exactly when a usable session has less than a minute left, at most
      once, and always before it fetches the user; it fetches the user at most once, as its
      last call. */
  lemma RefreshOnlyInLastMinute(request: Request, redirectTo: Option<string>, now: int, id: Identity)
    ensures var run := Guard(request, redirectTo, now, id);
      var s := GetUserSession(request, now);
      && |run.calls| <= 2
      && (forall i :: 0 <= i < |run.calls| && run.calls[i].RefreshCall? ==> i == 0)
      && (forall i :: 0 <= i < |run.calls| && run.calls[i].UserFetch? ==> i == |run.calls| - 1)
      && ((|run.calls| > 0 && run.calls[0].RefreshCall?) <==>
            s.Some? && s.value.expiresAt - RefreshWindowMs < now <= s.value.expiresAt)
      && (|run.calls| > 0 && run.calls[0].RefreshCall? ==> run.calls[0].refreshToken == s.value.refreshToken)
  {
  }

  /** A refresh that fails ends the guard with a bare redirect to the login page. */
  lemma FailedRefreshRedirects(request: Request, redirectTo: Option<string>, now: int, id: Identity)
    requires GetUserSession(request, now).Some?
    requires InRefreshWindow(GetUserSession(request, now).value, now)
    requires !id.refreshApi(GetUserSession(request, now).value.refreshToken).Answered?
    ensures Guard(request, redirectTo, now, id).outcome == Threw(Redirect(LoginPath, None))
    ensures Guard(request, redirectTo, now, id).refreshed == None
  {
  }

  /** A user lookup that finds nobody, for whichever token the guard ends up with, ends the
      guard with a bare redirect to the login page. */
  lemma NoUserRedirects(request: Request, redirectTo: Option<string>, now: int, id: Identity)
    ensures var run := Guard(request, redirectTo, now, id);
      |run.calls| > 0 && run.calls[|run.calls| - 1].UserFetch?
      && GetCurrentUser(id.devMode, id.meApi(run.calls[|run.calls| - 1].token)) == Resolves(None)
      ==> run.outcome == Threw(Redirect(LoginPath, None))
  {
  }

  /** On success the guard hands back the user the identity API gives for the token it holds
      after any refresh, the session of the same user, and a session the user can still use:
      the old one, or one carrying exactly the refreshed credentials. */
  lemma AuthenticatedMeansResolved(request: Request, redirectTo: Option<string>, now: int, id: Identity)
    requires Guard(request, redirectTo, now, id).outcome.Ok?
    ensures var run := Guard(request, redirectTo, now, id);
      var a := run.outcome.value;
      var s := GetUserSession(request, now);
      && s.Some?
      && a.session.userId == s.value.userId
      && run.calls[|run.calls| - 1] == UserFetch(a.session.token)
      && GetCurrentUser(id.devMode, id.meApi(a.session.token)) == Resolves(Some(a.user))
      && (if InRefreshWindow(s.value, now)
          then run.refreshed.Some?
               && RefreshAuthToken(id.refreshApi(s.value.refreshToken), now)
                  == Some(TokenSet(a.session.token, a.session.refreshToken, a.session.expiresAt))
          else run.refreshed.None? && a.session == s.value)
  {
  }

  /** The guard only ever throws redirects. */
  lemma GuardThrowsOnlyRedirects(request: Request, redirectTo: Option<string>, now: int, id: Identity)
    ensures var o := Guard(request, redirectTo, now, id).outcome;
      o.Threw? ==> o.response.Redirect? && StatusCode(o.response) == 302
  {
  }

  // ---------------------------------------------------------------- the lost refresh

  /** A session about to expire, and an identity API that refreshes it for an hour. */
  const ExpiringCookie: SessionData := SessionFields("u1", "t1", "r1", 100000)
  const HourRefresh: Identity :=
    Identity(_ => Answered(RefreshBody("t2", "r2", 3600)),
             token => Answered(User("u1", "a@b.c", "A", None, "user")),
             false)

  /** As written, the guard refreshes the session 30 seconds before it expires and hands the
      handler credentials valid for another hour, but the browser keeps the old cookie: a
      second request one millisecond after the old expiry is sent to the login page. */
  lemma RefreshedSessionIsLost()
    ensures var first := Guard(Request("/dashboard", "", Some(ExpiringCookie)), None, 70000, HourRefresh);
      && first.outcome.Ok?
      && first.outcome.value.session.expiresAt == 3670000
      && first.calls == [RefreshCall("r1"), UserFetch("t2")]
    ensures var jar := NextCookie(Some(ExpiringCookie), None);
      Guard(Request("/dashboard", "", jar), None, 100001, HourRefresh).outcome
        == Threw(Redirect(LoginRedirectUrl("/dashboard"), None))
  {
    var r1 := Request("/dashboard", "", Some(ExpiringCookie));
    assert GetUserSession(r1, 70000) == Some(AuthSession("u1", "t1", "r1", 100000));
    assert RefreshAuthToken(HourRefresh.refreshApi("r1"), 70000) == Some(TokenSet("t2", "r2", 3670000));
    var r2 := Request("/dashboard", "", NextCookie(Some(ExpiringCookie), None));
    assert GetUserSession(r2, 100001).None?;
    assert RedirectTarget(r2, None) == "/dashboard";
  }

  /** When the refreshed session is committed, every later request up to the new expiry finds
      the refreshed session, provided the identity API issued non-empty tokens. */
  lemma CommittedRefreshSurvives(request: Request, redirectTo: Option<string>, now: int, id: Identity,
                                 path: string, search: string, later: int)
    requires Guard(request, redirectTo, now, id).outcome.Ok?
    requires Guard(request, redirectTo, now, id).refreshed.Some?
    requires var s := Guard(request, redirectTo, now, id).outcome.value.session;
      s.token != "" && s.refreshToken != "" && s.expiresAt != 0 && later <= s.expiresAt
    ensures var run := Guard(request, redirectTo, now, id);
      GetUserSession(Request(path, search, NextCookie(request.cookie, CommitRefresh(run.refreshed))), later)
        == Some(run.outcome.value.session)
  {
  }

  // ---------------------------------------------------------------- gates

  /** The permission table the middleware keeps for itself; a role it does not list has no
      permissions. */
  function GrantedPermissions(role: string): seq<string>
  {
    if role == "admin" then ["read", "write", "delete", "manage_users", "manage_settings"]
    else if role == "user" then ["read", "write"]
    else if role == "viewer" then ["read"]
    else []
  }

  /** The middleware's table grants exactly what the role table of the session utilities does. */
  lemma GrantedPermissionsAgree(user: User, permission: string)
    ensures permission in GrantedPermissions(user.role) <==> HasPermission(user, permission)
  {
  }

  /** `requirePermission`: the guard's outcome, or a thrown 403 when an authenticated user's role
      does not grant the permission. */
  function RequirePermissionGate(request: Request, permission: string, redirectTo: Option<string>,
                                 now: int, id: Identity): (r: Outcome<AuthenticatedRequest>)
    ensures var g := Guard(request, redirectTo, now, id).outcome;
      && (g.Ok? && !HasPermission(g.value.user, permission) ==> r == Threw(Status(403, "Forbidden")))
      && (g.Ok? && HasPermission(g.value.user, permission) ==> r == g)
      && (!g.Ok? ==> r == g)
  {
    var g := Guard(request, redirectTo, now, id).outcome;
    match g
    case Threw(_) => g
    case Crashed => g
    case Ok(auth) =>
      GrantedPermissionsAgree(auth.user, permission);
      if permission !in GrantedPermissions(auth.user.role) then Threw(Status(403, "Forbidden")) else g
  }

  /** `requireAdmin`: the guard's outcome, or a thrown 403 for an authenticated non-admin. */
  function RequireAdmin(request: Request, redirectTo: Option<string>, now: int, id: Identity)
    : (r: Outcome<AuthenticatedRequest>)
    ensures var g := Guard(request, redirectTo, now, id).outcome;
      && (r.Ok? <==> g.Ok? && g.value.user.role == "admin")
      && (r.Ok? ==> r == g)
      && (g.Ok? && g.value.user.role != "admin" ==>
            r == Threw(Status(403, "Forbidden - Admin access required")))
      && (!g.Ok? ==> r == g)
  {
    var g := Guard(request, redirectTo, now, id).outcome;
    match g
    case Threw(_) => g
    case Crashed => g
    case Ok(auth) =>
      if auth.user.role != "admin" then Threw(Status(403, "Forbidden - Admin access required")) else g
  }

  /** Passing the admin gate implies passing every permission gate. */
  lemma AdminPassesEveryPermission(request: Request, permission: string, redirectTo: Option<string>,
                                   now: int, id: Identity)
    requires RequireAdmin(request, redirectTo, now, id).Ok?
    requires permission in AllPermissions
    ensures RequirePermissionGate(request, permission, redirectTo, now, id)
            == RequireAdmin(request, redirectTo, now, id)
  {
  }

  /** `optionalAuth`: the authenticated request, or nothing when the guard throws a redirect;
      any other thrown response, and any other error, is thrown on. */
  function OptionalAuth(request: Request, now: int, id: Identity): (r: Outcome<Option<AuthenticatedRequest>>)
    ensures var g := Guard(request, None, now, id).outcome;
      && (r.Ok? && r.value.Some? <==> g.Ok?)
      && (g.Ok? ==> r.value.value == g.value)
      && (r == Ok(None) <==> g.Threw? && StatusCode(g.response) == 302)
      && (r.Threw? ==> g.Threw? && r.response == g.response && StatusCode(r.response) != 302)
      && (r.Crashed? <==> g.Crashed?)
  {
    match Guard(request, None, now, id).outcome
    case Ok(auth) => Ok(Some(auth))
    case Threw(response) => if StatusCode(response) == 302 then Ok(None) else Threw(response)
    case Crashed => Crashed
  }

  /** Since the guard throws no response but a redirect, `optionalAuth` never throws a response;
      it can still pass on an error from the user lookup. */
  lemma OptionalAuthThrowsNoResponse(request: Request, now: int, id: Identity)
    ensures !OptionalAuth(request, now, id).Threw?
  {
    GuardThrowsOnlyRedirects(request, None, now, id);
  }

  /** `isAuthenticated`: whether the guard lets the request through; whatever it throws counts
      as not authenticated. */
  function IsAuthenticated(request: Request, now: int, id: Identity): (r: bool)
    ensures r <==> Guard(request, None, now, id).outcome.Ok?
    ensures !r <==> OptionalAuth(request, now, id) == Ok(None) || OptionalAuth(request, now, id).Crashed?
  {
    GuardThrowsOnlyRedirects(request, None, now, id);
    Guard(request, None, now, id).outcome.Ok?
  }

  /** `getCurrentUserIfAuthenticated`: the user the guard resolves, or nothing. */
  function CurrentUserIfAuthenticated(request: Request, now: int, id: Identity): (r: Option<User>)
    ensures r.Some? <==> IsAuthenticated(request, now, id)
    ensures r.Some? ==> r.value == Guard(request, None, now, id).outcome.value.user
  {
    match Guard(request, None, now, id).outcome
    case Ok(auth) => Some(auth.user)
    case Threw(_) => None
    case Crashed => None
  }

  /** A user lookup whose 2xx body is not JSON separates the helpers: `optionalAuth` throws the
      error on, while `isAuthenticated` and `getCurrentUserIfAuthenticated` swallow it. */
  lemma UnreadableUserSplitsHelpers(request: Request, now: int, id: Identity)
    requires GetUserSession(request, now).Some?
    requires !InRefreshWindow(GetUserSession(request, now).value, now)
    requires !id.devMode && id.meApi(GetUserSession(request, now).value.token) == Unparsable
    ensures OptionalAuth(request, now, id) == Crashed
    ensures !IsAuthenticated(request, now, id) && CurrentUserIfAuthenticated(request, now, id) == None
  {
  }

  // ---------------------------------------------------------------- handler wrappers

  /** Runs the handler on the request and the gate's authenticated request, or throws what the
      gate threw. */
  function Wrap<R>(request: Request, gate: Outcome<AuthenticatedRequest>,
                   handler: (Request, AuthenticatedRequest) -> R): (r: Outcome<R>)
    ensures r.Ok? <==> gate.Ok?
    ensures r.Ok? ==> r.value == handler(request, gate.value)
    ensures r.Threw? <==> gate.Threw?
    ensures r.Threw? ==> r.response == gate.response
  {
    match gate
    case Ok(auth) => Ok(handler(request, auth))
    case Threw(response) => Threw(response)
    case Crashed => Crashed
  }

  /** `withAuth`: the handler runs only behind the guard. */
  function WithAuth<R>(request: Request, now: int, id: Identity,
                       handler: (Request, AuthenticatedRequest) -> R): (r: Outcome<R>)
    ensures r.Ok? <==> IsAuthenticated(request, now, id)
    ensures var g := Guard(request, None, now, id).outcome;
      && (r.Ok? ==> r.value == handler(request, g.value))
      && (r.Threw? <==> g.Threw?)
      && (r.Threw? ==> r.response == g.response)
  {
    Wrap(request, Guard(request, None, now, id).outcome, handler)
  }

  /** `withPermission`: the handler runs only for an authenticated user holding the permission. */
  function WithPermission<R>(permission: string, request: Request, now: int, id: Identity,
                             handler: (Request, AuthenticatedRequest) -> R): (r: Outcome<R>)
    ensures r.Ok? <==>
      var g := Guard(request, None, now, id).outcome;
      g.Ok? && HasPermission(g.value.user, permission)
    ensures var g := RequirePermissionGate(request, permission, None, now, id);
      && (r.Ok? ==> r.value == handler(request, g.value))
      && (r.Threw? <==> g.Threw?)
      && (r.Threw? ==> r.response == g.response)
  {
    Wrap(request, RequirePermissionGate(request, permission, None, now, id), handler)
  }

  /** `withAdmin`: the handler runs only for an authenticated admin. */
  function WithAdmin<R>(request: Request, now: int, id: Identity,
                        handler: (Request, AuthenticatedRequest) -> R): (r: Outcome<R>)
    ensures r.Ok? <==>
      var g := Guard(request, None, now, id).outcome;
      g.Ok? && g.value.user.role == "admin"
    ensures var g := RequireAdmin(request, None, now, id);
      && (r.Ok? ==> r.value == handler(request, g.value))
      && (r.Threw? <==> g.Threw?)
      && (r.Threw? ==> r.response == g.response)
  {
    Wrap(request, RequireAdmin(request, None, now, id), handler)
  }

  /** A viewer is turned away from a handler that needs `write`, with a 403 and without the
      handler running. */
  lemma ViewerCannotWrite<R>(request: Request, now: int, id: Identity,
                             handler: (Request, AuthenticatedRequest) -> R)
    requires Guard(request, None, now, id).outcome.Ok?
    requires Guard(request, None, now, id).outcome.value.user.role == "viewer"
    ensures WithPermission("write", request, now, id, handler) == Threw(Status(403, "Forbidden"))
  {
  }
}
