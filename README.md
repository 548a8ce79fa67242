# Omni dashboard: authentication, sessions and permissions in Dafny

This project models the part of the Omni dashboard (a Remix application) that holds real
logic. That is the authentication, session and permission subsystem, together with the small
helpers of the dashboard pages. It covers the following areas:

- **Cookie session** (`app/lib/auth.ts`):
  - reading a usable session;
  - creating one at login;
  - the login redirect that carries the way back;
  - logout;
  - the identity-API proxies;
  - the role table.
- **Server guard** (`app/lib/auth-middleware.ts`):
  - the ordered decision of `requireAuthLoader`: no session, refresh window, refresh, user lookup;
  - the 403 gates;
  - the helpers that swallow redirects;
  - the `with*` handler wrappers.
- **Client auth state** (`app/lib/auth-context.tsx`): the `AuthProvider` state changed by login, logout and the loader sync, and the permission hook.
- **Login and registration routes** (`app/routes/auth.login.tsx`, `app/routes/auth.register.tsx`): their loaders and their actions, which validate field by field and then branch on what the backend says.
- **Client route guard** (`app/components/route-guard.tsx`) and its conditional-rendering helpers.
- **Dashboard shell** (`app/components/dashboard-layout.tsx`): avatar initials, breadcrumbs, the active navigation item, and the layout flags.
- **Performance monitor** (`app/lib/monitoring.ts`): a buffer bounded to 100 metrics, its timers, the error report, and the lazily created shared instances.
- **Notifications page** (`app/routes/dashboard.notifications.tsx`): relative times, counters and the authenticated loader.

### How the model is built

Each source file becomes one module. Four helper modules support them:

| module | what it provides |
|---|---|
| `Wrappers` | `Option`, `Result` |
| `Text` | JavaScript's `split`/`join`, ASCII upper-casing, decimal rendering |
| `UrlEncoding` | the `application/x-www-form-urlencoded` serializer and parser of the WHATWG URL Standard (sections 5.1 and 5.2) over UTF-8 (RFC 3629), as used by `URLSearchParams` |
| `Http` | requests, responses, cookie values, and an outcome that is either a returned value, a thrown `Response`, or another thrown error |

**Outside world as parameters.** The clock is a parameter. The identity API is an `Identity` value. It holds:

- the replies of `/auth/refresh` and `/auth/me` as functions of the token sent;
- the development-mode flag.

**Stateful code as imperative Dafny.** Code that changes state in place keeps that form:

- `SessionHandle.Set` is the cookie session's `set`.
- `AuthProvider` and `LayoutState` are classes.
- `PerformanceMonitor` and `Instances` are classes.
- The breadcrumb loop is a `for` loop.
- The validation in the two form actions runs through successive `if`s.

**Methods and specification functions.** The guard is given twice:

- `Guard` is a specification function.
- `RunGuard` is a method that performs the same steps in place, proved equal to `Guard`.

**Session expiry.** A session is rejected only when `now > expiresAt` (app/lib/auth.ts:83-85). So it is still usable at the very millisecond it expires, and the model follows that.

## Model

| member | source | states |
|---|---|---|
| Auth.GetUserSession | app/lib/auth.ts:71-93 | a session is returned iff userId, token and refreshToken are non-empty strings, expiresAt is a non-zero number and now <= expiresAt; the returned session holds exactly the four cookie values |
| Auth.SessionHandle.Set | app/lib/auth.ts:41-47 | `set` overwrites one field of the session object and keeps the others |
| Auth.CreateUserSession | app/lib/auth.ts:50-69 | redirects to redirectTo (default "/dashboard"); commits exactly the four fields, with expiresAt = now + 604800000 (the cookie's 7-day max age); a request carrying that cookie reads the same four values back at every instant up to the expiry, and no session after it |
| Auth.LoginRedirectCarriesTarget | app/lib/auth.ts:99-104 | parsing the query of `/auth/login?redirectTo=…` gives the target back exactly |
| Auth.RequireAuth | app/lib/auth.ts:95-107 | returns the usable session unchanged, else throws a redirect to the login URL carrying the explicit redirectTo or pathname+search |
| Auth.Logout | app/lib/auth.ts:109-116 | redirects to "/auth/login" destroying the session, so no later request carrying the resulting cookie has a usable session |
| Auth.RefreshAuthToken | app/lib/auth.ts:119-148 | new tokens iff the reply is a 2xx JSON body; tokens are the API's and expiresAt - now == expiresIn * 1000 |
| Auth.GetCurrentUser | app/lib/auth.ts:151-192 | development user in development mode; otherwise the API's user on a JSON 2xx reply, null on a refused or failed call, and a rejection when a 2xx body is not JSON |
| Auth.AuthenticateUser | app/lib/auth.ts:195-250 | development mode yields an admin with the submitted email and time-stamped tokens; otherwise the API's result, null, or a rejection on an unreadable 2xx body |
| Auth.DevTokensDistinct | app/lib/auth.ts:213-214 | development tokens issued at different milliseconds differ |
| Auth.HasPermission | app/lib/auth.ts:253-261 | admin holds exactly the five permissions, user exactly read and write, viewer exactly read, any other role none |
| Auth.RolesNested | app/lib/auth.ts:253-261 | viewer's permissions are within user's, user's within admin's |
| Auth.RequirePermission | app/lib/auth.ts:263-267 | throws a 403 iff the permission is not held |
| AuthMiddleware.RunGuard | app/lib/auth-middleware.ts:17-65 | the in-place steps (session `set`, field overwrites, the two identity calls) produce exactly the outcome, call list and updated session object of `Guard` |
| AuthMiddleware.RequireAuthLoader | app/lib/auth-middleware.ts:37-48 | as written: the guard's outcome, and never a Set-Cookie for the refreshed session |
| AuthMiddleware.RequireAuthLoaderCommitting | app/lib/auth-middleware.ts:37-48 | corrected: the same outcome, with the refreshed session committed |
| AuthMiddleware.RequireAuthAction | app/lib/auth-middleware.ts:68-73 | the action guard decides exactly as the loader guard |
| AuthMiddleware.NoSessionRedirectsWithTarget | app/lib/auth-middleware.ts:21-29 | without a usable session: a redirect carrying the target, no refresh call and no user fetch |
| AuthMiddleware.RefreshOnlyInLastMinute | app/lib/auth-middleware.ts:32-33 | a refresh is attempted iff expiresAt - 60000 < now <= expiresAt, and only before the user fetch |
| AuthMiddleware.FailedRefreshRedirects | app/lib/auth-middleware.ts:49-52 | a failed refresh throws a redirect to exactly "/auth/login" |
| AuthMiddleware.NoUserRedirects | app/lib/auth-middleware.ts:55-59 | a user lookup finding nobody, with the possibly refreshed token, throws a redirect to exactly "/auth/login" |
| AuthMiddleware.AuthenticatedMeansResolved | app/lib/auth-middleware.ts:35-64 | an authenticated result keeps the userId, carries the refreshed credentials when a refresh happened (the cookie's otherwise), and its user is what the lookup of the current token gave |
| AuthMiddleware.GuardThrowsOnlyRedirects | app/lib/auth-middleware.ts:17-65 | every response the guard throws is a 302 redirect |
| AuthMiddleware.RefreshedSessionIsLost | app/lib/auth-middleware.ts:37-48 | after a successful refresh, the next request, still carrying the old cookie, is redirected to the login page once the old expiry passes, although the refreshed session would still be valid |
| AuthMiddleware.CommittedRefreshSurvives | app/lib/auth-middleware.ts:37-48 | when the refreshed session is committed, the next request reads the refreshed credentials back |
| AuthMiddleware.GrantedPermissionsAgree | app/lib/auth-middleware.ts:83-89 | the middleware's role table agrees with the one in auth.ts |
| AuthMiddleware.RequirePermissionGate | app/lib/auth-middleware.ts:76-96 | 403 "Forbidden" iff an authenticated user lacks the permission; otherwise the guard's outcome unchanged |
| AuthMiddleware.RequireAdmin | app/lib/auth-middleware.ts:99-110 | 403 "Forbidden - Admin access required" iff an authenticated user is not an admin; otherwise the guard's outcome |
| AuthMiddleware.AdminPassesEveryPermission | app/lib/auth-middleware.ts:83-110 | whoever passes the admin gate passes every permission gate |
| AuthMiddleware.OptionalAuth | app/lib/auth-middleware.ts:113-123 | the authenticated request, null iff the guard threw a 302, anything else thrown on |
| AuthMiddleware.OptionalAuthThrowsNoResponse | app/lib/auth-middleware.ts:113-123 | optionalAuth never throws a response |
| AuthMiddleware.IsAuthenticated | app/lib/auth-middleware.ts:126-133 | true iff the guard completes; false iff optionalAuth gives null or throws |
| AuthMiddleware.CurrentUserIfAuthenticated | app/lib/auth-middleware.ts:136-143 | the guard's user iff authenticated, else null |
| AuthMiddleware.UnreadableUserSplitsHelpers | app/lib/auth-middleware.ts:113-143 | when the user lookup rejects, optionalAuth throws while isAuthenticated gives false and getCurrentUserIfAuthenticated null |
| AuthMiddleware.Wrap | app/lib/auth-middleware.ts:146-174 | the handler runs, on the gate's result, iff the gate succeeds; a gate failure passes unchanged |
| AuthMiddleware.WithAuth | app/lib/auth-middleware.ts:146-153 | the handler runs, on the guard's result, iff the request is authenticated; a redirect the guard throws passes unchanged |
| AuthMiddleware.WithPermission | app/lib/auth-middleware.ts:156-164 | the handler runs, on the gate's result, iff an authenticated user holds the permission; the gate's redirect or 403 passes unchanged |
| AuthMiddleware.WithAdmin | app/lib/auth-middleware.ts:167-174 | the handler runs, on the gate's result, iff an authenticated user is an admin; the gate's redirect or 403 passes unchanged |
| AuthMiddleware.ViewerCannotWrite | app/lib/auth-middleware.ts:156-164 | a viewer gets a 403 from a `write` handler |
| AuthContext.UseAuth | app/lib/auth-context.tsx:16-22 | the context, or the error "useAuth must be used within an AuthProvider" |
| AuthContext.AuthProvider.constructor | app/lib/auth-context.tsx:29-31 | starts with the loader's user and not loading |
| AuthContext.AuthProvider.IsAuthenticated | app/lib/auth-context.tsx:34 | true iff there is a user |
| AuthContext.AuthProvider.Login | app/lib/auth-context.tsx:36-61 | loading is set then cleared on every path; returns true iff the response is ok; revalidates only then; never assigns the user |
| AuthContext.AuthProvider.Logout | app/lib/auth-context.tsx:63-78 | after a response the user is cleared and the window goes to the login page; a failed fetch leaves the user; loading is cleared on every path |
| AuthContext.AuthProvider.RefreshUser | app/lib/auth-context.tsx:80-82 | only requests a revalidation |
| AuthContext.AuthProvider.SyncInitialUser | app/lib/auth-context.tsx:85-89 | afterwards the user is the loader's user |
| AuthContext.HasPermission | app/lib/auth-context.tsx:111-121 | false without a user, else agrees with the server's role table |
| AuthContext.RequirePermission | app/lib/auth-context.tsx:123-129 | true iff the permission is held, else the error "Permission denied: <permission>" |
| AuthContext.Flags | app/lib/auth-context.tsx:134-136 | at most one role flag holds and none without a user; an admin holds every permission, a viewer only read |
| Forms.GuestLoader | app/routes/auth.login.tsx:10-16 | redirects to "/dashboard" iff a usable session exists, else serves the page; the registration page's loader (app/routes/auth.register.tsx:10-16) is the same |
| LoginRoute.FieldErrors | app/routes/auth.login.tsx:28-34 | an email error iff the email is missing, empty or has no '@'; a password error iff it is missing or shorter than 6 characters |
| LoginRoute.RedirectToField | app/routes/auth.login.tsx:23 | the submitted redirectTo, or "/dashboard" when it is missing or empty |
| LoginRoute.Action | app/routes/auth.login.tsx:19-65 | field errors give 400 with all of them and no authentication; null credentials give 400 "Invalid email or password"; a rejection gives 500; success commits the user's session on a redirect to redirectTo |
| LoginRoute.DevModeLogsAnyoneIn | app/lib/auth.ts:202-215 | in development mode every well-formed login succeeds as an admin under the submitted email |
| LoginRoute.PageRedirectTo | app/routes/auth.login.tsx:74 | the page's target is never empty |
| LoginRoute.BounceAndReturn | app/routes/auth.login.tsx:74-108 | a visitor bounced by requireAuth comes back, after logging in, to the exact path and query it was bounced from |
| RegisterRoute.FieldErrors | app/routes/auth.register.tsx:27-53 | each of the four checks independently: name shorter than 2, bad email, password shorter than 8, confirmation differing |
| RegisterRoute.ValidFormHasNoErrors | app/routes/auth.register.tsx:27-53 | a form meeting every rule has no errors |
| RegisterRoute.Action | app/routes/auth.register.tsx:19-82 | field errors give 400 without a backend call; a refusal gives 400 with the backend's message or "Registration failed"; a throw gives 500; success redirects to "/auth/login?message=registration-success" |
| RouteGuard.Render | app/components/route-guard.tsx:33-102 | loading first; then the fallback or auth-required view for a missing user; then the fallback or access-denied view for a missing permission; children iff none applies |
| RouteGuard.Navigation | app/components/route-guard.tsx:15-30 | the effect's rule: navigate to redirectTo (default "/auth/login") iff not loading, auth required (default true) and no user; what the page shows meanwhile is NavigationShowsAuthRequired |
| RouteGuard.ChildrenOnlyWhenAllowed | app/components/route-guard.tsx:26-102 | children are never shown while navigating away, nor to a user lacking the required permission |
| RouteGuard.NavigationShowsAuthRequired | app/components/route-guard.tsx:26-73 | whenever it navigates away it shows the auth-required view or the fallback |
| RouteGuard.RenderIfAuthenticated | app/components/route-guard.tsx:124-126 | the source's one-line rule: the component iff there is a user |
| RouteGuard.RenderIfPermission | app/components/route-guard.tsx:128-130 | the component iff the permission is held |
| RouteGuard.RenderIfRole | app/components/route-guard.tsx:132-134 | as written: the same decision as renderIfPermission on the role name |
| RouteGuard.RenderIfRoleNeverRendersRoles | app/components/route-guard.tsx:132-134 | for "admin", "user" and "viewer" nothing is ever rendered |
| RouteGuard.RenderIfRoleIntended | app/components/route-guard.tsx:132-134 | corrected: the component iff the user has the role; its agreement with the role flags is RenderIfRoleMatchesFlags |
| RouteGuard.RenderIfRoleMatchesFlags | app/lib/auth-context.tsx:134-136 | the corrected helper agrees with isAdmin, isUser and isViewer |
| DashboardLayout.GetInitials | app/components/dashboard-layout.tsx:68-71 | "U" without a user or a name; else the upper-cased first characters of the first two non-empty words |
| DashboardLayout.BlankNameHasNoInitials | app/components/dashboard-layout.tsx:68-71 | every non-empty name made only of spaces yields the empty string, not "U" |
| DashboardLayout.Segments | app/components/dashboard-layout.tsx:74 | segments are non-empty and contain no '/' |
| DashboardLayout.Label | app/components/dashboard-layout.tsx:84-88 | a label has the length of its segment |
| DashboardLayout.CrumbsOf | app/components/dashboard-layout.tsx:81-90 | one crumb per segment, in order, linking to the path up to that segment |
| DashboardLayout.GetBreadcrumbs | app/components/dashboard-layout.tsx:73-93 | exactly [Overview, /dashboard] on the dashboard; else one crumb per segment as above |
| DashboardLayout.HrefsArePrefixes | app/components/dashboard-layout.tsx:81-83 | each crumb's link is a proper prefix of every later one |
| DashboardLayout.SplitPathOf | app/components/dashboard-layout.tsx:74-83 | splitting a crumb link gives its segments back |
| DashboardLayout.LastCrumbNamesThePage | app/components/dashboard-layout.tsx:73-93 | the last crumb links to a path with the same segments as the page |
| DashboardLayout.IsActive | app/components/dashboard-layout.tsx:213-215 | the source's one-line rule: "/dashboard" is active iff the path equals it, any other item iff the path starts with its link; that at most one item is active is AtMostOneNavItemActive |
| DashboardLayout.AtMostOneNavItemActive | app/components/dashboard-layout.tsx:97-106 | at most one navigation item is active for any path |
| DashboardLayout.LayoutState.constructor | app/components/dashboard-layout.tsx:25-28 | every flag starts false, and the keydown listener registered at mounting sees an expanded sidebar |
| DashboardLayout.LayoutState.ToggleMobileMenu | app/components/dashboard-layout.tsx:36 | flips only the mobile-menu flag |
| DashboardLayout.LayoutState.ToggleSidebar | app/components/dashboard-layout.tsx:37 | flips only the sidebar flag |
| DashboardLayout.LayoutState.ToggleUserDropdown | app/components/dashboard-layout.tsx:38 | flips only the user-menu flag |
| DashboardLayout.LayoutState.SetSearchFocused | app/components/dashboard-layout.tsx:175-176 | sets the focus flag; a change of focus re-registers the keydown listener, which then sees the current sidebar state |
| DashboardLayout.LayoutState.HandleKeyDown | app/components/dashboard-layout.tsx:41-57 | Ctrl/Cmd-B sets the sidebar to the negation of the listener's snapshot; "/" focuses and Escape blurs the search box only while the sidebar is expanded; nothing else changes |
| DashboardLayout.ShortcutTwice | app/components/dashboard-layout.tsx:41-57 | two presses of Ctrl/Cmd-B both give the negated snapshot, so from a state the listener saw the sidebar ends toggled, not restored |
| DashboardLayout.ShortcutTwiceOnMount | app/components/dashboard-layout.tsx:41-57 | on a freshly mounted layout, two presses leave the sidebar collapsed |
| DashboardLayout.LayoutState.HandleKeyDownIntended | app/components/dashboard-layout.tsx:37 | the corrected shortcut: Ctrl/Cmd-B flips the current sidebar state, as the sidebar button does |
| DashboardLayout.ShortcutTwiceIntended | app/components/dashboard-layout.tsx:37 | with the corrected shortcut, two presses always restore the sidebar |
| DashboardLayout.ShortcutTwiceOnMountIntended | app/components/dashboard-layout.tsx:37 | with the corrected shortcut, two presses on a fresh layout leave the sidebar expanded |
| DashboardLayout.LayoutState.HandleClickOutside | app/components/dashboard-layout.tsx:60-66 | closes the user menu and changes nothing else |
| Monitoring.LastN | app/lib/monitoring.ts:117-119 | the last n elements, in order |
| Monitoring.LastNAppend | app/lib/monitoring.ts:109-119 | trimming the stored list before appending gives the last 100 of the whole history |
| Monitoring.PerformanceMonitor.constructor | app/lib/monitoring.ts:77-80 | a new monitor stores no metrics |
| Monitoring.PerformanceMonitor.RecordMetric | app/lib/monitoring.ts:101-125 | the new metric, stamped with now, is last; at most 100 are kept, the last 100 of old ++ [new] in order |
| Monitoring.PerformanceMonitor.GetMetrics | app/lib/monitoring.ts:127-129 | a fresh copy equal to the stored list |
| Monitoring.PerformanceMonitor.ClearMetrics | app/lib/monitoring.ts:131-133 | the list is empty |
| Monitoring.PerformanceMonitor.StartTimer | app/lib/monitoring.ts:89-92 | a new timer for this monitor, name, metadata and start time |
| Monitoring.Timer.constructor | app/lib/monitoring.ts:89-92 | a timer remembers its monitor, name, metadata and start reading |
| Monitoring.Timer.End | app/lib/monitoring.ts:93-97 | records exactly one metric under the timer's name with the elapsed time, and returns that time |
| Monitoring.BuildReport | app/lib/monitoring.ts:36-44 | the message and stack of an Error; the string of anything else, with no stack; "server" for url and user agent outside a browser |
| Monitoring.ErrorReporter.constructor | app/lib/monitoring.ts:25-27 | a reporter holds only the production flag, passed in for `NODE_ENV` |
| Monitoring.Instances.GetMonitor | app/lib/monitoring.ts:77-87 | the existing monitor, or one created once |
| Monitoring.Instances.GetReporter | app/lib/monitoring.ts:25-34 | the existing reporter, or one created once |
| Monitoring.Instances.GetMonitorTwice | app/lib/monitoring.ts:82-87 | two calls hand out the same monitor |
| Monitoring.Instances.RecordPerformanceMetric | app/lib/monitoring.ts:230-232 | records one metric on the shared monitor |
| Notifications.DiffInMinutes | app/routes/dashboard.notifications.tsx:48 | the floor of the elapsed milliseconds over 60000 |
| Notifications.FormatTimeAgo | app/routes/dashboard.notifications.tsx:50-51 | below an hour, "{n}m ago" |
| Notifications.HoursAgo | app/routes/dashboard.notifications.tsx:52-53 | between one hour and one day, "{h}h ago" with h the whole hours, 1 to 23 |
| Notifications.DaysAgo | app/routes/dashboard.notifications.tsx:54-56 | from a day on, "{d}d ago" with d the whole days, at least 1 |
| Notifications.CountWhere | app/routes/dashboard.notifications.tsx:191-205 | a count is at most the total; 0 iff none matches; the total iff all match |
| Notifications.CountComplement | app/routes/dashboard.notifications.tsx:191-198 | a predicate and its negation count the whole list between them |
| Notifications.UnreadCount | app/routes/dashboard.notifications.tsx:191 | at most the total; 0 iff every notification is read |
| Notifications.HighPriorityCount | app/routes/dashboard.notifications.tsx:205 | at most the total; 0 iff there is no alert |
| Notifications.UnreadAndReadMakeTotal | app/routes/dashboard.notifications.tsx:191-198 | unread plus read is the total |
| Notifications.Loader | app/routes/dashboard.notifications.tsx:8-40 | the samples iff a usable session exists, else requireAuth's redirect |
| Notifications.SamplesAsShown | app/routes/dashboard.notifications.tsx:12-37 | the samples read "0m ago", "30m ago", "2h ago"; two unread, one alert, three in all |
| UrlEncoding.QueryRoundTrip | app/lib/auth.ts:100-103 | parsing a serialized one-pair query gives the value back for its name |
| UrlEncoding.Utf8RoundTrip | app/lib/auth.ts:100-103 | UTF-8 decoding inverts encoding |

## Left out

- Cookie signing and encryption (`createCookieSessionStorage`): the session store is the map of fields itself. The browser's enforcement of the cookie's max age is also left out.
- Network calls:
  - The identity API and registration calls are the reply values `ApiReply` and `BackendReply`.
  - The client's login and logout posts are `FetchResult`.
  - Headers and request bodies are not modelled.
- The environment:
  - `NODE_ENV` becomes the `devMode` and `isProduction` flags.
  - `Date.now` and `performance.now` readings become parameters.
  - One `now` stands for all the clock readings of one request. The source reads the clock separately in `getUserSession` (app/lib/auth.ts:83), for the refresh window (app/lib/auth-middleware.ts:32), for the refreshed expiry after the refresh fetch (app/lib/auth.ts:142), for the two development tokens (app/lib/auth.ts:212-213, 243-244), and three times in the notifications loader. So `AuthMiddleware.RefreshOnlyInLastMinute`'s bound `now <= expiresAt` and `Auth.RefreshAuthToken`'s `expiresAt - now == expiresIn * 1000` hold exactly only at one instant. In the source they are off by the time that passes between readings, such as the duration of the refresh fetch.
- `Auth.RefreshAuthToken`: `expiresIn` is an integer number of seconds. A fractional or missing `expiresIn` in the API's body, which the source would turn into a fractional or `NaN` expiry, is not modelled.
- Metric durations are `real`s with no float rounding.
- Strings:
  - Lengths count Unicode scalar values, not UTF-16 code units.
  - `toUpperCase` is modelled on ASCII letters only.
  - Lone surrogates are not modelled.
- `UrlEncoding.PercentDecode`: a malformed escape gives no result instead of U+FFFD. The query parsed by the model is always well-formed.
- `Auth.StrField`, `Auth.NumField`: a cookie field of the wrong JSON type reads as the falsy `""` or `0`. No other JSON type is modelled.
- `Auth.HasPermission`, `AuthMiddleware.GrantedPermissions`, `AuthContext.HasPermission`: role names that are `Object.prototype` properties (such as "constructor") are not looked up through the prototype chain. A role not in the table gets no permissions. For such a role the middleware's `rolePermissions[role] || []` gives a function, whose missing `.includes` makes the source throw a `TypeError` (app/lib/auth-middleware.ts:89-91) where `AuthMiddleware.RequirePermissionGate` answers 403.
- `DashboardLayout.LayoutState.HandleKeyDown`: the sidebar's collapse leaves the search box's focus flag as it was. Whether the browser fires `blur` on the unmounted input, and the exit animation that keeps it mounted briefly, are not modelled.
- `AuthContext.AuthProvider.Login`: intermediate renders are not modelled. The `isLoading` values over time are kept in a ghost trace.
- Error reporting:
  - The console logging, `sendToErrorService` and `sendToAnalyticsService` are left out.
  - `reportError` is modelled only as the report it builds (`Monitoring.BuildReport`).
- Web-vitals observers (`initializeWebVitalsMonitoring`): they are browser performance observers.
- `withRouteGuard`: it only forwards its options to `RouteGuard`, whose decision is modelled.
- `handleLogout` in the dashboard layout: it only submits the logout form.
- React rendering, icons and styling are left out. The view is a `View` value.
- `RouteGuard.Render`: React nodes carry no falsiness. A `fallback` that is passed but falsy (`null`, `false`, `""`, `0`) makes the source show the default view, because it is tested with `||`. The model represents such a fallback as `None`, the same as a fallback that is not passed.
- The React context:
  - It is an `Option`.
  - A provider's state is one `AuthProvider` object; aliasing between components is not modelled.
- `Notifications.FormatTimeAgo`: its own contract covers only the minutes case. The hour and day cases are stated by the lemmas `Notifications.HoursAgo` and `Notifications.DaysAgo`.

## Findings

| source | as written | input that shows it | evidently intended | confidence | as-written member | corrected member |
|---|---|---|---|---|---|---|
| app/lib/auth-middleware.ts:37-48 | the refreshed tokens are `set` on a session object that is never committed, so no response carries them | a cookie expiring at 100000 refreshed at now = 70000 to an hour-long session; the next request at 100001 still carries the old cookie and is redirected to log in | the loader's response commits the refreshed session | not executed | AuthMiddleware.RequireAuthLoader, AuthMiddleware.RefreshedSessionIsLost | AuthMiddleware.RequireAuthLoaderCommitting, AuthMiddleware.CommittedRefreshSurvives |
| app/components/dashboard-layout.tsx:41-57 | the keydown listener is registered by an effect that depends only on `searchFocused`, so its Ctrl/Cmd-B calls a `toggleSidebar` that closed over `collapsed` as of that registration | a freshly mounted layout with the search box unfocused and Ctrl-B pressed twice: both presses run `setCollapsed(!false)`, so the sidebar stays collapsed | each Ctrl/Cmd-B toggles the sidebar as it is now | not executed | DashboardLayout.LayoutState.HandleKeyDown, DashboardLayout.ShortcutTwiceOnMount | DashboardLayout.LayoutState.HandleKeyDownIntended, DashboardLayout.ShortcutTwiceIntended |
| app/components/route-guard.tsx:132-134 | `renderIfRole(role, c)` returns `hasPermission(role) ? c : null`, looking the role name up among permissions | an admin user and role "admin": "admin" is not a permission, so nothing is rendered | render iff the user's role is `role` | not executed | RouteGuard.RenderIfRole, RouteGuard.RenderIfRoleNeverRendersRoles | RouteGuard.RenderIfRoleIntended, RouteGuard.RenderIfRoleMatchesFlags |
