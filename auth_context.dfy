/** The client-side authentication state of app/lib/auth-context.tsx: the provider's `user` and
    `isLoading` state changed by login, logout and the sync with the loader's user, and the
    permission hook. */
module AuthContext {
  import opened Wrappers
  import Auth

  /** What a `fetch` to the server came to: a response with its `ok` flag, or a thrown error. */
  datatype FetchResult = Responded(ok: bool) | FetchFailed

  /** `useAuth`: the provider's value, or the error thrown outside a provider. */
  function UseAuth<C>(context: Option<C>): (r: Result<C, string>)
    ensures r.Success? <==> context.Some?
    ensures r.Success? ==> r.value == context.value
    ensures r.Failure? ==> r.error == "useAuth must be used within an AuthProvider"
  {
    match context
    case Some(c) => Success(c)
    case None => Failure("useAuth must be used within an AuthProvider")
  }

  /** The state an `AuthProvider` keeps. `loadingTrace` records every value `isLoading` is set
      to, in order; `revalidations` counts the loader revalidations requested; `location` is the
      page the window was sent to, if any. */
  class AuthProvider {
    var user: Option<Auth.User>
    var isLoading: bool
    var revalidations: nat
    var location: Option<string>
    ghost var loadingTrace: seq<bool>

    /** A provider starts with the loader's user (none by default) and is not loading. */
    constructor (initialUser: Option<Auth.User>)
      ensures user == initialUser && !isLoading
      ensures revalidations == 0 && location == None && loadingTrace == []
    {
      user := initialUser;
      isLoading := false;
      revalidations := 0;
      location := None;
      loadingTrace := [];
    }

    function IsAuthenticated(): (r: bool)
      reads this
      ensures r <==> user.Some?
    {
      user != None
    }

    /** Posting the credentials: loading while the request runs and not afterwards, whatever
        happens; true exactly when the server answered with an ok status, in which case the
        loader data is revalidated. The user itself is left to the loader. */
    method Login(reply: FetchResult) returns (ok: bool)
      modifies this
      ensures ok <==> reply == Responded(true)
      ensures loadingTrace == old(loadingTrace) + [true, false] && !isLoading
      ensures revalidations == old(revalidations) + (if ok then 1 else 0)
      ensures user == old(user) && location == old(location)
    {
      isLoading := true;
      loadingTrace := loadingTrace + [true];
      match reply {
        case Responded(responseOk) =>
          if responseOk {
            revalidations := revalidations + 1;
            ok := true;
          } else {
            ok := false;
          }
        case FetchFailed =>
          ok := false;
      }
      isLoading := false;
      loadingTrace := loadingTrace + [false];
    }

    /** Posting the logout: once the server answers (whatever its status) the user is cleared
        and the window goes to the login page; when the request fails nothing but the loading
        flag changes. Loading ends on every path. */
    method Logout(reply: FetchResult)
      modifies this
      ensures reply.Responded? ==> user == None && location == Some(Auth.LoginPath)
      ensures reply.FetchFailed? ==> user == old(user) && location == old(location)
      ensures loadingTrace == old(loadingTrace) + [true, false] && !isLoading
      ensures revalidations == old(revalidations)
    {
      isLoading := true;
      loadingTrace := loadingTrace + [true];
      if reply.Responded? {
        user := None;
        location := Some(Auth.LoginPath);
      }
      isLoading := false;
      loadingTrace := loadingTrace + [false];
    }

    /** `refreshUser`: asks for the loader data again. */
    method RefreshUser()
      modifies this
      ensures revalidations == old(revalidations) + 1
      ensures user == old(user) && isLoading == old(isLoading) && location == old(location)
      ensures loadingTrace == old(loadingTrace)
    {
      revalidations := revalidations + 1;
    }

    /** The effect that follows the loader: afterwards the user is the loader's user. */
    method SyncInitialUser(initialUser: Option<Auth.User>)
      modifies this
      ensures user == initialUser
      ensures isLoading == old(isLoading) && revalidations == old(revalidations)
      ensures location == old(location) && loadingTrace == old(loadingTrace)
    {
      if initialUser != user {
        user := initialUser;
      }
    }
  }

  // ---------------------------------------------------------------- usePermissions

  /** The hook's own copy of the role table. */
  function HookRolePermissions(role: string): Option<seq<string>>
  {
    if role == "admin" then Some(["read", "write", "delete", "manage_users", "manage_settings"])
    else if role == "user" then Some(["read", "write"])
    else if role == "viewer" then Some(["read"])
    else None
  }

  /** `hasPermission`: false without a user, else what the server's role table grants. */
  function HasPermission(user: Option<Auth.User>, permission: string): (r: bool)
    ensures user.None? ==> !r
    ensures user.Some? ==> (r <==> Auth.HasPermission(user.value, permission))
  {
    match user
    case None => false
    case Some(u) =>
      match HookRolePermissions(u.role)
      case Some(granted) => permission in granted
      case None => false
  }

  /** `requirePermission`: true when the permission is held, else the thrown error. */
  function RequirePermission(user: Option<Auth.User>, permission: string): (r: Result<bool, string>)
    ensures r.Success? <==> HasPermission(user, permission)
    ensures r.Success? ==> r.value
    ensures r.Failure? ==> r.error == "Permission denied: " + permission
  {
    if !HasPermission(user, permission) then Failure("Permission denied: " + permission)
    else Success(true)
  }

  datatype RoleFlags = RoleFlags(isAdmin: bool, isUser: bool, isViewer: bool)

  /** `isAdmin`, `isUser` and `isViewer`: at most one holds, none without a user, and an admin
      holds every permission while a viewer holds only `read`. */
  function Flags(user: Option<Auth.User>): (r: RoleFlags)
    ensures !(r.isAdmin && r.isUser) && !(r.isAdmin && r.isViewer) && !(r.isUser && r.isViewer)
    ensures user.None? ==> !r.isAdmin && !r.isUser && !r.isViewer
    ensures r.isAdmin ==> forall p :: p in Auth.AllPermissions ==> HasPermission(user, p)
    ensures r.isViewer ==> forall p :: HasPermission(user, p) <==> p == "read"
    ensures user.Some? && (r.isAdmin || r.isUser || r.isViewer) ==> HasPermission(user, "read")
  {
    match user
    case None => RoleFlags(false, false, false)
    case Some(u) => RoleFlags(u.role == "admin", u.role == "user", u.role == "viewer")
  }
}
