/** The client route guard of app/components/route-guard.tsx: which view `RouteGuard` renders,
    when it navigates away, and the conditional-rendering helpers. */
module RouteGuard {
  import opened Wrappers
  import Auth
  import AuthContext

  /** The props of a `RouteGuard`; None stands for a prop that is not passed. A `fallback`
      that is passed but falsy (`null`, `false`, `""`, `0`) is also None, since the guard
      tests it with `||`. */
  datatype GuardProps<N> = GuardProps(requireAuth: Option<bool>, requiredPermission: Option<string>,
                                      fallback: Option<N>, redirectTo: Option<string>)

  /** What the guard renders. */
  datatype View<N> = LoadingView | AuthRequiredView | AccessDeniedView | FallbackView(fallback: N) | ChildrenView(children: N)

  function RequiresAuth<N>(props: GuardProps<N>): bool
  {
    props.requireAuth.GetOr(true)
  }

  function RedirectTo<N>(props: GuardProps<N>): string
  {
    props.redirectTo.GetOr(Auth.LoginPath)
  }

  /** The fallback when one is given, else the guard's own view. */
  function FallbackOr<N>(props: GuardProps<N>, view: View<N>): View<N>
  {
    match props.fallback
    case Some(f) => FallbackView(f)
    case None => view
  }

  /** A permission requirement that is set (the empty string counts as unset). */
  predicate PermissionDenied<N>(props: GuardProps<N>, user: Option<Auth.User>)
  {
    props.requiredPermission.Some? && props.requiredPermission.value != ""
    && user.Some? && !AuthContext.HasPermission(user, props.requiredPermission.value)
  }

  /** The view, by priority: loading first, then a missing user when authentication is
      required, then a missing permission of a present user, else the children. */
  function Render<N>(props: GuardProps<N>, isLoading: bool, user: Option<Auth.User>, children: N): (v: View<N>)
    ensures isLoading ==> v == LoadingView
    ensures !isLoading && RequiresAuth(props) && user.None? ==> v == FallbackOr(props, AuthRequiredView)
    ensures !isLoading && !(RequiresAuth(props) && user.None?) && PermissionDenied(props, user) ==>
      v == FallbackOr(props, AccessDeniedView)
    ensures v.ChildrenView? <==>
      !isLoading && !(RequiresAuth(props) && user.None?) && !PermissionDenied(props, user)
    ensures v.ChildrenView? ==> v.children == children
  {
    if isLoading then LoadingView
    else if RequiresAuth(props) && user.None? then FallbackOr(props, AuthRequiredView)
    else if PermissionDenied(props, user) then FallbackOr(props, AccessDeniedView)
    else ChildrenView(children)
  }

  /** The effect's navigation: to `redirectTo` exactly when loading is over, authentication is
      required and there is no user. */
  function Navigation<N>(props: GuardProps<N>, isLoading: bool, user: Option<Auth.User>): (r: Option<string>)
    ensures r.Some? <==> !isLoading && RequiresAuth(props) && user.None?
    ensures r.Some? ==> r.value == RedirectTo(props)
  {
    if !isLoading && RequiresAuth(props) && user.None? then Some(RedirectTo(props)) else None
  }

  /** The guard never both shows the children and navigates away; the children shown under a
      required permission are only shown to a user holding it or, when authentication is not
      required, to nobody in particular. */
  lemma ChildrenOnlyWhenAllowed<N>(props: GuardProps<N>, isLoading: bool, user: Option<Auth.User>, children: N)
    requires Render(props, isLoading, user, children).ChildrenView?
    ensures Navigation(props, isLoading, user).None?
    ensures RequiresAuth(props) ==> user.Some?
    ensures props.requiredPermission.Some? && props.requiredPermission.value != "" && user.Some? ==>
      Auth.HasPermission(user.value, props.requiredPermission.value)
  {
  }

  /** Whenever the guard navigates away, it shows the auth-required view or the fallback. */
  lemma NavigationShowsAuthRequired<N>(props: GuardProps<N>, isLoading: bool, user: Option<Auth.User>, children: N)
    requires Navigation(props, isLoading, user).Some?
    ensures Render(props, isLoading, user, children) == FallbackOr(props, AuthRequiredView)
  {
  }

  // ---------------------------------------------------------------- useConditionalRender

  /** `renderIfAuthenticated`: the component iff there is a user. */
  function RenderIfAuthenticated<N>(user: Option<Auth.User>, component: N): (r: Option<N>)
    ensures r.Some? <==> user.Some?
    ensures r.Some? ==> r.value == component
  {
    if user.Some? then Some(component) else None
  }

  /** `renderIfPermission`: the component iff the user holds the permission. */
  function RenderIfPermission<N>(user: Option<Auth.User>, permission: string, component: N): (r: Option<N>)
    ensures r.Some? <==> user.Some? && Auth.HasPermission(user.value, permission)
    ensures r.Some? ==> r.value == component
  {
    if AuthContext.HasPermission(user, permission) then Some(component) else None
  }

  /** `renderIfRole` as written: it looks the role name up among the user's permissions. */
  function RenderIfRole<N>(user: Option<Auth.User>, role: string, component: N): (r: Option<N>)
    ensures r == RenderIfPermission(user, role, component)
  {
    if AuthContext.HasPermission(user, role) then Some(component) else None
  }

  /** No role name is a permission, so for each of the three roles the component is never
      rendered, not even for a user who has that very role. */
  lemma RenderIfRoleNeverRendersRoles<N>(user: Option<Auth.User>, role: string, component: N)
    requires role == "admin" || role == "user" || role == "viewer"
    ensures RenderIfRole(user, role, component) == None
  {
  }

  /** `renderIfRole` as its name intends: the component iff the user has the role. */
  function RenderIfRoleIntended<N>(user: Option<Auth.User>, role: string, component: N): (r: Option<N>)
    ensures r.Some? <==> user.Some? && user.value.role == role
    ensures r.Some? ==> r.value == component
  {
    if user.Some? && user.value.role == role then Some(component) else None
  }

  /** The intended helper agrees with the role flags of the permission hook. */
  lemma RenderIfRoleMatchesFlags<N>(user: Option<Auth.User>, component: N)
    ensures RenderIfRoleIntended(user, "admin", component).Some? <==> AuthContext.Flags(user).isAdmin
    ensures RenderIfRoleIntended(user, "user", component).Some? <==> AuthContext.Flags(user).isUser
    ensures RenderIfRoleIntended(user, "viewer", component).Some? <==> AuthContext.Flags(user).isViewer
  {
  }
}
