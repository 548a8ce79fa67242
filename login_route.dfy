/** The login route of app/routes/auth.login.tsx: the action that validates the form and logs
    the user in, and the page's choice of where to go afterwards. Its loader is
    `Forms.GuestLoader`. */
module LoginRoute {
  import opened Wrappers
  import opened Http
  import opened Forms
  import Auth
  import UrlEncoding

  const ShortPasswordMessage: string := "Password must be at least 6 characters"
  const BadCredentialsMessage: string := "Invalid email or password"

  /** The field errors of a login form: `email` exactly when the email is missing, empty or has
      no `@`, `password` exactly when the password is missing or shorter than 6 characters. */
  function FieldErrors(form: FormData): (errors: map<string, string>)
    ensures "email" in errors <==> EmailInvalid(Field(form, "email"))
    ensures "password" in errors <==> TooShort(Field(form, "password"), 6)
    ensures errors.Keys <= {"email", "password"}
    ensures "email" in errors ==> errors["email"] == InvalidEmailMessage
    ensures "password" in errors ==> errors["password"] == ShortPasswordMessage
  {
    var e := if EmailInvalid(Field(form, "email")) then map["email" := InvalidEmailMessage] else map[];
    if TooShort(Field(form, "password"), 6) then e["password" := ShortPasswordMessage] else e
  }

  /** Where to go after logging in: the submitted `redirectTo`, or the dashboard when it is
      missing or empty. */
  function RedirectToField(form: FormData): (r: string)
    ensures r != ""
    ensures "redirectTo" in form && form["redirectTo"] != "" ==> r == form["redirectTo"]
  {
    match Field(form, "redirectTo")
    case Some(v) => if v != "" then v else Auth.DefaultLanding
    case None => Auth.DefaultLanding
  }

  /** The login action: a 400 with every field error and no authentication when a field is
      invalid; otherwise the credentials are checked (in development mode, or against the
      identity API's `reply`), giving a 400 with a general error when they are rejected, a 500
      when the check rejects, and otherwise a new session for the authenticated user, committed
      on a redirect to where the form asks to go. */
  method Action(form: FormData, devMode: bool, reply: Auth.ApiReply<Auth.AuthResult>, now: nat)
    returns (r: Response, authCalled: bool)
    ensures authCalled <==> FieldErrors(form) == map[]
    ensures !authCalled ==> r == Json(400, FieldErrors(form))
    ensures authCalled ==>
      var attempt := Auth.AuthenticateUser(devMode, form["email"], reply, now);
      && (attempt == Auth.Resolves(None) ==> r == Json(400, map["general" := BadCredentialsMessage]))
      && (attempt.Rejects? ==> r == Json(500, map["general" := GenericErrorMessage]))
      && (attempt.Resolves? && attempt.value.Some? ==>
            var a := attempt.value.value;
            r == Redirect(RedirectToField(form),
                          Some(Commit(Auth.SessionFields(a.user.id, a.token, a.refreshToken,
                                                         now + Auth.SessionLifetimeMs)))))
  {
    var email := Field(form, "email");
    var password := Field(form, "password");
    var redirectTo := RedirectToField(form);
    var errors: map<string, string> := map[];
    if email.None? || email.value == "" || '@' !in email.value {
      errors := errors["email" := InvalidEmailMessage];
    }
    if password.None? || password.value == "" || |password.value| < 6 {
      errors := errors["password" := ShortPasswordMessage];
    }
    if |errors.Keys| > 0 {
      assert errors != map[] by {
        var k :| k in errors.Keys;
      }
      return Json(400, errors), false;
    }
    assert errors == map[];
    authCalled := true;
    match Auth.AuthenticateUser(devMode, email.value, reply, now) {
      case Rejects =>
        r := Json(500, map["general" := GenericErrorMessage]);
      case Resolves(None) =>
        r := Json(400, map["general" := BadCredentialsMessage]);
      case Resolves(Some(a)) =>
        r := Auth.CreateUserSession(a.user.id, a.token, a.refreshToken, Some(redirectTo), now);
    }
  }

  /** In development mode any well-formed form logs in, as an administrator under the submitted
      email, and lands where the form asks to go. */
  lemma DevModeLogsAnyoneIn(form: FormData, reply: Auth.ApiReply<Auth.AuthResult>, now: nat)
    requires FieldErrors(form) == map[]
    ensures Auth.AuthenticateUser(true, form["email"], reply, now).Resolves?
    ensures var a := Auth.AuthenticateUser(true, form["email"], reply, now).value;
      a.Some? && a.value.user.email == form["email"] && a.value.user.role == "admin"
  {
    assert "email" !in FieldErrors(form);
  }

  /** The login page's target: the `redirectTo` query parameter, or the dashboard when it is
      missing or empty. The page sends it back in the form's hidden `redirectTo` field. */
  function PageRedirectTo(query: string): (r: string)
    ensures r != ""
  {
    match UrlEncoding.QueryGet(query, "redirectTo")
    case Some(v) => if v != "" then v else Auth.DefaultLanding
    case None => Auth.DefaultLanding
  }

  /** The hidden field the page adds to the login form. */
  function WithTarget(form: FormData, query: string): FormData
  {
    form["redirectTo" := PageRedirectTo(query)]
  }

  /** The login page reads a non-empty target back out of the login URL that carries it. */
  lemma PageReadsTarget(target: string)
    requires target != ""
    ensures PageRedirectTo(UrlEncoding.SearchOf(Auth.LoginRedirectUrl(target))) == target
  {
    Auth.LoginRedirectCarriesTarget(target);
  }

  /** The action goes where the page's hidden field says. */
  lemma HiddenFieldIsTarget(form: FormData, query: string)
    ensures RedirectToField(WithTarget(form, query)) == PageRedirectTo(query)
  {
  }

  /** A visitor bounced from a protected page comes back to it: the login page reads the page
      and query it was sent from out of its own URL and posts them with the form, and the
      action redirects there after logging in. */
  lemma BounceAndReturn(request: Request, now: int, form: FormData)
    requires Auth.GetUserSession(request, now).None?
    requires request.pathname != ""
    ensures var bounce := Auth.RequireAuth(request, None, now);
      && bounce.Threw?
      && RedirectToField(WithTarget(form, UrlEncoding.SearchOf(bounce.response.location)))
         == request.pathname + request.search
  {
    var target := request.pathname + request.search;
    var location := Auth.LoginRedirectUrl(target);
    assert Auth.RequireAuth(request, None, now) == Threw(Redirect(location, None));
    PageReadsTarget(target);
    HiddenFieldIsTarget(form, UrlEncoding.SearchOf(location));
  }
}
