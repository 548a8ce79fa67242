/** What the login and registration routes share: their loader, the submitted form data and
    the field rules of their actions. */
module Forms {
  import opened Wrappers
  import opened Http
  import Auth

  /** The loader of both pages: a visitor with a usable session is redirected to the
      dashboard; anyone else gets the page. */
  function GuestLoader(request: Request, now: int): (r: Response)
    ensures r == Redirect(Auth.DefaultLanding, None) <==> Auth.GetUserSession(request, now).Some?
    ensures Auth.GetUserSession(request, now).None? ==> r == Json(200, map[])
  {
    if Auth.GetUserSession(request, now).Some? then Redirect(Auth.DefaultLanding, None) else Json(200, map[])
  }

  /** The submitted fields by name; a field that was not submitted is absent. */
  type FormData = map<string, string>

  /** `formData.get(name)`: the field's value, None (`null`) when it was not submitted. */
  function Field(form: FormData, name: string): (r: Option<string>)
    ensures r.Some? <==> name in form
    ensures r.Some? ==> r.value == form[name]
  {
    if name in form then Some(form[name]) else None
  }

  /** `!value || value.length < n`: a missing or empty field, or one shorter than `n`. */
  predicate TooShort(value: Option<string>, n: nat)
  {
    value.None? || value.value == "" || |value.value| < n
  }

  /** `!email || !email.includes("@")`. */
  predicate EmailInvalid(email: Option<string>)
  {
    email.None? || email.value == "" || '@' !in email.value
  }

  const InvalidEmailMessage: string := "Please enter a valid email address"
  const GenericErrorMessage: string := "An error occurred. Please try again."
}
