/** The registration route of app/routes/auth.register.tsx: the action that validates the four
    fields and registers the account with the backend. Its loader is `Forms.GuestLoader`. */
module RegisterRoute {
  import opened Wrappers
  import opened Http
  import opened Forms
  import Auth

  /** What the backend's registration endpoint answers: success, a refusal with the `message`
      of its body (None when the body has none), or an error that escapes (the request fails,
      or a refusal's body is not JSON). */
  datatype BackendReply = Accepted | Refused(message: Option<string>) | Failed

  const ShortNameMessage: string := "Name must be at least 2 characters"
  const ShortPasswordMessage: string := "Password must be at least 8 characters"
  const MismatchMessage: string := "Passwords do not match"
  const RegisteredLocation: string := "/auth/login?message=registration-success"

  /** The field errors of a registration form, each rule checked on its own: `name` when the
      name is missing or shorter than 2 characters, `email` when it is missing, empty or has no
      `@`, `password` when it is missing or shorter than 8 characters, `confirmPassword` when
      the confirmation differs from the password (two missing fields do not differ). */
  function FieldErrors(form: FormData): (errors: map<string, string>)
    ensures "name" in errors <==> TooShort(Field(form, "name"), 2)
    ensures "email" in errors <==> EmailInvalid(Field(form, "email"))
    ensures "password" in errors <==> TooShort(Field(form, "password"), 8)
    ensures "confirmPassword" in errors <==> Field(form, "password") != Field(form, "confirmPassword")
    ensures errors.Keys <= {"name", "email", "password", "confirmPassword"}
    ensures "name" in errors ==> errors["name"] == ShortNameMessage
    ensures "email" in errors ==> errors["email"] == InvalidEmailMessage
    ensures "password" in errors ==> errors["password"] == ShortPasswordMessage
    ensures "confirmPassword" in errors ==> errors["confirmPassword"] == MismatchMessage
  {
    var e1 := if TooShort(Field(form, "name"), 2) then map["name" := ShortNameMessage] else map[];
    var e2 := if EmailInvalid(Field(form, "email")) then e1["email" := InvalidEmailMessage] else e1;
    var e3 := if TooShort(Field(form, "password"), 8) then e2["password" := ShortPasswordMessage] else e2;
    if Field(form, "password") != Field(form, "confirmPassword") then e3["confirmPassword" := MismatchMessage] else e3
  }

  /** A form whose fields all pass has no errors; in particular a password of 8 or more
      characters confirmed by the same value raises no password error. */
  lemma ValidFormHasNoErrors(name: string, email: string, password: string)
    requires |name| >= 2 && '@' in email && |password| >= 8
    ensures FieldErrors(map["name" := name, "email" := email, "password" := password,
                             "confirmPassword" := password]) == map[]
  {
    var form := map["name" := name, "email" := email, "password" := password, "confirmPassword" := password];
    var errors := FieldErrors(form);
    assert "name" !in errors && "email" !in errors && "password" !in errors && "confirmPassword" !in errors;
    assert errors.Keys == {};
  }

  /** The registration action: a 400 with every field error and no backend call when a field is
      invalid; a 400 with the backend's message (or "Registration failed" when it gives none)
      when the backend refuses; a 500 when the call throws; otherwise a redirect to the login
      page announcing the registration. */
  method Action(form: FormData, backend: BackendReply) returns (r: Response, backendCalled: bool)
    ensures backendCalled <==> FieldErrors(form) == map[]
    ensures !backendCalled ==> r == Json(400, FieldErrors(form))
    ensures backendCalled && backend == Accepted ==> r == Redirect(RegisteredLocation, None)
    ensures backendCalled && backend.Refused? ==>
      r == Json(400, map["general" := if backend.message.Some? && backend.message.value != ""
                                      then backend.message.value else "Registration failed"])
    ensures backendCalled && backend == Failed ==> r == Json(500, map["general" := GenericErrorMessage])
  {
    var name := Field(form, "name");
    var email := Field(form, "email");
    var password := Field(form, "password");
    var confirmPassword := Field(form, "confirmPassword");
    var errors: map<string, string> := map[];
    if name.None? || name.value == "" || |name.value| < 2 {
      errors := errors["name" := ShortNameMessage];
    }
    if email.None? || email.value == "" || '@' !in email.value {
      errors := errors["email" := InvalidEmailMessage];
    }
    if password.None? || password.value == "" || |password.value| < 8 {
      errors := errors["password" := ShortPasswordMessage];
    }
    if password != confirmPassword {
      errors := errors["confirmPassword" := MismatchMessage];
    }
    if |errors.Keys| > 0 {
      assert errors != map[] by {
        var k :| k in errors.Keys;
      }
      return Json(400, errors), false;
    }
    assert errors == map[];
    backendCalled := true;
    match backend {
      case Accepted =>
        r := Redirect(RegisteredLocation, None);
      case Refused(message) =>
        var general := if message.Some? && message.value != "" then message.value else "Registration failed";
        r := Json(400, map["general" := general]);
      case Failed =>
        r := Json(500, map["general" := GenericErrorMessage]);
    }
  }
}
