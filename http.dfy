/** The HTTP-level values the loaders, actions and guards exchange: the contents of the
    `__session` cookie, the Set-Cookie header a response carries, requests and responses. */
module Http {
  import opened Wrappers

  /** A value stored in the session cookie. */
  datatype Value = Str(s: string) | Num(n: int)

  /** The decoded `__session` cookie: field name to value. */
  type SessionData = map<string, Value>

  /** What a response's Set-Cookie header does to the `__session` cookie. */
  datatype SetCookie = Commit(data: SessionData) | Destroy

  /** An incoming request: the path, the query with its leading `?` (or ""), and the decoded
      session cookie, None when the request carries none or one whose signature does not check. */
  datatype Request = Request(pathname: string, search: string, cookie: Option<SessionData>)

  /** A response: a 302 redirect, a JSON body holding an `errors` object, or a bare status. */
  datatype Response =
    | Redirect(location: string, setCookie: Option<SetCookie>)
    | Json(status: int, errors: map<string, string>)
    | Status(code: int, text: string)

  function StatusCode(r: Response): int
  {
    match r
    case Redirect(_, _) => 302
    case Json(status, _) => status
    case Status(code, _) => code
  }

  /** A value returned, a response thrown (`throw redirect(...)`, `throw new Response(...)`), or
      some other error thrown. */
  datatype Outcome<T> = Ok(value: T) | Threw(response: Response) | Crashed

  /** The cookie the browser sends with its next request, given the one it holds and the
      Set-Cookie header of the response it received. */
  function NextCookie(jar: Option<SessionData>, header: Option<SetCookie>): Option<SessionData>
  {
    match header
    case None => jar
    case Some(Commit(data)) => Some(data)
    case Some(Destroy) => None
  }
}
