/** The JSON responses the route handlers send, and the session cookie the
    token-issuing handlers set. */
module Http {
  import opened Js
  import opened Auth

  /** One entry of the user list: `_id`, name, email and role only. */
  datatype UserView = UserView(id: string, name: Field, email: string, role: string)

  datatype Body =
    | ErrorBody(error: string)
    | MessageBody(message: string)
    | UserCreated(message: string, userId: string)
    | CompanyRegistered(message: string, companyId: string, userId: string)
    | UserList(users: seq<UserView>)
    | UserBody(user: Decoded)

  /** `token=<token>; HttpOnly; Path=/; Max-Age=<maxAge>; SameSite=Strict`. */
  datatype SetCookie = SetCookie(token: Token, maxAge: int)

  /** The `Max-Age` of the session cookie, in seconds. */
  const CookieMaxAge: int := 3600

  datatype Response = Response(status: int, body: Body, cookie: Option<SetCookie>)

  function Error(status: int, message: string): Response
  {
    Response(status, ErrorBody(message), None)
  }

  /** A response that hands the client a new session token. */
  function WithSession(status: int, body: Body, token: Token): Response
  {
    Response(status, body, Some(SetCookie(token, CookieMaxAge)))
  }
}
