/** `app/api/auth/verify/route.js`: reports the session the `token` cookie
    carries, for the middleware and the navigation bar. */
module VerifyRoute {
  import opened Js
  import opened Auth
  import opened Http

  const NoToken := Error(401, "No token provided")

  /** GET /api/auth/verify. */
  function HandleVerify(secret: string, cookie: Option<Token>, now: int): (r: Response)
    ensures !Present(cookie) ==> r == NoToken
    ensures r.status == 200 <==> AuthSession(secret, cookie, now).Some?
    ensures r.status == 200 ==> r.body == UserBody(AuthSession(secret, cookie, now).value)
    ensures r.status != 200 ==> r.status == 401 && r.body.ErrorBody? && r.body.error != ""
    ensures Present(cookie) && r.status != 200 ==> r.body.error == Reason(Decode(secret, cookie, now).error)
    ensures r.cookie.None?
  {
    if !Present(cookie) then NoToken
    else match VerifyToken(secret, cookie, now)
      case Failure(error, status) => Error(status, error)
      case Session(user) => Response(200, UserBody(user), None)
  }

  /** A token from `generateToken` is reported, with its payload and times,
      until it expires, and refused as expired from then on. */
  lemma IssuedTokenVerifies(secret: string, claims: Claims, now: int, at: int)
    ensures var r := HandleVerify(secret, Some(GenerateToken(secret, claims, now)), at);
      if at < now + Lifetime then r == Response(200, UserBody(Decoded(claims, now, now + Lifetime)), None)
      else r == Error(401, "jwt expired")
  {
  }
}
