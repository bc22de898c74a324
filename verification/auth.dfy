/** The token codec of `lib/auth.js`: `generateToken`, `verifyToken` and
    `auth`, over a symbolic JSON Web Token. The signing secret and the clock
    (seconds since the epoch) are parameters. */
module Auth {
  import opened Js

  /** `expiresIn: '1h'`, in seconds. */
  const Lifetime: int := 3600

  /** The payload the login and registration handlers sign. */
  datatype Claims = Claims(
    id: string,
    email: string,
    name: Field,
    role: string,
    companyId: Field,
    companyName: string)

  /** What verification hands back: the signed payload together with the
      issued-at and expiry times the signer added to it. */
  datatype Decoded = Decoded(claims: Claims, iat: int, exp: int)

  /** A cookie value, seen symbolically: either a token signed with `key`
      carrying `claims`, issued at `iat` and expiring at `exp`, or any other
      string (including the empty one). */
  datatype Token = Jwt(claims: Claims, key: string, iat: int, exp: int) | Raw(text: string)

  /** Why the token library refuses a token. */
  datatype Refusal = NotProvided | Malformed | BadSignature | Expired

  function Reason(e: Refusal): (m: string)
    ensures m != ""
  {
    match e
    case NotProvided => "jwt must be provided"
    case Malformed => "jwt malformed"
    case BadSignature => "invalid signature"
    case Expired => "jwt expired"
  }

  /** The two shapes `verifyToken` returns: `{user}` or `{error, status}`. */
  datatype Verified = Session(user: Decoded) | Failure(error: string, status: int)

  /** `!token` for the `token` cookie: missing, or present but empty. */
  predicate Present(cookie: Option<Token>)
  {
    cookie.Some? && cookie.value != Raw("")
  }

  /** The library's verification: the signature is checked before the expiry,
      and a token has expired once the clock reaches `exp`. */
  function Decode(secret: string, cookie: Option<Token>, now: int): (r: Result<Decoded, Refusal>)
    ensures r.Ok? <==> (cookie.Some? && cookie.value.Jwt? && cookie.value.key == secret && now < cookie.value.exp)
    ensures r.Ok? ==> r.value.claims == cookie.value.claims && r.value.exp == cookie.value.exp
    ensures !Present(cookie) ==> r == Err(NotProvided)
    ensures Present(cookie) && cookie.value.Raw? ==> r == Err(Malformed)
    ensures cookie.Some? && cookie.value.Jwt? && cookie.value.key != secret ==> r == Err(BadSignature)
    ensures cookie.Some? && cookie.value.Jwt? && cookie.value.key == secret && now >= cookie.value.exp ==>
      r == Err(Expired)
  {
    match cookie
    case None => Err(NotProvided)
    case Some(Raw(text)) => if text == "" then Err(NotProvided) else Err(Malformed)
    case Some(Jwt(claims, key, iat, exp)) =>
      if key != secret then Err(BadSignature)
      else if now >= exp then Err(Expired)
      else Ok(Decoded(claims, iat, exp))
  }

  /** `generateToken(payload)`: the token verifies back to exactly the payload
      it was given until an hour has passed, and to nothing afterwards or
      under another secret. */
  function GenerateToken(secret: string, claims: Claims, now: int): (t: Token)
    ensures forall at :: (Decode(secret, Some(t), at) ==
      if at < now + Lifetime then Ok(Decoded(claims, now, now + Lifetime)) else Err(Expired))
    ensures forall other, at :: other != secret ==> Decode(other, Some(t), at) == Err(BadSignature)
    ensures Present(Some(t))
  {
    Jwt(claims, secret, now, now + Lifetime)
  }

  /** `verifyToken(token)`: never throws; either the decoded payload, or the
      library's message with status 401. */
  function VerifyToken(secret: string, cookie: Option<Token>, now: int): (r: Verified)
    ensures r.Session? <==> Decode(secret, cookie, now).Ok?
    ensures r.Session? ==> r.user == Decode(secret, cookie, now).value
    ensures r.Failure? ==> r.status == 401 && r.error != ""
  {
    match Decode(secret, cookie, now)
    case Ok(decoded) => Session(decoded)
    case Err(e) => Failure(Reason(e), 401)
  }

  /** `auth()`: null when there is no token or it does not verify, else the
      decoded payload. */
  function AuthSession(secret: string, cookie: Option<Token>, now: int): (r: Option<Decoded>)
    ensures !Present(cookie) ==> r == None
    ensures r.Some? <==> VerifyToken(secret, cookie, now).Session?
    ensures r.Some? ==> r.value == VerifyToken(secret, cookie, now).user
  {
    if !Present(cookie) then None
    else match Decode(secret, cookie, now)
      case Ok(decoded) => Some(decoded)
      case Err(_) => None
  }

  /** Round trip: a freshly generated token verifies to its payload,
      unchanged, at any time before it expires. */
  lemma RoundTrip(secret: string, claims: Claims, now: int, at: int)
    requires at < now + Lifetime
    ensures VerifyToken(secret, Some(GenerateToken(secret, claims, now)), at).Session?
    ensures VerifyToken(secret, Some(GenerateToken(secret, claims, now)), at).user.claims == claims
  {
  }

  /** Expired tokens are refused whatever their signature. */
  lemma ExpiredRefused(secret: string, t: Token, at: int)
    requires t.Jwt? && at >= t.exp
    ensures VerifyToken(secret, Some(t), at).Failure?
    ensures AuthSession(secret, Some(t), at).None?
  {
  }
}
