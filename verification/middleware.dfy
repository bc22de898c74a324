/** `middleware.jsx`: the edge gate in front of the protected pages. It
    never decodes the token itself; it asks the verify endpoint of its own
    deployment and lets the request through only on a positive answer. The
    self-call is a parameter: `outcome` is how the fetch came out. */
module Middleware {
  import opened Js
  import opened Auth
  import opened Http
  import VerifyRoute

  /** `NEXTAUTH_URL` and `RENDER_EXTERNAL_URL`. */
  datatype Env = Env(nextAuthUrl: Option<string>, renderExternalUrl: Option<string>)

  /** What the gate reads from a request: the origin of its URL, its path,
      the `token` cookie and the `x-forwarded-proto` and `host` headers. */
  datatype GateRequest = GateRequest(
    origin: string,
    path: string,
    cookie: Option<Token>,
    forwardedProto: Option<string>,
    host: Option<string>)

  /** The GET the gate sends: the URL, the token it forwards as the `token`
      cookie, and the `Host` header it copies. */
  datatype SelfCall = SelfCall(url: string, token: Token, host: Option<string>)

  /** A parsed JSON reply: `null`, or an object with its `error` and `user` members. */
  datatype VerifyJson = JsonNull | JsonObject(error: Field, user: Option<Decoded>)

  /** How the self-call came out: the fetch rejected, the status was not
      2xx, the body was not JSON, or a parsed body. */
  datatype FetchOutcome = NetworkError | NotOk(status: int) | BadJson | OkJson(json: VerifyJson)

  datatype Decision = Next | Redirect(location: string)

  datatype Gated = Gated(decision: Decision, call: Option<SelfCall>)

  /** The protected path prefixes of the matcher, each with `:path*`. */
  const Protected: seq<string> := ["/dashboard", "/shifts", "/time-tracking", "/employees", "/company", "/profile"]

  predicate StartsWith(s: string, p: string)
  {
    |p| <= |s| && s[..|p|] == p
  }

  /** The matcher: a protected prefix itself or any path below it. */
  predicate Matched(path: string)
  {
    exists i | 0 <= i < |Protected| :: path == Protected[i] || StartsWith(path, Protected[i] + "/")
  }

  /** A cookie worth asking about: present, non-empty, and not the text a
      client-side `undefined` or `null` was stored as. */
  predicate Usable(cookie: Option<Token>)
  {
    Present(cookie) && cookie.value != Raw("undefined") && cookie.value != Raw("null")
  }

  /** The deployment's own origin: the configured URLs first, else the
      forwarded protocol (default https) and the host header. */
  function Origin(env: Env, req: GateRequest): (o: string)
    ensures env.nextAuthUrl.Some? && env.nextAuthUrl.value != "" ==> o == env.nextAuthUrl.value
    ensures OrElse(env.nextAuthUrl, "") == "" && env.renderExternalUrl.Some? && env.renderExternalUrl.value != "" ==>
      o == env.renderExternalUrl.value
    ensures OrElse(env.nextAuthUrl, "") == "" && OrElse(env.renderExternalUrl, "") == "" ==>
      o == OrElse(req.forwardedProto, "https") + "://" + HeaderText(req.host)
  {
    OrElse(env.nextAuthUrl, OrElse(env.renderExternalUrl, OrElse(req.forwardedProto, "https") + "://" + HeaderText(req.host)))
  }

  /** An independent reading of a chain of `||`: the first candidate that is
      set and non-empty, else the fallback. */
  function FirstSet(candidates: seq<Option<string>>, fallback: string): string
  {
    if candidates == [] then fallback
    else if candidates[0].Some? && candidates[0].value != "" then candidates[0].value
    else FirstSet(candidates[1..], fallback)
  }

  /** The origin is the first configured URL, in the order `NEXTAUTH_URL`,
      `RENDER_EXTERNAL_URL`, and otherwise the one built from the headers. */
  lemma OriginIsFirstSet(env: Env, req: GateRequest)
    ensures Origin(env, req) ==
      FirstSet([env.nextAuthUrl, env.renderExternalUrl],
               FirstSet([req.forwardedProto], "https") + "://" + HeaderText(req.host))
  {
    var built := FirstSet([req.forwardedProto], "https") + "://" + HeaderText(req.host);
    assert FirstSet([req.forwardedProto], "https") == OrElse(req.forwardedProto, "https") by {
      assert [req.forwardedProto][1..] == [];
    }
    assert FirstSet([env.renderExternalUrl], built) == OrElse(env.renderExternalUrl, built) by {
      assert [env.renderExternalUrl][1..] == [];
    }
    assert [env.nextAuthUrl, env.renderExternalUrl][1..] == [env.renderExternalUrl];
  }

  /** Once either URL is configured, the request's headers do not change
      where the gate sends its verify call. */
  lemma ConfiguredOriginIgnoresHeaders(env: Env, req: GateRequest, other: GateRequest)
    requires OrElse(env.nextAuthUrl, "") != "" || OrElse(env.renderExternalUrl, "") != ""
    ensures VerifyUrl(env, req) == VerifyUrl(env, other)
  {
  }

  function VerifyUrl(env: Env, req: GateRequest): string
  {
    Origin(env, req) + "/api/auth/verify"
  }

  function LoginUrl(req: GateRequest): string
  {
    req.origin + "/login"
  }

  /** A parsed reply that lets the request through: an object without a
      truthy `error` and with a `user`. */
  predicate Admits(json: VerifyJson)
  {
    json.JsonObject? && !Truthy(json.error) && json.user.Some?
  }

  /** The gate, for a request whose path the matcher selected. */
  function Gate(env: Env, req: GateRequest, outcome: FetchOutcome): (g: Gated)
    ensures !Usable(req.cookie) ==> g == Gated(Redirect(LoginUrl(req)), None)
    ensures Usable(req.cookie) ==> g.call == Some(SelfCall(VerifyUrl(env, req), req.cookie.value, req.host))
    ensures g.decision == Next <==> Usable(req.cookie) && outcome.OkJson? && Admits(outcome.json)
    ensures g.decision.Redirect? ==> g.decision.location == LoginUrl(req)
  {
    if !Usable(req.cookie) then Gated(Redirect(LoginUrl(req)), None)
    else
      var call := Some(SelfCall(VerifyUrl(env, req), req.cookie.value, req.host));
      match outcome
      case OkJson(json) => Gated(if Admits(json) then Next else Redirect(LoginUrl(req)), call)
      case _ => Gated(Redirect(LoginUrl(req)), call)
  }

  /** What a fetch of the verify endpoint yields when the endpoint answers `r`. */
  function Served(r: Response): (o: FetchOutcome)
    ensures o.OkJson? <==> 200 <= r.status < 300
    ensures r.body.UserBody? && 200 <= r.status < 300 ==> o == OkJson(JsonObject(Absent, Some(r.body.user)))
  {
    if 200 <= r.status < 300 then
      OkJson(match r.body
             case UserBody(user) => JsonObject(Absent, Some(user))
             case ErrorBody(error) => JsonObject(Str(error), None)
             case _ => JsonObject(Absent, None))
    else NotOk(r.status)
  }

  /** When the self-call reaches this deployment's verify endpoint with the
      forwarded cookie, the gate admits exactly the requests whose cookie
      carries a valid session. */
  lemma GateAgreesWithVerify(secret: string, now: int, env: Env, req: GateRequest)
    ensures var outcome := Served(VerifyRoute.HandleVerify(secret, req.cookie, now));
      Gate(env, req, outcome).decision == Next <==> AuthSession(secret, req.cookie, now).Some?
  {
    if Present(req.cookie) && !Usable(req.cookie) {
      assert Decode(secret, req.cookie, now) == Err(Malformed);
    }
  }

  /** Under that same wiring, an expired token is always sent to the login page. */
  lemma ExpiredIsRedirected(secret: string, now: int, env: Env, req: GateRequest)
    requires req.cookie.Some? && req.cookie.value.Jwt? && now >= req.cookie.value.exp
    ensures Gate(env, req, Served(VerifyRoute.HandleVerify(secret, req.cookie, now))).decision == Redirect(LoginUrl(req))
  {
    GateAgreesWithVerify(secret, now, env, req);
    ExpiredRefused(secret, req.cookie.value, now);
  }

  /** The matcher selects only page paths: never an API route (so the
      self-call is not gated itself), the login page or the home page. */
  lemma MatchedPagesOnly(path: string)
    requires Matched(path)
    ensures !StartsWith(path, "/api/") && path != "/login" && path != "/"
  {
    var i :| 0 <= i < |Protected| && (path == Protected[i] || StartsWith(path, Protected[i] + "/"));
    var p := Protected[i];
    ProtectedShape(i);
    assert |path| >= 2 && path[1] == p[1] by {
      if path != p {
        assert path[..|p| + 1] == p + "/";
        assert path[1] == path[..|p| + 1][1];
      }
    }
    if |path| >= 5 {
      assert path[..5][1] == path[1];
    }
  }

  /** Every protected prefix is a slash and at least one letter other than
      the initials of `/api` and `/login`. */
  lemma ProtectedShape(i: nat)
    requires i < |Protected|
    ensures |Protected[i]| >= 2 && Protected[i][1] != 'a' && Protected[i][1] != 'l'
  {
  }
}
