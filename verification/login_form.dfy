/** `components/forms/LoginForm.jsx`, `handleSubmit`: client-side checks,
    the login request, and the state the form is left in. The form's inputs
    are strings (they start out empty); the request's outcome is a parameter. */
module LoginForm {
  import opened Js
  import opened Auth
  import opened Store
  import opened Http
  import opened EmailPattern
  import LoginRoute

  /** The `errors` state: one optional message per key. */
  datatype Errors = Errors(email: Option<string>, password: Option<string>, submit: Option<string>)

  const NoErrors := Errors(None, None, None)

  /** How the request came out: it threw (network failure or a body that is
      not JSON), or a reply arrived with its `ok` flag and its `error` member. */
  datatype Reply = Threw | Replied(ok: bool, error: Field)

  /** The form after `handleSubmit`: the errors shown, the loading flag, the
      request that was sent (if any) and where the router was sent (if anywhere). */
  datatype Submitted = Submitted(
    errors: Errors,
    loading: bool,
    request: Option<LoginRoute.Credentials>,
    navigateTo: Option<string>)

  const Dashboard := "/dashboard"
  const Fallback := "Invalid email or password"
  const Unreachable := "An error occurred. Please try again."

  /** The client-side checks. The pattern check runs after the emptiness
      check on the same key, so an empty address gets the format message. */
  function Validate(email: string, password: string): (e: Errors)
    ensures e.submit.None?
    ensures e.email.Some? <==> !ValidEmail(email)
    ensures e.email.Some? ==> e.email.value == "Invalid email format"
    ensures e.password == if password == "" then Some("Password is required") else None
  {
    var fromEmpty := if email == "" then Some("Email is required") else None;
    var fromPattern := if !ValidEmail(email) then Some("Invalid email format") else fromEmpty;
    Errors(fromPattern, if password == "" then Some("Password is required") else None, None)
  }

  /** `handleSubmit`. `reply` is only consulted when a request is sent. */
  function HandleSubmit(email: string, password: string, reply: Reply): (s: Submitted)
    ensures !s.loading
    ensures s.request.Some? <==> ValidEmail(email) && password != ""
    ensures s.request.Some? ==> s.request.value == LoginRoute.Credentials(Str(email), Str(password))
    ensures s.request.None? ==> s.errors == Validate(email, password) && s.navigateTo.None?
    ensures s.navigateTo.Some? <==> s.request.Some? && reply.Replied? && reply.ok
    ensures s.navigateTo.Some? ==> s.navigateTo.value == Dashboard && s.errors == NoErrors
    ensures s.request.Some? && reply.Threw? ==> s.errors == Errors(None, None, Some(Unreachable))
    ensures s.request.Some? && reply.Replied? && !reply.ok ==>
      s.errors == Errors(None, None, Some(if Truthy(reply.error) then reply.error.s else Fallback))
  {
    var checked := Validate(email, password);
    if checked != NoErrors then Submitted(checked, false, None, None)
    else
      var request := Some(LoginRoute.Credentials(Str(email), Str(password)));
      match reply
      case Threw => Submitted(Errors(None, None, Some(Unreachable)), false, request, None)
      case Replied(ok, error) =>
        if ok then Submitted(NoErrors, false, request, Some(Dashboard))
        else Submitted(Errors(None, None, Some(if Truthy(error) then error.s else Fallback)), false, request, None)
  }

  /** The "Email is required" message is never shown: the pattern check
      overwrites it, since the empty string does not match. */
  lemma EmailRequiredNeverShown(email: string, password: string)
    ensures Validate(email, password).email != Some("Email is required")
    ensures email == "" ==> Validate(email, password).email == Some("Invalid email format")
  {
    if email == "" {
      NoAtNoEmail(email);
    }
  }

  /** What the form sees of a login response. */
  function ReplyOf(r: Response): Reply
  {
    Replied(200 <= r.status < 300, if r.body.ErrorBody? then Str(r.body.error) else Absent)
  }

  /** A request the form sends carries an address the servers' e-mail check
      accepts, always passes the login handler's field check and never gets
      its 400 or its 500: the handler rejects it only with its 401 or 403. */
  lemma SentRequestPassesServerChecks(email: string, password: string, reply: Reply, secret: string,
                                      now: int, db: Db, matches: (string, string) -> bool)
    requires HandleSubmit(email, password, reply).request.Some?
    ensures EmailTest(HandleSubmit(email, password, reply).request.value.email)
    ensures var r := LoginRoute.Login(secret, now, HandleSubmit(email, password, reply).request, db, matches);
      r.status in {200, 401, 403}
  {
    assert EmailTest(Str(email));
  }

  /** Wired to the login handler, the form goes to the dashboard exactly when
      the handler signs the user in, and otherwise shows the handler's own
      message. */
  lemma SubmitAgainstLogin(email: string, password: string, secret: string, now: int, db: Db,
                           matches: (string, string) -> bool)
    requires ValidEmail(email) && password != ""
    ensures var r := LoginRoute.Login(secret, now, Some(LoginRoute.Credentials(Str(email), Str(password))), db, matches);
      var s := HandleSubmit(email, password, ReplyOf(r));
      && (s.navigateTo == Some(Dashboard) <==> r.status == 200)
      && (r.status != 200 ==> s.errors.submit == Some(r.body.error))
  {
    var body := Some(LoginRoute.Credentials(Str(email), Str(password)));
    SentRequestPassesServerChecks(email, password, Threw, secret, now, db, matches);
    var r := LoginRoute.Login(secret, now, body, db, matches);
    assert r.status == 401 ==> r == LoginRoute.Rejected;
  }
}
