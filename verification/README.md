# Team Scheduling: sessions, authorisation and validation in Dafny

This project models the session and authorisation layer of the Team Scheduling
web application, together with the input checks around it. Managers register a
company and then sign in. They list, create, edit and delete the users of
their own company. A signed token in the `token` cookie carries the session.
An edge middleware gates the protected pages by asking the app's own verify
endpoint. On the client, the login form validates before it submits, and the
navigation bar shows links by role.

Every handler is a pure function from the request, the verification clock, the
store and the outcomes of calls the model cannot see, to a response and (where
the handler writes) a new store.

| file | module | models |
|---|---|---|
| `js.dfy` | `Js` | optional values, body fields (`undefined`, `null` or a string), truthiness, `String(x)`, `a \|\| b` |
| `email.dfy` | `EmailPattern` | the shared e-mail pattern as a recogniser, and its declarative reading |
| `auth.dfy` | `Auth` | `lib/auth.js`: a symbolic token codec, `generateToken`, `verifyToken`, `auth` |
| `seqs.dfy` | `Seqs` | first-match search and filtering over sequences |
| `store.dfy` | `Store` | users, companies, lookups, uniqueness invariants |
| `http.dfy` | `Http` | JSON bodies, status codes, the session cookie |
| `users_route.dfy` | `UsersRoute` | `app/api/users/route.js` GET, POST, PUT, DELETE |
| `users_props.dfy` | `UsersProperties` | uniqueness, tenant isolation and exact effect of the user handlers |
| `register_route.dfy` | `RegisterRoute` | `app/api/companies/register/route.js` |
| `login_route.dfy` | `LoginRoute` | `app/api/auth/login/route.js` |
| `verify_route.dfy` | `VerifyRoute` | `app/api/auth/verify/route.js` |
| `middleware.dfy` | `Middleware` | `middleware.jsx`: the gate, the origin, the matcher |
| `login_form.dfy` | `LoginForm` | `handleSubmit` of `components/forms/LoginForm.jsx` |
| `navbar.dfy` | `Navbar` | fetch outcome, render gate, link filter and logout of `components/Navbar.jsx` |

Modelling choices:

- **Tokens.** A token is symbolic: `Jwt(claims, key, iat, exp)` or any other
  text. The library checks the signature first and then the expiry. A token
  has expired once the clock reaches `exp`. The model tells four refusals
  apart, each with the library's message: "jwt must be provided", "jwt
  malformed", "invalid signature" and "jwt expired". The library has other
  refusals; the model folds them into "jwt malformed" (see "Left out").
- **The store.** Users and companies are sequences in insertion order.
  `findOne` is the first match. `findById` of a missing or `null` id finds
  nothing. How a create or save comes out is a parameter: written, refused
  by schema validation with a message, or failed. A new id that is already
  taken fails as a duplicate key.
- **Passwords.** `bcrypt.compare` is the parameter `matches`.
- **What the user handlers do with a bad token.** The `!session` guard in
  `app/api/users/route.js` never fires. `verifyToken` returns a failure
  object, and that object is truthy. Reading `session.user.role` on it
  throws, and the catch answers 500. So POST, PUT and DELETE answer 500
  with no token, and every method answers 500 with a token that does not
  verify. GET answers 401 when there is no `token` cookie or its value is
  empty, before it calls `verifyToken`.
- **Non-managers.** A signed-in user who is not a manager gets 401, not 403.

## Model

| member | source | states |
|---|---|---|
| Auth.Decode | lib/auth.js:15 | verification succeeds exactly for a token signed with the secret whose expiry is still ahead; otherwise a missing or empty token is "not provided", other text is malformed, another key is a bad signature (checked before expiry), and a reached expiry is "expired" |
| Auth.GenerateToken | lib/auth.js:23-25 | the token verifies to exactly the payload, stamped with issue time and issue time + 3600, at every instant before expiry, to "expired" from then on, and to a bad signature under any other secret |
| Auth.VerifyToken | lib/auth.js:27-35 | a session exactly when the token decodes, holding the decoded payload; otherwise a failure with a non-empty message and status 401, never anything else |
| Auth.AuthSession | lib/auth.js:6-21 | null without a token cookie; otherwise a user exactly when `verifyToken` gives a session, and the same decoded payload |
| Auth.RoundTrip | lib/auth.js:23-35 | verify(sign(p)) yields p at any time before the hour is up |
| Auth.ExpiredRefused | lib/auth.js:27-35 | an expired token is refused by `verifyToken` and by `auth` whatever its signature |
| EmailPattern.EmailTest | app/api/users/route.js:61 | only a non-empty string field can pass the pattern; `undefined` and `null` do not |
| EmailPattern.ValidEmailShape | app/api/users/route.js:61 | the pattern accepts exactly `L "@" L "." T`, with L a label of word characters and single separators that starts and ends with a word character, and T two or three word characters |
| EmailPattern.ValidEmailIsShaped | app/api/companies/register/route.js:19 | every accepted address splits as label, "@", label, ".", top-level part |
| EmailPattern.ShapedIsValid | components/forms/LoginForm.jsx:27 | every address of that shape is accepted |
| EmailPattern.DomainShape | app/api/users/route.js:61 | the part after "@" is accepted exactly when it is a label, a dot and a 2-3 character top-level part |
| EmailPattern.WordsIsLabel | app/api/users/route.js:61 | `\w+([.-]?\w+)*` matches exactly the labels |
| Store.ParseRole | app/api/users/route.js:58-60 | a role is accepted exactly when it is the string MANAGER or EMPLOYEE, and names that role |
| UsersRoute.Listing | app/api/users/route.js:27-36 | every listed entry is the projection of a user of the company, every user of the company appears, and there are exactly as many entries as company users |
| UsersRoute.ListingInStoreOrder | app/api/users/route.js:27-36 | the listing is the company's users in store order, each once: entry k is the projection of the user at the k-th of a strictly increasing list of store positions that covers every company user |
| UsersRoute.Get | app/api/users/route.js:8-43 | no cookie or an empty one gives 401; a token that does not verify gives 500; a signed-in non-manager gets 401; 200 exactly for a manager session, listing that session's company |
| UsersRoute.Post | app/api/users/route.js:45-91 | failure (500), non-manager (401), company (403), role, e-mail, password (400), then an address already in use (400), checked in that order; an unreadable body, a taken id or a failed create answers 500 "Failed to create user"; 201 exactly when all checks pass, the address is free and the write succeeds; then exactly one active user is appended, otherwise the store is unchanged |
| UsersRoute.Put | app/api/users/route.js:93-137 | the same gate and checks, then 404 for a missing id, 403 for another company's user, 400 for an address held by another user; an unreadable body, a target user without a company (its `toString()` throws) or a failed save answers 500 "Failed to update user"; 200 exactly when the role and e-mail are valid, the user exists in the session's company, no other user holds the address and the save succeeds; then only the addressed user is replaced by the edited one |
| UsersRoute.Delete | app/api/users/route.js:139-168 | the same gate and company check, then 404 and 403; an unreadable body or a target user without a company answers 500 "Failed to delete user"; 200 exactly when the addressed user exists and belongs to the session's company, and then exactly that position is removed |
| UsersProperties.PostKeepsUnique | app/api/users/route.js:69-81 | create keeps user ids and e-mail addresses unique across all companies |
| UsersProperties.PutKeepsUnique | app/api/users/route.js:122-130 | update keeps user ids and e-mail addresses unique across all companies |
| UsersProperties.DeleteKeepsUnique | app/api/users/route.js:162-163 | delete keeps both uniqueness invariants |
| UsersProperties.PostStaysInTenant | app/api/users/route.js:55-57 | the users outside the session's company are the same before and after a create |
| UsersProperties.PutStaysInTenant | app/api/users/route.js:103-120 | the users outside the session's company are the same before and after an update |
| UsersProperties.DeleteStaysInTenant | app/api/users/route.js:149-160 | the users outside the session's company are the same before and after a delete |
| UsersProperties.DeleteRemovesExactly | app/api/users/route.js:154-163 | after a successful delete a user is stored exactly when it was stored before and does not carry the given id |
| UsersProperties.PutChangesOnlyTarget | app/api/users/route.js:114-130 | a successful update leaves every other user alone and, of the addressed user, changes only name, e-mail and role |
| RegisterRoute.WriteFailure | app/api/companies/register/route.js:79-85 | a create refused by schema validation is answered 400 with the validation message; any other failure is answered 500 "Failed to register company" |
| RegisterRoute.Register | app/api/companies/register/route.js:8-86 | an unreadable body answers 500 "Failed to register company"; the four validation steps in order, the company e-mail check ahead of the user e-mail check; 201 exactly when all pass and both creates succeed, adding one company and one active manager of it and setting the cookie; a failed company create answers its write failure and changes nothing; a failed manager create answers its write failure and leaves exactly the new company behind; every answer other than 201 sets no cookie and leaves the users unchanged |
| RegisterRoute.Create | app/api/companies/register/route.js:40-85 | once the body is valid and both addresses are free: a failed company create answers its write failure and leaves the store as it was; a failed manager create answers its write failure and keeps the new company; 201 exactly when both creates succeed, and then one company and its one active manager are added and a manager token is issued |
| RegisterRoute.RegisterKeepsConsistent | app/api/companies/register/route.js:29-54 | registration keeps user ids, user e-mails, company ids and company e-mails unique |
| RegisterRoute.RegisteredSessionIsManager | app/api/companies/register/route.js:57-77 | for the next hour the cookie set on success is a manager session for the new user and company, carrying the company's name |
| RegisterRoute.RegisteredManagerListsOnlySelf | app/api/companies/register/route.js:41-64 | when every stored user's company exists, a manager who has just registered and lists users with that cookie sees exactly themself |
| LoginRoute.CompanyName | app/api/auth/login/route.js:38-42 | "Unknown" without a company id or when the company is not found, else the company's name |
| LoginRoute.Login | app/api/auth/login/route.js:9-68 | an unreadable body gives 500 "Failed to sign in"; missing fields give 400; an unknown address and a wrong password give the same 401; 403 only after the password matched, and a matching password gives 200 or 403 by the stored user's active flag; 200 exactly for a matching active user, with a token for that user's stored data |
| LoginRoute.LoginSessionMatchesUser | app/api/auth/login/route.js:45-63 | for the next hour the cookie set on success is a session with the stored user's id, e-mail, role and company |
| LoginRoute.InactiveWrongPasswordLooksUnknown | app/api/auth/login/route.js:21-35 | an inactive account with a wrong password gets the same response as an unknown address |
| VerifyRoute.HandleVerify | app/api/auth/verify/route.js:6-19 | no token gives 401 "No token provided"; 200 exactly when `auth` would see a session, carrying that payload; otherwise 401 with the library's message; no cookie is set |
| VerifyRoute.IssuedTokenVerifies | app/api/auth/verify/route.js:13-18 | an issued token is reported with its payload and times until it expires and as "jwt expired" afterwards |
| Middleware.Origin | middleware.jsx:18-20 | NEXTAUTH_URL, else RENDER_EXTERNAL_URL, else protocol (default https) and host, empty values counting as unset |
| Middleware.OriginIsFirstSet | middleware.jsx:18-20 | the origin equals an independent first-set-value reading of the two `\|\|` chains: the configured URLs in order, then the protocol (default https) and host |
| Middleware.ConfiguredOriginIgnoresHeaders | middleware.jsx:18-25 | once either URL is configured, the verify URL is the same whatever the request's protocol and host headers |
| Middleware.Gate | middleware.jsx:5-65 | an unusable token redirects to /login with no call; otherwise the verify URL is called with the token and host; the request goes through exactly when the reply is 2xx JSON with a user and no error; every other case redirects to /login |
| Middleware.GateAgreesWithVerify | middleware.jsx:25-59 | answered by this app's verify endpoint, the gate lets a request through exactly when its cookie carries a valid session |
| Middleware.ExpiredIsRedirected | middleware.jsx:41-64 | under that wiring an expired token is always redirected to /login |
| Middleware.MatchedPagesOnly | middleware.jsx:67-76 | the matcher never selects an API route, /login or / |
| LoginForm.Validate | components/forms/LoginForm.jsx:24-29 | the e-mail message is "Invalid email format" exactly when the pattern rejects the address, the empty one included; the password message exactly for an empty password |
| LoginForm.HandleSubmit | components/forms/LoginForm.jsx:18-64 | a request is sent exactly when both checks pass; loading always ends; a 2xx reply goes to /dashboard; other replies show the server's error or "Invalid email or password"; a thrown request shows "An error occurred. Please try again." |
| LoginForm.EmailRequiredNeverShown | components/forms/LoginForm.jsx:25-29 | "Email is required" is never shown; an empty address gets "Invalid email format" |
| LoginForm.SentRequestPassesServerChecks | components/forms/LoginForm.jsx:27 | a sent address passes the servers' e-mail check, and the login handler never answers it 400 or 500 |
| LoginForm.SubmitAgainstLogin | components/forms/LoginForm.jsx:51-57 | against the login handler, the form reaches the dashboard exactly when the handler signs in, and otherwise shows the handler's message |
| Navbar.FetchedUser | components/Navbar.jsx:57-74 | a user only from a 2xx JSON reply that has one; a non-2xx reply, a thrown fetch or a reply without a user give none |
| Navbar.Fetched | components/Navbar.jsx:39-79 | when the fetch finishes, loading ends and the user is the fetched one, whatever the outcome |
| Navbar.ShownIsFilter | components/Navbar.jsx:168 | the visible links are the links of the entries that the generic filter keeps for `show` |
| Navbar.ShownInOrder | components/Navbar.jsx:168 | the visible links are the links of the shown entries, each once and in list order: a strictly increasing list of positions that covers every shown entry |
| Navbar.ShownForRole | components/Navbar.jsx:141-153 | a manager sees the four common links and then Employees and Company; anyone else with a user sees the four; Login and Register never show |
| Navbar.Render | components/Navbar.jsx:107-153 | nothing before mount, a placeholder while loading, and the bar exactly for a user whose role is EMPLOYEE or MANAGER, with a manager's six links or an employee's four |
| Navbar.Logout | components/Navbar.jsx:90-104 | the user is cleared, both menus close and the router goes to /login, whatever the logout request did |
| Navbar.LoggedOutShowsNoBar | components/Navbar.jsx:90-137 | after logout the bar is not rendered |
| Navbar.NavbarAgreesWithVerify | components/Navbar.jsx:39-80 | answered by this app's verify endpoint, the bar's user is exactly the cookie's session, and the bar shows exactly for a session with a known role |
| Navbar.BarLinksAreGuarded | components/Navbar.jsx:141-148 | every link of the bar except Home leads to a page the middleware guards |

## Left out

- Database connection (`connectDB`) and driver errors. Failures outside the
  modelled checks are not modelled, for example a malformed id that makes
  `findById` throw; the store has no such failure mode. A create or save
  failing is a parameter.
- Non-string JSON values in request bodies (numbers, objects, arrays). Fields
  are missing, `null` or strings.
- Mongoose's treatment of an `undefined` query value. `User.find({ companyId })`
  is taken to select the users whose company equals the session's,
  including "no company" for a session without one.
- The internals of JSON Web Tokens: encoding, HMAC signing and clock skew.
  The token is symbolic.
- An unset signing secret. The secret is a parameter and is the same for
  signing and verifying.
- `password.length` counts UTF-16 code units; the model counts characters.
- Hashing of stored passwords (a schema hook, not part of this model) and
  bcrypt itself. Comparison is the parameter `matches`.
- The order of `Promise.all` in registration and all concurrency between
  requests.
- The `isCancelled` guard in the navigation bar's fetch. The model describes
  a component that is still mounted.
- JSX markup, styling, icons, the user menu contents and console logging.
- The mobile menu and the user menu toggles. Only their reset on logout is
  modelled.
- The logout, shift and time-entry endpoints, the dashboard statistics and
  the sign-out button. They are not part of this model.
- Next.js cookie and header parsing. The `token` cookie is given directly,
  and the gate's `Cookie: token=<token>` header is modelled as the token it
  forwards.
- Natural order of documents is modelled as insertion order.
- Auth.Decode: the model tells apart only a missing token, malformed text,
  a wrong signature and a reached expiry. Other refusals of the token
  library (for example "invalid token", or an unexpected algorithm) are
  folded into "jwt malformed", because the token is symbolic.
