/** `app/api/auth/login/route.js`: credential check and token issue. The
    handler only reads the store, so it returns a response and no store.
    `bcrypt.compare(candidate, stored)` is the parameter `matches`. */
module LoginRoute {
  import opened Js
  import opened Seqs
  import opened Auth
  import opened Store
  import opened Http

  /** The body: `{ email, password }`. */
  datatype Credentials = Credentials(email: Field, password: Field)

  const Rejected := Error(401, "Invalid email or password")
  const Inactive := Error(403, "Account is not active")

  /** The company name put into the token: "Unknown" when the user has no
      company or the company is not found. */
  function CompanyName(companies: seq<Company>, c: Option<Id>): (name: string)
    ensures c.None? ==> name == "Unknown"
    ensures c.Some? && (forall j | 0 <= j < |companies| :: companies[j].id != c.value) ==> name == "Unknown"
    ensures c.Some? && CompanyWithId(companies, c.value).Some? ==>
      name == companies[CompanyWithId(companies, c.value).value].name
  {
    match c
    case None => "Unknown"
    case Some(id) =>
      match CompanyWithId(companies, id)
      case None => "Unknown"
      case Some(i) => companies[i].name
  }

  /** The payload signed for user `u`: role and company come from the store. */
  function UserClaims(u: User, companies: seq<Company>): Claims
  {
    Claims(u.id, u.email, u.name, RoleName(u.role), CompanyField(u.companyId), CompanyName(companies, u.companyId))
  }

  /** The user `findOne({ email })` finds for a truthy e-mail field. */
  function Found(users: seq<User>, email: Field): Option<nat>
  {
    if email.Str? then UserWithEmail(users, email.s) else None
  }

  /** POST /api/auth/login. */
  function Login(secret: string, now: int, body: Option<Credentials>, db: Db,
                 matches: (string, string) -> bool): (r: Response)
    ensures body.None? ==> r == Error(500, "Failed to sign in")
    ensures body.Some? && !(Truthy(body.value.email) && Truthy(body.value.password)) ==>
      r == Error(400, "Email and password are required")
    ensures r.status == 401 ==> r == Rejected
    ensures r.status == 401 <==>
      && body.Some? && Truthy(body.value.email) && Truthy(body.value.password)
      && (|| (forall j | 0 <= j < |db.users| :: db.users[j].email != body.value.email.s)
          || !matches(body.value.password.s, db.users[Found(db.users, body.value.email).value].password))
    ensures r.status == 403 ==> r == Inactive
    ensures r.status == 403 || r.status == 200 ==>
      && body.Some? && Truthy(body.value.email) && Truthy(body.value.password)
      && Found(db.users, body.value.email).Some?
      && var u := db.users[Found(db.users, body.value.email).value];
      && u.email == body.value.email.s
      && matches(body.value.password.s, u.password)
      && (r.status == 200 <==> u.isActive)
    ensures body.Some? && Truthy(body.value.email) && Truthy(body.value.password)
            && Found(db.users, body.value.email).Some?
            && matches(body.value.password.s, db.users[Found(db.users, body.value.email).value].password) ==>
      r.status == (if db.users[Found(db.users, body.value.email).value].isActive then 200 else 403)
    ensures r.status == 200 ==>
      var u := db.users[Found(db.users, body.value.email).value];
      r == WithSession(200, MessageBody("Login successful"), GenerateToken(secret, UserClaims(u, db.companies), now))
    ensures r.status in {200, 400, 401, 403, 500}
  {
    if body.None? then Error(500, "Failed to sign in")
    else
      var b := body.value;
      if !Truthy(b.email) || !Truthy(b.password) then Error(400, "Email and password are required")
      else match Found(db.users, b.email)
        case None => Rejected
        case Some(i) =>
          var u := db.users[i];
          if !matches(b.password.s, u.password) then Rejected
          else if !u.isActive then Inactive
          else
            var token := GenerateToken(secret, UserClaims(u, db.companies), now);
            WithSession(200, MessageBody("Login successful"), token)
  }

  /** A successful login hands out, for the next hour, a session whose role,
      company and id are the stored user's. */
  lemma LoginSessionMatchesUser(secret: string, now: int, body: Option<Credentials>, db: Db,
                                matches: (string, string) -> bool, at: int)
    requires Login(secret, now, body, db, matches).status == 200
    requires at < now + Lifetime
    ensures var r := Login(secret, now, body, db, matches);
      && r.cookie.Some? && r.cookie.value.maxAge == 3600
      && var v := VerifyToken(secret, Some(r.cookie.value.token), at);
      && var u := db.users[Found(db.users, body.value.email).value];
      && v.Session?
      && v.user.claims.id == u.id
      && v.user.claims.email == body.value.email.s
      && v.user.claims.role == RoleName(u.role)
      && v.user.claims.companyId == CompanyField(u.companyId)
      && (u.companyId.None? ==> v.user.claims.companyName == "Unknown")
  {
  }

  /** An inactive account with a wrong password is told the same as an
      unknown address: the activity check comes after the password check. */
  lemma InactiveWrongPasswordLooksUnknown(secret: string, now: int, email: string, password: string,
                                          db: Db, matches: (string, string) -> bool)
    requires email != "" && password != ""
    requires UserWithEmail(db.users, email).Some?
    requires !db.users[UserWithEmail(db.users, email).value].isActive
    requires !matches(password, db.users[UserWithEmail(db.users, email).value].password)
    ensures Login(secret, now, Some(Credentials(Str(email), Str(password))), db, matches) ==
            Login(secret, now, Some(Credentials(Str(email), Str(password))), Db([], db.companies), matches)
  {
  }
}
