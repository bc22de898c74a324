/** `app/api/companies/register/route.js`: company self-registration. Ordered
    validation, duplicate checks, then a company and its first manager are
    created (without a transaction) and a session token is issued. */
module RegisterRoute {
  import opened Js
  import opened Seqs
  import opened Auth
  import opened Store
  import opened Http
  import opened EmailPattern
  import UsersRoute

  /** The body: `{ companyName, companyEmail, email, password, managerName, role }`. */
  datatype Registration = Registration(
    companyName: Field,
    companyEmail: Field,
    email: Field,
    password: Field,
    managerName: Field,
    role: Field)

  datatype Registered = Registered(response: Response, db: Db)

  const Failed := Error(500, "Failed to register company")
  const Welcome := "Company and manager registered successfully"

  /** The first check: all five fields must be truthy. */
  predicate AllPresent(b: Registration)
  {
    Truthy(b.companyName) && Truthy(b.companyEmail) && Truthy(b.email) && Truthy(b.password) && Truthy(b.managerName)
  }

  /** All four validation steps pass. */
  predicate Validated(b: Registration)
  {
    && AllPresent(b)
    && |b.password.s| >= 6
    && EmailTest(b.email) && EmailTest(b.companyEmail)
    && b.role == Str("MANAGER")
  }

  /** Neither the company e-mail nor the manager's e-mail is in use yet. */
  predicate EmailsFree(b: Registration, db: Db)
    requires AllPresent(b)
  {
    && (forall j | 0 <= j < |db.companies| :: db.companies[j].email != b.companyEmail.s)
    && (forall j | 0 <= j < |db.users| :: db.users[j].email != b.email.s)
  }

  /** The catch block: a schema `ValidationError` is answered 400 with its message, anything else 500. */
  function WriteFailure(w: WriteOutcome): (r: Response)
    requires w != Written
    ensures w.Invalid? ==> r == Error(400, w.message)
    ensures w.StoreError? ==> r == Failed
  {
    match w
    case Invalid(message) => Error(400, message)
    case StoreError => Failed
  }

  /** A create whose id is already in use fails with a duplicate-key error. */
  function Effective(w: WriteOutcome, idTaken: bool): WriteOutcome
  {
    if idTaken then StoreError else w
  }

  function NewCompany(b: Registration, companyId: Id): Company
    requires AllPresent(b)
  {
    Company(companyId, b.companyName.s, b.companyEmail.s)
  }

  function NewManager(b: Registration, companyId: Id, userId: Id): User
    requires AllPresent(b)
  {
    User(userId, b.email.s, b.password.s, b.managerName, Manager, Some(companyId), true)
  }

  /** The payload signed for the new manager. */
  function ManagerClaims(b: Registration, companyId: Id, userId: Id): Claims
    requires AllPresent(b)
  {
    Claims(userId, b.email.s, b.managerName, "MANAGER", Str(companyId), b.companyName.s)
  }

  /** POST /api/companies/register. `companyId` and `userId` are the ids the
      store assigns; `companyWrite` and `managerWrite` are how the two
      creates come out. */
  function Register(secret: string, now: int, body: Option<Registration>, db: Db,
                    companyId: Id, userId: Id, companyWrite: WriteOutcome, managerWrite: WriteOutcome): (r: Registered)
    ensures body.None? ==> r == Registered(Failed, db)
    ensures body.Some? && !AllPresent(body.value) ==> r == Registered(Error(400, "Missing required fields"), db)
    ensures body.Some? && AllPresent(body.value) && |body.value.password.s| < 6 ==>
      r == Registered(Error(400, "Password must be at least 6 characters"), db)
    ensures body.Some? && AllPresent(body.value) && |body.value.password.s| >= 6
            && !(EmailTest(body.value.email) && EmailTest(body.value.companyEmail)) ==>
      r == Registered(Error(400, "Invalid email format"), db)
    ensures body.Some? && AllPresent(body.value) && |body.value.password.s| >= 6
            && EmailTest(body.value.email) && EmailTest(body.value.companyEmail) && body.value.role != Str("MANAGER") ==>
      r == Registered(Error(400, "Invalid role for company registration"), db)
    ensures body.Some? && Validated(body.value) && CompanyWithEmail(db.companies, body.value.companyEmail.s).Some? ==>
      r == Registered(Error(400, "Company email already exists"), db)
    ensures body.Some? && Validated(body.value) && CompanyWithEmail(db.companies, body.value.companyEmail.s).None?
            && UserWithEmail(db.users, body.value.email.s).Some? ==>
      r == Registered(Error(400, "User email already exists"), db)
    ensures body.Some? && Validated(body.value)
            && EmailsFree(body.value, db)
            && Effective(companyWrite, CompanyIdTaken(db.companies, companyId)) != Written ==>
      r == Registered(WriteFailure(Effective(companyWrite, CompanyIdTaken(db.companies, companyId))), db)
    ensures body.Some? && Validated(body.value)
            && EmailsFree(body.value, db)
            && Effective(companyWrite, CompanyIdTaken(db.companies, companyId)) == Written
            && Effective(managerWrite, UserIdTaken(db.users, userId)) != Written ==>
      && r.db == db.(companies := db.companies + [NewCompany(body.value, companyId)])
      && r.response == WriteFailure(Effective(managerWrite, UserIdTaken(db.users, userId)))
    ensures r.response.status == 201 <==>
      && body.Some? && Validated(body.value)
      && EmailsFree(body.value, db)
      && !CompanyIdTaken(db.companies, companyId) && companyWrite == Written
      && !UserIdTaken(db.users, userId) && managerWrite == Written
    ensures r.response.status == 201 ==>
      var b := body.value;
      && r.db == Db(db.users + [NewManager(b, companyId, userId)], db.companies + [NewCompany(b, companyId)])
      && r.response == WithSession(201, CompanyRegistered(Welcome, companyId, userId),
                                   GenerateToken(secret, ManagerClaims(b, companyId, userId), now))
    ensures r.response.status != 201 ==>
      && r.response.cookie.None?
      && r.db.users == db.users
      && (r.db.companies == db.companies ||
          (&& body.Some? && AllPresent(body.value)
           && r.db.companies == db.companies + [NewCompany(body.value, companyId)]
           && Effective(managerWrite, UserIdTaken(db.users, userId)) != Written
           && r.response == WriteFailure(Effective(managerWrite, UserIdTaken(db.users, userId)))))
  {
    if body.None? then Registered(Failed, db)
    else
      var b := body.value;
      if !AllPresent(b) then Registered(Error(400, "Missing required fields"), db)
      else if |b.password.s| < 6 then Registered(Error(400, "Password must be at least 6 characters"), db)
      else if !EmailTest(b.email) || !EmailTest(b.companyEmail) then Registered(Error(400, "Invalid email format"), db)
      else if b.role != Str("MANAGER") then Registered(Error(400, "Invalid role for company registration"), db)
      else if CompanyWithEmail(db.companies, b.companyEmail.s).Some? then
        Registered(Error(400, "Company email already exists"), db)
      else if UserWithEmail(db.users, b.email.s).Some? then Registered(Error(400, "User email already exists"), db)
      else Create(secret, now, b, db, companyId, userId, companyWrite, managerWrite)
  }

  /** The two creates after validation: the company first, then its manager.
      There is no transaction, so a failed manager create leaves the company. */
  function Create(secret: string, now: int, b: Registration, db: Db,
                  companyId: Id, userId: Id, companyWrite: WriteOutcome, managerWrite: WriteOutcome): (r: Registered)
    requires Validated(b) && EmailsFree(b, db)
    ensures Effective(companyWrite, CompanyIdTaken(db.companies, companyId)) != Written ==>
      r == Registered(WriteFailure(Effective(companyWrite, CompanyIdTaken(db.companies, companyId))), db)
    ensures Effective(companyWrite, CompanyIdTaken(db.companies, companyId)) == Written
            && Effective(managerWrite, UserIdTaken(db.users, userId)) != Written ==>
      && r.db == db.(companies := db.companies + [NewCompany(b, companyId)])
      && r.response == WriteFailure(Effective(managerWrite, UserIdTaken(db.users, userId)))
    ensures r.response.status == 201 <==>
      !CompanyIdTaken(db.companies, companyId) && companyWrite == Written
      && !UserIdTaken(db.users, userId) && managerWrite == Written
    ensures r.response.status == 201 ==>
      && r.db == Db(db.users + [NewManager(b, companyId, userId)], db.companies + [NewCompany(b, companyId)])
      && r.response == WithSession(201, CompanyRegistered(Welcome, companyId, userId),
                                   GenerateToken(secret, ManagerClaims(b, companyId, userId), now))
  {
    var companyOutcome := Effective(companyWrite, CompanyIdTaken(db.companies, companyId));
    if companyOutcome != Written then Registered(WriteFailure(companyOutcome), db)
    else
      // the company stays even when the manager cannot be created
      var withCompany := db.(companies := db.companies + [NewCompany(b, companyId)]);
      var managerOutcome := Effective(managerWrite, UserIdTaken(db.users, userId));
      if managerOutcome != Written then Registered(WriteFailure(managerOutcome), withCompany)
      else
        var token := GenerateToken(secret, ManagerClaims(b, companyId, userId), now);
        Registered(WithSession(201, CompanyRegistered(Welcome, companyId, userId), token),
                   withCompany.(users := db.users + [NewManager(b, companyId, userId)]))
  }

  /** Registration keeps the store consistent: user ids and e-mails stay
      unique, and so do company ids and e-mails. */
  lemma RegisterKeepsConsistent(secret: string, now: int, body: Option<Registration>, db: Db,
                                companyId: Id, userId: Id, companyWrite: WriteOutcome, managerWrite: WriteOutcome)
    requires Consistent(db)
    ensures Consistent(Register(secret, now, body, db, companyId, userId, companyWrite, managerWrite).db)
  {
    var r := Register(secret, now, body, db, companyId, userId, companyWrite, managerWrite);
    if r.db.companies != db.companies {
      var b := body.value;
      assert !CompanyIdTaken(db.companies, companyId);
      assert CompanyWithEmail(db.companies, b.companyEmail.s).None?;
    }
    if r.response.status == 201 {
      AppendKeepsUnique(db.users, NewManager(body.value, companyId, userId));
    }
  }

  /** The cookie set on success carries, for the next hour, a manager session
      for the new company and the new user. */
  lemma RegisteredSessionIsManager(secret: string, now: int, body: Option<Registration>, db: Db,
                                   companyId: Id, userId: Id, companyWrite: WriteOutcome,
                                   managerWrite: WriteOutcome, at: int)
    requires Register(secret, now, body, db, companyId, userId, companyWrite, managerWrite).response.status == 201
    requires at < now + Lifetime
    ensures var r := Register(secret, now, body, db, companyId, userId, companyWrite, managerWrite);
      && r.response.cookie.Some? && r.response.cookie.value.maxAge == 3600
      && var v := VerifyToken(secret, Some(r.response.cookie.value.token), at);
      && UsersRoute.IsManager(v)
      && v.user.claims.id == userId
      && v.user.claims.companyId == Str(companyId)
      && v.user.claims.companyName == body.value.companyName.s
  {
  }

  /** A company with no users in the store has an empty listing. */
  lemma {:induction false} NoneInside(users: seq<User>, c: Id)
    requires forall j | 0 <= j < |users| :: users[j].companyId != Some(c)
    ensures Filter(users, Inside(Some(c))) == []
    decreases |users|
  {
    if |users| > 0 {
      NoneInside(users[1..], c);
    }
  }

  /** The listing of a company whose only user is the one just appended. */
  lemma ListingOfNewcomer(users: seq<User>, m: User, c: Id)
    requires forall j | 0 <= j < |users| :: users[j].companyId != Some(c)
    requires m.companyId == Some(c)
    ensures UsersRoute.Listing(users + [m], Some(c)) == [UsersRoute.View(m)]
  {
    NoneInside(users, c);
    FilterAppend(users, [m], Inside(Some(c)));
    assert Filter([m], Inside(Some(c))) == [m];
  }

  /** End to end: when every stored user belongs to a stored company, the
      freshly registered manager, listing users with the cookie just set,
      sees exactly one user: themself. */
  lemma RegisteredManagerListsOnlySelf(secret: string, now: int, body: Option<Registration>, db: Db,
                                       companyId: Id, userId: Id, companyWrite: WriteOutcome,
                                       managerWrite: WriteOutcome, at: int)
    requires forall j | 0 <= j < |db.users| ::
      db.users[j].companyId.Some? ==> CompanyIdTaken(db.companies, db.users[j].companyId.value)
    requires Register(secret, now, body, db, companyId, userId, companyWrite, managerWrite).response.status == 201
    requires at < now + Lifetime
    ensures var r := Register(secret, now, body, db, companyId, userId, companyWrite, managerWrite);
      UsersRoute.Get(secret, at, Some(r.response.cookie.value.token), r.db.users) ==
        Response(200, UserList([UsersRoute.View(NewManager(body.value, companyId, userId))]), None)
  {
    var r := Register(secret, now, body, db, companyId, userId, companyWrite, managerWrite);
    var m := NewManager(body.value, companyId, userId);
    assert !CompanyIdTaken(db.companies, companyId);
    assert r.db.users == db.users + [m];
    RegisteredSessionIsManager(secret, now, body, db, companyId, userId, companyWrite, managerWrite, at);
    var cookie := Some(r.response.cookie.value.token);
    var v := VerifyToken(secret, cookie, at);
    assert UsersRoute.SessionCompany(v.user) == Some(companyId);
    assert Present(cookie);
    assert forall j | 0 <= j < |db.users| :: db.users[j].companyId != Some(companyId);
    ListingOfNewcomer(db.users, m, companyId);
  }
}
