/** `app/api/users/route.js`: the manager-only, company-scoped user list and
    user create, update and delete handlers, each a pure function of the
    request, the verification clock and the user collection. */
module UsersRoute {
  import opened Js
  import opened Seqs
  import opened Auth
  import opened Store
  import opened Http
  import opened EmailPattern

  /** What a handler answers, and the user collection it leaves behind. */
  datatype Handled = Handled(response: Response, users: seq<User>)

  /** The body of POST: `{ email, password, name, role, companyId }`. */
  datatype NewUser = NewUser(email: Field, password: Field, name: Field, role: Field, companyId: Field)

  /** The body of PUT: `{ id, name, email, role, companyId }`. */
  datatype UserUpdate = UserUpdate(id: Field, name: Field, email: Field, role: Field, companyId: Field)

  /** The body of DELETE: `{ id, companyId }`. */
  datatype UserRef = UserRef(id: Field, companyId: Field)

  /** How `if (!session || session.user.role !== 'MANAGER')` comes out on
      what `verifyToken` returned. Its failure object is truthy, so `!session`
      never holds; reading `role` of its missing `user` throws instead. */
  datatype Gate = Admitted(session: Decoded) | Refused | Throws

  function ManagerGate(v: Verified): Gate
  {
    match v
    case Failure(_, _) => Throws
    case Session(d) => if d.claims.role == "MANAGER" then Admitted(d) else Refused
  }

  predicate IsManager(v: Verified)
  {
    v.Session? && v.user.claims.role == "MANAGER"
  }

  /** The company a session's queries are scoped to. */
  function SessionCompany(d: Decoded): Option<Id>
  {
    CompanyRef(d.claims.companyId)
  }

  const Unauthorized := Error(401, "Unauthorized")
  const InvalidCompany := Error(403, "Forbidden: Invalid company")
  const OtherCompany := Error(403, "Forbidden: User belongs to another company")
  const NotFound := Error(404, "User not found")
  const InvalidRole := Error(400, "Invalid role")
  const InvalidEmail := Error(400, "Invalid email")
  const ShortPassword := Error(400, "Password must be at least 6 characters")
  const EmailTaken := Error(400, "Email already exists")

  // ---------------------------------------------------------------------
  // GET
  // ---------------------------------------------------------------------

  /** The list entry for a user: everything but password, company and status. */
  function View(u: User): UserView
  {
    UserView(u.id, u.name, u.email, RoleName(u.role))
  }

  /** `User.find({ companyId }).select('name email role')`, projected. */
  function Listing(users: seq<User>, c: Option<Id>): (r: seq<UserView>)
    ensures |r| == |Filter(users, Inside(c))| <= |users|
    ensures forall i | 0 <= i < |r| :: exists j | 0 <= j < |users| :: users[j].companyId == c && r[i] == View(users[j])
    ensures forall j | 0 <= j < |users| && users[j].companyId == c :: View(users[j]) in r
  {
    var mine := Filter(users, Inside(c));
    var r := seq(|mine|, i requires 0 <= i < |mine| => View(mine[i]));
    forall i | 0 <= i < |r|
      ensures exists j | 0 <= j < |users| :: users[j].companyId == c && r[i] == View(users[j])
    {
      assert Inside(c)(mine[i]) && mine[i] in users;
      var j :| 0 <= j < |users| && users[j] == mine[i];
      assert users[j].companyId == c && r[i] == View(users[j]);
    }
    forall j | 0 <= j < |users| && users[j].companyId == c
      ensures View(users[j]) in r
    {
      assert Inside(c)(users[j]);
      var k :| 0 <= k < |mine| && mine[k] == users[j];
      assert r[k] == View(users[j]);
    }
    r
  }

  /** The listing shows the company's users in store order, each once:
      `idx` gives their strictly increasing positions in the store. */
  lemma ListingInStoreOrder(users: seq<User>, c: Option<Id>) returns (idx: seq<nat>)
    ensures var r := Listing(users, c);
      && |idx| == |r|
      && (forall k | 0 <= k < |idx| :: idx[k] < |users| && users[idx[k]].companyId == c && r[k] == View(users[idx[k]]))
      && (forall k, l | 0 <= k < l < |idx| :: idx[k] < idx[l])
      && (forall j | 0 <= j < |users| && users[j].companyId == c :: j in idx)
  {
    idx := FilterIndices(users, Inside(c));
    var mine := Filter(users, Inside(c));
    var r := Listing(users, c);
    forall k | 0 <= k < |idx|
      ensures idx[k] < |users| && users[idx[k]].companyId == c && r[k] == View(users[idx[k]])
    {
      assert r[k] == View(mine[k]);
    }
  }

  /** GET /api/users. */
  function Get(secret: string, now: int, cookie: Option<Token>, users: seq<User>): (r: Response)
    ensures !Present(cookie) ==> r == Unauthorized
    ensures Present(cookie) && VerifyToken(secret, cookie, now).Failure? ==>
      r == Error(500, "Failed to fetch users")
    ensures Present(cookie) && VerifyToken(secret, cookie, now).Session? && !IsManager(VerifyToken(secret, cookie, now)) ==>
      r == Unauthorized
    ensures r.status == 200 <==> Present(cookie) && IsManager(VerifyToken(secret, cookie, now))
    ensures r.status == 200 ==>
      r.body == UserList(Listing(users, SessionCompany(VerifyToken(secret, cookie, now).user)))
    ensures r.status in {200, 401, 500} && r.cookie.None?
  {
    if !Present(cookie) then Unauthorized
    else match ManagerGate(VerifyToken(secret, cookie, now))
      case Throws => Error(500, "Failed to fetch users")
      case Refused => Unauthorized
      case Admitted(d) => Response(200, UserList(Listing(users, SessionCompany(d))), None)
  }

  // ---------------------------------------------------------------------
  // POST
  // ---------------------------------------------------------------------

  /** Everything POST checks of a manager's request before it creates the user. */
  predicate NewUserAccepted(b: NewUser, session: Decoded, users: seq<User>, newId: Id)
  {
    NewUserValid(b, session, users) && !UserIdTaken(users, newId)
  }

  /** The request checks POST makes itself, before the store assigns an id. */
  predicate NewUserValid(b: NewUser, session: Decoded, users: seq<User>)
  {
    && b.companyId == session.claims.companyId
    && ParseRole(b.role).Some?
    && EmailTest(b.email)
    && Truthy(b.password) && |b.password.s| >= 6
    && (forall j | 0 <= j < |users| :: users[j].email != b.email.s)
  }

  /** POST /api/users. `newId` is the id the store assigns; `write` is how
      `User.create` comes out. */
  function Post(secret: string, now: int, cookie: Option<Token>, body: Option<NewUser>,
                users: seq<User>, newId: Id, write: WriteOutcome): (r: Handled)
    ensures VerifyToken(secret, cookie, now).Failure? ==>
      r == Handled(Error(500, "Failed to create user"), users)
    ensures VerifyToken(secret, cookie, now).Session? && !IsManager(VerifyToken(secret, cookie, now)) ==>
      r == Handled(Unauthorized, users)
    ensures IsManager(VerifyToken(secret, cookie, now)) && body.Some? ==>
      var b, d := body.value, VerifyToken(secret, cookie, now).user;
      && (b.companyId != d.claims.companyId ==> r == Handled(InvalidCompany, users))
      && (b.companyId == d.claims.companyId && ParseRole(b.role).None? ==> r == Handled(InvalidRole, users))
      && (b.companyId == d.claims.companyId && ParseRole(b.role).Some? && !EmailTest(b.email) ==>
            r == Handled(InvalidEmail, users))
      && (b.companyId == d.claims.companyId && ParseRole(b.role).Some? && EmailTest(b.email) &&
          !(Truthy(b.password) && |b.password.s| >= 6) ==>
            r == Handled(ShortPassword, users))
      && (b.companyId == d.claims.companyId && ParseRole(b.role).Some? && EmailTest(b.email) &&
          Truthy(b.password) && |b.password.s| >= 6 &&
          (exists j | 0 <= j < |users| :: users[j].email == b.email.s) ==>
            r == Handled(EmailTaken, users))
    ensures IsManager(VerifyToken(secret, cookie, now)) && body.None? ==>
      r == Handled(Error(500, "Failed to create user"), users)
    ensures IsManager(VerifyToken(secret, cookie, now)) && body.Some?
            && NewUserValid(body.value, VerifyToken(secret, cookie, now).user, users)
            && (UserIdTaken(users, newId) || write != Written) ==>
      r == Handled(Error(500, "Failed to create user"), users)
    ensures r.response.status != 201 ==> r.users == users
    ensures r.response.status == 201 <==>
      && IsManager(VerifyToken(secret, cookie, now)) && body.Some?
      && NewUserAccepted(body.value, VerifyToken(secret, cookie, now).user, users, newId)
      && write == Written
    ensures r.response.status == 201 ==>
      var b, d := body.value, VerifyToken(secret, cookie, now).user;
      && r.response == Response(201, UserCreated("User created", newId), None)
      && r.users == users + [User(newId, b.email.s, b.password.s, b.name, ParseRole(b.role).value,
                                  SessionCompany(d), true)]
  {
    match ManagerGate(VerifyToken(secret, cookie, now))
    case Throws => Handled(Error(500, "Failed to create user"), users)
    case Refused => Handled(Unauthorized, users)
    case Admitted(d) =>
      if body.None? then Handled(Error(500, "Failed to create user"), users)
      else
        var b := body.value;
        if b.companyId != d.claims.companyId then Handled(InvalidCompany, users)
        else if ParseRole(b.role).None? then Handled(InvalidRole, users)
        else if !EmailTest(b.email) then Handled(InvalidEmail, users)
        else if !Truthy(b.password) || |b.password.s| < 6 then Handled(ShortPassword, users)
        else if UserWithEmail(users, b.email.s).Some? then Handled(EmailTaken, users)
        else if UserIdTaken(users, newId) || write != Written then
          Handled(Error(500, "Failed to create user"), users)
        else
          var created := User(newId, b.email.s, b.password.s, b.name, ParseRole(b.role).value,
                              CompanyRef(b.companyId), true);
          Handled(Response(201, UserCreated("User created", newId), None), users + [created])
  }

  // ---------------------------------------------------------------------
  // PUT
  // ---------------------------------------------------------------------

  /** The user as PUT leaves it: new name, e-mail and role, nothing else changed. */
  function Edited(u: User, b: UserUpdate, role: Role): User
    requires b.email.Str?
  {
    u.(name := b.name, email := b.email.s, role := role)
  }

  /** Everything PUT checks before it saves: the request, the target user
      and its company, and that no other user holds the new address. */
  predicate PutAllowed(b: UserUpdate, session: Decoded, users: seq<User>)
  {
    && b.companyId == session.claims.companyId
    && ParseRole(b.role).Some? && EmailTest(b.email)
    && UserWithId(users, b.id).Some?
    && var i := UserWithId(users, b.id).value;
    && users[i].companyId.Some? && Str(users[i].companyId.value) == b.companyId
    && (forall j | 0 <= j < |users| && users[j].id != b.id.s :: users[j].email != b.email.s)
  }

  /** PUT /api/users. `write` is how `user.save()` comes out. */
  function Put(secret: string, now: int, cookie: Option<Token>, body: Option<UserUpdate>,
               users: seq<User>, write: WriteOutcome): (r: Handled)
    ensures VerifyToken(secret, cookie, now).Failure? ==>
      r == Handled(Error(500, "Failed to update user"), users)
    ensures VerifyToken(secret, cookie, now).Session? && !IsManager(VerifyToken(secret, cookie, now)) ==>
      r == Handled(Unauthorized, users)
    ensures IsManager(VerifyToken(secret, cookie, now)) && body.Some? ==>
      var b, d := body.value, VerifyToken(secret, cookie, now).user;
      && (b.companyId != d.claims.companyId ==> r == Handled(InvalidCompany, users))
      && (b.companyId == d.claims.companyId && ParseRole(b.role).None? ==> r == Handled(InvalidRole, users))
      && (b.companyId == d.claims.companyId && ParseRole(b.role).Some? && !EmailTest(b.email) ==>
            r == Handled(InvalidEmail, users))
      && (b.companyId == d.claims.companyId && ParseRole(b.role).Some? && EmailTest(b.email) ==>
            && (UserWithId(users, b.id).None? ==> r == Handled(NotFound, users))
            && (UserWithId(users, b.id).Some? && users[UserWithId(users, b.id).value].companyId.Some?
                && Str(users[UserWithId(users, b.id).value].companyId.value) != b.companyId ==>
                  r == Handled(OtherCompany, users))
            && (UserWithId(users, b.id).Some?
                && users[UserWithId(users, b.id).value].companyId.Some?
                && Str(users[UserWithId(users, b.id).value].companyId.value) == b.companyId
                && (exists j | 0 <= j < |users| :: users[j].email == b.email.s && users[j].id != b.id.s) ==>
                  r == Handled(EmailTaken, users)))
    ensures IsManager(VerifyToken(secret, cookie, now)) && body.None? ==>
      r == Handled(Error(500, "Failed to update user"), users)
    ensures IsManager(VerifyToken(secret, cookie, now)) && body.Some?
            && body.value.companyId == VerifyToken(secret, cookie, now).user.claims.companyId
            && ParseRole(body.value.role).Some? && EmailTest(body.value.email)
            && UserWithId(users, body.value.id).Some?
            && users[UserWithId(users, body.value.id).value].companyId.None? ==>
      r == Handled(Error(500, "Failed to update user"), users)
    ensures IsManager(VerifyToken(secret, cookie, now)) && body.Some? && write != Written
            && PutAllowed(body.value, VerifyToken(secret, cookie, now).user, users) ==>
      r == Handled(Error(500, "Failed to update user"), users)
    ensures r.response.status != 200 ==> r.users == users
    ensures r.response.status == 200 <==>
      && IsManager(VerifyToken(secret, cookie, now)) && body.Some? && write == Written
      && PutAllowed(body.value, VerifyToken(secret, cookie, now).user, users)
    ensures r.response.status == 200 ==>
      var b, d := body.value, VerifyToken(secret, cookie, now).user;
      var i := UserWithId(users, b.id).value;
      && users[i].id == b.id.s
      && users[i].companyId == SessionCompany(d)
      && r.users == users[i := Edited(users[i], b, ParseRole(b.role).value)]
      && r.response == Response(200, MessageBody("User updated"), None)
  {
    match ManagerGate(VerifyToken(secret, cookie, now))
    case Throws => Handled(Error(500, "Failed to update user"), users)
    case Refused => Handled(Unauthorized, users)
    case Admitted(d) =>
      if body.None? then Handled(Error(500, "Failed to update user"), users)
      else
        var b := body.value;
        if b.companyId != d.claims.companyId then Handled(InvalidCompany, users)
        else if ParseRole(b.role).None? then Handled(InvalidRole, users)
        else if !EmailTest(b.email) then Handled(InvalidEmail, users)
        else match UserWithId(users, b.id)
          case None => Handled(NotFound, users)
          case Some(i) =>
            // `user.companyId.toString()` throws when the user has no company
            if users[i].companyId.None? then Handled(Error(500, "Failed to update user"), users)
            else if Str(users[i].companyId.value) != b.companyId then Handled(OtherCompany, users)
            else if exists j | 0 <= j < |users| :: users[j].email == b.email.s && users[j].id != b.id.s then
              Handled(EmailTaken, users)
            else if write != Written then Handled(Error(500, "Failed to update user"), users)
            else
              Handled(Response(200, MessageBody("User updated"), None),
                      users[i := Edited(users[i], b, ParseRole(b.role).value)])
  }

  // ---------------------------------------------------------------------
  // DELETE
  // ---------------------------------------------------------------------

  /** DELETE /api/users. */
  function Delete(secret: string, now: int, cookie: Option<Token>, body: Option<UserRef>,
                  users: seq<User>): (r: Handled)
    ensures VerifyToken(secret, cookie, now).Failure? ==>
      r == Handled(Error(500, "Failed to delete user"), users)
    ensures VerifyToken(secret, cookie, now).Session? && !IsManager(VerifyToken(secret, cookie, now)) ==>
      r == Handled(Unauthorized, users)
    ensures IsManager(VerifyToken(secret, cookie, now)) && body.Some? ==>
      var b, d := body.value, VerifyToken(secret, cookie, now).user;
      && (b.companyId != d.claims.companyId ==> r == Handled(InvalidCompany, users))
      && (b.companyId == d.claims.companyId && UserWithId(users, b.id).None? ==> r == Handled(NotFound, users))
      && (b.companyId == d.claims.companyId && UserWithId(users, b.id).Some?
          && users[UserWithId(users, b.id).value].companyId.Some?
          && Str(users[UserWithId(users, b.id).value].companyId.value) != b.companyId ==>
            r == Handled(OtherCompany, users))
    ensures IsManager(VerifyToken(secret, cookie, now)) && body.None? ==>
      r == Handled(Error(500, "Failed to delete user"), users)
    ensures IsManager(VerifyToken(secret, cookie, now)) && body.Some?
            && body.value.companyId == VerifyToken(secret, cookie, now).user.claims.companyId
            && UserWithId(users, body.value.id).Some?
            && users[UserWithId(users, body.value.id).value].companyId.None? ==>
      r == Handled(Error(500, "Failed to delete user"), users)
    ensures r.response.status != 200 ==> r.users == users
    ensures r.response.status == 200 <==>
      && IsManager(VerifyToken(secret, cookie, now)) && body.Some?
      && var b, d := body.value, VerifyToken(secret, cookie, now).user;
      && b.companyId == d.claims.companyId
      && UserWithId(users, b.id).Some?
      && var i := UserWithId(users, b.id).value;
      && users[i].companyId.Some? && Str(users[i].companyId.value) == b.companyId
    ensures r.response.status == 200 ==>
      var b, d := body.value, VerifyToken(secret, cookie, now).user;
      var i := UserWithId(users, b.id).value;
      && users[i].id == b.id.s
      && users[i].companyId == SessionCompany(d)
      && r.users == users[..i] + users[i + 1..]
      && r.response == Response(200, MessageBody("User deleted"), None)
  {
    match ManagerGate(VerifyToken(secret, cookie, now))
    case Throws => Handled(Error(500, "Failed to delete user"), users)
    case Refused => Handled(Unauthorized, users)
    case Admitted(d) =>
      if body.None? then Handled(Error(500, "Failed to delete user"), users)
      else
        var b := body.value;
        if b.companyId != d.claims.companyId then Handled(InvalidCompany, users)
        else match UserWithId(users, b.id)
          case None => Handled(NotFound, users)
          case Some(i) =>
            if users[i].companyId.None? then Handled(Error(500, "Failed to delete user"), users)
            else if Str(users[i].companyId.value) != b.companyId then Handled(OtherCompany, users)
            else Handled(Response(200, MessageBody("User deleted"), None), users[..i] + users[i + 1..])
  }
}
