/** Properties of the user handlers that relate them to the store's
    invariants: e-mail and id uniqueness survive every successful change,
    a manager never touches another company's users, and update and delete
    affect exactly the addressed user. */
module UsersProperties {
  import opened Js
  import opened Seqs
  import opened Auth
  import opened Store
  import opened UsersRoute

  /** A successful create keeps ids and e-mail addresses unique across all companies. */
  lemma PostKeepsUnique(secret: string, now: int, cookie: Option<Token>, body: Option<NewUser>,
                        users: seq<User>, newId: Id, write: WriteOutcome)
    requires UniqueIds(users) && UniqueEmails(users)
    ensures UniqueIds(Post(secret, now, cookie, body, users, newId, write).users)
    ensures UniqueEmails(Post(secret, now, cookie, body, users, newId, write).users)
  {
    var r := Post(secret, now, cookie, body, users, newId, write);
    if r.response.status == 201 {
      var b, d := body.value, VerifyToken(secret, cookie, now).user;
      var u := User(newId, b.email.s, b.password.s, b.name, ParseRole(b.role).value, SessionCompany(d), true);
      AppendKeepsUnique(users, u);
    }
  }

  /** A successful update keeps ids and e-mail addresses unique across all companies. */
  lemma PutKeepsUnique(secret: string, now: int, cookie: Option<Token>, body: Option<UserUpdate>,
                       users: seq<User>, write: WriteOutcome)
    requires UniqueIds(users) && UniqueEmails(users)
    ensures UniqueIds(Put(secret, now, cookie, body, users, write).users)
    ensures UniqueEmails(Put(secret, now, cookie, body, users, write).users)
  {
    var r := Put(secret, now, cookie, body, users, write);
    if r.response.status == 200 {
      var b := body.value;
      var i := UserWithId(users, b.id).value;
      var e := Edited(users[i], b, ParseRole(b.role).value);
      assert r.users == users[i := e];
      forall j, k | 0 <= j < k < |r.users|
        ensures r.users[j].id != r.users[k].id && r.users[j].email != r.users[k].email
      {
        if j == i {
          assert users[k].id != b.id.s;
        } else if k == i {
          assert users[j].id != b.id.s;
        }
      }
    }
  }

  /** A successful delete keeps ids and e-mail addresses unique. */
  lemma DeleteKeepsUnique(secret: string, now: int, cookie: Option<Token>, body: Option<UserRef>,
                          users: seq<User>)
    requires UniqueIds(users) && UniqueEmails(users)
    ensures UniqueIds(Delete(secret, now, cookie, body, users).users)
    ensures UniqueEmails(Delete(secret, now, cookie, body, users).users)
  {
    var r := Delete(secret, now, cookie, body, users);
    if r.response.status == 200 {
      RemoveKeepsUnique(users, UserWithId(users, body.value.id).value);
    }
  }

  /** Create never adds, changes or removes a user outside the session's company. */
  lemma PostStaysInTenant(secret: string, now: int, cookie: Option<Token>, body: Option<NewUser>,
                          users: seq<User>, newId: Id, write: WriteOutcome)
    requires VerifyToken(secret, cookie, now).Session?
    ensures var c := SessionCompany(VerifyToken(secret, cookie, now).user);
      Filter(Post(secret, now, cookie, body, users, newId, write).users, Outside(c)) == Filter(users, Outside(c))
  {
    var r := Post(secret, now, cookie, body, users, newId, write);
    if r.response.status == 201 {
      var b, d := body.value, VerifyToken(secret, cookie, now).user;
      var u := User(newId, b.email.s, b.password.s, b.name, ParseRole(b.role).value, SessionCompany(d), true);
      FilterSnoc(users, u, Outside(SessionCompany(d)));
    }
  }

  /** Update never adds, changes or removes a user outside the session's company. */
  lemma PutStaysInTenant(secret: string, now: int, cookie: Option<Token>, body: Option<UserUpdate>,
                         users: seq<User>, write: WriteOutcome)
    requires VerifyToken(secret, cookie, now).Session?
    ensures var c := SessionCompany(VerifyToken(secret, cookie, now).user);
      Filter(Put(secret, now, cookie, body, users, write).users, Outside(c)) == Filter(users, Outside(c))
  {
    var r := Put(secret, now, cookie, body, users, write);
    if r.response.status == 200 {
      var b, d := body.value, VerifyToken(secret, cookie, now).user;
      var i := UserWithId(users, b.id).value;
      FilterUpdate(users, i, Edited(users[i], b, ParseRole(b.role).value), Outside(SessionCompany(d)));
    }
  }

  /** Delete never removes a user outside the session's company. */
  lemma DeleteStaysInTenant(secret: string, now: int, cookie: Option<Token>, body: Option<UserRef>,
                            users: seq<User>)
    requires VerifyToken(secret, cookie, now).Session?
    ensures var c := SessionCompany(VerifyToken(secret, cookie, now).user);
      Filter(Delete(secret, now, cookie, body, users).users, Outside(c)) == Filter(users, Outside(c))
  {
    var r := Delete(secret, now, cookie, body, users);
    if r.response.status == 200 {
      var d := VerifyToken(secret, cookie, now).user;
      FilterRemove(users, UserWithId(users, body.value.id).value, Outside(SessionCompany(d)));
    }
  }

  /** A successful delete removes exactly the user with the given id. */
  lemma DeleteRemovesExactly(secret: string, now: int, cookie: Option<Token>, body: Option<UserRef>,
                             users: seq<User>)
    requires UniqueIds(users)
    requires Delete(secret, now, cookie, body, users).response.status == 200
    ensures body.Some? && body.value.id.Str?
    ensures forall u :: u in Delete(secret, now, cookie, body, users).users <==>
      (u in users && u.id != body.value.id.s)
  {
    var r := Delete(secret, now, cookie, body, users);
    var id := body.value.id.s;
    var i := UserWithId(users, body.value.id).value;
    assert r.users == users[..i] + users[i + 1..];
    forall u
      ensures u in r.users <==> (u in users && u.id != id)
    {
      if u in r.users {
        var k :| 0 <= k < |r.users| && r.users[k] == u;
        if k < i {
          assert u == users[k];
        } else {
          assert u == users[k + 1];
        }
      }
      if u in users && u.id != id {
        var k :| 0 <= k < |users| && users[k] == u;
        assert k != i;
        if k < i {
          assert r.users[k] == u;
        } else {
          assert r.users[k - 1] == u;
        }
      }
    }
  }

  /** A successful update changes only the addressed user, and of that user
      only name, e-mail and role; password, company and status are kept. */
  lemma PutChangesOnlyTarget(secret: string, now: int, cookie: Option<Token>, body: Option<UserUpdate>,
                             users: seq<User>, write: WriteOutcome)
    requires UniqueIds(users)
    requires Put(secret, now, cookie, body, users, write).response.status == 200
    ensures body.Some? && body.value.id.Str? && body.value.email.Str?
    ensures |Put(secret, now, cookie, body, users, write).users| == |users|
    ensures forall j | 0 <= j < |users| ::
      var after := Put(secret, now, cookie, body, users, write).users[j];
      && (users[j].id != body.value.id.s ==> after == users[j])
      && (users[j].id == body.value.id.s ==>
            && after.id == users[j].id
            && after.password == users[j].password
            && after.companyId == users[j].companyId
            && after.isActive == users[j].isActive
            && after.name == body.value.name
            && after.email == body.value.email.s
            && Str(RoleName(after.role)) == body.value.role)
  {
    var r := Put(secret, now, cookie, body, users, write);
    var b := body.value;
    var i := UserWithId(users, b.id).value;
    assert users[i].id == b.id.s;
  }
}
