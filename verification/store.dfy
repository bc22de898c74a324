/** The two collections the handlers read and write, the lookups they use,
    and the invariants a well-behaved store keeps. Collections are sequences
    in natural order; ids are opaque strings. */
module Store {
  import opened Js
  import opened Seqs

  type Id = string

  datatype Role = Manager | Employee

  function RoleName(r: Role): string
  {
    match r
    case Manager => "MANAGER"
    case Employee => "EMPLOYEE"
  }

  /** `['MANAGER', 'EMPLOYEE'].includes(role)`, returning the role it names. */
  function ParseRole(f: Field): (r: Option<Role>)
    ensures r.Some? <==> (f == Str("MANAGER") || f == Str("EMPLOYEE"))
    ensures r.Some? ==> f == Str(RoleName(r.value))
  {
    if f == Str("MANAGER") then Some(Manager)
    else if f == Str("EMPLOYEE") then Some(Employee)
    else None
  }

  /** A user document. `password` is whatever the create call was given;
      hashing, if any, happens in a schema hook that is not part of this model. */
  datatype User = User(
    id: Id,
    email: string,
    password: string,
    name: Field,
    role: Role,
    companyId: Option<Id>,
    isActive: bool)

  datatype Company = Company(id: Id, name: string, email: string)

  datatype Db = Db(users: seq<User>, companies: seq<Company>)

  /** The result of a create or save: written, refused by schema validation
      (a `ValidationError` with its message), or failed in any other way. */
  datatype WriteOutcome = Written | Invalid(message: string) | StoreError

  /** A body's `companyId` as the store keeps it. */
  function CompanyRef(f: Field): Option<Id>
  {
    if f.Str? then Some(f.s) else None
  }

  /** A stored `companyId` as it appears in a signed payload. */
  function CompanyField(c: Option<Id>): Field
  {
    match c
    case None => Absent
    case Some(id) => Str(id)
  }

  function HasEmail(e: string): User -> bool
  {
    (u: User) => u.email == e
  }

  function HasId(id: Id): User -> bool
  {
    (u: User) => u.id == id
  }

  /** Users of company `c`. */
  function Inside(c: Option<Id>): User -> bool
  {
    (u: User) => u.companyId == c
  }

  /** Users outside company `c`. */
  function Outside(c: Option<Id>): User -> bool
  {
    (u: User) => u.companyId != c
  }

  /** `User.findOne({ email })`. */
  function UserWithEmail(users: seq<User>, e: string): Option<nat>
  {
    FirstMatch(users, HasEmail(e))
  }

  /** `User.findById(id)`: a missing or null id finds nothing. */
  function UserWithId(users: seq<User>, id: Field): Option<nat>
  {
    if id.Str? then FirstMatch(users, HasId(id.s)) else None
  }

  /** `Company.findOne({ email })`. */
  function CompanyWithEmail(companies: seq<Company>, e: string): Option<nat>
  {
    FirstMatch(companies, (c: Company) => c.email == e)
  }

  /** `Company.findById(id)`. */
  function CompanyWithId(companies: seq<Company>, id: Id): Option<nat>
  {
    FirstMatch(companies, (c: Company) => c.id == id)
  }

  predicate UserIdTaken(users: seq<User>, id: Id)
  {
    exists j | 0 <= j < |users| :: users[j].id == id
  }

  predicate CompanyIdTaken(companies: seq<Company>, id: Id)
  {
    exists j | 0 <= j < |companies| :: companies[j].id == id
  }

  /** No two users share an id (the store's primary key). */
  predicate UniqueIds(users: seq<User>)
  {
    forall i, j | 0 <= i < j < |users| :: users[i].id != users[j].id
  }

  /** No two users share an e-mail address, across all companies. */
  predicate UniqueEmails(users: seq<User>)
  {
    forall i, j | 0 <= i < j < |users| :: users[i].email != users[j].email
  }

  /** No two companies share an id or an e-mail address. */
  predicate UniqueCompanies(companies: seq<Company>)
  {
    forall i, j | 0 <= i < j < |companies| ::
      companies[i].id != companies[j].id && companies[i].email != companies[j].email
  }

  predicate Consistent(db: Db)
  {
    UniqueIds(db.users) && UniqueEmails(db.users) && UniqueCompanies(db.companies)
  }

  /** Appending a user whose id and e-mail are new keeps both uniqueness invariants. */
  lemma AppendKeepsUnique(users: seq<User>, u: User)
    requires UniqueIds(users) && UniqueEmails(users)
    requires forall j | 0 <= j < |users| :: users[j].id != u.id && users[j].email != u.email
    ensures UniqueIds(users + [u]) && UniqueEmails(users + [u])
  {
  }

  /** Removing one user keeps both uniqueness invariants. */
  lemma RemoveKeepsUnique(users: seq<User>, i: nat)
    requires i < |users| && UniqueIds(users) && UniqueEmails(users)
    ensures UniqueIds(users[..i] + users[i + 1..]) && UniqueEmails(users[..i] + users[i + 1..])
  {
    var r := users[..i] + users[i + 1..];
    assert forall k | 0 <= k < |r| :: r[k] == (if k < i then users[k] else users[k + 1]);
  }
}
