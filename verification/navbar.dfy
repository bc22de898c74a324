/** `components/Navbar.jsx`: what the navigation bar fetches, what it
    renders, and what logging out does to its state. Markup, icons and the
    menus' contents are not modelled; the links are. */
module Navbar {
  import opened Js
  import opened Seqs
  import opened Auth
  import Middleware
  import VerifyRoute

  datatype Link = Link(name: string, href: string)

  /** An entry of `navigation` or `authLinks`, with its `show` flag. */
  datatype NavItem = NavItem(link: Link, show: bool)

  /** The component's state: mounted yet, still loading, the user the verify
      endpoint returned, and whether each of the two menus is open. */
  datatype NavState = NavState(
    mounted: bool,
    loading: bool,
    user: Option<Decoded>,
    mobileMenuOpen: bool,
    userMenuOpen: bool)

  /** What the component renders: nothing, the loading placeholder, or the
      bar with its visible links for the signed-in user. */
  datatype View = Nothing | Skeleton | Bar(links: seq<Link>, user: Decoded)

  const Initial := NavState(false, true, None, false, false)

  const Home := Link("Home", "/")
  const Dashboard := Link("Dashboard", "/dashboard")
  const Shifts := Link("Shifts", "/shifts")
  const TimeTracking := Link("Time Tracking", "/time-tracking")
  const Employees := Link("Employees", "/employees")
  const CompanyPage := Link("Company", "/company")

  /** The links every signed-in user sees, in order. */
  const Common: seq<Link> := [Home, Dashboard, Shifts, TimeTracking]

  function Navigation(role: string): seq<NavItem>
  {
    [NavItem(Home, true), NavItem(Dashboard, true), NavItem(Shifts, true), NavItem(TimeTracking, true),
     NavItem(Employees, role == "MANAGER"), NavItem(CompanyPage, role == "MANAGER")]
  }

  function AuthLinks(signedIn: bool): seq<NavItem>
  {
    [NavItem(Link("Login", "/login"), !signedIn), NavItem(Link("Register", "/register"), !signedIn)]
  }

  /** `items.filter(item => item.show)`, keeping the links. */
  function Shown(items: seq<NavItem>): seq<Link>
  {
    if items == [] then []
    else (if items[0].show then [items[0].link] else []) + Shown(items[1..])
  }

  /** The entries whose `show` flag is set. */
  function Visible(): NavItem -> bool
  {
    (n: NavItem) => n.show
  }

  function Links(items: seq<NavItem>): (links: seq<Link>)
    ensures |links| == |items|
    ensures forall k | 0 <= k < |items| :: links[k] == items[k].link
  {
    seq(|items|, k requires 0 <= k < |items| => items[k].link)
  }

  /** `Shown` is the links of the shown entries, an independent reading
      through the generic filter. */
  lemma {:induction false} ShownIsFilter(items: seq<NavItem>)
    ensures Shown(items) == Links(Filter(items, Visible()))
    decreases |items|
  {
    if items != [] {
      var head := if items[0].show then [items[0]] else [];
      var rest := Filter(items[1..], Visible());
      calc {
        Shown(items);
        { ShownCons(items); }
        Links(head) + Shown(items[1..]);
        { ShownIsFilter(items[1..]); }
        Links(head) + Links(rest);
        { LinksAppend(head, rest); }
        Links(head + rest);
        { FilterCons(items, Visible()); }
        Links(Filter(items, Visible()));
      }
    }
  }

  lemma ShownCons(items: seq<NavItem>)
    requires items != []
    ensures Shown(items) == Links(if items[0].show then [items[0]] else []) + Shown(items[1..])
  {
    assert Links([items[0]]) == [items[0].link];
  }

  lemma LinksAppend(a: seq<NavItem>, b: seq<NavItem>)
    ensures Links(a + b) == Links(a) + Links(b)
  {
    assert forall k | 0 <= k < |a + b| :: Links(a + b)[k] == (Links(a) + Links(b))[k];
  }

  /** The bar shows the links of the shown entries, each once and in the
      order of the list: `idx` gives their strictly increasing positions. */
  lemma ShownInOrder(items: seq<NavItem>) returns (idx: seq<nat>)
    ensures var links := Shown(items);
      && |idx| == |links|
      && (forall k | 0 <= k < |idx| :: idx[k] < |items| && items[idx[k]].show && links[k] == items[idx[k]].link)
      && (forall k, l | 0 <= k < l < |idx| :: idx[k] < idx[l])
      && (forall j | 0 <= j < |items| && items[j].show :: j in idx)
  {
    ShownIsFilter(items);
    idx := FilterIndices(items, Visible());
  }

  predicate KnownRole(role: string)
  {
    role == "EMPLOYEE" || role == "MANAGER"
  }

  /** The effect after mounting: the component is marked mounted. */
  function Mount(s: NavState): (t: NavState)
    ensures t.mounted && t.loading == s.loading && t.user == s.user
  {
    s.(mounted := true)
  }

  /** The user `fetchUser` keeps: the reply's `user` when the fetch succeeded
      with a 2xx status and a JSON body that has one; no user otherwise. */
  function FetchedUser(outcome: Middleware.FetchOutcome): (u: Option<Decoded>)
    ensures u.Some? <==> outcome.OkJson? && outcome.json.JsonObject? && outcome.json.user.Some?
    ensures u.Some? ==> u == outcome.json.user
  {
    match outcome
    case OkJson(JsonObject(_, user)) => user
    case _ => None
  }

  /** `fetchUser` finishing (for a component still mounted): the user is set
      and loading ends, whatever the outcome. */
  function Fetched(s: NavState, outcome: Middleware.FetchOutcome): (t: NavState)
    ensures !t.loading && t.user == FetchedUser(outcome)
    ensures t.mounted == s.mounted && t.mobileMenuOpen == s.mobileMenuOpen && t.userMenuOpen == s.userMenuOpen
  {
    s.(loading := false, user := FetchedUser(outcome))
  }

  /** The render gate, then the two filtered link lists. */
  function Render(s: NavState): (v: View)
    ensures v.Skeleton? <==> s.mounted && s.loading
    ensures v.Bar? <==> s.mounted && !s.loading && s.user.Some? && KnownRole(s.user.value.claims.role)
    ensures v.Bar? ==> v.user == s.user.value
    ensures v.Bar? ==> Common <= v.links
    ensures v.Bar? && s.user.value.claims.role == "MANAGER" ==> v.links == Common + [Employees, CompanyPage]
    ensures v.Bar? && s.user.value.claims.role == "EMPLOYEE" ==> v.links == Common
  {
    if !s.mounted then Nothing
    else if s.loading then Skeleton
    else match s.user
      case None => Nothing
      case Some(user) =>
        if !KnownRole(user.claims.role) then Nothing
        else
          ShownForRole(user.claims.role);
          Bar(Shown(Navigation(user.claims.role)) + Shown(AuthLinks(true)), user)
  }

  /** The visible links of a signed-in user: the common four, then the two
      manager pages for a manager; the login and register links never show. */
  lemma ShownForRole(role: string)
    ensures Shown(Navigation(role)) == Common + if role == "MANAGER" then [Employees, CompanyPage] else []
    ensures Shown(AuthLinks(true)) == []
  {
    var m := role == "MANAGER";
    ShownOfSix(Home, Dashboard, Shifts, TimeTracking, Employees, CompanyPage, m);
    var auth := AuthLinks(true);
    assert Shown(auth[1..]) == [];
  }

  lemma ShownOfSix(a: Link, b: Link, c: Link, d: Link, e: Link, f: Link, m: bool)
    ensures Shown([NavItem(a, true), NavItem(b, true), NavItem(c, true), NavItem(d, true), NavItem(e, m), NavItem(f, m)])
      == [a, b, c, d] + if m then [e, f] else []
  {
    var s5 := [NavItem(f, m)];
    var s4 := [NavItem(e, m)] + s5;
    var s3 := [NavItem(d, true)] + s4;
    var s2 := [NavItem(c, true)] + s3;
    var s1 := [NavItem(b, true)] + s2;
    var s0 := [NavItem(a, true)] + s1;
    ShownStep(NavItem(f, m), []);
    ShownStep(NavItem(e, m), s5);
    ShownStep(NavItem(d, true), s4);
    ShownStep(NavItem(c, true), s3);
    ShownStep(NavItem(b, true), s2);
    ShownStep(NavItem(a, true), s1);
    assert [NavItem(f, m)] + [] == s5;
    assert s0 == [NavItem(a, true), NavItem(b, true), NavItem(c, true), NavItem(d, true), NavItem(e, m), NavItem(f, m)];
  }

  lemma ShownStep(x: NavItem, rest: seq<NavItem>)
    ensures Shown([x] + rest) == (if x.show then [x.link] else []) + Shown(rest)
  {
    assert ([x] + rest)[1..] == rest;
  }

  /** `handleLogout`: whether or not the logout request succeeds, the user is
      cleared, both menus close, and the router goes to the login page. */
  function Logout(s: NavState): (r: (NavState, string))
    ensures r.0.user.None? && !r.0.mobileMenuOpen && !r.0.userMenuOpen
    ensures r.0.mounted == s.mounted && r.0.loading == s.loading
    ensures r.1 == "/login"
  {
    (s.(user := None, mobileMenuOpen := false, userMenuOpen := false), "/login")
  }

  /** After logging out the bar is gone. */
  lemma LoggedOutShowsNoBar(s: NavState)
    ensures !Render(Logout(s).0).Bar?
  {
  }

  /** Wired to the verify endpoint, the bar's user is exactly the session the
      cookie carries, and the bar shows once loading ends exactly when that
      session has a known role. */
  lemma NavbarAgreesWithVerify(secret: string, cookie: Option<Token>, now: int)
    ensures var outcome := Middleware.Served(VerifyRoute.HandleVerify(secret, cookie, now));
      && FetchedUser(outcome) == AuthSession(secret, cookie, now)
      && (Render(Fetched(Mount(Initial), outcome)).Bar? <==>
            AuthSession(secret, cookie, now).Some? && KnownRole(AuthSession(secret, cookie, now).value.claims.role))
  {
  }

  /** Every link of the bar but Home leads to a page the middleware guards. */
  lemma BarLinksAreGuarded(s: NavState)
    requires Render(s).Bar?
    ensures forall k | 0 <= k < |Render(s).links| ::
      Render(s).links[k] == Home || Middleware.Matched(Render(s).links[k].href)
  {
    var links := Render(s).links;
    assert Middleware.Protected[0] == Dashboard.href;
    assert Middleware.Protected[1] == Shifts.href;
    assert Middleware.Protected[2] == TimeTracking.href;
    assert Middleware.Protected[3] == Employees.href;
    assert Middleware.Protected[4] == CompanyPage.href;
    assert forall k | 0 <= k < |links| :: links[k] in Common + [Employees, CompanyPage];
  }
}
