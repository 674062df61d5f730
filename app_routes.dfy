/** The route table (src/App.js): three public pages and five dashboards,
    each behind the role guard with a one-role allow-list; the student and
    coordinator dashboards hold their pages as nested routes. */
module AppRoutes {
  import opened Common
  import opened Session
  import Login
  import PrivateRoute

  /** A top-level route: its path, the guard's allow-list (none for a public
      page) and the relative paths of its nested routes. */
  datatype Route = Route(path: string, allowed: Option<seq<string>>, children: seq<string>)

  const DashboardPages: seq<string> := ["application", "history", "appointment", "study-planner", "profile"]

  const Routes: seq<Route> := [
    Route("/", None, []),
    Route("/forgot-password", None, []),
    Route("/reset-password", None, []),
    Route("/student", Some([Login.StudentRole]), DashboardPages),
    Route("/coordinator", Some([Login.CoordinatorRole]), DashboardPages),
    Route("/expert", Some([Login.ExpertRole]), []),
    Route("/hos", Some([Login.HosRole]), []),
    Route("/admin", Some([Login.AdminRole]), [])
  ]

  /** A location as the router splits it: the top-level path and, below
      it, at most one nested segment. */
  datatype Location = Location(top: string, nested: Option<string>)

  /** The route a location lands on: the top-level path itself, or one of
      its nested pages. */
  predicate Matches(r: Route, loc: Location) {
    loc.top == r.path && (loc.nested.None? || loc.nested.value in r.children)
  }

  /** The first route matching a location, if any. */
  function Lookup(routes: seq<Route>, loc: Location): (r: Option<Route>)
    ensures r.Some? ==> r.value in routes && Matches(r.value, loc)
    ensures r.None? <==> forall k :: 0 <= k < |routes| ==> !Matches(routes[k], loc)
  {
    if routes == [] then None
    else if Matches(routes[0], loc) then Some(routes[0])
    else
      var r := Lookup(routes[1..], loc);
      assert forall k :: 1 <= k < |routes| ==> routes[k] == routes[1..][k - 1];
      r
  }

  /** The allow-list guarding a location: `Some(None)` for a public page,
      `None` when no route matches. */
  function GuardAt(loc: Location): (g: Option<Option<seq<string>>>)
    ensures g.None? <==> forall k :: 0 <= k < |Routes| ==> !Matches(Routes[k], loc)
    ensures g.Some? ==> exists k :: 0 <= k < |Routes| && Matches(Routes[k], loc) && g.value == Routes[k].allowed
  {
    match Lookup(Routes, loc)
    case None => None
    case Some(r) => Some(r.allowed)
  }

  /** Top-level paths are distinct, so a location matches at most one
      route. */
  lemma PathsDistinct()
    ensures forall i, j :: 0 <= i < j < |Routes| ==> Routes[i].path != Routes[j].path
  {
    forall i, j | 0 <= i < j < |Routes| ensures Routes[i].path != Routes[j].path {
      assert |Routes[i].path| != |Routes[j].path|;
    }
  }

  /** The guard at a location is the allow-list of the one route whose path
      it starts with. */
  lemma GuardOfRoute(k: nat, loc: Location)
    requires k < |Routes| && Matches(Routes[k], loc)
    ensures GuardAt(loc) == Some(Routes[k].allowed)
  {
    PathsDistinct();
  }

  /** The three public pages are unguarded. */
  lemma PublicPagesUnguarded()
    ensures GuardAt(Location("/", None)) == Some(None)
    ensures GuardAt(Location("/forgot-password", None)) == Some(None)
    ensures GuardAt(Location("/reset-password", None)) == Some(None)
  {
    GuardOfRoute(0, Location("/", None));
    GuardOfRoute(1, Location("/forgot-password", None));
    GuardOfRoute(2, Location("/reset-password", None));
  }

  /** Every guarded route admits exactly one role. */
  lemma OneRolePerDashboard()
    ensures forall r :: r in Routes && r.allowed.Some? ==> |r.allowed.value| == 1
  {
  }

  /** The dashboard a login sends a role to is guarded by a list that
      admits that role, so the freshly stored session gets through. */
  lemma LoginTargetsAdmitTheirRole(role: string, email: string)
    requires Login.DashboardPath(role).Some?
    ensures exists r :: r in Routes && r.path == Login.DashboardPath(role).value
                        && PrivateRoute.Guard(Some(SessionOf(email, role)), r.allowed) == PrivateRoute.RenderChildren
  {
    var u := Some(SessionOf(email, role));
    if role == Login.StudentRole {
      assert Routes[3] in Routes && PrivateRoute.Admits(Routes[3].allowed.value, u.value.role);
    } else if role == Login.CoordinatorRole {
      assert Routes[4] in Routes && PrivateRoute.Admits(Routes[4].allowed.value, u.value.role);
    } else if role == Login.ExpertRole {
      assert Routes[5] in Routes && PrivateRoute.Admits(Routes[5].allowed.value, u.value.role);
    } else if role == Login.HosRole {
      assert Routes[6] in Routes && PrivateRoute.Admits(Routes[6].allowed.value, u.value.role);
    } else {
      assert Routes[7] in Routes && PrivateRoute.Admits(Routes[7].allowed.value, u.value.role);
    }
  }

  /** The pages nested under the student and coordinator dashboards are
      reached only through their parent's guard. */
  lemma NestedPagesBehindParent(c: string)
    requires c in DashboardPages
    ensures GuardAt(Location("/student", Some(c))) == Some(Some([Login.StudentRole]))
    ensures GuardAt(Location("/coordinator", Some(c))) == Some(Some([Login.CoordinatorRole]))
  {
    GuardOfRoute(3, Location("/student", Some(c)));
    GuardOfRoute(4, Location("/coordinator", Some(c)));
  }

  /** Dashboards without nested routes match no nested location. */
  lemma NoNestedPagesElsewhere(top: string, c: string)
    requires top in {"/expert", "/hos", "/admin"}
    ensures GuardAt(Location(top, Some(c))).None?
  {
    PathsDistinct();
  }

  /** The guard's redirect target, /login, is not in the table. */
  lemma LoginPathUnrouted(nested: Option<string>)
    ensures GuardAt(Location("/login", nested)).None?
  {
    var login := "/login";
    assert |login| == 6 && login[1] == 'l';
    forall k | 0 <= k < |Routes| ensures Routes[k].path != login {
      if k == 7 {
        assert Routes[k].path[1] == 'a';
      } else {
        assert |Routes[k].path| != 6;
      }
    }
  }
}
