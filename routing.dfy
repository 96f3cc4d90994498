/**
 * Where the frontend lets a visitor go: the two route guards, the route
 * table of the application, and the navigation bar's items.
 */
module Routing {
  import opened Wrappers
  import opened Auth
  import opened Text

  /** What a guard shows: the loading placeholder, a redirect, or the guarded page. */
  datatype Outcome = Loading | Redirect(to: string) | Render

  /**
   * The guard defined in App.jsx: loading first, then authentication
   * (to /login), then the administrator requirement (to /).
   */
  function Guard(loading: bool, user: Option<User>, requireAdmin: bool): (o: Outcome)
    ensures loading ==> o == Loading
    ensures o == Redirect("/login") <==> !loading && !IsAuthenticated(user)
    ensures o == Redirect("/") <==> !loading && IsAuthenticated(user) && requireAdmin && !IsAdmin(user)
    ensures o == Render <==> !loading && IsAuthenticated(user) && (requireAdmin ==> IsAdmin(user))
  {
    if loading then Loading
    else if !IsAuthenticated(user) then Redirect("/login")
    else if requireAdmin && !IsAdmin(user) then Redirect("/")
    else Render
  }

  /** The guard in ProtectedRoute.jsx: loading first, then authentication; it has no administrator check. */
  function SimpleGuard(loading: bool, user: Option<User>): (o: Outcome)
    ensures loading ==> o == Loading
    ensures o == Redirect("/login") <==> !loading && !IsAuthenticated(user)
    ensures o == Render <==> !loading && IsAuthenticated(user)
  {
    if loading then Loading
    else if !IsAuthenticated(user) then Redirect("/login")
    else Render
  }

  /** Without the administrator requirement the two guards decide alike. */
  lemma GuardsAgree(loading: bool, user: Option<User>)
    ensures Guard(loading, user, false) == SimpleGuard(loading, user)
  {
  }

  /** ProtectedRoute.jsx never looks at the administrator flag: users that differ only there are treated alike. */
  lemma SimpleGuardIgnoresAdmin(loading: bool, u: User, flag: Js.Value)
    ensures SimpleGuard(loading, Some(u)) == SimpleGuard(loading, Some(u.(isAdmin := flag)))
  {
  }

  /** The pages of the application. */
  datatype Page = LoginPage | SignupPage | DashboardPage | ProfilePage | UsersPage | MachinesPage | SessionsPage

  /** An entry of the route table: public, guarded (maybe for administrators only), or the catch-all redirect to /. */
  datatype Route = Public(page: Page) | Protected(page: Page, requireAdmin: bool) | CatchAll

  /** The path without its trailing slashes. */
  function StripTrailingSlashes(path: string): (p: string)
    ensures p <= path
    ensures p == [] || p[|p| - 1] != '/'
    ensures forall i :: |p| <= i < |path| ==> path[i] == '/'
  {
    if path != [] && path[|path| - 1] == '/' then StripTrailingSlashes(path[..|path| - 1]) else path
  }

  /**
   * The path as the router compares it with the table: letters in lower
   * case, since matching ignores case, and any trailing slashes dropped,
   * since each route also matches with them; the root keeps its "/".
   */
  function RoutePath(path: string): (p: string)
    ensures p == "/" || (p != [] && p[|p| - 1] != '/')
    ensures p != "/" ==> p <= ToLower(path) && forall i :: |p| <= i < |path| ==> path[i] == '/'
  {
    var p := StripTrailingSlashes(ToLower(path));
    if p == "" then "/" else p
  }

  /** The route table of App.jsx. */
  function RouteFor(path: string): (r: Route)
    ensures r.Protected? && r.requireAdmin <==> RoutePath(path) in {"/users", "/machines", "/sessions"}
    ensures r.Protected? && !r.requireAdmin <==> RoutePath(path) in {"/", "/profile"}
    ensures r.Public? <==> RoutePath(path) in {"/login", "/signup"}
    ensures RoutePath(path) == "/login" ==> r == Public(LoginPage)
    ensures RoutePath(path) == "/signup" ==> r == Public(SignupPage)
    ensures RoutePath(path) == "/" ==> r == Protected(DashboardPage, false)
    ensures RoutePath(path) == "/profile" ==> r == Protected(ProfilePage, false)
    ensures RoutePath(path) == "/users" ==> r == Protected(UsersPage, true)
    ensures RoutePath(path) == "/machines" ==> r == Protected(MachinesPage, true)
    ensures RoutePath(path) == "/sessions" ==> r == Protected(SessionsPage, true)
  {
    var p := RoutePath(path);
    if p == "/login" then Public(LoginPage)
    else if p == "/signup" then Public(SignupPage)
    else if p == "/" then Protected(DashboardPage, false)
    else if p == "/profile" then Protected(ProfilePage, false)
    else if p == "/users" then Protected(UsersPage, true)
    else if p == "/machines" then Protected(MachinesPage, true)
    else if p == "/sessions" then Protected(SessionsPage, true)
    else CatchAll
  }

  /** A path already in lower case without trailing slashes is compared as it stands. */
  lemma {:induction false} CanonicalPathUnchanged(path: string)
    requires path != [] && path[|path| - 1] != '/'
    requires forall i :: 0 <= i < |path| ==> !('A' <= path[i] <= 'Z')
    ensures RoutePath(path) == path
  {
    assert ToLower(path) == path;
  }

  /** Normalising twice is normalising once. */
  lemma RoutePathIdempotent(path: string)
    ensures RoutePath(RoutePath(path)) == RoutePath(path)
  {
    var p := RoutePath(path);
    if p == "/" {
      assert ToLower("/") == "/";
      assert StripTrailingSlashes("/") == "";
    } else {
      forall i | 0 <= i < |p|
        ensures !('A' <= p[i] <= 'Z')
      {
        assert p[i] == ToLower(path)[i];
      }
      CanonicalPathUnchanged(p);
    }
  }

  /** Each path of the table is compared as written. */
  lemma TablePathsCanonical(path: string)
    requires path in {"/", "/login", "/signup", "/profile", "/users", "/machines", "/sessions"}
    ensures RoutePath(path) == path
  {
    if path == "/" {
      assert ToLower("/") == "/";
      assert StripTrailingSlashes("/") == "";
    } else {
      CanonicalPathUnchanged(path);
    }
  }

  /** "/Users" and "/users/" reach the user management page like "/users". */
  lemma CaseAndTrailingSlashIgnored()
    ensures RouteFor("/Users") == RouteFor("/users/") == RouteFor("/users") == Protected(UsersPage, true)
  {
    assert ToLower("/Users") == "/users";
    assert ToLower("/users/") == "/users/";
    assert StripTrailingSlashes("/users/") == "/users";
    TablePathsCanonical("/users");
  }

  /** What a visit to a path shows. */
  datatype View = Wait | Show(page: Page) | GoTo(path: string)

  function Visit(path: string, loading: bool, user: Option<User>): (v: View)
    ensures RouteFor(path).CatchAll? ==> v == GoTo("/")
    ensures RouteFor(path).Public? ==> v == Show(RouteFor(path).page)
    ensures RouteFor(path).Protected? && loading ==> v == Wait
    ensures RouteFor(path).Protected? && !loading && !IsAuthenticated(user) ==> v == GoTo("/login")
    ensures RouteFor(path).Protected? && !loading && IsAuthenticated(user) && RouteFor(path).requireAdmin && !IsAdmin(user) ==>
      v == GoTo("/")
    ensures RouteFor(path).Protected? && !loading && IsAuthenticated(user) && (RouteFor(path).requireAdmin ==> IsAdmin(user)) ==>
      v == Show(RouteFor(path).page)
  {
    match RouteFor(path)
    case Public(page) => Show(page)
    case CatchAll => GoTo("/")
    case Protected(page, requireAdmin) =>
      match Guard(loading, user, requireAdmin)
      case Loading => Wait
      case Redirect(to) => GoTo(to)
      case Render => Show(page)
  }

  /** The administrator pages: an authenticated non-administrator is sent to /, an administrator sees the page. */
  lemma AdminPagesNeedAdmin(path: string, user: Option<User>)
    requires RoutePath(path) in {"/users", "/machines", "/sessions"} && IsAuthenticated(user)
    ensures !IsAdmin(user) ==> Visit(path, false, user) == GoTo("/")
    ensures IsAdmin(user) ==> Visit(path, false, user) == Show(RouteFor(path).page)
  {
  }

  /** Every redirect ends on a shown page within two more steps once loading has finished. */
  lemma RedirectsSettle(path: string, user: Option<User>)
    ensures Visit(path, false, user).GoTo? ==>
      var t := Visit(path, false, user).path;
      Visit(t, false, user).Show? ||
      (Visit(t, false, user).GoTo? && Visit(Visit(t, false, user).path, false, user).Show?)
  {
    TablePathsCanonical("/");
    TablePathsCanonical("/login");
    assert RouteFor("/") == Protected(DashboardPage, false);
    assert RouteFor("/login") == Public(LoginPage);
    if Visit(path, false, user).GoTo? {
      var t := Visit(path, false, user).path;
      assert t == "/" || t == "/login";
    }
  }

  // ---- Layout: the navigation bar ----

  datatype NavItem = NavItem(title: string, href: string)

  const BaseNavItems: seq<NavItem> := [NavItem("Dashboard", "/"), NavItem("My Profile", "/profile")]

  const AdminNavItems: seq<NavItem> := [
    NavItem("User Management", "/users"), NavItem("Machine Management", "/machines"),
    NavItem("Session Management", "/sessions")]

  /** `getNavItems`: everyone gets the base items; an administrator gets the management items after them. */
  function NavItems(isAdmin: bool): (items: seq<NavItem>)
    ensures BaseNavItems <= items
    ensures |items| == if isAdmin then 5 else 2
    ensures isAdmin ==> items[2..] == AdminNavItems
  {
    if isAdmin then BaseNavItems + AdminNavItems else BaseNavItems
  }

  /** A link is highlighted when the current path is its target. */
  predicate IsActive(currentPath: string, item: NavItem) {
    currentPath == item.href
  }

  /** No two items share a target, so at most one link is highlighted. */
  lemma AtMostOneActive(isAdmin: bool, currentPath: string, i: int, j: int)
    requires 0 <= i < |NavItems(isAdmin)| && 0 <= j < |NavItems(isAdmin)|
    requires IsActive(currentPath, NavItems(isAdmin)[i]) && IsActive(currentPath, NavItems(isAdmin)[j])
    ensures i == j
  {
    var items := NavItems(isAdmin);
    if isAdmin {
      assert items == [NavItem("Dashboard", "/"), NavItem("My Profile", "/profile"),
        NavItem("User Management", "/users"), NavItem("Machine Management", "/machines"),
        NavItem("Session Management", "/sessions")];
    }
  }

  /**
   * The highlight compares the path exactly, while the router ignores case
   * and trailing slashes: "/users/" shows the user management page with no
   * link highlighted.
   */
  lemma VariantPathHighlightsNothing(isAdmin: bool, i: int)
    requires 0 <= i < |NavItems(isAdmin)|
    ensures RouteFor("/users/") == Protected(UsersPage, true)
    ensures !IsActive("/users/", NavItems(isAdmin)[i])
  {
    CaseAndTrailingSlashIgnored();
  }

  /** Every link the navigation bar offers a logged-in user opens its page, with no redirect. */
  lemma NavLinksOpen(user: Option<User>, i: int)
    requires IsAuthenticated(user) && 0 <= i < |NavItems(IsAdmin(user))|
    ensures Visit(NavItems(IsAdmin(user))[i].href, false, user).Show?
  {
    var items := NavItems(IsAdmin(user));
    if i >= 2 {
      assert items[i] == AdminNavItems[i - 2];
    } else {
      assert items[i] == BaseNavItems[i];
    }
    TablePathsCanonical(items[i].href);
  }
}
