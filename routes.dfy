/**
 * The application's route table (`Routes`) and the guard applied to it.
 * Paths are looked up by exact equality with the declared path; the router's
 * prefix matching is not modelled.
 */
module RouteTable {
  import opened Wrappers
  import opened Auth
  import opened Routing

  /** The four `AppRoute` declarations, in the order the `Switch` lists them. */
  const Routes: seq<RouteDecl> := [
    RouteDecl("/", true, None, SignIn),
    RouteDecl("/signup", false, None, SignUp),
    RouteDecl("/forgot-password", false, None, ForgotPassword),
    RouteDecl("/dashboard", false, Some(true), Dashboard)
  ]

  /** Index of the first declaration whose path is `path`, as a `Switch` picks the first match. */
  function Lookup(routes: seq<RouteDecl>, path: string): (r: Option<nat>)
    ensures r.Some? ==> r.value < |routes| && routes[r.value].path == path
    ensures r.Some? ==> forall j :: 0 <= j < r.value ==> routes[j].path != path
    ensures r.None? <==> forall j :: 0 <= j < |routes| ==> routes[j].path != path
  {
    if routes == [] then None
    else if routes[0].path == path then Some(0)
    else match Lookup(routes[1..], path)
      case None => None
      case Some(i) => Some(i + 1)
  }

  /** What the table renders for a request: nothing when no route is declared for the path. */
  function Resolve(routes: seq<RouteDecl>, user: Session, location: Location): (r: Option<Decision>)
    ensures r.None? <==> forall j :: 0 <= j < |routes| ==> routes[j].path != location.pathname
    ensures r.Some? ==>
      (exists i :: 0 <= i < |routes| && routes[i].path == location.pathname &&
         (forall j :: 0 <= j < i ==> routes[j].path != location.pathname) &&
         r.value == Guard(routes[i], user, location))
  {
    match Lookup(routes, location.pathname)
    case None => None
    case Some(i) => Some(Guard(routes[i], user, location))
  }

  /** The location a redirect to `pathname` leads to. */
  function Target(pathname: string): Location {
    Location(pathname, "", "")
  }

  /** A table the guard's redirects cannot loop in: `/` is public and `/dashboard` private. */
  predicate RedirectsLand(routes: seq<RouteDecl>) {
    (match Lookup(routes, SignInPath)
     case Some(i) => !IsPrivate(routes[i])
     case None => false) &&
    (match Lookup(routes, DashboardPath)
     case Some(i) => IsPrivate(routes[i])
     case None => false)
  }

  /** In such a table, one redirect from any declared route reaches a route that renders. */
  lemma NoRedirectLoop(routes: seq<RouteDecl>, user: Session, location: Location)
    requires RedirectsLand(routes)
    ensures match Resolve(routes, user, location)
            case Some(Redirect(to, _)) =>
              var next := Resolve(routes, user, Target(to));
              next.Some? && next.value.Render?
            case _ => true
  {
    match Lookup(routes, location.pathname)
    case None =>
    case Some(i) =>
      if !SignedIn(user) {
        var j := Lookup(routes, SignInPath).value;
        assert Guard(routes[j], user, Target(SignInPath)).Render?;
      } else {
        var j := Lookup(routes, DashboardPath).value;
        assert Guard(routes[j], user, Target(DashboardPath)).Render?;
      }
  }

  /** The declared table: four paths in order, only `/` exact, only `/dashboard` private. */
  lemma DeclaredRoutes()
    ensures |Routes| == 4
    ensures Routes[0].path == "/" && Routes[1].path == "/signup"
    ensures Routes[2].path == "/forgot-password" && Routes[3].path == "/dashboard"
    ensures forall i :: 0 <= i < |Routes| ==> (Routes[i].exact <==> i == 0)
    ensures forall i :: 0 <= i < |Routes| ==> (IsPrivate(Routes[i]) <==> i == 3)
  {
  }

  /** The application's table satisfies `RedirectsLand`. */
  lemma RoutesRedirectsLand()
    ensures Lookup(Routes, SignInPath) == Some(0)
    ensures Lookup(Routes, DashboardPath) == Some(3)
    ensures RedirectsLand(Routes)
  {
    assert Routes[0].path == SignInPath;
    assert Routes[1].path != DashboardPath by { assert Routes[1].path[1] != DashboardPath[1]; }
    assert Routes[2].path != DashboardPath by { assert Routes[2].path[1] != DashboardPath[1]; }
  }

  /** So no request to the application loops: one redirect at most, then a page renders. */
  lemma AppHasNoRedirectLoop(user: Session, location: Location)
    ensures match Resolve(Routes, user, location)
            case Some(Redirect(to, _)) =>
              to in {SignInPath, DashboardPath} &&
              var next := Resolve(Routes, user, Target(to));
              next.Some? && next.value.Render?
            case _ => true
  {
    RoutesRedirectsLand();
    NoRedirectLoop(Routes, user, location);
  }

  /** The profile and password-reset pages have no entry, so the guard never governs them. */
  lemma UndeclaredPaths(user: Session, location: Location)
    requires location.pathname in {"/profile", "/reset-password"}
    ensures Lookup(Routes, location.pathname) == None
    ensures Resolve(Routes, user, location) == None
  {
    var p := location.pathname;
    assert Routes[0].path != p by { assert |Routes[0].path| != |p|; }
    assert Routes[1].path != p by { assert Routes[1].path[1] != p[1]; }
    assert Routes[2].path != p by { assert Routes[2].path[1] != p[1] || |Routes[2].path| != |p|; }
    assert Routes[3].path != p by { assert Routes[3].path[1] != p[1]; }
  }
}
