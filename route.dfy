/** The route guard `AppRoute`: render the page or redirect, by route privacy and sign-in state. */
module Routing {
  import opened Wrappers
  import opened Auth

  /** The page components the application routes to. */
  datatype Page = SignIn | SignUp | ForgotPassword | Dashboard

  /** The location the router hands to a route's `render` callback. */
  datatype Location = Location(pathname: string, search: string, hash: string)

  /** The props of one `AppRoute`; `isPrivate` may be omitted. */
  datatype RouteDecl = RouteDecl(path: string, exact: bool, isPrivate: Option<bool>, component: Page)

  /** What the guard renders: the page itself, or a redirect carrying `state.from`. */
  datatype Decision = Render(page: Page) | Redirect(pathname: string, from: Location)

  const SignInPath := "/"
  const DashboardPath := "/dashboard"

  /** Privacy of a route after the destructuring default `isPrivate = false`. */
  function IsPrivate(route: RouteDecl): (b: bool)
    ensures route.isPrivate == None ==> !b
    ensures route.isPrivate.Some? ==> b == route.isPrivate.value
  {
    route.isPrivate.GetOr(false)
  }

  /** The render decision of `AppRoute` for a request to `location`. */
  function Guard(route: RouteDecl, user: Session, location: Location): (d: Decision)
    ensures d.Render? <==> IsPrivate(route) == SignedIn(user)
    ensures d.Render? ==> d.page == route.component
    ensures IsPrivate(route) && !SignedIn(user) ==> d == Redirect(SignInPath, location)
    ensures !IsPrivate(route) && SignedIn(user) ==> d == Redirect(DashboardPath, location)
  {
    if IsPrivate(route) == SignedIn(user) then
      Render(route.component)
    else
      Redirect(if IsPrivate(route) then SignInPath else DashboardPath, location)
  }

  /** Every redirect goes to one of two targets and remembers where the user was headed. */
  lemma RedirectTargets(route: RouteDecl, user: Session, location: Location)
    ensures var d := Guard(route, user, location);
            d.Redirect? ==> d.pathname in {SignInPath, DashboardPath} && d.from == location
  {
  }

  /** The decision sees only whether someone is signed in, never which user it is. */
  lemma GuardIgnoresUserFields(route: RouteDecl, u1: Session, u2: Session, location: Location)
    requires SignedIn(u1) == SignedIn(u2)
    ensures Guard(route, u1, location) == Guard(route, u2, location)
  {
  }
}
