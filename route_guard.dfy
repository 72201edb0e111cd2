/**
 * The request guard in front of the dashboards: dashboard paths need a signed-in
 * user and the right role, the sign-in and sign-up pages send a signed-in user
 * to their role's dashboard, and every other path is left alone. The session
 * lookup and the profile lookup are inputs.
 */
module RouteGuard {
  import opened Wrappers

  /**
   * What the lookups give. `Failed`: the session lookup threw, or the user was
   * found and the profile lookup threw; the guard then lets the request through.
   * `SignedIn(role)`: `role` is the profile's role, `None` without a profile.
   */
  datatype Session = Failed | SignedOut | SignedIn(role: Option<string>)

  /** Pass the request on, or redirect it (to a path on the same origin). */
  datatype Decision = Next | Redirect(path: string)

  const LoginPath := "/login"
  const SignupPath := "/signup"
  const DashboardPrefix := "/dashboard"
  const OwnerDashboard := "/dashboard/owner"
  const DeveloperDashboard := "/dashboard/developer"
  const CustomerDashboard := "/dashboard/customer"

  predicate IsProtected(pathname: string) {
    DashboardPrefix <= pathname
  }

  predicate IsAuthPage(pathname: string) {
    pathname == LoginPath || pathname == SignupPath
  }

  /** Where a signed-in user on the sign-in or sign-up page is sent. */
  function HomeFor(role: Option<string>): (target: string)
    ensures target == DeveloperDashboard <==> role == Some("developer")
    ensures target == OwnerDashboard <==> role == Some("owner")
    ensures target == CustomerDashboard <==> role != Some("developer") && role != Some("owner")
  {
    if role == Some("developer") then DeveloperDashboard
    else if role == Some("owner") then OwnerDashboard
    else CustomerDashboard
  }

  /** The decision `middleware` takes for one request, as its chain of early returns. */
  function Route(pathname: string, session: Session): (d: Decision)
    ensures d.Redirect? ==> IsProtected(pathname) || IsAuthPage(pathname)
    ensures session.Failed? ==> d == Next
    ensures IsAuthPage(pathname) && session.SignedOut? ==> d == Next
  {
    if !IsProtected(pathname) && !IsAuthPage(pathname) then Next
    else if session.Failed? then Next
    else if IsProtected(pathname) then
      if session.SignedOut? then Redirect(LoginPath)
      else if OwnerDashboard <= pathname && session.role != Some("owner") then Redirect(CustomerDashboard)
      else if DeveloperDashboard <= pathname && session.role != Some("developer") then Redirect(OwnerDashboard)
      else Next
    else if session.SignedIn? then Redirect(HomeFor(session.role))
    else Next
  }

  /** A dashboard path the role may open. */
  predicate Permitted(pathname: string, role: Option<string>) {
    && (OwnerDashboard <= pathname ==> role == Some("owner"))
    && (DeveloperDashboard <= pathname ==> role == Some("developer"))
  }

  // ---- One lemma per rule ----

  /** A path that is neither a dashboard nor an auth page passes, whatever the session. */
  lemma PublicPathPasses(pathname: string, session: Session)
    requires !IsProtected(pathname) && !IsAuthPage(pathname)
    ensures Route(pathname, session) == Next
  {
  }

  /** A dashboard path without a signed-in user goes to the sign-in page. */
  lemma SignedOutGoesToLogin(pathname: string)
    requires IsProtected(pathname)
    ensures Route(pathname, SignedOut) == Redirect(LoginPath)
  {
  }

  /** The owner dashboard sends every other role to the customer dashboard. */
  lemma OwnerDashboardNeedsOwner(pathname: string, role: Option<string>)
    requires OwnerDashboard <= pathname && role != Some("owner")
    ensures Route(pathname, SignedIn(role)) == Redirect(CustomerDashboard)
  {
    PrefixOfPrefix(DashboardPrefix, OwnerDashboard, pathname);
  }

  /** The developer dashboard sends every other role to the owner dashboard. */
  lemma DeveloperDashboardNeedsDeveloper(pathname: string, role: Option<string>)
    requires DeveloperDashboard <= pathname && role != Some("developer")
    ensures Route(pathname, SignedIn(role)) == Redirect(OwnerDashboard)
  {
    PrefixOfPrefix(DashboardPrefix, DeveloperDashboard, pathname);
    NotBoth(pathname);
  }

  /** A signed-in user on the sign-in or sign-up page goes to the dashboard of their role. */
  lemma SignedInLeavesAuthPage(pathname: string, role: Option<string>)
    requires IsAuthPage(pathname)
    ensures Route(pathname, SignedIn(role)) == Redirect(HomeFor(role))
  {
    AuthPagesAreNotProtected(pathname);
  }

  /**
   * Exactly the cases the guard lets through: a public path, a failed lookup,
   * an auth page without a user, and a dashboard path the role may open.
   */
  lemma PassesExactly(pathname: string, session: Session)
    ensures Route(pathname, session) == Next <==>
      || (!IsProtected(pathname) && !IsAuthPage(pathname))
      || session.Failed?
      || (IsAuthPage(pathname) && session.SignedOut?)
      || (IsProtected(pathname) && session.SignedIn? && Permitted(pathname, session.role))
  {
    if IsAuthPage(pathname) {
      AuthPagesAreNotProtected(pathname);
    }
    NotBoth(pathname);
  }

  /** Every redirect goes to the sign-in page or to one of the three dashboards. */
  lemma RedirectTargets(pathname: string, session: Session)
    requires Route(pathname, session).Redirect?
    ensures Route(pathname, session).path in {LoginPath, OwnerDashboard, DeveloperDashboard, CustomerDashboard}
  {
  }

  // ---- Following redirects ----

  /** The path the browser ends up requesting after following at most `hops` redirects. */
  function Follow(pathname: string, session: Session, hops: nat): (last: string)
    ensures last == pathname || last in {LoginPath, OwnerDashboard, DeveloperDashboard, CustomerDashboard}
    decreases hops
  {
    if hops == 0 then pathname
    else
      match Route(pathname, session)
      case Next => pathname
      case Redirect(target) =>
        RedirectTargets(pathname, session);
        Follow(target, session, hops - 1)
  }

  /** Each redirect target is passed for the session that caused it, or leads on to one that is. */
  lemma TargetsSettle(session: Session)
    ensures !session.SignedOut? ==> Route(CustomerDashboard, session) == Next
    ensures session.SignedIn? && session.role == Some("owner") ==> Route(OwnerDashboard, session) == Next
    ensures session.SignedIn? && session.role == Some("developer") ==> Route(DeveloperDashboard, session) == Next
    ensures session.SignedIn? ==> Route(HomeFor(session.role), session) == Next
    ensures !session.SignedIn? ==> Route(LoginPath, session) == Next
    ensures session.SignedIn? && session.role != Some("owner") ==>
      Route(OwnerDashboard, session) == Redirect(CustomerDashboard)
  {
    DashboardPaths();
  }

  /** No redirect loop: for a fixed session, two redirects at most reach a path that passes. */
  lemma NoRedirectLoop(pathname: string, session: Session)
    ensures Route(Follow(pathname, session, 2), session) == Next
  {
    TargetsSettle(session);
    DashboardPaths();
    match Route(pathname, session)
    case Next =>
    case Redirect(target) =>
      RedirectTargets(pathname, session);
      if target == OwnerDashboard {
        assert Follow(pathname, session, 2) == Follow(OwnerDashboard, session, 1);
      }
  }

  /** Two hops can be needed: a customer opening the developer dashboard. */
  lemma CustomerChain()
    ensures Route(DeveloperDashboard, SignedIn(Some("customer"))) == Redirect(OwnerDashboard)
    ensures Route(OwnerDashboard, SignedIn(Some("customer"))) == Redirect(CustomerDashboard)
    ensures Route(CustomerDashboard, SignedIn(Some("customer"))) == Next
  {
    DashboardPaths();
  }

  // ---- Facts about the paths ----

  lemma PrefixOfPrefix(a: string, b: string, c: string)
    requires a <= b && b <= c
    ensures a <= c
  {
  }

  /** The dashboards are protected paths and none of them lies under another. */
  lemma DashboardPaths()
    ensures IsProtected(OwnerDashboard) && IsProtected(DeveloperDashboard) && IsProtected(CustomerDashboard)
    ensures !(OwnerDashboard <= DeveloperDashboard) && !(OwnerDashboard <= CustomerDashboard)
    ensures !(DeveloperDashboard <= OwnerDashboard) && !(DeveloperDashboard <= CustomerDashboard)
    ensures !IsProtected(LoginPath) && !IsAuthPage(OwnerDashboard)
    ensures !IsAuthPage(DeveloperDashboard) && !IsAuthPage(CustomerDashboard)
  {
    assert OwnerDashboard[11] == 'o' && DeveloperDashboard[11] == 'd' && CustomerDashboard[11] == 'c';
    assert LoginPath[1] == 'l';
    assert OwnerDashboard[..10] == DashboardPrefix;
    assert DeveloperDashboard[..10] == DashboardPrefix;
    assert CustomerDashboard[..10] == DashboardPrefix;
  }

  lemma AuthPagesAreNotProtected(pathname: string)
    requires IsAuthPage(pathname)
    ensures !IsProtected(pathname)
  {
    assert LoginPath[1] == 'l' && SignupPath[1] == 's' && DashboardPrefix[1] == 'd';
  }

  /** No path lies under both the owner and the developer dashboard. */
  lemma NotBoth(pathname: string)
    ensures !(OwnerDashboard <= pathname && DeveloperDashboard <= pathname)
  {
    if OwnerDashboard <= pathname {
      assert pathname[11] == OwnerDashboard[11] == 'o';
    }
  }
}
