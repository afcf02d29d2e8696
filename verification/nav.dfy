/**
 * The member navigation bar (`src/components/ui/member-top-nav.tsx`): which
 * link is marked active, when the admin links show, and the mobile menu,
 * which is open for the path it was opened on.
 */
module Nav {
  import opened Wrappers
  import opened Text

  const DashboardHref := "/dashboard"
  const AdminHref := "/admin"

  /**
   * `isActivePath`: the dashboard link only on the dashboard itself; any
   * other link on its own path or a path below it. The ensures give the
   * "only if"; `ActiveBelow` gives the "if" for every such path.
   */
  function IsActivePath(pathname: string, href: string): (active: bool)
    ensures href == DashboardHref ==> (active <==> pathname == DashboardHref)
    ensures active && href != DashboardHref ==>
      && |href| <= |pathname| && pathname[..|href|] == href
      && (|pathname| == |href| || pathname[|href|] == '/')
  {
    if href == DashboardHref then pathname == DashboardHref
    else
      var below := StartsWith(pathname, href + "/");
      assert below ==> pathname[..|href| + 1] == href + "/" && pathname[..|href|] == (href + "/")[..|href|];
      pathname == href || below
  }

  /** A link other than the dashboard link is active on its own path and on every path below it. */
  lemma ActiveBelow(href: string, rest: string)
    requires href != DashboardHref
    ensures IsActivePath(href, href)
    ensures IsActivePath(href + "/" + rest, href)
  {
    assert (href + "/" + rest)[..|href| + 1] == href + "/";
  }

  /** The boundary is a whole path segment: "/adminx" does not activate "/admin". */
  lemma SegmentBoundary()
    ensures !IsActivePath("/adminx", AdminHref)
    ensures IsActivePath("/admin/users", AdminHref)
    ensures !IsActivePath("/dashboard/x", DashboardHref)
  {
    ActiveBelow(AdminHref, "users");
    assert "/adminx"[|AdminHref|] == 'x';
  }

  /** `usePathname() || ""`. */
  function Pathname(current: Option<string>): string {
    current.GetOr("")
  }

  /** `inAdmin`: the admin page or a page below it. */
  function InAdmin(pathname: string): (r: bool)
    ensures r <==> pathname == AdminHref || StartsWith(pathname, AdminHref + "/")
  {
    pathname == AdminHref || StartsWith(pathname, "/admin/")
  }

  /** Being in the admin area is the admin link being active. */
  lemma InAdminIsAdminLinkActive(pathname: string)
    ensures InAdmin(pathname) == IsActivePath(pathname, AdminHref)
  {
  }

  datatype NavItem = NavItem(href: string, caption: string)

  /** `showAdminItems`: the user has admin links and is in the admin area. */
  function ShowAdminItems(adminItems: seq<NavItem>, pathname: string): (show: bool)
    ensures show ==> |adminItems| > 0
    ensures show <==> adminItems != [] && IsActivePath(pathname, AdminHref)
  {
    InAdminIsAdminLinkActive(pathname);
    |adminItems| > 0 && InAdmin(pathname)
  }

  /** `isMobileMenuOpen`: the menu was opened on the current path. */
  predicate IsMobileMenuOpen(mobileMenuPath: Option<string>, pathname: string) {
    mobileMenuPath == Some(pathname)
  }

  /** The toggle button: close when open here, otherwise open here. */
  function Toggle(mobileMenuPath: Option<string>, pathname: string): (next: Option<string>)
    ensures IsMobileMenuOpen(next, pathname) <==> !IsMobileMenuOpen(mobileMenuPath, pathname)
  {
    if mobileMenuPath == Some(pathname) then None else Some(pathname)
  }

  /** Clicking a menu link closes the menu. */
  function LinkClicked(mobileMenuPath: Option<string>): (next: Option<string>)
    ensures forall pathname :: !IsMobileMenuOpen(next, pathname)
  {
    None
  }

  /** Toggling twice on the same path leaves the menu closed or open as it was. */
  lemma ToggleTwice(mobileMenuPath: Option<string>, pathname: string)
    ensures IsMobileMenuOpen(Toggle(Toggle(mobileMenuPath, pathname), pathname), pathname)
        == IsMobileMenuOpen(mobileMenuPath, pathname)
  {
  }

  /** A menu opened on one path is closed once the path changes. */
  lemma MenuClosesOnNavigation(mobileMenuPath: Option<string>, from: string, to: string)
    requires IsMobileMenuOpen(mobileMenuPath, from) && from != to
    ensures !IsMobileMenuOpen(mobileMenuPath, to)
  {
  }
}
