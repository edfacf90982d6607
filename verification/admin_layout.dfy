/** The sidebar logic of src/components/layouts/AdminLayout.tsx: which menu a profile gets,
    which entry is highlighted, the company panel, and the sign-out button's guard
    against a second click. */
module AdminLayout {
  import opened Wrappers
  import opened Chars
  import opened Domain

  /** `pathname === href || pathname.startsWith(href + '/')` */
  predicate IsActiveRoute(pathname: string, href: string) {
    pathname == href || StartsWith(pathname, href + "/")
  }

  /** An entry is highlighted exactly when its href is a whole-segment prefix of the path. */
  lemma IsActiveRouteSegment(pathname: string, href: string)
    ensures IsActiveRoute(pathname, href) <==>
      StartsWith(pathname, href) && (|pathname| == |href| || pathname[|href|] == '/')
  {
    if StartsWith(pathname, href) && |pathname| > |href| && pathname[|href|] == '/' {
      assert pathname[..|href| + 1] == href + "/";
    }
    if StartsWith(pathname, href + "/") {
      assert pathname[..|href|] == (href + "/")[..|href|];
    }
  }

  /** A longer name that merely starts with the href is not under it. */
  lemma IsActiveRouteExample()
    ensures !IsActiveRoute("/admin/dashboardX", "/admin/dashboard")
    ensures IsActiveRoute("/admin/dashboard/x", "/admin/dashboard")
  {
    IsActiveRouteSegment("/admin/dashboardX", "/admin/dashboard");
    IsActiveRouteSegment("/admin/dashboard/x", "/admin/dashboard");
  }

  /** Two highlighted hrefs of one path are nested: the shorter is active on the longer. */
  lemma ActiveNested(pathname: string, a: string, b: string)
    requires IsActiveRoute(pathname, a) && IsActiveRoute(pathname, b) && |a| <= |b|
    ensures IsActiveRoute(b, a)
  {
    IsActiveRouteSegment(pathname, a);
    IsActiveRouteSegment(pathname, b);
    IsActiveRouteSegment(b, a);
    assert b[..|a|] == pathname[..|a|];
    if |a| < |b| {
      assert b[|a|] == pathname[|a|];
    }
  }

  datatype NavItem = NavItem(caption: string, href: string)

  const SuperAdminNavigation: seq<NavItem> := [
    NavItem("Dashboard", "/superadmin/dashboard"),
    NavItem("Empresas", "/superadmin/empresas"),
    NavItem("Planos", "/superadmin/planos"),
    NavItem("Categorias", "/superadmin/categorias"),
    NavItem("Localização", "/superadmin/localizacao"),
    NavItem("Configurações", "/superadmin/configuracoes")
  ]

  const CompanyAdminNavigation: seq<NavItem> := [
    NavItem("Dashboard", "/admin/dashboard"),
    NavItem("Perfil da Empresa", "/admin/perfil"),
    NavItem("Cartões Fidelidade", "/admin/cartoes"),
    NavItem("Clientes", "/admin/clientes"),
    NavItem("Configurações", "/admin/configuracoes")
  ]

  /** The super-admin menu for a super admin; the company menu for anyone else, a missing
      profile included */
  function Navigation(profile: Option<Profile>): (nav: seq<NavItem>)
    ensures nav == SuperAdminNavigation <==> profile.Some? && profile.value.role == SuperAdmin
    ensures nav == SuperAdminNavigation || nav == CompanyAdminNavigation
  {
    if profile.Some? && profile.value.role == SuperAdmin then SuperAdminNavigation
    else CompanyAdminNavigation
  }

  /** Every href lies under `prefix` */
  predicate HrefsUnder(nav: seq<NavItem>, prefix: string) {
    forall i :: 0 <= i < |nav| ==> StartsWith(nav[i].href, prefix)
  }

  /** No href is a whole-segment prefix of another */
  predicate NoNesting(nav: seq<NavItem>) {
    forall i, j :: 0 <= i < |nav| && 0 <= j < |nav| && i != j ==> !IsActiveRoute(nav[j].href, nav[i].href)
  }

  predicate WellFormedMenu(nav: seq<NavItem>, prefix: string) {
    HrefsUnder(nav, prefix) && NoNesting(nav)
  }

  lemma SuperAdminMenuHrefs()
    ensures HrefsUnder(SuperAdminNavigation, "/superadmin/")
  {
  }

  lemma SuperAdminMenuNested()
    ensures NoNesting(SuperAdminNavigation)
  {
    forall i, j | 0 <= i < |SuperAdminNavigation| && 0 <= j < |SuperAdminNavigation| && i != j
      ensures !IsActiveRoute(SuperAdminNavigation[j].href, SuperAdminNavigation[i].href)
    {
      var a, b := SuperAdminNavigation[i].href, SuperAdminNavigation[j].href;
      IsActiveRouteSegment(b, a);
      assert a[12] != b[12] || a[13] != b[13];
    }
  }

  lemma CompanyMenuHrefs()
    ensures HrefsUnder(CompanyAdminNavigation, "/admin/")
  {
  }

  lemma CompanyMenuNested()
    ensures NoNesting(CompanyAdminNavigation)
  {
    forall i, j | 0 <= i < |CompanyAdminNavigation| && 0 <= j < |CompanyAdminNavigation| && i != j
      ensures !IsActiveRoute(CompanyAdminNavigation[j].href, CompanyAdminNavigation[i].href)
    {
      var a, b := CompanyAdminNavigation[i].href, CompanyAdminNavigation[j].href;
      IsActiveRouteSegment(b, a);
      assert a[7] != b[7] || a[8] != b[8];
    }
  }

  /** Both menus are well formed; so their hrefs, used as keys, are distinct. */
  lemma MenusWellFormed()
    ensures WellFormedMenu(SuperAdminNavigation, "/superadmin/")
    ensures WellFormedMenu(CompanyAdminNavigation, "/admin/")
  {
    SuperAdminMenuHrefs();
    SuperAdminMenuNested();
    CompanyMenuHrefs();
    CompanyMenuNested();
  }

  /** Entry `i` of the menu is highlighted on `pathname` */
  predicate ActiveAt(nav: seq<NavItem>, pathname: string, i: int) {
    0 <= i < |nav| && IsActiveRoute(pathname, nav[i].href)
  }

  /** In a well-formed menu the hrefs are distinct and at most one entry is highlighted,
      whatever the path. */
  lemma AtMostOneActive(nav: seq<NavItem>, prefix: string, pathname: string)
    requires WellFormedMenu(nav, prefix)
    ensures forall i, j :: 0 <= i < j < |nav| ==> nav[i].href != nav[j].href
    ensures forall i, j :: ActiveAt(nav, pathname, i) && ActiveAt(nav, pathname, j) ==> i == j
  {
    forall i, j | ActiveAt(nav, pathname, i) && ActiveAt(nav, pathname, j)
      ensures i == j
    {
      if |nav[i].href| <= |nav[j].href| {
        ActiveNested(pathname, nav[i].href, nav[j].href);
      } else {
        ActiveNested(pathname, nav[j].href, nav[i].href);
      }
    }
  }

  /** The company panel shows for a company admin whose company has loaded */
  predicate ShowCompanyPanel(profile: Option<Profile>, company: Option<Company>) {
    profile.Some? && profile.value.role == EmpresaAdmin && company.Some?
  }

  /** The panel and the super-admin menu never appear together. */
  lemma CompanyPanelNotForSuperAdmin(profile: Option<Profile>, company: Option<Company>)
    ensures ShowCompanyPanel(profile, company) ==> Navigation(profile) == CompanyAdminNavigation
  {
  }

  /** How the `signOut()` promise settles */
  datatype Settle = Resolved | Threw

  datatype SignOutClick = SignOutClick(callsSignOut: bool, isLoggingOut: bool, navigateTo: Option<string>)

  /** handleSignOut: a click while a sign-out is running does nothing; otherwise the flag is
      raised and signOut called; when it resolves the browser goes to the login page,
      when it throws the flag is lowered again. */
  function HandleSignOut(isLoggingOut: bool, settle: Settle): (r: SignOutClick)
    ensures isLoggingOut ==> r == SignOutClick(false, true, None)
    ensures !isLoggingOut ==> r.callsSignOut
    ensures r.callsSignOut && settle == Threw ==> !r.isLoggingOut && r.navigateTo.None?
    ensures r.callsSignOut && settle == Resolved ==> r.isLoggingOut && r.navigateTo == Some("/login")
  {
    if isLoggingOut then SignOutClick(false, true, None)
    else if settle == Resolved then SignOutClick(true, true, Some("/login"))
    else SignOutClick(true, false, None)
  }

  /** The number of signOut calls a series of clicks makes, each click paired with how
      its call would settle */
  function SignOutCalls(isLoggingOut: bool, clicks: seq<Settle>): nat
    decreases |clicks|
  {
    if |clicks| == 0 then 0
    else
      var r := HandleSignOut(isLoggingOut, clicks[0]);
      (if r.callsSignOut then 1 else 0) + SignOutCalls(r.isLoggingOut, clicks[1..])
  }

  function Throws(clicks: seq<Settle>): nat {
    if |clicks| == 0 then 0 else (if clicks[0] == Threw then 1 else 0) + Throws(clicks[1..])
  }

  /** Only a sign-out that threw lets a later click call signOut again: a series of clicks
      makes at most one call more than the calls that threw. */
  lemma {:induction false} SignOutReentrance(isLoggingOut: bool, clicks: seq<Settle>)
    ensures SignOutCalls(isLoggingOut, clicks) <= (if isLoggingOut then 0 else 1) + Throws(clicks)
    ensures Throws(clicks) == 0 ==> SignOutCalls(isLoggingOut, clicks) <= 1
    decreases |clicks|
  {
    if |clicks| > 0 {
      var r := HandleSignOut(isLoggingOut, clicks[0]);
      SignOutReentrance(r.isLoggingOut, clicks[1..]);
    }
  }
}
