/** The route guard and the permission flags of src/components/ProtectedRoute.tsx, with
    the route table of src/App.tsx and the guard parameters it gives the two admin
    sections. */
module ProtectedRoute {
  import opened Chars
  import opened Wrappers
  import opened Domain

  const LoginPath := "/login"
  const SuperAdminHome := "/superadmin/dashboard"
  const CompanyHome := "/admin/dashboard"

  /** The dashboard a role lands on */
  function HomePath(role: Role): string {
    if role == SuperAdmin then SuperAdminHome else CompanyHome
  }

  /** What the guard renders: the spinner, a redirect (to the login page carrying the
      location the user came from, or to a dashboard), the inactive-account notice, or
      the protected children. */
  datatype Decision = Loading | Redirect(path: string, from: Option<string>) | Inactive | Permit

  /** The company is known and switched off */
  predicate KnownInactive(company: Option<Company>) {
    company.Some? && !company.value.active
  }

  /** ProtectedRoute */
  function Guard(loading: bool, user: Option<User>, profile: Option<Profile>,
                 company: Option<Company>, requiredRole: Option<Role>, requireActive: bool,
                 location: string): (d: Decision)
    ensures loading <==> d == Loading
    ensures d == Redirect(LoginPath, Some(location)) <==> !loading && (user.None? || profile.None?)
    ensures d.Redirect? && d.from.None? <==>
      !loading && user.Some? && profile.Some? && requiredRole.Some?
      && requiredRole.value != profile.value.role
    ensures d.Redirect? && d.from.None? ==> d.path == HomePath(profile.value.role)
    ensures d == Inactive <==>
      && !loading && user.Some? && profile.Some?
      && (requiredRole.None? || requiredRole.value == profile.value.role)
      && requireActive && profile.value.role == EmpresaAdmin && KnownInactive(company)
    ensures d == Permit <==>
      && !loading && user.Some? && profile.Some?
      && (requiredRole.None? || requiredRole.value == profile.value.role)
      && !(requireActive && profile.value.role == EmpresaAdmin && KnownInactive(company))
  {
    if loading then Loading
    else if user.None? || profile.None? then Redirect(LoginPath, Some(location))
    else if requiredRole.Some? && profile.value.role != requiredRole.value then
      Redirect(HomePath(profile.value.role), None)
    else if requireActive && profile.value.role == EmpresaAdmin && company.Some? && !company.value.active then
      Inactive
    else Permit
  }

  /** A company admin whose company record is missing passes the active check. */
  lemma MissingCompanyPermits(user: User, profile: Profile, requireActive: bool, location: string)
    requires profile.role == EmpresaAdmin
    ensures Guard(false, Some(user), Some(profile), None, Some(EmpresaAdmin), requireActive, location) == Permit
  {
  }

  /** requireActive never changes what a super admin sees. */
  lemma RequireActiveIgnoresSuperAdmin(loading: bool, user: Option<User>, profile: Profile,
                                       company: Option<Company>, requiredRole: Option<Role>,
                                       location: string)
    requires profile.role == SuperAdmin
    ensures Guard(loading, user, Some(profile), company, requiredRole, true, location)
         == Guard(loading, user, Some(profile), company, requiredRole, false, location)
  {
  }

  /** The routes of src/App.tsx. Every page under the two admin sections, the dashboards
      included, is commented out there, so each section routes only its own path, whose
      index child redirects to the section's dashboard. */
  datatype Route = LoginPage | RecoveryPage | PasswordChangePage | PublicHome
                 | SuperAdminIndex | CompanyAdminIndex | CatchAll

  const CatchAllTarget := "/"

  /** Every character is a slash */
  predicate AllSlashes(s: string) {
    forall i :: 0 <= i < |s| ==> s[i] == '/'
  }

  /** `path` matches the static route `pattern` (lower-case, starting with a slash) the
      way React Router compares them: letters without regard to case, and any trailing
      slashes allowed */
  predicate MatchesRoute(path: string, pattern: string) {
    StartsWith(Lower(path), pattern) && AllSlashes(path[|pattern|..])
  }

  /** A path cannot start, up to case, with two patterns that differ at `k`. */
  lemma PatternsDiffer(path: string, a: string, b: string, k: nat)
    requires k < |a| && k < |b| && a[k] != b[k]
    ensures !(StartsWith(Lower(path), a) && StartsWith(Lower(path), b))
  {
  }

  /** A path that differs at `k`, up to case, from a pattern does not match it. */
  lemma MissesAt(path: string, pattern: string, k: nat)
    requires k < |pattern| && k < |path| && ToLower(path[k]) != pattern[k]
    ensures !StartsWith(Lower(path), pattern) && !MatchesRoute(path, pattern)
  {
  }

  /** The root route matches only slashes, so no pattern with a letter after its slash. */
  lemma RootMatchesAlone(path: string, pattern: string)
    requires |pattern| > 1 && IsLower(pattern[1])
    ensures !(MatchesRoute(path, "/") && StartsWith(Lower(path), pattern))
  {
    if MatchesRoute(path, "/") && StartsWith(Lower(path), pattern) {
      assert path[1..][0] == '/';
      MissesAt(path, pattern, 1);
    }
  }

  /** No path matches two of the static routes. */
  lemma RoutesDisjoint(path: string)
    ensures !(MatchesRoute(path, "/") && MatchesRoute(path, "/login"))
    ensures !(MatchesRoute(path, "/") && MatchesRoute(path, "/recuperar-senha"))
    ensures !(MatchesRoute(path, "/") && MatchesRoute(path, "/alterar-senha"))
    ensures !(MatchesRoute(path, "/") && MatchesRoute(path, "/superadmin"))
    ensures !(MatchesRoute(path, "/") && MatchesRoute(path, "/admin"))
    ensures !(MatchesRoute(path, "/login") && MatchesRoute(path, "/superadmin"))
    ensures !(MatchesRoute(path, "/login") && MatchesRoute(path, "/admin"))
    ensures !(MatchesRoute(path, "/recuperar-senha") && MatchesRoute(path, "/superadmin"))
    ensures !(MatchesRoute(path, "/recuperar-senha") && MatchesRoute(path, "/admin"))
    ensures !(MatchesRoute(path, "/alterar-senha") && MatchesRoute(path, "/superadmin"))
    ensures !(MatchesRoute(path, "/alterar-senha") && MatchesRoute(path, "/admin"))
    ensures !(MatchesRoute(path, "/superadmin") && MatchesRoute(path, "/admin"))
  {
    RootMatchesAlone(path, "/login");
    RootMatchesAlone(path, "/recuperar-senha");
    RootMatchesAlone(path, "/alterar-senha");
    RootMatchesAlone(path, "/superadmin");
    RootMatchesAlone(path, "/admin");
    PatternsDiffer(path, "/login", "/superadmin", 1);
    PatternsDiffer(path, "/login", "/admin", 1);
    PatternsDiffer(path, "/recuperar-senha", "/superadmin", 1);
    PatternsDiffer(path, "/recuperar-senha", "/admin", 1);
    PatternsDiffer(path, "/alterar-senha", "/superadmin", 1);
    PatternsDiffer(path, "/alterar-senha", "/admin", 2);
    PatternsDiffer(path, "/superadmin", "/admin", 1);
  }

  /** The route of src/App.tsx a path renders; `*` catches every path no other route
      matches. */
  function RouteOf(path: string): (r: Route)
    ensures r == LoginPage <==> MatchesRoute(path, "/login")
    ensures r == SuperAdminIndex <==> MatchesRoute(path, "/superadmin")
    ensures r == CompanyAdminIndex <==> MatchesRoute(path, "/admin")
    ensures r == PublicHome <==> MatchesRoute(path, "/")
    ensures r == CatchAll <==>
      && !MatchesRoute(path, "/login") && !MatchesRoute(path, "/recuperar-senha")
      && !MatchesRoute(path, "/alterar-senha") && !MatchesRoute(path, "/")
      && !MatchesRoute(path, "/superadmin") && !MatchesRoute(path, "/admin")
  {
    RoutesDisjoint(path);
    if MatchesRoute(path, "/") then PublicHome
    else if MatchesRoute(path, "/login") then LoginPage
    else if MatchesRoute(path, "/recuperar-senha") then RecoveryPage
    else if MatchesRoute(path, "/alterar-senha") then PasswordChangePage
    else if MatchesRoute(path, "/superadmin") then SuperAdminIndex
    else if MatchesRoute(path, "/admin") then CompanyAdminIndex
    else CatchAll
  }

  /** `path` lies in the section `name`: its first segment is `name`, up to case */
  predicate InSection(path: string, name: string) {
    MatchesRoute(path, "/" + name) || StartsWith(Lower(path), "/" + name + "/")
  }

  /** Lying in a section starts with the section's path. */
  lemma InSectionStarts(path: string, name: string)
    ensures InSection(path, name) ==> StartsWith(Lower(path), "/" + name)
  {
    var p := "/" + name;
    if StartsWith(Lower(path), p + "/") {
      assert Lower(path)[..|p|] == Lower(path)[..|p + "/"|][..|p|];
    }
  }

  /** No path lies in both sections. */
  lemma SectionsDisjoint(path: string)
    ensures !(InSection(path, "superadmin") && InSection(path, "admin"))
  {
    InSectionStarts(path, "superadmin");
    InSectionStarts(path, "admin");
    PatternsDiffer(path, "/superadmin", "/admin", 1);
  }

  /** The guard parameters App.tsx wraps around the section a path lies in: the
      `superadmin` section needs the super admin role, the `admin` section the company
      role and an active company; elsewhere no guard. Sections are told apart by whole
      segments, so `/administrator` lies in neither. */
  function SectionGuard(path: string): (g: Option<(Role, bool)>)
    ensures g == Some((SuperAdmin, false)) <==> InSection(path, "superadmin")
    ensures g == Some((EmpresaAdmin, true)) <==> InSection(path, "admin")
    ensures g.None? <==> !InSection(path, "superadmin") && !InSection(path, "admin")
  {
    SectionsDisjoint(path);
    if InSection(path, "superadmin") then Some((SuperAdmin, false))
    else if InSection(path, "admin") then Some((EmpresaAdmin, true))
    else None
  }

  /** The two routed section paths carry their section's guard, and no other route
      carries one. */
  lemma SectionGuardOfRoutes(path: string)
    ensures RouteOf(path) == SuperAdminIndex ==> SectionGuard(path) == Some((SuperAdmin, false))
    ensures RouteOf(path) == CompanyAdminIndex ==> SectionGuard(path) == Some((EmpresaAdmin, true))
    ensures RouteOf(path) !in {SuperAdminIndex, CompanyAdminIndex, CatchAll} ==> SectionGuard(path).None?
  {
    InSectionStarts(path, "superadmin");
    InSectionStarts(path, "admin");
    RootMatchesAlone(path, "/superadmin");
    RootMatchesAlone(path, "/admin");
    PatternsDiffer(path, "/login", "/superadmin", 1);
    PatternsDiffer(path, "/login", "/admin", 1);
    PatternsDiffer(path, "/recuperar-senha", "/superadmin", 1);
    PatternsDiffer(path, "/recuperar-senha", "/admin", 1);
    PatternsDiffer(path, "/alterar-senha", "/superadmin", 1);
    PatternsDiffer(path, "/alterar-senha", "/admin", 2);
  }

  /** A home path lies in the section of its role. */
  lemma HomeSection(role: Role)
    ensures SectionGuard(HomePath(role)) == Some((role, role == EmpresaAdmin))
  {
    if role == SuperAdmin {
      SuperAdminHomeSection();
    } else {
      CompanyHomeSection();
    }
  }

  lemma SuperAdminHomeSection()
    ensures InSection(SuperAdminHome, "superadmin")
  {
    assert Lower(SuperAdminHome)[..12] == "/superadmin/";
  }

  lemma CompanyHomeSection()
    ensures InSection(CompanyHome, "admin")
  {
    assert Lower(CompanyHome)[..7] == "/admin/";
  }

  /** The dashboards are not routed: `*` sends a home path to `/`, the public layout, which
      no guard protects. */
  lemma HomeIsUnrouted(role: Role)
    ensures RouteOf(HomePath(role)) == CatchAll
    ensures RouteOf(CatchAllTarget) == PublicHome && SectionGuard(CatchAllTarget).None?
  {
    if role == SuperAdmin {
      SuperAdminHomeUnrouted();
    } else {
      CompanyHomeUnrouted();
    }
    RootIsPublic();
  }

  lemma SuperAdminHomeUnrouted()
    ensures RouteOf(SuperAdminHome) == CatchAll
  {
    var home := SuperAdminHome;
    assert home[1..][0] != '/';
    assert home[11..][1] != '/';
    MissesAt(home, "/login", 1);
    MissesAt(home, "/recuperar-senha", 1);
    MissesAt(home, "/alterar-senha", 1);
    MissesAt(home, "/admin", 1);
  }

  lemma CompanyHomeUnrouted()
    ensures RouteOf(CompanyHome) == CatchAll
  {
    var home := CompanyHome;
    assert home[1..][0] != '/';
    assert home[6..][1] != '/';
    MissesAt(home, "/login", 1);
    MissesAt(home, "/recuperar-senha", 1);
    MissesAt(home, "/alterar-senha", 2);
    MissesAt(home, "/superadmin", 1);
  }

  lemma RootIsPublic()
    ensures RouteOf(CatchAllTarget) == PublicHome && SectionGuard(CatchAllTarget).None?
  {
    assert Lower(CatchAllTarget) == "/";
  }

  /** A role-mismatch redirect goes to a home whose section guard lets the same user in
      (or shows the inactive notice): that guard does not redirect again. */
  lemma RedirectSettles(user: User, profile: Profile, company: Option<Company>,
                        requiredRole: Role, requireActive: bool, location: string)
    requires Guard(false, Some(user), Some(profile), company, Some(requiredRole), requireActive, location).Redirect?
    requires profile.role != requiredRole
    ensures var home := HomePath(profile.role);
      SectionGuard(home).Some?
      && var (role, active) := SectionGuard(home).value;
      Guard(false, Some(user), Some(profile), company, Some(role), active, home) in {Permit, Inactive}
  {
    HomeSection(profile.role);
  }

  /** The flags of usePermissions */
  datatype Permissions = Permissions(
    isSuperAdmin: bool,
    isCompanyAdmin: bool,
    isActiveCompany: bool,
    canAccessSuperAdmin: bool,
    canAccessCompanyAdmin: bool,
    canManageSystem: bool,
    canManageOwnCompany: bool)

  /** usePermissions */
  function GetPermissions(profile: Option<Profile>, company: Option<Company>): (p: Permissions)
    ensures !(p.isSuperAdmin && p.isCompanyAdmin)
    ensures profile.None? ==>
      && !p.isSuperAdmin && !p.isCompanyAdmin && !p.canAccessSuperAdmin
      && !p.canAccessCompanyAdmin && !p.canManageSystem && !p.canManageOwnCompany
    ensures p.canAccessCompanyAdmin <==> p.isCompanyAdmin && company.Some? && company.value.active
    ensures p.canManageOwnCompany == p.canAccessCompanyAdmin
    ensures p.canAccessSuperAdmin == p.canManageSystem == p.isSuperAdmin
    ensures p.isSuperAdmin <==> profile.Some? && profile.value.role == SuperAdmin
    ensures p.isCompanyAdmin <==> profile.Some? && profile.value.role == EmpresaAdmin
    ensures p.isActiveCompany <==> company.Some? && company.value.active
  {
    var isSuperAdmin := profile.Some? && profile.value.role == SuperAdmin;
    var isCompanyAdmin := profile.Some? && profile.value.role == EmpresaAdmin;
    var isActiveCompany := company.Some? && company.value.active;
    Permissions(isSuperAdmin, isCompanyAdmin, isActiveCompany, isSuperAdmin,
                isCompanyAdmin && isActiveCompany, isSuperAdmin, isCompanyAdmin && isActiveCompany)
  }

  /** The permission flags are stricter than the guard: a company admin who may manage
      the company also passes the guard of the company section. */
  lemma PermissionsImplyGuard(user: User, profile: Profile, company: Option<Company>, location: string)
    requires GetPermissions(Some(profile), company).canAccessCompanyAdmin
    ensures Guard(false, Some(user), Some(profile), company, Some(EmpresaAdmin), true, location) == Permit
  {
  }
}
