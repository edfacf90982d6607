/** The session state of the AuthProvider in src/hooks/useAuth.tsx, as a reducer over a
    sequential list of events. What the backend answers to the profile and company reads
    and to sign-out is part of each event. */
module AuthProvider {
  import opened Wrappers
  import opened Domain

  datatype AuthState = AuthState(
    user: Option<User>,
    session: Option<Session>,
    profile: Option<Profile>,
    company: Option<Company>,
    loading: bool)

  /** The state before anything has been read: nothing known, still loading */
  const Init := AuthState(None, None, None, None, true)

  /** The answers to the two reads of loadUserProfile. The company read only happens for a
      company admin; a missing row is an error of `.single()`. */
  datatype LoadOutcome = LoadOutcome(profile: Fetch<Profile>, company: Fetch<Company>)

  datatype Event =
    | InitialSession(session: Option<Session>, load: LoadOutcome)
    | AuthStateChange(session: Option<Session>, load: LoadOutcome)
    | SignOut(providerError: bool)
    | RefreshProfile(load: LoadOutcome)

  /** `session?.user ?? null` */
  function SessionUser(session: Option<Session>): Option<User> {
    if session.Some? then session.value.user else None
  }

  /** loadUserProfile: a failed profile read changes nothing; otherwise the profile is set,
      and for a company admin the company too, unless its read fails. */
  function LoadUserProfile(s: AuthState, load: LoadOutcome): (r: AuthState)
    ensures r.user == s.user && r.session == s.session && r.loading == s.loading
    ensures load.profile.FetchFailed? ==> r == s
    ensures load.profile.Fetched? ==> r.profile == Some(load.profile.value)
    ensures r.company != s.company ==>
      && load.profile.Fetched? && load.profile.value.role == EmpresaAdmin
      && load.company.Fetched? && r.company == Some(load.company.value)
    ensures load.profile.Fetched? && load.profile.value.role == EmpresaAdmin && load.company.Fetched?
      ==> r.company == Some(load.company.value)
  {
    match load.profile
    case FetchFailed => s
    case Fetched(p) =>
      var withProfile := s.(profile := Some(p));
      if p.role == EmpresaAdmin && load.company.Fetched? then
        withProfile.(company := Some(load.company.value))
      else withProfile
  }

  /** One event */
  function Step(s: AuthState, e: Event): (r: AuthState)
    ensures e.InitialSession? || e.AuthStateChange? ==>
      && !r.loading && r.session == e.session && r.user == SessionUser(e.session)
    ensures e.AuthStateChange? && SessionUser(e.session).None? ==> r.profile.None? && r.company.None?
    ensures e.InitialSession? && SessionUser(e.session).None? ==>
      r == s.(session := e.session, user := None, loading := false)
    ensures e.SignOut? ==> r.user == s.user && r.session == s.session && r.loading == s.loading
    ensures e.SignOut? && e.providerError ==> r == s
    ensures e.SignOut? && !e.providerError ==> r.profile.None? && r.company.None?
    ensures e.RefreshProfile? && s.user.None? ==> r == s
    ensures e.RefreshProfile? ==> r.user == s.user && r.session == s.session && r.loading == s.loading
    ensures ReadsSession(e) && SessionUser(e.session).Some? ==>
      r == LoadUserProfile(s.(session := e.session, user := SessionUser(e.session)), e.load).(loading := false)
    ensures e.RefreshProfile? && s.user.Some? ==> r == LoadUserProfile(s, e.load)
  {
    match e
    case InitialSession(session, load) =>
      var t := s.(session := session, user := SessionUser(session));
      var u := if SessionUser(session).Some? then LoadUserProfile(t, load) else t;
      u.(loading := false)
    case AuthStateChange(session, load) =>
      var t := s.(session := session, user := SessionUser(session));
      var u := if SessionUser(session).Some? then LoadUserProfile(t, load)
               else t.(profile := None, company := None);
      u.(loading := false)
    case SignOut(providerError) =>
      if providerError then s else s.(profile := None, company := None)
    case RefreshProfile(load) =>
      if s.user.Some? then LoadUserProfile(s, load) else s
  }

  /** The state after a sequence of events */
  function Run(s: AuthState, events: seq<Event>): AuthState
    decreases |events|
  {
    if |events| == 0 then s else Run(Step(s, events[0]), events[1..])
  }

  predicate ReadsSession(e: Event) {
    e.InitialSession? || e.AuthStateChange?
  }

  /** Loading ends with the first session read and never comes back. */
  lemma {:induction false} LoadingEnds(s: AuthState, events: seq<Event>)
    ensures Run(s, events).loading <==>
      s.loading && forall i :: 0 <= i < |events| ==> !ReadsSession(events[i])
    decreases |events|
  {
    if |events| > 0 {
      LoadingEnds(Step(s, events[0]), events[1..]);
      assert forall i :: 1 <= i < |events| ==> events[i] == events[1..][i - 1];
      if ReadsSession(events[0]) {
        assert !Step(s, events[0]).loading;
      }
    }
  }

  /** From the start, the provider is loading exactly until a session has been read. */
  lemma LoadingFromInit(events: seq<Event>)
    ensures Run(Init, events).loading <==> forall i :: 0 <= i < |events| ==> !ReadsSession(events[i])
  {
    LoadingEnds(Init, events);
  }

  /** A profile is held only while a user is signed in */
  predicate ProfileHasUser(s: AuthState) {
    s.profile.Some? ==> s.user.Some?
  }

  /** Every event but an initial-session read without a user keeps a profile tied to a
      signed-in user. */
  lemma StepKeepsProfileHasUser(s: AuthState, e: Event)
    requires ProfileHasUser(s)
    requires e.InitialSession? ==> SessionUser(e.session).Some? || s.profile.None?
    ensures ProfileHasUser(Step(s, e))
  {
  }

  /** The one exception: an initial-session read without a user keeps a profile that an
      earlier event loaded, so the profile outlives its user. */
  lemma InitialReadCanOrphanProfile(s: AuthState, session: Option<Session>, load: LoadOutcome)
    requires s.profile.Some? && SessionUser(session).None?
    ensures !ProfileHasUser(Step(s, InitialSession(session, load)))
  {
  }

  /** When the initial session is read first, as the provider's effect does, a profile is
      never held without a user, however the later events go. */
  lemma {:induction false} ProfileHasUserAfterStart(session: Option<Session>, load: LoadOutcome,
                                                    later: seq<Event>)
    requires forall i :: 0 <= i < |later| ==> !later[i].InitialSession?
    ensures ProfileHasUser(Run(Init, [InitialSession(session, load)] + later))
  {
    var s := Step(Init, InitialSession(session, load));
    assert ([InitialSession(session, load)] + later)[1..] == later;
    StepKeepsProfileHasUser(Init, InitialSession(session, load));
    RunKeepsProfileHasUser(s, later);
  }

  lemma {:induction false} RunKeepsProfileHasUser(s: AuthState, events: seq<Event>)
    requires ProfileHasUser(s)
    requires forall i :: 0 <= i < |events| ==> !events[i].InitialSession?
    ensures ProfileHasUser(Run(s, events))
    decreases |events|
  {
    if |events| > 0 {
      StepKeepsProfileHasUser(s, events[0]);
      assert forall i :: 1 <= i < |events| ==> events[1..][i - 1] == events[i];
      RunKeepsProfileHasUser(Step(s, events[0]), events[1..]);
    }
  }

  /** The flags of useRequireAuth */
  datatype RequireAuth = RequireAuth(isAuthenticated: bool, hasRequiredRole: bool, loading: bool)

  /** useRequireAuth */
  function UseRequireAuth(s: AuthState, requiredRole: Option<Role>): (r: RequireAuth)
    ensures r.isAuthenticated <==> s.user.Some? && s.profile.Some?
    ensures requiredRole.None? ==> r.hasRequiredRole
    ensures requiredRole.Some? ==> (r.hasRequiredRole <==> s.profile.Some? && s.profile.value.role == requiredRole.value)
    ensures r.loading == s.loading
  {
    RequireAuth(
      s.user.Some? && s.profile.Some?,
      if requiredRole.Some? then s.profile.Some? && s.profile.value.role == requiredRole.value else true,
      s.loading)
  }
}
