/** The login page of src/components/auth/LoginForm.tsx: its schema, where a signed-in
    user is sent, and the submit flag. Whether a string is an email address (zod's
    `.email()`) is a parameter. */
module LoginForm {
  import opened Chars
  import opened Wrappers
  import opened Domain
  import ProtectedRoute

  datatype Field = Email | Password

  datatype FieldError = FieldError(field: Field, message: string)

  const InvalidEmail := "Email inválido"
  const ShortPassword := "Senha deve ter pelo menos 6 caracteres"

  /** loginSchema: the errors zod reports, one per failing field */
  function LoginSchema(email: string, password: string, isEmail: string -> bool): (r: seq<FieldError>)
    ensures |r| == 0 <==> isEmail(email) && JsLength(password) >= 6
    ensures FieldError(Password, ShortPassword) in r <==> JsLength(password) < 6
    ensures FieldError(Email, InvalidEmail) in r <==> !isEmail(email)
    ensures |r| <= 2
  {
    (if isEmail(email) then [] else [FieldError(Email, InvalidEmail)])
    + (if JsLength(password) >= 6 then [] else [FieldError(Password, ShortPassword)])
  }

  /** Where the page sends a user whose session and profile have loaded */
  function RedirectTarget(loading: bool, user: Option<User>, profile: Option<Profile>): (r: Option<string>)
    ensures r.Some? <==> !loading && user.Some? && profile.Some?
    ensures r.Some? ==> r.value == ProtectedRoute.HomePath(profile.value.role)
    ensures r.Some? ==> r.value == (if profile.value.role == SuperAdmin then "/superadmin/dashboard" else "/admin/dashboard")
  {
    if !loading && user.Some? && profile.Some? then
      Some(if profile.value.role == SuperAdmin then "/superadmin/dashboard" else "/admin/dashboard")
    else None
  }

  /** What the page shows: the redirect notice, or the form with its submit button
      enabled or not */
  datatype View = Redirecting | Form(submitDisabled: bool)

  function Render(loading: bool, user: Option<User>, profile: Option<Profile>, isLoading: bool): (v: View)
    ensures v == Redirecting <==> RedirectTarget(loading, user, profile).Some?
    ensures v.Form? ==> (v.submitDisabled <==> isLoading || loading)
  {
    if !loading && user.Some? && profile.Some? then Redirecting else Form(isLoading || loading)
  }

  /** A user the page sends away goes to a home whose section guard lets them in (or
      shows the inactive notice): that guard does not send them on. */
  lemma RedirectIsFinal(loading: bool, user: Option<User>, profile: Option<Profile>,
                        company: Option<Company>)
    requires RedirectTarget(loading, user, profile).Some?
    ensures var target := RedirectTarget(loading, user, profile).value;
      && ProtectedRoute.SectionGuard(target).Some?
      && var (role, active) := ProtectedRoute.SectionGuard(target).value;
      ProtectedRoute.Guard(loading, user, profile, company, Some(role), active, target)
        in {ProtectedRoute.Permit, ProtectedRoute.Inactive}
  {
    ProtectedRoute.HomeSection(profile.value.role);
  }

  /** How a sign-in attempt ends: with an error reported, without one, or by throwing */
  datatype SignInOutcome = SignedIn | SignInError | SignInThrew

  /** A submit: the values `isLoading` takes, and whether the failure was logged */
  datatype SubmitRun = SubmitRun(flags: seq<bool>, loggedError: bool)

  /** onSubmit: the flag is set on entry; a reported error and a thrown one are both
      logged; `finally` clears the flag on every one of the three exits */
  function OnSubmit(outcome: SignInOutcome): (r: SubmitRun)
    ensures |r.flags| > 0 && r.flags[0] && !r.flags[|r.flags| - 1]
    ensures r.loggedError <==> outcome != SignedIn
  {
    match outcome
    case SignedIn => SubmitRun([true, false], false)
    case SignInError => SubmitRun([true, false], true)
    case SignInThrew => SubmitRun([true, false], true)
  }
}
