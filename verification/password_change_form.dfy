/** The new-password page of src/components/auth/PasswordChangeForm.tsx: its schema, the
    live checklist, when it sends the visitor to the login page, and the submit flags. */
module PasswordChangeForm {
  import opened Wrappers
  import opened Chars
  import opened Domain

  datatype Field = Password | ConfirmPassword

  datatype Issue = Issue(field: Field, message: string)

  const TooShort := "Senha deve ter pelo menos 8 caracteres"
  const MissingClasses := "Senha deve conter pelo menos 1 letra minúscula, 1 maiúscula e 1 número"
  const Mismatch := "As senhas não coincidem"

  /** The text before the first line terminator: what `.*` can reach from the start */
  function FirstLine(s: string): (r: string)
    ensures |r| <= |s| && r == s[..|r|]
    ensures forall i :: 0 <= i < |r| ==> !IsLineTerminator(r[i])
    ensures |r| < |s| ==> IsLineTerminator(s[|r|])
  {
    if |s| == 0 || IsLineTerminator(s[0]) then [] else [s[0]] + FirstLine(s[1..])
  }

  /** `/^(?=.*[a-z])(?=.*[A-Z])(?=.*\d)/.test(p)`: without the `m` flag `^` is the start
      of the text, and `.` stops at a line terminator */
  predicate ClassesPattern(p: string) {
    var line := FirstLine(p);
    Any(line, IsLower) && Any(line, IsUpper) && Any(line, IsDigit)
  }

  /** passwordChangeSchema: the password checks, then the refinement on confirmPassword */
  function SchemaIssues(password: string, confirm: string): (r: seq<Issue>)
    ensures |r| == 0 <==> JsLength(password) >= 8 && ClassesPattern(password) && password == confirm
    ensures Issue(ConfirmPassword, Mismatch) in r <==> password != confirm
    ensures forall i :: 0 <= i < |r| ==> (r[i].field == ConfirmPassword <==> r[i].message == Mismatch)
  {
    (if JsLength(password) < 8 then [Issue(Password, TooShort)] else [])
    + (if ClassesPattern(password) then [] else [Issue(Password, MissingClasses)])
    + (if password == confirm then [] else [Issue(ConfirmPassword, Mismatch)])
  }

  /** There is no upper bound on the length. */
  lemma NoMaximumLength(n: nat)
    requires n >= 8
    ensures var p := seq(n, i => if i == 0 then 'a' else if i == 1 then 'A' else '1');
      SchemaIssues(p, p) == []
  {
    var p := seq(n, i => if i == 0 then 'a' else if i == 1 then 'A' else '1');
    var line := FirstLine(p);
    FirstLineWhole(p);
    assert IsLower(line[0]) && IsUpper(line[1]) && IsDigit(line[2]);
  }

  /** A line without terminators is its own first line. */
  lemma {:induction false} FirstLineWhole(s: string)
    requires forall i :: 0 <= i < |s| ==> !IsLineTerminator(s[i])
    ensures FirstLine(s) == s
  {
    if |s| > 0 {
      FirstLineWhole(s[1..]);
    }
  }

  datatype Requirement = Requirement(caption: string, valid: bool)

  /** passwordRequirements for the watched value, `undefined` before anything is typed */
  function Checklist(password: Option<string>): (r: seq<Requirement>)
    ensures |r| == 4
    ensures r[0].valid <==> password.Some? && JsLength(password.value) >= 8
    ensures r[1].valid <==> Any(password.GetOr(""), IsLower)
    ensures r[2].valid <==> Any(password.GetOr(""), IsUpper)
    ensures r[3].valid <==> Any(password.GetOr(""), IsDigit)
  {
    var p := password.GetOr("");
    [ Requirement("Pelo menos 8 caracteres", password.Some? && JsLength(password.value) >= 8),
      Requirement("Uma letra minúscula", Any(p, IsLower)),
      Requirement("Uma letra maiúscula", Any(p, IsUpper)),
      Requirement("Um número", Any(p, IsDigit)) ]
  }

  predicate AllValid(r: seq<Requirement>) {
    forall i :: 0 <= i < |r| ==> r[i].valid
  }

  /** On a password without line breaks the checklist is all ticked exactly when the
      schema accepts the password field. */
  lemma ChecklistMatchesSchema(p: string)
    requires forall i :: 0 <= i < |p| ==> !IsLineTerminator(p[i])
    ensures AllValid(Checklist(Some(p))) <==> JsLength(p) >= 8 && ClassesPattern(p)
  {
    ChecklistClasses(p);
    AllValidFour(Checklist(Some(p)));
  }

  /** Without line breaks, the three class items are ticked exactly when the pattern
      matches. */
  lemma ChecklistClasses(p: string)
    requires forall i :: 0 <= i < |p| ==> !IsLineTerminator(p[i])
    ensures var r := Checklist(Some(p));
      ClassesPattern(p) <==> r[1].valid && r[2].valid && r[3].valid
  {
    FirstLineWhole(p);
  }

  lemma AllValidFour(r: seq<Requirement>)
    requires |r| == 4
    ensures AllValid(r) <==> r[0].valid && r[1].valid && r[2].valid && r[3].valid
  {
  }

  /** With a line break the two part ways: a digit after the break ticks the checklist
      but the pattern cannot see it. The break is U+2028, a line terminator a password
      field keeps (the field drops line feeds and carriage returns). */
  lemma ChecklistAfterBreak()
    ensures AllValid(Checklist(Some(BrokenPassword)))
    ensures !ClassesPattern(BrokenPassword)
  {
    var p := BrokenPassword;
    assert IsLower(p[0]) && IsUpper(p[7]) && p[8] == '\U{2028}' && IsDigit(p[9]);
    assert forall i :: 0 <= i < 8 ==> p[i] == if i == 7 then 'H' else 'a';
    var r := Checklist(Some(p));
    assert r[0].valid && r[1].valid && r[2].valid && r[3].valid;
    FirstLineStops(p, 8);
    PatternBlind(p);
  }

  /** "aaaaaaaH", a line separator, and "1": the only digit follows the break */
  const BrokenPassword: string := seq(8, i => if i == 7 then 'H' else 'a') + "\U{2028}1"

  lemma PatternBlind(p: string)
    requires |p| >= 9 && FirstLine(p) == p[..8]
    requires forall i :: 0 <= i < 8 ==> !IsDigit(p[i])
    ensures !ClassesPattern(p)
  {
    var line := FirstLine(p);
    assert forall i :: 0 <= i < |line| ==> line[i] == p[i];
  }

  /** The first line ends at the first line terminator. */
  lemma {:induction false} FirstLineStops(s: string, k: nat)
    requires k < |s| && IsLineTerminator(s[k])
    requires forall i :: 0 <= i < k ==> !IsLineTerminator(s[i])
    ensures FirstLine(s) == s[..k]
  {
    if k > 0 {
      FirstLineStops(s[1..], k - 1);
      assert [s[0]] + s[1..][..k - 1] == s[..k];
    }
  }

  /** The effect that sends the visitor to "/login": neither a recovery token (an empty
      one counts as none) nor a signed-in user */
  function LoginRedirect(accessToken: Option<string>, user: Option<User>): (r: Option<string>)
    ensures r.Some? <==> (accessToken.None? || accessToken.value == "") && user.None?
    ensures r.Some? ==> r.value == "/login"
  {
    if (accessToken.None? || accessToken.value == "") && user.None? then Some("/login") else None
  }

  /** How `updatePassword` settled */
  datatype Settle = Resolved(error: bool) | Threw

  datatype SubmitState = SubmitState(isLoading: bool, success: bool)

  /** onSubmit, from the state before the click to the state after the call settles; the
      redirect three seconds later is the returned navigation */
  function Submit(before: SubmitState, outcome: Settle): (r: (SubmitState, Option<string>))
    ensures !r.0.isLoading
    ensures r.0.success <==> before.success || outcome == Resolved(false)
    ensures r.1.Some? <==> outcome == Resolved(false)
    ensures r.1.Some? ==> r.1.value == "/login"
  {
    if outcome == Resolved(false) then (SubmitState(false, true), Some("/login"))
    else (SubmitState(false, before.success), None)
  }

  /** From a fresh form, success shows only after a call that reported no error. */
  lemma SuccessNeedsNoError(outcome: Settle)
    ensures Submit(SubmitState(false, false), outcome).0.success ==> outcome == Resolved(false)
  {
  }
}
