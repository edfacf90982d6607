/** The company create/edit form of src/components/forms/CompanyForm.tsx: its two zod
    schemas, the WhatsApp input mask, the default values, and what the submit handler
    forwards. Whether a string is an email address (zod's `.email()`) is a parameter. */
module CompanyForm {
  import opened Wrappers
  import opened Chars
  import opened Domain
  import opened Validation

  // --------------------------------------------------------------- the mask

  /** The form's own `formatWhatsApp` */
  function Mask(value: string): (r: string)
    ensures r == Validation.FormatWhatsApp(value)
  {
    var numbers := Digits(value);
    if |numbers| <= 10 then ApplyMask(numbers, PhoneMask10) else ApplyMask(numbers, PhoneMask11)
  }

  /** The input's `maxLength` */
  const WhatsAppMaxLength := 15

  /** `/^\(\d{2}\) \d{4,5}-\d{4}$/` */
  predicate PhonePattern(s: string) {
    && (|s| == 14 || |s| == 15)
    && s[0] == '(' && IsDigit(s[1]) && IsDigit(s[2]) && s[3] == ')' && s[4] == ' '
    && AllDigits(s[5..|s| - 5]) && s[|s| - 5] == '-' && AllDigits(s[|s| - 4..])
  }

  /** The pattern accepts exactly the completely filled 10- and 11-digit masks. */
  lemma PhonePatternIsMask(s: string)
    ensures PhonePattern(s) <==> Fits(s, PhoneMask10) || Fits(s, PhoneMask11)
  {
    if |s| >= 15 {
      FitsPhone(s, 5);
    }
    if |s| >= 14 {
      FitsPhone(s, 4);
    }
    if Fits(s, PhoneMask10) {
      FitsWidth(s, PhoneMask10);
      PhoneMask10Facts();
    }
    if Fits(s, PhoneMask11) {
      FitsWidth(s, PhoneMask11);
      PhoneMask11Facts();
    }
  }

  lemma FitsText(t: string, s: string, rest: Mask)
    ensures Fits(t, [Text(s)] + rest) <==> StartsWith(t, s) && Fits(t[|s|..], rest)
  {
    assert ([Text(s)] + rest)[1..] == rest;
  }

  lemma FitsGroup(t: string, n: nat, rest: Mask)
    ensures Fits(t, [Group(n)] + rest) <==> n <= |t| && AllDigits(t[..n]) && Fits(t[n..], rest)
  {
    assert ([Group(n)] + rest)[1..] == rest;
  }

  lemma StartsWithChar(t: string, c: char)
    ensures StartsWith(t, [c]) <==> |t| >= 1 && t[0] == c
  {
    if |t| >= 1 && t[0] == c {
      assert t[..1] == [c];
    }
  }

  /** `\d{k}-\d{4}$` */
  lemma FitsPhoneTail(t: string, k: nat)
    ensures Fits(t, [Group(k), Text("-"), Group(4)])
        <==> |t| == k + 5 && AllDigits(t[..k]) && t[k] == '-' && AllDigits(t[k + 1..])
  {
    var m5: Mask := [Group(4)];
    var m4: Mask := [Text("-")] + m5;
    assert [Group(k), Text("-"), Group(4)] == [Group(k)] + m4;
    FitsGroup(t, k, m4);
    if k <= |t| {
      var u := t[k..];
      FitsText(u, "-", m5);
      StartsWithChar(u, '-');
      if |u| >= 1 {
        var v := u[1..];
        assert v == t[k + 1..];
        FitsGroup(v, 4, []);
        assert m5 == [Group(4)] + [];
        if 4 <= |v| {
          assert v[..4] == v <==> |v| == 4;
        }
      }
    }
  }

  /** `^\(\d{2}\) ` followed by `rest` */
  lemma FitsPhoneHead(s: string, rest: Mask)
    ensures Fits(s, [Text("("), Group(2), Text(") ")] + rest)
        <==> && |s| >= 5 && s[0] == '(' && IsDigit(s[1]) && IsDigit(s[2])
             && s[3] == ')' && s[4] == ' ' && Fits(s[5..], rest)
  {
    var m2: Mask := [Text(") ")] + rest;
    var m1: Mask := [Group(2)] + m2;
    assert [Text("("), Group(2), Text(") ")] + rest == [Text("(")] + m1;
    FitsText(s, "(", m1);
    StartsWithChar(s, '(');
    if |s| >= 1 {
      FitsGroup(s[1..], 2, m2);
      if |s| >= 3 {
        assert s[1..][2..] == s[3..] && s[1..][..2] == s[1..3];
        assert AllDigits(s[1..3]) <==> IsDigit(s[1]) && IsDigit(s[2]) by {
          assert s[1..3][0] == s[1] && s[1..3][1] == s[2];
        }
        FitsText(s[3..], ") ", rest);
        if |s| >= 5 {
          assert s[3..][2..] == s[5..];
          assert s[3..][..2] == [s[3], s[4]];
        } else {
          assert !StartsWith(s[3..], ") ");
        }
      }
    }
  }

  /** The phone template with a middle group of `k` digits, read character by character */
  lemma FitsPhone(s: string, k: nat)
    requires |s| >= 10 + k
    ensures Fits(s, [Text("("), Group(2), Text(") "), Group(k), Text("-"), Group(4)])
        <==> && |s| == 10 + k && s[0] == '(' && IsDigit(s[1]) && IsDigit(s[2])
             && s[3] == ')' && s[4] == ' ' && AllDigits(s[5..5 + k])
             && s[5 + k] == '-' && AllDigits(s[6 + k..])
  {
    var tail: Mask := [Group(k), Text("-"), Group(4)];
    assert [Text("("), Group(2), Text(") "), Group(k), Text("-"), Group(4)]
        == [Text("("), Group(2), Text(") ")] + tail;
    FitsPhoneHead(s, tail);
    var t3 := s[5..];
    FitsPhoneTail(t3, k);
    assert t3[..k] == s[5..5 + k] && t3[k + 1..] == s[6 + k..] && t3[k] == s[5 + k];
  }

  /** A valid number masks to text the pattern accepts, and only a valid one does; the
      longer form just fills the input's `maxLength`. */
  lemma MaskMatchesPattern(value: string)
    ensures PhonePattern(Mask(value)) <==> ValidateWhatsApp(value)
    ensures ValidateWhatsApp(value) ==> |Mask(value)| <= WhatsAppMaxLength
    ensures |Digits(value)| == 11 ==> |Mask(value)| == WhatsAppMaxLength
  {
    PhonePatternIsMask(Mask(value));
    ValidWhatsAppIffFullMask(value);
    if |Digits(value)| == 10 {
      FitsWidth(Mask(value), PhoneMask10);
      PhoneMask10Facts();
    }
    if |Digits(value)| == 11 {
      FitsWidth(Mask(value), PhoneMask11);
      PhoneMask11Facts();
    }
  }

  // ------------------------------------------------------------ the schemas

  datatype Field = Name | Email | WhatsApp | Address | PlanId | Password

  datatype Issue = Issue(field: Field, message: string)

  /** The form's values; `None` is a value the form does not hold (`undefined`) */
  datatype FormData = FormData(
    name: string,
    email: string,
    whatsapp: string,
    address: Option<string>,
    planId: string,
    password: Option<string>,
    active: Option<bool>)

  const NameRequired := "Nome da empresa é obrigatório"
  const NameTooShort := "Nome deve ter pelo menos 2 caracteres"
  const NameTooLong := "Nome deve ter no máximo 100 caracteres"
  const EmailRequired := "Email é obrigatório"
  const EmailInvalid := "Email inválido"
  const EmailTooLong := "Email deve ter no máximo 100 caracteres"
  const WhatsAppRequired := "WhatsApp é obrigatório"
  const WhatsAppFormat := "WhatsApp deve estar no formato (99) 99999-9999"
  const AddressTooLong := "Endereço deve ter no máximo 200 caracteres"
  const PlanRequired := "Plano é obrigatório"
  const PasswordRequired := "Senha é obrigatória"
  const PasswordTooShort := "Senha deve ter pelo menos 6 caracteres"
  const PasswordTooLong := "Senha deve ter no máximo 50 caracteres"
  /** zod's message for a missing required value */
  const Required := "Required"

  /** The issues of one field whose checks all run, in declaration order */
  function Checks(field: Field, failing: seq<(bool, string)>): (r: seq<Issue>)
    ensures |r| <= |failing|
    ensures forall i :: 0 <= i < |r| ==> r[i].field == field
    ensures |r| == 0 <==> forall i :: 0 <= i < |failing| ==> !failing[i].0
    ensures forall m :: Issue(field, m) in r <==> (true, m) in failing
  {
    if |failing| == 0 then []
    else
      var rest := Checks(field, failing[1..]);
      assert forall p :: p in failing <==> p == failing[0] || p in failing[1..];
      (if failing[0].0 then [Issue(field, failing[0].1)] else []) + rest
  }

  /** The name's checks: required, at least 2 and at most 100 characters */
  function NameIssues(name: string): (r: seq<Issue>)
    ensures forall i :: 0 <= i < |r| ==> r[i].field == Name
    ensures |r| == 0 <==> 2 <= JsLength(name) <= 100
    ensures name == "" ==> |r| > 0 && r[0] == Issue(Name, NameRequired)
  {
    Checks(Name, [(JsLength(name) < 1, NameRequired), (JsLength(name) < 2, NameTooShort), (JsLength(name) > 100, NameTooLong)])
  }

  /** The e-mail's checks: required, a valid address, at most 100 characters */
  function EmailIssues(email: string, isEmail: string -> bool): (r: seq<Issue>)
    ensures forall i :: 0 <= i < |r| ==> r[i].field == Email
    ensures |r| == 0 <==> 1 <= JsLength(email) <= 100 && isEmail(email)
  {
    Checks(Email, [(JsLength(email) < 1, EmailRequired), (!isEmail(email), EmailInvalid), (JsLength(email) > 100, EmailTooLong)])
  }

  /** The WhatsApp number's checks: required and in the masked phone format */
  function WhatsAppIssues(whatsapp: string): (r: seq<Issue>)
    ensures forall i :: 0 <= i < |r| ==> r[i].field == WhatsApp
    ensures |r| == 0 <==> PhonePattern(whatsapp)
  {
    Checks(WhatsApp, [(|whatsapp| < 1, WhatsAppRequired), (!PhonePattern(whatsapp), WhatsAppFormat)])
  }

  /** The address is optional and, when given, at most 200 characters */
  function AddressIssues(address: Option<string>): (r: seq<Issue>)
    ensures forall i :: 0 <= i < |r| ==> r[i].field == Address
    ensures |r| == 0 <==> (address.Some? ==> JsLength(address.value) <= 200)
  {
    match address
    case None => []
    case Some(a) => Checks(Address, [(JsLength(a) > 200, AddressTooLong)])
  }

  /** A plan must be chosen */
  function PlanIssues(planId: string): (r: seq<Issue>)
    ensures forall i :: 0 <= i < |r| ==> r[i].field == PlanId
    ensures |r| == 0 <==> |planId| >= 1
  {
    Checks(PlanId, [(|planId| < 1, PlanRequired)])
  }

  /** The checks shared by both schemas: every field but the password */
  function CommonIssues(d: FormData, isEmail: string -> bool): seq<Issue> {
    NameIssues(d.name) + EmailIssues(d.email, isEmail) + WhatsAppIssues(d.whatsapp)
    + AddressIssues(d.address) + PlanIssues(d.planId)
  }

  /** The fields other than the password satisfy their checks */
  predicate CommonValid(d: FormData, isEmail: string -> bool) {
    && 2 <= JsLength(d.name) <= 100
    && 1 <= JsLength(d.email) <= 100 && isEmail(d.email)
    && PhonePattern(d.whatsapp)
    && (d.address.Some? ==> JsLength(d.address.value) <= 200)
    && |d.planId| >= 1
  }

  lemma CommonIssuesEmpty(d: FormData, isEmail: string -> bool)
    ensures |CommonIssues(d, isEmail)| == 0 <==> CommonValid(d, isEmail)
    ensures NoPassword(CommonIssues(d, isEmail))
    ensures d.name == "" ==> CommonIssues(d, isEmail)[0] == Issue(Name, NameRequired)
  {
    var n, e, w, a, p := NameIssues(d.name), EmailIssues(d.email, isEmail), WhatsAppIssues(d.whatsapp),
      AddressIssues(d.address), PlanIssues(d.planId);
    NoPasswordAppend(n, e);
    NoPasswordAppend(n + e, w);
    NoPasswordAppend(n + e + w, a);
    NoPasswordAppend(n + e + w + a, p);
  }

  /** None of the issues is about the password */
  predicate NoPassword(issues: seq<Issue>) {
    forall i :: 0 <= i < |issues| ==> issues[i].field != Password
  }

  lemma NoPasswordAppend(a: seq<Issue>, b: seq<Issue>)
    requires NoPassword(a) && NoPassword(b)
    ensures NoPassword(a + b)
  {
    assert forall i :: |a| <= i < |a + b| ==> (a + b)[i] == b[i - |a|];
  }

  /** The password's checks in the create schema: required, 6 to 50 characters */
  function PasswordIssues(password: Option<string>): (r: seq<Issue>)
    ensures forall i :: 0 <= i < |r| ==> r[i].field == Password
    ensures |r| == 0 <==> password.Some? && 6 <= JsLength(password.value) <= 50
    ensures password == Some("") ==> Issue(Password, PasswordRequired) in r
  {
    match password
    case None => [Issue(Password, Required)]
    case Some(p) =>
      Checks(Password, [(JsLength(p) < 1, PasswordRequired), (JsLength(p) < 6, PasswordTooShort), (JsLength(p) > 50, PasswordTooLong)])
  }

  /** createCompanySchema */
  function CreateIssues(d: FormData, isEmail: string -> bool): (r: seq<Issue>)
    ensures |r| == 0 <==>
      && CommonValid(d, isEmail)
      && d.password.Some? && 6 <= JsLength(d.password.value) <= 50
    ensures d.name == "" ==> r[0] == Issue(Name, NameRequired)
    ensures d.password == Some("") ==> Issue(Password, PasswordRequired) in r
  {
    CommonIssuesEmpty(d, isEmail);
    CommonIssues(d, isEmail) + PasswordIssues(d.password)
  }

  /** updateCompanySchema: the create schema with the password made optional and unchecked */
  function UpdateIssues(d: FormData, isEmail: string -> bool): (r: seq<Issue>)
    ensures |r| == 0 <==> CommonValid(d, isEmail)
  {
    CommonIssuesEmpty(d, isEmail);
    CommonIssues(d, isEmail)
  }

  /** The issues not about the password */
  function WithoutPassword(issues: seq<Issue>): seq<Issue> {
    if |issues| == 0 then []
    else (if issues[0].field == Password then [] else [issues[0]]) + WithoutPassword(issues[1..])
  }

  lemma {:induction false} WithoutPasswordAppend(a: seq<Issue>, b: seq<Issue>)
    ensures WithoutPassword(a + b) == WithoutPassword(a) + WithoutPassword(b)
  {
    if |a| == 0 {
      assert a + b == b;
    } else {
      assert (a + b)[1..] == a[1..] + b;
      WithoutPasswordAppend(a[1..], b);
    }
  }

  lemma {:induction false} WithoutPasswordKeeps(a: seq<Issue>)
    requires NoPassword(a)
    ensures WithoutPassword(a) == a
  {
    if |a| > 0 {
      WithoutPasswordKeeps(a[1..]);
    }
  }

  lemma {:induction false} WithoutPasswordDrops(a: seq<Issue>)
    requires forall i :: 0 <= i < |a| ==> a[i].field == Password
    ensures WithoutPassword(a) == []
  {
    if |a| > 0 {
      WithoutPasswordDrops(a[1..]);
    }
  }

  /** The edit schema reports exactly the create schema's issues that are not about the
      password, whatever the password holds. */
  lemma UpdateIsCreateWithoutPassword(d: FormData, isEmail: string -> bool)
    ensures UpdateIssues(d, isEmail) == WithoutPassword(CreateIssues(d, isEmail))
  {
    var common := CommonIssues(d, isEmail);
    var pw := PasswordIssues(d.password);
    CommonIssuesEmpty(d, isEmail);
    WithoutPasswordAppend(common, pw);
    WithoutPasswordKeeps(common);
    WithoutPasswordDrops(pw);
  }

  /** What the resolver hands the submit handler: nothing when an issue is reported, else
      the values with `active` defaulted to true */
  function Resolve(d: FormData, editing: bool, isEmail: string -> bool): (r: Option<FormData>)
    ensures r.Some? <==> |(if editing then UpdateIssues(d, isEmail) else CreateIssues(d, isEmail))| == 0
    ensures r.Some? ==> r.value.active == Some(d.active.GetOr(true))
    ensures r.Some? ==> r.value.(active := d.active) == d
  {
    var issues := if editing then UpdateIssues(d, isEmail) else CreateIssues(d, isEmail);
    if |issues| == 0 then Some(d.(active := Some(d.active.GetOr(true)))) else None
  }

  // ------------------------------------------------------------- the submit

  /** `s.trimStart()` */
  function TrimStart(s: string): (r: string)
    ensures |r| <= |s| && r == s[|s| - |r|..]
    ensures |r| > 0 ==> !IsSpace(r[0])
    ensures r == "" <==> All(s, IsSpace)
  {
    if |s| > 0 && IsSpace(s[0]) then TrimStart(s[1..]) else s
  }

  /** `s.trimEnd()` */
  function TrimEnd(s: string): (r: string)
    ensures |r| <= |s| && r == s[..|r|]
    ensures r == "" <==> All(s, IsSpace)
  {
    if |s| > 0 && IsSpace(s[|s| - 1]) then
      var r := TrimEnd(s[..|s| - 1]);
      assert forall i :: 0 <= i < |s| - 1 ==> s[..|s| - 1][i] == s[i];
      r
    else s
  }

  /** `s.trim()` */
  function Trim(s: string): (r: string)
    ensures r == "" <==> All(s, IsSpace)
  {
    TrimEnd(TrimStart(s))
  }

  /** handleFormSubmit: in edit mode a missing, empty or blank password is dropped;
      everything else goes to `onSubmit` as it was */
  function Submitted(d: FormData, editing: bool): (r: FormData)
    ensures !editing ==> r == d
    ensures editing ==> r.(password := d.password) == d
    ensures editing ==> (r.password.None? <==> d.password.None? || All(d.password.value, IsSpace))
    ensures r.password.Some? ==> r.password == d.password
  {
    if editing && (d.password.None? || d.password.value == "" || Trim(d.password.value) == "") then
      d.(password := None)
    else d
  }

  // ---------------------------------------------------------- default values

  /** The values the form starts with: blank for a new company, the stored row (with no
      password) when editing */
  function DefaultValues(company: Option<Company>): (r: FormData)
    ensures company.None? ==> r == FormData("", "", "", Some(""), "", Some(""), Some(true))
    ensures company.Some? ==>
      && r.name == company.value.name && r.email == company.value.email
      && r.whatsapp == company.value.whatsapp
      && r.address == Some(company.value.address.GetOr(""))
      && r.planId == company.value.planId.GetOr("")
      && r.active == Some(company.value.active)
      && r.password.None?
  {
    match company
    case None => FormData("", "", "", Some(""), "", Some(""), Some(true))
    case Some(c) =>
      FormData(c.name, c.email, c.whatsapp, Some(c.address.GetOr("")), c.planId.GetOr(""), None, Some(c.active))
  }

  /** A blank new-company form is refused: it has no name and no password. */
  lemma BlankCreateRefused(isEmail: string -> bool)
    ensures Resolve(DefaultValues(None), false, isEmail).None?
    ensures Issue(Name, NameRequired) in CreateIssues(DefaultValues(None), isEmail)
    ensures Issue(Password, PasswordRequired) in CreateIssues(DefaultValues(None), isEmail)
  {
    var r := CreateIssues(DefaultValues(None), isEmail);
    assert r[0] == Issue(Name, NameRequired);
  }

  /** Saving an edit without typing a password never forwards one. */
  lemma EditKeepsPassword(c: Company, isEmail: string -> bool)
    ensures var sent := Resolve(DefaultValues(Some(c)), true, isEmail);
      sent.Some? ==> Submitted(sent.value, true).password.None?
  {
  }
}
