/** The input validators and masks of src/utils/validation.ts.

    A mask such as `numbers.replace(/(\d{2})(\d{4})(\d{4})/, '($1) $2-$3')` has no `g`
    flag, so it rewrites only the first match. On a string of digits that match starts at
    index 0 when there are enough digits, and there is none otherwise. Such a mask is
    written here as its template: a list of digit groups (`$1`, `$2`, ...) and literal
    texts, filled with the digits in order; digits past the last group stay behind the
    mask unchanged. */
module Validation {
  import opened Chars
  import opened Wrappers

  // ---------------------------------------------------------------- masks

  /** One piece of a replacement template: a captured `\d{n}` group, or literal text */
  datatype Piece = Group(n: nat) | Text(s: string)

  type Mask = seq<Piece>

  /** `($1) $2-$3` over `(\d{2})(\d{4})(\d{4})` */
  const PhoneMask10: Mask := [Text("("), Group(2), Text(") "), Group(4), Text("-"), Group(4)]
  /** `($1) $2-$3` over `(\d{2})(\d{5})(\d{4})` */
  const PhoneMask11: Mask := [Text("("), Group(2), Text(") "), Group(5), Text("-"), Group(4)]
  /** `$1-$2` over `(\d{5})(\d{3})` */
  const CepMask: Mask := [Group(5), Text("-"), Group(3)]
  /** `$1.$2.$3/$4-$5` over `(\d{2})(\d{3})(\d{3})(\d{4})(\d{2})` */
  const CnpjMask: Mask :=
    [Group(2), Text("."), Group(3), Text("."), Group(3), Text("/"), Group(4), Text("-"), Group(2)]

  /** The number of digits the regular expression captures */
  function Holes(mask: Mask): nat {
    if |mask| == 0 then 0
    else (match mask[0] case Group(n) => n case Text(_) => 0) + Holes(mask[1..])
  }

  /** The length of a completely filled mask */
  function Width(mask: Mask): nat {
    if |mask| == 0 then 0
    else (match mask[0] case Group(n) => n case Text(s) => |s|) + Width(mask[1..])
  }

  /** The literal texts of a template contain no digits. */
  predicate IsTemplate(mask: Mask) {
    forall i :: 0 <= i < |mask| ==> mask[i].Text? ==> NoDigits(mask[i].s)
  }

  predicate NoDigits(s: string) {
    forall i :: 0 <= i < |s| ==> !IsDigit(s[i])
  }

  /** `t` is a completely filled mask: `^...$` of the template with `\d{n}` for every group */
  predicate Fits(t: string, mask: Mask)
    decreases |mask|
  {
    if |mask| == 0 then t == []
    else match mask[0]
      case Group(n) => n <= |t| && AllDigits(t[..n]) && Fits(t[n..], mask[1..])
      case Text(s) => StartsWith(t, s) && Fits(t[|s|..], mask[1..])
  }

  /** The replacement of a first match at index 0, followed by the unmatched tail */
  function Fill(mask: Mask, d: string): (r: string)
    requires Holes(mask) <= |d|
    ensures |r| == Width(mask) + |d| - Holes(mask)
  {
    if |mask| == 0 then d
    else match mask[0]
      case Group(n) => d[..n] + Fill(mask[1..], d[n..])
      case Text(s) => s + Fill(mask[1..], d)
  }

  /** `numbers.replace(re, template)` for the non-global `re` whose groups are `mask`'s */
  function ApplyMask(numbers: string, mask: Mask): string {
    if Holes(mask) <= |numbers| then Fill(mask, numbers) else numbers
  }

  /** Filling a template neither adds, drops nor reorders digits. */
  lemma {:induction false} FillKeepsDigits(mask: Mask, d: string)
    requires IsTemplate(mask) && AllDigits(d) && Holes(mask) <= |d|
    ensures Digits(Fill(mask, d)) == d
  {
    if |mask| == 0 {
      FilterAll(d, IsDigit);
    } else {
      match mask[0]
      case Group(n) =>
        FillKeepsDigits(mask[1..], d[n..]);
        FilterAll(d[..n], IsDigit);
        FilterAppend(d[..n], Fill(mask[1..], d[n..]), IsDigit);
        assert d[..n] + d[n..] == d;
      case Text(s) =>
        FillKeepsDigits(mask[1..], d);
        FilterNone(s, IsDigit);
        FilterAppend(s, Fill(mask[1..], d), IsDigit);
    }
  }

  /** A fill is a completely filled mask followed by the digits no group captured. */
  lemma FillLayout(mask: Mask, d: string)
    requires AllDigits(d) && Holes(mask) <= |d|
    ensures Fill(mask, d) == Fill(mask, d[..Holes(mask)]) + d[Holes(mask)..]
    ensures Fits(Fill(mask, d[..Holes(mask)]), mask)
  {
    FillTail(mask, d);
    FillFits(mask, d[..Holes(mask)]);
  }

  /** The digits beyond the groups are appended unchanged. */
  lemma {:induction false} FillTail(mask: Mask, d: string)
    requires Holes(mask) <= |d|
    ensures Fill(mask, d) == Fill(mask, d[..Holes(mask)]) + d[Holes(mask)..]
  {
    var h := Holes(mask);
    if |mask| > 0 {
      match mask[0]
      case Group(n) =>
        FillTail(mask[1..], d[n..]);
        assert d[..h][..n] == d[..n];
        assert d[..h][n..] == d[n..][..h - n];
        assert d[h..] == d[n..][h - n..];
      case Text(s) =>
        FillTail(mask[1..], d);
    }
  }

  /** Filling every group with digits, and no more, gives a completely filled mask. */
  lemma {:induction false} FillFits(mask: Mask, d: string)
    requires AllDigits(d) && Holes(mask) == |d|
    ensures Fits(Fill(mask, d), mask)
  {
    if |mask| > 0 {
      var f := Fill(mask, d);
      match mask[0]
      case Group(n) =>
        FillFits(mask[1..], d[n..]);
        assert f == d[..n] + Fill(mask[1..], d[n..]);
        assert f[..n] == d[..n];
        assert f[n..] == Fill(mask[1..], d[n..]);
      case Text(s) =>
        FillFits(mask[1..], d);
        assert f == s + Fill(mask[1..], d);
        assert f[..|s|] == s;
        assert f[|s|..] == Fill(mask[1..], d);
    }
  }

  /** A completely filled mask is as wide as the template says. */
  lemma {:induction false} FitsWidth(t: string, mask: Mask)
    requires Fits(t, mask)
    ensures |t| == Width(mask)
    decreases |mask|
  {
    if |mask| > 0 {
      match mask[0]
      case Group(n) => FitsWidth(t[n..], mask[1..]);
      case Text(s) => FitsWidth(t[|s|..], mask[1..]);
    }
  }

  /** A completely filled mask is the fill of its own digits: masking it again changes
      nothing. */
  lemma {:induction false} FitsRefill(t: string, mask: Mask)
    requires IsTemplate(mask) && Fits(t, mask)
    ensures |Digits(t)| == Holes(mask)
    ensures Fill(mask, Digits(t)) == t
    decreases |mask|
  {
    if |mask| == 0 {
      FilterNone(t, IsDigit);
    } else {
      match mask[0]
      case Group(n) =>
        FitsRefill(t[n..], mask[1..]);
        assert t == t[..n] + t[n..];
        FilterAppend(t[..n], t[n..], IsDigit);
        FilterAll(t[..n], IsDigit);
        assert Digits(t)[..n] == t[..n];
        assert Digits(t)[n..] == Digits(t[n..]);
      case Text(s) =>
        FitsRefill(t[|s|..], mask[1..]);
        assert t == s + t[|s|..];
        FilterAppend(s, t[|s|..], IsDigit);
        FilterNone(s, IsDigit);
        assert Digits(t) == Digits(t[|s|..]);
    }
  }

  /** Masking a digit string gives back its digits, and yields a completely filled mask
      exactly when there are as many digits as the groups capture. Fewer digits come back
      bare; more come back masked with the surplus behind. */
  lemma ApplyMaskFacts(numbers: string, mask: Mask)
    requires IsTemplate(mask) && AllDigits(numbers)
    ensures Digits(ApplyMask(numbers, mask)) == numbers
    ensures Fits(ApplyMask(numbers, mask), mask) <==> |numbers| == Holes(mask)
    ensures |numbers| < Holes(mask) ==> ApplyMask(numbers, mask) == numbers
    ensures |numbers| >= Holes(mask) ==>
      Fits(ApplyMask(numbers, mask)[..Width(mask)], mask)
      && ApplyMask(numbers, mask)[Width(mask)..] == numbers[Holes(mask)..]
  {
    var h := Holes(mask);
    if h <= |numbers| {
      FillKeepsDigits(mask, numbers);
      FillLayout(mask, numbers);
      var head := Fill(mask, numbers[..h]);
      FitsWidth(head, mask);
      var r := Fill(mask, numbers);
      assert r[..Width(mask)] == head;
      assert r[Width(mask)..] == numbers[h..];
      if |numbers| == h {
        assert numbers[..h] == numbers;
      }
      if Fits(r, mask) {
        FitsRefill(r, mask);
      }
    } else {
      FilterAll(numbers, IsDigit);
      if Fits(numbers, mask) {
        FitsRefill(numbers, mask);
      }
    }
  }

  lemma PhoneMask10Facts()
    ensures IsTemplate(PhoneMask10) && Holes(PhoneMask10) == 10 && Width(PhoneMask10) == 14
  {
  }

  lemma PhoneMask11Facts()
    ensures IsTemplate(PhoneMask11) && Holes(PhoneMask11) == 11 && Width(PhoneMask11) == 15
  {
  }

  lemma CepMaskFacts()
    ensures IsTemplate(CepMask) && Holes(CepMask) == 8 && Width(CepMask) == 9
  {
  }

  lemma CnpjMaskFacts()
    ensures IsTemplate(CnpjMask) && Holes(CnpjMask) == 14 && Width(CnpjMask) == 18
  {
    assert CnpjMask == CnpjHead + CnpjTail;
    CnpjPieceFacts();
    HolesWidthAppend(CnpjHead, CnpjTail);
    TemplateAppend(CnpjHead, CnpjTail);
  }

  /** The CNPJ mask up to its `/` and from it on */
  const CnpjHead: Mask := [Group(2), Text("."), Group(3), Text("."), Group(3)]
  const CnpjTail: Mask := [Text("/"), Group(4), Text("-"), Group(2)]

  lemma CnpjPieceFacts()
    ensures IsTemplate(CnpjHead) && Holes(CnpjHead) == 8 && Width(CnpjHead) == 10
    ensures IsTemplate(CnpjTail) && Holes(CnpjTail) == 6 && Width(CnpjTail) == 8
  {
  }

  /** Two digit-free templates make a digit-free template. */
  lemma TemplateAppend(a: Mask, b: Mask)
    requires IsTemplate(a) && IsTemplate(b)
    ensures IsTemplate(a + b)
  {
    assert forall i :: |a| <= i < |a + b| ==> (a + b)[i] == b[i - |a|];
  }

  /** Group counts and widths add up over consecutive pieces of a template. */
  lemma {:induction false} HolesWidthAppend(a: Mask, b: Mask)
    ensures Holes(a + b) == Holes(a) + Holes(b)
    ensures Width(a + b) == Width(a) + Width(b)
  {
    if |a| == 0 {
      assert a + b == b;
    } else {
      assert (a + b)[0] == a[0];
      assert (a + b)[1..] == a[1..] + b;
      HolesWidthAppend(a[1..], b);
    }
  }

  // ------------------------------------------------------------- WhatsApp

  /** validateWhatsApp */
  predicate ValidateWhatsApp(whatsapp: string) {
    var numbers := Digits(whatsapp);
    |numbers| == 10 || |numbers| == 11
  }

  /** formatWhatsApp: up to ten digits use the landline mask, more use the mobile mask */
  function FormatWhatsApp(value: string): (r: string)
    ensures |Digits(value)| < 10 ==> r == Digits(value)
    ensures |Digits(value)| == 10 ==> Fits(r, PhoneMask10)
    ensures |Digits(value)| == 11 ==> Fits(r, PhoneMask11)
    ensures |Digits(value)| >= 11 ==> |r| == |Digits(value)| + 4
    ensures |Digits(value)| > 11 ==>
      Fits(r[..15], PhoneMask11) && r[15..] == Digits(value)[11..]
  {
    var numbers := Digits(value);
    PhoneMask10Facts();
    PhoneMask11Facts();
    if |numbers| <= 10 then
      ApplyMaskFacts(numbers, PhoneMask10);
      ApplyMask(numbers, PhoneMask10)
    else
      ApplyMaskFacts(numbers, PhoneMask11);
      ApplyMask(numbers, PhoneMask11)
  }

  /** cleanWhatsApp */
  function CleanWhatsApp(whatsapp: string): (r: string)
    ensures AllDigits(r)
    ensures |r| <= |whatsapp|
    ensures forall c :: multiset(r)[c] == if IsDigit(c) then multiset(whatsapp)[c] else 0
    ensures AllDigits(whatsapp) ==> r == whatsapp
  {
    FilterMultiset(whatsapp, IsDigit);
    Digits(whatsapp)
  }

  /** Cleaning works piece by piece, so the digits keep their order: the digits of a
      concatenation are the digits of the first part followed by those of the second. */
  lemma CleanWhatsAppAppend(a: string, b: string)
    ensures CleanWhatsApp(a + b) == CleanWhatsApp(a) + CleanWhatsApp(b)
  {
    FilterAppend(a, b, IsDigit);
  }

  /** Cleaning a cleaned number changes nothing. */
  lemma CleanWhatsAppIdempotent(s: string)
    ensures CleanWhatsApp(CleanWhatsApp(s)) == CleanWhatsApp(s)
  {
    DigitsIdempotent(s);
  }

  /** Masking never adds, drops or reorders digits. */
  lemma FormatWhatsAppKeepsDigits(s: string)
    ensures CleanWhatsApp(FormatWhatsApp(s)) == CleanWhatsApp(s)
  {
    var numbers := Digits(s);
    PhoneMask10Facts();
    PhoneMask11Facts();
    ApplyMaskFacts(numbers, PhoneMask10);
    ApplyMaskFacts(numbers, PhoneMask11);
  }

  /** Formatting a formatted number changes nothing. */
  lemma FormatWhatsAppIdempotent(s: string)
    ensures FormatWhatsApp(FormatWhatsApp(s)) == FormatWhatsApp(s)
  {
    FormatWhatsAppKeepsDigits(s);
  }

  /** A number is valid exactly when the mask can be filled completely, with no digit left over. */
  lemma ValidWhatsAppIffFullMask(s: string)
    ensures ValidateWhatsApp(s)
        <==> Fits(FormatWhatsApp(s), PhoneMask10) || Fits(FormatWhatsApp(s), PhoneMask11)
  {
    var numbers := Digits(s);
    PhoneMask10Facts();
    PhoneMask11Facts();
    ApplyMaskFacts(numbers, PhoneMask10);
    ApplyMaskFacts(numbers, PhoneMask11);
  }

  // ------------------------------------------------------------------ email

  /** `[^\s@]+` */
  predicate EmailAtom(s: string) {
    |s| > 0 && forall i :: 0 <= i < |s| ==> !IsSpace(s[i]) && s[i] != '@'
  }

  /** `e` reads as local `@` domain `.` suffix with the `@` at `at` and the `.` at `dot` */
  predicate EmailSplit(e: string, at: int, dot: int) {
    0 < at < dot < |e| - 1 && e[at] == '@' && e[dot] == '.'
    && EmailAtom(e[..at]) && EmailAtom(e[at + 1..dot]) && EmailAtom(e[dot + 1..])
  }

  /** validateEmail: `/^[^\s@]+@[^\s@]+\.[^\s@]+$/.test(email)` */
  predicate ValidateEmail(email: string) {
    exists at, dot | 0 < at < dot < |email| - 1 :: EmailSplit(email, at, dot)
  }

  /** Every local part, domain and suffix without blanks or `@` make an accepted address. */
  lemma ValidateEmailAccepts(local: string, domain: string, suffix: string)
    requires EmailAtom(local) && EmailAtom(domain) && EmailAtom(suffix)
    ensures ValidateEmail(local + "@" + domain + "." + suffix)
  {
    var e := local + "@" + domain + "." + suffix;
    var at, dot := |local|, |local| + 1 + |domain|;
    assert e[..at] == local;
    assert e[at + 1..dot] == domain;
    assert e[dot + 1..] == suffix;
    assert EmailSplit(e, at, dot);
  }

  /** `at` is the position of the one `@` of `email` */
  predicate OnlyAt(email: string, at: int) {
    0 < at < |email| && email[at] == '@' && forall i :: 0 <= i < |email| && i != at ==> email[i] != '@'
  }

  /** An accepted address has exactly one `@` and no blank anywhere. */
  lemma ValidateEmailSound(email: string)
    requires ValidateEmail(email)
    ensures forall i :: 0 <= i < |email| ==> !IsSpace(email[i])
    ensures exists at :: OnlyAt(email, at)
  {
    var at, dot :| 0 < at < dot < |email| - 1 && EmailSplit(email, at, dot);
    forall i | 0 <= i < |email|
      ensures !IsSpace(email[i]) && (i != at ==> email[i] != '@')
    {
      if i < at {
        assert email[i] == email[..at][i];
      } else if at < i < dot {
        assert email[i] == email[at + 1..dot][i - at - 1];
      } else if i > dot {
        assert email[i] == email[dot + 1..][i - dot - 1];
      }
    }
    assert OnlyAt(email, at);
  }

  // --------------------------------------------------------------- password

  /** The checks of validatePassword, in the order they run */
  datatype PasswordError = TooShort | TooLong | NoLowercase | NoUppercase | NoDigit {

    function Message(): string {
      match this
      case TooShort => "Senha deve ter pelo menos 6 caracteres"
      case TooLong => "Senha deve ter no máximo 50 caracteres"
      case NoLowercase => "Senha deve conter pelo menos uma letra minúscula"
      case NoUppercase => "Senha deve conter pelo menos uma letra maiúscula"
      case NoDigit => "Senha deve conter pelo menos um número"
    }

    /** Position of the check in validatePassword */
    function Rank(): nat {
      match this
      case TooShort => 0
      case TooLong => 1
      case NoLowercase => 2
      case NoUppercase => 3
      case NoDigit => 4
    }
  }

  datatype PasswordCheck = PasswordCheck(isValid: bool, errors: seq<PasswordError>)

  /** The password policy the validator enforces */
  predicate PasswordPolicy(password: string) {
    6 <= JsLength(password) <= 50 && Any(password, IsLower) && Any(password, IsUpper) && Any(password, IsDigit)
  }

  /** The condition under which a check reports its error */
  predicate Fails(e: PasswordError, password: string) {
    match e
    case TooShort => JsLength(password) < 6
    case TooLong => JsLength(password) > 50
    case NoLowercase => !Any(password, IsLower)
    case NoUppercase => !Any(password, IsUpper)
    case NoDigit => !Any(password, IsDigit)
  }

  /** validatePassword */
  function ValidatePassword(password: string): (r: PasswordCheck)
    ensures r.isValid <==> |r.errors| == 0
    ensures r.isValid <==> PasswordPolicy(password)
    ensures forall e :: e in r.errors <==> Fails(e, password)
    ensures InCheckOrder(r.errors)
    ensures |r.errors| <= 4
  {
    var length := Push(Push([], JsLength(password) < 6, TooShort), JsLength(password) > 50, TooLong);
    assert |length| <= 1;
    var errors := Push(Push(Push(length, !Any(password, IsLower), NoLowercase),
      !Any(password, IsUpper), NoUppercase), !Any(password, IsDigit), NoDigit);
    PasswordCheck(|errors| == 0, errors)
  }

  /** `length` counts code units: five characters, two of them emoji, pass the
      six-character minimum, and the password is valid. */
  lemma ValidatePasswordCountsCodeUnits()
    ensures |"Aa1\U{1F600}\U{1F600}"| == 5
    ensures ValidatePassword("Aa1\U{1F600}\U{1F600}").isValid
  {
    var p := "Aa1\U{1F600}\U{1F600}";
    assert p == "Aa1" + ['\U{1F600}'] + ['\U{1F600}'];
    JsLengthBmp("Aa1");
    JsLengthAstral('\U{1F600}');
    JsLengthAppend("Aa1" + ['\U{1F600}'], ['\U{1F600}']);
    JsLengthAppend("Aa1", ['\U{1F600}']);
    assert IsLower(p[1]) && IsUpper(p[0]) && IsDigit(p[2]);
  }

  /** The errors appear in the order the checks run, each at most once */
  predicate InCheckOrder(errors: seq<PasswordError>) {
    forall i :: 0 < i < |errors| ==> errors[i - 1].Rank() < errors[i].Rank()
  }

  /** Every error comes from a check that runs before the one of rank `k` */
  predicate RanksBelow(errors: seq<PasswordError>, k: nat) {
    forall i :: 0 <= i < |errors| ==> errors[i].Rank() < k
  }

  /** `if (failed) errors.push(e)`: a later check's error goes after the earlier ones */
  function Push(errors: seq<PasswordError>, failed: bool, e: PasswordError): (r: seq<PasswordError>)
    ensures forall x :: x in r <==> x in errors || (failed && x == e)
    ensures |r| == |errors| + (if failed then 1 else 0)
    ensures InCheckOrder(errors) && RanksBelow(errors, e.Rank()) ==> InCheckOrder(r) && RanksBelow(r, e.Rank() + 1)
  {
    if failed then errors + [e] else errors
  }

  // ------------------------------------------------------------ CEP and CNPJ

  /** validateCEP */
  predicate ValidateCEP(cep: string) {
    |Digits(cep)| == 8
  }

  /** formatCEP */
  function FormatCEP(value: string): (r: string)
    ensures Digits(r) == Digits(value)
    ensures ValidateCEP(value) <==> Fits(r, CepMask)
    ensures |Digits(value)| < 8 ==> r == Digits(value)
    ensures |Digits(value)| >= 8 ==> |r| == |Digits(value)| + 1
    ensures |Digits(value)| > 8 ==> Fits(r[..9], CepMask) && r[9..] == Digits(value)[8..]
  {
    CepMaskFacts();
    ApplyMaskFacts(Digits(value), CepMask);
    ApplyMask(Digits(value), CepMask)
  }

  /** validateCNPJ: a length check only, no check digits */
  predicate ValidateCNPJ(cnpj: string) {
    |Digits(cnpj)| == 14
  }

  /** formatCNPJ */
  function FormatCNPJ(value: string): (r: string)
    ensures Digits(r) == Digits(value)
    ensures ValidateCNPJ(value) <==> Fits(r, CnpjMask)
    ensures |Digits(value)| < 14 ==> r == Digits(value)
    ensures |Digits(value)| >= 14 ==> |r| == |Digits(value)| + 4
    ensures |Digits(value)| > 14 ==> Fits(r[..18], CnpjMask) && r[18..] == Digits(value)[14..]
  {
    CnpjMaskFacts();
    ApplyMaskFacts(Digits(value), CnpjMask);
    ApplyMask(Digits(value), CnpjMask)
  }

  /** The CEP and CNPJ validators look at nothing but the number of digits. */
  lemma ValidatorsCountDigitsOnly(a: string, b: string)
    requires |Digits(a)| == |Digits(b)|
    ensures ValidateCEP(a) == ValidateCEP(b)
    ensures ValidateCNPJ(a) == ValidateCNPJ(b)
    ensures ValidateWhatsApp(a) == ValidateWhatsApp(b)
  {
  }

  // ------------------------------------------------------------------- slug

  /** `[\u0300-\u036f]`: the combining diacritical marks */
  predicate IsCombiningMark(c: char) { 0x300 <= c as int <= 0x36F }

  predicate IsNotCombiningMark(c: char) { !IsCombiningMark(c) }

  /** `[a-z0-9]` */
  predicate IsSlugAlnum(c: char) { IsLower(c) || IsDigit(c) }

  /** The characters of a slug */
  predicate IsSlugChar(c: char) { IsSlugAlnum(c) || c == '-' }

  /** The characters `[^a-z0-9\s-]` does not remove */
  predicate IsSlugSource(c: char) { IsSlugAlnum(c) || IsSpace(c) || c == '-' }

  predicate IsHyphen(c: char) { c == '-' }

  /** `s.replace(/x+/g, sub)` where `inRun` is the class `x`: every maximal run of
      characters in the class becomes one `sub`. `inside` says the previous character of
      the input was part of a run already replaced. */
  function Squeeze(s: string, inRun: char -> bool, sub: char, inside: bool): (r: string)
    ensures |r| <= |s|
    ensures inside ==> |r| == 0 || !inRun(r[0])
    ensures forall i :: 0 <= i < |r| - 1 ==> !(inRun(r[i]) && inRun(r[i + 1]))
  {
    if |s| == 0 then []
    else if inRun(s[0]) then (if inside then [] else [sub]) + Squeeze(s[1..], inRun, sub, true)
    else [s[0]] + Squeeze(s[1..], inRun, sub, false)
  }

  function ReplaceRuns(s: string, inRun: char -> bool, sub: char): string {
    Squeeze(s, inRun, sub, false)
  }

  /** What `ok` admits survives a run replacement, provided `ok` admits the replacement. */
  lemma {:induction false} SqueezeKeeps(s: string, inRun: char -> bool, sub: char, inside: bool,
                                        ok: char -> bool)
    requires forall i :: 0 <= i < |s| ==> inRun(s[i]) || ok(s[i])
    requires ok(sub)
    ensures All(Squeeze(s, inRun, sub, inside), ok)
  {
    if |s| > 0 {
      SqueezeKeeps(s[1..], inRun, sub, !inside || inRun(s[0]), ok);
      SqueezeKeeps(s[1..], inRun, sub, inRun(s[0]), ok);
    }
  }

  /** A string with no two neighbouring run characters, not starting with one after a run,
      is left alone. */
  lemma {:induction false} SqueezeNoRuns(s: string, inRun: char -> bool, sub: char, inside: bool)
    requires forall i :: 0 <= i < |s| - 1 ==> !(inRun(s[i]) && inRun(s[i + 1]))
    requires forall i :: 0 <= i < |s| ==> inRun(s[i]) ==> s[i] == sub
    requires inside ==> |s| == 0 || !inRun(s[0])
    ensures Squeeze(s, inRun, sub, inside) == s
  {
    if |s| > 0 {
      SqueezeNoRuns(s[1..], inRun, sub, inRun(s[0]));
    }
  }

  /** `s.replace(/^-|-$/g, '')` */
  function TrimHyphens(s: string): (r: string)
    ensures |r| <= |s|
  {
    var t := if |s| > 0 && s[0] == '-' then s[1..] else s;
    if |t| > 0 && t[|t| - 1] == '-' then t[..|t| - 1] else t
  }

  /** generateSlug. `normalize('NFD')` is the identity on the ASCII letters this model
      lower-cases. */
  function GenerateSlug(text: string): string {
    var lowered := Lower(text);
    var unaccented := Filter(lowered, IsNotCombiningMark);
    var cleaned := Filter(unaccented, IsSlugSource);
    var spaced := ReplaceRuns(cleaned, IsSpace, '-');
    var single := ReplaceRuns(spaced, IsHyphen, '-');
    TrimHyphens(single)
  }

  /** validateSlug: `^[a-z0-9]+(?:-[a-z0-9]+)*$`, read left to right. `SlugTail` matches
      what may follow an alphanumeric character: more of them, or `-` and one. */
  predicate ValidateSlug(slug: string) {
    |slug| > 0 && IsSlugAlnum(slug[0]) && SlugTail(slug[1..])
  }

  predicate SlugTail(t: string)
    decreases |t|
  {
    |t| == 0
    || (IsSlugAlnum(t[0]) && SlugTail(t[1..]))
    || (|t| > 1 && t[0] == '-' && IsSlugAlnum(t[1]) && SlugTail(t[2..]))
  }

  /** The character-level shape of a slug: alphanumerics and single inner hyphens */
  predicate SlugShape(s: string) {
    && All(s, IsSlugChar)
    && (forall i :: 0 <= i < |s| - 1 ==> !(s[i] == '-' && s[i + 1] == '-'))
    && (|s| > 0 ==> s[0] != '-' && s[|s| - 1] != '-')
  }

  lemma {:induction false} SlugTailShape(t: string)
    ensures SlugTail(t) <==> SlugShape(t) || (|t| > 1 && t[0] == '-' && SlugShape(t[1..]))
    decreases |t|
  {
    if |t| > 0 {
      SlugTailShape(t[1..]);
      if |t| > 1 {
        SlugTailShape(t[2..]);
      }
      if SlugTail(t) {
        if IsSlugAlnum(t[0]) && SlugTail(t[1..]) {
          assert SlugShape(t[1..]) || (|t| > 2 && t[1] == '-' && SlugShape(t[2..]));
          assert SlugShape(t) by { ShapeCons(t); }
        } else {
          assert SlugShape(t[1..]) by {
            assert SlugShape(t[2..]) || (|t| > 3 && t[2] == '-' && SlugShape(t[3..]));
            ShapeCons(t[1..]);
          }
        }
      } else {
        if SlugShape(t) {
          ShapeUncons(t);
          assert false;
        }
        if |t| > 1 && t[0] == '-' && SlugShape(t[1..]) {
          assert false;
        }
      }
    }
  }

  /** An alphanumeric character in front of a slug, or in front of `-` and a slug, gives a slug. */
  lemma ShapeCons(t: string)
    requires |t| > 0 && IsSlugAlnum(t[0])
    requires SlugShape(t[1..]) || (|t| > 2 && t[1] == '-' && SlugShape(t[2..]))
    ensures SlugShape(t)
  {
    if !SlugShape(t[1..]) {
      assert t[1..][1..] == t[2..];
    }
  }

  /** A slug is an alphanumeric character followed by a slug tail of one of those two kinds. */
  lemma ShapeUncons(t: string)
    requires |t| > 0 && SlugShape(t)
    ensures IsSlugAlnum(t[0])
    ensures |t| == 1 || SlugShape(t[1..]) || (|t| > 2 && t[1] == '-' && SlugShape(t[2..]))
  {
    assert t[0] in t;
    if |t| > 1 && t[1] == '-' {
      assert |t| > 2;
      assert t[1..][1..] == t[2..];
    }
  }

  /** validateSlug accepts exactly the non-empty strings of alphanumerics with single inner
      hyphens. */
  lemma ValidateSlugShape(s: string)
    ensures ValidateSlug(s) <==> |s| > 0 && SlugShape(s)
  {
    if |s| > 0 {
      SlugTailShape(s[1..]);
      if ValidateSlug(s) {
        ShapeCons(s);
      } else if SlugShape(s) {
        ShapeUncons(s);
      }
    }
  }

  /** Trimming a string of alphanumerics and hyphens without two hyphens in a row leaves
      a slug shape. */
  lemma TrimHyphensShape(s: string)
    requires All(s, IsSlugChar)
    requires forall i :: 0 <= i < |s| - 1 ==> !(s[i] == '-' && s[i + 1] == '-')
    ensures SlugShape(TrimHyphens(s))
    ensures SlugShape(s) ==> TrimHyphens(s) == s
  {
    var t := if |s| > 0 && s[0] == '-' then s[1..] else s;
    assert forall i :: 0 <= i < |t| ==> IsSlugChar(t[i]);
    assert forall i :: 0 <= i < |t| - 1 ==> !(t[i] == '-' && t[i + 1] == '-');
    assert |t| > 0 ==> t[0] != '-';
    var r := TrimHyphens(s);
    if |t| > 0 && t[|t| - 1] == '-' {
      assert r == t[..|t| - 1];
      if |r| > 0 {
        assert r[|r| - 1] == t[|t| - 2];
      }
    }
  }

  /** generateSlug produces the empty string or a slug validateSlug accepts. */
  lemma GenerateSlugValid(text: string)
    ensures var r := GenerateSlug(text); r == "" || ValidateSlug(r)
    ensures SlugShape(GenerateSlug(text))
  {
    var lowered := Lower(text);
    var unaccented := Filter(lowered, IsNotCombiningMark);
    var cleaned := Filter(unaccented, IsSlugSource);
    var spaced := ReplaceRuns(cleaned, IsSpace, '-');
    SqueezeKeeps(cleaned, IsSpace, '-', false, IsSlugChar);
    var single := ReplaceRuns(spaced, IsHyphen, '-');
    SqueezeKeeps(spaced, IsHyphen, '-', false, IsSlugChar);
    TrimHyphensShape(single);
    ValidateSlugShape(GenerateSlug(text));
  }

  /** Every step of generateSlug leaves a slug alone. */
  lemma SlugFixedPoint(s: string)
    requires SlugShape(s)
    ensures GenerateSlug(s) == s
  {
    SlugLowerFixed(s);
    SlugFiltersFixed(s);
    SlugRunsFixed(s);
    TrimHyphensShape(s);
  }

  lemma SlugLowerFixed(s: string)
    requires All(s, IsSlugChar)
    ensures Lower(s) == s
  {
    forall i | 0 <= i < |s| ensures ToLower(s[i]) == s[i] {
      assert IsSlugChar(s[i]);
    }
  }

  lemma SlugFiltersFixed(s: string)
    requires All(s, IsSlugChar)
    ensures Filter(Filter(s, IsNotCombiningMark), IsSlugSource) == s
  {
    assert forall i :: 0 <= i < |s| ==> IsSlugChar(s[i]);
    FilterAll(s, IsNotCombiningMark);
    FilterAll(s, IsSlugSource);
  }

  lemma SlugRunsFixed(s: string)
    requires SlugShape(s)
    ensures ReplaceRuns(ReplaceRuns(s, IsSpace, '-'), IsHyphen, '-') == s
  {
    assert forall i :: 0 <= i < |s| ==> !IsSpace(s[i]) by {
      forall i | 0 <= i < |s| ensures !IsSpace(s[i]) {
        assert IsSlugChar(s[i]);
      }
    }
    SqueezeNoRuns(s, IsSpace, '-', false);
    SqueezeNoRuns(s, IsHyphen, '-', false);
  }

  /** generateSlug is idempotent. */
  lemma GenerateSlugIdempotent(text: string)
    ensures GenerateSlug(GenerateSlug(text)) == GenerateSlug(text)
  {
    GenerateSlugValid(text);
    SlugFixedPoint(GenerateSlug(text));
  }

  // ------------------------------------------------------------------- time

  /** `([01]?[0-9]|2[0-3])` */
  predicate HourField(h: string) {
    || (|h| == 1 && IsDigit(h[0]))
    || (|h| == 2 && (h[0] == '0' || h[0] == '1') && IsDigit(h[1]))
    || (|h| == 2 && h[0] == '2' && '0' <= h[1] <= '3')
  }

  /** `[0-5][0-9]` */
  predicate MinuteField(m: string) {
    |m| == 2 && '0' <= m[0] <= '5' && IsDigit(m[1])
  }

  /** `time` matches the pattern with its `:` at `k` */
  predicate TimeSplit(time: string, k: int) {
    0 <= k < |time| && time[k] == ':' && HourField(time[..k]) && MinuteField(time[k + 1..])
  }

  /** validateTime: `/^([01]?[0-9]|2[0-3]):[0-5][0-9]$/.test(time)` */
  predicate ValidateTime(time: string) {
    exists k | 0 <= k < |time| :: TimeSplit(time, k)
  }

  /** Two-digit decimal text of `n < 100`, with a leading zero */
  function Pad2(n: nat): (r: string)
    requires n < 100
    ensures |r| == 2 && AllDigits(r)
  {
    [DigitChar(n / 10), DigitChar(n % 10)]
  }

  /** `time` spells the clock time `h`:`m`, with a two-digit hour or, below ten, a
      one-digit hour */
  predicate ReadsAs(time: string, h: nat, m: nat) {
    && h < 24 && m < 60
    && (time == Pad2(h) + ":" + Pad2(m) || (h < 10 && time == [DigitChar(h)] + ":" + Pad2(m)))
  }

  /** validateTime accepts exactly the times 0:00 to 23:59 written H:MM or HH:MM. */
  lemma ValidateTimeIff(time: string)
    ensures ValidateTime(time) <==> exists h: nat, m: nat :: ReadsAs(time, h, m)
  {
    if ValidateTime(time) {
      var k :| 0 <= k < |time| && TimeSplit(time, k);
      var h, m := SplitReads(time, k);
    }
    if exists h: nat, m: nat :: ReadsAs(time, h, m) {
      var h: nat, m: nat :| ReadsAs(time, h, m);
      ReadsSplits(time, h, m);
    }
  }

  /** A match of the pattern spells a clock time. */
  lemma SplitReads(time: string, k: int) returns (h: nat, m: nat)
    requires TimeSplit(time, k)
    ensures ReadsAs(time, h, m)
  {
    var hh, mm := time[..k], time[k + 1..];
    m := DigitValue(mm[0]) * 10 + DigitValue(mm[1]);
    assert Pad2(m) == mm;
    assert time == hh + ":" + mm;
    if k == 1 {
      h := DigitValue(hh[0]);
      assert [DigitChar(h)] == hh;
    } else {
      h := DigitValue(hh[0]) * 10 + DigitValue(hh[1]);
      assert Pad2(h) == hh;
    }
  }

  /** Every clock time, spelt either way, matches the pattern. */
  lemma ReadsSplits(time: string, h: nat, m: nat)
    requires ReadsAs(time, h, m)
    ensures ValidateTime(time)
  {
    var k := if time == Pad2(h) + ":" + Pad2(m) then 2 else 1;
    assert time[..k] == (if k == 2 then Pad2(h) else [DigitChar(h)]);
    assert time[k + 1..] == Pad2(m);
    assert TimeSplit(time, k);
  }

  /** The hour 24 and a one-digit minute are refused. */
  lemma ValidateTimeRejects()
    ensures !ValidateTime("24:00")
    ensures !ValidateTime("7:5")
    ensures ValidateTime("7:05") && ValidateTime("23:59")
  {
    assert TimeSplit("7:05", 1);
    assert TimeSplit("23:59", 2);
  }

  // ------------------------------------------------------------- image file

  const AllowedImageTypes: seq<string> := ["image/jpeg", "image/jpg", "image/png", "image/webp"]

  /** 5MB */
  const MaxImageSize: int := 5 * 1024 * 1024

  const WrongTypeMessage := "Tipo de arquivo não permitido. Use JPG, PNG ou WebP."
  const TooLargeMessage := "Arquivo muito grande. Máximo 5MB."

  datatype ImageCheck = ImageCheck(isValid: bool, error: Option<string>)

  /** validateImageFile, on the file's MIME type and size in bytes */
  function ValidateImageFile(fileType: string, size: int): (r: ImageCheck)
    ensures r.isValid <==> r.error == None
    ensures r.isValid <==> fileType in AllowedImageTypes && size <= 5242880
    ensures fileType !in AllowedImageTypes ==> r.error == Some(WrongTypeMessage)
    ensures fileType in AllowedImageTypes && size > 5242880 ==> r.error == Some(TooLargeMessage)
  {
    if fileType !in AllowedImageTypes then ImageCheck(false, Some(WrongTypeMessage))
    else if size > MaxImageSize then ImageCheck(false, Some(TooLargeMessage))
    else ImageCheck(true, None)
  }
}
