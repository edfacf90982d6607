/** The display formatters of src/utils/formatting.ts.

    Formatters that read the clock take the elapsed time as an integer number of
    milliseconds instead. Locale, currency and floating-point formatters are not part of
    this model. */
module Formatting {
  import opened Chars
  import opened Wrappers
  import Validation

  // ------------------------------------------------------------------- text

  /** `s.charAt(0)`: the first character, or the empty string */
  function Head(s: string): string {
    if |s| == 0 then "" else s[..1]
  }

  /** capitalizeFirst: the first character upper-cased, the rest lower-cased */
  function CapitalizeFirst(text: string): (r: string)
    ensures |r| == |text|
    ensures |text| > 0 ==> r[0] == ToUpper(text[0]) && r[1..] == Lower(text[1..])
  {
    Upper(Head(text)) + Lower(text[|Head(text)|..])
  }

  /** Capitalising twice is capitalising once. */
  lemma CapitalizeFirstIdempotent(text: string)
    ensures CapitalizeFirst(CapitalizeFirst(text)) == CapitalizeFirst(text)
  {
    var r := CapitalizeFirst(text);
    var r2 := CapitalizeFirst(r);
    forall i | 0 <= i < |r| ensures r2[i] == r[i] {
      if i == 0 {
        assert r[0] == ToUpper(text[0]);
      } else {
        assert r[i] == ToLower(text[i]);
      }
    }
  }

  /** `word.charAt(0).toUpperCase() + word.slice(1)` */
  function CapWord(word: string): string {
    Upper(Head(word)) + word[|Head(word)|..]
  }

  /** capitalizeWords: lower-case, split on the space character, capitalise each word,
      join with a space */
  function CapitalizeWords(text: string): (r: string) {
    var words := Split(Lower(text), ' ');
    Join(seq(|words|, i requires 0 <= i < |words| => CapWord(words[i])), " ")
  }

  /** The words, each capitalised except the first when `capFirst` is false */
  function CapEach(words: seq<string>, capFirst: bool): (r: seq<string>)
    ensures |r| == |words|
  {
    if |words| == 0 then []
    else [if capFirst then CapWord(words[0]) else words[0]] + CapEach(words[1..], true)
  }

  /** `words.map(capWord)` is `CapEach(words, true)`. */
  lemma {:induction false} CapEachMap(words: seq<string>)
    ensures CapEach(words, true) == seq(|words|, i requires 0 <= i < |words| => CapWord(words[i]))
  {
    if |words| > 0 {
      CapEachMap(words[1..]);
    }
  }

  /** Character by character: a character that starts a word is upper-cased, every other
      one is kept. `atStart` says whether `s` itself starts a word. */
  function CapRef(s: string, atStart: bool): (r: string)
    ensures |r| == |s|
  {
    if |s| == 0 then ""
    else if s[0] == ' ' then " " + CapRef(s[1..], true)
    else [if atStart then ToUpper(s[0]) else s[0]] + CapRef(s[1..], false)
  }

  lemma JoinCons(a: string, items: seq<string>, sep: string)
    requires |items| > 0
    ensures Join([a] + items, sep) == a + sep + Join(items, sep)
  {
    assert ([a] + items)[1..] == items;
  }

  /** A split piece that is empty (the text starts with a space) contributes only its separator. */
  lemma CapEachEmptyStep(more: seq<string>, atStart: bool)
    requires |more| > 0
    ensures Join(CapEach([""] + more, atStart), " ") == " " + Join(CapEach(more, true), " ")
  {
    assert ([""] + more)[1..] == more;
    assert CapWord("") == "";
    assert CapEach([""] + more, atStart) == [""] + CapEach(more, true);
    JoinCons("", CapEach(more, true), " ");
  }

  /** The first character of a nonempty first piece is capitalised only at a word start;
      the rest of the piece is left as it is. */
  lemma CapEachWordStep(x: char, w: string, more: seq<string>, atStart: bool)
    ensures Join(CapEach([[x] + w] + more, atStart), " ")
      == [if atStart then ToUpper(x) else x] + Join(CapEach([w] + more, false), " ")
  {
    var c := if atStart then ToUpper(x) else x;
    var first := [x] + w;
    assert CapWord(first) == [ToUpper(x)] + w by {
      assert Head(first) == [x];
      assert first[1..] == w;
    }
    assert ([first] + more)[1..] == more;
    assert ([w] + more)[1..] == more;
    assert CapEach([first] + more, atStart) == [[c] + w] + CapEach(more, true);
    assert CapEach([w] + more, false) == [w] + CapEach(more, true);
    if |more| > 0 {
      JoinCons([c] + w, CapEach(more, true), " ");
      JoinCons(w, CapEach(more, true), " ");
    }
  }

  lemma {:induction false} CapEachSplit(s: string, atStart: bool)
    ensures Join(CapEach(Split(s, ' '), atStart), " ") == CapRef(s, atStart)
    decreases |s|
  {
    if |s| > 0 {
      var rest := Split(s[1..], ' ');
      if s[0] == ' ' {
        CapEachSplit(s[1..], true);
        assert Split(s, ' ') == [""] + rest;
        CapEachEmptyStep(rest, atStart);
      } else {
        CapEachSplit(s[1..], false);
        assert Split(s, ' ') == [[s[0]] + rest[0]] + rest[1..];
        assert rest == [rest[0]] + rest[1..];
        CapEachWordStep(s[0], rest[0], rest[1..], atStart);
      }
    }
  }

  lemma {:induction false} CapRefIndex(s: string, atStart: bool)
    ensures forall i :: 0 <= i < |s| ==>
      CapRef(s, atStart)[i]
        == if s[i] != ' ' && (if i == 0 then atStart else s[i - 1] == ' ') then ToUpper(s[i]) else s[i]
    decreases |s|
  {
    if |s| > 0 {
      var t := s[1..];
      var b := s[0] == ' ';
      CapRefIndex(t, b);
      var r := CapRef(s, atStart);
      assert r == (if b then " " else [if atStart then ToUpper(s[0]) else s[0]]) + CapRef(t, b);
      forall i | 0 <= i < |s|
        ensures r[i] == if s[i] != ' ' && (if i == 0 then atStart else s[i - 1] == ' ') then ToUpper(s[i]) else s[i]
      {
        if i > 0 {
          assert r[i] == CapRef(t, b)[i - 1];
          assert t[i - 1] == s[i];
          if i > 1 {
            assert t[i - 2] == s[i - 1];
          }
        }
      }
    }
  }

  /** capitalizeWords lower-cases the text and upper-cases exactly the characters that
      start a word: the first character and every character after a space. */
  lemma CapitalizeWordsSpec(text: string)
    ensures |CapitalizeWords(text)| == |text|
    ensures forall i :: 0 <= i < |text| ==>
      CapitalizeWords(text)[i]
        == if i == 0 || text[i - 1] == ' ' then ToUpper(ToLower(text[i])) else ToLower(text[i])
  {
    var s := Lower(text);
    CapEachMap(Split(s, ' '));
    CapEachSplit(s, true);
    CapRefIndex(s, true);
    forall i | 0 <= i < |text|
      ensures CapitalizeWords(text)[i]
        == if i == 0 || text[i - 1] == ' ' then ToUpper(ToLower(text[i])) else ToLower(text[i])
    {
      assert s[i] == ToLower(text[i]);
      assert ToLower(text[i]) == ' ' <==> text[i] == ' ';
      if i > 0 {
        assert s[i - 1] == ' ' <==> text[i - 1] == ' ';
      }
    }
  }

  /** truncateText: the text itself when it fits, otherwise as much of its start as
      leaves room for the suffix, then the suffix. `substring` clamps a negative end to 0. */
  function TruncateText(text: string, maxLength: int, suffix: string := "..."): (r: string)
    ensures |text| <= maxLength ==> r == text
    ensures |text| > maxLength ==>
      r == text[..if maxLength - |suffix| < 0 then 0 else maxLength - |suffix|] + suffix
    ensures |text| > maxLength && maxLength >= |suffix| ==> |r| == maxLength
    ensures |r| <= |text| || |r| <= |suffix|
  {
    if |text| <= maxLength then text
    else
      var keep := if maxLength - |suffix| < 0 then 0 else maxLength - |suffix|;
      text[..keep] + suffix
  }

  /** Truncating again to the same length, when it leaves room for the suffix, changes
      nothing. */
  lemma TruncateTextIdempotent(text: string, maxLength: int, suffix: string)
    requires maxLength >= |suffix|
    ensures TruncateText(TruncateText(text, maxLength, suffix), maxLength, suffix)
         == TruncateText(text, maxLength, suffix)
  {
  }

  // --------------------------------------------------------------- WhatsApp

  /** formatWhatsAppNumber: masks a 10- or 11-digit number and gives back anything else
      as it was typed, not cleaned */
  function FormatWhatsAppNumber(whatsapp: string): (r: string)
    ensures Validation.ValidateWhatsApp(whatsapp) ==> r == Validation.FormatWhatsApp(whatsapp)
    ensures !Validation.ValidateWhatsApp(whatsapp) ==> r == whatsapp
    ensures Validation.ValidateWhatsApp(whatsapp)
      ==> Validation.Fits(r, Validation.PhoneMask10) || Validation.Fits(r, Validation.PhoneMask11)
  {
    var numbers := Digits(whatsapp);
    Validation.ValidWhatsAppIffFullMask(whatsapp);
    if |numbers| == 10 then Validation.ApplyMask(numbers, Validation.PhoneMask10)
    else if |numbers| == 11 then Validation.ApplyMask(numbers, Validation.PhoneMask11)
    else whatsapp
  }

  /** Formatting a formatted number changes nothing. */
  lemma FormatWhatsAppNumberIdempotent(whatsapp: string)
    ensures FormatWhatsAppNumber(FormatWhatsAppNumber(whatsapp)) == FormatWhatsAppNumber(whatsapp)
  {
    if Validation.ValidateWhatsApp(whatsapp) {
      Validation.FormatWhatsAppKeepsDigits(whatsapp);
      Validation.FormatWhatsAppIdempotent(whatsapp);
    }
  }

  /** The number of a wa.me link: the digits, with the country code 55 put in front
      unless they already start with it */
  function LinkNumber(whatsapp: string): (r: string)
    ensures AllDigits(r) && StartsWith(r, "55")
    ensures r == Digits(whatsapp) || r == "55" + Digits(whatsapp)
    ensures StartsWith(Digits(whatsapp), "55") <==> r == Digits(whatsapp)
  {
    var numbers := Digits(whatsapp);
    if StartsWith(numbers, "55") then numbers
    else
      assert forall i :: 0 <= i < |"55" + numbers| ==> IsDigit(("55" + numbers)[i]);
      "55" + numbers
  }

  /** A link number needs no second country code. */
  lemma LinkNumberIdempotent(whatsapp: string)
    ensures LinkNumber(LinkNumber(whatsapp)) == LinkNumber(whatsapp)
  {
    DigitsIdempotent(whatsapp);
    FilterAll(LinkNumber(whatsapp), IsDigit);
  }

  /** formatWhatsAppLink. `encode` stands for encodeURIComponent; an absent or empty message
      adds no query. */
  function FormatWhatsAppLink(whatsapp: string, message: Option<string>, encode: string -> string): (r: string)
    ensures StartsWith(r, "https://wa.me/" + LinkNumber(whatsapp))
    ensures message.None? || message.value == "" ==> r == "https://wa.me/" + LinkNumber(whatsapp)
    ensures message.Some? && message.value != "" ==>
      r[|"https://wa.me/" + LinkNumber(whatsapp)|..] == "?text=" + encode(message.value)
  {
    var url := "https://wa.me/" + LinkNumber(whatsapp);
    if message.Some? && message.value != "" then url + "?text=" + encode(message.value) else url
  }

  // ------------------------------------------------------ CEP, CNPJ and slug

  /** formatCEP, written out again in this file */
  function FormatCEP(cep: string): (r: string)
    ensures r == Validation.FormatCEP(cep)
  {
    Validation.ApplyMask(Digits(cep), Validation.CepMask)
  }

  /** formatCNPJ, written out again in this file */
  function FormatCNPJ(cnpj: string): (r: string)
    ensures r == Validation.FormatCNPJ(cnpj)
  {
    Validation.ApplyMask(Digits(cnpj), Validation.CnpjMask)
  }

  /** formatSlug, the same pipeline as generateSlug: its result is empty or a valid slug */
  function FormatSlug(text: string): (r: string)
    ensures r == Validation.GenerateSlug(text)
    ensures r == "" || Validation.ValidateSlug(r)
  {
    Validation.GenerateSlugValid(text);
    var lowered := Lower(text);
    var unaccented := Filter(lowered, Validation.IsNotCombiningMark);
    var cleaned := Filter(unaccented, Validation.IsSlugSource);
    var spaced := Validation.ReplaceRuns(cleaned, IsSpace, '-');
    var single := Validation.ReplaceRuns(spaced, Validation.IsHyphen, '-');
    Validation.TrimHyphens(single)
  }

  // ----------------------------------------------------------------- status

  datatype BadgeVariant = Default | Secondary | Destructive | Outline

  datatype StatusBadge = StatusBadge(caption: string, variant: BadgeVariant, color: string)

  /** formatStatus */
  function FormatStatus(active: bool): (r: StatusBadge)
    ensures r.caption == "Ativo" <==> active
    ensures r.caption == "Inativo" <==> !active
    ensures r.variant == Default <==> active
    ensures r.variant == Secondary <==> !active
  {
    if active then StatusBadge("Ativo", Default, "text-green-600")
    else StatusBadge("Inativo", Secondary, "text-red-600")
  }

  const HoursUnset := "Não informado"

  /** formatBusinessHours: either time empty (falsy) gives the placeholder, and no pair of
      times spells the placeholder */
  function FormatBusinessHours(opening: string, closing: string): (r: string)
    ensures r == HoursUnset <==> opening == "" || closing == ""
    ensures opening != "" && closing != "" ==>
      StartsWith(r, opening) && r[|opening|..] == " às " + closing
  {
    if opening == "" || closing == "" then HoursUnset
    else
      var r := opening + " às " + closing;
      assert r[|opening|] == ' ' && r[|opening| + 3] == ' ';
      r
  }

  // --------------------------------------------------------------- initials

  /** The first characters of the words, `atStart` saying whether `s` starts a word */
  function InitialsRef(s: string, atStart: bool): (r: string)
    ensures |r| <= |s|
  {
    if |s| == 0 then ""
    else if s[0] == ' ' then InitialsRef(s[1..], true)
    else (if atStart then [s[0]] else "") + InitialsRef(s[1..], false)
  }

  /** `name.split(' ').map(word => word.charAt(0)).join('')` */
  function Heads(words: seq<string>): string {
    if |words| == 0 then "" else Head(words[0]) + Heads(words[1..])
  }

  /** getInitials */
  function GetInitials(name: string): (r: string)
    ensures |r| <= 2
  {
    var initials := Upper(Heads(Split(name, ' ')));
    initials[..if |initials| < 2 then |initials| else 2]
  }

  /** Split pieces' first characters are the word initials; inside a word (`!atStart`)
      the first piece only continues that word and adds none. */
  lemma {:induction false} HeadsSplit(s: string, atStart: bool)
    ensures atStart ==> Heads(Split(s, ' ')) == InitialsRef(s, true)
    ensures !atStart ==> Heads(Split(s, ' ')[1..]) == InitialsRef(s, false)
    decreases |s|
  {
    if |s| > 0 {
      var rest := Split(s[1..], ' ');
      HeadsSplit(s[1..], true);
      HeadsSplit(s[1..], false);
      if s[0] == ' ' {
        assert Split(s, ' ') == [""] + rest;
        assert Split(s, ' ')[1..] == rest;
      } else {
        var first := [s[0]] + rest[0];
        assert Split(s, ' ') == [first] + rest[1..];
        assert Split(s, ' ')[1..] == rest[1..];
        assert Head(first) == [s[0]];
      }
    }
  }

  /** getInitials gives the upper-cased first characters of the first two words; runs of
      spaces make no empty initials. */
  lemma GetInitialsSpec(name: string)
    ensures var refs := Upper(InitialsRef(name, true));
      GetInitials(name) == refs[..if |refs| < 2 then |refs| else 2]
  {
    HeadsSplit(name, true);
  }

  // ------------------------------------------------------------------- list

  /** formatList */
  function FormatList(items: seq<string>, conjunction: string := "e"): (r: string)
    ensures |items| == 0 ==> r == ""
    ensures |items| == 1 ==> r == items[0]
    ensures |items| >= 2 ==> StartsWith(r, items[0])
  {
    if |items| == 0 then ""
    else if |items| == 1 then items[0]
    else if |items| == 2 then items[0] + " " + conjunction + " " + items[1]
    else Join(items[..|items| - 1], ", ") + " " + conjunction + " " + items[|items| - 1]
  }

  /** Two items follow the general rule as well: the items but the last, joined with
      commas, then the conjunction and the last item. */
  lemma FormatListUniform(items: seq<string>, conjunction: string)
    requires |items| >= 2
    ensures FormatList(items, conjunction)
         == Join(items[..|items| - 1], ", ") + " " + conjunction + " " + items[|items| - 1]
  {
    if |items| == 2 {
      assert items[..1] == [items[0]];
    }
  }

  /** The list is as long as its items, with two characters for each comma and the
      conjunction between spaces. */
  lemma FormatListLength(items: seq<string>, conjunction: string)
    requires |items| >= 2
    ensures |FormatList(items, conjunction)|
         == TotalLength(items) + 2 * (|items| - 2) + |conjunction| + 2
  {
    FormatListUniform(items, conjunction);
    JoinLength(items[..|items| - 1], ", ");
    TotalLengthSnoc(items[..|items| - 1], items[|items| - 1]);
    assert items[..|items| - 1] + [items[|items| - 1]] == items;
  }

  lemma {:induction false} TotalLengthSnoc(items: seq<string>, last: string)
    ensures TotalLength(items + [last]) == TotalLength(items) + |last|
  {
    if |items| > 0 {
      assert (items + [last])[1..] == items[1..] + [last];
      TotalLengthSnoc(items[1..], last);
    }
  }

  // --------------------------------------------------------- relative dates

  const MsPerDay := 1000 * 60 * 60 * 24

  /** `Math.floor(diffInMs / (1000 * 60 * 60 * 24))`; Dafny's division rounds down for a
      positive divisor, as Math.floor does */
  function DaysFromMs(diffInMs: int): int {
    diffInMs / MsPerDay
  }

  /** The branch formatRelativeDate takes */
  datatype Relative = Today | Yesterday | DaysAgo(days: int) | WeeksAgo(weeks: int)
                    | MonthsAgo(months: int) | YearsAgo(years: int)
  {
    /** The order of the branches */
    function Rank(): nat {
      match this
      case Today => 0
      case Yesterday => 1
      case DaysAgo(_) => 2
      case WeeksAgo(_) => 3
      case MonthsAgo(_) => 4
      case YearsAgo(_) => 5
    }
  }

  function RelativeBucket(diffInDays: int): (r: Relative)
    ensures r == Today <==> diffInDays == 0
    ensures r == Yesterday <==> diffInDays == 1
    ensures r.DaysAgo? <==> diffInDays < 0 || 2 <= diffInDays < 7
    ensures r.DaysAgo? ==> r.days == diffInDays
    ensures r.WeeksAgo? <==> 7 <= diffInDays < 30
    ensures r.WeeksAgo? ==> r.weeks == diffInDays / 7 && 1 <= r.weeks <= 4
    ensures r.MonthsAgo? <==> 30 <= diffInDays < 365
    ensures r.MonthsAgo? ==> r.months == diffInDays / 30 && 1 <= r.months <= 12
    ensures r.YearsAgo? <==> 365 <= diffInDays
    ensures r.YearsAgo? ==> r.years == diffInDays / 365 && 1 <= r.years
  {
    if diffInDays == 0 then Today
    else if diffInDays == 1 then Yesterday
    else if diffInDays < 7 then DaysAgo(diffInDays)
    else if diffInDays < 30 then WeeksAgo(diffInDays / 7)
    else if diffInDays < 365 then MonthsAgo(diffInDays / 30)
    else YearsAgo(diffInDays / 365)
  }

  /** Further in the past never lands in an earlier branch, and within a branch the count
      never goes down. */
  lemma RelativeBucketMonotone(d1: int, d2: int)
    requires 0 <= d1 <= d2
    ensures RelativeBucket(d1).Rank() <= RelativeBucket(d2).Rank()
    ensures RelativeBucket(d1).WeeksAgo? && RelativeBucket(d2).WeeksAgo?
      ==> RelativeBucket(d1).weeks <= RelativeBucket(d2).weeks
    ensures RelativeBucket(d1).MonthsAgo? && RelativeBucket(d2).MonthsAgo?
      ==> RelativeBucket(d1).months <= RelativeBucket(d2).months
    ensures RelativeBucket(d1).YearsAgo? && RelativeBucket(d2).YearsAgo?
      ==> RelativeBucket(d1).years <= RelativeBucket(d2).years
  {
  }

  /** The text of a branch: one unit is written in the singular */
  function RenderRelative(b: Relative): (r: string)
    ensures b == Today ==> r == "Hoje"
    ensures b == Yesterday ==> r == "Ontem"
    ensures b.DaysAgo? ==> r == IntToString(b.days) + " dias atrás"
    ensures b.WeeksAgo? ==> r == IntToString(b.weeks) + (if b.weeks == 1 then " semana atrás" else " semanas atrás")
    ensures b.MonthsAgo? ==> r == IntToString(b.months) + (if b.months == 1 then " mês atrás" else " meses atrás")
    ensures b.YearsAgo? ==> r == IntToString(b.years) + (if b.years == 1 then " ano atrás" else " anos atrás")
    ensures b.WeeksAgo? ==> (r == "1 semana atrás" <==> b.weeks == 1)
    ensures b.MonthsAgo? ==> (r == "1 mês atrás" <==> b.months == 1)
    ensures b.YearsAgo? ==> (r == "1 ano atrás" <==> b.years == 1)
  {
    assert IntToString(1) == "1";
    match b
    case Today => "Hoje"
    case Yesterday => "Ontem"
    case DaysAgo(n) => IntToString(n) + " dias atrás"
    case WeeksAgo(n) => if n == 1 then "1 semana atrás" else IntToString(n) + " semanas atrás"
    case MonthsAgo(n) => if n == 1 then "1 mês atrás" else IntToString(n) + " meses atrás"
    case YearsAgo(n) => if n == 1 then "1 ano atrás" else IntToString(n) + " anos atrás"
  }

  /** formatRelativeDate, on `now - date` in milliseconds: the text of the whole days
      elapsed, rounded down */
  function FormatRelativeDate(diffInMs: int): (r: string)
    ensures var d := DaysFromMs(diffInMs);
      && (d == 0 ==> r == "Hoje")
      && (d == 1 ==> r == "Ontem")
      && (d < 0 || 2 <= d < 7 ==> r == IntToString(d) + " dias atrás")
      && (7 <= d < 14 ==> r == "1 semana atrás")
      && (14 <= d < 30 ==> r == IntToString(d / 7) + " semanas atrás")
      && (30 <= d < 60 ==> r == "1 mês atrás")
      && (60 <= d < 365 ==> r == IntToString(d / 30) + " meses atrás")
      && (365 <= d < 730 ==> r == "1 ano atrás")
      && (730 <= d ==> r == IntToString(d / 365) + " anos atrás")
  {
    RenderRelative(RelativeBucket(DaysFromMs(diffInMs)))
  }

  /** The number the text starts with is the count of the branch, in the singular as in
      the plural. */
  lemma RelativeCountReadBack(diffInDays: int)
    requires diffInDays >= 2
    ensures var b := RelativeBucket(diffInDays);
      var n := match b case WeeksAgo(w) => w case MonthsAgo(m) => m case YearsAgo(y) => y
                       case DaysAgo(d) => d case _ => 0;
      n >= 1 && StartsWith(RenderRelative(b), NatToString(n))
      && ParseNat(RenderRelative(b)[..|NatToString(n)|]) == n
  {
    var b := RelativeBucket(diffInDays);
    var n := match b case WeeksAgo(w) => w case MonthsAgo(m) => m case YearsAgo(y) => y
                     case DaysAgo(d) => d case _ => 0;
    ParseNatToString(n);
    assert NatToString(1) == "1";
  }

  // --------------------------------------------------------------- time ago

  datatype Ago = JustNow | MinutesAgo(minutes: int) | HoursAgo(hours: int)
               | DaysAgoShort(days: int) | OnDate

  /** formatTimeAgo's branch, on `now - date` in milliseconds; past a week it shows the
      date, whose locale text is not part of this model */
  function TimeAgo(diffInMs: int): (r: Ago)
    ensures r == JustNow <==> diffInMs < 60000
    ensures r.MinutesAgo? ==> 1 <= r.minutes < 60 && r.minutes == diffInMs / 60000
    ensures r.HoursAgo? ==> 1 <= r.hours < 24 && r.hours == diffInMs / 3600000
    ensures r.DaysAgoShort? ==> 1 <= r.days < 7
    ensures r.MinutesAgo? <==> 60000 <= diffInMs < 3600000
    ensures r.HoursAgo? <==> 3600000 <= diffInMs < MsPerDay
    ensures r.DaysAgoShort? <==> MsPerDay <= diffInMs < 7 * MsPerDay
    ensures r.DaysAgoShort? ==> r.days == DaysFromMs(diffInMs)
    ensures r == OnDate <==> DaysFromMs(diffInMs) >= 7
  {
    var minutes := diffInMs / (1000 * 60);
    var hours := minutes / 60;
    var days := hours / 24;
    if minutes < 1 then JustNow
    else if minutes < 60 then MinutesAgo(minutes)
    else if hours < 24 then HoursAgo(hours)
    else if days < 7 then DaysAgoShort(days)
    else OnDate
  }

  /** The day count of formatTimeAgo is the one of formatRelativeDate, and both print a
      count of two to six days the same way. */
  lemma TimeAgoAgreesWithRelative(diffInMs: int)
    ensures TimeAgo(diffInMs).DaysAgoShort? ==> TimeAgo(diffInMs).days == DaysFromMs(diffInMs)
    ensures TimeAgo(diffInMs).DaysAgoShort? && TimeAgo(diffInMs).days >= 2
      ==> FormatRelativeDate(diffInMs) == IntToString(TimeAgo(diffInMs).days) + " dias atrás"
  {
  }

  /** formatTimeAgo, with the short date of the moment passed in as `shortDate` */
  function FormatTimeAgo(diffInMs: int, shortDate: string): (r: string)
    ensures diffInMs < 60000 ==> r == "Agora mesmo"
    ensures 60000 <= diffInMs < 3600000 ==> r == IntToString(diffInMs / 60000) + " min atrás"
    ensures 3600000 <= diffInMs < MsPerDay ==> r == IntToString(diffInMs / 3600000) + "h atrás"
    ensures MsPerDay <= diffInMs < 7 * MsPerDay
      ==> r == IntToString(DaysFromMs(diffInMs)) + " dias atrás"
    ensures DaysFromMs(diffInMs) >= 7 ==> r == shortDate
    ensures var a := TimeAgo(diffInMs);
      && (a == JustNow ==> r == "Agora mesmo")
      && (a.MinutesAgo? ==> r == IntToString(a.minutes) + " min atrás")
      && (a.HoursAgo? ==> r == IntToString(a.hours) + "h atrás")
      && (a.DaysAgoShort? ==> r == IntToString(a.days) + " dias atrás")
      && (a == OnDate ==> r == shortDate)
  {
    match TimeAgo(diffInMs)
    case JustNow => "Agora mesmo"
    case MinutesAgo(n) => IntToString(n) + " min atrás"
    case HoursAgo(n) => IntToString(n) + "h atrás"
    case DaysAgoShort(n) => IntToString(n) + " dias atrás"
    case OnDate => shortDate
  }
}
