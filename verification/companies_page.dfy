/** The company list of src/pages/superadmin/Companies.tsx: search and status filter,
    ordering, the metric cards, the sort selector's value, and the empty-state hint. */
module CompaniesPage {
  import opened Wrappers
  import opened Chars
  import opened Domain
  import opened Lists

  datatype FilterStatus = All | Active | Inactive

  datatype SortField = Name | CreatedAt | EmailField

  datatype SortOrder = Asc | Desc

  // ----------------------------------------------------------------- filter

  /** The search box: an empty term matches everything; otherwise the lower-cased name or
      email contains the lower-cased term, or the stored WhatsApp text contains the term
      as typed. */
  predicate MatchesSearch(c: Company, term: string) {
    || term == ""
    || Contains(Lower(c.name), Lower(term))
    || Contains(Lower(c.email), Lower(term))
    || Contains(c.whatsapp, term)
  }

  predicate MatchesStatus(c: Company, status: FilterStatus) {
    || status == All
    || (status == Active && c.active)
    || (status == Inactive && !c.active)
  }

  predicate Matches(c: Company, term: string, status: FilterStatus) {
    MatchesSearch(c, term) && MatchesStatus(c, status)
  }

  /** `companies.filter(...)`: the matching companies in their order */
  function FilterCompanies(companies: seq<Company>, term: string, status: FilterStatus): (r: seq<Company>)
    ensures |r| <= |companies|
    ensures forall i :: 0 <= i < |r| ==> Matches(r[i], term, status)
    ensures forall c :: multiset(r)[c] == if Matches(c, term, status) then multiset(companies)[c] else 0
  {
    if |companies| == 0 then []
    else
      var rest := FilterCompanies(companies[1..], term, status);
      assert companies == [companies[0]] + companies[1..];
      if Matches(companies[0], term, status) then [companies[0]] + rest else rest
  }

  /** An empty search term matches every company, as `includes('')` would too. */
  lemma EmptyTermMatches(c: Company)
    ensures MatchesSearch(c, "")
    ensures Contains(c.whatsapp, "")
  {
    ContainsEmpty(c.whatsapp);
  }

  /** With no search term and every status, nothing is filtered out. */
  lemma {:induction false} NoFilterKeepsAll(companies: seq<Company>)
    ensures FilterCompanies(companies, "", All) == companies
  {
    if |companies| > 0 {
      NoFilterKeepsAll(companies[1..]);
    }
  }

  /** The status filter keeps exactly the companies of that status. */
  lemma StatusFilter(companies: seq<Company>, c: Company)
    ensures c in FilterCompanies(companies, "", Active) <==> c in companies && c.active
    ensures c in FilterCompanies(companies, "", Inactive) <==> c in companies && !c.active
    ensures c in FilterCompanies(companies, "", All) <==> c in companies
  {
    var a := FilterCompanies(companies, "", Active);
    var n := FilterCompanies(companies, "", Inactive);
    assert c in a <==> multiset(a)[c] > 0;
    assert c in n <==> multiset(n)[c] > 0;
    assert c in companies <==> multiset(companies)[c] > 0;
    NoFilterKeepsAll(companies);
  }

  // ------------------------------------------------------------------- sort

  /** JavaScript's `<` on strings, a proper prefix first, comparing characters as whole
      code points; JavaScript compares UTF-16 code units, which orders the same except
      between a character above U+FFFF and one from U+E000 to U+FFFF */
  predicate LexLe(a: string, b: string)
    decreases |a|
  {
    |a| == 0 || (|b| > 0 && (a[0] < b[0] || (a[0] == b[0] && LexLe(a[1..], b[1..]))))
  }

  lemma {:induction false} LexLeTotal(a: string, b: string)
    ensures LexLe(a, b) || LexLe(b, a)
    decreases |a|
  {
    if |a| > 0 && |b| > 0 && a[0] == b[0] {
      LexLeTotal(a[1..], b[1..]);
    }
  }

  lemma {:induction false} LexLeTransitive(a: string, b: string, c: string)
    requires LexLe(a, b) && LexLe(b, c)
    ensures LexLe(a, c)
    decreases |a|
  {
    if |a| > 0 && a[0] == b[0] && b[0] == c[0] {
      LexLeTransitive(a[1..], b[1..], c[1..]);
    }
  }

  /** The comparison on the selected field: lower-cased text for name and email, the
      timestamp for created_at */
  predicate KeyLe(field: SortField, a: Company, b: Company) {
    match field
    case Name => LexLe(Lower(a.name), Lower(b.name))
    case EmailField => LexLe(Lower(a.email), Lower(b.email))
    case CreatedAt => a.createdAt <= b.createdAt
  }

  /** `a` may come before `b`: the key does not increase in ascending order and does not
      decrease in descending order */
  function Before(field: SortField, order: SortOrder): (Company, Company) -> bool {
    (a: Company, b: Company) => if order == Asc then KeyLe(field, a, b) else KeyLe(field, b, a)
  }

  lemma BeforeIsPreorder(field: SortField, order: SortOrder)
    ensures TotalPreorder(Before(field, order))
  {
    var le := Before(field, order);
    forall a: Company, b: Company ensures le(a, b) || le(b, a) {
      if field == Name {
        LexLeTotal(Lower(a.name), Lower(b.name));
      } else if field == EmailField {
        LexLeTotal(Lower(a.email), Lower(b.email));
      }
    }
    forall a: Company, b: Company, c: Company | le(a, b) && le(b, c) ensures le(a, c) {
      if field == Name {
        if order == Asc {
          LexLeTransitive(Lower(a.name), Lower(b.name), Lower(c.name));
        } else {
          LexLeTransitive(Lower(c.name), Lower(b.name), Lower(a.name));
        }
      } else if field == EmailField {
        if order == Asc {
          LexLeTransitive(Lower(a.email), Lower(b.email), Lower(c.email));
        } else {
          LexLeTransitive(Lower(c.email), Lower(b.email), Lower(a.email));
        }
      }
    }
  }

  /** filteredAndSortedCompanies: the matching companies, ordered by the selected key;
      the order among equal keys is left open */
  function FilteredAndSorted(companies: seq<Company>, term: string, status: FilterStatus,
                             field: SortField, order: SortOrder): (r: seq<Company>)
    ensures forall c :: multiset(r)[c] == if Matches(c, term, status) then multiset(companies)[c] else 0
    ensures forall i, j :: 0 <= i < j < |r| ==>
      if order == Asc then KeyLe(field, r[i], r[j]) else KeyLe(field, r[j], r[i])
  {
    BeforeIsPreorder(field, order);
    Sort(FilterCompanies(companies, term, status), Before(field, order))
  }

  // ---------------------------------------------------------------- metrics

  function CountActive(companies: seq<Company>): nat {
    if |companies| == 0 then 0 else (if companies[0].active then 1 else 0) + CountActive(companies[1..])
  }

  function CountInactive(companies: seq<Company>): nat {
    if |companies| == 0 then 0 else (if companies[0].active then 0 else 1) + CountInactive(companies[1..])
  }

  datatype Metrics = Metrics(total: nat, active: nat, inactive: nat, monthlyRevenue: nat)

  /** The four cards: total, active, inactive, and 30 reais a month per active company */
  function ComputeMetrics(companies: seq<Company>): (m: Metrics)
    ensures m.total == |companies|
    ensures m.active + m.inactive == m.total
    ensures m.monthlyRevenue == 30 * m.active
    ensures m.active == |FilterCompanies(companies, "", Active)|
  {
    CountsSplit(companies);
    CountActiveIsFilter(companies);
    Metrics(|companies|, CountActive(companies), CountInactive(companies), CountActive(companies) * 30)
  }

  lemma {:induction false} CountsSplit(companies: seq<Company>)
    ensures CountActive(companies) + CountInactive(companies) == |companies|
  {
    if |companies| > 0 {
      CountsSplit(companies[1..]);
    }
  }

  lemma {:induction false} CountActiveIsFilter(companies: seq<Company>)
    ensures CountActive(companies) == |FilterCompanies(companies, "", Active)|
  {
    if |companies| > 0 {
      CountActiveIsFilter(companies[1..]);
    }
  }

  /** The revenue card's text: `toFixed(2)` of a whole number of reais */
  function RevenueText(m: Metrics): string {
    "R$ " + NatToString(m.monthlyRevenue) + ".00"
  }

  // ---------------------------------------------------------- sort selector

  function FieldName(f: SortField): string {
    match f
    case Name => "name"
    case CreatedAt => "created_at"
    case EmailField => "email"
  }

  function OrderName(o: SortOrder): string {
    match o
    case Asc => "asc"
    case Desc => "desc"
  }

  /** The selector's value `${sortField}-${sortOrder}` */
  function EncodeSort(f: SortField, o: SortOrder): string {
    FieldName(f) + "-" + OrderName(o)
  }

  function ParseField(s: string): Option<SortField> {
    if s == "name" then Some(Name)
    else if s == "created_at" then Some(CreatedAt)
    else if s == "email" then Some(EmailField)
    else None
  }

  function ParseOrder(s: string): Option<SortOrder> {
    if s == "asc" then Some(Asc) else if s == "desc" then Some(Desc) else None
  }

  /** `const [field, order] = value.split('-')`, read back into the two settings; a piece
      that names no setting is None */
  function DecodeSort(value: string): (Option<SortField>, Option<SortOrder>) {
    var pieces := Split(value, '-');
    (ParseField(pieces[0]), if |pieces| > 1 then ParseOrder(pieces[1]) else None)
  }

  /** The field names hold no `-`, so splitting recovers both settings. */
  lemma SortRoundTrip(f: SortField, o: SortOrder)
    ensures DecodeSort(EncodeSort(f, o)) == (Some(f), Some(o))
  {
    var value := EncodeSort(f, o);
    JoinSplit(value, '-');
    SplitAround(FieldName(f), OrderName(o), '-');
  }

  /** Splitting `a + [sep] + b`, with no separator in either side, gives exactly `a` and `b`. */
  lemma {:induction false} SplitAround(a: string, b: string, sep: char)
    requires sep !in a && sep !in b
    ensures Split(a + [sep] + b, sep) == [a, b]
    decreases |a|
  {
    if |a| == 0 {
      assert a + [sep] + b == [sep] + b;
      assert ([sep] + b)[1..] == b;
      SplitNone(b, sep);
    } else {
      SplitAround(a[1..], b, sep);
      assert (a + [sep] + b)[1..] == a[1..] + [sep] + b;
      assert [a[0]] + a[1..] == a;
    }
  }

  lemma {:induction false} SplitNone(s: string, sep: char)
    requires sep !in s
    ensures Split(s, sep) == [s]
    decreases |s|
  {
    if |s| > 0 {
      SplitNone(s[1..], sep);
      assert [s[0]] + s[1..] == s;
    }
  }

  // -------------------------------------------------------------- empty list

  const AdjustFiltersHint := "Tente ajustar os filtros de busca"
  const CreateFirstHint := "Comece criando sua primeira empresa"

  /** The hint under "Nenhuma empresa encontrada" */
  function EmptyHint(term: string, status: FilterStatus): string {
    if term != "" || status != All then AdjustFiltersHint else CreateFirstHint
  }

  /** The invitation to create the first company appears only when there is none. */
  lemma CreateFirstHintMeansNoCompanies(companies: seq<Company>, term: string, status: FilterStatus,
                                        field: SortField, order: SortOrder)
    requires |FilteredAndSorted(companies, term, status, field, order)| == 0
    requires EmptyHint(term, status) == CreateFirstHint
    ensures |companies| == 0
  {
  }
}
