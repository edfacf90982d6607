/** The hosted backend as the hooks of src/hooks/useCompanies.tsx and src/hooks/usePlans.tsx
    see it: the auth users, the `user_profiles`, `companies` and `plans` tables, and the
    calls the hooks issue. Whether a call reports an error, and the ids and timestamps
    the backend assigns, are inputs of each operation; a call that reports an error
    changes nothing. */
module Backend {
  import opened Wrappers
  import opened Domain
  import opened Lists

  datatype Store = Store(
    users: set<string>,
    profiles: map<string, Role>,
    companies: seq<Company>,
    plans: seq<Plan>)

  /** The values a `companies` insert supplies; the backend adds the id and timestamps */
  datatype CompanyInsert = CompanyInsert(
    userId: string,
    name: string,
    email: string,
    whatsapp: string,
    address: Option<string>,
    planId: Option<string>,
    active: bool)

  /** The columns a `companies` update names; a key the update leaves out is None */
  datatype CompanyPatch = CompanyPatch(
    name: Option<string>,
    email: Option<string>,
    whatsapp: Option<string>,
    address: Option<string>,
    planId: Option<string>,
    active: Option<bool>,
    password: Option<string>,
    updatedAt: Option<int>)

  /** The values a `plans` insert supplies */
  datatype PlanInsert = PlanInsert(name: string, price: int, active: bool)

  /** The columns a `plans` update names */
  datatype PlanPatch = PlanPatch(name: Option<string>, price: Option<int>, active: Option<bool>)

  /** One backend call, in the order the hooks issue them */
  datatype Call =
    | CreateUser(email: string, password: string, companyName: string)
    | InsertProfile(userId: string, role: Role)
    | InsertCompany(values: CompanyInsert)
    | DeleteUser(userId: string)
    | LookupCompanyUser(companyId: string)
    | UpdateCompany(companyId: string, patch: CompanyPatch)
    | SendPasswordReset(email: string, redirectTo: string)
    | GetCompany(companyId: string)
    | ListCompanies
    | FindPlanUser(planId: string)
    | InsertPlan(plan: PlanInsert)
    | UpdatePlan(planId: string, changes: PlanPatch)
    | DeletePlan(planId: string)
    | ListPlans
    | ListActivePlans

  /** What an operation returns, the store after it, and the calls it issued */
  datatype Outcome<R> = Outcome(result: R, store: Store, trace: seq<Call>)

  // ------------------------------------------------------------- companies

  /** The stored row of an insert */
  function StoredCompany(v: CompanyInsert, id: string, now: int): (c: Company)
    ensures c.id == id && c.userId == v.userId && c.active == v.active
  {
    Company(id, v.userId, v.name, v.email, v.whatsapp, v.address, v.planId, v.active, now, now)
  }

  /** A row with the patch's named columns overwritten; `password` names no column */
  function PatchCompany(c: Company, p: CompanyPatch): (r: Company)
    ensures r.id == c.id && r.userId == c.userId && r.createdAt == c.createdAt
    ensures r.name == p.name.GetOr(c.name) && r.email == p.email.GetOr(c.email)
    ensures r.whatsapp == p.whatsapp.GetOr(c.whatsapp)
    ensures r.address == (if p.address.Some? then p.address else c.address)
    ensures r.planId == (if p.planId.Some? then p.planId else c.planId)
    ensures r.active == p.active.GetOr(c.active) && r.updatedAt == p.updatedAt.GetOr(c.updatedAt)
  {
    c.(name := p.name.GetOr(c.name),
       email := p.email.GetOr(c.email),
       whatsapp := p.whatsapp.GetOr(c.whatsapp),
       address := if p.address.Some? then p.address else c.address,
       planId := if p.planId.Some? then p.planId else c.planId,
       active := p.active.GetOr(c.active),
       updatedAt := p.updatedAt.GetOr(c.updatedAt))
  }

  /** The patch names a column the `companies` table lacks: the table's row and update
      types in src/lib/supabase.ts have no `password`, so the backend refuses such an
      update as it refuses any request naming an unknown column */
  predicate NamesMissingColumn(p: CompanyPatch) {
    p.password.Some?
  }

  /** `update(patch).eq('id', id)` on the companies table */
  function UpdateCompanies(rows: seq<Company>, id: string, p: CompanyPatch): (r: seq<Company>)
    ensures |r| == |rows|
    ensures forall i :: 0 <= i < |r| ==> r[i] == if rows[i].id == id then PatchCompany(rows[i], p) else rows[i]
  {
    seq(|rows|, i requires 0 <= i < |rows| => if rows[i].id == id then PatchCompany(rows[i], p) else rows[i])
  }

  /** The test that keeps the companies some other user owns */
  function OwnedByOther(userId: string): Company -> bool {
    (c: Company) => c.userId != userId
  }

  /** `auth.admin.deleteUser(userId)`: the user, and through the foreign keys its profile
      and its companies */
  function RemoveUser(st: Store, userId: string): (r: Store)
    ensures r.users == st.users - {userId}
    ensures r.profiles == st.profiles - {userId}
    ensures forall c :: multiset(r.companies)[c] == if c.userId == userId then 0 else multiset(st.companies)[c]
    ensures r.plans == st.plans
  {
    st.(users := st.users - {userId},
        profiles := st.profiles - {userId},
        companies := Select(st.companies, OwnedByOther(userId)))
  }

  /** `userId` names nothing yet: no user, no profile, no company */
  predicate Fresh(st: Store, userId: string) {
    && userId !in st.users
    && userId !in st.profiles
    && forall i :: 0 <= i < |st.companies| ==> st.companies[i].userId != userId
  }

  /** Deleting a user nothing refers to undoes adding it, along with its profile and
      companies. */
  lemma RemoveFreshUser(st: Store, userId: string, role: Option<Role>, rows: seq<Company>)
    requires Fresh(st, userId)
    requires forall i :: 0 <= i < |rows| ==> rows[i].userId == userId
    ensures var grown := st.(users := st.users + {userId},
                             profiles := if role.Some? then st.profiles[userId := role.value] else st.profiles,
                             companies := st.companies + rows);
      RemoveUser(grown, userId) == st
  {
    var grown := st.(users := st.users + {userId},
                     profiles := if role.Some? then st.profiles[userId := role.value] else st.profiles,
                     companies := st.companies + rows);
    assert grown.users - {userId} == st.users;
    assert grown.profiles - {userId} == st.profiles;
    RemoveFreshRows(st.companies, rows, userId);
  }

  /** The cascade removes exactly the rows added for a user that owned none before. */
  lemma RemoveFreshRows(companies: seq<Company>, rows: seq<Company>, userId: string)
    requires forall i :: 0 <= i < |companies| ==> companies[i].userId != userId
    requires forall i :: 0 <= i < |rows| ==> rows[i].userId == userId
    ensures Select(companies + rows, OwnedByOther(userId)) == companies
  {
    var keep := OwnedByOther(userId);
    SelectAppend(companies, rows, keep);
    SelectAll(companies, keep);
    SelectNone(rows, keep);
    assert companies + [] == companies;
  }

  lemma {:induction false} SelectNone(rows: seq<Company>, keep: Company -> bool)
    requires forall i :: 0 <= i < |rows| ==> !keep(rows[i])
    ensures Select(rows, keep) == []
  {
    if |rows| > 0 {
      SelectNone(rows[1..], keep);
    }
  }

  /** `.eq('id', id).single()`: the row when exactly one has that id */
  function SingleCompany(rows: seq<Company>, id: string): (r: Option<Company>)
    ensures r.Some? ==> r.value in rows && r.value.id == id
    ensures r.Some? <==> |Select(rows, WithId(id))| == 1
  {
    var found := Select(rows, WithId(id));
    if |found| == 1 then
      assert found[0] in multiset(found);
      Some(found[0])
    else None
  }

  /** The test `.eq('id', id)` applies to a company */
  function WithId(id: string): Company -> bool {
    (c: Company) => c.id == id
  }

  // ----------------------------------------------------------------- plans

  function StoredPlan(v: PlanInsert, id: string, now: int): (p: Plan)
    ensures p.id == id && p.active == v.active
  {
    Plan(id, v.name, v.price, v.active, now)
  }

  function PatchPlan(p: Plan, patch: PlanPatch): (r: Plan)
    ensures r.id == p.id && r.createdAt == p.createdAt
    ensures r.name == patch.name.GetOr(p.name) && r.price == patch.price.GetOr(p.price)
    ensures r.active == patch.active.GetOr(p.active)
  {
    p.(name := patch.name.GetOr(p.name), price := patch.price.GetOr(p.price),
       active := patch.active.GetOr(p.active))
  }

  /** `update(patch).eq('id', id)` on the plans table */
  function UpdatePlans(rows: seq<Plan>, id: string, patch: PlanPatch): (r: seq<Plan>)
    ensures |r| == |rows|
    ensures forall i :: 0 <= i < |r| ==> r[i] == if rows[i].id == id then PatchPlan(rows[i], patch) else rows[i]
  {
    seq(|rows|, i requires 0 <= i < |rows| => if rows[i].id == id then PatchPlan(rows[i], patch) else rows[i])
  }

  /** The test that keeps the plans a `delete().eq('id', id)` spares */
  function OtherPlan(id: string): Plan -> bool {
    (p: Plan) => p.id != id
  }

  /** `delete().eq('id', id)` on the plans table */
  function DeletePlans(rows: seq<Plan>, id: string): (r: seq<Plan>)
    ensures forall i :: 0 <= i < |r| ==> r[i].id != id
    ensures forall p :: multiset(r)[p] == if p.id == id then 0 else multiset(rows)[p]
  {
    Select(rows, OtherPlan(id))
  }

  predicate UsesPlan(id: string, c: Company) {
    c.planId == Some(id)
  }

  /** Every company's plan, when it names one, is a stored plan */
  predicate PlansReferenced(st: Store) {
    forall i :: 0 <= i < |st.companies| ==> PlanStored(st, st.companies[i])
  }

  predicate PlanStored(st: Store, c: Company) {
    c.planId.Some? ==> exists j :: 0 <= j < |st.plans| && st.plans[j].id == c.planId.value
  }
}
