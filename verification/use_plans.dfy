/** The plan operations of src/hooks/usePlans.tsx over the backend store, in the same
    style as the company operations: each takes how its calls settle and returns its
    result, the store after it and the calls it issued. */
module UsePlans {
  import opened Wrappers
  import opened Domain
  import opened Lists
  import opened Backend

  /** The plans `.eq('active', true)` keeps */
  function IsActivePlan(): Plan -> bool {
    (p: Plan) => p.active
  }

  /** `.order('price', { ascending: true })` */
  function CheaperOrSame(): (Plan, Plan) -> bool {
    (a: Plan, b: Plan) => a.price <= b.price
  }

  lemma PriceOrderIsPreorder()
    ensures TotalPreorder(CheaperOrSame())
  {
  }

  /** fetchActivePlans: the active plans by ascending price, or none when the read fails;
      the order among plans of the same price is the backend's */
  function FetchActivePlans(st: Store, ok: bool): (r: Outcome<seq<Plan>>)
    ensures !ok ==> r.result == []
    ensures forall i :: 0 <= i < |r.result| ==> r.result[i].active
    ensures forall i, j :: 0 <= i < j < |r.result| ==> r.result[i].price <= r.result[j].price
    ensures ok ==> forall p :: multiset(r.result)[p] == if p.active then multiset(st.plans)[p] else 0
    ensures r.store == st && r.trace == [ListActivePlans]
  {
    if ok then
      PriceOrderIsPreorder();
      var active := Select(st.plans, IsActivePlan());
      var sorted := Sort(active, CheaperOrSame());
      assert forall i :: 0 <= i < |sorted| ==> sorted[i].active by {
        forall i | 0 <= i < |sorted| ensures sorted[i].active {
          assert sorted[i] in multiset(sorted);
        }
      }
      Outcome(sorted, st, [ListActivePlans])
    else Outcome([], st, [ListActivePlans])
  }

  /** CreatePlanData */
  datatype CreatePlanData = CreatePlanData(name: string, price: int, active: Option<bool>)

  /** createPlan: the insert, active unless the data says otherwise; `newPlan` is the id
      the backend assigns, None when the insert reports an error */
  function CreatePlan(st: Store, data: CreatePlanData, newPlan: Option<string>, now: int): (r: Outcome<bool>)
    ensures r.result <==> newPlan.Some?
    ensures |r.trace| >= 1 && r.trace[0] == InsertPlan(PlanInsert(data.name, data.price, data.active.GetOr(true)))
    ensures r.result ==> |r.store.plans| == |st.plans| + 1 && r.store.plans[..|st.plans|] == st.plans
    ensures r.result ==> r.store == st.(plans := r.store.plans) && r.trace == [r.trace[0], ListPlans]
    ensures r.result ==> var p := r.store.plans[|st.plans|];
      p.id == newPlan.value && p.name == data.name && p.price == data.price
      && p.active == data.active.GetOr(true)
    ensures !r.result ==> r.store == st
  {
    var values := PlanInsert(data.name, data.price, data.active.GetOr(true));
    match newPlan
    case None => Outcome(false, st, [InsertPlan(values)])
    case Some(id) =>
      var plans := st.plans + [StoredPlan(values, id, now)];
      assert plans[..|st.plans|] == st.plans;
      Outcome(true, st.(plans := plans), [InsertPlan(values), ListPlans])
  }

  /** updatePlan */
  function UpdatePlan(st: Store, id: string, patch: PlanPatch, ok: bool): (r: Outcome<bool>)
    ensures r.result == ok
    ensures |r.trace| >= 1 && r.trace[0] == Backend.UpdatePlan(id, patch)
    ensures ok ==> r.store == st.(plans := UpdatePlans(st.plans, id, patch))
    ensures ok ==> r.trace == [r.trace[0], ListPlans]
    ensures !ok ==> r.store == st && |r.trace| == 1
  {
    if ok then Outcome(true, st.(plans := UpdatePlans(st.plans, id, patch)), [Backend.UpdatePlan(id, patch), ListPlans])
    else Outcome(false, st, [Backend.UpdatePlan(id, patch)])
  }

  /** togglePlanStatus: an update that names only `active` */
  function TogglePlanStatus(st: Store, id: string, active: bool, ok: bool): (r: Outcome<bool>)
    ensures r.result == ok
    ensures |r.trace| >= 1 && r.trace[0] == Backend.UpdatePlan(id, PlanPatch(None, None, Some(active)))
    ensures ok ==> |r.store.plans| == |st.plans|
    ensures ok ==> forall i :: 0 <= i < |st.plans| ==>
      r.store.plans[i] == if st.plans[i].id == id then st.plans[i].(active := active) else st.plans[i]
    ensures ok ==> r.store == st.(plans := r.store.plans)
    ensures !ok ==> r.store == st
  {
    UpdatePlan(st, id, PlanPatch(None, None, Some(active)), ok)
  }

  /** Some company refers to the plan */
  predicate InUse(st: Store, id: string) {
    exists i :: 0 <= i < |st.companies| && st.companies[i].planId == Some(id)
  }

  /** deletePlan: refuse a plan some company uses, or when that check fails; otherwise
      delete it */
  function DeletePlan(st: Store, id: string, checkOk: bool, deleteOk: bool): (r: Outcome<bool>)
    ensures |r.trace| >= 1 && r.trace[0] == FindPlanUser(id)
    ensures r.result <==> checkOk && !InUse(st, id) && deleteOk
    ensures Backend.DeletePlan(id) in r.trace <==> checkOk && !InUse(st, id)
    ensures r.result ==> r.store == st.(plans := DeletePlans(st.plans, id))
    ensures !r.result ==> r.store == st
  {
    if !checkOk || InUse(st, id) then Outcome(false, st, [FindPlanUser(id)])
    else if deleteOk then
      Outcome(true, st.(plans := DeletePlans(st.plans, id)), [FindPlanUser(id), Backend.DeletePlan(id), ListPlans])
    else Outcome(false, st, [FindPlanUser(id), Backend.DeletePlan(id)])
  }

  /** Deleting a plan never leaves a company pointing at a plan that is gone. */
  lemma DeletePlanKeepsReferences(st: Store, id: string, checkOk: bool, deleteOk: bool)
    requires PlansReferenced(st)
    ensures PlansReferenced(DeletePlan(st, id, checkOk, deleteOk).store)
  {
    var r := DeletePlan(st, id, checkOk, deleteOk);
    if r.result {
      var after := r.store;
      forall i | 0 <= i < |after.companies|
        ensures PlanStored(after, after.companies[i])
      {
        var c := after.companies[i];
        if c.planId.Some? {
          assert PlanStored(st, st.companies[i]);
          var j :| 0 <= j < |st.plans| && st.plans[j].id == c.planId.value;
          var p := st.plans[j];
          assert p.id != id;
          assert p in multiset(st.plans);
          assert p in multiset(after.plans);
          var k :| 0 <= k < |after.plans| && after.plans[k] == p;
        }
      }
    }
  }
}
