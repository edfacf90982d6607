/** The company operations of src/hooks/useCompanies.tsx over the backend store. Each
    operation takes, for every call it may issue, whether that call reports an error (or
    the id the backend assigns, None standing for an error), and returns its result, the
    store after it, and the calls it issued. A successful mutation re-reads the list
    (`ListCompanies`). */
module UseCompanies {
  import opened Wrappers
  import opened Domain
  import opened Lists
  import opened Backend

  /** CreateCompanyData */
  datatype CreateCompanyData = CreateCompanyData(
    name: string,
    email: string,
    whatsapp: string,
    address: Option<string>,
    planId: Option<string>,
    password: string,
    active: Option<bool>)

  /** How each call of createCompany settles: the new user's id, whether the profile
      insert succeeds, the new company's id, whether the clean-up delete succeeds */
  datatype CreateReplies = CreateReplies(
    newUser: Option<string>,
    profileOk: bool,
    newCompany: Option<string>,
    rollbackOk: bool)

  /** The values createCompany inserts for a user */
  function InsertValues(data: CreateCompanyData, userId: string): (v: CompanyInsert)
    ensures v.userId == userId && v.active == data.active.GetOr(true)
  {
    CompanyInsert(userId, data.name, data.email, data.whatsapp, data.address, data.planId,
                  data.active.GetOr(true))
  }

  /** The clean-up delete: the store it leaves, depending on whether it succeeded */
  function Rollback(st: Store, userId: string, ok: bool): Store {
    if ok then RemoveUser(st, userId) else st
  }

  predicate IsInsertCompany(c: Call) { c.InsertCompany? }

  predicate IsDeleteUser(c: Call) { c.DeleteUser? }

  /** createCompany: the auth user, then its profile, then the company; a failure after
      the user exists deletes the user again. The result is the created row. */
  function CreateCompany(st: Store, data: CreateCompanyData, replies: CreateReplies, now: int)
    : (r: Outcome<Option<Company>>)
    ensures r.result.Some? <==> replies.newUser.Some? && replies.profileOk && replies.newCompany.Some?
    ensures |r.trace| > 0 && r.trace[0] == CreateUser(data.email, data.password, data.name)
    ensures replies.newUser.None? ==> r.trace == [r.trace[0]] && r.store == st
    ensures replies.newUser.Some? && !replies.profileOk ==>
      && r.trace[|r.trace| - 1] == DeleteUser(replies.newUser.value)
      && forall i :: 0 <= i < |r.trace| ==> !IsInsertCompany(r.trace[i])
    ensures replies.newUser.Some? && replies.profileOk && replies.newCompany.None? ==>
      r.trace[|r.trace| - 1] == DeleteUser(replies.newUser.value)
    ensures (exists i :: 0 <= i < |r.trace| && IsDeleteUser(r.trace[i]))
        <==> replies.newUser.Some? && r.result.None?
    ensures r.result.Some? ==>
      && r.result.value.active == data.active.GetOr(true)
      && r.result.value.userId == replies.newUser.value
      && r.store.companies == st.companies + [r.result.value]
      && replies.newUser.value in r.store.users
      && r.store.profiles == st.profiles[replies.newUser.value := EmpresaAdmin]
    ensures r.result.Some? ==>
      var uid := replies.newUser.value;
      var row := r.result.value;
      && row.id == replies.newCompany.value && row.name == data.name && row.email == data.email
      && row.whatsapp == data.whatsapp && row.address == data.address && row.planId == data.planId
      && row.createdAt == now && row.updatedAt == now
      && r.store == st.(users := st.users + {uid}, profiles := st.profiles[uid := EmpresaAdmin],
                        companies := st.companies + [row])
      && r.trace == [CreateUser(data.email, data.password, data.name), InsertProfile(uid, EmpresaAdmin),
                     InsertCompany(InsertValues(data, uid)), ListCompanies]
  {
    var create := CreateUser(data.email, data.password, data.name);
    match replies.newUser
    case None => Outcome(None, st, [create])
    case Some(uid) =>
      var st1 := st.(users := st.users + {uid});
      var calls := [create, InsertProfile(uid, EmpresaAdmin)];
      if !replies.profileOk then
        Outcome(None, Rollback(st1, uid, replies.rollbackOk), calls + [DeleteUser(uid)])
      else
        var st2 := st1.(profiles := st1.profiles[uid := EmpresaAdmin]);
        var values := InsertValues(data, uid);
        var calls2 := calls + [InsertCompany(values)];
        match replies.newCompany
        case None => Outcome(None, Rollback(st2, uid, replies.rollbackOk), calls2 + [DeleteUser(uid)])
        case Some(cid) =>
          var row := StoredCompany(values, cid, now);
          Outcome(Some(row), st2.(companies := st2.companies + [row]), calls2 + [ListCompanies])
  }

  /** A failed creation whose clean-up succeeds leaves the store as it found it, provided
      the backend handed out an unused user id. */
  lemma CreateFailureRestores(st: Store, data: CreateCompanyData, replies: CreateReplies, now: int)
    requires replies.newUser.Some? ==> Fresh(st, replies.newUser.value)
    requires replies.rollbackOk
    ensures CreateCompany(st, data, replies, now).result.None? ==> CreateCompany(st, data, replies, now).store == st
  {
    if replies.newUser.Some? {
      var uid := replies.newUser.value;
      RemoveFreshUser(st, uid, None, []);
      RemoveFreshUser(st, uid, Some(EmpresaAdmin), []);
      assert st.companies + [] == st.companies;
    }
  }

  /** updateCompany: the form's values, password included, with a fresh updated_at. `ok`
      is whether the backend accepts an update of existing columns; a patch carrying a
      password names a missing column and is refused whatever `ok` says. */
  function UpdateCompany(st: Store, id: string, data: CompanyPatch, now: int, ok: bool): (r: Outcome<bool>)
    ensures r.result <==> ok && data.password.None?
    ensures |r.trace| >= 1 && r.trace[0] == Backend.UpdateCompany(id, data.(updatedAt := Some(now)))
    ensures r.trace[0].patch.password == data.password
    ensures r.result ==> r.store == st.(companies := UpdateCompanies(st.companies, id, data.(updatedAt := Some(now))))
    ensures r.result ==> r.trace == [r.trace[0], ListCompanies]
    ensures !r.result ==> r.store == st && |r.trace| == 1
  {
    var patch := data.(updatedAt := Some(now));
    if ok && !NamesMissingColumn(patch) then
      Outcome(true, st.(companies := UpdateCompanies(st.companies, id, patch)),
              [Backend.UpdateCompany(id, patch), ListCompanies])
    else Outcome(false, st, [Backend.UpdateCompany(id, patch)])
  }

  /** The patch that names only `active` and `updated_at` */
  function StatusPatch(active: bool, now: int): CompanyPatch {
    CompanyPatch(None, None, None, None, None, Some(active), None, Some(now))
  }

  /** toggleCompanyStatus */
  function ToggleCompanyStatus(st: Store, id: string, active: bool, now: int, ok: bool): (r: Outcome<bool>)
    ensures r.result == ok
    ensures |r.trace| >= 1 && r.trace[0] == Backend.UpdateCompany(id, StatusPatch(active, now))
    ensures ok ==> |r.store.companies| == |st.companies|
    ensures ok ==> forall i :: 0 <= i < |st.companies| ==>
      r.store.companies[i] == if st.companies[i].id == id
                              then st.companies[i].(active := active, updatedAt := now)
                              else st.companies[i]
    ensures ok ==> r.store == st.(companies := r.store.companies) && r.trace == [r.trace[0], ListCompanies]
    ensures !ok ==> r.store == st && |r.trace| == 1
  {
    var patch := StatusPatch(active, now);
    if ok then Outcome(true, st.(companies := UpdateCompanies(st.companies, id, patch)),
                       [Backend.UpdateCompany(id, patch), ListCompanies])
    else Outcome(false, st, [Backend.UpdateCompany(id, patch)])
  }

  /** deleteCompany: look the owner up, then delete the owner, whose deletion takes the
      company with it */
  function DeleteCompany(st: Store, id: string, lookupOk: bool, deleteOk: bool): (r: Outcome<bool>)
    ensures |r.trace| >= 1 && r.trace[0] == LookupCompanyUser(id)
    ensures r.result <==> lookupOk && SingleCompany(st.companies, id).Some? && deleteOk
    ensures !(lookupOk && SingleCompany(st.companies, id).Some?) ==> r.trace == [r.trace[0]] && r.store == st
    ensures lookupOk && SingleCompany(st.companies, id).Some? ==>
      |r.trace| >= 2 && r.trace[1] == DeleteUser(SingleCompany(st.companies, id).value.userId)
    ensures r.result ==> r.store == RemoveUser(st, SingleCompany(st.companies, id).value.userId)
    ensures r.result ==> forall i :: 0 <= i < |r.store.companies| ==> r.store.companies[i].id != id
    ensures !r.result ==> r.store == st
  {
    var found := if lookupOk then SingleCompany(st.companies, id) else None;
    match found
    case None => Outcome(false, st, [LookupCompanyUser(id)])
    case Some(c) =>
      if deleteOk then
        var after := RemoveUser(st, c.userId);
        OnlyRowWithId(st.companies, id, c, after.companies);
        Outcome(true, after, [LookupCompanyUser(id), DeleteUser(c.userId), ListCompanies])
      else Outcome(false, st, [LookupCompanyUser(id), DeleteUser(c.userId)])
  }

  /** Removing the owner of the only row with an id removes every row with that id. */
  lemma OnlyRowWithId(rows: seq<Company>, id: string, c: Company, after: seq<Company>)
    requires SingleCompany(rows, id) == Some(c)
    requires forall x :: multiset(after)[x] == if x.userId == c.userId then 0 else multiset(rows)[x]
    ensures forall i :: 0 <= i < |after| ==> after[i].id != id
  {
    var found := Select(rows, WithId(id));
    forall i | 0 <= i < |after|
      ensures after[i].id != id
    {
      var x := after[i];
      assert x in multiset(after);
    }
  }

  /** resetCompanyPassword: the recovery mail, pointing at the new-password page */
  function ResetCompanyPassword(st: Store, email: string, origin: string, ok: bool): (r: Outcome<bool>)
    ensures r.result == ok && r.store == st
    ensures r.trace == [SendPasswordReset(email, origin + "/alterar-senha")]
  {
    Outcome(ok, st, [SendPasswordReset(email, origin + "/alterar-senha")])
  }

  /** getCompanyById: the row, or null on any error, including no row or several */
  function GetCompanyById(st: Store, id: string, ok: bool): (r: Outcome<Option<Company>>)
    ensures r.result.Some? ==> ok && r.result.value in st.companies && r.result.value.id == id
    ensures r.result.Some? <==> ok && SingleCompany(st.companies, id).Some?
    ensures r.store == st && r.trace == [GetCompany(id)]
  {
    Outcome(if ok then SingleCompany(st.companies, id) else None, st, [GetCompany(id)])
  }
}
