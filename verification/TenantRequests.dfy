/** What each request does to users and to extensions, row by row, whether or not its counters are adjusted. */
module TenantRequests {
  import opened Prelude
  import opened TenantExtensions
  import opened TenantCounting
  import opened TenancyExtensionService

  // ---------- Rows ----------

  /** These rows change, and no others come, go or change. */
  ghost predicate OnlyRows(extensions: map<Id, Extension>, extensions': map<Id, Extension>, ids: set<Id>) {
    && extensions'.Keys == extensions.Keys && ids <= extensions.Keys
    && forall id :: id in extensions && id !in ids ==> extensions'[id] == extensions[id]
  }

  /** The extension keeps its number and its tenant, and is this user's now. */
  predicate GivenTo(e: Extension, e': Extension, userId: Id, name: string) {
    && e'.number == e.number && e'.tenantId == e.tenantId && e'.status == Assigned
    && e'.userId == Some(userId) && e'.userName == Some(name) && e'.callerIdName == Some(name)
  }

  /** The extension keeps its number and its tenant, and is nobody's now. */
  predicate GivenBack(e: Extension, e': Extension) {
    && e'.number == e.number && e'.tenantId == e.tenantId && e'.status == Reserved
    && e'.userId == None && e'.userName == None && e'.callerIdName == None
  }

  ghost predicate Given(extensions: map<Id, Extension>, extensions': map<Id, Extension>, ids: set<Id>, userId: Id,
                        name: string) {
    OnlyRows(extensions, extensions', ids) && forall id <- ids :: GivenTo(extensions[id], extensions'[id], userId, name)
  }

  ghost predicate TakenBack(extensions: map<Id, Extension>, extensions': map<Id, Extension>, ids: set<Id>) {
    OnlyRows(extensions, extensions', ids) && forall id <- ids :: GivenBack(extensions[id], extensions'[id])
  }

  ghost function Owned(extensions: map<Id, Extension>, userId: Id): set<Id> {
    set id | id in extensions && extensions[id].userId == Some(userId)
  }

  // ---------- Assigning ----------

  function Named(ids: seq<Id>): set<Id> {
    set id <- ids
  }

  ghost predicate AllOfTenant(extensions: map<Id, Extension>, tenantId: Id, ids: seq<Id>) {
    forall id <- ids :: id in extensions && extensions[id].tenantId == Some(tenantId)
  }

  ghost predicate AllFree(extensions: map<Id, Extension>, ids: seq<Id>)
    requires forall id <- ids :: id in extensions
  {
    forall id <- ids :: extensions[id].status == Reserved && extensions[id].userId == None
  }

  lemma NamedOnce(extensions: map<Id, Extension>, tenantId: Id, ids: seq<Id>)
    ensures |FoundFor(extensions, tenantId, ids)| == |ids| <==> Distinct(ids) && AllOfTenant(extensions, tenantId, ids)
  {
    var found, named := FoundFor(extensions, tenantId, ids), Named(ids);
    ElementCount(ids, named);
    if |found| == |ids| {
      AllNamed(ids, found);
      assert found == named;
    }
    if AllOfTenant(extensions, tenantId, ids) { assert found == named; }
  }

  /** An assignment goes through iff each extension is named once, is the tenant's, and is free; then exactly those
      are given to the user. Otherwise nothing changes, and the answer says which of the two it was. */
  lemma AssignIff(s: Store, tenantId: Id, userId: Id, name: string, ids: seq<Id>)
    ensures var (s', result) := Assign(s, tenantId, userId, name, ids);
            && s'.users == s.users
            && (if Distinct(ids) && AllOfTenant(s.extensions, tenantId, ids) then
                  if AllFree(s.extensions, ids) then
                    result == Ok(|ids|) && Given(s.extensions, s'.extensions, Named(ids), userId, name)
                  else s' == s && result == Err(BadRequest)
                else s' == s && result == Err(NotFound))
  {
    NamedOnce(s.extensions, tenantId, ids);
    var found := FoundFor(s.extensions, tenantId, ids);
    if |found| == |ids| { assert found == Named(ids); }
  }

  /** Rows and users do not depend on the fate of the counters; an answer only gets lost with them. */
  predicate SameButCounters(a: (Store, Result<int, Error>), b: (Store, Result<int, Error>)) {
    && a.0.extensions == b.0.extensions && a.0.users == b.0.users
    && (a.1 == b.1 || (b.1.Ok? && a.1 == Err(Interrupted)))
  }

  lemma FatesLeaveUsers(s: Store, tenantId: Option<Id>, userId: Id, name: string, ids: seq<Id>, fate: Fate)
    ensures SameButCounters(CreateUntil(s, tenantId, userId, name, ids, fate),
                            CreateTenantUser(s, tenantId, userId, name, ids))
    ensures SameButCounters(AssignUntil(s, tenantId, userId, ids, fate),
                            AssignExtensionsToUser(s, tenantId, userId, ids))
  {
    UntilSame(s, CreateTenantUser(s, tenantId, userId, name, ids));
    UntilSame(s, AssignExtensionsToUser(s, tenantId, userId, ids));
  }

  lemma UntilSame(s: Store, done: (Store, Result<int, Error>))
    ensures forall t, r, a, fate :: SameButCounters(Until(s, done, t, r, a, fate), done)
  {
  }

  lemma FatesLeaveRows(s: Store, tenantId: Option<Id>, id: Id, fate: Fate)
    ensures SameButCounters(UnassignUntil(s, tenantId, id, fate), Unassign(s, tenantId, id))
    ensures SameButCounters(UnregisterUntil(s, tenantId, id, fate), Unregister(s, tenantId, id))
  {
    UntilSame(s, Unassign(s, tenantId, id));
    UntilSame(s, Unregister(s, tenantId, id));
  }

  /** The user is there after a create, with that tenant and name, even when its assignment is refused; nobody else
      comes, goes or changes. A user with a new id then has exactly the extensions named, or none. */
  lemma CreateMakesUser(s: Store, tenantId: Option<Id>, userId: Id, name: string, ids: seq<Id>)
    ensures var (s', result) := CreateTenantUser(s, tenantId, userId, name, ids);
            if tenantId == None then s' == s && result == Err(Forbidden)
            else
              && s'.users == s.users[userId := User(tenantId.value, name)]
              && (result.Ok? <==> Distinct(ids) && AllOfTenant(s.extensions, tenantId.value, ids)
                                  && AllFree(s.extensions, ids))
              && (result.Ok? ==> Given(s.extensions, s'.extensions, Named(ids), userId, name))
              && (result.Err? ==> s'.extensions == s.extensions)
              && (Owned(s.extensions, userId) == {} ==>
                    Owned(s'.extensions, userId) == if result.Ok? then Named(ids) else {})
  {
    if tenantId.Some? {
      AssignIff(s.(users := s.users[userId := User(tenantId.value, name)]), tenantId.value, userId, name, ids);
      if Owned(s.extensions, userId) == {} {
        assert forall id :: id in s.extensions ==> id !in Owned(s.extensions, userId);
      }
    }
  }

  predicate UserOf(s: Store, tenantId: Option<Id>, userId: Id) {
    userId in s.users && tenantId == Some(s.users[userId].tenantId)
  }

  /** Extensions are given to a user of the tenant only, under the user's name. */
  lemma AssignToUserIff(s: Store, tenantId: Option<Id>, userId: Id, ids: seq<Id>)
    ensures var (s', result) := AssignExtensionsToUser(s, tenantId, userId, ids);
            && s'.users == s.users
            && (tenantId == None ==> s' == s && result == Err(Forbidden))
            && (tenantId.Some? && !UserOf(s, tenantId, userId) ==> s' == s && result == Err(NotFound))
            && (UserOf(s, tenantId, userId) ==>
                  && (result.Ok? <==> Distinct(ids) && AllOfTenant(s.extensions, tenantId.value, ids)
                                      && AllFree(s.extensions, ids))
                  && (result.Err? ==> s' == s)
                  && (result.Ok? ==> Given(s.extensions, s'.extensions, Named(ids), userId, s.users[userId].name)))
  {
    if UserOf(s, tenantId, userId) { AssignIff(s, tenantId.value, userId, s.users[userId].name, ids); }
  }

  // ---------- Giving back ----------

  /** A tenant takes back an assigned extension of its own, and nothing else changes. */
  lemma UnassignIff(s: Store, tenantId: Option<Id>, id: Id)
    ensures var (s', result) := Unassign(s, tenantId, id);
            var own := id in s.extensions && tenantId.Some? && s.extensions[id].tenantId == tenantId;
            && s'.users == s.users
            && (result == Ok(1) <==> own && s.extensions[id].userId.Some?)
            && (result.Ok? ==> result == Ok(1) && TakenBack(s.extensions, s'.extensions, {id}))
            && (result.Err? ==>
                  && s' == s
                  && result == Err(if tenantId == None then Forbidden else if own then BadRequest else NotFound))
  {
  }

  /** An extension of the tenant that nobody has goes back to the pool. */
  lemma UnregisterIff(s: Store, tenantId: Option<Id>, id: Id)
    ensures var (s', result) := Unregister(s, tenantId, id);
            var own := id in s.extensions && tenantId.Some? && s.extensions[id].tenantId == tenantId;
            && s'.users == s.users
            && (result == Ok(1) <==> own && s.extensions[id].userId == None)
            && (result.Ok? ==>
                  && result == Ok(1) && OnlyRows(s.extensions, s'.extensions, {id})
                  && InPool(s'.extensions[id]) && s'.extensions[id].number == s.extensions[id].number)
            && (result.Err? ==>
                  && s' == s
                  && result == Err(if tenantId == None then Forbidden else if own then BadRequest else NotFound))
  {
  }

  /** Main result: the tenant deletes its own user, and nobody else; every extension the user had is free again. After
      that the user cannot be deleted again or given anything. */
  lemma DeleteRemovesUser(s: Store, tenantId: Option<Id>, userId: Id)
    ensures var (s', result) := DeleteTenantUser(s, tenantId, userId);
            && (result.Ok? <==> UserOf(s, tenantId, userId))
            && (result.Err? ==> s' == s && result == Err(if tenantId == None then Forbidden else NotFound))
            && (result.Ok? ==>
                  && userId !in s'.users && s'.users == s.users - {userId}
                  && TakenBack(s.extensions, s'.extensions, Owned(s.extensions, userId))
                  && Owned(s'.extensions, userId) == {} && result == Ok(|Owned(s.extensions, userId)|)
                  && DeleteTenantUser(s', tenantId, userId) == (s', Err(NotFound))
                  && forall ids :: AssignExtensionsToUser(s', tenantId, userId, ids) == (s', Err(NotFound)))
  {
    assert ExtensionsOf(s.extensions, userId) == Owned(s.extensions, userId);
  }

  /** Deleting a user just created gives everything back, but for the names the extensions had before. */
  lemma DeleteUndoesCreate(s: Store, tenantId: Id, userId: Id, name: string, ids: seq<Id>) returns (s': Store)
    requires Inv(s) && userId !in s.users && CreateTenantUser(s, Some(tenantId), userId, name, ids).1.Ok?
    ensures s' == DeleteTenantUser(CreateTenantUser(s, Some(tenantId), userId, name, ids).0, Some(tenantId), userId).0
    ensures s'.users == s.users && s'.tenants == s.tenants && s'.extensions.Keys == s.extensions.Keys
    ensures forall id :: id in s.extensions ==>
              s'.extensions[id] == if id in ids then s.extensions[id].(userName := None, callerIdName := None)
                                   else s.extensions[id]
  {
    var s1 := CreateTenantUser(s, Some(tenantId), userId, name, ids).0;
    forall id | id in s.extensions ensures s.extensions[id].userId != Some(userId) {}
    assert Owned(s.extensions, userId) == {};
    CreateMakesUser(s, Some(tenantId), userId, name, ids);
    DeleteRemovesUser(s1, Some(tenantId), userId);
    s' := DeleteTenantUser(s1, Some(tenantId), userId).0;
    CountsReturn(s, s1, s', tenantId, userId, name, ids);
    RowsReturn(s.extensions, s1.extensions, s'.extensions, userId, name, ids);
  }

  lemma CountsReturn(s: Store, s1: Store, s': Store, tenantId: Id, userId: Id, name: string, ids: seq<Id>)
    requires Distinct(ids) && Owned(s1.extensions, userId) == Named(ids)
    requires (s1, Ok(|ids|)) == CreateTenantUser(s, Some(tenantId), userId, name, ids)
    requires UserOf(s1, Some(tenantId), userId) && s' == DeleteTenantUser(s1, Some(tenantId), userId).0
    ensures s'.tenants == s.tenants
  {
    ElementCount(ids, Named(ids));
    assert ExtensionsOf(s1.extensions, userId) == Owned(s1.extensions, userId);
  }

  lemma RowsReturn(extensions: map<Id, Extension>, given: map<Id, Extension>, back: map<Id, Extension>, userId: Id,
                   name: string, ids: seq<Id>)
    requires Given(extensions, given, Named(ids), userId, name) && TakenBack(given, back, Named(ids))
    requires forall id <- ids :: id in extensions
    requires AllFree(extensions, ids)
    ensures back.Keys == extensions.Keys
    ensures forall id :: id in extensions ==>
              back[id] == if id in ids then extensions[id].(userName := None, callerIdName := None) else extensions[id]
  {
  }

  /** A deletion that fails on the way keeps the user, and frees the extensions it got to. */
  lemma InterruptedKeepsUser(s: Store, tenantId: Id, userId: Id, gone: set<Id>, failed: Id, fate: Fate)
    requires Inv(s) && gone + {failed} <= Owned(s.extensions, userId) && failed !in gone
    requires UserOf(s, Some(tenantId), userId)
    ensures var s' := UnassignUntil(AfterUnassigning(s, tenantId, gone), Some(tenantId), failed, fate).0;
            && s'.users == s.users && TakenBack(s.extensions, s'.extensions, gone + {failed})
            && Owned(s'.extensions, userId) == Owned(s.extensions, userId) - gone - {failed}
  {
    var s1 := AfterUnassigning(s, tenantId, gone);
    UntilSame(s1, Unassign(s1, Some(tenantId), failed));
  }
}
