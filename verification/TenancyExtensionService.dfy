/** The tenancy service over three tables: rows are changed one at a time, each change followed by
    its counter update, which may be missed. */
module TenancyExtensionService {
  import opened Prelude
  import T = TenantExtensions
  import opened TenantExtensions
  import opened TenantCounting

  class Service {
    var extensions: map<Id, Extension>
    var tenants: map<Id, Counters>
    var users: map<Id, User>

    ghost function State(): Store
      reads this
    {
      Store(extensions, tenants, users)
    }

    constructor ()
      ensures State() == Store(map[], map[], map[]) && Inv(State())
    {
      extensions, tenants, users := map[], map[], map[];
    }

    // ---------- Repositories ----------

    /** One increment after the other, as far as they go through. */
    method AdjustExtensionStats(tenantId: Id, reservedDelta: int, assignedDelta: int, fate: Fate)
      returns (complete: bool)
      requires reservedDelta != 0
      modifies this`tenants
      ensures tenants == AdjustUntil(old(tenants), tenantId, reservedDelta, assignedDelta, fate)
      ensures complete == Complete(fate, assignedDelta)
    {
      if fate == Uncounted {
        return false;
      }
      if tenantId in tenants {
        var c := tenants[tenantId];
        tenants := tenants[tenantId := c.(reservedExtensionCount := c.reservedExtensionCount + reservedDelta)];
      }
      if assignedDelta != 0 {
        if fate == HalfCounted {
          return false;
        }
        if tenantId in tenants {
          var c := tenants[tenantId];
          tenants := tenants[tenantId := c.(assignedExtensionCount := c.assignedExtensionCount + assignedDelta)];
        }
      }
      return true;
    }

    /** The available extension with the lowest number, if there is one. */
    method FindLowestAvailable() returns (lowest: Option<Id>)
      ensures lowest.Some? ==> IsLowestAvailable(extensions, lowest.value)
      ensures lowest == None ==> forall id :: id in extensions ==> !InPool(extensions[id])
    {
      lowest := None;
      var left := extensions.Keys;
      while left != {}
        invariant left <= extensions.Keys
        invariant lowest.Some? ==>
                    && lowest.value in extensions && InPool(extensions[lowest.value])
                    && forall id :: id in extensions && id !in left && InPool(extensions[id]) ==>
                         extensions[lowest.value].number <= extensions[id].number
        invariant lowest == None ==> forall id :: id in extensions && id !in left ==> !InPool(extensions[id])
        decreases |left|
      {
        var id :| id in left;
        left := left - {id};
        if InPool(extensions[id]) && (lowest == None || extensions[id].number < extensions[lowest.value].number) {
          lowest := Some(id);
        }
      }
    }

    method AssignOneAvailableToTenant(tenantId: Id) returns (result: Result<Id, T.Error>)
      modifies this`extensions
      ensures result.Ok? ==> IsLowestAvailable(old(extensions), result.value)
                             && extensions == ReserveOne(old(State()), tenantId, result.value).extensions
      ensures result.Err? ==> extensions == old(extensions) && forall id :: id in extensions ==> !InPool(extensions[id])
    {
      var lowest := FindLowestAvailable();
      if lowest == None {
        return Err(BadRequest);
      }
      var extension := extensions[lowest.value];
      extension := extension.(tenantId := Some(tenantId));
      extension := extension.(status := Reserved);
      extensions := extensions[lowest.value := extension];
      return Ok(lowest.value);
    }

    /** One transaction: the rows are saved only if every one of them may be assigned. */
    method AssignReservedExtensionsToUser(tenantId: Id, userId: Id, name: string, ids: seq<Id>)
      returns (result: Result<int, T.Error>)
      modifies this`extensions
      ensures extensions == Assign(old(State()), tenantId, userId, name, ids).0.extensions
      ensures result == Assign(old(State()), tenantId, userId, name, ids).1
    {
      var found := FoundFor(extensions, tenantId, ids);
      if |found| != |ids| {
        return Err(NotFound);
      }
      var rows := extensions;
      var left := found;
      while left != {}
        invariant left <= found
        invariant forall id :: id in found && id !in left ==> Assignable(extensions[id])
        invariant rows == AssignRows(extensions, found - left, userId, name)
        decreases |left|
      {
        var id :| id in left;
        var extension := rows[id];
        if extension.status != Reserved || extension.userId.Some? {
          return Err(BadRequest);
        }
        rows := rows[id := AssignedTo(extension, userId, name)];
        left := left - {id};
      }
      assert found - left == found;
      extensions := rows;
      return Ok(|ids|);
    }

    // ---------- The service ----------

    /** The bulk job reserves one extension after the other until it is done, the pool is empty or a count
        fails; what it has reserved by then stays reserved. */
    method HandleEventBulkExtensionAssignment(tenantId: Id, count: nat, fates: nat -> Fate)
      returns (picks: seq<Id>, result: Result<int, T.Error>, ghost last: Fate)
      modifies this
      ensures |picks| <= count && Picks(old(State()), tenantId, picks)
      ensures State() == BulkUntil(old(State()), tenantId, picks, last)
      ensures result.Ok? ==> |picks| == count && last == Counted
      ensures result.Err? ==> !Complete(last, 0) || forall id :: id in extensions ==> !InPool(extensions[id])
    {
      picks, last := [], Counted;
      var index := 0;
      while index < count
        invariant 0 <= index <= count && |picks| == index
        invariant Picks(old(State()), tenantId, picks) && State() == ReserveAll(old(State()), tenantId, picks)
      {
        var one := AssignOneAvailableToTenant(tenantId);
        if one.Err? {
          CountedBulk(old(State()), tenantId, picks);
          return picks, Err(one.error), Counted;
        }
        var counted := AdjustExtensionStats(tenantId, 1, 0, fates(index));
        if !counted {
          BulkUntilAppend(old(State()), tenantId, picks, one.value, fates(index));
          return picks + [one.value], Err(Interrupted), fates(index);
        }
        ReserveAllAppend(old(State()), tenantId, picks, one.value);
        picks := picks + [one.value];
        index := index + 1;
      }
      CountedBulk(old(State()), tenantId, picks);
      return picks, Ok(count), Counted;
    }

    /** The rows first; then each is provisioned, which may fail; then the counters. */
    method AssignAndCount(tenantId: Id, userId: Id, name: string, ids: seq<Id>, fate: Fate)
      returns (result: Result<int, T.Error>)
      requires ids != []
      modifies this`extensions, this`tenants
      ensures (State(), result)
              == Until(old(State()), Assign(old(State()), tenantId, userId, name, ids), tenantId, -|ids|, |ids|,
                       AssignFate(old(State()), tenantId, ids, name, fate))
    {
      var fit := CallerIdsFit(Store(extensions, tenants, users), tenantId, ids, name);
      result := AssignReservedExtensionsToUser(tenantId, userId, name, ids);
      if result.Err? {
        return;
      }
      if !fit {
        assert tenants == AdjustUntil(tenants, tenantId, -|ids|, |ids|, Uncounted);
        return Err(Interrupted);
      }
      var counted := AdjustExtensionStats(tenantId, -|ids|, |ids|, fate);
      if !counted {
        return Err(Interrupted);
      }
    }

    method CreateTenantUser(tenantId: Option<Id>, userId: Id, name: string, ids: seq<Id>, fate: Fate)
      returns (result: Result<int, T.Error>)
      requires ids != []
      modifies this
      ensures (State(), result) == CreateUntil(old(State()), tenantId, userId, name, ids, fate)
    {
      if tenantId == None {
        return Err(Forbidden);
      }
      users := users[userId := User(tenantId.value, name)];
      result := AssignAndCount(tenantId.value, userId, name, ids, fate);
    }

    method AssignExtensionsToUser(tenantId: Option<Id>, userId: Id, ids: seq<Id>, fate: Fate)
      returns (result: Result<int, T.Error>)
      requires ids != []
      modifies this
      ensures (State(), result) == AssignUntil(old(State()), tenantId, userId, ids, fate)
    {
      if tenantId == None {
        return Err(Forbidden);
      }
      if userId !in users || users[userId].tenantId != tenantId.value {
        return Err(NotFound);
      }
      result := AssignAndCount(tenantId.value, userId, users[userId].name, ids, fate);
    }

    method UnassignExtension(tenantId: Option<Id>, id: Id, fate: Fate) returns (result: Result<int, T.Error>)
      modifies this`extensions, this`tenants
      ensures (State(), result) == UnassignUntil(old(State()), tenantId, id, fate)
    {
      if tenantId == None {
        return Err(Forbidden);
      }
      if id !in extensions || extensions[id].tenantId != tenantId {
        return Err(NotFound);
      }
      if extensions[id].userId == None {
        return Err(BadRequest);
      }
      extensions := extensions[id := Unassigned(extensions[id])];
      var counted := AdjustExtensionStats(tenantId.value, 1, -1, fate);
      if !counted {
        return Err(Interrupted);
      }
      return Ok(1);
    }

    method UnregisterExtension(tenantId: Option<Id>, id: Id, fate: Fate) returns (result: Result<int, T.Error>)
      modifies this
      ensures (State(), result) == UnregisterUntil(old(State()), tenantId, id, fate)
    {
      if tenantId == None {
        return Err(Forbidden);
      }
      if id !in extensions || extensions[id].tenantId != tenantId {
        return Err(NotFound);
      }
      if extensions[id].userId.Some? {
        return Err(BadRequest);
      }
      var extension := extensions[id].(tenantId := None);
      extensions := extensions[id := extension.(status := Available)];
      var counted := AdjustExtensionStats(tenantId.value, -1, 0, fate);
      if !counted {
        return Err(Interrupted);
      }
      return Ok(1);
    }

    /** The user's extensions, in any order, each with its counter update, up to the first that fails. */
    method UnassignAll(tenantId: Id, ids: set<Id>, fates: Id -> Fate) returns (failed: Option<Id>, ghost gone: set<Id>)
      requires forall id :: id in ids ==>
                 id in extensions && extensions[id].tenantId == Some(tenantId) && extensions[id].userId.Some?
      modifies this`extensions, this`tenants
      ensures if failed == None then gone == ids
              else gone <= ids && failed.value in ids - gone && fates(failed.value) != Counted
      ensures var s := AfterUnassigning(old(State()), tenantId, gone);
              State() == if failed == None then s
                         else UnassignUntil(s, Some(tenantId), failed.value, fates(failed.value)).0
    {
      var left := ids;
      ghost var before := State();
      gone := {};
      UnassignedNone(before, tenantId);
      while left != {}
        invariant left == ids - gone && gone <= ids
        invariant State() == AfterUnassigning(before, tenantId, gone)
        decreases |left|
      {
        var id :| id in left;
        UnassignNext(before, tenantId, gone, id, fates(id));
        var result := UnassignExtension(Some(tenantId), id, fates(id));
        if result.Err? {
          return Some(id), gone;
        }
        left, gone := left - {id}, gone + {id};
      }
      return None, gone;
    }

    /** While extensions belong to their users' tenants an unassignment inside the loop fails only before its
        counters; then the user stays, with the extensions not yet unassigned. */
    method DeleteTenantUser(tenantId: Option<Id>, userId: Id, fates: Id -> Fate)
      returns (result: Result<int, T.Error>, ghost gone: set<Id>, ghost failed: Option<Id>)
      requires AllShaped(extensions) && UsersAgree(extensions, users)
      modifies this
      ensures failed == None ==> (State(), result) == T.DeleteTenantUser(old(State()), tenantId, userId)
      ensures failed.Some? ==>
                && tenantId.Some? && failed.value in ExtensionsOf(old(extensions), userId)
                && gone <= ExtensionsOf(old(extensions), userId) && result == Err(Interrupted)
                && var s := AfterUnassigning(old(State()), tenantId.value, gone);
                   State() == UnassignUntil(s, tenantId, failed.value, fates(failed.value)).0
    {
      gone, failed := {}, None;
      if tenantId == None {
        return Err(Forbidden), gone, failed;
      }
      if userId !in users || users[userId].tenantId != tenantId.value {
        return Err(NotFound), gone, failed;
      }
      var ids := ExtensionsOf(extensions, userId);
      var stopped;
      stopped, gone := UnassignAll(tenantId.value, ids, fates);
      if stopped.Some? {
        return Err(Interrupted), gone, stopped;
      }
      users := users - {userId};
      return Ok(|ids|), gone, None;
    }
  }

  /** The store once the given extensions are unassigned and counted. */
  ghost function AfterUnassigning(s: Store, tenantId: Id, gone: set<Id>): Store {
    s.(extensions := UnassignRows(s.extensions, gone), tenants := Adjust(s.tenants, tenantId, |gone|, -|gone|))
  }

  lemma UnassignedNone(s: Store, tenantId: Id)
    ensures AfterUnassigning(s, tenantId, {}) == s
  {
    assert UnassignRows(s.extensions, {}) == s.extensions;
    assert Adjust(s.tenants, tenantId, 0, 0) == s.tenants;
  }

  /** One more unassignment. */
  lemma UnassignNext(s: Store, tenantId: Id, gone: set<Id>, id: Id, fate: Fate)
    requires id in s.extensions && id !in gone && s.extensions[id].tenantId == Some(tenantId)
             && s.extensions[id].userId.Some?
    ensures var (s', result) := UnassignUntil(AfterUnassigning(s, tenantId, gone), Some(tenantId), id, fate);
            && (result.Ok? <==> fate == Counted)
            && (fate == Counted ==> s' == AfterUnassigning(s, tenantId, gone + {id}))
  {
    assert UnassignRows(s.extensions, gone)[id := Unassigned(s.extensions[id])]
           == UnassignRows(s.extensions, gone + {id});
    assert Adjust(Adjust(s.tenants, tenantId, |gone|, -|gone|), tenantId, 1, -1)
           == Adjust(s.tenants, tenantId, |gone| + 1, -|gone| - 1);
  }

  /** One more pick at the end. */
  lemma {:induction false} ReserveAllAppend(s: Store, tenantId: Id, picks: seq<Id>, id: Id)
    requires Picks(s, tenantId, picks) && IsLowestAvailable(ReserveAll(s, tenantId, picks).extensions, id)
    ensures Picks(s, tenantId, picks + [id])
    ensures ReserveAll(s, tenantId, picks + [id]) == ReserveOne(ReserveAll(s, tenantId, picks), tenantId, id)
    decreases |picks|
  {
    if picks == [] {
      assert (picks + [id])[1..] == [];
    } else {
      assert (picks + [id])[1..] == picks[1..] + [id];
      ReserveAllAppend(ReserveOne(s, tenantId, picks[0]), tenantId, picks[1..], id);
    }
  }
}
