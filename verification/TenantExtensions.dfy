/** Extensions of the pool as they are reserved for tenants and assigned to users, and the two
    counters each tenant keeps about them, when every change of rows is counted. */
module TenantExtensions {
  import opened Prelude

  type Id = string

  datatype Status = Available | Reserved | Assigned

  datatype Extension = Extension(number: nat, tenantId: Option<Id>, userId: Option<Id>, status: Status,
                                 userName: Option<string>, callerIdName: Option<string>)

  datatype Counters = Counters(reservedExtensionCount: int, assignedExtensionCount: int)

  datatype User = User(tenantId: Id, name: string)

  datatype Store = Store(extensions: map<Id, Extension>, tenants: map<Id, Counters>, users: map<Id, User>)

  datatype Error = Forbidden | NotFound | BadRequest | Interrupted

  /** `adjustExtensionStats`: no row, no effect. */
  function Adjust(tenants: map<Id, Counters>, tenantId: Id, reservedDelta: int, assignedDelta: int): map<Id, Counters> {
    if tenantId in tenants then
      tenants[tenantId := Counters(tenants[tenantId].reservedExtensionCount + reservedDelta,
                                   tenants[tenantId].assignedExtensionCount + assignedDelta)]
    else tenants
  }

  // ---------- Reserving ----------

  predicate InPool(e: Extension) {
    e.status == Available && e.tenantId == None
  }

  /** The row `ORDER BY number LIMIT 1` finds. */
  ghost predicate IsLowestAvailable(extensions: map<Id, Extension>, id: Id) {
    && id in extensions && InPool(extensions[id])
    && forall other :: other in extensions && InPool(extensions[other]) ==>
         extensions[id].number <= extensions[other].number
  }

  function ReserveOne(s: Store, tenantId: Id, id: Id): Store
    requires id in s.extensions
  {
    s.(extensions := s.extensions[id := s.extensions[id].(tenantId := Some(tenantId), status := Reserved)],
       tenants := Adjust(s.tenants, tenantId, 1, 0))
  }

  /** The picks of the bulk job, in order: each the lowest available number of its moment. */
  ghost predicate Picks(s: Store, tenantId: Id, picks: seq<Id>)
    decreases |picks|
  {
    picks != [] ==>
      IsLowestAvailable(s.extensions, picks[0]) && Picks(ReserveOne(s, tenantId, picks[0]), tenantId, picks[1..])
  }

  ghost function ReserveAll(s: Store, tenantId: Id, picks: seq<Id>): Store
    requires Picks(s, tenantId, picks)
    decreases |picks|
  {
    if picks == [] then s else ReserveAll(ReserveOne(s, tenantId, picks[0]), tenantId, picks[1..])
  }

  // ---------- Assigning and giving back ----------

  /** The rows among `ids` that belong to the tenant. */
  function FoundFor(extensions: map<Id, Extension>, tenantId: Id, ids: seq<Id>): (r: set<Id>)
    ensures forall id :: id in r <==> id in ids && id in extensions && extensions[id].tenantId == Some(tenantId)
  {
    set id | id in ids && id in extensions && extensions[id].tenantId == Some(tenantId)
  }

  predicate Assignable(e: Extension) {
    e.status == Reserved && e.userId == None
  }

  function AssignedTo(e: Extension, userId: Id, name: string): Extension {
    e.(userId := Some(userId), userName := Some(name), status := Assigned, callerIdName := Some(name))
  }

  function AssignRows(extensions: map<Id, Extension>, found: set<Id>, userId: Id, name: string): map<Id, Extension> {
    map id | id in extensions :: if id in found then AssignedTo(extensions[id], userId, name) else extensions[id]
  }

  /** All of the named extensions or none: each must be a reserved extension of the tenant, named once. */
  function Assign(s: Store, tenantId: Id, userId: Id, name: string, ids: seq<Id>): (Store, Result<int, Error>) {
    var found := FoundFor(s.extensions, tenantId, ids);
    if |found| != |ids| then (s, Err(NotFound))
    else if exists id :: id in found && !Assignable(s.extensions[id]) then (s, Err(BadRequest))
    else (s.(extensions := AssignRows(s.extensions, found, userId, name),
             tenants := Adjust(s.tenants, tenantId, -|ids|, |ids|)), Ok(|ids|))
  }

  function CreateTenantUser(s: Store, tenantId: Option<Id>, userId: Id, name: string, ids: seq<Id>):
      (Store, Result<int, Error>) {
    if tenantId == None then (s, Err(Forbidden))
    else Assign(s.(users := s.users[userId := User(tenantId.value, name)]), tenantId.value, userId, name, ids)
  }

  function AssignExtensionsToUser(s: Store, tenantId: Option<Id>, userId: Id, ids: seq<Id>):
      (Store, Result<int, Error>) {
    if tenantId == None then (s, Err(Forbidden))
    else if userId !in s.users || s.users[userId].tenantId != tenantId.value then (s, Err(NotFound))
    else Assign(s, tenantId.value, userId, s.users[userId].name, ids)
  }

  function Unassigned(e: Extension): Extension {
    e.(userId := None, userName := None, status := Reserved, callerIdName := None)
  }

  function Unassign(s: Store, tenantId: Option<Id>, id: Id): (Store, Result<int, Error>) {
    if tenantId == None then (s, Err(Forbidden))
    else if id !in s.extensions || s.extensions[id].tenantId != tenantId then (s, Err(NotFound))
    else if s.extensions[id].userId == None then (s, Err(BadRequest))
    else (s.(extensions := s.extensions[id := Unassigned(s.extensions[id])],
             tenants := Adjust(s.tenants, tenantId.value, 1, -1)), Ok(1))
  }

  function Unregister(s: Store, tenantId: Option<Id>, id: Id): (Store, Result<int, Error>) {
    if tenantId == None then (s, Err(Forbidden))
    else if id !in s.extensions || s.extensions[id].tenantId != tenantId then (s, Err(NotFound))
    else if s.extensions[id].userId.Some? then (s, Err(BadRequest))
    else (s.(extensions := s.extensions[id := s.extensions[id].(tenantId := None, status := Available)],
             tenants := Adjust(s.tenants, tenantId.value, -1, 0)), Ok(1))
  }

  function ExtensionsOf(extensions: map<Id, Extension>, userId: Id): set<Id> {
    set id | id in extensions && extensions[id].userId == Some(userId)
  }

  function UnassignRows(extensions: map<Id, Extension>, ids: set<Id>): map<Id, Extension> {
    map id | id in extensions :: if id in ids then Unassigned(extensions[id]) else extensions[id]
  }

  /** Deleting a user first unassigns each extension of the user, adjusting the counters one by one. */
  function DeleteTenantUser(s: Store, tenantId: Option<Id>, userId: Id): (Store, Result<int, Error>) {
    if tenantId == None then (s, Err(Forbidden))
    else if userId !in s.users || s.users[userId].tenantId != tenantId.value then (s, Err(NotFound))
    else
      var ids := ExtensionsOf(s.extensions, userId);
      (Store(UnassignRows(s.extensions, ids), Adjust(s.tenants, tenantId.value, |ids|, -|ids|), s.users - {userId}),
       Ok(|ids|))
  }

  // ---------- Invariant ----------

  /** Available without a tenant, reserved for a tenant, or assigned to a user of the tenant. */
  ghost predicate Shaped(e: Extension) {
    match e.status
    case Available => e.tenantId == None && e.userId == None
    case Reserved => e.tenantId.Some? && e.userId == None
    case Assigned => e.tenantId.Some? && e.userId.Some?
  }

  ghost function Having(extensions: map<Id, Extension>, tenantId: Id, status: Status): set<Id> {
    set id | id in extensions && extensions[id].tenantId == Some(tenantId) && extensions[id].status == status
  }

  ghost predicate AllShaped(extensions: map<Id, Extension>) {
    forall id :: id in extensions ==> Shaped(extensions[id])
  }

  ghost predicate CountersAgree(extensions: map<Id, Extension>, tenants: map<Id, Counters>) {
    forall t :: t in tenants ==>
      tenants[t] == Counters(|Having(extensions, t, Reserved)|, |Having(extensions, t, Assigned)|)
  }

  /** Extensions are assigned to existing users of the same tenant. */
  ghost predicate UsersAgree(extensions: map<Id, Extension>, users: map<Id, User>) {
    forall id :: id in extensions && extensions[id].userId.Some? ==>
      extensions[id].userId.value in users
      && extensions[id].tenantId == Some(users[extensions[id].userId.value].tenantId)
  }

  ghost predicate Inv(s: Store) {
    AllShaped(s.extensions) && CountersAgree(s.extensions, s.tenants) && UsersAgree(s.extensions, s.users)
  }

  /** What `ids`, all of one tenant and status, do to the counters when they change to another status
      of that tenant or leave it. */
  lemma Moved(extensions: map<Id, Extension>, extensions': map<Id, Extension>, tenants: map<Id, Counters>,
              tenantId: Id, ids: set<Id>, status: Status, status': Status)
    requires CountersAgree(extensions, tenants) && extensions'.Keys == extensions.Keys
    requires ids <= extensions.Keys && status != status'
    requires forall id :: id in extensions && id !in ids ==> extensions'[id] == extensions[id]
    requires forall id :: id in ids ==>
               (if status == Available then extensions[id].tenantId == None
                else extensions[id].tenantId == Some(tenantId) && extensions[id].status == status)
               && (if status' == Available then extensions'[id].tenantId == None
                   else extensions'[id].tenantId == Some(tenantId) && extensions'[id].status == status')
    ensures CountersAgree(extensions', Adjust(tenants, tenantId, Delta(Reserved, status, status', |ids|),
                                              Delta(Assigned, status, status', |ids|)))
  {
    forall t | t in tenants ensures
      && |Having(extensions', t, Reserved)|
         == |Having(extensions, t, Reserved)| + (if t == tenantId then Delta(Reserved, status, status', |ids|) else 0)
      && |Having(extensions', t, Assigned)|
         == |Having(extensions, t, Assigned)| + (if t == tenantId then Delta(Assigned, status, status', |ids|) else 0)
    {
      HavingMoved(extensions, extensions', tenantId, ids, status, status', t, Reserved);
      HavingMoved(extensions, extensions', tenantId, ids, status, status', t, Assigned);
    }
  }

  function Delta(counted: Status, status: Status, status': Status, n: nat): int {
    if counted == status then 0 - n else if counted == status' then n else 0
  }

  lemma HavingMoved(extensions: map<Id, Extension>, extensions': map<Id, Extension>, tenantId: Id, ids: set<Id>,
                    status: Status, status': Status, t: Id, counted: Status)
    requires extensions'.Keys == extensions.Keys && ids <= extensions.Keys && status != status' && counted != Available
    requires forall id :: id in extensions && id !in ids ==> extensions'[id] == extensions[id]
    requires forall id :: id in ids ==>
               (if status == Available then extensions[id].tenantId == None
                else extensions[id].tenantId == Some(tenantId) && extensions[id].status == status)
               && (if status' == Available then extensions'[id].tenantId == None
                   else extensions'[id].tenantId == Some(tenantId) && extensions'[id].status == status')
    ensures |Having(extensions', t, counted)| ==
            |Having(extensions, t, counted)| + (if t == tenantId then Delta(counted, status, status', |ids|) else 0)
  {
    var before, after := Having(extensions, t, counted), Having(extensions', t, counted);
    if t == tenantId && counted == status {
      assert before == after + ids && after !! ids;
    } else if t == tenantId && counted == status' {
      assert after == before + ids && before !! ids;
    } else {
      assert after == before;
    }
  }

  // ---------- Every operation keeps the invariant ----------

  lemma ReserveKeepsInv(s: Store, tenantId: Id, id: Id)
    requires Inv(s) && id in s.extensions && InPool(s.extensions[id])
    ensures Inv(ReserveOne(s, tenantId, id))
  {
    Moved(s.extensions, ReserveOne(s, tenantId, id).extensions, s.tenants, tenantId, {id}, Available, Reserved);
  }

  lemma {:induction false} ReserveAllKeepsInv(s: Store, tenantId: Id, picks: seq<Id>)
    requires Inv(s) && Picks(s, tenantId, picks)
    ensures Inv(ReserveAll(s, tenantId, picks))
    decreases |picks|
  {
    if picks != [] {
      ReserveKeepsInv(s, tenantId, picks[0]);
      ReserveAllKeepsInv(ReserveOne(s, tenantId, picks[0]), tenantId, picks[1..]);
    }
  }

  lemma AssignKeepsInv(s: Store, tenantId: Id, userId: Id, name: string, ids: seq<Id>)
    requires Inv(s) && userId in s.users && s.users[userId].tenantId == tenantId
    ensures Inv(Assign(s, tenantId, userId, name, ids).0)
  {
    var (s', result) := Assign(s, tenantId, userId, name, ids);
    if result.Ok? {
      Moved(s.extensions, s'.extensions, s.tenants, tenantId, FoundFor(s.extensions, tenantId, ids), Reserved,
            Assigned);
    }
  }

  lemma UnassignKeepsInv(s: Store, tenantId: Option<Id>, id: Id)
    requires Inv(s)
    ensures Inv(Unassign(s, tenantId, id).0)
  {
    var (s', result) := Unassign(s, tenantId, id);
    if result.Ok? { Moved(s.extensions, s'.extensions, s.tenants, tenantId.value, {id}, Assigned, Reserved); }
  }

  lemma UnregisterKeepsInv(s: Store, tenantId: Option<Id>, id: Id)
    requires Inv(s)
    ensures Inv(Unregister(s, tenantId, id).0)
  {
    var (s', result) := Unregister(s, tenantId, id);
    if result.Ok? { Moved(s.extensions, s'.extensions, s.tenants, tenantId.value, {id}, Reserved, Available); }
  }

  lemma DeleteUserKeepsInv(s: Store, tenantId: Option<Id>, userId: Id)
    requires Inv(s)
    ensures Inv(DeleteTenantUser(s, tenantId, userId).0)
    ensures DeleteTenantUser(s, tenantId, userId).1.Ok? ==>
              ExtensionsOf(DeleteTenantUser(s, tenantId, userId).0.extensions, userId) == {}
  {
    var (s', result) := DeleteTenantUser(s, tenantId, userId);
    if result.Ok? {
      Moved(s.extensions, s'.extensions, s.tenants, tenantId.value, ExtensionsOf(s.extensions, userId), Assigned,
            Reserved);
    }
  }

  // ---------- Runs ----------

  datatype Op =
    | CreatePoolExtension(id: Id, number: nat, callerIdName: Option<string>)
    | AddTenant(id: Id)
    | BulkReserve(tenantId: Id, picks: seq<Id>)
    | CreateUser(tenant: Option<Id>, userId: Id, name: string, ids: seq<Id>)
    | AssignToUser(tenant: Option<Id>, userId: Id, ids: seq<Id>)
    | UnassignOne(tenant: Option<Id>, id: Id)
    | UnregisterOne(tenant: Option<Id>, id: Id)
    | DeleteUser(tenant: Option<Id>, userId: Id)

  /** New rows get new ids, and the bulk job finds the lowest available numbers. */
  ghost predicate Plausible(s: Store, op: Op) {
    match op
    case CreatePoolExtension(id, _, _) => id !in s.extensions
    case AddTenant(t) => t !in s.tenants && forall id :: id in s.extensions ==> s.extensions[id].tenantId != Some(t)
    case BulkReserve(t, picks) => Picks(s, t, picks)
    case CreateUser(_, userId, _, _) => userId !in s.users
    case _ => true
  }

  ghost function Apply(s: Store, op: Op): Store
    requires Plausible(s, op)
  {
    match op
    case CreatePoolExtension(id, number, callerIdName) =>
      s.(extensions := s.extensions[id := Extension(number, None, None, Available, None, callerIdName)])
    case AddTenant(t) => s.(tenants := s.tenants[t := Counters(0, 0)])
    case BulkReserve(t, picks) => ReserveAll(s, t, picks)
    case CreateUser(t, userId, name, ids) => CreateTenantUser(s, t, userId, name, ids).0
    case AssignToUser(t, userId, ids) => AssignExtensionsToUser(s, t, userId, ids).0
    case UnassignOne(t, id) => Unassign(s, t, id).0
    case UnregisterOne(t, id) => Unregister(s, t, id).0
    case DeleteUser(t, userId) => DeleteTenantUser(s, t, userId).0
  }

  lemma ApplyKeepsInv(s: Store, op: Op)
    requires Inv(s) && Plausible(s, op)
    ensures Inv(Apply(s, op))
  {
    match op
    case CreatePoolExtension(id, number, callerIdName) => NewRowKeepsInv(s, id, number, callerIdName);
    case AddTenant(t) => assert Having(s.extensions, t, Reserved) == {} && Having(s.extensions, t, Assigned) == {};
    case BulkReserve(t, picks) => ReserveAllKeepsInv(s, t, picks);
    case CreateUser(t, userId, name, ids) => CreateUserKeepsInv(s, t, userId, name, ids);
    case AssignToUser(t, userId, ids) => AssignToUserKeepsInv(s, t, userId, ids);
    case UnassignOne(t, id) => UnassignKeepsInv(s, t, id);
    case UnregisterOne(t, id) => UnregisterKeepsInv(s, t, id);
    case DeleteUser(t, userId) => DeleteUserKeepsInv(s, t, userId);
  }

  lemma CreateUserKeepsInv(s: Store, tenantId: Option<Id>, userId: Id, name: string, ids: seq<Id>)
    requires Inv(s) && userId !in s.users
    ensures Inv(CreateTenantUser(s, tenantId, userId, name, ids).0)
  {
    if tenantId.Some? {
      AssignKeepsInv(s.(users := s.users[userId := User(tenantId.value, name)]), tenantId.value, userId, name, ids);
    }
  }

  lemma AssignToUserKeepsInv(s: Store, tenantId: Option<Id>, userId: Id, ids: seq<Id>)
    requires Inv(s)
    ensures Inv(AssignExtensionsToUser(s, tenantId, userId, ids).0)
  {
    if tenantId.Some? && userId in s.users && s.users[userId].tenantId == tenantId.value {
      AssignKeepsInv(s, tenantId.value, userId, s.users[userId].name, ids);
    }
  }

  lemma NewRowKeepsInv(s: Store, id: Id, number: nat, callerIdName: Option<string>)
    requires Inv(s) && id !in s.extensions
    ensures Inv(s.(extensions := s.extensions[id := Extension(number, None, None, Available, None, callerIdName)]))
  {
    var extensions' := s.extensions[id := Extension(number, None, None, Available, None, callerIdName)];
    forall t, status | t in s.tenants ensures Having(extensions', t, status) == Having(s.extensions, t, status) {
    }
  }

  ghost predicate PlausibleRun(s: Store, ops: seq<Op>)
    decreases |ops|
  {
    ops != [] ==> Plausible(s, ops[0]) && PlausibleRun(Apply(s, ops[0]), ops[1..])
  }

  ghost function ApplyAll(s: Store, ops: seq<Op>): Store
    requires PlausibleRun(s, ops)
    decreases |ops|
  {
    if ops == [] then s else ApplyAll(Apply(s, ops[0]), ops[1..])
  }

  /** After any run of operations, refused ones included, every extension has one of the three shapes and, as
      every change is counted here, every tenant's counters are the numbers of its reserved and assigned
      extensions. */
  lemma {:induction false} RunsKeepInv(s: Store, ops: seq<Op>)
    requires Inv(s) && PlausibleRun(s, ops)
    ensures Inv(ApplyAll(s, ops))
    decreases |ops|
  {
    if ops != [] {
      ApplyKeepsInv(s, ops[0]);
      RunsKeepInv(Apply(s, ops[0]), ops[1..]);
    }
  }

  /** Unregistering gives back exactly what reserving took. */
  lemma UnregisterUndoesReserve(s: Store, tenantId: Id, id: Id)
    requires Inv(s) && id in s.extensions && InPool(s.extensions[id])
    ensures Unregister(ReserveOne(s, tenantId, id), Some(tenantId), id) == (s, Ok(1))
  {
    var s' := Unregister(ReserveOne(s, tenantId, id), Some(tenantId), id).0;
    assert Shaped(s.extensions[id]);
    assert s'.extensions == s.extensions && s'.tenants == s.tenants;
  }
}
