/** Counters are adjusted after the rows, by writes of their own: what happens to them when an operation
    fails in between. */
module TenantCounting {
  import opened Prelude
  import opened TenantExtensions
  import TrunkIds

  // ---------- Failing between rows and counters ----------

  /** Once the rows have changed, an operation goes on to adjust both counters, or fails between the two, or
      before them. */
  datatype Fate = Counted | HalfCounted | Uncounted

  /** The deltas that reach the counters. */
  function Reaching(fate: Fate, reservedDelta: int, assignedDelta: int): Counters {
    match fate
    case Counted => Counters(reservedDelta, assignedDelta)
    case HalfCounted => Counters(reservedDelta, 0)
    case Uncounted => Counters(0, 0)
  }

  /** The reserved counter first, then the assigned one. */
  function AdjustUntil(tenants: map<Id, Counters>, tenantId: Id, reservedDelta: int, assignedDelta: int, fate: Fate):
      map<Id, Counters> {
    var d := Reaching(fate, reservedDelta, assignedDelta);
    Adjust(tenants, tenantId, d.reservedExtensionCount, d.assignedExtensionCount)
  }

  /** Without a delta for the assigned counter there is nothing left to miss after the first increment. */
  predicate Complete(fate: Fate, assignedDelta: int) {
    fate == Counted || (fate == HalfCounted && assignedDelta == 0)
  }

  /** A successful operation on s, as far as its counters are adjusted. */
  function Until(s: Store, done: (Store, Result<int, Error>), tenantId: Id, reservedDelta: int, assignedDelta: int,
                 fate: Fate): (Store, Result<int, Error>) {
    if done.1.Err? then done
    else (done.0.(tenants := AdjustUntil(s.tenants, tenantId, reservedDelta, assignedDelta, fate)),
          if Complete(fate, assignedDelta) then done.1 else Err(Interrupted))
  }

  // ---------- Caller ids ----------

  const CALLERID_WIDTH := 100

  /** The `callerid` of an endpoint: the name, or "Extension n", and the number. */
  function CallerId(name: string, number: nat): string {
    (if name == "" then "Extension " + TrunkIds.Decimal(number) else name) + " <" + TrunkIds.Decimal(number) + ">"
  }

  /** Asterisk's column takes 100 characters; a name may have 255. */
  predicate CallerIdsFit(s: Store, tenantId: Id, ids: seq<Id>, name: string) {
    forall id :: id in FoundFor(s.extensions, tenantId, ids) ==>
      |CallerId(name, s.extensions[id].number)| <= CALLERID_WIDTH
  }

  /** Assigned rows are committed; then each extension is provisioned, which fails for a caller id that does
      not fit; then the counters are adjusted. */
  function AssignFate(s: Store, tenantId: Id, ids: seq<Id>, name: string, fate: Fate): Fate {
    if CallerIdsFit(s, tenantId, ids, name) then fate else Uncounted
  }

  // ---------- The operations ----------

  function CreateUntil(s: Store, tenantId: Option<Id>, userId: Id, name: string, ids: seq<Id>, fate: Fate):
      (Store, Result<int, Error>) {
    var done := CreateTenantUser(s, tenantId, userId, name, ids);
    if tenantId == None then done
    else Until(s, done, tenantId.value, -|ids|, |ids|, AssignFate(s, tenantId.value, ids, name, fate))
  }

  function AssignUntil(s: Store, tenantId: Option<Id>, userId: Id, ids: seq<Id>, fate: Fate):
      (Store, Result<int, Error>) {
    var done := AssignExtensionsToUser(s, tenantId, userId, ids);
    if done.1.Err? then done
    else Until(s, done, tenantId.value, -|ids|, |ids|, AssignFate(s, tenantId.value, ids, s.users[userId].name, fate))
  }

  function UnassignUntil(s: Store, tenantId: Option<Id>, id: Id, fate: Fate): (Store, Result<int, Error>) {
    var done := Unassign(s, tenantId, id);
    if done.1.Err? then done else Until(s, done, tenantId.value, 1, -1, fate)
  }

  function UnregisterUntil(s: Store, tenantId: Option<Id>, id: Id, fate: Fate): (Store, Result<int, Error>) {
    var done := Unregister(s, tenantId, id);
    if done.1.Err? then done else Until(s, done, tenantId.value, -1, 0, fate)
  }

  function ReserveUntil(s: Store, tenantId: Id, id: Id, fate: Fate): Store
    requires id in s.extensions
  {
    ReserveOne(s, tenantId, id).(tenants := AdjustUntil(s.tenants, tenantId, 1, 0, fate))
  }

  /** The bulk job stops at the first round it cannot count. */
  ghost function BulkUntil(s: Store, tenantId: Id, picks: seq<Id>, fate: Fate): Store
    requires Picks(s, tenantId, picks)
    decreases |picks|
  {
    if picks == [] then s
    else if |picks| == 1 then ReserveUntil(s, tenantId, picks[0], fate)
    else BulkUntil(ReserveOne(s, tenantId, picks[0]), tenantId, picks[1..], fate)
  }

  /** A deletion that is interrupted is the run of the unassignments it got to. */
  ghost function ApplyUntil(s: Store, op: Op, fate: Fate): Store
    requires Plausible(s, op)
  {
    match op
    case BulkReserve(t, picks) => BulkUntil(s, t, picks, fate)
    case CreateUser(t, userId, name, ids) => CreateUntil(s, t, userId, name, ids, fate).0
    case AssignToUser(t, userId, ids) => AssignUntil(s, t, userId, ids, fate).0
    case UnassignOne(t, id) => UnassignUntil(s, t, id, fate).0
    case UnregisterOne(t, id) => UnregisterUntil(s, t, id, fate).0
    case _ => Apply(s, op)
  }

  /** One more round. */
  lemma {:induction false} BulkUntilAppend(s: Store, tenantId: Id, picks: seq<Id>, id: Id, fate: Fate)
    requires Picks(s, tenantId, picks) && IsLowestAvailable(ReserveAll(s, tenantId, picks).extensions, id)
    ensures Picks(s, tenantId, picks + [id])
    ensures BulkUntil(s, tenantId, picks + [id], fate)
            == ReserveUntil(ReserveAll(s, tenantId, picks), tenantId, id, fate)
    decreases |picks|
  {
    if picks == [] {
      assert [] + [id] == [id] && [id][1..] == [];
    } else {
      assert (picks + [id])[1..] == picks[1..] + [id];
      BulkUntilAppend(ReserveOne(s, tenantId, picks[0]), tenantId, picks[1..], id, fate);
    }
  }

  lemma {:induction false} CountedBulk(s: Store, tenantId: Id, picks: seq<Id>)
    requires Picks(s, tenantId, picks)
    ensures BulkUntil(s, tenantId, picks, Counted) == ReserveAll(s, tenantId, picks)
    decreases |picks|
  {
    if picks != [] { CountedBulk(ReserveOne(s, tenantId, picks[0]), tenantId, picks[1..]); }
  }

  // ---------- What the counters miss ----------

  function Plus(a: Counters, b: Counters): Counters {
    Counters(a.reservedExtensionCount + b.reservedExtensionCount, a.assignedExtensionCount + b.assignedExtensionCount)
  }

  /** The deltas that do not reach the counters. */
  function Missed(fate: Fate, reservedDelta: int, assignedDelta: int): Counters {
    var d := Reaching(fate, reservedDelta, assignedDelta);
    Counters(reservedDelta - d.reservedExtensionCount, assignedDelta - d.assignedExtensionCount)
  }

  /** Whose counters an operation adjusts last, by what, and how far it gets. */
  datatype Adjustment = Nothing | Adjustment(tenantId: Id, reservedDelta: int, assignedDelta: int, fate: Fate)

  ghost function LastAdjustment(s: Store, op: Op, fate: Fate): Adjustment {
    match op
    case BulkReserve(t, picks) => if picks == [] then Nothing else Adjustment(t, 1, 0, fate)
    case CreateUser(t, userId, name, ids) =>
      if CreateTenantUser(s, t, userId, name, ids).1.Err? then Nothing
      else Adjustment(t.value, -|ids|, |ids|, AssignFate(s, t.value, ids, name, fate))
    case AssignToUser(t, userId, ids) =>
      if AssignExtensionsToUser(s, t, userId, ids).1.Err? then Nothing
      else Adjustment(t.value, -|ids|, |ids|, AssignFate(s, t.value, ids, s.users[userId].name, fate))
    case UnassignOne(t, id) => if Unassign(s, t, id).1.Err? then Nothing else Adjustment(t.value, 1, -1, fate)
    case UnregisterOne(t, id) => if Unregister(s, t, id).1.Err? then Nothing else Adjustment(t.value, -1, 0, fate)
    case _ => Nothing
  }

  /** What each tenant's counters miss so far. */
  ghost function Owing(owed: map<Id, Counters>, s: Store, op: Op, fate: Fate): map<Id, Counters> {
    if op.AddTenant? then owed[op.id := Counters(0, 0)] else Owe(owed, LastAdjustment(s, op, fate))
  }

  function Owe(owed: map<Id, Counters>, a: Adjustment): map<Id, Counters> {
    if a == Nothing then owed
    else
      var m := Missed(a.fate, a.reservedDelta, a.assignedDelta);
      Adjust(owed, a.tenantId, m.reservedExtensionCount, m.assignedExtensionCount)
  }

  function Sum(tenants: map<Id, Counters>, owed: map<Id, Counters>): map<Id, Counters>
    requires owed.Keys == tenants.Keys
  {
    map t | t in tenants :: Plus(tenants[t], owed[t])
  }

  /** The store as it would be if everything had been counted. */
  ghost function Settled(s: Store, owed: map<Id, Counters>): Store
    requires owed.Keys == s.tenants.Keys
  {
    s.(tenants := Sum(s.tenants, owed))
  }

  lemma SumAdjusts(tenants: map<Id, Counters>, owed: map<Id, Counters>, a: Adjustment)
    requires owed.Keys == tenants.Keys && a.Adjustment?
    ensures var tenants' := AdjustUntil(tenants, a.tenantId, a.reservedDelta, a.assignedDelta, a.fate);
            && Owe(owed, a).Keys == tenants'.Keys
            && Sum(tenants', Owe(owed, a)) == Adjust(Sum(tenants, owed), a.tenantId, a.reservedDelta, a.assignedDelta)
  {
  }

  // ---------- Simulation by the counted operations ----------

  /** Whether and what an assignment changes does not depend on the counters. */
  lemma AssignIgnoresCounters(s: Store, tenants: map<Id, Counters>, tenantId: Id, userId: Id, name: string,
                              ids: seq<Id>)
    ensures var done := Assign(s, tenantId, userId, name, ids);
            var done' := Assign(s.(tenants := tenants), tenantId, userId, name, ids);
            && done'.1 == done.1
            && done'.0 == done.0.(tenants := if done.1.Err? then tenants
                                             else Adjust(tenants, tenantId, -|ids|, |ids|))
  {
  }

  lemma AssignSettles(s: Store, owed: map<Id, Counters>, tenantId: Id, userId: Id, name: string, ids: seq<Id>,
                      fate: Fate) returns (done: Store, owed': map<Id, Counters>)
    requires owed.Keys == s.tenants.Keys && Assign(s, tenantId, userId, name, ids).1.Ok?
    ensures done == Until(s, Assign(s, tenantId, userId, name, ids), tenantId, -|ids|, |ids|, fate).0
    ensures owed' == Owe(owed, Adjustment(tenantId, -|ids|, |ids|, fate))
    ensures owed'.Keys == done.tenants.Keys
    ensures Settled(done, owed') == Assign(Settled(s, owed), tenantId, userId, name, ids).0
  {
    var a := Adjustment(tenantId, -|ids|, |ids|, fate);
    done, owed' := Until(s, Assign(s, tenantId, userId, name, ids), tenantId, -|ids|, |ids|, fate).0, Owe(owed, a);
    AssignIgnoresCounters(s, Sum(s.tenants, owed), tenantId, userId, name, ids);
    UntilSettles(s, owed, Assign(s, tenantId, userId, name, ids).0, a);
  }

  lemma UnassignSettles(s: Store, owed: map<Id, Counters>, tenantId: Option<Id>, id: Id, fate: Fate)
    requires owed.Keys == s.tenants.Keys
    ensures var done, s' := Unassign(s, tenantId, id), UnassignUntil(s, tenantId, id, fate).0;
            var owed' := if done.1.Err? then owed else Owe(owed, Adjustment(tenantId.value, 1, -1, fate));
            owed'.Keys == s'.tenants.Keys && Settled(s', owed') == Unassign(Settled(s, owed), tenantId, id).0
  {
    UnassignIgnoresCounters(s, Sum(s.tenants, owed), tenantId, id);
    if Unassign(s, tenantId, id).1.Ok? {
      UntilSettles(s, owed, Unassign(s, tenantId, id).0, Adjustment(tenantId.value, 1, -1, fate));
    }
  }

  lemma UnassignIgnoresCounters(s: Store, tenants: map<Id, Counters>, tenantId: Option<Id>, id: Id)
    ensures var done, done' := Unassign(s, tenantId, id), Unassign(s.(tenants := tenants), tenantId, id);
            && done'.1 == done.1
            && done'.0 == done.0.(tenants := if done.1.Err? then tenants else Adjust(tenants, tenantId.value, 1, -1))
  {
  }

  /** Rows as they are, counters as far as they are adjusted. */
  lemma UntilSettles(s: Store, owed: map<Id, Counters>, done: Store, a: Adjustment)
    requires owed.Keys == s.tenants.Keys && a.Adjustment?
    ensures var s' := done.(tenants := AdjustUntil(s.tenants, a.tenantId, a.reservedDelta, a.assignedDelta, a.fate));
            && Owe(owed, a).Keys == s'.tenants.Keys
            && Settled(s', Owe(owed, a))
               == done.(tenants := Adjust(Sum(s.tenants, owed), a.tenantId, a.reservedDelta, a.assignedDelta))
  {
    SumAdjusts(s.tenants, owed, a);
  }

  lemma UnregisterSettles(s: Store, owed: map<Id, Counters>, tenantId: Option<Id>, id: Id, fate: Fate)
    requires owed.Keys == s.tenants.Keys
    ensures var done, s' := Unregister(s, tenantId, id), UnregisterUntil(s, tenantId, id, fate).0;
            var owed' := if done.1.Err? then owed else Owe(owed, Adjustment(tenantId.value, -1, 0, fate));
            owed'.Keys == s'.tenants.Keys && Settled(s', owed') == Unregister(Settled(s, owed), tenantId, id).0
  {
    UnregisterIgnoresCounters(s, Sum(s.tenants, owed), tenantId, id);
    if Unregister(s, tenantId, id).1.Ok? {
      UntilSettles(s, owed, Unregister(s, tenantId, id).0, Adjustment(tenantId.value, -1, 0, fate));
    }
  }

  lemma UnregisterIgnoresCounters(s: Store, tenants: map<Id, Counters>, tenantId: Option<Id>, id: Id)
    ensures var done, done' := Unregister(s, tenantId, id), Unregister(s.(tenants := tenants), tenantId, id);
            && done'.1 == done.1
            && done'.0 == done.0.(tenants := if done.1.Err? then tenants else Adjust(tenants, tenantId.value, -1, 0))
  {
  }

  lemma ReserveSettles(s: Store, owed: map<Id, Counters>, tenantId: Id, id: Id, fate: Fate)
    requires owed.Keys == s.tenants.Keys && id in s.extensions
    ensures var s', owed' := ReserveUntil(s, tenantId, id, fate), Owe(owed, Adjustment(tenantId, 1, 0, fate));
            owed'.Keys == s'.tenants.Keys && Settled(s', owed') == ReserveOne(Settled(s, owed), tenantId, id)
  {
    SumAdjusts(s.tenants, owed, Adjustment(tenantId, 1, 0, fate));
  }

  lemma {:induction false} BulkSettles(s: Store, owed: map<Id, Counters>, tenantId: Id, picks: seq<Id>, fate: Fate)
    requires owed.Keys == s.tenants.Keys && Picks(s, tenantId, picks)
    ensures var s' := BulkUntil(s, tenantId, picks, fate);
            var owed' := if picks == [] then owed else Owe(owed, Adjustment(tenantId, 1, 0, fate));
            && owed'.Keys == s'.tenants.Keys && Picks(Settled(s, owed), tenantId, picks)
            && Settled(s', owed') == ReserveAll(Settled(s, owed), tenantId, picks)
    decreases |picks|
  {
    if picks != [] {
      ReserveSettles(s, owed, tenantId, picks[0], Counted);
      CountedOwesNothing(s, owed, tenantId, picks[0]);
      BulkSettles(ReserveOne(s, tenantId, picks[0]), owed, tenantId, picks[1..], fate);
      if |picks| == 1 { ReserveSettles(s, owed, tenantId, picks[0], fate); }
    }
  }

  lemma CountedOwesNothing(s: Store, owed: map<Id, Counters>, tenantId: Id, id: Id)
    requires owed.Keys == s.tenants.Keys && id in s.extensions
    ensures ReserveUntil(s, tenantId, id, Counted) == ReserveOne(s, tenantId, id)
    ensures Owe(owed, Adjustment(tenantId, 1, 0, Counted)) == owed
  {
  }

  lemma DeleteIgnoresCounters(s: Store, tenants: map<Id, Counters>, tenantId: Option<Id>, userId: Id)
    ensures var done, n := DeleteTenantUser(s, tenantId, userId), |ExtensionsOf(s.extensions, userId)|;
            var done' := DeleteTenantUser(s.(tenants := tenants), tenantId, userId);
            && done'.1 == done.1
            && done'.0 == done.0.(tenants := if done.1.Err? then tenants else Adjust(tenants, tenantId.value, n, -n))
  {
  }

  /** A deletion that completes has counted everything. */
  lemma DeleteSettles(s: Store, owed: map<Id, Counters>, tenantId: Option<Id>, userId: Id)
    requires owed.Keys == s.tenants.Keys
    ensures var s' := DeleteTenantUser(s, tenantId, userId).0;
            owed.Keys == s'.tenants.Keys && Settled(s', owed) == DeleteTenantUser(Settled(s, owed), tenantId, userId).0
  {
    DeleteIgnoresCounters(s, Sum(s.tenants, owed), tenantId, userId);
    if DeleteTenantUser(s, tenantId, userId).1.Ok? {
      var n := |ExtensionsOf(s.extensions, userId)|;
      SumAdjusted(s.tenants, owed, tenantId.value, n, -n);
    }
  }

  lemma SumAdjusted(tenants: map<Id, Counters>, owed: map<Id, Counters>, t: Id, reservedDelta: int, assignedDelta: int)
    requires owed.Keys == tenants.Keys
    ensures var tenants' := Adjust(tenants, t, reservedDelta, assignedDelta);
            && owed.Keys == tenants'.Keys
            && Sum(tenants', owed) == Adjust(Sum(tenants, owed), t, reservedDelta, assignedDelta)
  {
  }

  lemma AddTenantSettles(s: Store, owed: map<Id, Counters>, t: Id)
    requires owed.Keys == s.tenants.Keys
    ensures Sum(s.tenants[t := Counters(0, 0)], owed[t := Counters(0, 0)]) == Sum(s.tenants, owed)[t := Counters(0, 0)]
  {
  }

  // ---------- Every operation ----------

  /** Rows and users are in order, and every tenant's counters are the numbers of its reserved and assigned
      extensions less what they miss. */
  ghost predicate Accounted(s: Store, owed: map<Id, Counters>) {
    owed.Keys == s.tenants.Keys && Inv(Settled(s, owed))
  }

  lemma BulkAccounted(s: Store, owed: map<Id, Counters>, tenantId: Id, picks: seq<Id>, fate: Fate)
    requires Accounted(s, owed) && Picks(s, tenantId, picks)
    ensures Accounted(BulkUntil(s, tenantId, picks, fate),
                      if picks == [] then owed else Owe(owed, Adjustment(tenantId, 1, 0, fate)))
  {
    BulkSettles(s, owed, tenantId, picks, fate);
    ReserveAllKeepsInv(Settled(s, owed), tenantId, picks);
  }

  lemma AssignAccounted(s: Store, owed: map<Id, Counters>, tenantId: Id, userId: Id, name: string, ids: seq<Id>,
                        fate: Fate) returns (done: Store, owed': map<Id, Counters>)
    requires Accounted(s, owed) && userId in s.users && s.users[userId].tenantId == tenantId
    requires Assign(s, tenantId, userId, name, ids).1.Ok?
    ensures done == Until(s, Assign(s, tenantId, userId, name, ids), tenantId, -|ids|, |ids|, fate).0
    ensures owed' == Owe(owed, Adjustment(tenantId, -|ids|, |ids|, fate))
    ensures Accounted(done, owed')
  {
    done, owed' := AssignSettles(s, owed, tenantId, userId, name, ids, fate);
    AssignKeepsInv(Settled(s, owed), tenantId, userId, name, ids);
  }

  lemma CreateAccounted(s: Store, owed: map<Id, Counters>, tenantId: Option<Id>, userId: Id, name: string, ids: seq<Id>,
                        fate: Fate) returns (s': Store, owed': map<Id, Counters>)
    requires Accounted(s, owed) && userId !in s.users
    ensures s' == CreateUntil(s, tenantId, userId, name, ids, fate).0
    ensures owed' == Owing(owed, s, CreateUser(tenantId, userId, name, ids), fate)
    ensures Accounted(s', owed')
  {
    s', owed' := s, owed;
    if tenantId.Some? {
      CreateStores(s, owed, tenantId.value, userId, name, ids, fate);
      s' := UserAccounted(s, owed, tenantId.value, userId, name);
      if Assign(s', tenantId.value, userId, name, ids).1.Ok? {
        s', owed' := AssignAccounted(s', owed, tenantId.value, userId, name, ids,
                                     AssignFate(s, tenantId.value, ids, name, fate));
      }
    }
  }

  /** Creating a user is storing the user and assigning. */
  lemma CreateStores(s: Store, owed: map<Id, Counters>, tenantId: Id, userId: Id, name: string, ids: seq<Id>,
                     fate: Fate)
    ensures var s1 := s.(users := s.users[userId := User(tenantId, name)]);
            var done, reached := Assign(s1, tenantId, userId, name, ids), AssignFate(s, tenantId, ids, name, fate);
            && CreateUntil(s, Some(tenantId), userId, name, ids, fate).0
               == Until(s1, done, tenantId, -|ids|, |ids|, reached).0
            && Owing(owed, s, CreateUser(Some(tenantId), userId, name, ids), fate)
               == if done.1.Err? then owed else Owe(owed, Adjustment(tenantId, -|ids|, |ids|, reached))
  {
  }

  lemma AssignStores(s: Store, owed: map<Id, Counters>, tenantId: Id, userId: Id, ids: seq<Id>, fate: Fate)
    requires userId in s.users && s.users[userId].tenantId == tenantId
    ensures var name := s.users[userId].name;
            var done, reached := Assign(s, tenantId, userId, name, ids), AssignFate(s, tenantId, ids, name, fate);
            && AssignUntil(s, Some(tenantId), userId, ids, fate).0
               == Until(s, done, tenantId, -|ids|, |ids|, reached).0
            && Owing(owed, s, AssignToUser(Some(tenantId), userId, ids), fate)
               == if done.1.Err? then owed else Owe(owed, Adjustment(tenantId, -|ids|, |ids|, reached))
  {
  }

  lemma UserAccounted(s: Store, owed: map<Id, Counters>, tenantId: Id, userId: Id, name: string) returns (s': Store)
    requires Accounted(s, owed) && userId !in s.users
    ensures s' == s.(users := s.users[userId := User(tenantId, name)]) && Accounted(s', owed)
  {
    s' := s.(users := s.users[userId := User(tenantId, name)]);
  }

  lemma AssignToUserAccounted(s: Store, owed: map<Id, Counters>, tenantId: Option<Id>, userId: Id, ids: seq<Id>,
                              fate: Fate) returns (s': Store, owed': map<Id, Counters>)
    requires Accounted(s, owed)
    ensures s' == AssignUntil(s, tenantId, userId, ids, fate).0
    ensures owed' == Owing(owed, s, AssignToUser(tenantId, userId, ids), fate)
    ensures Accounted(s', owed')
  {
    s', owed' := s, owed;
    if tenantId.Some? && userId in s.users && s.users[userId].tenantId == tenantId.value {
      var name := s.users[userId].name;
      AssignStores(s, owed, tenantId.value, userId, ids, fate);
      if Assign(s, tenantId.value, userId, name, ids).1.Ok? {
        s', owed' := AssignAccounted(s, owed, tenantId.value, userId, name, ids,
                                     AssignFate(s, tenantId.value, ids, name, fate));
      }
    }
  }

  lemma UnassignAccounted(s: Store, owed: map<Id, Counters>, tenantId: Option<Id>, id: Id, fate: Fate)
    returns (owed': map<Id, Counters>)
    requires Accounted(s, owed)
    ensures owed' == Owing(owed, s, UnassignOne(tenantId, id), fate)
    ensures Accounted(UnassignUntil(s, tenantId, id, fate).0, owed')
  {
    owed' := Owing(owed, s, UnassignOne(tenantId, id), fate);
    UnassignSettles(s, owed, tenantId, id, fate);
    UnassignKeepsInv(Settled(s, owed), tenantId, id);
  }

  lemma UnregisterAccounted(s: Store, owed: map<Id, Counters>, tenantId: Option<Id>, id: Id, fate: Fate)
    returns (owed': map<Id, Counters>)
    requires Accounted(s, owed)
    ensures owed' == Owing(owed, s, UnregisterOne(tenantId, id), fate)
    ensures Accounted(UnregisterUntil(s, tenantId, id, fate).0, owed')
  {
    owed' := Owing(owed, s, UnregisterOne(tenantId, id), fate);
    UnregisterSettles(s, owed, tenantId, id, fate);
    UnregisterKeepsInv(Settled(s, owed), tenantId, id);
  }

  lemma DeleteAccounted(s: Store, owed: map<Id, Counters>, tenantId: Option<Id>, userId: Id)
    requires Accounted(s, owed)
    ensures Accounted(DeleteTenantUser(s, tenantId, userId).0, owed)
  {
    DeleteSettles(s, owed, tenantId, userId);
    DeleteUserKeepsInv(Settled(s, owed), tenantId, userId);
  }

  lemma AddTenantAccounted(s: Store, owed: map<Id, Counters>, t: Id)
    requires Accounted(s, owed) && Plausible(s, AddTenant(t))
    ensures Accounted(s.(tenants := s.tenants[t := Counters(0, 0)]), owed[t := Counters(0, 0)])
  {
    AddTenantSettles(s, owed, t);
    ApplyKeepsInv(Settled(s, owed), AddTenant(t));
  }

  lemma NewRowAccounted(s: Store, owed: map<Id, Counters>, id: Id, number: nat, callerIdName: Option<string>)
    requires Accounted(s, owed) && id !in s.extensions
    ensures Accounted(Apply(s, CreatePoolExtension(id, number, callerIdName)), owed)
  {
    NewRowKeepsInv(Settled(s, owed), id, number, callerIdName);
  }

  lemma OpAccounted(s: Store, owed: map<Id, Counters>, op: Op, fate: Fate)
    requires Accounted(s, owed) && Plausible(s, op)
    ensures Accounted(ApplyUntil(s, op, fate), Owing(owed, s, op, fate))
  {
    match op
    case BulkReserve(t, picks) => BulkAccounted(s, owed, t, picks, fate);
    case CreateUser(t, userId, name, ids) => var _, owed' := CreateAccounted(s, owed, t, userId, name, ids, fate);
    case AssignToUser(t, userId, ids) => var _, owed' := AssignToUserAccounted(s, owed, t, userId, ids, fate);
    case UnassignOne(t, id) => var owed' := UnassignAccounted(s, owed, t, id, fate);
    case UnregisterOne(t, id) => var owed' := UnregisterAccounted(s, owed, t, id, fate);
    case DeleteUser(t, userId) => DeleteAccounted(s, owed, t, userId);
    case AddTenant(t) => AddTenantAccounted(s, owed, t);
    case CreatePoolExtension(id, number, callerIdName) => NewRowAccounted(s, owed, id, number, callerIdName);
  }

  // ---------- Runs ----------

  datatype Job = Job(op: Op, fate: Fate)

  ghost predicate PlausibleJobs(s: Store, jobs: seq<Job>)
    decreases |jobs|
  {
    jobs != [] ==> Plausible(s, jobs[0].op) && PlausibleJobs(ApplyUntil(s, jobs[0].op, jobs[0].fate), jobs[1..])
  }

  ghost function RunUntil(s: Store, jobs: seq<Job>): Store
    requires PlausibleJobs(s, jobs)
    decreases |jobs|
  {
    if jobs == [] then s else RunUntil(ApplyUntil(s, jobs[0].op, jobs[0].fate), jobs[1..])
  }

  ghost function OwingAll(owed: map<Id, Counters>, s: Store, jobs: seq<Job>): map<Id, Counters>
    requires PlausibleJobs(s, jobs)
    decreases |jobs|
  {
    if jobs == [] then owed
    else OwingAll(Owing(owed, s, jobs[0].op, jobs[0].fate), ApplyUntil(s, jobs[0].op, jobs[0].fate), jobs[1..])
  }

  /** Main result: after any run, wherever its operations fail, rows and users are in order and each tenant's
      counters are off by exactly the deltas they missed. */
  lemma {:induction false} RunsAccounted(s: Store, owed: map<Id, Counters>, jobs: seq<Job>)
    requires Accounted(s, owed) && PlausibleJobs(s, jobs)
    ensures Accounted(RunUntil(s, jobs), OwingAll(owed, s, jobs))
    decreases |jobs|
  {
    if jobs != [] {
      OpAccounted(s, owed, jobs[0].op, jobs[0].fate);
      RunsAccounted(ApplyUntil(s, jobs[0].op, jobs[0].fate), Owing(owed, s, jobs[0].op, jobs[0].fate), jobs[1..]);
    }
  }

  /** The tenant's counters are the numbers of its reserved and assigned extensions. */
  ghost predicate Exact(s: Store, t: Id) {
    t in s.tenants && s.tenants[t] == Counters(|Having(s.extensions, t, Reserved)|, |Having(s.extensions, t, Assigned)|)
  }

  /** So they are exact iff what they missed adds up to nothing. */
  lemma ExactIff(s: Store, owed: map<Id, Counters>, t: Id)
    requires Accounted(s, owed) && t in s.tenants
    ensures Exact(s, t) <==> owed[t] == Counters(0, 0)
  {
    assert Settled(s, owed).tenants[t] == Plus(s.tenants[t], owed[t]);
  }

  lemma ExactRunIff(s: Store, jobs: seq<Job>, t: Id)
    requires Inv(s) && PlausibleJobs(s, jobs) && t in RunUntil(s, jobs).tenants
    ensures var none := map u | u in s.tenants :: Counters(0, 0);
            t in OwingAll(none, s, jobs)
            && (Exact(RunUntil(s, jobs), t) <==> OwingAll(none, s, jobs)[t] == Counters(0, 0))
  {
    var none := map u | u in s.tenants :: Counters(0, 0);
    NothingOwed(s);
    RunsAccounted(s, none, jobs);
    ExactIff(RunUntil(s, jobs), OwingAll(none, s, jobs), t);
  }

  lemma NothingOwed(s: Store)
    requires Inv(s)
    ensures Accounted(s, map u | u in s.tenants :: Counters(0, 0))
  {
    assert Sum(s.tenants, map u | u in s.tenants :: Counters(0, 0)) == s.tenants;
  }

  // ---------- Assignments and long names ----------

  /** An accepted assignment leaves exact counters exact iff both are adjusted, for which every caller id must
      fit: a name of at most 97 characters less the digits of the number. */
  lemma AssignExactIff(s: Store, tenantId: Id, userId: Id, ids: seq<Id>, fate: Fate)
    requires Inv(s) && tenantId in s.tenants && ids != []
    requires AssignExtensionsToUser(s, Some(tenantId), userId, ids).1.Ok?
    ensures userId in s.users
            && (Exact(AssignUntil(s, Some(tenantId), userId, ids, fate).0, tenantId)
                <==> fate == Counted && CallerIdsFit(s, tenantId, ids, s.users[userId].name))
  {
    var name, none := s.users[userId].name, map u | u in s.tenants :: Counters(0, 0);
    NothingOwed(s);
    AssignStores(s, none, tenantId, userId, ids, fate);
    var s' := AssignedExactIff(s, none, tenantId, userId, name, ids, AssignFate(s, tenantId, ids, name, fate));
  }

  lemma AssignedExactIff(s: Store, none: map<Id, Counters>, tenantId: Id, userId: Id, name: string, ids: seq<Id>,
                         fate: Fate) returns (s': Store)
    requires Accounted(s, none) && tenantId in none && none[tenantId] == Counters(0, 0) && ids != []
    requires userId in s.users && s.users[userId].tenantId == tenantId
    requires Assign(s, tenantId, userId, name, ids).1.Ok?
    ensures s' == Until(s, Assign(s, tenantId, userId, name, ids), tenantId, -|ids|, |ids|, fate).0
    ensures Exact(s', tenantId) <==> fate == Counted
  {
    var owed';
    s', owed' := AssignAccounted(s, none, tenantId, userId, name, ids, fate);
    ExactAfter(s', owed', none, tenantId, |ids|, fate);
  }

  lemma ExactAfter(s: Store, owed: map<Id, Counters>, none: map<Id, Counters>, tenantId: Id, n: int, fate: Fate)
    requires tenantId in none && none[tenantId] == Counters(0, 0) && n > 0
    requires owed == Owe(none, Adjustment(tenantId, -n, n, fate)) && Accounted(s, owed)
    ensures Exact(s, tenantId) <==> fate == Counted
  {
    ExactIff(s, owed, tenantId);
  }

  /** A user whose name has more than 96 characters is created and gets its extensions, but the request fails
      and the counters go on counting them as reserved. */
  lemma LongNameIsNotCounted(s: Store, tenantId: Id, userId: Id, name: string, ids: seq<Id>)
    requires tenantId in s.tenants && |name| > 96 && ids != []
    requires CreateTenantUser(s, Some(tenantId), userId, name, ids).1.Ok?
    ensures var (s', result) := CreateUntil(s, Some(tenantId), userId, name, ids, Counted);
            && result == Err(Interrupted) && userId in s'.users && s'.tenants == s.tenants
            && forall id :: id in ids ==> id in s'.extensions && s'.extensions[id].userId == Some(userId)
                                          && s'.extensions[id].status == Assigned
  {
    var found := FoundFor(s.extensions, tenantId, ids);
    AllNamed(ids, found);
    assert ids[0] in found && |CallerId(name, s.extensions[ids[0]].number)| > CALLERID_WIDTH;
  }

  /** As many rows as ids: every id has its row. */
  lemma AllNamed(ids: seq<Id>, found: set<Id>)
    requires (forall id :: id in found ==> id in ids) && |found| == |ids|
    ensures forall id :: id in ids ==> id in found
  {
    var named := set id | id in ids;
    ElementCount(ids, named);
    if exists id :: id in ids && id !in found {
      var id :| id in ids && id !in found;
      SubsetSize(found + {id}, named);
    }
  }
}
