/** Who rings next: the pure dial-set resolver of the inbound queue. */
module QueueStrategy {
  import opened Prelude

  type Id = string

  datatype Strategy = RingAll | RoundRobin | LeastRecent | FewestCalls | Random

  datatype Member = Member(id: Id, agentId: Id)

  /** Answered calls and last bridge time of one agent; an agent without calls has no row. */
  datatype Aggregate = Aggregate(agentId: Id, answeredCount: nat, lastBridgedAt: Option<int>)

  datatype DialSet = DialSet(membersToRing: seq<Member>, nextCursorMemberId: Option<Id>)

  function Ids(members: seq<Member>): (ids: seq<Id>)
    ensures |ids| == |members|
    ensures forall i :: 0 <= i < |ids| ==> ids[i] == members[i].id
  {
    seq(|members|, i requires 0 <= i < |members| => members[i].id)
  }

  /** Members are rows of one table: their ids differ. */
  ghost predicate DistinctMembers(members: seq<Member>) {
    forall i, j :: 0 <= i < j < |members| ==> members[i].id != members[j].id
  }

  function Untried(members: seq<Member>, attemptOrder: seq<Id>): (r: seq<Member>)
    ensures forall m :: m in r <==> m in members && m.id !in attemptOrder
    ensures DistinctMembers(members) ==> DistinctMembers(r)
  {
    if members == [] then []
    else
      var rest := Untried(members[1..], attemptOrder);
      if members[0].id in attemptOrder then rest else [members[0]] + rest
  }

  /** Members not tried yet, or everybody when a fresh cycle starts. */
  function ExcludeAlreadyTried(members: seq<Member>, attemptOrder: seq<Id>): seq<Member> {
    var remaining := Untried(members, attemptOrder);
    if |remaining| > 0 then remaining else members
  }

  function AggregateFor(agentId: Id, aggregates: seq<Aggregate>): (a: Aggregate)
    ensures a.agentId == agentId
  {
    if aggregates == [] then Aggregate(agentId, 0, None)
    else if aggregates[0].agentId == agentId then aggregates[0]
    else AggregateFor(agentId, aggregates[1..])
  }

  /** Index of the first member with this id, or -1. */
  function FindIndex(members: seq<Member>, id: Id): (k: int)
    ensures -1 <= k < |members|
    ensures k == -1 <==> forall i :: 0 <= i < |members| ==> members[i].id != id
    ensures k >= 0 ==> members[k].id == id && forall i :: 0 <= i < k ==> members[i].id != id
  {
    if members == [] then -1
    else if members[0].id == id then 0
    else
      var k := FindIndex(members[1..], id);
      if k == -1 then -1 else k + 1
  }

  function PickRoundRobin(members: seq<Member>, cursor: Option<Id>): DialSet {
    if members == [] then DialSet([], None)
    else
      var cursorIndex := if cursor.Some? then FindIndex(members, cursor.value) else -1;
      var chosen := members[(cursorIndex + 1) % |members|];
      DialSet([chosen], Some(chosen.id))
  }

  /** Sort key of the two aggregate strategies; an agent never bridged counts as time zero. */
  function SortKey(strategy: Strategy, agentId: Id, aggregates: seq<Aggregate>): int {
    var a := AggregateFor(agentId, aggregates);
    if strategy == FewestCalls then a.answeredCount
    else if a.lastBridgedAt.Some? then a.lastBridgedAt.value else 0
  }

  /** Stable insertion into a sorted list: after every member whose key is not larger. */
  function InsertSorted(m: Member, sorted: seq<Member>, key: Id -> int): seq<Member> {
    if sorted == [] || key(m.agentId) <= key(sorted[0].agentId) then [m] + sorted
    else [sorted[0]] + InsertSorted(m, sorted[1..], key)
  }

  /** `[...members].sort(compare)`; Array.prototype.sort is stable. */
  function StableSort(members: seq<Member>, key: Id -> int): seq<Member> {
    if members == [] then [] else InsertSorted(members[0], StableSort(members[1..], key), key)
  }

  function PickBySortedAggregate(members: seq<Member>, key: Id -> int): DialSet {
    var sorted := StableSort(members, key);
    DialSet(if |sorted| > 1 then sorted[..1] else sorted, None)
  }

  /** `roll` is the random draw; any index of a non-empty list can come out. */
  function PickRandom(members: seq<Member>, roll: nat): DialSet {
    DialSet(if members == [] then [] else [members[roll % |members|]], None)
  }

  function ResolveDialSet(strategy: Strategy, eligible: seq<Member>, aggregates: seq<Aggregate>,
                          cursor: Option<Id>, attemptOrder: seq<Id>, roll: nat): DialSet {
    if eligible == [] then DialSet([], None)
    else
      var candidates := ExcludeAlreadyTried(eligible, attemptOrder);
      match strategy
      case RingAll => DialSet(candidates, None)
      case RoundRobin => PickRoundRobin(candidates, cursor)
      case LeastRecent => PickBySortedAggregate(candidates, agentId => SortKey(LeastRecent, agentId, aggregates))
      case FewestCalls => PickBySortedAggregate(candidates, agentId => SortKey(FewestCalls, agentId, aggregates))
      case Random => PickRandom(candidates, roll)
  }

  // ---------- What the resolver guarantees ----------

  /** k is the position of the first member whose key no other member undercuts. */
  ghost predicate IsFirstMinimum(members: seq<Member>, key: Id -> int, k: nat) {
    k < |members|
    && (forall i :: 0 <= i < |members| ==> key(members[k].agentId) <= key(members[i].agentId))
    && (forall i :: 0 <= i < k ==> key(members[k].agentId) < key(members[i].agentId))
  }

  lemma {:induction false} StableSortHead(members: seq<Member>, key: Id -> int) returns (k: nat)
    requires members != []
    ensures |StableSort(members, key)| == |members|
    ensures IsFirstMinimum(members, key, k)
    ensures StableSort(members, key)[0] == members[k]
  {
    if |members| == 1 {
      assert StableSort(members[1..], key) == [];
      k := 0;
    } else {
      var tail := members[1..];
      var sorted := StableSort(tail, key);
      var k' := StableSortHead(tail, key);
      InsertSortedSize(members[0], sorted, key);
      if key(members[0].agentId) <= key(sorted[0].agentId) {
        k := 0;
        forall i | 0 <= i < |members| ensures key(members[0].agentId) <= key(members[i].agentId) {
          if i > 0 { assert members[i] == tail[i - 1]; }
        }
      } else {
        k := k' + 1;
        assert members[k] == tail[k'];
        forall i | 0 <= i < |members| ensures key(members[k].agentId) <= key(members[i].agentId)
                                            && (i < k ==> key(members[k].agentId) < key(members[i].agentId)) {
          if i > 0 { assert members[i] == tail[i - 1]; }
        }
      }
    }
  }

  lemma {:induction false} InsertSortedSize(m: Member, sorted: seq<Member>, key: Id -> int)
    ensures |InsertSorted(m, sorted, key)| == |sorted| + 1
  {
    if !(sorted == [] || key(m.agentId) <= key(sorted[0].agentId)) {
      InsertSortedSize(m, sorted[1..], key);
    }
  }

  /** fewest_calls and least_recent ring the first member with the smallest key. */
  lemma AggregatePickIsFirstMinimum(members: seq<Member>, key: Id -> int) returns (k: nat)
    requires members != []
    ensures IsFirstMinimum(members, key, k)
    ensures PickBySortedAggregate(members, key).membersToRing == [members[k]]
  {
    k := StableSortHead(members, key);
  }

  /** Whatever the strategy: somebody eligible is dialled, nobody twice, and nobody already
      tried while an untried member is eligible. Only ring_all dials more than one. */
  lemma DialSetIsFair(strategy: Strategy, eligible: seq<Member>, aggregates: seq<Aggregate>,
                      cursor: Option<Id>, attemptOrder: seq<Id>, roll: nat)
    requires eligible != [] && DistinctMembers(eligible)
    ensures var d := ResolveDialSet(strategy, eligible, aggregates, cursor, attemptOrder, roll);
            && d.membersToRing != [] && DistinctMembers(d.membersToRing)
            && (forall m :: m in d.membersToRing ==> m in eligible)
            && (forall m :: m in d.membersToRing && m.id in attemptOrder ==>
                  forall e :: e in eligible ==> e.id in attemptOrder)
            && (strategy == RingAll ==> forall m :: m in eligible && m.id !in attemptOrder ==> m in d.membersToRing)
            && (strategy != RingAll ==> |d.membersToRing| == 1)
            && d.nextCursorMemberId == (if strategy == RoundRobin then Some(d.membersToRing[0].id) else None)
  {
    var candidates := ExcludeAlreadyTried(eligible, attemptOrder);
    var d := ResolveDialSet(strategy, eligible, aggregates, cursor, attemptOrder, roll);
    CandidatesAreFair(eligible, attemptOrder);
    DialsCandidates(strategy, candidates, aggregates, cursor, roll, d);
  }

  /** The candidates: eligible, and untried unless everybody was tried. */
  lemma CandidatesAreFair(eligible: seq<Member>, attemptOrder: seq<Id>)
    requires eligible != [] && DistinctMembers(eligible)
    ensures var candidates := ExcludeAlreadyTried(eligible, attemptOrder);
            && candidates != [] && DistinctMembers(candidates)
            && (forall m :: m in candidates ==> m in eligible)
            && (forall m :: m in candidates && m.id in attemptOrder ==>
                  forall e :: e in eligible ==> e.id in attemptOrder)
            && (forall m :: m in eligible && m.id !in attemptOrder ==> m in candidates)
  {
    assert forall e :: e in eligible && e.id !in attemptOrder ==> e in Untried(eligible, attemptOrder);
  }

  /** Every strategy dials candidates: ring_all dials them all, the others one. */
  lemma DialsCandidates(strategy: Strategy, candidates: seq<Member>, aggregates: seq<Aggregate>,
                        cursor: Option<Id>, roll: nat, d: DialSet)
    requires candidates != []
    requires d == match strategy
                  case RingAll => DialSet(candidates, None)
                  case RoundRobin => PickRoundRobin(candidates, cursor)
                  case LeastRecent =>
                    PickBySortedAggregate(candidates, agentId => SortKey(LeastRecent, agentId, aggregates))
                  case FewestCalls =>
                    PickBySortedAggregate(candidates, agentId => SortKey(FewestCalls, agentId, aggregates))
                  case Random => PickRandom(candidates, roll)
    ensures if strategy == RingAll then d.membersToRing == candidates
            else exists k :: 0 <= k < |candidates| && d.membersToRing == [candidates[k]]
    ensures d.nextCursorMemberId == (if strategy == RoundRobin then Some(d.membersToRing[0].id) else None)
  {
    match strategy
    case LeastRecent =>
      var k := AggregatePickIsFirstMinimum(candidates, agentId => SortKey(LeastRecent, agentId, aggregates));
    case FewestCalls =>
      var k := AggregatePickIsFirstMinimum(candidates, agentId => SortKey(FewestCalls, agentId, aggregates));
    case _ =>
  }

  /** Chance leaves nobody out: some draw below the number of eligible members picks any member who may be dialled. */
  lemma AnyCandidateIsPicked(eligible: seq<Member>, aggregates: seq<Aggregate>, cursor: Option<Id>,
                             attemptOrder: seq<Id>, m: Member) returns (roll: nat)
    requires m in eligible && (m.id !in attemptOrder || forall e :: e in eligible ==> e.id in attemptOrder)
    ensures roll < |eligible|
    ensures ResolveDialSet(Random, eligible, aggregates, cursor, attemptOrder, roll).membersToRing == [m]
  {
    NoMoreUntried(eligible, attemptOrder);
    var candidates := CandidatesWith(eligible, attemptOrder, m);
    roll := DrawFor(candidates, m);
  }

  lemma CandidatesWith(eligible: seq<Member>, attemptOrder: seq<Id>, m: Member) returns (candidates: seq<Member>)
    requires m in eligible && (m.id !in attemptOrder || forall e :: e in eligible ==> e.id in attemptOrder)
    ensures candidates == ExcludeAlreadyTried(eligible, attemptOrder) && m in candidates
  {
    candidates := ExcludeAlreadyTried(eligible, attemptOrder);
    if m.id !in attemptOrder {
      assert m in Untried(eligible, attemptOrder);
    } else {
      AllTried(eligible, attemptOrder);
    }
  }

  lemma {:induction false} AllTried(members: seq<Member>, attemptOrder: seq<Id>)
    requires forall m :: m in members ==> m.id in attemptOrder
    ensures Untried(members, attemptOrder) == []
  {
    if members != [] { AllTried(members[1..], attemptOrder); }
  }

  lemma DrawFor(candidates: seq<Member>, m: Member) returns (roll: nat)
    requires m in candidates
    ensures roll < |candidates| && PickRandom(candidates, roll).membersToRing == [m]
  {
    roll :| 0 <= roll < |candidates| && candidates[roll] == m;
    SmallRemainder(roll, |candidates|);
  }

  lemma SmallRemainder(k: nat, n: nat)
    requires k < n
    ensures k % n == k
  {
  }

  lemma {:induction false} NoMoreUntried(members: seq<Member>, attemptOrder: seq<Id>)
    ensures |Untried(members, attemptOrder)| <= |members|
  {
    if members != [] { NoMoreUntried(members[1..], attemptOrder); }
  }

  /** The untried members keep their order. */
  lemma {:induction false} UntriedConcat(a: seq<Member>, b: seq<Member>, attemptOrder: seq<Id>)
    ensures Untried(a + b, attemptOrder) == Untried(a, attemptOrder) + Untried(b, attemptOrder)
  {
    if a == [] {
      assert a + b == b;
    } else {
      assert (a + b)[1..] == a[1..] + b;
      UntriedConcat(a[1..], b, attemptOrder);
    }
  }
}
