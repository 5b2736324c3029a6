/** Fairness of the single-pick strategies over whole runs: a fixed eligible list in which
    every pick answers, so each call starts with an empty attempt order and the answered-call
    history grows by one entry per call. */
module QueueFairness {
  import opened Prelude
  import opened QueueStrategy

  /** One answered call of the queue, in the order the calls were bridged. */
  datatype Answered = Answered(agentId: Id, bridgedAt: int)

  /** The cursor stored on the queue, and the answered calls the aggregates are computed from. */
  datatype Desk = Desk(cursor: Option<Id>, history: seq<Answered>)

  function CountOf(history: seq<Answered>, agentId: Id): nat {
    if history == [] then 0
    else
      CountOf(history[..|history| - 1], agentId)
      + if history[|history| - 1].agentId == agentId then 1 else 0
  }

  /** MAX(bridged_at) of one agent. */
  function LastBridged(history: seq<Answered>, agentId: Id): Option<int> {
    if history == [] then None
    else
      var before := LastBridged(history[..|history| - 1], agentId);
      var last := history[|history| - 1];
      if last.agentId != agentId then before
      else if before.Some? && before.value > last.bridgedAt then before
      else Some(last.bridgedAt)
  }

  /** The GROUP BY query: one row per agent that answered. */
  function Aggregates(history: seq<Answered>): seq<Aggregate> {
    if history == [] then []
    else CountIn(Aggregates(history[..|history| - 1]), history[|history| - 1])
  }

  function CountIn(rows: seq<Aggregate>, call: Answered): seq<Aggregate> {
    if rows == [] then [Aggregate(call.agentId, 1, Some(call.bridgedAt))]
    else if rows[0].agentId == call.agentId then
      var last := rows[0].lastBridgedAt;
      var latest := if last.Some? && last.value > call.bridgedAt then last else Some(call.bridgedAt);
      [Aggregate(call.agentId, rows[0].answeredCount + 1, latest)] + rows[1..]
    else [rows[0]] + CountIn(rows[1..], call)
  }

  lemma {:induction false} CountInUpdatesOneRow(rows: seq<Aggregate>, call: Answered, agentId: Id)
    ensures var before := AggregateFor(agentId, rows);
            var last := before.lastBridgedAt;
            AggregateFor(agentId, CountIn(rows, call)) ==
            if agentId != call.agentId then before
            else Aggregate(agentId, before.answeredCount + 1,
                           if last.Some? && last.value > call.bridgedAt then last else Some(call.bridgedAt))
  {
    if rows != [] && rows[0].agentId != call.agentId {
      CountInUpdatesOneRow(rows[1..], call, agentId);
    }
  }

  /** The row of an agent holds exactly its answered count and latest bridge time. */
  lemma {:induction false} AggregatesDescribeHistory(history: seq<Answered>, agentId: Id)
    ensures AggregateFor(agentId, Aggregates(history)) ==
            Aggregate(agentId, CountOf(history, agentId), LastBridged(history, agentId))
  {
    if history != [] {
      AggregatesDescribeHistory(history[..|history| - 1], agentId);
      CountInUpdatesOneRow(Aggregates(history[..|history| - 1]), history[|history| - 1], agentId);
    }
  }

  /** An agent is a member of a queue at most once. */
  ghost predicate DistinctAgents(members: seq<Member>) {
    forall i, j :: 0 <= i < j < |members| ==> members[i].agentId != members[j].agentId
  }

  function Dial(strategy: Strategy, eligible: seq<Member>, desk: Desk): DialSet {
    ResolveDialSet(strategy, eligible, Aggregates(desk.history), desk.cursor, [], 0)
  }

  /** One call: the resolver picks, the pick answers and is bridged at time `at`. */
  function TakeCall(strategy: Strategy, eligible: seq<Member>, desk: Desk, at: int): Desk {
    var d := Dial(strategy, eligible, desk);
    if d.membersToRing == [] then desk
    else Desk(if d.nextCursorMemberId.Some? then d.nextCursorMemberId else desk.cursor,
              desk.history + [Answered(d.membersToRing[0].agentId, at)])
  }

  function TakeCalls(strategy: Strategy, eligible: seq<Member>, desk: Desk, times: seq<int>): Desk {
    if times == [] then desk
    else TakeCall(strategy, eligible, TakeCalls(strategy, eligible, desk, times[..|times| - 1]), times[|times| - 1])
  }

  lemma CountOfAppend(history: seq<Answered>, call: Answered, agentId: Id)
    ensures CountOf(history + [call], agentId) == CountOf(history, agentId) + if call.agentId == agentId then 1 else 0
  {
    assert (history + [call])[..|history|] == history;
  }

  // ---------- fewest_calls ----------

  /** No two eligible agents are more than `spread` answered calls apart. */
  ghost predicate WithinSpread(eligible: seq<Member>, history: seq<Answered>, spread: int) {
    forall i, j :: 0 <= i < |eligible| && 0 <= j < |eligible| ==>
      CountOf(history, eligible[i].agentId) - CountOf(history, eligible[j].agentId) <= spread
  }

  /** The answered-count spread never grows beyond the larger of its initial value and 1. */
  lemma {:induction false} FewestCallsKeepsSpread(eligible: seq<Member>, desk: Desk, times: seq<int>, spread: int)
    requires eligible != [] && DistinctMembers(eligible) && DistinctAgents(eligible)
    requires spread >= 1 && WithinSpread(eligible, desk.history, spread)
    ensures WithinSpread(eligible, TakeCalls(FewestCalls, eligible, desk, times).history, spread)
  {
    if times != [] {
      var before := TakeCalls(FewestCalls, eligible, desk, times[..|times| - 1]);
      FewestCallsKeepsSpread(eligible, desk, times[..|times| - 1], spread);
      var k := PickHasSmallestKey(FewestCalls, eligible, before);
      var call := Answered(eligible[k].agentId, times[|times| - 1]);
      forall i, j | 0 <= i < |eligible| && 0 <= j < |eligible|
        ensures CountOf(before.history + [call], eligible[i].agentId)
                - CountOf(before.history + [call], eligible[j].agentId) <= spread
      {
        CountOfAppend(before.history, call, eligible[i].agentId);
        CountOfAppend(before.history, call, eligible[j].agentId);
        AggregatesDescribeHistory(before.history, eligible[k].agentId);
        AggregatesDescribeHistory(before.history, eligible[j].agentId);
      }
    }
  }

  lemma PickHasSmallestKey(strategy: Strategy, eligible: seq<Member>, desk: Desk) returns (k: nat)
    requires eligible != [] && strategy in {FewestCalls, LeastRecent}
    ensures k < |eligible| && Dial(strategy, eligible, desk).membersToRing == [eligible[k]]
    ensures forall i :: 0 <= i < |eligible| ==>
              SortKey(strategy, eligible[k].agentId, Aggregates(desk.history))
              <= SortKey(strategy, eligible[i].agentId, Aggregates(desk.history))
  {
    var key := KeyOf(strategy, Aggregates(desk.history));
    DialsByKey(strategy, eligible, Aggregates(desk.history), desk.cursor);
    NobodyTried(eligible);
    k := AggregatePickIsFirstMinimum(eligible, key);
    SmallestKey(strategy, eligible, Aggregates(desk.history), k);
  }

  ghost function KeyOf(strategy: Strategy, aggregates: seq<Aggregate>): Id -> int {
    if strategy == FewestCalls then agentId => SortKey(FewestCalls, agentId, aggregates)
    else agentId => SortKey(LeastRecent, agentId, aggregates)
  }

  lemma DialsByKey(strategy: Strategy, eligible: seq<Member>, aggregates: seq<Aggregate>, cursor: Option<Id>)
    requires eligible != [] && strategy in {FewestCalls, LeastRecent}
    ensures ResolveDialSet(strategy, eligible, aggregates, cursor, [], 0)
            == PickBySortedAggregate(ExcludeAlreadyTried(eligible, []), KeyOf(strategy, aggregates))
  {
  }

  lemma SmallestKey(strategy: Strategy, eligible: seq<Member>, aggregates: seq<Aggregate>, k: nat)
    requires strategy in {FewestCalls, LeastRecent} && IsFirstMinimum(eligible, KeyOf(strategy, aggregates), k)
    ensures forall i :: 0 <= i < |eligible| ==>
              SortKey(strategy, eligible[k].agentId, aggregates) <= SortKey(strategy, eligible[i].agentId, aggregates)
  {
  }

  /** On the first dialling of a call everybody is a candidate. */
  lemma NobodyTried(eligible: seq<Member>)
    ensures ExcludeAlreadyTried(eligible, []) == eligible
  {
    UntriedFromNothing(eligible);
  }

  lemma {:induction false} UntriedFromNothing(members: seq<Member>)
    ensures Untried(members, []) == members
  {
    if members != [] { UntriedFromNothing(members[1..]); }
  }

  // ---------- least_recent ----------

  /** Bridge times are positive and strictly increase along the history. */
  ghost predicate Increasing(history: seq<Answered>) {
    (forall i :: 0 <= i < |history| ==> history[i].bridgedAt > 0)
    && (forall i, j :: 0 <= i < j < |history| ==> history[i].bridgedAt < history[j].bridgedAt)
  }

  lemma {:induction false} LastBridgedBounds(history: seq<Answered>, agentId: Id, p: nat)
    requires Increasing(history) && p < |history|
    requires forall i :: p < i < |history| ==> history[i].agentId != agentId
    ensures history[p].agentId == agentId ==> LastBridged(history, agentId) == Some(history[p].bridgedAt)
    ensures history[p].agentId != agentId ==>
              var last := LastBridged(history, agentId);
              last.Some? ==> last.value < history[p].bridgedAt
    decreases |history|
  {
    var front := history[..|history| - 1];
    if p < |history| - 1 {
      LastBridgedBounds(front, agentId, p);
    } else if front != [] {
      LastBridgedUpper(front, agentId);
    }
  }

  lemma {:induction false} LastBridgedUpper(history: seq<Answered>, agentId: Id)
    requires Increasing(history) && history != []
    ensures var last := LastBridged(history, agentId);
            last.Some? ==> last.value <= history[|history| - 1].bridgedAt
  {
    var front := history[..|history| - 1];
    if front != [] { LastBridgedUpper(front, agentId); }
  }

  ghost function AgentsOf(members: seq<Member>): set<Id> {
    set i | 0 <= i < |members| :: members[i].agentId
  }

  lemma {:induction false} AgentsOfSize(members: seq<Member>)
    requires DistinctAgents(members)
    ensures |AgentsOf(members)| == |members|
  {
    if members == [] {
      assert AgentsOf(members) == {};
    } else {
      var front, last := members[..|members| - 1], members[|members| - 1];
      AgentsOfSize(front);
      assert AgentsOf(members) == AgentsOf(front) + {last.agentId};
    }
  }

  ghost function Answerers(history: seq<Answered>): set<Id> {
    set i | 0 <= i < |history| :: history[i].agentId
  }

  lemma {:induction false} AnswerersSize(history: seq<Answered>)
    ensures |Answerers(history)| <= |history|
  {
    if history == [] {
      assert Answerers(history) == {};
    } else {
      var front, last := history[..|history| - 1], history[|history| - 1];
      AnswerersSize(front);
      assert Answerers(history) == Answerers(front) + {last.agentId};
    }
  }

  /** Fewer calls than members leave some member unheard of since position p. */
  lemma SomebodyIdle(eligible: seq<Member>, history: seq<Answered>, p: nat) returns (b: nat)
    requires DistinctAgents(eligible) && p <= |history| && |history| - p < |eligible|
    ensures b < |eligible|
    ensures forall i :: p <= i < |history| ==> history[i].agentId != eligible[b].agentId
  {
    var recent := history[p..];
    AgentsOfSize(eligible);
    AnswerersSize(recent);
    if AgentsOf(eligible) <= Answerers(recent) {
      SubsetSize(AgentsOf(eligible), Answerers(recent));
    }
    var agent :| agent in AgentsOf(eligible) && agent !in Answerers(recent);
    b :| 0 <= b < |eligible| && eligible[b].agentId == agent;
    forall i | p <= i < |history| ensures history[i].agentId != agent {
      assert recent[i - p].agentId in Answerers(recent);
    }
  }

  /** The pick of least_recent answered none of the last n - 1 calls of the queue. */
  lemma LeastRecentAvoidsRecent(eligible: seq<Member>, desk: Desk, p: nat)
    requires eligible != [] && DistinctAgents(eligible) && Increasing(desk.history)
    requires p < |desk.history| && |desk.history| - p < |eligible|
    ensures Dial(LeastRecent, eligible, desk).membersToRing[0].agentId != desk.history[p].agentId
  {
    var k := PickHasSmallestKey(LeastRecent, eligible, desk);
    var a := eligible[k].agentId;
    if a == desk.history[p].agentId {
      var last := LastOccurrence(desk.history, a, p);
      var b := SomebodyIdle(eligible, desk.history, last);
      LastBridgedBounds(desk.history, a, last);
      LastBridgedBounds(desk.history, eligible[b].agentId, last);
      AggregatesDescribeHistory(desk.history, a);
      AggregatesDescribeHistory(desk.history, eligible[b].agentId);
      assert false;
    }
  }

  lemma LastOccurrence(history: seq<Answered>, agentId: Id, p: nat) returns (last: nat)
    requires p < |history| && history[p].agentId == agentId
    ensures p <= last < |history| && history[last].agentId == agentId
    ensures forall i :: last < i < |history| ==> history[i].agentId != agentId
    decreases |history| - p
  {
    if i :| p < i < |history| && history[i].agentId == agentId {
      last := LastOccurrence(history, agentId, i);
    } else {
      last := p;
    }
  }

  /** Any n consecutive picks among n eligible members are n distinct members. */
  lemma {:induction false} LeastRecentRotates(eligible: seq<Member>, desk: Desk, times: seq<int>)
    requires eligible != [] && DistinctMembers(eligible) && DistinctAgents(eligible)
    requires Increasing(TakeCalls(LeastRecent, eligible, desk, times).history)
    ensures var h := TakeCalls(LeastRecent, eligible, desk, times).history;
            && |h| == |desk.history| + |times|
            && forall p, q :: |desk.history| <= p < q < |h| && q - p < |eligible| ==> h[p].agentId != h[q].agentId
  {
    if times != [] {
      var before := TakeCalls(LeastRecent, eligible, desk, times[..|times| - 1]);
      var k := PickHasSmallestKey(LeastRecent, eligible, before);
      var h := TakeCalls(LeastRecent, eligible, desk, times).history;
      assert before.history == h[..|h| - 1];
      LeastRecentRotates(eligible, desk, times[..|times| - 1]);
      forall p | |desk.history| <= p < |h| - 1 && |h| - 1 - p < |eligible| ensures h[p].agentId != h[|h| - 1].agentId {
        LeastRecentAvoidsRecent(eligible, before, p);
      }
    }
  }

  // ---------- round_robin ----------

  /** Positions start, start + 1, ..., next - 1 of the circular list. */
  ghost predicate InArc(start: int, next: int, j: int) {
    if start <= next then start <= j < next else j >= start || j < next
  }

  /** Where round_robin goes after this cursor. */
  ghost function NextIndex(eligible: seq<Member>, cursor: Option<Id>): (k: nat)
    requires eligible != []
    ensures k < |eligible|
  {
    ((if cursor.Some? then FindIndex(eligible, cursor.value) else -1) + 1) % |eligible|
  }

  lemma CyclicSuccessor(k: nat, n: nat)
    requires k < n
    ensures (k + 1) % n == if k + 1 == n then 0 else k + 1
  {
    if k + 1 < n {
      assert (k + 1) / n == 0;
    }
  }

  lemma RoundRobinPick(eligible: seq<Member>, desk: Desk)
    requires eligible != [] && DistinctMembers(eligible)
    ensures var k := NextIndex(eligible, desk.cursor);
            var d := Dial(RoundRobin, eligible, desk);
            && d == DialSet([eligible[k]], Some(eligible[k].id))
            && NextIndex(eligible, d.nextCursorMemberId) == if k + 1 == |eligible| then 0 else k + 1
  {
    NobodyTried(eligible);
    PicksNext(eligible, desk.cursor);
    NextAfter(eligible, NextIndex(eligible, desk.cursor));
  }

  lemma PicksNext(eligible: seq<Member>, cursor: Option<Id>)
    requires eligible != []
    ensures var k := NextIndex(eligible, cursor);
            PickRoundRobin(eligible, cursor) == DialSet([eligible[k]], Some(eligible[k].id))
  {
  }

  lemma NextAfter(eligible: seq<Member>, k: nat)
    requires DistinctMembers(eligible) && k < |eligible|
    ensures NextIndex(eligible, Some(eligible[k].id)) == if k + 1 == |eligible| then 0 else k + 1
  {
    FindsItself(eligible, k);
    CyclicSuccessor(k, |eligible|);
  }

  lemma FindsItself(eligible: seq<Member>, k: nat)
    requires DistinctMembers(eligible) && k < |eligible|
    ensures FindIndex(eligible, eligible[k].id) == k
  {
  }

  /** Whole turns are equal for everybody; the unfinished turn covers one arc of the list. */
  lemma {:induction false} RoundRobinTurns(eligible: seq<Member>, desk: Desk, times: seq<int>) returns (turns: nat)
    requires eligible != [] && DistinctMembers(eligible) && DistinctAgents(eligible)
    ensures var after := TakeCalls(RoundRobin, eligible, desk, times);
            var start, next := NextIndex(eligible, desk.cursor), NextIndex(eligible, after.cursor);
            forall j :: 0 <= j < |eligible| ==>
              CountOf(after.history, eligible[j].agentId)
              == CountOf(desk.history, eligible[j].agentId) + turns + if InArc(start, next, j) then 1 else 0
  {
    turns := 0;
    if times != [] {
      var before := TakeCalls(RoundRobin, eligible, desk, times[..|times| - 1]);
      var turns' := RoundRobinTurns(eligible, desk, times[..|times| - 1]);
      RoundRobinPick(eligible, before);
      var k := NextIndex(eligible, before.cursor);
      var after := TakeCall(RoundRobin, eligible, before, times[|times| - 1]);
      turns := if NextIndex(eligible, after.cursor) == NextIndex(eligible, desk.cursor) then turns' + 1 else turns';
      forall j | 0 <= j < |eligible|
        ensures CountOf(after.history, eligible[j].agentId)
                == CountOf(before.history, eligible[j].agentId) + if j == k then 1 else 0
      {
        CountOfAppend(before.history, Answered(eligible[k].agentId, times[|times| - 1]), eligible[j].agentId);
      }
    }
  }

  /** Over any run, two eligible members differ by at most one pick. */
  lemma RoundRobinIsEven(eligible: seq<Member>, desk: Desk, times: seq<int>, i: nat, j: nat)
    requires eligible != [] && DistinctMembers(eligible) && DistinctAgents(eligible)
    requires i < |eligible| && j < |eligible|
    ensures var h := TakeCalls(RoundRobin, eligible, desk, times).history;
            (CountOf(h, eligible[i].agentId) - CountOf(desk.history, eligible[i].agentId))
            - (CountOf(h, eligible[j].agentId) - CountOf(desk.history, eligible[j].agentId)) <= 1
  {
    var turns := RoundRobinTurns(eligible, desk, times);
  }
}
