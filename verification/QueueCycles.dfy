/** Over whole runs: nobody is offered a call twice before everybody eligible was tried. */
module QueueCycles {
  import opened Prelude
  import opened QueueStrategy
  import opened QueueEngine

  // ---------- The diallings of a run ----------

  /** One attempt that dials: who had been tried in the cycle, who is eligible, who is dialled, and the
      legs Asterisk originates. */
  datatype Dialling = Dialling(call: CallId, tried: seq<Id>, eligible: seq<Member>, dialled: seq<Member>,
                               offers: seq<(Member, Chan)>)

  /** The attempt finds every eligible member tried: a new cycle begins. */
  ghost predicate Restarts(d: Dialling) {
    forall m :: m in d.eligible ==> m.id in d.tried
  }

  ghost function DiallingOf(s: Engine, id: CallId, a: Attempt): Dialling
    requires id in s.calls && s.calls[id].queueId in s.queues
  {
    var dialled := DialFor(s, id, a).membersToRing;
    Dialling(id, s.calls[id].attemptOrder, EligibleMembers(s.calls, a.roster), dialled, Offers(dialled, a.originated))
  }

  /** The diallings of one handler's ring attempts, in order. */
  ghost function RingTrace(s: Engine, id: CallId, attempts: nat -> Attempt, n: nat): seq<Dialling>
    requires id in s.calls && s.calls[id].queueId in s.queues && ClockAdvances(attempts)
    decreases Deadline(s, id) - attempts(n).now
  {
    var a := attempts(n);
    if a.now >= Deadline(s, id) || EligibleMembers(s.calls, a.roster) == [] then []
    else
      var rung := RingDialSet(s, id, a);
      [DiallingOf(s, id, a)]
      + if rung.calls[id].ringingChannelIds != [] then []
        else
          assert attempts(n).now < attempts(n + 1).now;
          RingTrace(rung, id, attempts, n + 1)
  }

  /** The diallings of one event: on admission, and when the last ringing leg is gone. */
  ghost function EventTrace(s: Engine, e: Event): seq<Dialling>
    requires Plausible(s, e)
  {
    match e
    case CallerEnters(channel, tenantId, queueId, newId, now, roster, attempts) =>
      if Admits(s, e) then
        RingTrace(Admit(s, newId, NewCall(tenantId, queueId, channel, now)), newId, attempts, 0)
      else []
    case ChannelGone(channel, cause, now, attempts) =>
      if Retries(s, channel, cause) then
        RingTrace(StrikeLeg(s, channel, cause), s.ringingAgentLegs[channel].queueCallId, attempts, 0)
      else []
    case _ => []
  }

  ghost predicate Admits(s: Engine, e: Event)
    requires e.CallerEnters?
  {
    && QueueEnabled(s, e.tenantId, e.queueId) && !CallerKnown(s.calls, e.channel)
    && (s.queues[e.queueId].maxCallers != 0 ==> |ActiveCalls(s.calls, e.queueId)| < s.queues[e.queueId].maxCallers)
    && EligibleMembers(s.calls, e.roster) != []
  }

  ghost predicate Retries(s: Engine, channel: Chan, cause: Option<int>) {
    && channel !in s.queueCallByCallerChannel && channel in s.ringingAgentLegs
    && var id := s.ringingAgentLegs[channel].queueCallId;
       && id in s.calls && s.calls[id].status == Ringing && channel in s.calls[id].ringingChannelIds
       && StrikeLeg(s, channel, cause).calls[id].ringingChannelIds == []
       && QueueEnabled(s, s.calls[id].tenantId, s.calls[id].queueId)
  }

  ghost function EventTraces(states: seq<Engine>, events: seq<Event>): seq<seq<Dialling>>
    requires Run(states, events)
  {
    seq(|events|, i requires 0 <= i < |events| => EventTrace(states[i], events[i]))
  }

  /** The diallings of the first k events. */
  ghost function RunTrace(states: seq<Engine>, events: seq<Event>, k: nat): seq<Dialling>
    requires Run(states, events) && k <= |events|
  {
    Flatten(EventTraces(states, events)[..k])
  }

  // ---------- What the trace says of the state ----------

  /** Who counts as tried for a call after these diallings: those dialled since its last restart. */
  ghost function TriedAfter(trace: seq<Dialling>, id: CallId): seq<Id> {
    if trace == [] then []
    else
      var front, last := trace[..|trace| - 1], trace[|trace| - 1];
      if last.call != id then TriedAfter(front, id) else CycleOrder(last.tried, last.eligible) + Ids(last.dialled)
  }

  /** Somebody is dialled, nobody twice, and nobody tried before unless everybody eligible was. */
  ghost predicate Fair(d: Dialling) {
    DialsFairly(d) && OffersOnce(d.offers, d.dialled)
  }

  ghost predicate DialsFairly(d: Dialling) {
    && d.dialled != [] && DistinctMembers(d.dialled)
    && (forall m :: m in d.dialled ==> m in d.eligible && (m.id in d.tried ==> Restarts(d)))
  }

  /** Offers go to dialled members, to each at most one. */
  ghost predicate OffersOnce(offers: seq<(Member, Chan)>, dialled: seq<Member>) {
    && (forall p, q :: 0 <= p < q < |offers| ==> offers[p].0.id != offers[q].0.id)
    && (forall p :: 0 <= p < |offers| ==> offers[p].0 in dialled)
  }

  ghost predicate FairAt(trace: seq<Dialling>, i: nat)
    requires i < |trace|
  {
    Fair(trace[i]) && trace[i].tried == TriedAfter(trace[..i], trace[i].call)
  }

  predicate IsOffer(e: Effect) { e.AgentOffered? }

  /** The offers logged by these diallings. */
  function OffersOf(trace: seq<Dialling>): seq<Effect> {
    if trace == [] then []
    else
      OffersOf(trace[..|trace| - 1]) + OfferedEvents(trace[|trace| - 1].call, trace[|trace| - 1].offers)
  }

  ghost function OrderOf(calls: map<CallId, QueueCall>, id: CallId): seq<Id> {
    if id in calls then calls[id].attemptOrder else []
  }

  /** Rows and log are what the diallings so far have made of them. */
  ghost predicate Traced(s: Engine, trace: seq<Dialling>) {
    && (forall id :: TriedAfter(trace, id) == OrderOf(s.calls, id))
    && (forall i :: 0 <= i < |trace| ==> FairAt(trace, i))
    && Filter(s.log, IsOffer) == OffersOf(trace)
  }

  // ---------- One dialling ----------

  lemma {:induction false} OffersOfDistinct(members: seq<Member>, originated: map<Id, Chan>)
    requires DistinctMembers(members)
    ensures OffersOnce(Offers(members, originated), members)
  {
    OffersOriginated(members, originated);
    if members != [] {
      var front, last := members[..|members| - 1], members[|members| - 1];
      OffersOfDistinct(front, originated);
      var before := Offers(front, originated);
      forall p | 0 <= p < |before| ensures before[p].0.id != last.id {
        var k :| 0 <= k < |front| && front[k] == before[p].0;
        assert members[k] == front[k] && members[k].id != members[|front|].id;
      }
    }
    var offers := Offers(members, originated);
    forall p | 0 <= p < |offers| ensures offers[p].0 in members {
      assert offers[p] in offers;
    }
  }

  /** Whoever is dialled again although tried: everybody eligible was tried. */
  lemma CycleIsFair(tried: seq<Id>, eligible: seq<Member>, dialled: seq<Member>)
    requires forall m :: m in dialled && m.id in CycleOrder(tried, eligible) ==>
               forall e :: e in eligible ==> e.id in CycleOrder(tried, eligible)
    ensures forall m :: m in dialled && m.id in tried ==> forall e :: e in eligible ==> e.id in tried
  {
  }

  lemma DiallingIsFair(s: Engine, id: CallId, a: Attempt)
    requires id in s.calls && s.calls[id].queueId in s.queues
    requires DistinctRoster(a.roster) && EligibleMembers(s.calls, a.roster) != []
    ensures Fair(DiallingOf(s, id, a))
  {
    var queue, d := s.queues[s.calls[id].queueId], DiallingOf(s, id, a);
    ResolvedIsFair(queue.strategy, d, a.aggregates, queue.cursor, a.roll);
    OffersOfDistinct(d.dialled, a.originated);
  }

  lemma ResolvedIsFair(strategy: Strategy, d: Dialling, aggregates: seq<Aggregate>, cursor: Option<Id>, roll: nat)
    requires d.eligible != [] && DistinctMembers(d.eligible)
    requires d.dialled == ResolveDialSet(strategy, d.eligible, aggregates, cursor, CycleOrder(d.tried, d.eligible),
                                         roll).membersToRing
    ensures DialsFairly(d)
  {
    DialSetIsFair(strategy, d.eligible, aggregates, cursor, CycleOrder(d.tried, d.eligible), roll);
    CycleIsFair(d.tried, d.eligible, d.dialled);
  }

  lemma TraceNext(trace: seq<Dialling>, d: Dialling)
    requires forall i :: 0 <= i < |trace| ==> FairAt(trace, i)
    requires Fair(d) && d.tried == TriedAfter(trace, d.call)
    ensures forall i :: 0 <= i < |trace + [d]| ==> FairAt(trace + [d], i)
  {
    var longer := trace + [d];
    forall i | 0 <= i < |longer| ensures FairAt(longer, i) {
      if i < |trace| {
        assert longer[..i] == trace[..i] && FairAt(trace, i);
      } else {
        assert longer[..i] == trace;
      }
    }
  }

  lemma OneDialling(s: Engine, id: CallId, a: Attempt, trace: seq<Dialling>)
    returns (s': Engine, longer: seq<Dialling>)
    requires Traced(s, trace) && id in s.calls && s.calls[id].queueId in s.queues
    requires DistinctRoster(a.roster) && EligibleMembers(s.calls, a.roster) != []
    ensures s' == RingDialSet(s, id, a) && longer == trace + [DiallingOf(s, id, a)]
    ensures Traced(s', longer)
  {
    var d := DiallingOf(s, id, a);
    s', longer := RingDialSet(s, id, a), trace + [d];
    assert longer[..|longer| - 1] == trace;
    assert TriedAfter(trace, id) == OrderOf(s.calls, id);
    DiallingIsFair(s, id, a);
    TraceNext(trace, d);
    forall other ensures TriedAfter(longer, other) == OrderOf(s'.calls, other) {
      assert TriedAfter(trace, other) == OrderOf(s.calls, other);
    }
    FilterConcat(s.log, OfferedEvents(id, d.offers), IsOffer);
    FilterAll(OfferedEvents(id, d.offers), IsOffer);
  }

  // ---------- Everything else dials nobody ----------

  /** The step logs no offer and leaves every attempt order, new rows having none. */
  ghost predicate DialsNobody(s: Engine, s': Engine) {
    && Filter(s'.log, IsOffer) == Filter(s.log, IsOffer)
    && forall id :: OrderOf(s'.calls, id) == OrderOf(s.calls, id)
  }

  lemma StillTraced(s: Engine, s': Engine, trace: seq<Dialling>)
    requires Traced(s, trace) && DialsNobody(s, s')
    ensures Traced(s', trace)
  {
    forall id ensures TriedAfter(trace, id) == OrderOf(s'.calls, id) {
      assert TriedAfter(trace, id) == OrderOf(s.calls, id);
    }
  }

  lemma QuietBatch(s: Engine, s': Engine, batch: seq<Effect>)
    requires s'.log == s.log + batch && forall i :: 0 <= i < |batch| ==> !batch[i].AgentOffered?
    requires forall id :: OrderOf(s'.calls, id) == OrderOf(s.calls, id)
    ensures DialsNobody(s, s')
  {
    FilterConcat(s.log, batch, IsOffer);
    FilterNone(batch, IsOffer);
  }

  lemma TimeoutDialsNobody(s: Engine, id: CallId, noEligibleMembers: bool, now: int)
    requires id in s.calls
    ensures DialsNobody(s, TimeoutQueueCall(s, id, noEligibleMembers, now))
  {
    QuietBatch(s, TimeoutQueueCall(s, id, noEligibleMembers, now),
               [QueueTimeout(id, noEligibleMembers), HangupChannel(s.calls[id].callerChannelId)]);
  }

  lemma AdmitDialsNobody(s: Engine, id: CallId, call: QueueCall)
    requires id !in s.calls && call.attemptOrder == []
    ensures DialsNobody(s, Admit(s, id, call))
  {
    var s' := Admit(s, id, call);
    var batch := [EnteredQueue(id, call.callerChannelId), PositionChanged(id, Position(s'.calls, id)),
                  AnswerChannel(call.callerChannelId)];
    QuietBatch(s, s', batch);
  }

  lemma StrikeDialsNobody(s: Engine, channel: Chan, cause: Option<int>)
    requires channel in s.ringingAgentLegs && s.ringingAgentLegs[channel].queueCallId in s.calls
    ensures DialsNobody(s, StrikeLeg(s, channel, cause))
  {
    var leg := s.ringingAgentLegs[channel];
    var gone := if cause in {Some(USER_BUSY), Some(CALL_REJECTED)}
                then AgentRejected(leg.queueCallId, leg.memberId, leg.agentId, channel)
                else AgentUnavailable(leg.queueCallId, leg.memberId, leg.agentId, channel);
    QuietBatch(s, StrikeLeg(s, channel, cause), [gone]);
  }

  lemma AnswerDialsNobody(s: Engine, channel: Chan, bridgeId: Id, now: int)
    ensures DialsNobody(s, AgentAnswers(s, channel, bridgeId, now))
  {
    var s' := AgentAnswers(s, channel, bridgeId, now);
    if s'.calls != s.calls || s'.log != s.log {
      var leg := s.ringingAgentLegs[channel];
      var call := s.calls[leg.queueCallId];
      var losers := Without(call.ringingChannelIds, channel);
      QuietBatch(s, s', AnswerEffects(losers, call.callerChannelId, leg, channel, bridgeId));
    }
  }

  lemma HangUpDialsNobody(s: Engine, channel: Chan, now: int)
    requires channel in s.queueCallByCallerChannel
    ensures DialsNobody(s, CallerHangsUp(s, channel, now))
  {
    var id, s' := s.queueCallByCallerChannel[channel], CallerHangsUp(s, channel, now);
    if id in s.calls && s.calls[id].endedAt == None {
      if s.calls[id].status == Bridged {
        QuietBatch(s, s', [CallCompleted(id, channel)]);
      } else {
        QuietBatch(s, s', CancelEvents(s.calls[id].ringingChannelIds) + [CallerAbandoned(id, channel)]);
      }
    }
  }

  // ---------- Ring attempts, events, runs ----------

  ghost predicate OneEach(a: Attempt) {
    DistinctRoster(a.roster)
  }

  ghost predicate EachListedOnce(attempts: nat -> Attempt) {
    forall k: nat {:trigger OneEach(attempts(k))} :: OneEach(attempts(k))
  }

  /** Nobody rings: the next attempt can follow. */
  lemma StillKnown(s: Engine, id: CallId, a: Attempt)
    requires id in s.calls && s.calls[id].queueId in s.queues
    ensures var rung := RingDialSet(s, id, a);
            && id in rung.calls && rung.calls[id].queueId in rung.queues && Deadline(rung, id) == Deadline(s, id)
  {
  }

  lemma InTurn<T>(start: seq<T>, next: T, rest: seq<T>)
    ensures start + [next] + rest == start + ([next] + rest)
  {
  }

  lemma {:induction false} RingIsTraced(s: Engine, id: CallId, attempts: nat -> Attempt, n: nat, trace: seq<Dialling>)
    returns (s': Engine, longer: seq<Dialling>)
    requires Traced(s, trace) && id in s.calls && s.calls[id].queueId in s.queues && ClockAdvances(attempts)
    requires EachListedOnce(attempts)
    ensures s' == StartRingAttempt(s, id, attempts, n) && longer == trace + RingTrace(s, id, attempts, n)
    ensures Traced(s', longer)
    decreases Deadline(s, id) - attempts(n).now
  {
    var a := attempts(n);
    if a.now >= Deadline(s, id) || EligibleMembers(s.calls, a.roster) == [] {
      s' := TimeoutIsTraced(s, id, a.now < Deadline(s, id), a.now, trace);
      longer := trace;
    } else {
      assert OneEach(attempts(n));
      s', longer := OneDialling(s, id, a, trace);
      if s'.calls[id].ringingChannelIds == [] {
        StillKnown(s, id, a);
        assert attempts(n).now < attempts(n + 1).now;
        InTurn(trace, DiallingOf(s, id, a), RingTrace(s', id, attempts, n + 1));
        s', longer := RingIsTraced(s', id, attempts, n + 1, longer);
      }
    }
  }

  lemma TimeoutIsTraced(s: Engine, id: CallId, noEligibleMembers: bool, now: int, trace: seq<Dialling>)
    returns (s': Engine)
    requires Traced(s, trace) && id in s.calls
    ensures s' == TimeoutQueueCall(s, id, noEligibleMembers, now) && Traced(s', trace)
  {
    s' := TimeoutQueueCall(s, id, noEligibleMembers, now);
    TimeoutDialsNobody(s, id, noEligibleMembers, now);
    StillTraced(s, s', trace);
  }

  /** The directory of every attempt lists each member once. */
  lemma PlausiblyListed(s: Engine, attempts: nat -> Attempt)
    requires PlausibleAttempts(s, attempts)
    ensures EachListedOnce(attempts)
  {
    forall k: nat ensures OneEach(attempts(k)) {
      assert PlausibleAttempt(s.log, attempts(k));
    }
  }

  lemma EnterIsTraced(s: Engine, e: Event, trace: seq<Dialling>) returns (s': Engine, longer: seq<Dialling>)
    requires Traced(s, trace) && e.CallerEnters? && Plausible(s, e)
    ensures s' == Step(s, e) && longer == trace + EventTrace(s, e) && Traced(s', longer)
  {
    if Admits(s, e) {
      var call := NewCall(e.tenantId, e.queueId, e.channel, e.now);
      AdmitDialsNobody(s, e.newId, call);
      s' := Admit(s, e.newId, call);
      StillTraced(s, s', trace);
      PlausiblyListed(s, e.attempts);
      s', longer := RingIsTraced(s', e.newId, e.attempts, 0, trace);
    } else {
      RefusedDialsNobody(s, e);
      s', longer := StillTracedAfter(s, e, trace);
    }
  }

  /** An event that dials nobody. */
  lemma StillTracedAfter(s: Engine, e: Event, trace: seq<Dialling>) returns (s': Engine, longer: seq<Dialling>)
    requires Traced(s, trace) && Plausible(s, e) && EventTrace(s, e) == [] && DialsNobody(s, Step(s, e))
    ensures s' == Step(s, e) && longer == trace + EventTrace(s, e) && Traced(s', longer)
  {
    s', longer := Step(s, e), trace;
    StillTraced(s, s', trace);
  }

  lemma RefusedDialsNobody(s: Engine, e: Event)
    requires e.CallerEnters? && Plausible(s, e) && !Admits(s, e)
    ensures DialsNobody(s, Step(s, e))
  {
    var hangUp := HangupChannel(e.channel);
    if !QueueEnabled(s, e.tenantId, e.queueId) {
      QuietBatch(s, Step(s, e), [hangUp]);
    } else if !CallerKnown(s.calls, e.channel) {
      var full := s.queues[e.queueId].maxCallers != 0
                  && |ActiveCalls(s.calls, e.queueId)| >= s.queues[e.queueId].maxCallers;
      QuietBatch(s, Step(s, e), [if full then QueueFull(e.newId, e.channel) else QueueTimeout(e.newId, true), hangUp]);
    }
  }

  lemma GoneIsTraced(s: Engine, e: Event, trace: seq<Dialling>) returns (s': Engine, longer: seq<Dialling>)
    requires Traced(s, trace) && e.ChannelGone? && Plausible(s, e)
    ensures s' == Step(s, e) && longer == trace + EventTrace(s, e) && Traced(s', longer)
  {
    if Retries(s, e.channel, e.cause) {
      s' := StrikeLeg(s, e.channel, e.cause);
      StrikeDialsNobody(s, e.channel, e.cause);
      StillTraced(s, s', trace);
      PlausiblyListed(s, e.attempts);
      s', longer := RingIsTraced(s', s.ringingAgentLegs[e.channel].queueCallId, e.attempts, 0, trace);
    } else {
      GoneDialsNobody(s, e);
      s', longer := StillTracedAfter(s, e, trace);
    }
  }

  lemma GoneDialsNobody(s: Engine, e: Event)
    requires e.ChannelGone? && Plausible(s, e) && !Retries(s, e.channel, e.cause)
    ensures DialsNobody(s, Step(s, e))
  {
    var channel := e.channel;
    if channel in s.queueCallByCallerChannel {
      HangUpDialsNobody(s, channel, e.now);
    } else if channel in s.ringingAgentLegs {
      var id := s.ringingAgentLegs[channel].queueCallId;
      if id in s.calls && s.calls[id].status == Ringing && channel in s.calls[id].ringingChannelIds {
        var s1 := StrikeLeg(s, channel, e.cause);
        StrikeDialsNobody(s, channel, e.cause);
        if s1.calls[id].ringingChannelIds == [] {
          QuietBatch(s1, Step(s, e), [HangupChannel(s.calls[id].callerChannelId)]);
        }
      }
    }
  }

  lemma StepIsTraced(s: Engine, e: Event, trace: seq<Dialling>) returns (s': Engine, longer: seq<Dialling>)
    requires Traced(s, trace) && Plausible(s, e)
    ensures s' == Step(s, e) && longer == trace + EventTrace(s, e) && Traced(s', longer)
  {
    match e
    case CallerEnters(_, _, _, _, _, _, _) => s', longer := EnterIsTraced(s, e, trace);
    case ChannelGone(_, _, _, _) => s', longer := GoneIsTraced(s, e, trace);
    case ChannelUp(channel, bridgeId, now) =>
      AnswerDialsNobody(s, channel, bridgeId, now);
      s', longer := StillTracedAfter(s, e, trace);
    case _ => s', longer := StillTracedAfter(s, e, trace);
  }

  lemma FirstIsTraced(s: Engine)
    requires Initial(s)
    ensures Traced(s, [])
  {
    assert Filter<Effect>([], IsOffer) == [];
  }

  lemma EventIsTraced(states: seq<Engine>, events: seq<Event>, i: nat, trace: seq<Dialling>)
    requires Run(states, events) && i < |events| && Traced(states[i], trace)
    ensures Traced(states[i + 1], trace + EventTraces(states, events)[i])
  {
    RunStep(states, events, i);
    var s', longer := StepIsTraced(states[i], events[i], trace);
  }

  lemma RunsAreTraced(states: seq<Engine>, events: seq<Event>, k: nat) returns (trace: seq<Dialling>)
    requires Run(states, events) && Initial(states[0]) && k <= |events|
    ensures trace == RunTrace(states, events, k) && Traced(states[k], trace)
  {
    var parts := EventTraces(states, events);
    FirstIsTraced(states[0]);
    forall i, t | 0 <= i < |parts| && Traced(states[i], t) ensures Traced(states[i + 1], t + parts[i]) {
      EventIsTraced(states, events, i, t);
    }
    FlattenAlong(Traced, states, parts, k);
    trace := Flatten(parts[..k]);
  }

  // ---------- Between two offers ----------

  ghost predicate RestartBetween(trace: seq<Dialling>, id: CallId, i: nat, j: nat) {
    exists r :: i < r <= j < |trace| && trace[r].call == id && Restarts(trace[r])
  }

  /** Without a restart whoever was dialled stays tried. */
  lemma {:induction false} StaysTried(trace: seq<Dialling>, id: CallId, i: nat, j: nat, member: Id)
    requires i < j <= |trace| && trace[i].call == id && member in Ids(trace[i].dialled)
    requires forall k :: 0 <= k < |trace| ==> FairAt(trace, k)
    requires forall r :: i < r < j && trace[r].call == id ==> !Restarts(trace[r])
    ensures member in TriedAfter(trace[..j], id)
  {
    var front, last := trace[..j][..j - 1], trace[j - 1];
    assert front == trace[..j - 1];
    if j - 1 > i {
      StaysTried(trace, id, i, j - 1, member);
      assert FairAt(trace, j - 1);
    }
  }

  /** Between two diallings of one member for one call, some attempt for it found every member eligible
      then already tried. */
  lemma DialledTwice(trace: seq<Dialling>, i: nat, j: nat, member: Id)
    requires forall k :: 0 <= k < |trace| ==> FairAt(trace, k)
    requires i < j < |trace| && trace[i].call == trace[j].call
    requires member in Ids(trace[i].dialled) && member in Ids(trace[j].dialled)
    ensures RestartBetween(trace, trace[i].call, i, j)
  {
    var id := trace[i].call;
    if forall r :: i < r < j && trace[r].call == id ==> !Restarts(trace[r]) {
      StaysTried(trace, id, i, j, member);
      assert FairAt(trace, j);
      var p :| 0 <= p < |Ids(trace[j].dialled)| && Ids(trace[j].dialled)[p] == member;
      assert trace[j].dialled[p] in trace[j].dialled;
      assert Restarts(trace[j]);
    }
  }

  lemma OffersNext(trace: seq<Dialling>, i: nat)
    requires i < |trace|
    ensures OffersOf(trace[..i + 1]) == OffersOf(trace[..i]) + OfferedEvents(trace[i].call, trace[i].offers)
  {
    assert trace[..i + 1][..i] == trace[..i];
  }

  lemma {:induction false} OffersGrow(trace: seq<Dialling>, i: nat, j: nat)
    requires i <= j <= |trace|
    ensures OffersOf(trace[..i]) <= OffersOf(trace[..j])
    decreases j
  {
    if i < j {
      OffersGrow(trace, i, j - 1);
      OffersNext(trace, j - 1);
    }
  }

  /** The dialling that made the p-th offer. */
  lemma {:induction false} DiallingAt(trace: seq<Dialling>, p: nat, n: nat) returns (i: nat)
    requires n <= |trace| && p < |OffersOf(trace[..n])|
    ensures i < n && |OffersOf(trace[..i])| <= p < |OffersOf(trace[..i + 1])|
    decreases n
  {
    i := n - 1;
    if p < |OffersOf(trace[..n - 1])| { i := DiallingAt(trace, p, n - 1); }
  }

  lemma OfferAt(trace: seq<Dialling>, p: nat) returns (i: nat)
    requires p < |OffersOf(trace)|
    ensures i < |trace| && |OffersOf(trace[..i])| <= p < |OffersOf(trace[..i + 1])|
    ensures var d, o := trace[i], p - |OffersOf(trace[..i])|;
            o < |d.offers| && OffersOf(trace)[p]
                              == AgentOffered(d.call, d.offers[o].0.id, d.offers[o].0.agentId, d.offers[o].1)
  {
    assert trace[..|trace|] == trace;
    i := DiallingAt(trace, p, |trace|);
    OffersNext(trace, i);
    OffersGrow(trace, i + 1, |trace|);
    assert OffersOf(trace)[p] == OffersOf(trace[..i + 1])[p];
  }

  /** Main result: whenever a run offers a call to one member twice, then after the first of the two offers,
      and at the latest with the second, an attempt for this call found every member eligible then tried. */
  lemma OfferedTwice(states: seq<Engine>, events: seq<Event>, k: nat, p: nat, q: nat) returns (r: nat)
    requires Run(states, events) && Initial(states[0]) && k <= |events|
    requires p < q < |Filter(states[k].log, IsOffer)|
    requires var offers := Filter(states[k].log, IsOffer);
             offers[p].AgentOffered? && offers[q].AgentOffered?
             && offers[p].call == offers[q].call && offers[p].member == offers[q].member
    ensures var trace := RunTrace(states, events, k);
            && r < |trace| && trace[r].call == Filter(states[k].log, IsOffer)[p].call && Restarts(trace[r])
            && p < |OffersOf(trace[..r])| <= q
  {
    var trace := RunsAreTraced(states, events, k);
    r := RepeatedOffer(trace, p, q);
  }

  lemma RepeatedOffer(trace: seq<Dialling>, p: nat, q: nat) returns (r: nat)
    requires (forall i :: 0 <= i < |trace| ==> FairAt(trace, i)) && p < q < |OffersOf(trace)|
    requires var offers := OffersOf(trace);
             offers[p].AgentOffered? && offers[q].AgentOffered?
             && offers[p].call == offers[q].call && offers[p].member == offers[q].member
    ensures r < |trace| && trace[r].call == OffersOf(trace)[p].call && Restarts(trace[r])
    ensures p < |OffersOf(trace[..r])| <= q
  {
    var i := OfferAt(trace, p);
    var j := OfferAt(trace, q);
    SeparateDiallings(trace, p, q, i, j);
    DialledMember(trace[i], p - |OffersOf(trace[..i])|);
    DialledMember(trace[j], q - |OffersOf(trace[..j])|);
    DialledTwice(trace, i, j, OffersOf(trace)[p].member);
    r :| i < r <= j && trace[r].call == trace[i].call && Restarts(trace[r]);
    OffersGrow(trace, i + 1, r);
    OffersGrow(trace, r, j);
  }

  lemma DialledMember(d: Dialling, o: nat)
    requires Fair(d) && o < |d.offers|
    ensures d.offers[o].0.id in Ids(d.dialled)
  {
    var m := d.offers[o].0;
    assert m in d.dialled;
    var x :| 0 <= x < |d.dialled| && d.dialled[x] == m;
    assert Ids(d.dialled)[x] == m.id;
  }

  /** One dialling offers to nobody twice. */
  lemma SeparateDiallings(trace: seq<Dialling>, p: nat, q: nat, i: nat, j: nat)
    requires forall k :: 0 <= k < |trace| ==> FairAt(trace, k)
    requires p < q && i < |trace| && j < |trace|
    requires |OffersOf(trace[..i])| <= p < |OffersOf(trace[..i + 1])|
    requires |OffersOf(trace[..j])| <= q < |OffersOf(trace[..j + 1])|
    requires var (o, o') := (p - |OffersOf(trace[..i])|, q - |OffersOf(trace[..j])|);
             o < |trace[i].offers| && o' < |trace[j].offers| && trace[i].offers[o].0.id == trace[j].offers[o'].0.id
    ensures i < j && FairAt(trace, i) && FairAt(trace, j)
  {
    assert FairAt(trace, i) && FairAt(trace, j);
    if j < i { OffersGrow(trace, j + 1, i); }
  }
}
