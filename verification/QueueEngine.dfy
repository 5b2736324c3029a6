/** The inbound queue call engine as a state machine: its state, and what each handler does
    to the whole of it. One handler is one atomic step; answers of the outside world
    (clock readings, member directory, channel ids from Asterisk) are inputs. */
module QueueEngine {
  import opened Prelude
  import opened QueueStrategy

  type Chan = string
  type CallId = string

  const USER_BUSY := 17
  const CALL_REJECTED := 21

  datatype Status = Waiting | Ringing | Bridged | Completed | Abandoned | TimedOut | Full {
    predicate Terminal() { this in {Completed, Abandoned, TimedOut, Full} }
    predicate Active() { this in {Waiting, Ringing} }
  }

  /** A row of the queue-call table. Times are in milliseconds. */
  datatype QueueCall = QueueCall(
    tenantId: Id, queueId: Id, callerChannelId: Chan, status: Status,
    ringingChannelIds: seq<Chan>, attemptOrder: seq<Id>,
    bridgeId: Option<Id>, answeredMemberId: Option<Id>, answeredAgentId: Option<Id>,
    enteredAt: int, bridgedAt: Option<int>, endedAt: Option<int>,
    waitSeconds: Option<int>, talkSeconds: Option<int>)

  /** maxCallers is 0 when the column is null or 0: both mean no limit. */
  datatype Queue = Queue(tenantId: Id, enabled: bool, strategy: Strategy, maxWaitTimeSeconds: nat,
                         maxCallers: nat, cursor: Option<Id>)

  datatype RingingAgentLeg = RingingAgentLeg(queueCallId: CallId, memberId: Id, agentId: Id)

  /** Logged queue-call events and commands sent to Asterisk, in the order they happen. */
  datatype Effect =
    | EnteredQueue(call: CallId, channel: Chan)
    | PositionChanged(call: CallId, position: nat)
    | AgentOffered(call: CallId, member: Id, agent: Id, channel: Chan)
    | AgentAnswered(call: CallId, member: Id, agent: Id, channel: Chan)
    | AgentRejected(call: CallId, member: Id, agent: Id, channel: Chan)
    | AgentUnavailable(call: CallId, member: Id, agent: Id, channel: Chan)
    | CallBridged(call: CallId, bridge: Id, channel: Chan)
    | CallCompleted(call: CallId, channel: Chan)
    | CallerAbandoned(call: CallId, channel: Chan)
    | QueueTimeout(call: CallId, noEligibleMembers: bool)
    | QueueFull(call: CallId, channel: Chan)
    | AnswerChannel(channel: Chan)
    | HangupChannel(channel: Chan)
    | CancelRing(channel: Chan)
    | BridgeChannels(caller: Chan, agent: Chan, bridge: Id)

  /** The two in-memory maps, the queue-call and queue tables, and everything sent so far. */
  datatype Engine = Engine(
    queueCallByCallerChannel: map<Chan, CallId>,
    ringingAgentLegs: map<Chan, RingingAgentLeg>,
    calls: map<CallId, QueueCall>,
    queues: map<Id, Queue>,
    log: seq<Effect>)

  /** An enabled member of the queue, and whether its agent has an extension assigned in the tenant. */
  datatype RosterEntry = RosterEntry(member: Member, hasExtension: bool)

  /** What one ring attempt reads: the clock, the directory, the aggregates, the random draw, and
      for every member whose leg Asterisk can originate the id of the new channel. */
  datatype Attempt = Attempt(now: int, roster: seq<RosterEntry>, aggregates: seq<Aggregate>,
                             roll: nat, originated: map<Id, Chan>)

  predicate Busy(calls: map<CallId, QueueCall>, agentId: Id) {
    exists id :: id in calls && calls[id].answeredAgentId == Some(agentId) && calls[id].status == Bridged
  }

  function EligibleMembers(calls: map<CallId, QueueCall>, roster: seq<RosterEntry>): (r: seq<Member>)
    ensures forall m :: m in r <==>
              m.agentId !in BusyAgents(calls) && RosterEntry(m, true) in roster
    ensures DistinctRoster(roster) ==> DistinctMembers(r)
  {
    if roster == [] then []
    else
      var rest := EligibleMembers(calls, roster[1..]);
      if Busy(calls, roster[0].member.agentId) || !roster[0].hasExtension then rest
      else [roster[0].member] + rest
  }

  ghost function BusyAgents(calls: map<CallId, QueueCall>): set<Id> {
    set id | id in calls && calls[id].status == Bridged && calls[id].answeredAgentId.Some?
        :: calls[id].answeredAgentId.value
  }

  ghost predicate DistinctRoster(roster: seq<RosterEntry>) {
    forall i, j :: 0 <= i < j < |roster| ==> roster[i].member.id != roster[j].member.id
  }

  /** The legs Asterisk did originate, in dialling order. */
  function Offers(members: seq<Member>, originated: map<Id, Chan>): seq<(Member, Chan)> {
    if members == [] then []
    else
      var before, last := Offers(members[..|members| - 1], originated), members[|members| - 1];
      if last.id in originated then before + [(last, originated[last.id])] else before
  }

  lemma {:induction false} OffersOriginated(members: seq<Member>, originated: map<Id, Chan>)
    ensures forall o :: o in Offers(members, originated) <==>
              o.0 in members && o.0.id in originated && originated[o.0.id] == o.1
  {
    if members != [] {
      var front, last := members[..|members| - 1], members[|members| - 1];
      assert members == front + [last];
      OffersOriginated(front, originated);
    }
  }

  function Channels(offers: seq<(Member, Chan)>): (r: seq<Chan>)
    ensures |r| == |offers| && forall i :: 0 <= i < |r| ==> r[i] == offers[i].1
  {
    seq(|offers|, i requires 0 <= i < |offers| => offers[i].1)
  }

  function AddLegs(legs: map<Chan, RingingAgentLeg>, callId: CallId,
                   offers: seq<(Member, Chan)>): map<Chan, RingingAgentLeg> {
    if offers == [] then legs
    else
      var last := offers[|offers| - 1];
      AddLegs(legs, callId, offers[..|offers| - 1])[last.1 := RingingAgentLeg(callId, last.0.id, last.0.agentId)]
  }

  function OfferedEvents(callId: CallId, offers: seq<(Member, Chan)>): (r: seq<Effect>)
    ensures |r| == |offers|
    ensures forall i :: 0 <= i < |r| ==> r[i] == AgentOffered(callId, offers[i].0.id, offers[i].0.agentId, offers[i].1)
  {
    seq(|offers|, i requires 0 <= i < |offers| =>
      AgentOffered(callId, offers[i].0.id, offers[i].0.agentId, offers[i].1))
  }

  function CancelEvents(channels: seq<Chan>): (r: seq<Effect>)
    ensures |r| == |channels| && forall i :: 0 <= i < |r| ==> r[i] == CancelRing(channels[i])
  {
    seq(|channels|, i requires 0 <= i < |channels| => CancelRing(channels[i]))
  }

  function ChannelSet(channels: seq<Chan>): (r: set<Chan>)
    ensures forall c :: c in r <==> c in channels
  {
    set c | c in channels
  }

  /** Whole seconds from `from` to `now`, never negative. */
  function ElapsedSeconds(from: int, now: int): nat {
    if now < from then 0 else (now - from) / 1000
  }

  function ActiveCalls(calls: map<CallId, QueueCall>, queueId: Id): set<CallId> {
    set id | id in calls && calls[id].queueId == queueId && calls[id].status.Active()
  }

  /** One more than the active calls of the queue that entered earlier. */
  function Position(calls: map<CallId, QueueCall>, id: CallId): nat
    requires id in calls
  {
    |set other | other in calls && calls[other].queueId == calls[id].queueId && calls[other].status.Active()
                 && other != id && calls[other].enteredAt < calls[id].enteredAt| + 1
  }

  function Put(s: Engine, id: CallId, call: QueueCall): Engine {
    s.(calls := s.calls[id := call])
  }

  function Emit(s: Engine, effects: seq<Effect>): Engine {
    s.(log := s.log + effects)
  }

  function TimeoutQueueCall(s: Engine, id: CallId, noEligibleMembers: bool, now: int): Engine
    requires id in s.calls
  {
    var call := s.calls[id];
    var s1 := Put(s, id, call.(status := TimedOut, endedAt := Some(now),
                               waitSeconds := Some(ElapsedSeconds(call.enteredAt, now))));
    Emit(s1.(queueCallByCallerChannel := s1.queueCallByCallerChannel - {call.callerChannelId}),
         [QueueTimeout(id, noEligibleMembers), HangupChannel(call.callerChannelId)])
  }

  /** The time at which a call has waited as long as its queue allows. */
  function Deadline(s: Engine, id: CallId): int
    requires id in s.calls && s.calls[id].queueId in s.queues
  {
    s.calls[id].enteredAt + s.queues[s.calls[id].queueId].maxWaitTimeSeconds * 1000
  }

  /** The attempt order the resolver is given: emptied once every eligible member is in it. */
  function CycleOrder(attemptOrder: seq<Id>, eligible: seq<Member>): seq<Id> {
    if forall m :: m in eligible ==> m.id in attemptOrder then [] else attemptOrder
  }

  function DialFor(s: Engine, id: CallId, a: Attempt): DialSet
    requires id in s.calls && s.calls[id].queueId in s.queues
  {
    var queue := s.queues[s.calls[id].queueId];
    var eligible := EligibleMembers(s.calls, a.roster);
    ResolveDialSet(queue.strategy, eligible, a.aggregates, queue.cursor,
                   CycleOrder(s.calls[id].attemptOrder, eligible), a.roll)
  }

  /** One attempt that dials: the cursor moves, every leg that could be originated rings. */
  function RingDialSet(s: Engine, id: CallId, a: Attempt): Engine
    requires id in s.calls && s.calls[id].queueId in s.queues
  {
    var call := s.calls[id];
    var queue := s.queues[call.queueId];
    var d := DialFor(s, id, a);
    var order := CycleOrder(call.attemptOrder, EligibleMembers(s.calls, a.roster));
    var offers := Offers(d.membersToRing, a.originated);
    Engine(
      s.queueCallByCallerChannel,
      AddLegs(s.ringingAgentLegs, id, offers),
      s.calls[id := call.(ringingChannelIds := Channels(offers),
                          attemptOrder := order + Ids(d.membersToRing),
                          status := Ringing)],
      if d.nextCursorMemberId.Some? then s.queues[call.queueId := queue.(cursor := d.nextCursorMemberId)] else s.queues,
      s.log + OfferedEvents(id, offers))
  }

  /** The clock moves at least one millisecond between nested attempts. */
  ghost predicate ClockAdvances(attempts: nat -> Attempt) {
    forall m: nat, n: nat :: m < n ==> attempts(m).now < attempts(n).now
  }

  /** Ring attempts n, n + 1, ... of one handler, until a leg rings or the call times out. */
  ghost function StartRingAttempt(s: Engine, id: CallId, attempts: nat -> Attempt, n: nat): Engine
    requires id in s.calls && s.calls[id].queueId in s.queues
    requires ClockAdvances(attempts)
    decreases Deadline(s, id) - attempts(n).now
  {
    var a := attempts(n);
    if a.now >= Deadline(s, id) then TimeoutQueueCall(s, id, false, a.now)
    else if EligibleMembers(s.calls, a.roster) == [] then TimeoutQueueCall(s, id, true, a.now)
    else
      var rung := RingDialSet(s, id, a);
      if rung.calls[id].ringingChannelIds != [] then rung
      else
        assert attempts(n).now < attempts(n + 1).now;
        StartRingAttempt(rung, id, attempts, n + 1)
  }

  /** A caller enters the queue. The unique index on the caller channel rejects a second row. */
  ghost function CallerEntersQueue(s: Engine, channel: Chan, tenantId: Id, queueId: Id, newId: CallId,
                                   now: int, roster: seq<RosterEntry>, attempts: nat -> Attempt): Engine
    requires ClockAdvances(attempts)
  {
    if queueId !in s.queues || s.queues[queueId].tenantId != tenantId || !s.queues[queueId].enabled then
      Emit(s, [HangupChannel(channel)])
    else if CallerKnown(s.calls, channel) then s
    else
      var queue := s.queues[queueId];
      var call := NewCall(tenantId, queueId, channel, now);
      if queue.maxCallers != 0 && |ActiveCalls(s.calls, queueId)| >= queue.maxCallers then
        Emit(Put(s, newId, call.(status := Full, endedAt := Some(now))),
             [QueueFull(newId, channel), HangupChannel(channel)])
      else if EligibleMembers(s.calls, roster) == [] then
        Emit(Put(s, newId, call.(status := TimedOut, endedAt := Some(now))),
             [QueueTimeout(newId, true), HangupChannel(channel)])
      else
        StartRingAttempt(Admit(s, newId, call), newId, attempts, 0)
  }

  function NewCall(tenantId: Id, queueId: Id, channel: Chan, now: int): QueueCall {
    QueueCall(tenantId, queueId, channel, Waiting, [], [], None, None, None, now, None, None, None, None)
  }

  predicate CallerKnown(calls: map<CallId, QueueCall>, channel: Chan) {
    exists id :: id in calls && calls[id].callerChannelId == channel
  }

  function Admit(s: Engine, id: CallId, call: QueueCall): Engine {
    var s1 := Put(s, id, call);
    Emit(s1.(queueCallByCallerChannel := s1.queueCallByCallerChannel[call.callerChannelId := id]),
         [EnteredQueue(id, call.callerChannelId), PositionChanged(id, Position(s1.calls, id)),
          AnswerChannel(call.callerChannelId)])
  }

  /** A ringing leg answers: its rivals are cancelled and it is bridged to the caller. */
  function AgentAnswers(s: Engine, channel: Chan, bridgeId: Id, now: int): Engine {
    if channel !in s.ringingAgentLegs || s.ringingAgentLegs[channel].queueCallId !in s.calls then s
    else
      var leg := s.ringingAgentLegs[channel];
      var call := s.calls[leg.queueCallId];
      if call.status != Ringing || channel !in call.ringingChannelIds then s
      else BridgeWinner(s, channel, leg, bridgeId, now)
  }

  function BridgeWinner(s: Engine, channel: Chan, leg: RingingAgentLeg, bridgeId: Id, now: int): Engine
    requires leg.queueCallId in s.calls
  {
    var id, call := leg.queueCallId, s.calls[leg.queueCallId];
    Emit(Put(s, id, call.(status := Bridged, bridgeId := Some(bridgeId), bridgedAt := Some(now),
                          ringingChannelIds := [], answeredMemberId := Some(leg.memberId),
                          answeredAgentId := Some(leg.agentId),
                          waitSeconds := Some(ElapsedSeconds(call.enteredAt, now))))
           .(ringingAgentLegs := s.ringingAgentLegs - ChannelSet(call.ringingChannelIds)),
         AnswerEffects(Without(call.ringingChannelIds, channel), call.callerChannelId, leg, channel, bridgeId))
  }

  /** The rivals are cancelled first, then the winner is bridged, then both events are logged. */
  function AnswerEffects(losers: seq<Chan>, caller: Chan, leg: RingingAgentLeg, channel: Chan,
                         bridgeId: Id): seq<Effect> {
    CancelEvents(losers)
    + [BridgeChannels(caller, channel, bridgeId)]
    + [AgentAnswered(leg.queueCallId, leg.memberId, leg.agentId, channel),
       CallBridged(leg.queueCallId, bridgeId, channel)]
  }

  function CallerHangsUp(s: Engine, channel: Chan, now: int): Engine
    requires channel in s.queueCallByCallerChannel
  {
    var id := s.queueCallByCallerChannel[channel];
    var s1 := s.(queueCallByCallerChannel := s.queueCallByCallerChannel - {channel});
    if id !in s.calls || s.calls[id].endedAt.Some? then s1
    else
      var call := s.calls[id];
      if call.status == Bridged then
        Emit(Put(s1, id, call.(status := Completed, endedAt := Some(now),
                               talkSeconds := if call.bridgedAt.Some?
                                              then Some(ElapsedSeconds(call.bridgedAt.value, now))
                                              else call.talkSeconds)),
             [CallCompleted(id, channel)])
      else
        Emit(Put(s1, id, call.(status := Abandoned, ringingChannelIds := [], endedAt := Some(now),
                               waitSeconds := Some(ElapsedSeconds(call.enteredAt, now))))
               .(ringingAgentLegs := s1.ringingAgentLegs - ChannelSet(call.ringingChannelIds)),
             CancelEvents(call.ringingChannelIds) + [CallerAbandoned(id, channel)])
  }

  /** A ringing leg is gone: it is struck off, its member logged as rejecting or unavailable. */
  function StrikeLeg(s: Engine, channel: Chan, cause: Option<int>): Engine
    requires channel in s.ringingAgentLegs && s.ringingAgentLegs[channel].queueCallId in s.calls
  {
    var leg := s.ringingAgentLegs[channel];
    var call := s.calls[leg.queueCallId];
    Emit(Put(s, leg.queueCallId, call.(ringingChannelIds := Without(call.ringingChannelIds, channel)))
           .(ringingAgentLegs := s.ringingAgentLegs - {channel}),
         [if cause in {Some(USER_BUSY), Some(CALL_REJECTED)}
          then AgentRejected(leg.queueCallId, leg.memberId, leg.agentId, channel)
          else AgentUnavailable(leg.queueCallId, leg.memberId, leg.agentId, channel)])
  }

  ghost function AgentLegEnds(s: Engine, channel: Chan, cause: Option<int>, attempts: nat -> Attempt): Engine
    requires channel in s.ringingAgentLegs && ClockAdvances(attempts)
  {
    var leg := s.ringingAgentLegs[channel];
    var id := leg.queueCallId;
    if id !in s.calls || s.calls[id].status != Ringing || channel !in s.calls[id].ringingChannelIds then
      s.(ringingAgentLegs := s.ringingAgentLegs - {channel})
    else
      var call := s.calls[id];
      var s1 := StrikeLeg(s, channel, cause);
      if s1.calls[id].ringingChannelIds != [] then s1
      else if !QueueEnabled(s, call.tenantId, call.queueId) then
        Emit(s1.(queueCallByCallerChannel := s1.queueCallByCallerChannel - {call.callerChannelId}),
             [HangupChannel(call.callerChannelId)])
      else StartRingAttempt(s1, id, attempts, 0)
  }

  predicate QueueEnabled(s: Engine, tenantId: Id, queueId: Id) {
    queueId in s.queues && s.queues[queueId].tenantId == tenantId && s.queues[queueId].enabled
  }

  ghost function ChannelDestroyed(s: Engine, channel: Chan, cause: Option<int>, now: int,
                                  attempts: nat -> Attempt): Engine
    requires ClockAdvances(attempts)
  {
    if channel in s.queueCallByCallerChannel then CallerHangsUp(s, channel, now)
    else if channel in s.ringingAgentLegs then AgentLegEnds(s, channel, cause, attempts)
    else s
  }

  // ---------- Runs ----------

  datatype Event =
    | CallerEnters(channel: Chan, tenantId: Id, queueId: Id, newId: CallId, now: int,
                   roster: seq<RosterEntry>, attempts: nat -> Attempt)
    | ChannelUp(channel: Chan, bridgeId: Id, now: int)
    | ChannelGone(channel: Chan, cause: Option<int>, now: int, attempts: nat -> Attempt)
    | QueueSaved(queueId: Id, queue: Queue)
    | QueueRemoved(queueId: Id)

  /** What the outside world guarantees about one event: ids from the database and from Asterisk
      are new, directory rows are distinct, and the clock advances between nested attempts. */
  ghost predicate Plausible(s: Engine, e: Event) {
    match e
    case CallerEnters(channel, _, _, newId, _, roster, attempts) =>
      newId !in s.calls && DistinctRoster(roster) && PlausibleAttempts(s, attempts)
    case ChannelGone(_, _, _, attempts) => PlausibleAttempts(s, attempts)
    case _ => true
  }

  ghost predicate PlausibleAttempts(s: Engine, attempts: nat -> Attempt) {
    ClockAdvances(attempts) && forall n: nat :: PlausibleAttempt(s.log, attempts(n))
  }

  ghost predicate PlausibleAttempt(log: seq<Effect>, a: Attempt) {
    && DistinctRoster(a.roster)
    && (forall m :: m in a.originated ==> !Offered(log, a.originated[m]))
    && (forall m, m' :: m in a.originated && m' in a.originated && m != m' ==> a.originated[m] != a.originated[m'])
  }

  ghost predicate Offered(log: seq<Effect>, channel: Chan) {
    exists e :: e in log && e.AgentOffered? && e.channel == channel
  }

  ghost function Step(s: Engine, e: Event): Engine
    requires Plausible(s, e)
  {
    match e
    case CallerEnters(channel, tenantId, queueId, newId, now, roster, attempts) =>
      CallerEntersQueue(s, channel, tenantId, queueId, newId, now, roster, attempts)
    case ChannelUp(channel, bridgeId, now) => AgentAnswers(s, channel, bridgeId, now)
    case ChannelGone(channel, cause, now, attempts) => ChannelDestroyed(s, channel, cause, now, attempts)
    case QueueSaved(queueId, queue) => s.(queues := s.queues[queueId := queue])
    case QueueRemoved(queueId) => s.(queues := s.queues - {queueId})
  }

  /** A run: every event is plausible in the state it meets. */
  ghost predicate Run(states: seq<Engine>, events: seq<Event>) {
    && |states| == |events| + 1
    && forall i {:trigger events[i]} :: 0 <= i < |events| ==>
         Plausible(states[i], events[i]) && states[i + 1] == Step(states[i], events[i])
  }

  lemma RunStep(states: seq<Engine>, events: seq<Event>, k: nat)
    requires Run(states, events) && k < |events|
    ensures Plausible(states[k], events[k]) && states[k + 1] == Step(states[k], events[k])
  {
  }

  ghost predicate Initial(s: Engine) {
    s.queueCallByCallerChannel == map[] && s.ringingAgentLegs == map[] && s.calls == map[] && s.log == []
  }
}
