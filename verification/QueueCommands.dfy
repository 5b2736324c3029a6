/** What the log tells Asterisk and the event table, effect by effect: who is bridged, answered and hung up on. */
module QueueCommands {
  import opened Prelude
  import opened QueueStrategy
  import opened QueueEngine
  import opened QueueInvariants
  import opened QueueSafety

  // ---------- Rows and effects ----------

  predicate WasBridged(c: QueueCall) { c.status in {Bridged, Completed} }

  /** The call has waited in the queue, unless it was timed out on entry. */
  predicate Waited(c: QueueCall) { c.status in {Waiting, Ringing, Bridged, Completed, Abandoned} }

  predicate OnBridge(calls: map<CallId, QueueCall>, id: CallId, caller: Chan, bridge: Id) {
    id in calls && WasBridged(calls[id]) && calls[id].callerChannelId == caller && calls[id].bridgeId == Some(bridge)
  }

  /** The channel of the call that is known by this id. */
  predicate CallerOf(calls: map<CallId, QueueCall>, id: CallId, channel: Chan) {
    id in calls && calls[id].callerChannelId == channel
  }

  /** What has to stand next to effect j. An answer comes with the command that connects its channel to the caller
      of its call, before it, and its announcement, after it; neither comes without the other. Who is refused
      or timed out is hung up on next, who enters is answered. */
  ghost predicate Explained(log: seq<Effect>, calls: map<CallId, QueueCall>, j: int)
    requires 0 <= j < |log|
  {
    match log[j]
    case BridgeChannels(caller, agent, bridge) =>
      && j + 2 < |log| && log[j + 1].AgentAnswered? && log[j + 1].channel == agent
      && OnBridge(calls, log[j + 1].call, caller, bridge) && log[j + 2] == CallBridged(log[j + 1].call, bridge, agent)
    case AgentAnswered(id, _, _, agent) =>
      && 0 < j < |log| - 1 && log[j - 1].BridgeChannels? && log[j - 1].agent == agent
      && OnBridge(calls, id, log[j - 1].caller, log[j - 1].bridge)
      && log[j + 1] == CallBridged(id, log[j - 1].bridge, agent)
    case CallBridged(id, bridge, agent) =>
      && 1 < j && log[j - 1].AgentAnswered? && log[j - 1].call == id && log[j - 1].channel == agent
      && id in calls && log[j - 2] == BridgeChannels(calls[id].callerChannelId, agent, bridge)
    case QueueFull(id, channel) => CallerOf(calls, id, channel) && j + 1 < |log| && log[j + 1] == HangupChannel(channel)
    case QueueTimeout(id, _) =>
      id in calls && j + 1 < |log| && log[j + 1] == HangupChannel(calls[id].callerChannelId)
    case EnteredQueue(id, channel) =>
      && CallerOf(calls, id, channel) && j + 2 < |log| && log[j + 2] == AnswerChannel(channel)
      && log[j + 1].PositionChanged? && log[j + 1].call == id
    case CallCompleted(id, channel) => CallerOf(calls, id, channel)
    case CallerAbandoned(id, channel) => CallerOf(calls, id, channel)
    case AnswerChannel(channel) => 1 < j && log[j - 2].EnteredQueue? && log[j - 2].channel == channel
    case _ => true
  }

  ghost predicate AllExplained(log: seq<Effect>, calls: map<CallId, QueueCall>) {
    forall j :: 0 <= j < |log| ==> Explained(log, calls, j)
  }

  ghost predicate Announced(log: seq<Effect>, id: CallId) {
    exists j :: 0 <= j < |log| && log[j].CallBridged? && log[j].call == id
  }

  /** Every bridged call is announced, and every call that has waited has entered. */
  ghost predicate RowsLogged(log: seq<Effect>, calls: map<CallId, QueueCall>) {
    && (forall id :: id in calls && WasBridged(calls[id]) ==> Announced(log, id))
    && (forall id :: id in calls && Waited(calls[id]) ==> EnteredQueue(id, calls[id].callerChannelId) in log)
  }

  ghost predicate Commanded(s: Engine) {
    AllExplained(s.log, s.calls) && RowsLogged(s.log, s.calls)
  }

  // ---------- One batch of effects ----------

  /** Callers stay, and so do bridges. */
  ghost predicate Kept(calls: map<CallId, QueueCall>, calls': map<CallId, QueueCall>) {
    forall id :: id in calls ==>
      && id in calls' && calls'[id].callerChannelId == calls[id].callerChannelId
      && (WasBridged(calls[id]) ==> WasBridged(calls'[id]) && calls'[id].bridgeId == calls[id].bridgeId)
  }

  lemma ExplainedConcat(log: seq<Effect>, calls: map<CallId, QueueCall>, batch: seq<Effect>,
                        calls': map<CallId, QueueCall>)
    requires AllExplained(log, calls) && Kept(calls, calls') && AllExplained(batch, calls')
    ensures AllExplained(log + batch, calls')
  {
    forall j | 0 <= j < |log + batch| ensures Explained(log + batch, calls', j) {
      if j < |log| {
        assert Explained(log, calls, j) && (log + batch)[j] == log[j];
      } else {
        assert Explained(batch, calls', j - |log|);
      }
    }
  }

  lemma AnnouncedConcat(log: seq<Effect>, batch: seq<Effect>, id: CallId)
    ensures Announced(log, id) || Announced(batch, id) ==> Announced(log + batch, id)
  {
    if Announced(log, id) {
      var j :| 0 <= j < |log| && log[j].CallBridged? && log[j].call == id;
      assert (log + batch)[j] == log[j];
    } else if Announced(batch, id) {
      var j :| 0 <= j < |batch| && batch[j].CallBridged? && batch[j].call == id;
      assert (log + batch)[|log| + j] == batch[j];
    }
  }

  /** Row `id` becomes `call` while the batch is logged. */
  ghost predicate Accounts(calls: map<CallId, QueueCall>, id: CallId, call: QueueCall, batch: seq<Effect>) {
    && AllExplained(batch, calls[id := call])
    && (id in calls ==>
          && call.callerChannelId == calls[id].callerChannelId
          && (WasBridged(calls[id]) ==> WasBridged(call) && call.bridgeId == calls[id].bridgeId))
    && (WasBridged(call) ==> (id in calls && WasBridged(calls[id])) || Announced(batch, id))
    && (Waited(call) ==> (id in calls && Waited(calls[id])) || EnteredQueue(id, call.callerChannelId) in batch)
  }

  lemma RowKeepsCommanded(s: Engine, id: CallId, call: QueueCall, batch: seq<Effect>, s': Engine)
    requires Commanded(s) && Accounts(s.calls, id, call, batch)
    requires s'.calls == s.calls[id := call] && s'.log == s.log + batch
    ensures Commanded(s')
  {
    ExplainedConcat(s.log, s.calls, batch, s'.calls);
    forall other | other in s'.calls && WasBridged(s'.calls[other]) ensures Announced(s'.log, other) {
      AnnouncedConcat(s.log, batch, other);
    }
  }

  lemma LogKeepsCommanded(s: Engine, batch: seq<Effect>, s': Engine)
    requires Commanded(s) && AllExplained(batch, s.calls) && s'.calls == s.calls && s'.log == s.log + batch
    ensures Commanded(s')
  {
    ExplainedConcat(s.log, s.calls, batch, s.calls);
    forall id | id in s.calls && WasBridged(s.calls[id]) ensures Announced(s'.log, id) {
      AnnouncedConcat(s.log, batch, id);
    }
  }

  // ---------- Handlers ----------

  lemma TimeoutCommanded(s: Engine, id: CallId, noEligibleMembers: bool, now: int) returns (s': Engine)
    requires Commanded(s) && Quiet(s, id)
    ensures s' == TimeoutQueueCall(s, id, noEligibleMembers, now) && Commanded(s')
  {
    s' := TimeoutQueueCall(s, id, noEligibleMembers, now);
    var batch := [QueueTimeout(id, noEligibleMembers), HangupChannel(s.calls[id].callerChannelId)];
    RowKeepsCommanded(s, id, s'.calls[id], batch, s');
  }

  lemma RingCommanded(s: Engine, id: CallId, a: Attempt) returns (s': Engine)
    requires Commanded(s) && Quiet(s, id) && s.calls[id].queueId in s.queues
    ensures s' == RingDialSet(s, id, a) && Commanded(s')
  {
    s' := RingDialSet(s, id, a);
    var batch := OfferedEvents(id, Offers(DialFor(s, id, a).membersToRing, a.originated));
    RowKeepsCommanded(s, id, s'.calls[id], batch, s');
  }

  lemma {:induction false} StartRingCommanded(s: Engine, id: CallId, attempts: nat -> Attempt, n: nat)
    returns (s': Engine)
    requires Commanded(s) && Quiet(s, id) && s.calls[id].queueId in s.queues && ClockAdvances(attempts)
    ensures s' == StartRingAttempt(s, id, attempts, n) && Commanded(s')
    decreases Deadline(s, id) - attempts(n).now
  {
    var a := attempts(n);
    if a.now >= Deadline(s, id) {
      s' := TimeoutCommanded(s, id, false, a.now);
    } else if EligibleMembers(s.calls, a.roster) == [] {
      s' := TimeoutCommanded(s, id, true, a.now);
    } else {
      s' := RingCommanded(s, id, a);
      if s'.calls[id].ringingChannelIds == [] {
        StillQuiet(s, id, a);
        assert attempts(n).now < attempts(n + 1).now;
        s' := StartRingCommanded(s', id, attempts, n + 1);
      }
    }
  }

  lemma RefuseCommanded(s: Engine, id: CallId, call: QueueCall, refusal: Effect) returns (s': Engine)
    requires Commanded(s) && id !in s.calls && call.status in {Full, TimedOut}
    requires refusal == QueueFull(id, call.callerChannelId) || refusal == QueueTimeout(id, true)
    ensures s' == Emit(Put(s, id, call), [refusal, HangupChannel(call.callerChannelId)]) && Commanded(s')
  {
    s' := Emit(Put(s, id, call), [refusal, HangupChannel(call.callerChannelId)]);
    RowKeepsCommanded(s, id, call, [refusal, HangupChannel(call.callerChannelId)], s');
  }

  lemma AdmitCommanded(s: Engine, id: CallId, call: QueueCall) returns (s': Engine)
    requires Commanded(s) && id !in s.calls && call.status == Waiting
    ensures s' == Admit(s, id, call) && Commanded(s')
  {
    s' := Admit(s, id, call);
    var channel := call.callerChannelId;
    var batch := [EnteredQueue(id, channel), PositionChanged(id, Position(s'.calls, id)), AnswerChannel(channel)];
    RowKeepsCommanded(s, id, call, batch, s');
  }

  lemma EnterCommanded(s: Engine, e: Event) returns (s': Engine)
    requires Commanded(s) && e.CallerEnters? && Plausible(s, e)
    ensures s' == Step(s, e) && Commanded(s')
  {
    if !QueueEnabled(s, e.tenantId, e.queueId) {
      s' := Emit(s, [HangupChannel(e.channel)]);
      LogKeepsCommanded(s, [HangupChannel(e.channel)], s');
    } else if CallerKnown(s.calls, e.channel) {
      s' := s;
    } else {
      var queue, call := s.queues[e.queueId], NewCall(e.tenantId, e.queueId, e.channel, e.now);
      if queue.maxCallers != 0 && |ActiveCalls(s.calls, e.queueId)| >= queue.maxCallers {
        call := call.(status := Full, endedAt := Some(e.now));
        s' := RefuseCommanded(s, e.newId, call, QueueFull(e.newId, e.channel));
      } else if EligibleMembers(s.calls, e.roster) == [] {
        call := call.(status := TimedOut, endedAt := Some(e.now));
        s' := RefuseCommanded(s, e.newId, call, QueueTimeout(e.newId, true));
      } else {
        s' := AdmitCommanded(s, e.newId, call);
        s' := StartRingCommanded(s', e.newId, e.attempts, 0);
      }
    }
  }

  lemma CancelsExplained(channels: seq<Chan>, rest: seq<Effect>, calls: map<CallId, QueueCall>)
    requires AllExplained(rest, calls)
    ensures AllExplained(CancelEvents(channels) + rest, calls)
  {
    ExplainedConcat(CancelEvents(channels), calls, rest, calls);
  }

  lemma AnswerCommanded(s: Engine, channel: Chan, bridgeId: Id, now: int) returns (s': Engine)
    requires Commanded(s)
    ensures s' == AgentAnswers(s, channel, bridgeId, now) && Commanded(s')
  {
    s' := AgentAnswers(s, channel, bridgeId, now);
    if channel in s.ringingAgentLegs && s.ringingAgentLegs[channel].queueCallId in s.calls {
      var leg := s.ringingAgentLegs[channel];
      var id, call := leg.queueCallId, s.calls[leg.queueCallId];
      if call.status == Ringing && channel in call.ringingChannelIds {
        WinnerCommanded(s, channel, leg, bridgeId, now, s');
      }
    }
  }

  lemma WinnerCommanded(s: Engine, channel: Chan, leg: RingingAgentLeg, bridgeId: Id, now: int, s': Engine)
    requires Commanded(s) && leg.queueCallId in s.calls && s.calls[leg.queueCallId].status == Ringing
    requires s' == BridgeWinner(s, channel, leg, bridgeId, now)
    ensures Commanded(s')
  {
    var id, call := leg.queueCallId, s.calls[leg.queueCallId];
    var losers, call' := Without(call.ringingChannelIds, channel), s'.calls[leg.queueCallId];
    var told := [BridgeChannels(call.callerChannelId, channel, bridgeId)]
                + [AgentAnswered(id, leg.memberId, leg.agentId, channel), CallBridged(id, bridgeId, channel)];
    assert AllExplained(told, s.calls[id := call']);
    CancelsExplained(losers, told, s.calls[id := call']);
    var batch := CancelEvents(losers) + told;
    assert batch[|losers| + 2] == told[2] && Announced(batch, id);
    assert s'.log == s.log + batch;
    RowKeepsCommanded(s, id, call', batch, s');
  }

  lemma CallerGoneCommanded(s: Engine, channel: Chan, now: int) returns (s': Engine)
    requires Inv(s) && Commanded(s) && channel in s.queueCallByCallerChannel
    ensures s' == CallerHangsUp(s, channel, now) && Commanded(s')
  {
    var id := s.queueCallByCallerChannel[channel];
    assert CallerOf(s.calls, id, channel) && s.calls[id].endedAt == None;
    if s.calls[id].status == Bridged {
      s' := CompletedCommanded(s, channel, now);
    } else {
      s' := AbandonedCommanded(s, channel, now);
    }
  }

  lemma CompletedCommanded(s: Engine, channel: Chan, now: int) returns (s': Engine)
    requires Commanded(s) && channel in s.queueCallByCallerChannel
    requires CallerOf(s.calls, s.queueCallByCallerChannel[channel], channel)
    requires var call := s.calls[s.queueCallByCallerChannel[channel]]; call.endedAt == None && call.status == Bridged
    ensures s' == CallerHangsUp(s, channel, now) && Commanded(s')
  {
    var id := s.queueCallByCallerChannel[channel];
    s' := CallerHangsUp(s, channel, now);
    RowKeepsCommanded(s, id, s'.calls[id], [CallCompleted(id, channel)], s');
  }

  lemma AbandonedCommanded(s: Engine, channel: Chan, now: int) returns (s': Engine)
    requires Commanded(s) && channel in s.queueCallByCallerChannel
    requires CallerOf(s.calls, s.queueCallByCallerChannel[channel], channel)
    requires var call := s.calls[s.queueCallByCallerChannel[channel]];
             call.endedAt == None && call.status != Bridged && !call.status.Terminal()
    ensures s' == CallerHangsUp(s, channel, now) && Commanded(s')
  {
    var id := s.queueCallByCallerChannel[channel];
    var call, told := s.calls[id], [CallerAbandoned(id, channel)];
    s' := CallerHangsUp(s, channel, now);
    CancelsExplained(call.ringingChannelIds, told, s.calls[id := s'.calls[id]]);
    var batch := CancelEvents(call.ringingChannelIds) + told;
    RowKeepsCommanded(s, id, s'.calls[id], batch, s');
  }

  lemma StrikeCommanded(s: Engine, channel: Chan, cause: Option<int>) returns (s': Engine)
    requires Commanded(s) && channel in s.ringingAgentLegs && s.ringingAgentLegs[channel].queueCallId in s.calls
    ensures s' == StrikeLeg(s, channel, cause) && Commanded(s')
  {
    var id := s.ringingAgentLegs[channel].queueCallId;
    s' := StrikeLeg(s, channel, cause);
    RowKeepsCommanded(s, id, s'.calls[id], [s'.log[|s.log|]], s');
  }

  lemma LegGoneCommanded(s: Engine, channel: Chan, cause: Option<int>, attempts: nat -> Attempt) returns (s': Engine)
    requires Commanded(s) && channel in s.ringingAgentLegs && ClockAdvances(attempts)
    ensures s' == AgentLegEnds(s, channel, cause, attempts) && Commanded(s')
  {
    var id := s.ringingAgentLegs[channel].queueCallId;
    if id !in s.calls || s.calls[id].status != Ringing || channel !in s.calls[id].ringingChannelIds {
      s' := s.(ringingAgentLegs := s.ringingAgentLegs - {channel});
    } else {
      var s1 := StrikeCommanded(s, channel, cause);
      if s1.calls[id].ringingChannelIds != [] {
        s' := s1;
      } else if QueueEnabled(s, s.calls[id].tenantId, s.calls[id].queueId) {
        s' := StartRingCommanded(s1, id, attempts, 0);
      } else {
        s' := AgentLegEnds(s, channel, cause, attempts);
        LogKeepsCommanded(s1, [HangupChannel(s.calls[id].callerChannelId)], s');
      }
    }
  }

  lemma StepCommanded(s: Engine, e: Event) returns (s': Engine)
    requires Inv(s) && Commanded(s) && Plausible(s, e)
    ensures s' == Step(s, e) && Commanded(s')
  {
    match e
    case CallerEnters(_, _, _, _, _, _, _) => s' := EnterCommanded(s, e);
    case ChannelUp(channel, bridgeId, now) => s' := AnswerCommanded(s, channel, bridgeId, now);
    case ChannelGone(channel, cause, now, attempts) =>
      if channel in s.queueCallByCallerChannel {
        s' := CallerGoneCommanded(s, channel, now);
      } else if channel in s.ringingAgentLegs {
        s' := LegGoneCommanded(s, channel, cause, attempts);
      } else {
        s' := s;
      }
    case _ => s' := Step(s, e);
  }

  // ---------- Runs ----------

  lemma {:induction false} RunsAreCommanded(states: seq<Engine>, events: seq<Event>, k: nat)
    requires Run(states, events) && Initial(states[0]) && k < |states|
    ensures Commanded(states[k])
    decreases k
  {
    if k > 0 {
      RunsAreCommanded(states, events, k - 1);
      ReachableStatesSatisfyInv(states, events, k - 1);
      RunStep(states, events, k - 1);
      var s' := StepCommanded(states[k - 1], events[k - 1]);
    }
  }

  /** Main result: in every state of every run, a call that is or was bridged has been connected exactly once: one
      command joins its caller, on its own bridge, to the channel of the agent who answered, an earlier offer of the
      call, and then the bridge is announced once. */
  lemma BridgedExactlyOnce(states: seq<Engine>, events: seq<Event>, k: nat, id: CallId)
    returns (i: nat, agent: Chan, bridge: Id)
    requires Run(states, events) && Initial(states[0]) && k < |states|
    requires id in states[k].calls && WasBridged(states[k].calls[id])
    ensures var (log, call) := (states[k].log, states[k].calls[id]);
            && i + 2 < |log| && call.bridgeId == Some(bridge)
            && log[i] == BridgeChannels(call.callerChannelId, agent, bridge)
            && call.answeredMemberId.Some? && call.answeredAgentId.Some?
            && log[i + 1] == AgentAnswered(id, call.answeredMemberId.value, call.answeredAgentId.value, agent)
            && log[i + 2] == CallBridged(id, bridge, agent)
            && AgentOffered(id, call.answeredMemberId.value, call.answeredAgentId.value, agent) in log[..i + 1]
            && (forall j :: 0 <= j < |log| && log[j].BridgeChannels? && log[j].caller == call.callerChannelId ==>
                  j == i)
            && (forall j :: 0 <= j < |log| && log[j].CallBridged? && log[j].call == id ==> j == i + 2)
  {
    ReachableStatesSatisfyInv(states, events, k);
    RunsAreCommanded(states, events, k);
    i, agent, bridge := BridgingOf(states[k], id);
    OneAnswerOneBridge(states[k], id, i);
  }

  lemma BridgingOf(s: Engine, id: CallId) returns (i: nat, agent: Chan, bridge: Id)
    requires AnswersMatched(s.log, s.calls) && Commanded(s) && id in s.calls && WasBridged(s.calls[id])
    ensures var call := s.calls[id];
            && i + 2 < |s.log| && call.bridgeId == Some(bridge)
            && s.log[i] == BridgeChannels(call.callerChannelId, agent, bridge)
            && call.answeredMemberId.Some? && call.answeredAgentId.Some?
            && s.log[i + 1] == AgentAnswered(id, call.answeredMemberId.value, call.answeredAgentId.value, agent)
            && s.log[i + 2] == CallBridged(id, bridge, agent)
            && AgentOffered(id, call.answeredMemberId.value, call.answeredAgentId.value, agent) in s.log[..i + 1]
  {
    var at :| 0 <= at < |s.log| && s.log[at].CallBridged? && s.log[at].call == id;
    assert Explained(s.log, s.calls, at);
    i, agent, bridge := at - 2, s.log[at].channel, s.log[at].bridge;
    assert Explained(s.log, s.calls, i);
    assert AnsweredBy(s.calls, AnsweredLeg(s.log[i + 1]));
  }

  lemma OneAnswerOneBridge(s: Engine, id: CallId, i: nat)
    requires Inv(s) && AllExplained(s.log, s.calls) && id in s.calls
    requires i + 2 < |s.log| && s.log[i].BridgeChannels? && s.log[i + 1].AgentAnswered? && s.log[i + 1].call == id
    ensures var caller := s.calls[id].callerChannelId;
            forall j :: 0 <= j < |s.log| && s.log[j].BridgeChannels? && s.log[j].caller == caller ==> j == i
    ensures forall j :: 0 <= j < |s.log| && s.log[j].CallBridged? && s.log[j].call == id ==> j == i + 2
  {
    forall j | 0 <= j < |s.log| && s.log[j].BridgeChannels? && s.log[j].caller == s.calls[id].callerChannelId
      ensures j == i
    {
      assert Explained(s.log, s.calls, j);
      assert s.log[j + 1].call == id;
    }
    forall j | 0 <= j < |s.log| && s.log[j].CallBridged? && s.log[j].call == id ensures j == i + 2 {
      assert Explained(s.log, s.calls, j);
    }
  }

  /** Conversely, nobody else is connected: every bridge command of a run, and every announcement, is that of a call
      that is or was bridged, on its own bridge. */
  lemma OnlyBridgedAreConnected(states: seq<Engine>, events: seq<Event>, k: nat, j: nat)
    returns (id: CallId)
    requires Run(states, events) && Initial(states[0]) && k < |states| && j < |states[k].log|
    requires states[k].log[j].BridgeChannels? || states[k].log[j].CallBridged?
    ensures var (calls, e) := (states[k].calls, states[k].log[j]);
            && id in calls && WasBridged(calls[id]) && calls[id].bridgeId == Some(e.bridge)
            && (e.BridgeChannels? ==> e.caller == calls[id].callerChannelId) && (e.CallBridged? ==> e.call == id)
  {
    RunsAreCommanded(states, events, k);
    var s := states[k];
    assert Explained(s.log, s.calls, j);
    if s.log[j].BridgeChannels? {
      id := s.log[j + 1].call;
    } else {
      id := s.log[j].call;
      assert Explained(s.log, s.calls, j - 2);
    }
  }

  /** In every run: who is refused or timed out is hung up on next; who enters is answered, and only who enters;
      and no caller is connected who was not answered before. */
  lemma CallersAreTold(states: seq<Engine>, events: seq<Event>, k: nat, j: nat)
    requires Run(states, events) && Initial(states[0]) && k < |states| && j < |states[k].log|
    ensures var (log, calls) := (states[k].log, states[k].calls);
            match log[j]
            case QueueFull(id, channel) =>
              CallerOf(calls, id, channel) && j + 1 < |log| && log[j + 1] == HangupChannel(channel)
            case QueueTimeout(id, _) =>
              id in calls && j + 1 < |log| && log[j + 1] == HangupChannel(calls[id].callerChannelId)
            case EnteredQueue(id, channel) =>
              CallerOf(calls, id, channel) && j + 2 < |log| && log[j + 2] == AnswerChannel(channel)
            case AnswerChannel(channel) => 1 < j && log[j - 2].EnteredQueue? && log[j - 2].channel == channel
            case _ => true
  {
    RunsAreCommanded(states, events, k);
    assert Explained(states[k].log, states[k].calls, j);
  }

  /** Whoever has waited, rung or been bridged has entered first. */
  lemma WaitingCallsEntered(states: seq<Engine>, events: seq<Event>, k: nat, id: CallId)
    requires Run(states, events) && Initial(states[0]) && k < |states|
    requires id in states[k].calls && Waited(states[k].calls[id])
    ensures EnteredQueue(id, states[k].calls[id].callerChannelId) in states[k].log
  {
    RunsAreCommanded(states, events, k);
  }
}
