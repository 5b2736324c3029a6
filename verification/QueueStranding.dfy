/** Calls whose queue is disabled when their last phone stops ringing: they are never ended. */
module QueueStranding {
  import opened Prelude
  import opened QueueStrategy
  import opened QueueEngine
  import opened QueueInvariants
  import opened QueueSafety
  import opened QueueTheorems
  import opened QueueSteps

  /** The row says that the call rings, but nobody's phone does, and its caller is forgotten. */
  ghost predicate Stranded(s: Engine, id: CallId) {
    && id in s.calls && s.calls[id].status == Ringing && s.calls[id].ringingChannelIds == []
    && s.calls[id].callerChannelId !in s.queueCallByCallerChannel
  }

  // ---------- Which callers are known ----------

  lemma {:induction false} RingingForgets(s: Engine, id: CallId, attempts: nat -> Attempt, n: nat)
    returns (s': Engine)
    requires Quiet(s, id) && s.calls[id].queueId in s.queues && ClockAdvances(attempts)
    ensures s' == StartRingAttempt(s, id, attempts, n)
    ensures s'.queueCallByCallerChannel.Keys <= s.queueCallByCallerChannel.Keys
    decreases Deadline(s, id) - attempts(n).now
  {
    var a := attempts(n);
    if a.now >= Deadline(s, id) {
      s' := TimeoutQueueCall(s, id, false, a.now);
    } else if EligibleMembers(s.calls, a.roster) == [] {
      s' := TimeoutQueueCall(s, id, true, a.now);
    } else {
      s' := RingDialSet(s, id, a);
      if s'.calls[id].ringingChannelIds == [] {
        StillQuiet(s, id, a);
        assert attempts(n).now < attempts(n + 1).now;
        s' := RingingForgets(s', id, attempts, n + 1);
      }
    }
  }

  /** Only a caller whom no row has yet becomes known. */
  ghost predicate Forgets(s: Engine, s': Engine, e: Event) {
    forall c :: c in s'.queueCallByCallerChannel && c !in s.queueCallByCallerChannel ==>
      e.CallerEnters? && c == e.channel && !CallerKnown(s.calls, c)
  }

  lemma EntryForgets(s: Engine, e: Event) returns (s': Engine)
    requires e.CallerEnters? && Plausible(s, e)
    ensures s' == Step(s, e) && Forgets(s, s', e)
  {
    if !QueueEnabled(s, e.tenantId, e.queueId) {
      s' := Emit(s, [HangupChannel(e.channel)]);
    } else if CallerKnown(s.calls, e.channel) {
      s' := s;
    } else {
      var queue, call := s.queues[e.queueId], NewCall(e.tenantId, e.queueId, e.channel, e.now);
      if queue.maxCallers != 0 && |ActiveCalls(s.calls, e.queueId)| >= queue.maxCallers {
        s' := Step(s, e);
      } else if EligibleMembers(s.calls, e.roster) == [] {
        s' := Step(s, e);
      } else {
        s' := RingingForgets(Admit(s, e.newId, call), e.newId, e.attempts, 0);
      }
    }
  }

  lemma LegEndForgets(s: Engine, channel: Chan, cause: Option<int>, attempts: nat -> Attempt) returns (s': Engine)
    requires channel in s.ringingAgentLegs && ClockAdvances(attempts)
    ensures s' == AgentLegEnds(s, channel, cause, attempts)
    ensures s'.queueCallByCallerChannel.Keys <= s.queueCallByCallerChannel.Keys
  {
    var id := s.ringingAgentLegs[channel].queueCallId;
    if id !in s.calls || s.calls[id].status != Ringing || channel !in s.calls[id].ringingChannelIds {
      s' := s.(ringingAgentLegs := s.ringingAgentLegs - {channel});
    } else {
      var s1 := StrikeLeg(s, channel, cause);
      if s1.calls[id].ringingChannelIds == [] && QueueEnabled(s, s.calls[id].tenantId, s.calls[id].queueId) {
        s' := RingingForgets(s1, id, attempts, 0);
      } else {
        s' := AgentLegEnds(s, channel, cause, attempts);
      }
    }
  }

  lemma StepForgets(s: Engine, e: Event) returns (s': Engine)
    requires Plausible(s, e)
    ensures s' == Step(s, e) && Forgets(s, s', e)
  {
    match e
    case CallerEnters(_, _, _, _, _, _, _) => s' := EntryForgets(s, e);
    case ChannelGone(channel, cause, now, attempts) =>
      if channel in s.queueCallByCallerChannel {
        s' := CallerHangsUp(s, channel, now);
      } else if channel in s.ringingAgentLegs {
        s' := LegEndForgets(s, channel, cause, attempts);
      } else {
        s' := s;
      }
    case ChannelUp(_, _, _) => s' := Step(s, e);
    case QueueSaved(_, _) => s' := Step(s, e);
    case QueueRemoved(_) => s' := Step(s, e);
  }

  // ---------- Stranded for good ----------

  /** The row an event may change. */
  ghost function RowOfEvent(s: Engine, e: Event): Option<CallId> {
    match e
    case CallerEnters(_, _, _, newId, _, _, _) => Some(newId)
    case ChannelUp(channel, _, _) =>
      if channel in s.ringingAgentLegs then Some(s.ringingAgentLegs[channel].queueCallId) else None
    case ChannelGone(channel, _, _, _) =>
      if channel in s.queueCallByCallerChannel then Some(s.queueCallByCallerChannel[channel])
      else if channel in s.ringingAgentLegs then Some(s.ringingAgentLegs[channel].queueCallId) else None
    case _ => None
  }

  lemma OnlyItsRow(s: Engine, e: Event, id: CallId)
    requires Inv(s) && Plausible(s, e) && id in s.calls && RowOfEvent(s, e) != Some(id)
    ensures id in Step(s, e).calls && Step(s, e).calls[id] == s.calls[id]
  {
    match e
    case CallerEnters(_, _, _, newId, _, _, _) => EntryRow(s, e);
    case ChannelUp(channel, bridgeId, now) =>
      if channel in s.ringingAgentLegs { AnswerRow(s, channel, bridgeId, now); }
    case ChannelGone(channel, cause, now, attempts) =>
      if channel in s.queueCallByCallerChannel {
        HangUpRow(s, channel, now);
      } else if channel in s.ringingAgentLegs {
        LegEndRow(s, channel, cause, attempts);
      }
    case QueueSaved(_, _) =>
    case QueueRemoved(_) =>
  }

  /** No event reaches the row of a stranded call. */
  lemma StrandedIsOutOfReach(s: Engine, e: Event, id: CallId)
    requires Linked(s.ringingAgentLegs, s.calls) && CallersLinked(s.queueCallByCallerChannel, s.calls)
    requires Plausible(s, e) && Stranded(s, id)
    ensures RowOfEvent(s, e) != Some(id)
  {
  }

  lemma StepKeepsStranded(s: Engine, e: Event, id: CallId)
    requires Inv(s) && Plausible(s, e) && Stranded(s, id)
    ensures Stranded(Step(s, e), id) && Step(s, e).calls[id] == s.calls[id]
  {
    StrandedIsOutOfReach(s, e, id);
    OnlyItsRow(s, e, id);
    var s' := StepForgets(s, e);
    assert CallerKnown(s.calls, s.calls[id].callerChannelId);
  }

  /** Main result: a call once stranded is never ended, whatever happens from then on, and counts against the limit
      of its queue for good. */
  lemma {:induction false} StrandedForGood(states: seq<Engine>, events: seq<Event>, j: nat, k: nat, id: CallId)
    requires Run(states, events) && Initial(states[0]) && j <= k < |states| && Stranded(states[j], id)
    ensures Stranded(states[k], id) && states[k].calls[id] == states[j].calls[id]
    ensures id in InQueue(states[k].calls, states[k].calls[id].queueId)
    decreases k
  {
    if j < k {
      StrandedForGood(states, events, j, k - 1, id);
      RunKeepsStranded(states, events, k - 1, id);
    }
  }

  lemma RunKeepsStranded(states: seq<Engine>, events: seq<Event>, k: nat, id: CallId)
    requires Run(states, events) && Initial(states[0]) && k < |events| && Stranded(states[k], id)
    ensures Stranded(states[k + 1], id) && states[k + 1].calls[id] == states[k].calls[id]
  {
    ReachableStatesSatisfyInv(states, events, k);
    RunStep(states, events, k);
    StepKeepsStranded(states[k], events[k], id);
  }

  // ---------- Exactly when ----------

  /** The last ringing leg of the call ends while its queue is not enabled for its tenant. */
  predicate Strands(s: Engine, e: Event, id: CallId)
    requires id in s.calls
  {
    && e.ChannelGone? && e.channel !in s.queueCallByCallerChannel && e.channel in s.ringingAgentLegs
    && s.ringingAgentLegs[e.channel].queueCallId == id && s.calls[id].ringingChannelIds == [e.channel]
    && !Enabled(s, s.calls[id].tenantId, s.calls[id].queueId)
  }

  lemma {:induction false} RingingKeepsOthers(s: Engine, id: CallId, attempts: nat -> Attempt, n: nat)
    returns (s': Engine)
    requires Quiet(s, id) && s.calls[id].queueId in s.queues && ClockAdvances(attempts)
    ensures s' == StartRingAttempt(s, id, attempts, n)
    ensures s.queueCallByCallerChannel.Keys - {s.calls[id].callerChannelId} <= s'.queueCallByCallerChannel.Keys
    decreases Deadline(s, id) - attempts(n).now
  {
    var a := attempts(n);
    if a.now >= Deadline(s, id) {
      s' := TimeoutQueueCall(s, id, false, a.now);
    } else if EligibleMembers(s.calls, a.roster) == [] {
      s' := TimeoutQueueCall(s, id, true, a.now);
    } else {
      s' := RingDialSet(s, id, a);
      if s'.calls[id].ringingChannelIds == [] {
        StillQuiet(s, id, a);
        assert attempts(n).now < attempts(n + 1).now;
        s' := RingingKeepsOthers(s', id, attempts, n + 1);
      }
    }
  }

  /** A caller is forgotten only by an event about its own call. */
  ghost predicate KeepsOthers(s: Engine, s': Engine, e: Event) {
    forall c :: c in s.queueCallByCallerChannel && c !in s'.queueCallByCallerChannel ==>
      RowOfEvent(s, e) == Some(s.queueCallByCallerChannel[c])
  }

  lemma EntryKeepsOthers(s: Engine, e: Event) returns (s': Engine)
    requires CallersLinked(s.queueCallByCallerChannel, s.calls) && e.CallerEnters? && Plausible(s, e)
    ensures s' == Step(s, e) && KeepsOthers(s, s', e)
  {
    if !QueueEnabled(s, e.tenantId, e.queueId) {
      s' := Emit(s, [HangupChannel(e.channel)]);
    } else if CallerKnown(s.calls, e.channel) {
      s' := s;
    } else {
      var queue, call := s.queues[e.queueId], NewCall(e.tenantId, e.queueId, e.channel, e.now);
      if queue.maxCallers != 0 && |ActiveCalls(s.calls, e.queueId)| >= queue.maxCallers {
        s' := Step(s, e);
      } else if EligibleMembers(s.calls, e.roster) == [] {
        s' := Step(s, e);
      } else {
        s' := RingingKeepsOthers(Admit(s, e.newId, call), e.newId, e.attempts, 0);
      }
    }
  }

  lemma LegEndKeepsOthers(s: Engine, channel: Chan, cause: Option<int>, attempts: nat -> Attempt) returns (s': Engine)
    requires CallersLinked(s.queueCallByCallerChannel, s.calls)
    requires channel in s.ringingAgentLegs && ClockAdvances(attempts)
    ensures s' == AgentLegEnds(s, channel, cause, attempts)
    ensures forall c :: c in s.queueCallByCallerChannel && c !in s'.queueCallByCallerChannel ==>
              s.queueCallByCallerChannel[c] == s.ringingAgentLegs[channel].queueCallId
  {
    var id := s.ringingAgentLegs[channel].queueCallId;
    if id !in s.calls || s.calls[id].status != Ringing || channel !in s.calls[id].ringingChannelIds {
      s' := s.(ringingAgentLegs := s.ringingAgentLegs - {channel});
    } else {
      var s1 := StrikeLeg(s, channel, cause);
      if s1.calls[id].ringingChannelIds == [] && QueueEnabled(s, s.calls[id].tenantId, s.calls[id].queueId) {
        s' := RingingKeepsOthers(s1, id, attempts, 0);
      } else {
        s' := AgentLegEnds(s, channel, cause, attempts);
      }
    }
  }

  lemma StepKeepsOthers(s: Engine, e: Event) returns (s': Engine)
    requires CallersLinked(s.queueCallByCallerChannel, s.calls) && Plausible(s, e)
    ensures s' == Step(s, e) && KeepsOthers(s, s', e)
  {
    match e
    case CallerEnters(_, _, _, _, _, _, _) => s' := EntryKeepsOthers(s, e);
    case ChannelGone(channel, cause, now, attempts) =>
      if channel in s.queueCallByCallerChannel {
        s' := CallerHangsUp(s, channel, now);
      } else if channel in s.ringingAgentLegs {
        s' := LegEndKeepsOthers(s, channel, cause, attempts);
      } else {
        s' := s;
      }
    case ChannelUp(_, _, _) => s' := Step(s, e);
    case QueueSaved(_, _) => s' := Step(s, e);
    case QueueRemoved(_) => s' := Step(s, e);
  }

  /** An event about another call does not strand this one. */
  lemma OthersDoNotStrand(s: Engine, e: Event, id: CallId)
    requires Inv(s) && Plausible(s, e) && id in s.calls && !Stranded(s, id) && RowOfEvent(s, e) != Some(id)
    ensures !Stranded(Step(s, e), id)
  {
    OnlyItsRow(s, e, id);
    var s' := StepKeepsOthers(s, e);
    var c := s.calls[id].callerChannelId;
    if c in s.queueCallByCallerChannel { assert s.queueCallByCallerChannel[c] == id; }
  }

  lemma LegEndStrandsIff(s: Engine, channel: Chan, cause: Option<int>, attempts: nat -> Attempt)
    requires Linked(s.ringingAgentLegs, s.calls) && channel in s.ringingAgentLegs && ClockAdvances(attempts)
    ensures var id := s.ringingAgentLegs[channel].queueCallId;
            && id in s.calls
            && (Stranded(AgentLegEnds(s, channel, cause, attempts), id)
                <==> s.calls[id].ringingChannelIds == [channel]
                     && !Enabled(s, s.calls[id].tenantId, s.calls[id].queueId))
  {
    var id := s.ringingAgentLegs[channel].queueCallId;
    var ringing := s.calls[id].ringingChannelIds;
    if ringing == [channel] {
      if Enabled(s, s.calls[id].tenantId, s.calls[id].queueId) {
        var s1, s', last := LastLegRingsOn(s, channel, cause, attempts);
      } else {
        DisabledQueueHangsUp(s, channel, cause, attempts);
      }
    } else {
      OthersStillRing(s, channel, cause, attempts);
    }
  }

  lemma OthersStillRing(s: Engine, channel: Chan, cause: Option<int>, attempts: nat -> Attempt)
    requires IsRinging(s, channel) && ClockAdvances(attempts)
    requires var ringing := s.calls[s.ringingAgentLegs[channel].queueCallId].ringingChannelIds;
             Distinct(ringing) && ringing != [channel]
    ensures AgentLegEnds(s, channel, cause, attempts) == StrikeLeg(s, channel, cause)
    ensures StrikeLeg(s, channel, cause).calls[s.ringingAgentLegs[channel].queueCallId].ringingChannelIds != []
  {
    var ringing := s.calls[s.ringingAgentLegs[channel].queueCallId].ringingChannelIds;
    var other := if ringing[0] == channel then ringing[1] else ringing[0];
    assert other in Without(ringing, channel);
  }

  /** One event strands a call iff it takes the last ringing leg of the call away and finds the queue disabled. */
  lemma StrandsIff(s: Engine, e: Event, id: CallId)
    requires Inv(s) && Plausible(s, e) && id in s.calls && !Stranded(s, id)
    ensures Stranded(Step(s, e), id) <==> Strands(s, e, id)
  {
    if RowOfEvent(s, e) != Some(id) {
      OthersDoNotStrand(s, e, id);
    } else if e.ChannelUp? {
      AnswerStrandsNobody(s, e, id);
    } else if e.channel in s.queueCallByCallerChannel {
      HangUpStamps(s, e.channel, e.now);
    } else {
      LegEndStrandsIff(s, e.channel, e.cause, e.attempts);
    }
  }

  lemma AnswerStrandsNobody(s: Engine, e: Event, id: CallId)
    requires e.ChannelUp? && id in s.calls && !Stranded(s, id)
    ensures !Stranded(Step(s, e), id)
  {
    if IsRinging(s, e.channel) {
      AnswerStamps(s, e.channel, e.bridgeId, e.now);
    } else {
      assert Step(s, e) == s;
    }
  }

  lemma EntryStrandsNobody(s: Engine, e: Event, id: CallId)
    requires e.CallerEnters? && Plausible(s, e) && id !in s.calls
    ensures !Stranded(Step(s, e), id)
  {
    var s' := EntryIff(s, e);
  }

  lemma NewIsNotStranded(s: Engine, e: Event, id: CallId)
    requires Inv(s) && Plausible(s, e) && id !in s.calls
    ensures !Stranded(Step(s, e), id)
  {
    if e.CallerEnters? {
      EntryStrandsNobody(s, e, id);
    } else {
      NoNewRow(s, e);
    }
  }

  lemma NoNewRow(s: Engine, e: Event)
    requires Inv(s) && Plausible(s, e) && !e.CallerEnters?
    ensures Step(s, e).calls.Keys == s.calls.Keys
  {
    match e
    case ChannelUp(channel, bridgeId, now) =>
      if channel in s.ringingAgentLegs { AnswerRow(s, channel, bridgeId, now); }
    case ChannelGone(channel, cause, now, attempts) =>
      if channel in s.queueCallByCallerChannel {
        HangUpRow(s, channel, now);
      } else if channel in s.ringingAgentLegs {
        LegEndRow(s, channel, cause, attempts);
      }
    case QueueSaved(_, _) =>
    case QueueRemoved(_) =>
  }

  lemma StepStrandsIff(s: Engine, e: Event, id: CallId)
    requires Inv(s) && Plausible(s, e)
    ensures Stranded(Step(s, e), id) <==> Stranded(s, id) || (id in s.calls && Strands(s, e, id))
  {
    if id !in s.calls {
      NewIsNotStranded(s, e, id);
    } else if Stranded(s, id) {
      StepKeepsStranded(s, e, id);
    } else {
      StrandsIff(s, e, id);
    }
  }

  /** Event i of the run has stranded the call. */
  ghost predicate StrandedBy(states: seq<Engine>, events: seq<Event>, id: CallId, i: int)
    requires 0 <= i < |events| && |states| == |events| + 1
  {
    id in states[i].calls && Strands(states[i], events[i], id)
  }

  /** Main result: in any run a call is stranded iff at some point its last ringing leg ended while its queue was
      disabled. */
  lemma {:induction false} StrandedIff(states: seq<Engine>, events: seq<Event>, k: nat, id: CallId)
    requires Run(states, events) && Initial(states[0]) && k < |states|
    ensures Stranded(states[k], id) <==> exists i :: 0 <= i < k && StrandedBy(states, events, id, i)
    decreases k
  {
    if k > 0 {
      StrandedIff(states, events, k - 1, id);
      RunStranded(states, events, k - 1, id);
    }
  }

  lemma RunStranded(states: seq<Engine>, events: seq<Event>, k: nat, id: CallId)
    requires Run(states, events) && Initial(states[0]) && k < |events|
    ensures Stranded(states[k + 1], id) <==> Stranded(states[k], id) || StrandedBy(states, events, id, k)
  {
    ReachableStatesSatisfyInv(states, events, k);
    RunStep(states, events, k);
    StepStrandsIff(states[k], events[k], id);
  }
}
