/** What single events do, in terms of rows, clocks, causes and limits. */
module QueueSteps {
  import opened Prelude
  import opened QueueStrategy
  import opened QueueEngine
  import opened QueueInvariants
  import opened QueueSafety

  // ---------- A caller enters ----------

  predicate Enabled(s: Engine, tenantId: Id, queueId: Id) {
    queueId in s.queues && s.queues[queueId].tenantId == tenantId && s.queues[queueId].enabled
  }

  /** The calls of a queue that wait or ring. */
  ghost function InQueue(calls: map<CallId, QueueCall>, queueId: Id): set<CallId> {
    set id | id in calls && calls[id].queueId == queueId && calls[id].status in {Waiting, Ringing}
  }

  ghost predicate SomebodyCanAnswer(calls: map<CallId, QueueCall>, roster: seq<RosterEntry>) {
    exists r <- roster :: r.hasExtension
      && forall id :: id in calls && calls[id].answeredAgentId == Some(r.member.agentId) ==> calls[id].status != Bridged
  }

  lemma {:induction false} EligibleIff(calls: map<CallId, QueueCall>, roster: seq<RosterEntry>)
    ensures EligibleMembers(calls, roster) != [] <==> SomebodyCanAnswer(calls, roster)
  {
    var eligible := EligibleMembers(calls, roster);
    if eligible != [] {
      var m := eligible[0];
      assert m in eligible && RosterEntry(m, true) in roster;
    }
    if SomebodyCanAnswer(calls, roster) {
      var r :| r in roster && r.hasExtension
        && forall id :: id in calls && calls[id].answeredAgentId == Some(r.member.agentId) ==>
             calls[id].status != Bridged;
      assert r == RosterEntry(r.member, true) && r.member.agentId !in BusyAgents(calls);
      assert r.member in eligible;
    }
  }

  /** A refused caller: one row, one event, one hang-up. */
  ghost predicate Refused(s: Engine, s': Engine, e: Event, status: Status, told: Effect)
    requires e.CallerEnters?
  {
    && e.newId in s'.calls && s'.calls == s.calls[e.newId := s'.calls[e.newId]]
    && RowOf(s'.calls[e.newId], e) && s'.calls[e.newId].status == status && s'.calls[e.newId].endedAt == Some(e.now)
    && s'.log == s.log + [told, HangupChannel(e.channel)]
  }

  predicate RowOf(call: QueueCall, e: Event)
    requires e.CallerEnters?
  {
    && call.tenantId == e.tenantId && call.queueId == e.queueId && call.callerChannelId == e.channel
    && call.enteredAt == e.now
  }

  /** An admitted caller: a row that rings or, when the attempts give up, is timed out. */
  ghost predicate Admitted(s: Engine, s': Engine, e: Event)
    requires e.CallerEnters?
  {
    && e.newId in s'.calls && s'.calls == s.calls[e.newId := s'.calls[e.newId]]
    && RowOf(s'.calls[e.newId], e) && s'.calls[e.newId].status in {Ringing, TimedOut}
    && (s'.calls[e.newId].status == Ringing ==> s'.calls[e.newId].ringingChannelIds != [])
    && |s.log| + 3 < |s'.log| && s.log <= s'.log && s'.log[|s.log|] == EnteredQueue(e.newId, e.channel)
    && s'.log[|s.log| + 2] == AnswerChannel(e.channel)
  }

  /** The queue has a limit, and that many callers already. */
  ghost predicate IsFull(s: Engine, queueId: Id)
    requires queueId in s.queues
  {
    s.queues[queueId].maxCallers != 0 && |InQueue(s.calls, queueId)| >= s.queues[queueId].maxCallers
  }

  /** A caller is admitted iff its queue is enabled for the tenant, it is not known yet, the queue has room (always,
      without a limit) and somebody can answer; each refusal has its own row and commands. */
  lemma EntryIff(s: Engine, e: Event) returns (s': Engine)
    requires e.CallerEnters? && Plausible(s, e)
    ensures s' == Step(s, e)
    ensures !Enabled(s, e.tenantId, e.queueId) ==> s' == s.(log := s.log + [HangupChannel(e.channel)])
    ensures Enabled(s, e.tenantId, e.queueId) ==>
              if exists id :: id in s.calls && s.calls[id].callerChannelId == e.channel then s' == s
              else if IsFull(s, e.queueId) then Refused(s, s', e, Full, QueueFull(e.newId, e.channel))
              else if !SomebodyCanAnswer(s.calls, e.roster) then
                Refused(s, s', e, TimedOut, QueueTimeout(e.newId, true))
              else Admitted(s, s', e)
  {
    s' := Step(s, e);
    EligibleIff(s.calls, e.roster);
    assert InQueue(s.calls, e.queueId) == ActiveCalls(s.calls, e.queueId);
    if Enabled(s, e.tenantId, e.queueId) && !CallerKnown(s.calls, e.channel) && !IsFull(s, e.queueId)
       && SomebodyCanAnswer(s.calls, e.roster) {
      s' := AdmissionRings(s, e);
    }
  }

  lemma AdmissionRings(s: Engine, e: Event) returns (s': Engine)
    requires e.CallerEnters? && e.queueId in s.queues && e.newId !in s.calls && ClockAdvances(e.attempts)
    ensures s' == StartRingAttempt(Admit(s, e.newId, NewCall(e.tenantId, e.queueId, e.channel, e.now)), e.newId,
                                   e.attempts, 0)
    ensures Admitted(s, s', e)
  {
    var s1, last := Admit(s, e.newId, NewCall(e.tenantId, e.queueId, e.channel, e.now)), 0;
    s', last := RingUntilLimit(s1, e.newId, e.attempts, 0);
    EndsAdmitted(s, s1, s', e, e.attempts(last));
  }

  lemma EndsAdmitted(s: Engine, s1: Engine, s': Engine, e: Event, a: Attempt)
    requires e.CallerEnters? && e.queueId in s.queues && e.newId !in s.calls
    requires s1 == Admit(s, e.newId, NewCall(e.tenantId, e.queueId, e.channel, e.now)) && Ends(s1, s', e.newId, a)
    ensures Admitted(s, s', e)
  {
    assert s'.calls == s.calls[e.newId := s'.calls[e.newId]];
    assert |s1.log| == |s.log| + 3 && s1.log <= s'.log;
    assert s'.log[|s.log|] == s1.log[|s.log|] && s'.log[|s.log| + 2] == s1.log[|s.log| + 2];
  }

  // ---------- Ring attempts and the waiting limit ----------

  /** The caller has waited as long as the queue allows, in milliseconds. */
  predicate Late(s: Engine, id: CallId, now: int)
    requires id in s.calls && s.calls[id].queueId in s.queues
  {
    now - s.calls[id].enteredAt >= 1000 * s.queues[s.calls[id].queueId].maxWaitTimeSeconds
  }

  predicate SameCaller(c: QueueCall, c': QueueCall) {
    && c'.tenantId == c.tenantId && c'.queueId == c.queueId && c'.callerChannelId == c.callerChannelId
    && c'.enteredAt == c.enteredAt
  }

  /** The call is timed out at this time, the caller told why and hung up on. */
  ghost predicate GaveUp(s: Engine, s': Engine, id: CallId, noEligibleMembers: bool, now: int)
    requires id in s.calls
  {
    && id in s'.calls && s'.calls == s.calls[id := s'.calls[id]] && SameCaller(s.calls[id], s'.calls[id])
    && s'.calls[id].status == TimedOut && s'.calls[id].endedAt == Some(now)
    && s'.log == s.log + [QueueTimeout(id, noEligibleMembers), HangupChannel(s.calls[id].callerChannelId)]
  }

  /** The call rings on channels newly offered, and on no others. */
  ghost predicate Rings(s: Engine, s': Engine, id: CallId)
    requires id in s.calls
  {
    && id in s'.calls && s'.calls == s.calls[id := s'.calls[id]] && SameCaller(s.calls[id], s'.calls[id])
    && var c' := s'.calls[id];
       && c'.status == Ringing && c'.ringingChannelIds != [] && c'.endedAt == s.calls[id].endedAt
       && s.log <= s'.log && OffersTo(s'.log[|s.log|..], id, c'.ringingChannelIds)
  }

  /** One offer per channel, in order. */
  ghost predicate OffersTo(told: seq<Effect>, id: CallId, channels: seq<Chan>) {
    && |told| == |channels|
    && forall i :: 0 <= i < |told| ==>
         told[i].AgentOffered? && told[i].call == id && told[i].channel == channels[i]
  }

  /** Nobody's phone could be made to ring. */
  ghost predicate NobodyRang(s: Engine, s': Engine, id: CallId)
    requires Quiet(s, id) && s.calls[id].queueId in s.queues
  {
    && Quiet(s', id) && s'.calls == s.calls[id := s'.calls[id]] && SameCaller(s.calls[id], s'.calls[id])
    && s'.calls[id].endedAt == s.calls[id].endedAt && s'.log == s.log && s.calls[id].queueId in s'.queues
    && s'.queues[s.calls[id].queueId].maxWaitTimeSeconds == s.queues[s.calls[id].queueId].maxWaitTimeSeconds
  }

  lemma AttemptRings(s: Engine, id: CallId, a: Attempt) returns (s': Engine)
    requires Quiet(s, id) && s.calls[id].queueId in s.queues
    ensures s' == RingDialSet(s, id, a) && id in s'.calls
    ensures if s'.calls[id].ringingChannelIds == [] then NobodyRang(s, s', id) else Rings(s, s', id)
  {
    s' := RingDialSet(s, id, a);
    var offers := Offers(DialFor(s, id, a).membersToRing, a.originated);
    assert s'.log[|s.log|..] == OfferedEvents(id, offers);
    assert OffersTo(OfferedEvents(id, offers), id, Channels(offers));
  }

  lemma CanStillAnswer(calls: map<CallId, QueueCall>, id: CallId, call: QueueCall, roster: seq<RosterEntry>)
    requires id in calls && calls[id].status != Bridged && call.status != Bridged && SomebodyCanAnswer(calls, roster)
    ensures SomebodyCanAnswer(calls[id := call], roster)
  {
  }

  lemma SameAnswerers(s: Engine, s1: Engine, id: CallId, roster: seq<RosterEntry>)
    requires Quiet(s, id) && s.calls[id].queueId in s.queues && NobodyRang(s, s1, id)
    ensures SomebodyCanAnswer(s1.calls, roster) <==> SomebodyCanAnswer(s.calls, roster)
  {
    if SomebodyCanAnswer(s.calls, roster) { CanStillAnswer(s.calls, id, s1.calls[id], roster); }
    if SomebodyCanAnswer(s1.calls, roster) {
      CanStillAnswer(s1.calls, id, s.calls[id], roster);
      assert s1.calls[id := s.calls[id]] == s.calls;
    }
  }

  /** What the last attempt, by these readings, has come to. */
  ghost predicate Ends(s: Engine, s': Engine, id: CallId, a: Attempt)
    requires id in s.calls && s.calls[id].queueId in s.queues
  {
    if Late(s, id, a.now) then GaveUp(s, s', id, false, a.now)
    else if !SomebodyCanAnswer(s.calls, a.roster) then GaveUp(s, s', id, true, a.now)
    else Rings(s, s', id)
  }

  /** Attempt `last` is the last, and every one before it from the n-th on came within the limit. */
  ghost predicate Rang(s: Engine, s': Engine, id: CallId, attempts: nat -> Attempt, n: nat, last: nat)
    requires id in s.calls && s.calls[id].queueId in s.queues
  {
    n <= last && Ends(s, s', id, attempts(last)) && forall m :: n <= m < last ==> !Late(s, id, attempts(m).now)
  }

  /** What is true of the state after an attempt that rang nobody is true of the state before it. */
  lemma OneMore(s: Engine, s1: Engine, s': Engine, id: CallId, attempts: nat -> Attempt, n: nat, last: nat)
    requires Quiet(s, id) && s.calls[id].queueId in s.queues && NobodyRang(s, s1, id)
    requires attempts(n).now < Deadline(s, id) && Rang(s1, s', id, attempts, n + 1, last)
    ensures Rang(s, s', id, attempts, n, last)
  {
    SameAnswerers(s, s1, id, attempts(last).roster);
    assert s1.calls[id := s'.calls[id]] == s.calls[id := s'.calls[id]];
    forall m | n <= m < last ensures !Late(s, id, attempts(m).now) {
      if m > n { assert !Late(s1, id, attempts(m).now); }
    }
  }

  lemma LateEnds(s: Engine, id: CallId, attempts: nat -> Attempt, n: nat) returns (s': Engine)
    requires Quiet(s, id) && s.calls[id].queueId in s.queues && attempts(n).now >= Deadline(s, id)
    ensures s' == TimeoutQueueCall(s, id, false, attempts(n).now) && Rang(s, s', id, attempts, n, n)
  {
    s' := TimeoutQueueCall(s, id, false, attempts(n).now);
  }

  lemma NobodyEnds(s: Engine, id: CallId, attempts: nat -> Attempt, n: nat) returns (s': Engine)
    requires Quiet(s, id) && s.calls[id].queueId in s.queues
    requires attempts(n).now < Deadline(s, id) && EligibleMembers(s.calls, attempts(n).roster) == []
    ensures s' == TimeoutQueueCall(s, id, true, attempts(n).now) && Rang(s, s', id, attempts, n, n)
  {
    s' := TimeoutQueueCall(s, id, true, attempts(n).now);
    EligibleIff(s.calls, attempts(n).roster);
  }

  lemma RingEnds(s: Engine, id: CallId, attempts: nat -> Attempt, n: nat) returns (s': Engine)
    requires Quiet(s, id) && s.calls[id].queueId in s.queues
    requires attempts(n).now < Deadline(s, id) && EligibleMembers(s.calls, attempts(n).roster) != []
    ensures s' == RingDialSet(s, id, attempts(n)) && id in s'.calls
    ensures if s'.calls[id].ringingChannelIds == [] then NobodyRang(s, s', id) else Rang(s, s', id, attempts, n, n)
  {
    EligibleIff(s.calls, attempts(n).roster);
    s' := AttemptRings(s, id, attempts(n));
  }

  /** Attempts go on while the caller has waited for less than the queue's limit. The last one finds the limit
      reached, or nobody who can answer, and times the call out at its own reading of the clock; or it makes
      somebody's phone ring within the limit. */
  lemma {:induction false} RingUntilLimit(s: Engine, id: CallId, attempts: nat -> Attempt, n: nat)
    returns (s': Engine, last: nat)
    requires Quiet(s, id) && s.calls[id].queueId in s.queues && ClockAdvances(attempts)
    ensures s' == StartRingAttempt(s, id, attempts, n) && Rang(s, s', id, attempts, n, last)
    decreases Deadline(s, id) - attempts(n).now
  {
    var a := attempts(n);
    last := n;
    if a.now >= Deadline(s, id) {
      s' := LateEnds(s, id, attempts, n);
    } else if EligibleMembers(s.calls, a.roster) == [] {
      s' := NobodyEnds(s, id, attempts, n);
    } else {
      s' := RingEnds(s, id, attempts, n);
      if s'.calls[id].ringingChannelIds == [] {
        var s1 := s';
        assert attempts(n).now < attempts(n + 1).now;
        s', last := RingUntilLimit(s1, id, attempts, n + 1);
        OneMore(s, s1, s', id, attempts, n, last);
      }
    }
  }

  // ---------- Clocks, causes, cursors ----------

  /** Instants are counted in whole seconds, and never below zero. */
  lemma WholeSeconds(from: int, now: int)
    ensures var seconds := ElapsedSeconds(from, now);
            if now < from then seconds == 0 else 1000 * seconds <= now - from < 1000 * (seconds + 1)
  {
  }

  /** An answer is stamped with the time it comes, and names who answered. */
  lemma AnswerStamps(s: Engine, channel: Chan, bridgeId: Id, now: int)
    requires channel in s.ringingAgentLegs && s.ringingAgentLegs[channel].queueCallId in s.calls
    requires var call := s.calls[s.ringingAgentLegs[channel].queueCallId];
             call.status == Ringing && channel in call.ringingChannelIds
    ensures var (leg, s') := (s.ringingAgentLegs[channel], AgentAnswers(s, channel, bridgeId, now));
            && leg.queueCallId in s'.calls
            && var (c, c') := (s.calls[leg.queueCallId], s'.calls[leg.queueCallId]);
               && SameCaller(c, c') && c'.status == Bridged && c'.bridgedAt == Some(now) && c'.endedAt == c.endedAt
               && c'.answeredMemberId == Some(leg.memberId) && c'.answeredAgentId == Some(leg.agentId)
               && c'.bridgeId == Some(bridgeId) && c'.ringingChannelIds == []
               && (forall rival :: rival in c.ringingChannelIds ==> rival !in s'.ringingAgentLegs)
               && (forall rival :: rival in c.ringingChannelIds && rival != channel ==>
                     CancelRing(rival) in s'.log[|s.log|..])
  {
    var leg, s' := s.ringingAgentLegs[channel], AgentAnswers(s, channel, bridgeId, now);
    var ringing := s.calls[leg.queueCallId].ringingChannelIds;
    var losers := Without(ringing, channel);
    assert s'.log[|s.log|..]
           == AnswerEffects(losers, s.calls[leg.queueCallId].callerChannelId, leg, channel, bridgeId);
    forall rival | rival in ringing && rival != channel ensures CancelRing(rival) in s'.log[|s.log|..] {
      assert rival in losers;
      var i :| 0 <= i < |losers| && losers[i] == rival;
      assert s'.log[|s.log|..][i] == CancelRing(rival);
    }
  }

  /** A caller that hangs up ends its call then: completed when it was bridged, abandoned before, with every phone
      that still rings cancelled. */
  lemma HangUpStamps(s: Engine, channel: Chan, now: int)
    requires channel in s.queueCallByCallerChannel && s.queueCallByCallerChannel[channel] in s.calls
    requires s.calls[s.queueCallByCallerChannel[channel]].endedAt == None
    ensures var (id, s') := (s.queueCallByCallerChannel[channel], CallerHangsUp(s, channel, now));
            && id in s'.calls && channel !in s'.queueCallByCallerChannel
            && var (c, c') := (s.calls[id], s'.calls[id]);
               && SameCaller(c, c') && c'.endedAt == Some(now) && c'.bridgedAt == c.bridgedAt
               && c'.status == (if c.status == Bridged then Completed else Abandoned)
               && (c.status != Bridged ==> forall rung :: rung in c.ringingChannelIds ==>
                     rung !in s'.ringingAgentLegs && CancelRing(rung) in s'.log[|s.log|..])
  {
    var id, s' := s.queueCallByCallerChannel[channel], CallerHangsUp(s, channel, now);
    var ringing := s.calls[id].ringingChannelIds;
    if s.calls[id].status != Bridged {
      assert s'.log[|s.log|..] == CancelEvents(ringing) + [CallerAbandoned(id, channel)];
      forall rung | rung in ringing ensures CancelRing(rung) in s'.log[|s.log|..] {
        var i :| 0 <= i < |ringing| && ringing[i] == rung;
        assert s'.log[|s.log|..][i] == CancelRing(rung);
      }
    }
  }

  /** A leg that ends leaves the row's ringing legs, and no other does; busy (17) or rejected (21) it is logged as
      rejected, otherwise as unavailable. */
  ghost predicate Struck(s: Engine, s': Engine, channel: Chan, cause: Option<int>)
    requires channel in s.ringingAgentLegs && s.ringingAgentLegs[channel].queueCallId in s.calls
  {
    var leg := s.ringingAgentLegs[channel];
    var id := leg.queueCallId;
    && s'.ringingAgentLegs == s.ringingAgentLegs - {channel}
    && s'.queueCallByCallerChannel == s.queueCallByCallerChannel && s'.queues == s.queues
    && id in s'.calls && s'.calls == s.calls[id := s'.calls[id]]
    && s'.calls[id] == s.calls[id].(ringingChannelIds := s'.calls[id].ringingChannelIds)
    && (forall c :: c in s'.calls[id].ringingChannelIds <==> c in s.calls[id].ringingChannelIds && c != channel)
    && |s'.log| == |s.log| + 1 && s.log <= s'.log
    && s'.log[|s.log|] == (if cause == Some(17) || cause == Some(21)
                           then AgentRejected(id, leg.memberId, leg.agentId, channel)
                           else AgentUnavailable(id, leg.memberId, leg.agentId, channel))
  }

  lemma CauseDecides(s: Engine, channel: Chan, cause: Option<int>)
    requires channel in s.ringingAgentLegs && s.ringingAgentLegs[channel].queueCallId in s.calls
    ensures Struck(s, StrikeLeg(s, channel, cause), channel, cause)
  {
  }

  /** The channel is a leg of a call that rings it. */
  predicate IsRinging(s: Engine, channel: Chan) {
    && channel in s.ringingAgentLegs && s.ringingAgentLegs[channel].queueCallId in s.calls
    && var call := s.calls[s.ringingAgentLegs[channel].queueCallId];
       call.status == Ringing && channel in call.ringingChannelIds
  }

  /** A leg that ends while others ring is struck, and that is all. When it was the last of a call whose queue is
      still enabled, attempts go on until the queue's limit, as for a caller who enters. */
  lemma LastLegRingsOn(s: Engine, channel: Chan, cause: Option<int>, attempts: nat -> Attempt)
    returns (s1: Engine, s': Engine, last: nat)
    requires IsRinging(s, channel) && ClockAdvances(attempts)
    requires var c := s.calls[s.ringingAgentLegs[channel].queueCallId]; Enabled(s, c.tenantId, c.queueId)
    ensures Struck(s, s1, channel, cause) && s' == AgentLegEnds(s, channel, cause, attempts)
    ensures var id := s.ringingAgentLegs[channel].queueCallId;
            if exists c :: c in s.calls[id].ringingChannelIds && c != channel then s' == s1
            else Rang(s1, s', id, attempts, 0, last)
  {
    var id := s.ringingAgentLegs[channel].queueCallId;
    s1, last := StrikeLeg(s, channel, cause), 0;
    CauseDecides(s, channel, cause);
    var left := s1.calls[id].ringingChannelIds;
    if left != [] {
      assert left[0] in left;
      s' := s1;
    } else {
      s', last := RingUntilLimit(s1, id, attempts, 0);
    }
  }

  /** Events about channels that are not, or no longer, those of a caller or of a ringing leg change no row and log
      nothing. */
  lemma StrayEvents(s: Engine, channel: Chan, bridgeId: Id, cause: Option<int>, now: int, attempts: nat -> Attempt)
    requires !IsRinging(s, channel) && ClockAdvances(attempts)
    ensures AgentAnswers(s, channel, bridgeId, now) == s
    ensures channel !in s.queueCallByCallerChannel ==>
              var s' := ChannelDestroyed(s, channel, cause, now, attempts);
              s'.calls == s.calls && s'.log == s.log && s'.ringingAgentLegs == s.ringingAgentLegs - {channel}
  {
    assert channel !in s.ringingAgentLegs ==> s.ringingAgentLegs - {channel} == s.ringingAgentLegs;
  }

  /** When the last phone stops ringing and the queue is no longer enabled, the caller is hung up on and forgotten;
      its row keeps ringing nobody. */
  lemma DisabledQueueHangsUp(s: Engine, channel: Chan, cause: Option<int>, attempts: nat -> Attempt)
    requires channel in s.ringingAgentLegs && s.ringingAgentLegs[channel].queueCallId in s.calls
    requires ClockAdvances(attempts)
    requires var c := s.calls[s.ringingAgentLegs[channel].queueCallId];
             c.status == Ringing && c.ringingChannelIds == [channel] && !Enabled(s, c.tenantId, c.queueId)
    ensures var (id, s') := (s.ringingAgentLegs[channel].queueCallId, AgentLegEnds(s, channel, cause, attempts));
            && id in s'.calls && s'.calls[id] == s.calls[id].(ringingChannelIds := [])
            && s.calls[id].callerChannelId !in s'.queueCallByCallerChannel
            && |s'.log| == |s.log| + 2 && s'.log[|s.log| + 1] == HangupChannel(s.calls[id].callerChannelId)
  {
    assert Without([channel], channel) == [];
  }

  /** The cursor of a round-robin queue moves to the member dialled; nothing else of any queue changes. */
  lemma CursorFollows(s: Engine, id: CallId, a: Attempt)
    requires id in s.calls && s.calls[id].queueId in s.queues && EligibleMembers(s.calls, a.roster) != []
    ensures var (q, s', dialled) := (s.calls[id].queueId, RingDialSet(s, id, a), DialFor(s, id, a).membersToRing);
            && s'.queues.Keys == s.queues.Keys
            && (forall other :: other in s.queues && other != q ==> s'.queues[other] == s.queues[other])
            && (s.queues[q].strategy == RoundRobin ==>
                  |dialled| == 1 && s'.queues[q] == s.queues[q].(cursor := Some(dialled[0].id)))
            && (s.queues[q].strategy != RoundRobin ==> s'.queues[q] == s.queues[q])
  {
  }

  /** The calls of the queue that wait or ring and entered earlier. */
  ghost function Ahead(calls: map<CallId, QueueCall>, id: CallId): set<CallId>
    requires id in calls
  {
    set o | o in InQueue(calls, calls[id].queueId) && o != id && calls[o].enteredAt < calls[id].enteredAt
  }

  /** Positions count from one: whoever waits or rings at the head of a queue is told one, nobody is told more than
      there are calls in it, and the order is that of entry. */
  lemma PositionsInOrder(calls: map<CallId, QueueCall>, a: CallId, b: CallId)
    requires a in calls && b in calls && calls[a].queueId == calls[b].queueId
    requires calls[a].status in {Waiting, Ringing} && calls[b].status in {Waiting, Ringing}
    ensures 1 <= Position(calls, a) <= |InQueue(calls, calls[a].queueId)|
    ensures Position(calls, a) == 1 <==> Ahead(calls, a) == {}
    ensures calls[a].enteredAt < calls[b].enteredAt ==> Position(calls, a) < Position(calls, b)
  {
    PositionCounts(calls, a);
    PositionCounts(calls, b);
    SubsetSize(Ahead(calls, a) + {a}, InQueue(calls, calls[a].queueId));
    if calls[a].enteredAt < calls[b].enteredAt { SubsetSize(Ahead(calls, a) + {a}, Ahead(calls, b)); }
  }

  lemma PositionCounts(calls: map<CallId, QueueCall>, id: CallId)
    requires id in calls
    ensures Position(calls, id) == |Ahead(calls, id)| + 1
  {
    assert Ahead(calls, id)
           == set other | other in calls && calls[other].queueId == calls[id].queueId && calls[other].status.Active()
                          && other != id && calls[other].enteredAt < calls[id].enteredAt;
  }

  /** When a call ahead is answered or ends, every call behind it moves up by one. */
  lemma LeavingMovesUp(calls: map<CallId, QueueCall>, gone: CallId, row: QueueCall, id: CallId)
    requires id in calls && gone in Ahead(calls, id) && row.status !in {Waiting, Ringing}
    ensures Position(calls[gone := row], id) == Position(calls, id) - 1
  {
    PositionCounts(calls, id);
    PositionCounts(calls[gone := row], id);
    assert Ahead(calls[gone := row], id) == Ahead(calls, id) - {gone};
  }

  /** Who may be rung keeps the order of the roster, and who is rung the order of the dial set. */
  lemma {:induction false} EligibleConcat(calls: map<CallId, QueueCall>, a: seq<RosterEntry>, b: seq<RosterEntry>)
    ensures EligibleMembers(calls, a + b) == EligibleMembers(calls, a) + EligibleMembers(calls, b)
  {
    if a == [] {
      assert a + b == b;
    } else {
      assert (a + b)[1..] == a[1..] + b;
      EligibleConcat(calls, a[1..], b);
    }
  }

  lemma {:induction false} OffersConcat(a: seq<Member>, b: seq<Member>, originated: map<Id, Chan>)
    ensures Offers(a + b, originated) == Offers(a, originated) + Offers(b, originated)
  {
    if b == [] {
      assert a + b == a;
    } else {
      assert (a + b)[..|a + b| - 1] == a + b[..|b| - 1];
      OffersConcat(a, b[..|b| - 1], originated);
    }
  }
}
