/** Results about ring attempts and about whole runs of the queue engine. */
module QueueTheorems {
  import opened Prelude
  import opened QueueStrategy
  import opened QueueEngine
  import opened QueueInvariants
  import opened QueueSafety

  // ---------- One handler's ring attempts ----------

  /** How many attempts a handler makes, the last of which rings a leg or times the call out. */
  ghost function AttemptCount(s: Engine, id: CallId, attempts: nat -> Attempt, n: nat): nat
    requires id in s.calls && s.calls[id].queueId in s.queues && ClockAdvances(attempts)
    decreases Deadline(s, id) - attempts(n).now
  {
    var a := attempts(n);
    if a.now >= Deadline(s, id) || EligibleMembers(s.calls, a.roster) == [] then 1
    else
      var rung := RingDialSet(s, id, a);
      if rung.calls[id].ringingChannelIds != [] then 1
      else
        assert attempts(n).now < attempts(n + 1).now;
        1 + AttemptCount(rung, id, attempts, n + 1)
  }

  /** Nested attempts are bounded by the milliseconds left to wait, plus one. */
  lemma {:induction false} AttemptsAreBounded(s: Engine, id: CallId, attempts: nat -> Attempt, n: nat)
    requires id in s.calls && s.calls[id].queueId in s.queues && ClockAdvances(attempts)
    ensures var left := Deadline(s, id) - attempts(n).now;
            AttemptCount(s, id, attempts, n) <= (if left > 0 then left else 0) + 1
    decreases Deadline(s, id) - attempts(n).now
  {
    var a := attempts(n);
    if a.now < Deadline(s, id) && EligibleMembers(s.calls, a.roster) != [] {
      var rung := RingDialSet(s, id, a);
      if rung.calls[id].ringingChannelIds == [] {
        assert attempts(n).now < attempts(n + 1).now;
        AttemptsAreBounded(rung, id, attempts, n + 1);
      }
    }
  }

  /** The fields no ring attempt touches. */
  ghost predicate SameCall(call: QueueCall, call': QueueCall) {
    && call'.tenantId == call.tenantId && call'.queueId == call.queueId && call'.callerChannelId == call.callerChannelId
    && call'.bridgeId == call.bridgeId && call'.answeredMemberId == call.answeredMemberId
    && call'.answeredAgentId == call.answeredAgentId && call'.enteredAt == call.enteredAt
    && call'.bridgedAt == call.bridgedAt && call'.talkSeconds == call.talkSeconds
  }

  /** The call of the handler rings on some leg, or it is timed out, ended and its caller forgotten. */
  ghost predicate RingsOrTimesOut(call: QueueCall, callers: map<Chan, CallId>, call': QueueCall,
                                  callers': map<Chan, CallId>) {
    && SameCall(call, call')
    && if call'.ringingChannelIds != [] then
         call'.status == Ringing && call'.endedAt == call.endedAt && call'.waitSeconds == call.waitSeconds
           && callers' == callers
       else
         call'.status == TimedOut && call'.endedAt.Some?
         && call'.waitSeconds == Some(ElapsedSeconds(call.enteredAt, call'.endedAt.value))
         && callers' == callers - {call.callerChannelId}
  }

  ghost predicate Outcome(s: Engine, s': Engine, id: CallId)
    requires id in s.calls
  {
    && id in s'.calls && s'.calls == s.calls[id := s'.calls[id]]
    && RingsOrTimesOut(s.calls[id], s.queueCallByCallerChannel, s'.calls[id], s'.queueCallByCallerChannel)
  }

  lemma TimeoutOutcome(s: Engine, id: CallId, noEligibleMembers: bool, now: int)
    requires Quiet(s, id)
    ensures Outcome(s, TimeoutQueueCall(s, id, noEligibleMembers, now), id)
  {
  }

  /** An attempt that rings nobody only records who was tried. */
  lemma FailedRing(s: Engine, id: CallId, a: Attempt, s': Engine)
    requires Quiet(s, id) && s.calls[id].queueId in s.queues
    requires var rung := RingDialSet(s, id, a);
             rung.calls[id].ringingChannelIds == [] && Outcome(rung, s', id)
    ensures Outcome(s, s', id)
  {
    var rung := RingDialSet(s, id, a);
    assert SameCall(s.calls[id], rung.calls[id]);
    assert s.calls[id := rung.calls[id]][id := s'.calls[id]] == s.calls[id := s'.calls[id]];
  }

  /** Ring attempts end in one of two ways; no other row changes. */
  lemma {:induction false} StartRingOutcome(s: Engine, id: CallId, attempts: nat -> Attempt, n: nat)
    requires Quiet(s, id) && s.calls[id].queueId in s.queues && ClockAdvances(attempts)
    ensures Outcome(s, StartRingAttempt(s, id, attempts, n), id)
    decreases Deadline(s, id) - attempts(n).now
  {
    var a := attempts(n);
    if a.now >= Deadline(s, id) {
      TimeoutOutcome(s, id, false, a.now);
    } else if EligibleMembers(s.calls, a.roster) == [] {
      TimeoutOutcome(s, id, true, a.now);
    } else {
      var rung := RingDialSet(s, id, a);
      if rung.calls[id].ringingChannelIds == [] {
        assert attempts(n).now < attempts(n + 1).now;
        StartRingOutcome(rung, id, attempts, n + 1);
        FailedRing(s, id, a, StartRingAttempt(rung, id, attempts, n + 1));
      }
    }
  }

  /** Asterisk can originate no leg. */
  predicate NothingRings(a: Attempt) {
    a.originated == map[]
  }

  /** When no leg can ever be originated, the handler ends the call as timed out. */
  lemma {:induction false} AllRingsFailing(s: Engine, id: CallId, attempts: nat -> Attempt, n: nat) returns (s': Engine)
    requires Quiet(s, id) && s.calls[id].queueId in s.queues && ClockAdvances(attempts)
    requires forall k: nat {:trigger NothingRings(attempts(k))} :: NothingRings(attempts(k))
    ensures s' == StartRingAttempt(s, id, attempts, n)
    ensures id in s'.calls && s'.calls[id].status == TimedOut && s'.ringingAgentLegs == s.ringingAgentLegs
    decreases Deadline(s, id) - attempts(n).now
  {
    var a := attempts(n);
    if a.now >= Deadline(s, id) || EligibleMembers(s.calls, a.roster) == [] {
      s' := TimeoutQueueCall(s, id, a.now < Deadline(s, id), a.now);
    } else {
      assert NothingRings(attempts(n));
      var rung := RungByNobody(s, id, a);
      assert attempts(n).now < attempts(n + 1).now;
      s' := AllRingsFailing(rung, id, attempts, n + 1);
    }
  }

  /** The attempt rings nobody and leaves the call as it was, but for who was tried. */
  lemma RungByNobody(s: Engine, id: CallId, a: Attempt) returns (rung: Engine)
    requires Quiet(s, id) && s.calls[id].queueId in s.queues && NothingRings(a)
    ensures rung == RingDialSet(s, id, a) && rung.ringingAgentLegs == s.ringingAgentLegs
    ensures id in rung.calls && rung.calls[id].ringingChannelIds == []
    ensures Quiet(rung, id) && rung.calls[id].queueId in rung.queues && Deadline(rung, id) == Deadline(s, id)
  {
    rung := RingDialSet(s, id, a);
    NobodyRings(s, id, a);
    StillQuiet(s, id, a);
  }

  lemma NobodyRings(s: Engine, id: CallId, a: Attempt)
    requires id in s.calls && s.calls[id].queueId in s.queues && NothingRings(a)
    ensures var rung := RingDialSet(s, id, a);
            rung.calls[id].ringingChannelIds == [] && rung.ringingAgentLegs == s.ringingAgentLegs
  {
    NothingOriginated(DialFor(s, id, a).membersToRing, a.originated);
  }

  lemma {:induction false} NothingOriginated(members: seq<Member>, originated: map<Id, Chan>)
    requires originated == map[]
    ensures Offers(members, originated) == []
  {
    if members != [] { NothingOriginated(members[..|members| - 1], originated); }
  }

  // ---------- One step, then runs ----------

  /** Ended calls never change again; a bridged call can only be completed. */
  ghost predicate Absorbing(before: map<CallId, QueueCall>, after: map<CallId, QueueCall>) {
    forall id :: id in before ==>
      && id in after
      && (before[id].status.Terminal() ==> after[id] == before[id])
      && (before[id].status == Bridged ==> after[id] == before[id] || after[id].status == Completed)
  }

  /** Rows of other calls stay; this row was not ended and not bridged. */
  lemma OneRowAbsorbing(before: map<CallId, QueueCall>, id: CallId, call: QueueCall)
    requires id in before ==> before[id].status.Active() || (before[id].status == Bridged && call.status == Completed)
    ensures Absorbing(before, before[id := call])
  {
  }

  /** A queue without limit, or one with room for another call. */
  ghost predicate HasRoom(s: Engine, queueId: Id) {
    && queueId in s.queues
    && (s.queues[queueId].maxCallers != 0 ==> |ActiveCalls(s.calls, queueId)| < s.queues[queueId].maxCallers)
  }

  /** At most row `id` changes: an active or bridged call moves on in its queue, or a call is stored,
      which is active only if its queue has room. */
  ghost predicate OneRowChanges(s: Engine, calls': map<CallId, QueueCall>, id: CallId) {
    calls' == s.calls
    || (id in calls' && calls' == s.calls[id := calls'[id]]
        && if id in s.calls then
             calls'[id].queueId == s.calls[id].queueId
             && (s.calls[id].status.Active() || (s.calls[id].status == Bridged && calls'[id].status == Completed))
           else calls'[id].status.Active() ==> HasRoom(s, calls'[id].queueId))
  }

  lemma StepChangesOneRow(s: Engine, e: Event) returns (id: CallId)
    requires Inv(s) && Plausible(s, e)
    ensures OneRowChanges(s, Step(s, e).calls, id)
  {
    id := "";
    match e
    case CallerEnters(_, _, _, newId, _, _, _) =>
      id := newId;
      EntryRow(s, e);
    case ChannelUp(channel, bridgeId, now) =>
      if channel in s.ringingAgentLegs {
        id := s.ringingAgentLegs[channel].queueCallId;
        AnswerRow(s, channel, bridgeId, now);
      }
    case ChannelGone(channel, cause, now, attempts) =>
      if channel in s.queueCallByCallerChannel {
        id := s.queueCallByCallerChannel[channel];
        HangUpRow(s, channel, now);
      } else if channel in s.ringingAgentLegs {
        id := s.ringingAgentLegs[channel].queueCallId;
        LegEndRow(s, channel, cause, attempts);
      }
    case _ =>
  }

  lemma AnswerRow(s: Engine, channel: Chan, bridgeId: Id, now: int)
    requires Inv(s) && channel in s.ringingAgentLegs
    ensures OneRowChanges(s, AgentAnswers(s, channel, bridgeId, now).calls, s.ringingAgentLegs[channel].queueCallId)
  {
  }

  lemma HangUpRow(s: Engine, channel: Chan, now: int)
    requires EndedIffTerminal(s.calls) && channel in s.queueCallByCallerChannel
    ensures OneRowChanges(s, CallerHangsUp(s, channel, now).calls, s.queueCallByCallerChannel[channel])
  {
  }

  lemma EntryRow(s: Engine, e: Event)
    requires Plausible(s, e) && e.CallerEnters?
    ensures OneRowChanges(s, Step(s, e).calls, e.newId)
  {
    var call := NewCall(e.tenantId, e.queueId, e.channel, e.now);
    if QueueEnabled(s, e.tenantId, e.queueId) && !CallerKnown(s.calls, e.channel) && HasRoom(s, e.queueId)
       && EligibleMembers(s.calls, e.roster) != [] {
      AdmittedRow(s, e.newId, call, e.attempts);
    }
  }

  lemma AdmittedRow(s: Engine, id: CallId, call: QueueCall, attempts: nat -> Attempt)
    requires id !in s.calls && HasRoom(s, call.queueId) && ClockAdvances(attempts)
    requires call.ringingChannelIds == [] && call.status == Waiting
    ensures OneRowChanges(s, StartRingAttempt(Admit(s, id, call), id, attempts, 0).calls, id)
  {
    StartRingOutcome(Admit(s, id, call), id, attempts, 0);
    OutcomeRow(s, id, call, Admit(s, id, call), StartRingAttempt(Admit(s, id, call), id, attempts, 0));
  }

  /** Ring attempts on a row that was just stored or changed still change only that row. */
  lemma OutcomeRow(s: Engine, id: CallId, call: QueueCall, s1: Engine, s': Engine)
    requires s1.calls == s.calls[id := call] && Outcome(s1, s', id)
    requires if id in s.calls then s.calls[id].status.Active() && call.queueId == s.calls[id].queueId
             else HasRoom(s, call.queueId)
    ensures OneRowChanges(s, s'.calls, id)
  {
    assert s'.calls == s.calls[id := s'.calls[id]];
    assert SameCall(s1.calls[id], s'.calls[id]);
  }

  lemma LegEndRow(s: Engine, channel: Chan, cause: Option<int>, attempts: nat -> Attempt)
    requires Inv(s) && channel in s.ringingAgentLegs && ClockAdvances(attempts)
    ensures OneRowChanges(s, AgentLegEnds(s, channel, cause, attempts).calls, s.ringingAgentLegs[channel].queueCallId)
  {
    var id := s.ringingAgentLegs[channel].queueCallId;
    var s1 := StrikeLeg(s, channel, cause);
    assert channel in s.calls[id].ringingChannelIds;
    if s1.calls[id].ringingChannelIds == [] && QueueEnabled(s, s.calls[id].tenantId, s.calls[id].queueId) {
      StartRingOutcome(s1, id, attempts, 0);
      OutcomeRow(s, id, s1.calls[id], s1, StartRingAttempt(s1, id, attempts, 0));
    }
  }

  lemma StepIsAbsorbing(s: Engine, e: Event)
    requires Inv(s) && Plausible(s, e)
    ensures Absorbing(s.calls, Step(s, e).calls)
  {
    var id := StepChangesOneRow(s, e);
    if Step(s, e).calls != s.calls { OneRowAbsorbing(s.calls, id, Step(s, e).calls[id]); }
  }

  /** Over any run, ended calls keep their final row and bridged calls can only be completed. */
  lemma {:induction false} EndedCallsStayEnded(states: seq<Engine>, events: seq<Event>, i: nat, j: nat)
    requires Run(states, events) && Initial(states[0]) && i <= j < |states|
    ensures Absorbing(states[i].calls, states[j].calls)
  {
    if i < j {
      EndedCallsStayEnded(states, events, i, j - 1);
      RunStepAbsorbs(states, events, j - 1);
      AbsorbingTransitive(states[i].calls, states[j - 1].calls, states[j].calls);
    }
  }

  lemma RunStepAbsorbs(states: seq<Engine>, events: seq<Event>, k: nat)
    requires Run(states, events) && Initial(states[0]) && k < |events|
    ensures Absorbing(states[k].calls, states[k + 1].calls)
  {
    ReachableStatesSatisfyInv(states, events, k);
    var s, e := states[k], events[k];
    RunStep(states, events, k);
    StepIsAbsorbing(s, e);
  }

  lemma AbsorbingTransitive(a: map<CallId, QueueCall>, b: map<CallId, QueueCall>, c: map<CallId, QueueCall>)
    requires Absorbing(a, b) && Absorbing(b, c)
    ensures Absorbing(a, c)
  {
  }

  lemma StepKeepsCapacity(s: Engine, e: Event, queueId: Id, max: nat)
    requires Inv(s) && Plausible(s, e) && max > 0
    requires queueId in s.queues ==> s.queues[queueId].maxCallers == max
    requires |ActiveCalls(s.calls, queueId)| <= max
    ensures |ActiveCalls(Step(s, e).calls, queueId)| <= max
  {
    var id := StepChangesOneRow(s, e);
    var calls' := Step(s, e).calls;
    if calls' != s.calls {
      var active, active' := ActiveCalls(s.calls, queueId), ActiveCalls(calls', queueId);
      if id in s.calls {
        SubsetSize(active', active);
      } else {
        SubsetSize(active', active + {id});
        if id !in active' { SubsetSize(active', active); }
      }
    }
  }

  /** While a queue's non-zero limit is unchanged, it never has more waiting or ringing calls than that. */
  lemma {:induction false} QueueNeverOverfull(states: seq<Engine>, events: seq<Event>, queueId: Id, max: nat, k: nat)
    requires Run(states, events) && Initial(states[0]) && k < |states| && max > 0
    requires forall i :: 0 <= i < k && queueId in states[i].queues ==> states[i].queues[queueId].maxCallers == max
    ensures |ActiveCalls(states[k].calls, queueId)| <= max
  {
    if k == 0 {
      assert ActiveCalls(states[0].calls, queueId) == {};
    } else {
      QueueNeverOverfull(states, events, queueId, max, k - 1);
      ReachableStatesSatisfyInv(states, events, k - 1);
      StepKeepsCapacity(states[k - 1], events[k - 1], queueId, max);
    }
  }

  // ---------- Recorded times ----------

  /** What a row says of its times in each status. Only calls refused on entry have no waiting time. */
  ghost predicate TimesRecorded(c: QueueCall) {
    match c.status
    case Waiting => c.bridgedAt == None && c.waitSeconds == None && c.talkSeconds == None
    case Ringing => c.bridgedAt == None && c.waitSeconds == None && c.talkSeconds == None
    case Bridged => c.bridgedAt.Some? && c.waitSeconds == Some(ElapsedSeconds(c.enteredAt, c.bridgedAt.value))
                    && c.talkSeconds == None
    case Completed =>
      && c.bridgedAt.Some? && c.waitSeconds == Some(ElapsedSeconds(c.enteredAt, c.bridgedAt.value))
      && c.endedAt.Some? && c.talkSeconds == Some(ElapsedSeconds(c.bridgedAt.value, c.endedAt.value))
    case Abandoned => c.bridgedAt == None && c.endedAt.Some?
                      && c.waitSeconds == Some(ElapsedSeconds(c.enteredAt, c.endedAt.value))
    case TimedOut =>
      && c.bridgedAt == None && c.endedAt.Some?
      && (c.waitSeconds == Some(ElapsedSeconds(c.enteredAt, c.endedAt.value))
          || (c.waitSeconds == None && c.endedAt == Some(c.enteredAt)))
    case Full => c.waitSeconds == None && c.endedAt == Some(c.enteredAt)
  }

  ghost predicate AllTimesRecorded(calls: map<CallId, QueueCall>) {
    forall id :: id in calls ==> TimesRecorded(calls[id])
  }

  /** Ring attempts on a row without times leave a row with the right ones. */
  lemma RingingKeepsTimes(before: map<CallId, QueueCall>, id: CallId, call: QueueCall, s1: Engine,
                          attempts: nat -> Attempt)
    requires AllTimesRecorded(before) && s1.calls == before[id := call] && TimesRecorded(call)
    requires Quiet(s1, id) && call.queueId in s1.queues && ClockAdvances(attempts)
    ensures AllTimesRecorded(StartRingAttempt(s1, id, attempts, 0).calls)
  {
    StartRingOutcome(s1, id, attempts, 0);
    var call' := StartRingAttempt(s1, id, attempts, 0).calls[id];
    assert RingsOrTimesOut(call, s1.queueCallByCallerChannel, call',
                           StartRingAttempt(s1, id, attempts, 0).queueCallByCallerChannel);
    assert TimesRecorded(call');
  }

  lemma EntryKeepsTimes(s: Engine, e: Event)
    requires AllTimesRecorded(s.calls) && Plausible(s, e) && e.CallerEnters?
    ensures AllTimesRecorded(Step(s, e).calls)
  {
    var call := NewCall(e.tenantId, e.queueId, e.channel, e.now);
    if QueueEnabled(s, e.tenantId, e.queueId) && !CallerKnown(s.calls, e.channel) && HasRoom(s, e.queueId)
       && EligibleMembers(s.calls, e.roster) != [] {
      RingingKeepsTimes(s.calls, e.newId, call, Admit(s, e.newId, call), e.attempts);
    }
  }

  lemma AnswerKeepsTimes(s: Engine, channel: Chan, bridgeId: Id, now: int)
    requires AllTimesRecorded(s.calls)
    ensures AllTimesRecorded(AgentAnswers(s, channel, bridgeId, now).calls)
  {
  }

  lemma RewriteKeepsTimes(calls: map<CallId, QueueCall>, id: CallId, call: QueueCall)
    requires AllTimesRecorded(calls) && TimesRecorded(call)
    ensures AllTimesRecorded(calls[id := call])
  {
  }

  lemma HangUpKeepsTimes(s: Engine, channel: Chan, now: int)
    requires EndedIffTerminal(s.calls) && AllTimesRecorded(s.calls) && channel in s.queueCallByCallerChannel
    ensures AllTimesRecorded(CallerHangsUp(s, channel, now).calls)
  {
    var id, calls' := s.queueCallByCallerChannel[channel], CallerHangsUp(s, channel, now).calls;
    if id in s.calls && s.calls[id].endedAt == None {
      assert TimesRecorded(s.calls[id]) && !s.calls[id].status.Terminal();
      assert calls' == s.calls[id := calls'[id]];
      RewriteKeepsTimes(s.calls, id, calls'[id]);
    }
  }

  lemma LegEndKeepsTimes(s: Engine, channel: Chan, cause: Option<int>, attempts: nat -> Attempt)
    requires AllTimesRecorded(s.calls) && channel in s.ringingAgentLegs && ClockAdvances(attempts)
    ensures AllTimesRecorded(AgentLegEnds(s, channel, cause, attempts).calls)
  {
    var id := s.ringingAgentLegs[channel].queueCallId;
    if id in s.calls && s.calls[id].status == Ringing && channel in s.calls[id].ringingChannelIds {
      var s1 := StrikeLeg(s, channel, cause);
      assert TimesRecorded(s.calls[id]);
      RewriteKeepsTimes(s.calls, id, s1.calls[id]);
      if s1.calls[id].ringingChannelIds == [] && QueueEnabled(s, s.calls[id].tenantId, s.calls[id].queueId) {
        RingingKeepsTimes(s.calls, id, s1.calls[id], s1, attempts);
      }
    }
  }

  lemma StepKeepsTimes(s: Engine, e: Event)
    requires Inv(s) && Plausible(s, e) && AllTimesRecorded(s.calls)
    ensures AllTimesRecorded(Step(s, e).calls)
  {
    match e
    case CallerEnters(_, _, _, _, _, _, _) => EntryKeepsTimes(s, e);
    case ChannelUp(channel, bridgeId, now) => AnswerKeepsTimes(s, channel, bridgeId, now);
    case ChannelGone(channel, cause, now, attempts) =>
      if channel in s.queueCallByCallerChannel {
        HangUpKeepsTimes(s, channel, now);
      } else if channel in s.ringingAgentLegs {
        LegEndKeepsTimes(s, channel, cause, attempts);
      }
    case _ =>
  }

  /** In every state of every run the recorded waiting and talking times are those between the recorded instants. */
  lemma {:induction false} TimesAreRecorded(states: seq<Engine>, events: seq<Event>, k: nat)
    requires Run(states, events) && Initial(states[0]) && k < |states|
    ensures AllTimesRecorded(states[k].calls)
  {
    if k > 0 {
      TimesAreRecorded(states, events, k - 1);
      ReachableStatesSatisfyInv(states, events, k - 1);
      var s, e := states[k - 1], events[k - 1];
      RunStep(states, events, k - 1);
      StepKeepsTimes(s, e);
    }
  }
}
