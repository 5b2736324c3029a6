/** The queue workflow service: two maps and two tables changed in place by the event handlers,
    each of which does to the whole state exactly what the state machine says. */
module QueueWorkflow {
  import opened Prelude
  import opened QueueStrategy
  import E = QueueEngine
  import opened QueueEngine

  /** The offers of one member more. */
  lemma OffersNext(members: seq<Member>, originated: map<Id, Chan>, i: nat)
    requires i < |members|
    ensures Offers(members[..i + 1], originated) ==
            Offers(members[..i], originated)
            + if members[i].id in originated then [(members[i], originated[members[i].id])] else []
  {
    assert members[..i + 1][..i] == members[..i];
  }

  lemma OfferAdds(legs: map<Chan, RingingAgentLeg>, id: CallId, offers: seq<(Member, Chan)>, member: Member,
                  channel: Chan)
    ensures var more := offers + [(member, channel)];
            && Channels(more) == Channels(offers) + [channel]
            && AddLegs(legs, id, more)
               == AddLegs(legs, id, offers)[channel := RingingAgentLeg(id, member.id, member.agentId)]
            && OfferedEvents(id, more)
               == OfferedEvents(id, offers) + [AgentOffered(id, member.id, member.agentId, channel)]
  {
    var more := offers + [(member, channel)];
    assert more[..|offers|] == offers;
  }

  class QueueCallWorkflowService {
    var queueCallByCallerChannel: map<Chan, CallId>
    var ringingAgentLegs: map<Chan, RingingAgentLeg>
    var calls: map<CallId, QueueCall>
    var queues: map<Id, Queue>
    var log: seq<Effect>

    ghost function State(): Engine
      reads this
    {
      Engine(queueCallByCallerChannel, ringingAgentLegs, calls, queues, log)
    }

    constructor (queues: map<Id, Queue>)
      ensures E.Initial(State()) && this.queues == queues
    {
      queueCallByCallerChannel, ringingAgentLegs, calls, log := map[], map[], map[], [];
      this.queues := queues;
    }

    method LogEvent(e: Effect)
      modifies this`log
      ensures log == old(log) + [e]
    {
      log := log + [e];
    }

    method ResolveEligibleMembers(roster: seq<RosterEntry>) returns (eligible: seq<Member>)
      ensures eligible == EligibleMembers(calls, roster)
    {
      eligible := [];
      var i := |roster|;
      while i > 0
        invariant 0 <= i <= |roster|
        invariant eligible == EligibleMembers(calls, roster[i..])
      {
        i := i - 1;
        if !Busy(calls, roster[i].member.agentId) && roster[i].hasExtension {
          eligible := [roster[i].member] + eligible;
        }
        assert roster[i..][1..] == roster[i + 1..];
      }
    }

    method TimeoutQueueCall(id: CallId, noEligibleMembers: bool, now: int)
      requires id in calls
      modifies this
      ensures State() == E.TimeoutQueueCall(old(State()), id, noEligibleMembers, now)
    {
      var call := calls[id];
      queueCallByCallerChannel := queueCallByCallerChannel - {call.callerChannelId};
      call := call.(status := TimedOut, endedAt := Some(now));
      call := call.(waitSeconds := Some(ElapsedSeconds(call.enteredAt, now)));
      calls := calls[id := call];
      LogEvent(QueueTimeout(id, noEligibleMembers));
      LogEvent(HangupChannel(call.callerChannelId));
    }

    /** Dials the members one after the other; a failed origination is skipped. */
    method RingMembers(id: CallId, membersToRing: seq<Member>, originated: map<Id, Chan>) returns (ringing: seq<Chan>)
      modifies this`ringingAgentLegs, this`log
      ensures var offers := Offers(membersToRing, originated);
              && ringing == Channels(offers)
              && ringingAgentLegs == AddLegs(old(ringingAgentLegs), id, offers)
              && log == old(log) + OfferedEvents(id, offers)
    {
      ringing := [];
      var i := 0;
      ghost var offers := [];
      while i < |membersToRing|
        invariant 0 <= i <= |membersToRing| && offers == Offers(membersToRing[..i], originated)
        invariant ringing == Channels(offers)
        invariant ringingAgentLegs == AddLegs(old(ringingAgentLegs), id, offers)
        invariant log == old(log) + OfferedEvents(id, offers)
      {
        var member := membersToRing[i];
        OffersNext(membersToRing, originated, i);
        if member.id in originated {
          var channel := originated[member.id];
          ringing := ringing + [channel];
          ringingAgentLegs := ringingAgentLegs[channel := RingingAgentLeg(id, member.id, member.agentId)];
          LogEvent(AgentOffered(id, member.id, member.agentId, channel));
          OfferAdds(old(ringingAgentLegs), id, offers, member, channel);
          offers := offers + [(member, channel)];
        }
        i := i + 1;
      }
      assert membersToRing[..i] == membersToRing;
    }

    method StartRingAttempt(id: CallId, attempts: nat -> Attempt, n: nat)
      requires id in calls && calls[id].queueId in queues && ClockAdvances(attempts)
      modifies this
      ensures State() == E.StartRingAttempt(old(State()), id, attempts, n)
      decreases Deadline(State(), id) - attempts(n).now
    {
      var a := attempts(n);
      var call := calls[id];
      var queue := queues[call.queueId];
      if a.now - call.enteredAt >= queue.maxWaitTimeSeconds * 1000 {
        TimeoutQueueCall(id, false, a.now);
        return;
      }
      var eligible := ResolveEligibleMembers(a.roster);
      if |eligible| == 0 {
        TimeoutQueueCall(id, true, a.now);
        return;
      }
      var ringing := DialEligible(id, eligible, a);
      if |ringing| == 0 {
        assert attempts(n).now < attempts(n + 1).now;
        StartRingAttempt(id, attempts, n + 1);
      }
    }

    /** One attempt: a fresh cycle if everybody was tried, the dial set, the cursor, the legs, the row. */
    method DialEligible(id: CallId, eligible: seq<Member>, a: Attempt) returns (ringing: seq<Chan>)
      requires id in calls && calls[id].queueId in queues && eligible == EligibleMembers(calls, a.roster)
      modifies this
      ensures State() == RingDialSet(old(State()), id, a)
      ensures id in calls && ringing == calls[id].ringingChannelIds
    {
      var call := calls[id];
      var queue := queues[call.queueId];
      if forall m | m in eligible :: m.id in call.attemptOrder {
        call := call.(attemptOrder := []);
      }
      var d := ResolveDialSet(queue.strategy, eligible, a.aggregates, queue.cursor, call.attemptOrder, a.roll);
      if d.nextCursorMemberId.Some? {
        queues := queues[call.queueId := queue.(cursor := d.nextCursorMemberId)];
      }
      ringing := RingMembers(id, d.membersToRing, a.originated);
      call := call.(ringingChannelIds := ringing, attemptOrder := call.attemptOrder + Ids(d.membersToRing),
                    status := Ringing);
      calls := calls[id := call];
    }

    method HandleCallerEnteredQueue(channel: Chan, tenantId: Id, queueId: Id, newId: CallId,
                                    now: int, roster: seq<RosterEntry>, attempts: nat -> Attempt)
      requires newId !in calls && ClockAdvances(attempts)
      modifies this
      ensures State() == CallerEntersQueue(old(State()), channel, tenantId, queueId, newId, now, roster, attempts)
    {
      if queueId !in queues || queues[queueId].tenantId != tenantId || !queues[queueId].enabled {
        LogEvent(HangupChannel(channel));
        return;
      }
      var queue := queues[queueId];
      var call := NewCall(tenantId, queueId, channel, now);
      var known := CallerKnown(calls, channel);
      var activeCount := |ActiveCalls(calls, queueId)|;
      if known {
        return;  // every branch below stores a row first, which the unique index rejects
      }
      if queue.maxCallers != 0 && activeCount >= queue.maxCallers {
        call := call.(status := Full, endedAt := Some(now));
        calls := calls[newId := call];
        LogEvent(QueueFull(newId, channel));
        LogEvent(HangupChannel(channel));
        return;
      }
      var eligible := ResolveEligibleMembers(roster);
      if |eligible| == 0 {
        call := call.(status := TimedOut, endedAt := Some(now));
        calls := calls[newId := call];
        LogEvent(QueueTimeout(newId, true));
        LogEvent(HangupChannel(channel));
        return;
      }
      calls := calls[newId := call];
      queueCallByCallerChannel := queueCallByCallerChannel[channel := newId];
      LogEvent(EnteredQueue(newId, channel));
      LogEvent(PositionChanged(newId, Position(calls, newId)));
      LogEvent(AnswerChannel(channel));
      assert State() == Admit(old(State()), newId, call);
      StartRingAttempt(newId, attempts, 0);
    }

    /** Forgets and cancels the given legs, in order. */
    method CancelLegs(channels: seq<Chan>)
      modifies this`ringingAgentLegs, this`log
      ensures ringingAgentLegs == old(ringingAgentLegs) - ChannelSet(channels)
      ensures log == old(log) + CancelEvents(channels)
    {
      var i := 0;
      while i < |channels|
        invariant 0 <= i <= |channels|
        invariant ringingAgentLegs == old(ringingAgentLegs) - ChannelSet(channels[..i])
        invariant log == old(log) + CancelEvents(channels[..i])
      {
        ringingAgentLegs := ringingAgentLegs - {channels[i]};
        LogEvent(CancelRing(channels[i]));
        assert channels[..i + 1] == channels[..i] + [channels[i]];
        i := i + 1;
      }
      assert channels[..i] == channels;
    }

    method HandleChannelStateChange(channel: Chan, up: bool, bridgeId: Id, now: int)
      modifies this
      ensures State() == if up then AgentAnswers(old(State()), channel, bridgeId, now) else old(State())
    {
      if !up || channel !in ringingAgentLegs || ringingAgentLegs[channel].queueCallId !in calls {
        return;
      }
      var leg := ringingAgentLegs[channel];
      var call := calls[leg.queueCallId];
      if call.status != Ringing || channel !in call.ringingChannelIds {
        return;
      }
      var losers := Without(call.ringingChannelIds, channel);
      CancelLegs(losers);
      ringingAgentLegs := ringingAgentLegs - {channel};
      assert ringingAgentLegs == old(ringingAgentLegs) - ChannelSet(call.ringingChannelIds);
      LogEvent(BridgeChannels(call.callerChannelId, channel, bridgeId));
      calls := calls[leg.queueCallId := call.(status := Bridged, bridgeId := Some(bridgeId), bridgedAt := Some(now),
                                              ringingChannelIds := [], answeredMemberId := Some(leg.memberId),
                                              answeredAgentId := Some(leg.agentId),
                                              waitSeconds := Some(ElapsedSeconds(call.enteredAt, now)))];
      LogEvent(AgentAnswered(leg.queueCallId, leg.memberId, leg.agentId, channel));
      LogEvent(CallBridged(leg.queueCallId, bridgeId, channel));
      assert log == old(log) + AnswerEffects(losers, call.callerChannelId, leg, channel, bridgeId);
    }

    method HandleChannelDestroyed(channel: Chan, cause: Option<int>, now: int, attempts: nat -> Attempt)
      requires ClockAdvances(attempts)
      modifies this
      ensures State() == ChannelDestroyed(old(State()), channel, cause, now, attempts)
    {
      if channel in queueCallByCallerChannel {
        HandleCallerChannelDestroyed(channel, now);
      } else if channel in ringingAgentLegs {
        HandleAgentChannelDestroyed(channel, cause, attempts);
      }
    }

    method HandleCallerChannelDestroyed(channel: Chan, now: int)
      requires channel in queueCallByCallerChannel
      modifies this
      ensures State() == CallerHangsUp(old(State()), channel, now)
    {
      var id := queueCallByCallerChannel[channel];
      queueCallByCallerChannel := queueCallByCallerChannel - {channel};
      if id !in calls || calls[id].endedAt.Some? {
        return;
      }
      var call := calls[id];
      if call.status == Bridged {
        if call.bridgedAt.Some? {
          call := call.(talkSeconds := Some(ElapsedSeconds(call.bridgedAt.value, now)));
        }
        calls := calls[id := call.(status := Completed, endedAt := Some(now))];
        LogEvent(CallCompleted(id, channel));
        return;
      }
      CancelLegs(call.ringingChannelIds);
      calls := calls[id := call.(status := Abandoned, ringingChannelIds := [], endedAt := Some(now),
                                 waitSeconds := Some(ElapsedSeconds(call.enteredAt, now)))];
      LogEvent(CallerAbandoned(id, channel));
    }

    method HandleAgentChannelDestroyed(channel: Chan, cause: Option<int>, attempts: nat -> Attempt)
      requires channel in ringingAgentLegs && ClockAdvances(attempts)
      modifies this
      ensures State() == AgentLegEnds(old(State()), channel, cause, attempts)
    {
      var leg := ringingAgentLegs[channel];
      var id := leg.queueCallId;
      ringingAgentLegs := ringingAgentLegs - {channel};
      if id !in calls || calls[id].status != Ringing || channel !in calls[id].ringingChannelIds {
        return;
      }
      var call := calls[id];
      var isReject := cause == Some(USER_BUSY) || cause == Some(CALL_REJECTED);
      call := call.(ringingChannelIds := Without(call.ringingChannelIds, channel));
      calls := calls[id := call];
      LogEvent(if isReject then AgentRejected(id, leg.memberId, leg.agentId, channel)
               else AgentUnavailable(id, leg.memberId, leg.agentId, channel));
      assert State() == StrikeLeg(old(State()), channel, cause);
      if |call.ringingChannelIds| > 0 {
        return;
      }
      if call.queueId !in queues || queues[call.queueId].tenantId != call.tenantId || !queues[call.queueId].enabled {
        queueCallByCallerChannel := queueCallByCallerChannel - {call.callerChannelId};
        LogEvent(HangupChannel(call.callerChannelId));
        return;
      }
      StartRingAttempt(id, attempts, 0);
    }
  }
}
