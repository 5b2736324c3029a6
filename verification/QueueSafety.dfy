/** Every handler of the queue engine keeps the invariant. */
module QueueSafety {
  import opened Prelude
  import opened QueueStrategy
  import opened QueueEngine
  import opened QueueInvariants

  /** An un-ended call none of whose legs rings. */
  ghost predicate Quiet(s: Engine, id: CallId) {
    id in s.calls && s.calls[id].ringingChannelIds == [] && s.calls[id].status.Active()
  }

  // ---------- Ring attempts ----------

  lemma {:induction false} OffersDistinct(members: seq<Member>, originated: map<Id, Chan>)
    requires DistinctMembers(members)
    requires forall m, m' :: m in originated && m' in originated && m != m' ==> originated[m] != originated[m']
    ensures Distinct(Channels(Offers(members, originated)))
  {
    if members != [] {
      var front, last := members[..|members| - 1], members[|members| - 1];
      OffersDistinct(front, originated);
      OffersOriginated(front, originated);
      var before := Offers(front, originated);
      forall i | 0 <= i < |before| ensures last.id in originated ==> before[i].1 != originated[last.id] {
        assert before[i] in before;
        var k :| 0 <= k < |front| && front[k] == before[i].0;
        assert members[k].id != last.id;
      }
    }
  }

  lemma {:induction false} AddLegsAdds(legs: map<Chan, RingingAgentLeg>, id: CallId, offers: seq<(Member, Chan)>)
    requires Distinct(Channels(offers))
    ensures var r := AddLegs(legs, id, offers);
            && (forall c :: c in r <==> c in legs || c in Channels(offers))
            && (forall c :: c in legs && c !in Channels(offers) ==> r[c] == legs[c])
            && (forall i :: 0 <= i < |offers| ==>
                  r[offers[i].1] == RingingAgentLeg(id, offers[i].0.id, offers[i].0.agentId))
  {
    if offers != [] {
      var front, last := offers[..|offers| - 1], offers[|offers| - 1];
      assert Channels(offers) == Channels(front) + [last.1];
      forall i, j | 0 <= i < j < |front| ensures Channels(front)[i] != Channels(front)[j] {
        assert Channels(offers)[i] != Channels(offers)[j];
      }
      AddLegsAdds(legs, id, front);
      forall i | 0 <= i < |front| ensures offers[i].1 != last.1 {
        assert Channels(offers)[i] != Channels(offers)[|front|];
      }
      assert last.1 in Channels(offers);
      forall c | c in AddLegs(legs, id, offers) ensures c in legs || c in Channels(offers) {
        if c != last.1 { assert c in AddLegs(legs, id, front); }
      }
      forall c | c in legs || c in Channels(offers) ensures c in AddLegs(legs, id, offers) {}
    }
  }

  /** What one dialling attempt changes, in terms of the offered channels only. */
  lemma RingDialSetShape(s: Engine, id: CallId, a: Attempt)
    requires Quiet(s, id) && s.calls[id].queueId in s.queues
    requires PlausibleAttempt(s.log, a) && EligibleMembers(s.calls, a.roster) != []
    ensures var offers := Offers(DialFor(s, id, a).membersToRing, a.originated);
            && DistinctMembers(DialFor(s, id, a).membersToRing)
            && Distinct(Channels(offers))
            && forall c :: c in Channels(offers) ==> !Offered(s.log, c)
  {
    var queue := s.queues[s.calls[id].queueId];
    var eligible := EligibleMembers(s.calls, a.roster);
    DialSetIsFair(queue.strategy, eligible, a.aggregates, queue.cursor,
                  CycleOrder(s.calls[id].attemptOrder, eligible), a.roll);
    OffersDistinct(DialFor(s, id, a).membersToRing, a.originated);
    OffersUnused(s.log, DialFor(s, id, a).membersToRing, a);
  }

  /** Asterisk's channel ids are new. */
  lemma OffersUnused(log: seq<Effect>, members: seq<Member>, a: Attempt)
    requires PlausibleAttempt(log, a)
    ensures forall c :: c in Channels(Offers(members, a.originated)) ==> !Offered(log, c)
  {
    var offers := Offers(members, a.originated);
    OffersOriginated(members, a.originated);
    forall c | c in Channels(offers) ensures !Offered(log, c) {
      var i :| 0 <= i < |offers| && offers[i].1 == c;
      assert offers[i] in offers;
    }
  }

  ghost predicate CanRing(s: Engine, id: CallId, a: Attempt) {
    && Quiet(s, id) && s.calls[id].queueId in s.queues
    && PlausibleAttempt(s.log, a) && EligibleMembers(s.calls, a.roster) != []
  }

  lemma RingKeepsOrders(s: Engine, id: CallId, a: Attempt)
    requires CanRing(s, id, a) && OrdersDistinct(s.calls)
    ensures OrdersDistinct(RingDialSet(s, id, a).calls)
    ensures forall m :: m in DialFor(s, id, a).membersToRing ==>
              m.id !in CycleOrder(s.calls[id].attemptOrder, EligibleMembers(s.calls, a.roster))
  {
    var queue := s.queues[s.calls[id].queueId];
    var eligible := EligibleMembers(s.calls, a.roster);
    var order := CycleOrder(s.calls[id].attemptOrder, eligible);
    DialSetIsFair(queue.strategy, eligible, a.aggregates, queue.cursor, order, a.roll);
    OrderExtends(order, eligible, DialFor(s, id, a).membersToRing);
  }

  lemma OrderExtends(order: seq<Id>, eligible: seq<Member>, dialled: seq<Member>)
    requires Distinct(order) && DistinctMembers(dialled)
    requires order == [] || exists e :: e in eligible && e.id !in order
    requires forall m :: m in dialled && m.id in order ==> forall e :: e in eligible ==> e.id in order
    ensures forall m :: m in dialled ==> m.id !in order
    ensures Distinct(order + Ids(dialled))
  {
    assert forall i :: 0 <= i < |dialled| ==> dialled[i] in dialled;
    DistinctAppend(order, Ids(dialled));
  }

  /** What a dialling attempt adds to the log and to the legs. */
  lemma RingBatch(s: Engine, id: CallId, a: Attempt) returns (batch: seq<Effect>, channels: seq<Chan>)
    requires CanRing(s, id, a)
    ensures RingDialSet(s, id, a).log == s.log + batch
    ensures channels == RingDialSet(s, id, a).calls[id].ringingChannelIds && Distinct(channels)
    ensures forall c :: c in channels ==> !Offered(s.log, c)
    ensures Moves(batch, ChannelSet(channels), {})
    ensures var legs, legs' := s.ringingAgentLegs, RingDialSet(s, id, a).ringingAgentLegs;
            && (forall c :: c in legs' <==> c in legs || c in channels)
            && (forall c :: c in legs && c !in channels ==> legs'[c] == legs[c])
            && (forall c :: c in channels ==> legs'[c].queueCallId == id && OfferLogged(batch, legs'[c], c))
  {
    var offers := Offers(DialFor(s, id, a).membersToRing, a.originated);
    batch, channels := OfferedEvents(id, offers), Channels(offers);
    RingDialSetShape(s, id, a);
    AddLegsAdds(s.ringingAgentLegs, id, offers);
    MovesOffers(batch, channels, ChannelSet(channels));
    var legs' := AddLegs(s.ringingAgentLegs, id, offers);
    forall c | c in channels ensures legs'[c].queueCallId == id && OfferLogged(batch, legs'[c], c) {
      var i :| 0 <= i < |offers| && channels[i] == c;
      assert batch[i] in batch;
    }
  }

  lemma RingKeepsMaps(s: Engine, id: CallId, a: Attempt)
    requires MapsInv(s) && CanRing(s, id, a)
    ensures MapsInv(RingDialSet(s, id, a))
  {
    var s' := RingDialSet(s, id, a);
    var batch, channels := RingBatch(s, id, a);
    ConservedAppend(s.log, s.ringingAgentLegs.Keys, batch, ChannelSet(channels), {});
    assert s'.ringingAgentLegs.Keys == s.ringingAgentLegs.Keys + ChannelSet(channels) - {};
    LinkedPut(s.ringingAgentLegs, s.calls, s'.ringingAgentLegs, id, s'.calls[id]);
    CallersPut(s.queueCallByCallerChannel, s.calls, s'.queueCallByCallerChannel, id, s'.calls[id]);
    RingKeepsOrders(s, id, a);
    LegsOfferedAppend(s.log, s.ringingAgentLegs, batch, s'.ringingAgentLegs);
  }

  lemma RingKeepsLog(s: Engine, id: CallId, a: Attempt)
    requires Inv(s) && CanRing(s, id, a)
    ensures LogInv(RingDialSet(s, id, a))
  {
    var s' := RingDialSet(s, id, a);
    var batch := RingLog(s, id, a);
    AnswersAppend(s.log, s.calls, batch, s'.calls);
    EndsKeep(s.log, s.calls, batch, id, s'.calls[id]);
  }

  /** A dialling attempt only logs offers. */
  lemma RingLog(s: Engine, id: CallId, a: Attempt) returns (batch: seq<Effect>)
    requires id in s.calls && s.calls[id].queueId in s.queues
    ensures RingDialSet(s, id, a).log == s.log + batch
    ensures NoEnd(batch) && forall i :: 0 <= i < |batch| ==> !batch[i].AgentAnswered?
  {
    batch := OfferedEvents(id, Offers(DialFor(s, id, a).membersToRing, a.originated));
  }

  // ---------- Endings ----------

  /** A row without ringing legs is replaced, and effects without a fate are logged. */
  lemma PlainRow(s: Engine, callers': map<Chan, CallId>, id: CallId, call: QueueCall, batch: seq<Effect>)
    requires Inv(s) && (forall i :: 0 <= i < |batch| ==> FateOf(batch[i]) == None)
    requires call.ringingChannelIds == [] && (call.endedAt.Some? <==> call.status.Terminal())
             && Distinct(call.attemptOrder)
    requires if id in s.calls
             then call.callerChannelId == s.calls[id].callerChannelId && s.calls[id].ringingChannelIds == []
             else !CallerKnown(s.calls, call.callerChannelId)
    requires forall c :: c in callers' ==>
               if call.callerChannelId == c then callers'[c] == id && call.endedAt == None
               else c in s.queueCallByCallerChannel && callers'[c] == s.queueCallByCallerChannel[c]
    requires forall leg :: AnsweredBy(s.calls, leg) ==> AnsweredBy(s.calls[id := call], leg)
    requires EndsLogged(s.log + batch, s.calls[id := call])
    ensures Inv(Engine(callers', s.ringingAgentLegs, s.calls[id := call], s.queues, s.log + batch))
  {
    MovesNothing(batch);
    ConservedAppend(s.log, s.ringingAgentLegs.Keys, batch, {}, {});
    assert s.ringingAgentLegs.Keys + {} - {} == s.ringingAgentLegs.Keys;
    LinkedPut(s.ringingAgentLegs, s.calls, s.ringingAgentLegs, id, call);
    CallersPut(s.queueCallByCallerChannel, s.calls, callers', id, call);
    LegsOfferedAppend(s.log, s.ringingAgentLegs, batch, s.ringingAgentLegs);
    AnswersAppend(s.log, s.calls, batch, s.calls[id := call]);
  }

  lemma TimeoutKeepsInv(s: Engine, id: CallId, noEligibleMembers: bool, now: int)
    requires Inv(s) && Quiet(s, id)
    ensures Inv(TimeoutQueueCall(s, id, noEligibleMembers, now))
  {
    var s' := TimeoutQueueCall(s, id, noEligibleMembers, now);
    var batch := [QueueTimeout(id, noEligibleMembers), HangupChannel(s.calls[id].callerChannelId)];
    EndsAppend(s.log, s.calls, batch, 0, id, s'.calls[id]);
    PlainRow(s, s'.queueCallByCallerChannel, id, s'.calls[id], batch);
  }

  /** A call refused on arrival is stored ended, and logged once. */
  lemma RefuseKeepsInv(s: Engine, id: CallId, call: QueueCall, e: Effect) returns (s': Engine)
    requires Inv(s) && id !in s.calls && !CallerKnown(s.calls, call.callerChannelId)
    requires call.ringingChannelIds == [] && call.attemptOrder == [] && call.endedAt.Some? && call.status.Terminal()
    requires EndOf(e) == Some((id, call.status)) && FateOf(e) == None
    ensures s' == Emit(Put(s, id, call), [e, HangupChannel(call.callerChannelId)]) && Inv(s')
  {
    var batch := [e, HangupChannel(call.callerChannelId)];
    s' := Emit(Put(s, id, call), batch);
    EndsAppend(s.log, s.calls, batch, 0, id, call);
    forall c | c in s.queueCallByCallerChannel ensures c != call.callerChannelId {
      assert s.queueCallByCallerChannel[c] in s.calls;
    }
    PlainRow(s, s.queueCallByCallerChannel, id, call, batch);
  }

  lemma AdmitKeepsInv(s: Engine, id: CallId, call: QueueCall)
    requires Inv(s) && id !in s.calls && !CallerKnown(s.calls, call.callerChannelId)
    requires call.ringingChannelIds == [] && call.attemptOrder == [] && call.endedAt == None && call.status == Waiting
    ensures Inv(Admit(s, id, call)) && Quiet(Admit(s, id, call), id)
    ensures forall c :: Offered(Admit(s, id, call).log, c) ==> Offered(s.log, c)
  {
    var s' := Admit(s, id, call);
    var batch := [EnteredQueue(id, call.callerChannelId), PositionChanged(id, Position(s'.calls, id)),
                  AnswerChannel(call.callerChannelId)];
    assert s'.log == s.log + batch;
    EndsKeep(s.log, s.calls, batch, id, call);
    PlainRow(s, s'.queueCallByCallerChannel, id, call, batch);
  }

  /** Some ringing legs of a call are settled: their legs leave the map, the row its list. */
  lemma SettleRow(s: Engine, callers': map<Chan, CallId>, id: CallId, call: QueueCall, batch: seq<Effect>,
                  removed: set<Chan>)
    requires MapsInv(s) && id in s.calls && Moves(batch, {}, removed)
    requires ChannelSet(s.calls[id].ringingChannelIds) == ChannelSet(call.ringingChannelIds) + removed
    requires ChannelSet(call.ringingChannelIds) !! removed
    requires Distinct(call.ringingChannelIds) && (call.ringingChannelIds != [] ==> call.status == Ringing)
    requires (call.endedAt.Some? <==> call.status.Terminal()) && call.callerChannelId == s.calls[id].callerChannelId
    requires forall c :: c in callers' ==>
               if call.callerChannelId == c then callers'[c] == id && call.endedAt == None
               else c in s.queueCallByCallerChannel && callers'[c] == s.queueCallByCallerChannel[c]
    ensures var legs' := s.ringingAgentLegs - removed;
            && Linked(legs', s.calls[id := call]) && CallersLinked(callers', s.calls[id := call])
            && Conserved(s.log + batch, legs'.Keys) && LegsOffered(s.log + batch, legs')
  {
    var legs, legs' := s.ringingAgentLegs, s.ringingAgentLegs - removed;
    forall c | c in removed || c in call.ringingChannelIds ensures c in legs && legs[c].queueCallId == id {
      assert c in ChannelSet(call.ringingChannelIds) + removed;
      assert c in s.calls[id].ringingChannelIds;
    }
    forall c | c in legs && legs[c].queueCallId == id ensures c in ChannelSet(call.ringingChannelIds) + removed {
      assert c in s.calls[id].ringingChannelIds;
    }
    ConservedAppend(s.log, legs.Keys, batch, {}, removed);
    assert legs'.Keys == legs.Keys + {} - removed;
    LinkedPut(legs, s.calls, legs', id, call);
    CallersPut(s.queueCallByCallerChannel, s.calls, callers', id, call);
    LegsOfferedAppend(s.log, legs, batch, legs');
  }

  // ---------- Answer ----------

  /** What an answer adds to the log settles the winner and every loser. */
  lemma BridgeBatch(ringing: seq<Chan>, caller: Chan, leg: RingingAgentLeg, channel: Chan, bridgeId: Id)
    requires Distinct(ringing) && channel in ringing
    ensures Moves(AnswerEffects(Without(ringing, channel), caller, leg, channel, bridgeId), {}, ChannelSet(ringing))
  {
    var losers := Without(ringing, channel);
    var cancels, bridged := CancelEvents(losers), [BridgeChannels(caller, channel, bridgeId)];
    var answered := [AgentAnswered(leg.queueCallId, leg.memberId, leg.agentId, channel)];
    var done := [CallBridged(leg.queueCallId, bridgeId, channel)];
    MovesSettle(cancels, losers, WasCancelled, ChannelSet(losers));
    MovesNothing(bridged);
    MovesConcat(cancels, bridged, ChannelSet(losers), {});
    MovesSettle(answered, [channel], HasAnswered, {channel});
    MovesNothing(done);
    MovesConcat(answered, done, {channel}, {});
    assert answered + done == [answered[0], done[0]] && {channel} + {} == {channel};
    MovesConcat(cancels + bridged, answered + done, ChannelSet(losers) + {}, {channel} + {});
    assert ChannelSet(losers) + {} + ({channel} + {}) == ChannelSet(ringing);
  }

  /** The winner's answer is the only one of its call, and follows its offer. */
  lemma BridgeAnswers(log: seq<Effect>, calls: map<CallId, QueueCall>, losers: seq<Chan>, caller: Chan,
                      leg: RingingAgentLeg, channel: Chan, bridgeId: Id, call: QueueCall)
    requires AnswersMatched(log, calls) && AnsweredOnce(log) && OfferLogged(log, leg, channel)
    requires leg.queueCallId in calls && calls[leg.queueCallId].status == Ringing
    requires AnsweredBy(calls[leg.queueCallId := call], leg)
    ensures var log' := log + AnswerEffects(losers, caller, leg, channel, bridgeId);
            AnswersMatched(log', calls[leg.queueCallId := call]) && AnsweredOnce(log')
    ensures NoEnd(AnswerEffects(losers, caller, leg, channel, bridgeId))
  {
    var answer := AgentAnswered(leg.queueCallId, leg.memberId, leg.agentId, channel);
    var before := CancelEvents(losers) + [BridgeChannels(caller, channel, bridgeId)];
    var log1 := log + before;
    var log' := log1 + [answer, CallBridged(leg.queueCallId, bridgeId, channel)];
    assert log' == log + AnswerEffects(losers, caller, leg, channel, bridgeId);
    AnswersAppend(log, calls, before, calls);
    assert forall j :: 0 <= j < |log1| && log1[j].AgentAnswered? ==> log1[j].call != leg.queueCallId;
    forall j | 0 <= j < |log'| && log'[j].AgentAnswered?
      ensures if j < |log1| then log'[j] == log1[j] && log'[..j] == log1[..j]
              else j == |log1| && log'[j] == answer && log'[..j] == log1
    {
    }
    assert OfferLogged(log1, leg, channel);
  }

  lemma BridgeKeepsMaps(s: Engine, channel: Chan, bridgeId: Id, now: int)
    requires MapsInv(s) && channel in s.ringingAgentLegs
    ensures MapsInv(BridgeWinner(s, channel, s.ringingAgentLegs[channel], bridgeId, now))
  {
    var leg := s.ringingAgentLegs[channel];
    var id, call := leg.queueCallId, s.calls[leg.queueCallId];
    var s' := BridgeWinner(s, channel, leg, bridgeId, now);
    BridgeBatch(call.ringingChannelIds, call.callerChannelId, leg, channel, bridgeId);
    SettleRow(s, s.queueCallByCallerChannel, id, s'.calls[id],
              AnswerEffects(Without(call.ringingChannelIds, channel), call.callerChannelId, leg, channel, bridgeId),
              ChannelSet(call.ringingChannelIds));
  }

  lemma BridgeKeepsLog(s: Engine, channel: Chan, bridgeId: Id, now: int)
    requires Inv(s) && channel in s.ringingAgentLegs
    ensures LogInv(BridgeWinner(s, channel, s.ringingAgentLegs[channel], bridgeId, now))
  {
    var leg := s.ringingAgentLegs[channel];
    var id, call := leg.queueCallId, s.calls[leg.queueCallId];
    var s' := BridgeWinner(s, channel, leg, bridgeId, now);
    var losers := Without(call.ringingChannelIds, channel);
    BridgeAnswers(s.log, s.calls, losers, call.callerChannelId, leg, channel, bridgeId, s'.calls[id]);
    EndsKeep(s.log, s.calls, AnswerEffects(losers, call.callerChannelId, leg, channel, bridgeId), id, s'.calls[id]);
  }

  // ---------- Hang-ups ----------

  lemma CompleteKeepsInv(s: Engine, channel: Chan, now: int)
    requires Inv(s) && channel in s.queueCallByCallerChannel
    requires s.calls[s.queueCallByCallerChannel[channel]].status == Bridged
    ensures Inv(CallerHangsUp(s, channel, now))
  {
    var id := s.queueCallByCallerChannel[channel];
    var s' := CallerHangsUp(s, channel, now);
    EndsAppend(s.log, s.calls, [CallCompleted(id, channel)], 0, id, s'.calls[id]);
    PlainRow(s, s'.queueCallByCallerChannel, id, s'.calls[id], [CallCompleted(id, channel)]);
  }

  ghost predicate CanAbandon(s: Engine, channel: Chan) {
    && Inv(s) && channel in s.queueCallByCallerChannel
    && s.calls[s.queueCallByCallerChannel[channel]].status != Bridged
  }

  lemma AbandonKeepsMaps(s: Engine, channel: Chan, now: int)
    requires CanAbandon(s, channel)
    ensures MapsInv(CallerHangsUp(s, channel, now))
  {
    var id := s.queueCallByCallerChannel[channel];
    var s' := CallerHangsUp(s, channel, now);
    var ringing := s.calls[id].ringingChannelIds;
    var cancels, last := CancelEvents(ringing), [CallerAbandoned(id, channel)];
    MovesSettle(cancels, ringing, WasCancelled, ChannelSet(ringing));
    MovesNothing(last);
    MovesConcat(cancels, last, ChannelSet(ringing), {});
    assert ChannelSet(ringing) + {} == ChannelSet(ringing);
    SettleRow(s, s'.queueCallByCallerChannel, id, s'.calls[id], cancels + last, ChannelSet(ringing));
  }

  lemma AbandonKeepsLog(s: Engine, channel: Chan, now: int)
    requires CanAbandon(s, channel)
    ensures LogInv(CallerHangsUp(s, channel, now))
  {
    var id := s.queueCallByCallerChannel[channel];
    var s' := CallerHangsUp(s, channel, now);
    var cancels, last := CancelEvents(s.calls[id].ringingChannelIds), [CallerAbandoned(id, channel)];
    AnswersAppend(s.log, s.calls, cancels + last, s'.calls);
    EndsAppend(s.log, s.calls, cancels + last, |cancels|, id, s'.calls[id]);
  }

  lemma DeclineMoves(e: Effect, channel: Chan)
    requires FateOf(e) == Some((WasDeclined, channel))
    ensures Moves([e], {}, {channel})
  {
    MovesSettle([e], [channel], WasDeclined, {channel});
  }

  lemma StrikeLog(s: Engine, channel: Chan, cause: Option<int>) returns (e: Effect)
    requires channel in s.ringingAgentLegs && s.ringingAgentLegs[channel].queueCallId in s.calls
    ensures StrikeLeg(s, channel, cause).log == s.log + [e]
    ensures FateOf(e) == Some((WasDeclined, channel)) && EndOf(e) == None && !e.AgentAnswered? && !e.AgentOffered?
  {
    e := StrikeLeg(s, channel, cause).log[|s.log|];
  }

  lemma StrikeKeepsMaps(s: Engine, channel: Chan, cause: Option<int>)
    requires MapsInv(s) && channel in s.ringingAgentLegs
    ensures MapsInv(StrikeLeg(s, channel, cause))
  {
    var id := s.ringingAgentLegs[channel].queueCallId;
    var s' := StrikeLeg(s, channel, cause);
    var e := StrikeLog(s, channel, cause);
    DeclineMoves(e, channel);
    SettleRow(s, s'.queueCallByCallerChannel, id, s'.calls[id], [e], {channel});
  }

  lemma StrikeKeepsInv(s: Engine, channel: Chan, cause: Option<int>)
    requires Inv(s) && channel in s.ringingAgentLegs
    ensures Inv(StrikeLeg(s, channel, cause))
    ensures forall c :: Offered(StrikeLeg(s, channel, cause).log, c) ==> Offered(s.log, c)
  {
    var id := s.ringingAgentLegs[channel].queueCallId;
    var s' := StrikeLeg(s, channel, cause);
    var e := StrikeLog(s, channel, cause);
    StrikeKeepsMaps(s, channel, cause);
    AnswersAppend(s.log, s.calls, [e], s'.calls);
    EndsKeep(s.log, s.calls, [e], id, s'.calls[id]);
  }

  /** A caller is hung up on and possibly forgotten: nothing else changes. */
  lemma HangUpKeepsInv(s: Engine, s': Engine, channel: Chan)
    requires Inv(s) && s' == Emit(s.(queueCallByCallerChannel := s'.queueCallByCallerChannel), [HangupChannel(channel)])
    requires forall c :: c in s'.queueCallByCallerChannel ==>
               c in s.queueCallByCallerChannel && s'.queueCallByCallerChannel[c] == s.queueCallByCallerChannel[c]
    ensures Inv(s')
  {
    HangUpIsNoOffer(s.log, s.ringingAgentLegs, channel);
    HangUpIsNoEnd(s.log, s.calls, channel);
  }

  lemma HangUpIsNoOffer(log: seq<Effect>, legs: map<Chan, RingingAgentLeg>, channel: Chan)
    requires Conserved(log, legs.Keys) && LegsOffered(log, legs)
    ensures Conserved(log + [HangupChannel(channel)], legs.Keys) && LegsOffered(log + [HangupChannel(channel)], legs)
  {
    var batch := [HangupChannel(channel)];
    MovesNothing(batch);
    ConservedAppend(log, legs.Keys, batch, {}, {});
    assert legs.Keys + {} - {} == legs.Keys;
    LegsOfferedAppend(log, legs, batch, legs);
  }

  lemma HangUpIsNoEnd(log: seq<Effect>, calls: map<CallId, QueueCall>, channel: Chan)
    requires AnswersMatched(log, calls) && AnsweredOnce(log) && EndsLogged(log, calls)
    ensures var log' := log + [HangupChannel(channel)];
            AnswersMatched(log', calls) && AnsweredOnce(log') && EndsLogged(log', calls)
  {
    var batch := [HangupChannel(channel)];
    AnswersAppend(log, calls, batch, calls);
    forall id, status ensures Ends(log + batch, id, status) == Ends(log, id, status) {
      EndsConcat(log, batch, id, status);
      EndsNothing(batch, id, status);
    }
  }

  // ---------- Handlers and runs ----------

  lemma RingKeepsInv(s: Engine, id: CallId, a: Attempt) returns (s': Engine)
    requires Inv(s) && CanRing(s, id, a)
    ensures s' == RingDialSet(s, id, a) && Inv(s')
  {
    s' := RingDialSet(s, id, a);
    RingKeepsMaps(s, id, a);
    RingKeepsLog(s, id, a);
  }

  lemma GivingUpKeepsInv(s: Engine, id: CallId, noEligibleMembers: bool, now: int) returns (s': Engine)
    requires Inv(s) && Quiet(s, id)
    ensures s' == TimeoutQueueCall(s, id, noEligibleMembers, now) && Inv(s')
  {
    s' := TimeoutQueueCall(s, id, noEligibleMembers, now);
    TimeoutKeepsInv(s, id, noEligibleMembers, now);
  }

  /** An attempt that rings nobody leaves the call as it was, but for who was tried. */
  lemma StillQuiet(s: Engine, id: CallId, a: Attempt)
    requires Quiet(s, id) && s.calls[id].queueId in s.queues && RingDialSet(s, id, a).calls[id].ringingChannelIds == []
    ensures var rung := RingDialSet(s, id, a);
            && Quiet(rung, id) && rung.calls[id].queueId in rung.queues && rung.log == s.log
            && Deadline(rung, id) == Deadline(s, id)
  {
  }

  lemma {:induction false} StartRingKeepsInv(s: Engine, id: CallId, attempts: nat -> Attempt, n: nat)
    returns (s': Engine)
    requires Inv(s) && Quiet(s, id) && s.calls[id].queueId in s.queues && PlausibleAttempts(s, attempts)
    ensures s' == StartRingAttempt(s, id, attempts, n) && Inv(s')
    decreases Deadline(s, id) - attempts(n).now
  {
    var a := attempts(n);
    if a.now >= Deadline(s, id) {
      s' := GivingUpKeepsInv(s, id, false, a.now);
    } else if EligibleMembers(s.calls, a.roster) == [] {
      s' := GivingUpKeepsInv(s, id, true, a.now);
    } else {
      s' := RingKeepsInv(s, id, a);
      if s'.calls[id].ringingChannelIds == [] {
        StillQuiet(s, id, a);
        assert attempts(n).now < attempts(n + 1).now;
        s' := StartRingKeepsInv(s', id, attempts, n + 1);
      }
    }
  }

  lemma EnterKeepsInv(s: Engine, e: Event) returns (s': Engine)
    requires Inv(s) && e.CallerEnters? && Plausible(s, e)
    ensures s' == Step(s, e) && Inv(s')
  {
    if !QueueEnabled(s, e.tenantId, e.queueId) {
      s' := Emit(s, [HangupChannel(e.channel)]);
      HangUpKeepsInv(s, s', e.channel);
    } else if CallerKnown(s.calls, e.channel) {
      s' := s;
    } else {
      var queue, call := s.queues[e.queueId], NewCall(e.tenantId, e.queueId, e.channel, e.now);
      if queue.maxCallers != 0 && |ActiveCalls(s.calls, e.queueId)| >= queue.maxCallers {
        call := call.(status := Full, endedAt := Some(e.now));
        s' := RefuseKeepsInv(s, e.newId, call, QueueFull(e.newId, e.channel));
      } else if EligibleMembers(s.calls, e.roster) == [] {
        call := call.(status := TimedOut, endedAt := Some(e.now));
        s' := RefuseKeepsInv(s, e.newId, call, QueueTimeout(e.newId, true));
      } else {
        s' := AdmittedKeepsInv(s, e.newId, call, e.attempts);
      }
    }
  }

  lemma AdmittedKeepsInv(s: Engine, id: CallId, call: QueueCall, attempts: nat -> Attempt) returns (s': Engine)
    requires Inv(s) && id !in s.calls && !CallerKnown(s.calls, call.callerChannelId) && call.queueId in s.queues
    requires call.ringingChannelIds == [] && call.attemptOrder == [] && call.endedAt == None && call.status == Waiting
    requires PlausibleAttempts(s, attempts)
    ensures s' == StartRingAttempt(Admit(s, id, call), id, attempts, 0) && Inv(s')
  {
    AdmitKeepsInv(s, id, call);
    StillPlausible(s, Admit(s, id, call), attempts);
    s' := StartRingKeepsInv(Admit(s, id, call), id, attempts, 0);
  }

  lemma StillPlausible(s: Engine, s': Engine, attempts: nat -> Attempt)
    requires PlausibleAttempts(s, attempts)
    requires forall c :: Offered(s'.log, c) ==> Offered(s.log, c)
    ensures PlausibleAttempts(s', attempts)
  {
    forall n: nat ensures PlausibleAttempt(s'.log, attempts(n)) {
      assert PlausibleAttempt(s.log, attempts(n));
    }
  }

  lemma LegEndKeepsInv(s: Engine, channel: Chan, cause: Option<int>, attempts: nat -> Attempt)
    requires Inv(s) && channel in s.ringingAgentLegs && PlausibleAttempts(s, attempts)
    ensures Inv(AgentLegEnds(s, channel, cause, attempts))
  {
    var id := s.ringingAgentLegs[channel].queueCallId;
    assert channel in s.calls[id].ringingChannelIds;
    var s1 := StrikeLeg(s, channel, cause);
    StrikeKeepsInv(s, channel, cause);
    if s1.calls[id].ringingChannelIds == [] {
      if QueueEnabled(s, s.calls[id].tenantId, s.calls[id].queueId) {
        var s' := StartRingKeepsInv(s1, id, attempts, 0);
      } else {
        HangUpKeepsInv(s1, AgentLegEnds(s, channel, cause, attempts), s.calls[id].callerChannelId);
      }
    }
  }

  lemma StepKeepsInv(s: Engine, e: Event)
    requires Inv(s) && Plausible(s, e)
    ensures Inv(Step(s, e))
  {
    match e
    case CallerEnters(_, _, _, _, _, _, _) => var s' := EnterKeepsInv(s, e);
    case ChannelUp(channel, bridgeId, now) =>
      if channel in s.ringingAgentLegs {
        BridgeKeepsMaps(s, channel, bridgeId, now);
        BridgeKeepsLog(s, channel, bridgeId, now);
      }
    case ChannelGone(channel, cause, now, attempts) =>
      if channel in s.queueCallByCallerChannel {
        if s.calls[s.queueCallByCallerChannel[channel]].status == Bridged {
          CompleteKeepsInv(s, channel, now);
        } else {
          AbandonKeepsMaps(s, channel, now);
          AbandonKeepsLog(s, channel, now);
        }
      } else if channel in s.ringingAgentLegs {
        LegEndKeepsInv(s, channel, cause, attempts);
      }
    case _ =>
  }

  /** Main result: every state of every run satisfies the invariant. */
  lemma {:induction false} ReachableStatesSatisfyInv(states: seq<Engine>, events: seq<Event>, k: nat)
    requires Run(states, events) && Initial(states[0]) && k < |states|
    ensures Inv(states[k])
  {
    if k > 0 {
      ReachableStatesSatisfyInv(states, events, k - 1);
      StepKeepsInv(states[k - 1], events[k - 1]);
    }
  }
}
