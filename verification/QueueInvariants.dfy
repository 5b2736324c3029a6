/** What every reachable state of the queue engine satisfies, handler by handler. */
module QueueInvariants {
  import opened Prelude
  import opened QueueStrategy
  import opened QueueEngine

  // ---------- The invariant ----------

  /** The ringing legs kept in memory are exactly the ringing channels of the table's rows. */
  ghost predicate Linked(legs: map<Chan, RingingAgentLeg>, calls: map<CallId, QueueCall>) {
    && (forall c :: c in legs ==>
          legs[c].queueCallId in calls && c in calls[legs[c].queueCallId].ringingChannelIds)
    && (forall id, c :: id in calls && c in calls[id].ringingChannelIds ==>
          c in legs && legs[c].queueCallId == id)
    && (forall id :: id in calls ==>
          Distinct(calls[id].ringingChannelIds)
          && (calls[id].ringingChannelIds != [] ==> calls[id].status == Ringing))
  }

  /** Known callers have un-ended calls of their own channel; a call is ended iff its status is terminal. */
  ghost predicate CallersLinked(callers: map<Chan, CallId>, calls: map<CallId, QueueCall>) {
    && (forall c :: c in callers ==>
          callers[c] in calls && calls[callers[c]].endedAt == None && calls[callers[c]].callerChannelId == c)
    && (forall id, id' :: id in calls && id' in calls && id != id' ==>
          calls[id].callerChannelId != calls[id'].callerChannelId)
    && EndedIffTerminal(calls)
  }

  ghost predicate EndedIffTerminal(calls: map<CallId, QueueCall>) {
    forall id :: id in calls ==> (calls[id].endedAt.Some? <==> calls[id].status.Terminal())
  }

  ghost predicate OrdersDistinct(calls: map<CallId, QueueCall>) {
    forall id :: id in calls ==> Distinct(calls[id].attemptOrder)
  }

  datatype Fate = WasOffered | WasDeclined | WasCancelled | HasAnswered

  function FateOf(e: Effect): Option<(Fate, Chan)> {
    match e
    case AgentOffered(_, _, _, c) => Some((WasOffered, c))
    case AgentRejected(_, _, _, c) => Some((WasDeclined, c))
    case AgentUnavailable(_, _, _, c) => Some((WasDeclined, c))
    case CancelRing(c) => Some((WasCancelled, c))
    case AgentAnswered(_, _, _, c) => Some((HasAnswered, c))
    case _ => None
  }

  /** How often the channel met this fate. */
  ghost function Met(log: seq<Effect>, fate: Fate, channel: Chan): nat {
    if log == [] then 0
    else Met(log[..|log| - 1], fate, channel) + if FateOf(log[|log| - 1]) == Some((fate, channel)) then 1 else 0
  }

  /** How often the offer of a channel was settled: declined, cancelled or answered. */
  ghost function Settled(log: seq<Effect>, channel: Chan): nat {
    Met(log, WasDeclined, channel) + Met(log, WasCancelled, channel) + Met(log, HasAnswered, channel)
  }

  /** Every channel offered to an agent was offered once, and it is still ringing, or declined, or
      cancelled, or answered: exactly one of them, exactly once. No other channel is any of these. */
  ghost predicate Conserved(log: seq<Effect>, ringing: set<Chan>) {
    forall c ::
      && Met(log, WasOffered, c) <= 1
      && Met(log, WasOffered, c) == (if c in ringing then 1 else 0)
           + Met(log, WasDeclined, c) + Met(log, WasCancelled, c) + Met(log, HasAnswered, c)
  }

  ghost predicate OfferLogged(log: seq<Effect>, leg: RingingAgentLeg, channel: Chan) {
    AgentOffered(leg.queueCallId, leg.memberId, leg.agentId, channel) in log
  }

  /** The leg an AgentAnswered event speaks of. */
  function AnsweredLeg(e: Effect): RingingAgentLeg
    requires e.AgentAnswered?
  {
    RingingAgentLeg(e.call, e.member, e.agent)
  }

  ghost predicate AnsweredBy(calls: map<CallId, QueueCall>, leg: RingingAgentLeg) {
    && leg.queueCallId in calls
    && calls[leg.queueCallId].status in {Bridged, Completed}
    && calls[leg.queueCallId].answeredMemberId == Some(leg.memberId)
    && calls[leg.queueCallId].answeredAgentId == Some(leg.agentId)
  }

  /** Every ringing leg stems from a logged offer of the same call, member, agent and channel. */
  ghost predicate LegsOffered(log: seq<Effect>, legs: map<Chan, RingingAgentLeg>) {
    forall c :: c in legs ==> OfferLogged(log, legs[c], c)
  }

  /** Every answer follows its own offer, and names the member and agent the call is bridged to. */
  ghost predicate AnswersMatched(log: seq<Effect>, calls: map<CallId, QueueCall>) {
    forall j :: 0 <= j < |log| && log[j].AgentAnswered? ==>
      OfferLogged(log[..j], AnsweredLeg(log[j]), log[j].channel) && AnsweredBy(calls, AnsweredLeg(log[j]))
  }

  ghost predicate AnsweredOnce(log: seq<Effect>) {
    forall i, j :: 0 <= i < j < |log| && log[i].AgentAnswered? && log[j].AgentAnswered? ==> log[i].call != log[j].call
  }

  function EndOf(e: Effect): Option<(CallId, Status)> {
    match e
    case CallCompleted(id, _) => Some((id, Completed))
    case CallerAbandoned(id, _) => Some((id, Abandoned))
    case QueueTimeout(id, _) => Some((id, TimedOut))
    case QueueFull(id, _) => Some((id, Full))
    case _ => None
  }

  /** How often the log ends this call with this status. */
  ghost function Ends(log: seq<Effect>, id: CallId, status: Status): nat {
    if log == [] then 0
    else Ends(log[..|log| - 1], id, status) + if EndOf(log[|log| - 1]) == Some((id, status)) then 1 else 0
  }

  predicate EndedAs(calls: map<CallId, QueueCall>, id: CallId, status: Status) {
    id in calls && calls[id].endedAt.Some? && calls[id].status == status
  }

  /** Every ended call has exactly one terminal event, of the kind its status says; others have none. */
  ghost predicate EndsLogged(log: seq<Effect>, calls: map<CallId, QueueCall>) {
    forall id, status :: Ends(log, id, status) == if EndedAs(calls, id, status) then 1 else 0
  }

  ghost predicate MapsInv(s: Engine) {
    && Linked(s.ringingAgentLegs, s.calls)
    && CallersLinked(s.queueCallByCallerChannel, s.calls)
    && OrdersDistinct(s.calls)
    && Conserved(s.log, s.ringingAgentLegs.Keys)
    && LegsOffered(s.log, s.ringingAgentLegs)
  }

  ghost predicate LogInv(s: Engine) {
    && AnswersMatched(s.log, s.calls)
    && AnsweredOnce(s.log)
    && EndsLogged(s.log, s.calls)
  }

  ghost predicate Inv(s: Engine) {
    MapsInv(s) && LogInv(s)
  }

  // ---------- Logs ----------

  lemma {:induction false} MetConcat(a: seq<Effect>, b: seq<Effect>, fate: Fate, channel: Chan)
    ensures Met(a + b, fate, channel) == Met(a, fate, channel) + Met(b, fate, channel)
  {
    if b == [] {
      assert a + b == a;
    } else {
      assert (a + b)[..|a + b| - 1] == a + b[..|b| - 1];
      MetConcat(a, b[..|b| - 1], fate, channel);
    }
  }

  lemma {:induction false} EndsConcat(a: seq<Effect>, b: seq<Effect>, id: CallId, status: Status)
    ensures Ends(a + b, id, status) == Ends(a, id, status) + Ends(b, id, status)
  {
    if b == [] {
      assert a + b == a;
    } else {
      assert (a + b)[..|a + b| - 1] == a + b[..|b| - 1];
      EndsConcat(a, b[..|b| - 1], id, status);
    }
  }

  /** A batch of effects that have the same fate on distinct channels. */
  lemma {:induction false} MetBatch(batch: seq<Effect>, channels: seq<Chan>, kind: Fate, fate: Fate, channel: Chan)
    requires |batch| == |channels| && Distinct(channels)
    requires forall i :: 0 <= i < |batch| ==> FateOf(batch[i]) == Some((kind, channels[i]))
    ensures Met(batch, fate, channel) == if fate == kind && channel in channels then 1 else 0
  {
    if batch != [] {
      var n := |batch| - 1;
      MetBatch(batch[..n], channels[..n], kind, fate, channel);
      assert channels == channels[..n] + [channels[n]];
    }
  }

  /** A batch without this fate. */
  lemma {:induction false} NeverMet(batch: seq<Effect>, fate: Fate, channel: Chan)
    requires forall i :: 0 <= i < |batch| ==> FateOf(batch[i]) != Some((fate, channel))
    ensures Met(batch, fate, channel) == 0
  {
    if batch != [] { NeverMet(batch[..|batch| - 1], fate, channel); }
  }

  lemma {:induction false} EndsNothing(batch: seq<Effect>, id: CallId, status: Status)
    requires forall i :: 0 <= i < |batch| ==> EndOf(batch[i]) != Some((id, status))
    ensures Ends(batch, id, status) == 0
  {
    if batch != [] { EndsNothing(batch[..|batch| - 1], id, status); }
  }

  lemma {:induction false} OfferedIffMet(log: seq<Effect>, channel: Chan)
    ensures Offered(log, channel) <==> Met(log, WasOffered, channel) > 0
  {
    if log != [] {
      var front, last := log[..|log| - 1], log[|log| - 1];
      OfferedIffMet(front, channel);
      assert log == front + [last];
      assert Offered(log, channel) <==> Offered(front, channel) || (last.AgentOffered? && last.channel == channel) by {
        if Offered(front, channel) {
          var e :| e in front && e.AgentOffered? && e.channel == channel;
          assert e in log;
        }
        if last.AgentOffered? && last.channel == channel { assert last in log; }
      }
    }
  }

  // ---------- What one batch of effects does ----------

  /** The batch offers exactly the channels `added`, once each, and settles exactly `removed`. */
  ghost predicate Moves(batch: seq<Effect>, added: set<Chan>, removed: set<Chan>) {
    forall c :: Met(batch, WasOffered, c) == (if c in added then 1 else 0)
             && Settled(batch, c) == (if c in removed then 1 else 0)
  }

  /** The batch ends no call. */
  ghost predicate NoEnd(batch: seq<Effect>) {
    forall i :: 0 <= i < |batch| ==> EndOf(batch[i]) == None
  }

  lemma MovesConcat(a: seq<Effect>, b: seq<Effect>, removed: set<Chan>, removed': set<Chan>)
    requires Moves(a, {}, removed) && Moves(b, {}, removed') && removed !! removed'
    ensures Moves(a + b, {}, removed + removed')
  {
    forall c ensures Met(a + b, WasOffered, c) == 0 && Settled(a + b, c) == if c in removed + removed' then 1 else 0 {
      MetConcat(a, b, WasOffered, c);
      MetConcat(a, b, WasDeclined, c);
      MetConcat(a, b, WasCancelled, c);
      MetConcat(a, b, HasAnswered, c);
      assert Settled(a, c) == if c in removed then 1 else 0;
      assert Settled(b, c) == if c in removed' then 1 else 0;
    }
  }

  /** Effects that have no fate at all. */
  lemma MovesNothing(batch: seq<Effect>)
    requires forall i :: 0 <= i < |batch| ==> FateOf(batch[i]) == None
    ensures Moves(batch, {}, {})
  {
    forall c ensures Met(batch, WasOffered, c) == 0 && Settled(batch, c) == 0 {
      NeverMet(batch, WasOffered, c);
      NeverMet(batch, WasDeclined, c);
      NeverMet(batch, WasCancelled, c);
      NeverMet(batch, HasAnswered, c);
    }
  }

  lemma MovesOffers(batch: seq<Effect>, channels: seq<Chan>, added: set<Chan>)
    requires |batch| == |channels| && Distinct(channels) && (forall c :: c in added <==> c in channels)
    requires forall i :: 0 <= i < |batch| ==> FateOf(batch[i]) == Some((WasOffered, channels[i]))
    ensures Moves(batch, added, {})
  {
    forall c ensures Met(batch, WasOffered, c) == (if c in added then 1 else 0) && Settled(batch, c) == 0 {
      MetBatch(batch, channels, WasOffered, WasOffered, c);
      MetBatch(batch, channels, WasOffered, WasDeclined, c);
      MetBatch(batch, channels, WasOffered, WasCancelled, c);
      MetBatch(batch, channels, WasOffered, HasAnswered, c);
    }
  }

  lemma MovesSettle(batch: seq<Effect>, channels: seq<Chan>, kind: Fate, removed: set<Chan>)
    requires |batch| == |channels| && Distinct(channels) && (forall c :: c in removed <==> c in channels)
    requires kind != WasOffered && forall i :: 0 <= i < |batch| ==> FateOf(batch[i]) == Some((kind, channels[i]))
    ensures Moves(batch, {}, removed)
  {
    forall c ensures Met(batch, WasOffered, c) == 0 && Settled(batch, c) == if c in removed then 1 else 0 {
      MetBatch(batch, channels, kind, WasOffered, c);
      MetBatch(batch, channels, kind, WasDeclined, c);
      MetBatch(batch, channels, kind, WasCancelled, c);
      MetBatch(batch, channels, kind, HasAnswered, c);
    }
  }

  // ---------- One row, one batch of effects ----------

  /** Replacing one row and the legs of that call. */
  lemma LinkedPut(legs: map<Chan, RingingAgentLeg>, calls: map<CallId, QueueCall>,
                  legs': map<Chan, RingingAgentLeg>, id: CallId, call: QueueCall)
    requires Linked(legs, calls)
    requires Distinct(call.ringingChannelIds) && (call.ringingChannelIds != [] ==> call.status == Ringing)
    requires forall c :: c in legs' <==> (c in legs && legs[c].queueCallId != id) || c in call.ringingChannelIds
    requires forall c :: c in call.ringingChannelIds ==> c in legs' && legs'[c].queueCallId == id
    requires forall c :: c in call.ringingChannelIds && c in legs ==> legs[c].queueCallId == id
    requires forall c :: c in legs' && c !in call.ringingChannelIds ==> legs'[c] == legs[c]
    ensures Linked(legs', calls[id := call])
  {
  }

  /** Replacing one row and possibly the caller entry of that call. */
  lemma CallersPut(callers: map<Chan, CallId>, calls: map<CallId, QueueCall>,
                   callers': map<Chan, CallId>, id: CallId, call: QueueCall)
    requires CallersLinked(callers, calls)
    requires call.endedAt.Some? <==> call.status.Terminal()
    requires if id in calls then call.callerChannelId == calls[id].callerChannelId
             else !CallerKnown(calls, call.callerChannelId)
    requires forall c :: c in callers' ==>
               if call.callerChannelId == c then callers'[c] == id && call.endedAt == None
               else c in callers && callers'[c] == callers[c]
    ensures CallersLinked(callers', calls[id := call])
  {
    EndedPut(calls, id, call);
  }

  lemma EndedPut(calls: map<CallId, QueueCall>, id: CallId, call: QueueCall)
    requires EndedIffTerminal(calls) && (call.endedAt.Some? <==> call.status.Terminal())
    ensures EndedIffTerminal(calls[id := call])
  {
  }

  /** Appending effects that are no answers, while answered calls stay answered. */
  lemma AnswersAppend(log: seq<Effect>, calls: map<CallId, QueueCall>, batch: seq<Effect>,
                      calls': map<CallId, QueueCall>)
    requires AnswersMatched(log, calls) && AnsweredOnce(log)
    requires forall i :: 0 <= i < |batch| ==> !batch[i].AgentAnswered?
    requires forall leg :: AnsweredBy(calls, leg) ==> AnsweredBy(calls', leg)
    ensures AnswersMatched(log + batch, calls') && AnsweredOnce(log + batch)
  {
    forall j | 0 <= j < |log + batch| && (log + batch)[j].AgentAnswered?
      ensures j < |log| && (log + batch)[j] == log[j] && (log + batch)[..j] == log[..j]
    {
    }
  }

  lemma LegsOfferedAppend(log: seq<Effect>, legs: map<Chan, RingingAgentLeg>, batch: seq<Effect>,
                          legs': map<Chan, RingingAgentLeg>)
    requires LegsOffered(log, legs)
    requires forall c :: c in legs' ==> (c in legs && legs'[c] == legs[c]) || OfferLogged(batch, legs'[c], c)
    ensures LegsOffered(log + batch, legs')
  {
  }

  /** Offered channels that are new start ringing; settled ones were ringing and stop. */
  lemma ConservedAppend(log: seq<Effect>, ringing: set<Chan>, batch: seq<Effect>, added: set<Chan>, removed: set<Chan>)
    requires Conserved(log, ringing) && Moves(batch, added, removed)
    requires removed <= ringing && forall c :: c in added ==> !Offered(log, c)
    ensures Conserved(log + batch, ringing + added - removed)
    ensures ringing !! added
  {
    forall c
      ensures (c in added ==> c !in ringing)
      ensures Met(log + batch, WasOffered, c) <= 1
      ensures Met(log + batch, WasOffered, c) == (if c in ringing + added - removed then 1 else 0)
                + Met(log + batch, WasDeclined, c) + Met(log + batch, WasCancelled, c)
                  + Met(log + batch, HasAnswered, c)
    {
      OfferedIffMet(log, c);
      MetConcat(log, batch, WasOffered, c);
      MetConcat(log, batch, WasDeclined, c);
      MetConcat(log, batch, WasCancelled, c);
      MetConcat(log, batch, HasAnswered, c);
      assert Settled(batch, c) == if c in removed then 1 else 0;
    }
  }

  /** A row that is not ended before nor after. */
  lemma EndsKeep(log: seq<Effect>, calls: map<CallId, QueueCall>, batch: seq<Effect>, id: CallId, call: QueueCall)
    requires EndsLogged(log, calls) && NoEnd(batch)
    requires id in calls ==> calls[id].endedAt == None
    requires call.endedAt == None
    ensures EndsLogged(log + batch, calls[id := call])
  {
    forall id', status
      ensures Ends(log + batch, id', status) == if EndedAs(calls[id := call], id', status) then 1 else 0
    {
      EndsConcat(log, batch, id', status);
      EndsNothing(batch, id', status);
    }
  }

  /** A row that ends now, with its one terminal event at position k of the batch. */
  lemma EndsAppend(log: seq<Effect>, calls: map<CallId, QueueCall>, batch: seq<Effect>, k: nat, id: CallId,
                   call: QueueCall)
    requires EndsLogged(log, calls)
    requires id in calls ==> calls[id].endedAt == None
    requires call.endedAt.Some?
    requires k < |batch| && EndOf(batch[k]) == Some((id, call.status))
    requires forall i :: 0 <= i < |batch| && i != k ==> EndOf(batch[i]) == None
    ensures EndsLogged(log + batch, calls[id := call])
  {
    forall id', status
      ensures Ends(log + batch, id', status) == if EndedAs(calls[id := call], id', status) then 1 else 0
    {
      var before, after := batch[..k], batch[k + 1..];
      assert batch == before + [batch[k]] + after;
      EndsConcat(log, batch, id', status);
      EndsConcat(before + [batch[k]], after, id', status);
      EndsConcat(before, [batch[k]], id', status);
      EndsNothing(before, id', status);
      EndsNothing(after, id', status);
      assert [batch[k]][..0] == [];
    }
  }
}
