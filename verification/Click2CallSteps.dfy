/** Which call an event concerns, whom it is told to, who is dialled, bridged and hung up on. */
module Click2CallSteps {
  import opened Prelude
  import opened Click2Call
  import opened Click2CallSafety

  // ---------- Which call ----------

  predicate Active(c: Call, channel: Chan) {
    c.isClick2Call && c.endedAt == None && (c.callerChannelId == Some(channel) || c.calleeChannelId == Some(channel))
  }

  /** The newest active call with this channel. */
  ghost predicate Newest(s: State, id: CallId, channel: Chan) {
    && id in s.calls && Active(s.calls[id], channel)
    && exists i :: 0 <= i < |s.order| && s.order[i] == id
                   && forall j :: 0 <= j < i && s.order[j] in s.calls ==> !Active(s.calls[s.order[j]], channel)
  }

  ghost predicate NoneActive(s: State, channel: Chan) {
    forall id :: id in s.order && id in s.calls ==> !Active(s.calls[id], channel)
  }

  lemma {:induction false} FindsNewest(order: seq<CallId>, calls: map<CallId, Call>, channel: Chan) returns (i: nat)
    ensures i <= |order| && forall j :: 0 <= j < i && order[j] in calls ==> !Active(calls[order[j]], channel)
    ensures var found := FindCall(order, calls, channel, true);
            if i == |order| then found == None
            else found == Some(order[i]) && order[i] in calls && Active(calls[order[i]], channel)
  {
    if order == [] || (order[0] in calls && Active(calls[order[0]], channel)) {
      i := 0;
    } else {
      var rest := FindsNewest(order[1..], calls, channel);
      i := rest + 1;
    }
  }

  /** At most one call is the newest, and it is the one looked up. */
  lemma NewestFound(s: State, id: CallId, channel: Chan)
    ensures Newest(s, id, channel) <==> FindCall(s.order, s.calls, channel, true) == Some(id)
    ensures NoneActive(s, channel) <==> FindCall(s.order, s.calls, channel, true) == None
  {
    var i := FindsNewest(s.order, s.calls, channel);
  }

  // ---------- What is added to the log ----------

  /** One row is changed, and so much is added to the log. */
  ghost predicate OnlyRow(s: State, s': State, id: CallId, added: seq<Effect>) {
    id in s.calls && id in s'.calls && s'.calls == s.calls[id := s'.calls[id]] && s'.order == s.order
    && s'.log == s.log + added
  }

  /** Among these effects, the channels hung up on are those for which `hung` holds. */
  ghost predicate HangsUp(added: seq<Effect>, hung: Chan -> bool) {
    && (forall x :: HangupChannel(x) in added <==> hung(x))
    && forall i, j :: 0 <= i < j < |added| && added[i].HangupChannel? ==> !added[j].HangupChannel?
  }

  /** The webhooks among these effects: this one, when the call has a tenant. */
  ghost predicate Tells(added: seq<Effect>, id: CallId, c: Call, trigger: Trigger) {
    && (forall other, t :: Webhook(other, t) in added <==> other == id && t == trigger && c.tenantId.Some?)
    && forall i, j :: 0 <= i < j < |added| && added[i].Webhook? ==> !added[j].Webhook?
  }

  predicate NothingDone(added: seq<Effect>) {
    forall i :: 0 <= i < |added| ==> added[i].HangupChannel? || added[i].Webhook?
  }

  // ---------- A channel is gone ----------

  /** The cause is missing or says that nobody answered, or the leg had not been answered. */
  predicate Unanswered(s: State, channel: Chan, cause: Option<int>) {
    && cause != Some(17) && cause != Some(21)
    && (channel !in s.legs || !s.legs[channel] || cause == Some(18) || cause == Some(19) || cause == Some(102))
  }

  ghost predicate EndedWith(s: State, c: Call, c': Call, channel: Chan, cause: Option<int>, now: int) {
    && c' == c.(status := c'.status, endedAt := Some(now), duration := c'.duration)
    && (c'.status == Completed <==> c.bridgeId.Some?)
    && (c'.status == Busy <==> c.bridgeId == None && cause == Some(17))
    && (c'.status == Rejected <==> c.bridgeId == None && cause == Some(21))
    && (c'.status == NoAnswer <==> c.bridgeId == None && Unanswered(s, channel, cause))
    && c'.status in {Completed, Busy, Rejected, NoAnswer, Cancelled}
    && match c.startedAt
       case None => c'.duration == c.duration
       case Some(from) =>
         c'.duration.Some?
         && if now < from then c'.duration.value == 0
            else 1000 * c'.duration.value <= now - from < 1000 * (c'.duration.value + 1)
  }

  /** Main result: when a channel of a call is gone, only its newest active call is ended. The one webhook says which
      leg ended it, the caller's or the callee's, and whether it was not answered; and unless the call was
      bridged, its other leg, if there is one, is hung up on, and no other channel. */
  lemma EndHangsUpOther(s: State, id: CallId, channel: Chan, cause: Option<int>, now: int)
    returns (s': State, added: seq<Effect>)
    requires Newest(s, id, channel)
    ensures s' == Step(s, Destroyed(channel, cause, now)) && OnlyRow(s, s', id, added) && s'.legs == s.legs
    ensures EndedWith(s, s.calls[id], s'.calls[id], channel, cause, now) && NothingDone(added)
    ensures var c := s.calls[id];
            && (c.callerChannelId == Some(channel) ==>
                  && HangsUp(added, x => c.bridgeId == None && c.calleeChannelId == Some(x))
                  && Tells(added, id, c, if c.bridgeId == None && Unanswered(s, channel, cause) then CallerNoAnswer
                                         else CallerDisconnected))
            && (c.callerChannelId != Some(channel) ==>
                  && HangsUp(added, x => c.bridgeId == None && c.callerChannelId == Some(x))
                  && Tells(added, id, c, if c.bridgeId == None && Unanswered(s, channel, cause) then CalleeNoAnswer
                                         else CalleeDisconnected))
  {
    NewestFound(s, id, channel);
    var c := s.calls[id];
    var isCallerLeg := c.callerChannelId == Some(channel);
    var status := ResolveCallEndStatus(channel in s.legs && s.legs[channel], c.bridgeId.Some?, cause);
    s', added := Step(s, Destroyed(channel, cause, now)), EndEffects(id, c, isCallerLeg, status);
    EndEffectsAre(id, c, isCallerLeg, status);
  }

  lemma EndEffectsAre(id: CallId, c: Call, isCallerLeg: bool, status: Status)
    ensures var added := EndEffects(id, c, isCallerLeg, status);
            && HangsUp(added, x => c.bridgeId == None && (if isCallerLeg then c.calleeChannelId else c.callerChannelId)
                                                         == Some(x))
            && Tells(added, id, c, if status == NoAnswer then (if isCallerLeg then CallerNoAnswer else CalleeNoAnswer)
                                   else if isCallerLeg then CallerDisconnected else CalleeDisconnected)
            && NothingDone(added)
  {
  }

  /** So the leg that is gone is not hung up on, when the two legs differ. */
  lemma GoneIsNotHungUp(s: State, id: CallId, channel: Chan, cause: Option<int>, now: int)
    requires Newest(s, id, channel) && s.calls[id].callerChannelId != s.calls[id].calleeChannelId
    ensures HangupChannel(channel) !in Step(s, Destroyed(channel, cause, now)).log[|s.log|..]
  {
    var s', added := EndHangsUpOther(s, id, channel, cause, now);
    assert s'.log[|s.log|..] == added;
  }

  /** Nothing happens when a channel is gone that no active call has. */
  lemma GoneElsewhere(s: State, channel: Chan, cause: Option<int>, now: int)
    requires NoneActive(s, channel)
    ensures Step(s, Destroyed(channel, cause, now)) == s
  {
    NewestFound(s, "", channel);
    if FindCall(s.order, s.calls, channel, false).Some? {
      var id := FindCall(s.order, s.calls, channel, false).value;
      FoundInOrder(s.order, s.calls, channel, false);
      assert !Active(s.calls[id], channel);
    }
  }

  lemma {:induction false} FoundInOrder(order: seq<CallId>, calls: map<CallId, Call>, channel: Chan, activeOnly: bool)
    ensures var found := FindCall(order, calls, channel, activeOnly); found.Some? ==> found.value in order
  {
    if order != [] { FoundInOrder(order[1..], calls, channel, activeOnly); }
  }

  // ---------- A channel answers ----------

  /** A known leg is answered from now on, and `taken` become known; no other leg changes. */
  predicate LegsAfter(legs: map<Chan, bool>, legs': map<Chan, bool>, answered: set<Chan>, taken: set<Chan>) {
    && legs'.Keys == legs.Keys + taken
    && forall x <- legs' :: legs'[x] == (x in answered || (x in legs && legs[x]))
  }

  /** The callee can be dialled: there is a number, and an internal one is an extension's. */
  predicate Dials(c: Call, reply: Reply) {
    c.callToNumber != "" && (c.direction == External || reply.extensionFound)
  }

  /** The only command among these effects dials the callee, with arguments that bring its leg back to the call. */
  ghost predicate DialsOnce(added: seq<Effect>, id: CallId, c: Call, reply: Reply) {
    && (forall e :: e in added && !e.Webhook? && !e.HangupChannel? ==>
          && Dials(c, reply) && e.OriginateCallee? && e.call == id && e.originated == reply.originated
          && (id != "" ==> ParseArgs(e.args) == Some(Args(id, c.callToNumber, c.direction, CalleeLeg))))
    && (Dials(c, reply) ==> exists i :: 0 <= i < |added| && added[i].OriginateCallee?)
    && forall i, j :: 0 <= i < j < |added| && added[i].OriginateCallee? ==> !added[j].OriginateCallee?
  }

  /** When the agent answers and no callee leg exists: the caller's connection is told, the callee dialled, and the
      agent hung up on just when dialling fails. The callee's channel is then known, or the call has failed. */
  lemma AgentAnswers(s: State, id: CallId, channel: Chan, reply: Reply, now: int)
    returns (s': State, added: seq<Effect>)
    requires Newest(s, id, channel)
    requires s.calls[id].callerChannelId == Some(channel) && s.calls[id].calleeChannelId == None
    ensures s' == Step(s, StateChange(channel, true, reply, now)) && OnlyRow(s, s', id, added)
    ensures var (c, c') := (s.calls[id], s'.calls[id]);
            && Tells(added, id, c, CallerConnected) && DialsOnce(added, id, c, reply)
            && HangsUp(added, x => Dials(c, reply) && reply.originated == None && x == channel)
            && c' == (if c.callToNumber == "" then c
                      else if Dials(c, reply) && reply.originated.Some? then
                        c.(calleeChannelId := reply.originated, status := Ringing)
                      else c.(status := Failed, endedAt := Some(now)))
            && LegsAfter(s.legs, s'.legs, {channel} * s.legs.Keys,
                         if c'.calleeChannelId.Some? then {c'.calleeChannelId.value} else {})
  {
    NewestFound(s, id, channel);
    var c := s.calls[id];
    s' := Step(s, StateChange(channel, true, reply, now));
    added := Webhooks(id, c, CallerConnected) + DialEffects(id, c, reply);
    DialEffectsAre(id, c, reply);
  }

  lemma DialEffectsAre(id: CallId, c: Call, reply: Reply)
    requires c.callerChannelId.Some? && c.calleeChannelId == None
    ensures var added := Webhooks(id, c, CallerConnected) + DialEffects(id, c, reply);
            && Tells(added, id, c, CallerConnected) && DialsOnce(added, id, c, reply)
            && HangsUp(added, x => Dials(c, reply) && reply.originated == None && c.callerChannelId == Some(x))
  {
    var hung := x => Dials(c, reply) && reply.originated == None && c.callerChannelId == Some(x);
    DialHangsUp(id, c, reply, hung);
    WebhookFirst(id, c, CallerConnected, DialEffects(id, c, reply), hung);
    DialCommand(id, c, reply);
  }

  lemma WebhookFirst(id: CallId, c: Call, trigger: Trigger, rest: seq<Effect>, hung: Chan -> bool)
    requires HangsUp(rest, hung) && forall i :: 0 <= i < |rest| ==> !rest[i].Webhook?
    ensures var added := Webhooks(id, c, trigger) + rest; Tells(added, id, c, trigger) && HangsUp(added, hung)
  {
  }

  lemma DialHangsUp(id: CallId, c: Call, reply: Reply, hung: Chan -> bool)
    requires c.callerChannelId.Some? && c.calleeChannelId == None
    requires forall x: Chan :: hung(x) <==> Dials(c, reply) && reply.originated == None && c.callerChannelId == Some(x)
    ensures var d := DialEffects(id, c, reply); HangsUp(d, hung) && forall i :: 0 <= i < |d| ==> !d[i].Webhook?
  {
    var o := OriginateCallee(id, CalleeArgs(id, c), reply.originated);
    var d := DialEffects(id, c, reply);
    assert d == if !Dials(c, reply) then [] else if reply.originated.Some? then [o]
                else [o] + Hangups(c.callerChannelId);
  }

  lemma DialCommand(id: CallId, c: Call, reply: Reply)
    requires c.calleeChannelId == None
    ensures DialsOnce(Webhooks(id, c, CallerConnected) + DialEffects(id, c, reply), id, c, reply)
  {
    if id != "" && c.callToNumber != "" { CalleeArgsRoundTrip(id, c); }
    if Dials(c, reply) {
      var w, d := Webhooks(id, c, CallerConnected), DialEffects(id, c, reply);
      assert d[0].OriginateCallee? && (w + d)[|w|] == d[0];
    }
  }

  /** When the callee answers and the call has no bridge yet: its two legs, and no others, are bridged, and then the
      callee's connection is told; or the call has failed. */
  lemma CalleeAnswersBridges(s: State, id: CallId, channel: Chan, reply: Reply, now: int)
    returns (s': State, added: seq<Effect>)
    requires Newest(s, id, channel) && s.calls[id].calleeChannelId == Some(channel) && s.calls[id].bridgeId == None
    ensures s' == Step(s, StateChange(channel, true, reply, now)) && OnlyRow(s, s', id, added)
    ensures var (c, c') := (s.calls[id], s'.calls[id]);
            match c.callerChannelId
            case None => c' == c && added == [] && LegsAfter(s.legs, s'.legs, {channel}, {})
            case Some(caller) =>
              && |added| > 0 && added[0] == BridgeLegs(id, caller, channel, reply.bridged)
              && (forall i :: 0 < i < |added| ==> added[i].Webhook?)
              && if reply.bridged.Some? then
                   && c' == c.(bridgeId := reply.bridged, status := Answered, answeredAt := Some(now))
                   && Tells(added, id, c, CalleeConnected)
                   && LegsAfter(s.legs, s'.legs, {caller, channel}, {caller, channel})
                 else
                   c' == c.(status := Failed, endedAt := Some(now)) && |added| == 1
                   && LegsAfter(s.legs, s'.legs, {channel}, {})
  {
    NewestFound(s, id, channel);
    s', added := Step(s, StateChange(channel, true, reply, now)), BridgeEffects(id, s.calls[id], reply);
  }

  /** Any other answer changes no row and sends nothing. */
  lemma OtherAnswers(s: State, channel: Chan, up: bool, reply: Reply, now: int) returns (s': State)
    requires !up || forall id :: Newest(s, id, channel) ==>
               var c := s.calls[id];
               && (c.callerChannelId == Some(channel) ==> c.calleeChannelId.Some?)
               && (c.calleeChannelId == Some(channel) ==> c.bridgeId.Some?)
    ensures s' == Step(s, StateChange(channel, up, reply, now)) && s'.calls == s.calls && s'.log == s.log
    ensures s'.order == s.order
    ensures if up && !NoneActive(s, channel) then LegsAfter(s.legs, s'.legs, {channel}, {}) else s'.legs == s.legs
  {
    s' := Step(s, StateChange(channel, up, reply, now));
    NewestFound(s, "", channel);
    var found := FindCall(s.order, s.calls, channel, true);
    if found.Some? { NewestFound(s, found.value, channel); }
  }

  /** A leg that enters the application takes its place in the call it names, unless another channel has it; the row
      rings then, and starts when its agent comes first. Nothing is sent. */
  lemma LegEnters(s: State, args: seq<string>, channel: Chan, now: int, named: Args) returns (s': State)
    requires ParseArgs(args) == Some(named) && named.callId in s.calls && s.calls[named.callId].isClick2Call
    ensures s' == Step(s, StasisStart(args, channel, now)) && OnlyRow(s, s', named.callId, [])
    ensures LegsAfter(s.legs, s'.legs, {}, {channel})
    ensures var (c, c') := (s.calls[named.callId], s'.calls[named.callId]);
            && (named.leg == AgentLeg && c.callerChannelId in {None, Some(channel)} ==>
                  c' == c.(callerChannelId := Some(channel), status := Ringing,
                           startedAt := Some(if c.startedAt.Some? then c.startedAt.value else now)))
            && (named.leg == CalleeLeg && c.calleeChannelId in {None, Some(channel)} ==>
                  c' == c.(calleeChannelId := Some(channel), status := Ringing))
            && (named.leg == AgentLeg && c.callerChannelId !in {None, Some(channel)} ==> c' == c)
            && (named.leg == CalleeLeg && c.calleeChannelId !in {None, Some(channel)} ==> c' == c)
            && (named.leg == OtherLeg ==> c' == c)
  {
    s' := Step(s, StasisStart(args, channel, now));
  }

  lemma LegOfNobody(s: State, args: seq<string>, channel: Chan, now: int)
    requires var named := ParseArgs(args);
             named.Some? ==> named.value.callId !in s.calls || !s.calls[named.value.callId].isClick2Call
    ensures Step(s, StasisStart(args, channel, now)) == s
  {
  }

  // ---------- Over every run ----------

  /** A successful command of the log, and the row that shows it. */
  ghost predicate Shown(e: Effect, calls: map<CallId, Call>) {
    && (e.OriginateCallee? && e.originated.Some? ==> e.call in calls && calls[e.call].calleeChannelId == e.originated)
    && (e.BridgeLegs? && e.bridge.Some? ==>
          && e.call in calls && calls[e.call].bridgeId == e.bridge
          && calls[e.call].callerChannelId == Some(e.caller) && calls[e.call].calleeChannelId == Some(e.callee))
  }

  /** The legs of the row were bridged, on its bridge. */
  ghost predicate BridgeLogged(log: seq<Effect>, id: CallId, c: Call) {
    c.bridgeId.Some? ==> c.callerChannelId.Some? && c.calleeChannelId.Some?
                         && BridgeLegs(id, c.callerChannelId.value, c.calleeChannelId.value, c.bridgeId) in log
  }

  ghost predicate LogShown(s: State) {
    && (forall e :: e in s.log ==> Shown(e, s.calls))
    && (forall id :: id in s.calls ==> BridgeLogged(s.log, id, s.calls[id]))
  }

  lemma RowKeepsShown(s: State, s': State, id: CallId, added: seq<Effect>)
    requires LogShown(s) && OnlyRow(s, s', id, added) && KeepsSet(s.calls[id], s'.calls[id])
    requires (forall e :: e in added ==> Shown(e, s'.calls))
    requires s'.calls[id].bridgeId == s.calls[id].bridgeId || BridgeLogged(added, id, s'.calls[id])
    ensures LogShown(s')
  {
    forall e | e in s.log ensures Shown(e, s'.calls) {
      assert Shown(e, s.calls);
    }
    assert BridgeLogged(s.log, id, s.calls[id]);
  }

  lemma StepKeepsShown(s: State, e: Event) returns (s': State)
    requires Inv(s) && LogShown(s)
    ensures s' == Step(s, e) && LogShown(s')
  {
    match e
    case CallCreated(_, _) => s' := CreationKeepsShown(s, e);
    case StasisStart(args, channel, now) => s' := EntryKeepsShown(s, args, channel, now);
    case StateChange(channel, up, reply, now) => s' := AnswerKeepsShown(s, channel, up, reply, now);
    case Destroyed(channel, cause, now) => s' := EndKeepsShown(s, channel, cause, now);
  }

  lemma CreationKeepsShown(s: State, e: Event) returns (s': State)
    requires LogShown(s) && e.CallCreated?
    ensures s' == Step(s, e) && LogShown(s')
  {
    s' := Step(s, e);
    forall told | told in s.log ensures Shown(told, s'.calls) {
      assert Shown(told, s.calls);
    }
  }

  lemma EntryKeepsShown(s: State, args: seq<string>, channel: Chan, now: int) returns (s': State)
    requires Inv(s) && LogShown(s)
    ensures s' == Step(s, StasisStart(args, channel, now)) && LogShown(s')
  {
    s' := Step(s, StasisStart(args, channel, now));
    var parsed := ParseArgs(args);
    if parsed.Some? && parsed.value.callId in s.calls && s.calls[parsed.value.callId].isClick2Call {
      s' := LegEnters(s, args, channel, now, parsed.value);
      StepKeepsInv(s, StasisStart(args, channel, now));
      RowKeepsShown(s, s', parsed.value.callId, []);
    }
  }

  lemma AnswerKeepsShown(s: State, channel: Chan, up: bool, reply: Reply, now: int) returns (s': State)
    requires Inv(s) && LogShown(s)
    ensures s' == Step(s, StateChange(channel, up, reply, now)) && LogShown(s')
  {
    s' := Step(s, StateChange(channel, up, reply, now));
    var found := FindCall(s.order, s.calls, channel, true);
    if found.Some? && up {
      var id, c := found.value, s.calls[found.value];
      if c.callerChannelId == Some(channel) && c.calleeChannelId == None {
        s' := AgentKeepsShown(s, id, channel, reply, now);
      } else if c.calleeChannelId == Some(channel) && c.bridgeId == None {
        s' := CalleeKeepsShown(s, id, channel, reply, now);
      }
    }
  }

  lemma AgentKeepsShown(s: State, id: CallId, channel: Chan, reply: Reply, now: int) returns (s': State)
    requires Inv(s) && LogShown(s) && FindCall(s.order, s.calls, channel, true) == Some(id)
    requires s.calls[id].callerChannelId == Some(channel) && s.calls[id].calleeChannelId == None
    ensures s' == Step(s, StateChange(channel, true, reply, now)) && LogShown(s')
  {
    NewestFound(s, id, channel);
    var told, added := AgentAnswers(s, id, channel, reply, now);
    s' := told;
    StepKeepsInv(s, StateChange(channel, true, reply, now));
    RowKeepsShown(s, s', id, added);
  }

  lemma CalleeKeepsShown(s: State, id: CallId, channel: Chan, reply: Reply, now: int) returns (s': State)
    requires Inv(s) && LogShown(s) && FindCall(s.order, s.calls, channel, true) == Some(id)
    requires s.calls[id].calleeChannelId == Some(channel) && s.calls[id].bridgeId == None
    ensures s' == Step(s, StateChange(channel, true, reply, now)) && LogShown(s')
  {
    NewestFound(s, id, channel);
    var told, added := CalleeAnswersBridges(s, id, channel, reply, now);
    s' := told;
    StepKeepsInv(s, StateChange(channel, true, reply, now));
    RowKeepsShown(s, s', id, added);
  }

  lemma EndKeepsShown(s: State, channel: Chan, cause: Option<int>, now: int) returns (s': State)
    requires Inv(s) && LogShown(s)
    ensures s' == Step(s, Destroyed(channel, cause, now)) && LogShown(s')
  {
    var found := FindCall(s.order, s.calls, channel, true);
    if found.Some? {
      NewestFound(s, found.value, channel);
      var ended, added := EndHangsUpOther(s, found.value, channel, cause, now);
      s' := ended;
      StepKeepsInv(s, Destroyed(channel, cause, now));
      RowKeepsShown(s, s', found.value, added);
    } else {
      NewestFound(s, "", channel);
      GoneElsewhere(s, channel, cause, now);
      s' := s;
    }
  }

  lemma {:induction false} RunsKeepShown(s: State, events: seq<Event>)
    requires Inv(s) && LogShown(s)
    ensures Inv(RunAll(s, events)) && LogShown(RunAll(s, events))
    decreases |events|
  {
    if events != [] {
      StepKeepsInv(s, events[0]);
      var s' := StepKeepsShown(s, events[0]);
      RunsKeepShown(s', events[1..]);
    }
  }

  /** Main result: however events are repeated, lost or reordered, a call has a bridge iff its own two legs were
      connected by a command that succeeded, on that bridge; and no other command connects any of its legs. */
  lemma BridgedIffConnected(events: seq<Event>, id: CallId, bridge: Id)
    requires id in RunAll(Initial(), events).calls
    ensures var (c, log) := (RunAll(Initial(), events).calls[id], RunAll(Initial(), events).log);
            && (c.bridgeId == Some(bridge)
                <==> c.callerChannelId.Some? && c.calleeChannelId.Some?
                     && BridgeLegs(id, c.callerChannelId.value, c.calleeChannelId.value, Some(bridge)) in log)
            && (forall e :: e in log && e.BridgeLegs? && e.call == id && e.bridge.Some? ==>
                  c.bridgeId == e.bridge && c.callerChannelId == Some(e.caller) && c.calleeChannelId == Some(e.callee))
            && TallyOf(log, id).bridged <= 1
  {
    RunsKeepShown(Initial(), events);
    var s := RunAll(Initial(), events);
    assert BridgeLogged(s.log, id, s.calls[id]) && AtMostOnce(s.calls[id], TallyOf(s.log, id));
    forall e | e in s.log && e.BridgeLegs? && e.call == id && e.bridge.Some?
      ensures s.calls[id].bridgeId == e.bridge && s.calls[id].callerChannelId == Some(e.caller)
              && s.calls[id].calleeChannelId == Some(e.callee)
    {
      assert Shown(e, s.calls);
    }
  }
}
