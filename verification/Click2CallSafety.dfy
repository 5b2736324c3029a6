/** At most once, whatever order and however often events arrive. */
module Click2CallSafety {
  import opened Prelude
  import opened Click2Call

  // ---------- What was done for one call ----------

  datatype Kind = Originated | Bridged | ToldCallerConnected | ToldCalleeConnected | ToldEnd

  function KindOf(e: Effect): Option<(CallId, Kind)> {
    match e
    case OriginateCallee(id, _, _) => Some((id, Originated))
    case BridgeLegs(id, _, _, _) => Some((id, Bridged))
    case HangupChannel(_) => None
    case Webhook(id, CallerConnected) => Some((id, ToldCallerConnected))
    case Webhook(id, CalleeConnected) => Some((id, ToldCalleeConnected))
    case Webhook(id, _) => Some((id, ToldEnd))
  }

  /** How often each was done for a call. */
  datatype Tally = Tally(originated: nat, bridged: nat, callerConnected: nat, calleeConnected: nat, ends: nat)

  function Tallied(t: Tally, e: Effect, id: CallId): Tally {
    match KindOf(e)
    case None => t
    case Some((other, kind)) =>
      if other != id then t
      else
        match kind
        case Originated => t.(originated := t.originated + 1)
        case Bridged => t.(bridged := t.bridged + 1)
        case ToldCallerConnected => t.(callerConnected := t.callerConnected + 1)
        case ToldCalleeConnected => t.(calleeConnected := t.calleeConnected + 1)
        case ToldEnd => t.(ends := t.ends + 1)
  }

  /** Counting on. */
  function Fold(t: Tally, effects: seq<Effect>, id: CallId): Tally {
    if effects == [] then t else Tallied(Fold(t, effects[..|effects| - 1], id), effects[|effects| - 1], id)
  }

  lemma {:induction false} FoldConcat(t: Tally, a: seq<Effect>, b: seq<Effect>, id: CallId)
    ensures Fold(t, a + b, id) == Fold(Fold(t, a, id), b, id)
  {
    if b == [] {
      assert a + b == a;
    } else {
      assert (a + b)[..|a + b| - 1] == a + b[..|b| - 1];
      FoldConcat(t, a, b[..|b| - 1], id);
    }
  }

  function TallyOf(log: seq<Effect>, id: CallId): Tally {
    Fold(Tally(0, 0, 0, 0, 0), log, id)
  }

  ghost predicate About(effects: seq<Effect>, id: CallId) {
    forall i :: 0 <= i < |effects| && KindOf(effects[i]).Some? ==> KindOf(effects[i]).value.0 == id
  }

  lemma {:induction false} FoldOthers(t: Tally, effects: seq<Effect>, id: CallId, other: CallId)
    requires About(effects, id) && other != id
    ensures Fold(t, effects, other) == t
  {
    if effects != [] { FoldOthers(t, effects[..|effects| - 1], id, other); }
  }

  // ---------- Invariant ----------

  /** Each is done at most once, and what makes a second time impossible is recorded in the row. */
  ghost predicate AtMostOnce(c: Call, t: Tally) {
    && t.originated <= 1 && t.bridged <= 1 && t.calleeConnected <= 1 && t.ends <= 1
    && (c.callToNumber != "" ==> t.callerConnected <= 1)
    && (t.originated > 0 ==> c.calleeChannelId.Some? || c.endedAt.Some?)
    && (c.callToNumber != "" && t.callerConnected > 0 ==> c.calleeChannelId.Some? || c.endedAt.Some?)
    && (t.bridged > 0 ==> c.bridgeId.Some? || c.endedAt.Some?)
    && (t.calleeConnected > 0 ==> c.bridgeId.Some?)
    && (t.ends > 0 ==> c.endedAt.Some?)
  }

  ghost predicate Inv(s: State) {
    && (forall id :: id in s.calls ==> AtMostOnce(s.calls[id], TallyOf(s.log, id)))
    && (forall id :: id !in s.calls ==> TallyOf(s.log, id) == Tally(0, 0, 0, 0, 0))
  }

  /** Facts that never change once set. */
  ghost predicate KeepsSet(c: Call, c': Call) {
    && (c.callerChannelId.Some? ==> c'.callerChannelId == c.callerChannelId)
    && (c.calleeChannelId.Some? ==> c'.calleeChannelId == c.calleeChannelId)
    && (c.bridgeId.Some? ==> c'.bridgeId == c.bridgeId)
    && (c.endedAt.Some? ==> c'.endedAt == c.endedAt)
    && c'.callToNumber == c.callToNumber && c'.tenantId == c.tenantId
  }

  /** A row and its tally move on together. */
  ghost predicate GoodChange(id: CallId, c: Call, c': Call, effects: seq<Effect>) {
    && KeepsSet(c, c') && About(effects, id)
    && (forall t :: AtMostOnce(c, t) ==> AtMostOnce(c', Fold(t, effects, id)))
    && (c.endedAt.Some? ==> effects == [])
  }

  lemma FoldTwo(t: Tally, a: seq<Effect>, b: seq<Effect>, id: CallId)
    requires |a| <= 1 && |b| <= 1
    ensures var u := if a == [] then t else Tallied(t, a[0], id);
            Fold(t, a + b, id) == if b == [] then u else Tallied(u, b[0], id)
  {
    FoldConcat(t, a, b, id);
    if a != [] { assert a[..0] == []; }
    if b != [] { assert b[..0] == []; }
  }

  lemma StartGood(id: CallId, c: Call, leg: Leg, channel: Chan, now: int)
    ensures GoodChange(id, c, StartedCall(c, leg, channel, now), [])
  {
  }

  lemma HangupsDoNotCount(t: Tally, channel: Option<Chan>, id: CallId)
    ensures Fold(t, Hangups(channel), id) == t
  {
    if channel.Some? { assert Hangups(channel)[..0] == []; }
  }

  lemma CallerToldTally(t: Tally, id: CallId, c: Call)
    ensures Fold(t, Webhooks(id, c, CallerConnected), id)
            == t.(callerConnected := t.callerConnected + |Webhooks(id, c, CallerConnected)|)
  {
    if c.tenantId.Some? { assert Webhooks(id, c, CallerConnected)[..0] == []; }
  }

  lemma DialEffectsTally(t: Tally, id: CallId, c: Call, reply: Reply)
    ensures var d := DialEffects(id, c, reply);
            Fold(t, d, id) == t.(originated := t.originated + if d == [] then 0 else 1)
  {
    if DialEffects(id, c, reply) != [] {
      var o := OriginateCallee(id, CalleeArgs(id, c), reply.originated);
      var h := Hangups(if reply.originated.Some? then None else c.callerChannelId);
      assert DialEffects(id, c, reply) == [o] + h;
      FoldConcat(t, [o], h, id);
      assert [o][..0] == [];
      HangupsDoNotCount(Fold(t, [o], id), if reply.originated.Some? then None else c.callerChannelId, id);
    }
  }

  /** What telling of the caller and dialling add up to. */
  lemma DialTally(t: Tally, id: CallId, c: Call, reply: Reply)
    ensures var (w, d) := (Webhooks(id, c, CallerConnected), DialEffects(id, c, reply));
            Fold(t, w + d, id) == t.(callerConnected := t.callerConnected + |w|,
                                     originated := t.originated + if d == [] then 0 else 1)
  {
    var w := Webhooks(id, c, CallerConnected);
    FoldConcat(t, w, DialEffects(id, c, reply), id);
    CallerToldTally(t, id, c);
    DialEffectsTally(Fold(t, w, id), id, c, reply);
  }

  lemma DialGood(id: CallId, c: Call, reply: Reply, now: int)
    requires c.calleeChannelId == None && c.endedAt == None
    ensures GoodChange(id, c, DialledCall(c, reply, now), Webhooks(id, c, CallerConnected) + DialEffects(id, c, reply))
  {
    var (w, d) := (Webhooks(id, c, CallerConnected), DialEffects(id, c, reply));
    forall t | AtMostOnce(c, t) ensures AtMostOnce(DialledCall(c, reply, now), Fold(t, w + d, id)) {
      DialTally(t, id, c, reply);
    }
    DialAbout(id, c, reply);
  }

  lemma DialAbout(id: CallId, c: Call, reply: Reply)
    ensures About(Webhooks(id, c, CallerConnected) + DialEffects(id, c, reply), id)
  {
  }

  /** What bridging and telling of the callee add up to. */
  lemma BridgeTally(t: Tally, id: CallId, c: Call, reply: Reply)
    ensures Fold(t, BridgeEffects(id, c, reply), id)
            == t.(bridged := t.bridged + if CanBridge(c) then 1 else 0,
                  calleeConnected := t.calleeConnected
                                     + if CanBridge(c) && reply.bridged.Some? && c.tenantId.Some? then 1 else 0)
  {
    if CanBridge(c) {
      var w := if reply.bridged.Some? then Webhooks(id, c, CalleeConnected) else [];
      var b := BridgeLegs(id, c.callerChannelId.value, c.calleeChannelId.value, reply.bridged);
      assert BridgeEffects(id, c, reply) == [b] + w;
      FoldTwo(t, [b], w, id);
    }
  }

  lemma BridgeGood(id: CallId, c: Call, reply: Reply, now: int)
    requires c.endedAt == None
    ensures GoodChange(id, c, BridgedCall(c, reply, now), BridgeEffects(id, c, reply))
  {
    forall t | AtMostOnce(c, t)
      ensures AtMostOnce(BridgedCall(c, reply, now), Fold(t, BridgeEffects(id, c, reply), id))
    {
      BridgeTally(t, id, c, reply);
    }
  }

  lemma EndTally(t: Tally, id: CallId, c: Call, isCallerLeg: bool, status: Status)
    ensures Fold(t, EndEffects(id, c, isCallerLeg, status), id)
            == t.(ends := t.ends + if c.tenantId == None then 0 else 1)
  {
    var trigger := EndTrigger(isCallerLeg, status);
    var w := Webhooks(id, c, trigger);
    var peer := if c.bridgeId.Some? then None else if isCallerLeg then c.calleeChannelId else c.callerChannelId;
    assert EndEffects(id, c, isCallerLeg, status) == w + Hangups(peer);
    FoldConcat(t, w, Hangups(peer), id);
    HangupsDoNotCount(Fold(t, w, id), peer, id);
    if c.tenantId.Some? { assert w[..0] == [] && trigger.Ends(); }
  }

  lemma EndGood(id: CallId, c: Call, isCallerLeg: bool, status: Status, now: int)
    requires c.endedAt == None
    ensures GoodChange(id, c, EndedCall(c, status, now), EndEffects(id, c, isCallerLeg, status))
  {
    forall t | AtMostOnce(c, t)
      ensures AtMostOnce(EndedCall(c, status, now), Fold(t, EndEffects(id, c, isCallerLeg, status), id))
    {
      EndTally(t, id, c, isCallerLeg, status);
    }
  }

  /** Channel ids, bridge and end time of every call stay once set. */
  ghost predicate SetForGood(before: map<CallId, Call>, after: map<CallId, Call>) {
    forall id :: id in before ==> id in after && KeepsSet(before[id], after[id])
  }

  /** An ended call causes no command and no webhook any more. */
  ghost predicate SilentOnceEnded(s: State, s': State) {
    forall id :: id in s.calls && s.calls[id].endedAt.Some? ==> TallyOf(s'.log, id) == TallyOf(s.log, id)
  }

  /** What one event, and so every run, leaves: the invariant, and the past as it was. */
  ghost predicate Kept(s: State, s': State) {
    Inv(s') && SetForGood(s.calls, s'.calls) && SilentOnceEnded(s, s')
  }

  /** A good change of one call keeps the invariant, and everything else as it is. */
  lemma ChangeKeepsInv(s: State, id: CallId, c': Call, legs: map<Chan, bool>, effects: seq<Effect>)
    requires Inv(s) && id in s.calls && GoodChange(id, s.calls[id], c', effects)
    ensures var s' := Change(s, id, c', legs, effects); Kept(s, s')
  {
    var s' := Change(s, id, c', legs, effects);
    forall other
      ensures TallyOf(s'.log, other)
              == if other == id then Fold(TallyOf(s.log, id), effects, id) else TallyOf(s.log, other)
    {
      FoldConcat(Tally(0, 0, 0, 0, 0), s.log, effects, other);
      if other != id { FoldOthers(TallyOf(s.log, other), effects, id, other); }
    }
    assert AtMostOnce(s.calls[id], TallyOf(s.log, id));
  }

  lemma SameCalls(s: State, legs: map<Chan, bool>)
    requires Inv(s)
    ensures var s' := s.(legs := legs); Kept(s, s')
  {
  }

  lemma StasisStartKeepsInv(s: State, args: seq<string>, channel: Chan, now: int)
    requires Inv(s)
    ensures var s' := HandleStasisStart(s, args, channel, now); Kept(s, s')
  {
    var parsed := ParseArgs(args);
    if parsed.Some? && parsed.value.callId in s.calls {
      var id := parsed.value.callId;
      StartGood(id, s.calls[id], parsed.value.leg, channel, now);
      ChangeKeepsInv(s, id, StartedCall(s.calls[id], parsed.value.leg, channel, now), UpsertLeg(s.legs, channel), []);
    }
  }

  lemma CallerAnswersKeepsInv(s: State, id: CallId, legs: map<Chan, bool>, reply: Reply, now: int)
    requires Inv(s) && id in s.calls && s.calls[id].calleeChannelId == None && s.calls[id].endedAt == None
    ensures var s' := CallerAnswers(s, id, legs, reply, now); Kept(s, s')
  {
    var c := s.calls[id];
    DialGood(id, c, reply, now);
    ChangeKeepsInv(s, id, DialledCall(c, reply, now), CallerAnswers(s, id, legs, reply, now).legs,
                   Webhooks(id, c, CallerConnected) + DialEffects(id, c, reply));
  }

  lemma CalleeAnswersKeepsInv(s: State, id: CallId, legs: map<Chan, bool>, reply: Reply, now: int)
    requires Inv(s) && id in s.calls && s.calls[id].endedAt == None
    ensures var s' := CalleeAnswers(s, id, legs, reply, now); Kept(s, s')
  {
    var c := s.calls[id];
    BridgeGood(id, c, reply, now);
    ChangeKeepsInv(s, id, BridgedCall(c, reply, now), CalleeAnswers(s, id, legs, reply, now).legs,
                   BridgeEffects(id, c, reply));
  }

  lemma StateChangeKeepsInv(s: State, channel: Chan, up: bool, reply: Reply, now: int)
    requires Inv(s)
    ensures var s' := HandleChannelStateChange(s, channel, up, reply, now); Kept(s, s')
  {
    var found := FindCall(s.order, s.calls, channel, true);
    if found.Some? {
      var (id, c, legs) := (found.value, s.calls[found.value], AnsweredLegs(s.legs, channel));
      SameCalls(s, legs);
      if c.calleeChannelId == None { CallerAnswersKeepsInv(s, id, legs, reply, now); }
      CalleeAnswersKeepsInv(s, id, legs, reply, now);
    }
  }

  lemma DestroyedKeepsInv(s: State, channel: Chan, cause: Option<int>, now: int)
    requires Inv(s)
    ensures var s' := HandleChannelDestroyed(s, channel, cause, now); Kept(s, s')
  {
    var found := FindForChannel(s.order, s.calls, channel);
    if found.Some? && s.calls[found.value].endedAt == None {
      var (id, c) := (found.value, s.calls[found.value]);
      var isCallerLeg := c.callerChannelId == Some(channel);
      var status := ResolveCallEndStatus(channel in s.legs && s.legs[channel], c.bridgeId.Some?, cause);
      EndGood(id, c, isCallerLeg, status, now);
      ChangeKeepsInv(s, id, EndedCall(c, status, now), s.legs, EndEffects(id, c, isCallerLeg, status));
    }
  }

  lemma StepKeepsInv(s: State, e: Event)
    requires Inv(s)
    ensures Kept(s, Step(s, e))
  {
    match e
    case CallCreated(_, _) =>
    case StasisStart(args, channel, now) => StasisStartKeepsInv(s, args, channel, now);
    case StateChange(channel, up, reply, now) => StateChangeKeepsInv(s, channel, up, reply, now);
    case Destroyed(channel, cause, now) => DestroyedKeepsInv(s, channel, cause, now);
  }

  lemma {:induction false} RunsKeepInv(s: State, events: seq<Event>)
    requires Inv(s)
    ensures Kept(s, RunAll(s, events))
    decreases |events|
  {
    if events != [] {
      StepKeepsInv(s, events[0]);
      RunsKeepInv(Step(s, events[0]), events[1..]);
    }
  }

  /** Main result: for any sequence of duplicated or reordered events, from any point of the run on. */
  lemma AtMostOnceEach(before: seq<Event>, after: seq<Event>, id: CallId)
    requires id in RunAll(Initial(), before).calls
    ensures var (s, s') := (RunAll(Initial(), before), RunAll(RunAll(Initial(), before), after));
            && id in s'.calls && KeepsSet(s.calls[id], s'.calls[id]) && AtMostOnce(s'.calls[id], TallyOf(s'.log, id))
            && (s.calls[id].endedAt.Some? ==> TallyOf(s'.log, id) == TallyOf(s.log, id))
  {
    RunsKeepInv(Initial(), before);
    RunsKeepInv(RunAll(Initial(), before), after);
  }

  /** Without a destination nothing is dialled, so every repeated answer of the agent tells of the caller again. */
  lemma EmptyDestinationTellsAgain(s: State, id: CallId, channel: Chan, reply: Reply, now: int)
    requires Inv(s) && id in s.calls && id in s.order
    requires forall other :: other in s.calls && other != id ==> !Owns(s.calls[other], channel)
    requires var c := s.calls[id];
             && c.isClick2Call && c.tenantId.Some? && c.endedAt == None && c.callToNumber == ""
             && c.callerChannelId == Some(channel) && c.calleeChannelId == None
    ensures var s' := Step(s, StateChange(channel, true, reply, now));
            && s'.calls == s.calls && TallyOf(s'.log, id).callerConnected == TallyOf(s.log, id).callerConnected + 1
  {
    var told := Webhooks(id, s.calls[id], CallerConnected);
    FindsOnly(s.order, s.calls, channel, id);
    OnlyTells(s, id, channel, reply, now);
    CallerToldTally(TallyOf(s.log, id), id, s.calls[id]);
    FoldConcat(Tally(0, 0, 0, 0, 0), s.log, told, id);
  }

  lemma OnlyTells(s: State, id: CallId, channel: Chan, reply: Reply, now: int)
    requires FindCall(s.order, s.calls, channel, true) == Some(id)
    requires var c := s.calls[id];
             c.callToNumber == "" && c.callerChannelId == Some(channel) && c.calleeChannelId == None
    ensures var s' := HandleChannelStateChange(s, channel, true, reply, now);
            s'.calls == s.calls && s'.log == s.log + Webhooks(id, s.calls[id], CallerConnected)
  {
    var c := s.calls[id];
    assert DialEffects(id, c, reply) == [] && s.calls[id := c] == s.calls;
    assert Webhooks(id, c, CallerConnected) + [] == Webhooks(id, c, CallerConnected);
  }

  // ---------- Callee connected only after caller connected ----------

  /** A leg can start as the callee leg of a call only with the arguments sent when its callee was dialled. */
  ghost predicate Caused(s: State, e: Event) {
    var parsed := if e.StasisStart? then ParseArgs(e.args) else None;
    parsed.Some? && parsed.value.leg == CalleeLeg ==> TallyOf(s.log, parsed.value.callId).originated > 0
  }

  ghost predicate CausalRun(s: State, events: seq<Event>)
    decreases |events|
  {
    events != [] ==> Caused(s, events[0]) && CausalRun(Step(s, events[0]), events[1..])
  }

  /** A call whose callee was dialled has told of its caller; so has one with a callee leg, and only such
      a call tells of its callee. */
  ghost predicate Told(c: Call, t: Tally) {
    && (c.tenantId.Some? && (c.calleeChannelId.Some? || t.originated > 0) ==> t.callerConnected > 0)
    && (t.calleeConnected > 0 ==> c.tenantId.Some? && c.calleeChannelId.Some?)
  }

  ghost predicate ToldInOrder(s: State) {
    forall id :: id in s.calls ==> Told(s.calls[id], TallyOf(s.log, id))
  }

  ghost predicate ToldChange(id: CallId, c: Call, c': Call, effects: seq<Effect>) {
    About(effects, id) && forall t :: Told(c, t) ==> Told(c', Fold(t, effects, id))
  }

  lemma ChangeKeepsTold(s: State, id: CallId, c': Call, legs: map<Chan, bool>, effects: seq<Effect>)
    requires ToldInOrder(s) && id in s.calls && ToldChange(id, s.calls[id], c', effects)
    ensures ToldInOrder(Change(s, id, c', legs, effects))
  {
    var s' := Change(s, id, c', legs, effects);
    forall other
      ensures TallyOf(s'.log, other)
              == if other == id then Fold(TallyOf(s.log, id), effects, id) else TallyOf(s.log, other)
    {
      FoldConcat(Tally(0, 0, 0, 0, 0), s.log, effects, other);
      if other != id { FoldOthers(TallyOf(s.log, other), effects, id, other); }
    }
    assert Told(s.calls[id], TallyOf(s.log, id));
  }

  /** Also for a call that has ended: its callee may answer late, but its caller was told before. */
  lemma StasisStartKeepsTold(s: State, args: seq<string>, channel: Chan, now: int)
    requires ToldInOrder(s) && Caused(s, StasisStart(args, channel, now))
    ensures ToldInOrder(HandleStasisStart(s, args, channel, now))
  {
    var parsed := ParseArgs(args);
    if parsed.Some? && parsed.value.callId in s.calls {
      var id := parsed.value.callId;
      var c' := StartedCall(s.calls[id], parsed.value.leg, channel, now);
      assert Told(c', TallyOf(s.log, id));
      LogUnchanged(s, id, c', UpsertLeg(s.legs, channel));
    }
  }

  lemma LogUnchanged(s: State, id: CallId, c': Call, legs: map<Chan, bool>)
    requires ToldInOrder(s) && id in s.calls && Told(c', TallyOf(s.log, id))
    ensures ToldInOrder(Change(s, id, c', legs, []))
  {
    assert s.log + [] == s.log;
  }

  lemma StateChangeKeepsTold(s: State, channel: Chan, up: bool, reply: Reply, now: int)
    requires ToldInOrder(s)
    ensures ToldInOrder(HandleChannelStateChange(s, channel, up, reply, now))
  {
    var found := FindCall(s.order, s.calls, channel, true);
    if found.Some? {
      var (id, c, legs) := (found.value, s.calls[found.value], AnsweredLegs(s.legs, channel));
      forall t | Told(c, t) && c.calleeChannelId == None
        ensures Told(DialledCall(c, reply, now),
                     Fold(t, Webhooks(id, c, CallerConnected) + DialEffects(id, c, reply), id))
      {
        DialTally(t, id, c, reply);
      }
      forall t | Told(c, t) ensures Told(BridgedCall(c, reply, now), Fold(t, BridgeEffects(id, c, reply), id)) {
        BridgeTally(t, id, c, reply);
      }
      DialAbout(id, c, reply);
      if c.calleeChannelId == None {
        ChangeKeepsTold(s, id, DialledCall(c, reply, now), CallerAnswers(s, id, legs, reply, now).legs,
                        Webhooks(id, c, CallerConnected) + DialEffects(id, c, reply));
      }
      ChangeKeepsTold(s, id, BridgedCall(c, reply, now), CalleeAnswers(s, id, legs, reply, now).legs,
                      BridgeEffects(id, c, reply));
    }
  }

  lemma EndKeepsTold(id: CallId, c: Call, isCallerLeg: bool, status: Status, now: int)
    ensures ToldChange(id, c, EndedCall(c, status, now), EndEffects(id, c, isCallerLeg, status))
  {
    forall t | Told(c, t) ensures Told(EndedCall(c, status, now), Fold(t, EndEffects(id, c, isCallerLeg, status), id)) {
      EndTally(t, id, c, isCallerLeg, status);
    }
  }

  lemma DestroyedKeepsTold(s: State, channel: Chan, cause: Option<int>, now: int)
    requires ToldInOrder(s)
    ensures ToldInOrder(HandleChannelDestroyed(s, channel, cause, now))
  {
    var found := FindForChannel(s.order, s.calls, channel);
    if found.Some? && s.calls[found.value].endedAt == None {
      var (id, c) := (found.value, s.calls[found.value]);
      var isCallerLeg := c.callerChannelId == Some(channel);
      var status := ResolveCallEndStatus(channel in s.legs && s.legs[channel], c.bridgeId.Some?, cause);
      EndKeepsTold(id, c, isCallerLeg, status, now);
      ChangeKeepsTold(s, id, EndedCall(c, status, now), s.legs, EndEffects(id, c, isCallerLeg, status));
    }
  }

  lemma StepKeepsTold(s: State, e: Event)
    requires Inv(s) && ToldInOrder(s) && Caused(s, e)
    ensures ToldInOrder(Step(s, e))
  {
    match e
    case CallCreated(_, _) =>
    case StasisStart(args, channel, now) => StasisStartKeepsTold(s, args, channel, now);
    case StateChange(channel, up, reply, now) => StateChangeKeepsTold(s, channel, up, reply, now);
    case Destroyed(channel, cause, now) => DestroyedKeepsTold(s, channel, cause, now);
  }

  lemma {:induction false} RunsKeepTold(s: State, events: seq<Event>)
    requires Inv(s) && ToldInOrder(s) && CausalRun(s, events)
    ensures Inv(RunAll(s, events)) && ToldInOrder(RunAll(s, events))
    decreases |events|
  {
    if events != [] {
      StepKeepsInv(s, events[0]);
      StepKeepsTold(s, events[0]);
      RunsKeepTold(Step(s, events[0]), events[1..]);
    }
  }

  /** Main result: a callee is told of only after its caller. However events are repeated, lost or
      reordered, after each of them whoever has the one webhook has the other. */
  lemma CalleeToldAfterCaller(events: seq<Event>, id: CallId)
    requires CausalRun(Initial(), events)
    ensures var t := TallyOf(RunAll(Initial(), events).log, id); t.calleeConnected > 0 ==> t.callerConnected > 0
  {
    RunsKeepTold(Initial(), events);
  }

  lemma {:induction false} FindsOnly(order: seq<CallId>, calls: map<CallId, Call>, channel: Chan, id: CallId)
    requires id in order && id in calls && Owns(calls[id], channel) && calls[id].endedAt == None
    requires forall other :: other in calls && other != id ==> !Owns(calls[other], channel)
    ensures FindCall(order, calls, channel, true) == Some(id)
  {
    if order[0] != id { FindsOnly(order[1..], calls, channel, id); }
  }
}
