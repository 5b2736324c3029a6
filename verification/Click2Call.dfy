/** Click-to-call: an agent leg answers, the callee leg is dialled, both are bridged. What each event
    does to the call table, the legs and the outside world, whatever order events come in. */
module Click2Call {
  import opened Prelude

  type CallId = string
  type Chan = nat
  type Id = string

  datatype Status = Initiated | Ringing | Answered | Completed | Busy | Rejected | NoAnswer | Cancelled | Failed

  datatype Direction = Internal | External

  /** A row of the call table; an empty destination stands for a missing one. */
  datatype Call = Call(isClick2Call: bool, tenantId: Option<Id>, callToNumber: string, direction: Direction,
                       callerChannelId: Option<Chan>, calleeChannelId: Option<Chan>, bridgeId: Option<Id>,
                       status: Status, startedAt: Option<int>, answeredAt: Option<int>, endedAt: Option<int>,
                       duration: Option<int>)

  datatype Trigger = CallerConnected | CalleeConnected | CallerNoAnswer | CalleeNoAnswer
                   | CallerDisconnected | CalleeDisconnected
  {
    predicate Ends() { !CallerConnected? && !CalleeConnected? }
  }

  /** Commands to Asterisk, successful or not, and webhooks enqueued. */
  datatype Effect =
    | OriginateCallee(call: CallId, args: seq<string>, originated: Option<Chan>)
    | BridgeLegs(call: CallId, caller: Chan, callee: Chan, bridge: Option<Id>)
    | HangupChannel(channel: Chan)
    | Webhook(call: CallId, trigger: Trigger)

  /** `order` lists the calls newest first; `legs` says of each known leg whether it was answered. */
  datatype State = State(calls: map<CallId, Call>, order: seq<CallId>, legs: map<Chan, bool>, log: seq<Effect>)

  // ---------- Application arguments ----------

  datatype Leg = AgentLeg | CalleeLeg | OtherLeg

  datatype Args = Args(callId: CallId, toNumber: string, direction: Direction, leg: Leg)

  function ArgAt(args: seq<string>, i: nat): string {
    if i < |args| then args[i] else ""
  }

  /** Six arguments carry the tenant; the older form has five. */
  function ParseArgs(args: seq<string>): Option<Args> {
    if args == [] || args[0] != "click2call" then None
    else
      var offset := if |args| >= 6 then 2 else 1;
      var (callId, toNumber, leg) := (ArgAt(args, offset), ArgAt(args, offset + 1), ArgAt(args, offset + 3));
      if callId == "" || toNumber == "" || leg == "" then None
      else Some(Args(callId, toNumber, if ArgAt(args, offset + 2) == "external" then External else Internal,
                     if leg == "agent" then AgentLeg else if leg == "callee" then CalleeLeg else OtherLeg))
  }

  function CalleeArgs(id: CallId, c: Call): seq<string> {
    ["click2call", if c.tenantId.Some? then c.tenantId.value else "", id, c.callToNumber,
     if c.direction == Internal then "internal" else "external", "callee"]
  }

  /** The callee leg comes back as the leg that was sent out. */
  lemma CalleeArgsRoundTrip(id: CallId, c: Call)
    requires id != "" && c.callToNumber != ""
    ensures ParseArgs(CalleeArgs(id, c)) == Some(Args(id, c.callToNumber, c.direction, CalleeLeg))
  {
  }

  // ---------- Looking calls up ----------

  predicate Owns(c: Call, channel: Chan) {
    c.isClick2Call && (c.callerChannelId == Some(channel) || c.calleeChannelId == Some(channel))
  }

  /** The newest click-to-call call with this channel, un-ended if so asked. */
  function FindCall(order: seq<CallId>, calls: map<CallId, Call>, channel: Chan, activeOnly: bool): (r: Option<CallId>)
    ensures r.Some? ==> r.value in calls && Owns(calls[r.value], channel)
                        && (activeOnly ==> calls[r.value].endedAt == None)
  {
    if order == [] then None
    else if order[0] in calls && Owns(calls[order[0]], channel)
            && (activeOnly ==> calls[order[0]].endedAt == None) then Some(order[0])
    else FindCall(order[1..], calls, channel, activeOnly)
  }

  /** The active call if there is one, else the newest ended one. */
  function FindForChannel(order: seq<CallId>, calls: map<CallId, Call>, channel: Chan): Option<CallId> {
    var active := FindCall(order, calls, channel, true);
    if active.Some? then active else FindCall(order, calls, channel, false)
  }

  // ---------- What each event does to one call: its new row, and what is sent, in order ----------

  function Webhooks(id: CallId, c: Call, trigger: Trigger): seq<Effect> {
    if c.tenantId == None then [] else [Webhook(id, trigger)]
  }

  function Hangups(channel: Option<Chan>): seq<Effect> {
    if channel == None then [] else [HangupChannel(channel.value)]
  }

  /** What the outside world answers: the extension directory, the dialled channel, the new bridge. */
  datatype Reply = Reply(extensionFound: bool, originated: Option<Chan>, bridged: Option<Id>)

  function FailedCall(c: Call, now: int): Call {
    c.(status := Failed, endedAt := Some(now))
  }

  predicate CanDial(c: Call, reply: Reply) {
    c.direction == Internal ==> reply.extensionFound
  }

  function DialledCall(c: Call, reply: Reply, now: int): Call {
    if c.callToNumber == "" || c.calleeChannelId.Some? then c
    else if CanDial(c, reply) && reply.originated.Some? then c.(calleeChannelId := reply.originated, status := Ringing)
    else FailedCall(c, now)
  }

  function DialEffects(id: CallId, c: Call, reply: Reply): seq<Effect> {
    if c.callToNumber == "" || c.calleeChannelId.Some? || !CanDial(c, reply) then []
    else if reply.originated.Some? then [OriginateCallee(id, CalleeArgs(id, c), reply.originated)]
    else [OriginateCallee(id, CalleeArgs(id, c), None)] + Hangups(c.callerChannelId)
  }

  predicate CanBridge(c: Call) {
    c.callerChannelId.Some? && c.calleeChannelId.Some? && c.bridgeId == None
  }

  function BridgedCall(c: Call, reply: Reply, now: int): Call {
    if !CanBridge(c) then c
    else if reply.bridged == None then FailedCall(c, now)
    else c.(bridgeId := reply.bridged, status := Answered, answeredAt := Some(now))
  }

  function BridgeEffects(id: CallId, c: Call, reply: Reply): seq<Effect> {
    if !CanBridge(c) then []
    else
      [BridgeLegs(id, c.callerChannelId.value, c.calleeChannelId.value, reply.bridged)]
      + if reply.bridged == None then [] else Webhooks(id, c, CalleeConnected)
  }

  function ResolveCallEndStatus(legWasAnswered: bool, wasBridged: bool, cause: Option<int>): Status {
    if wasBridged then Completed
    else if cause == Some(17) then Busy
    else if cause == Some(21) then Rejected
    else if !legWasAnswered || cause in {Some(18), Some(19), Some(102)} then NoAnswer
    else Cancelled
  }

  function EndTrigger(isCallerLeg: bool, status: Status): Trigger {
    if status == NoAnswer then (if isCallerLeg then CallerNoAnswer else CalleeNoAnswer)
    else if isCallerLeg then CallerDisconnected else CalleeDisconnected
  }

  function Seconds(from: int, to: int): nat {
    if to < from then 0 else (to - from) / 1000
  }

  function EndedCall(c: Call, status: Status, now: int): Call {
    c.(status := status, endedAt := Some(now),
       duration := if c.startedAt.Some? then Some(Seconds(c.startedAt.value, now)) else c.duration)
  }

  function EndEffects(id: CallId, c: Call, isCallerLeg: bool, status: Status): seq<Effect> {
    Webhooks(id, c, EndTrigger(isCallerLeg, status))
    + if c.bridgeId.Some? then [] else Hangups(if isCallerLeg then c.calleeChannelId else c.callerChannelId)
  }

  /** The row after a leg entered the application. */
  function StartedCall(c: Call, leg: Leg, channel: Chan, now: int): Call {
    match leg
    case AgentLeg =>
      if c.callerChannelId.Some? && c.callerChannelId != Some(channel) then c
      else c.(callerChannelId := Some(channel), status := Ringing,
              startedAt := if c.startedAt == None then Some(now) else c.startedAt)
    case CalleeLeg =>
      if c.calleeChannelId.Some? && c.calleeChannelId != Some(channel) then c
      else c.(calleeChannelId := Some(channel), status := Ringing)
    case OtherLeg => c
  }

  // ---------- What each event does to the whole state ----------

  function Change(s: State, id: CallId, c: Call, legs: map<Chan, bool>, effects: seq<Effect>): State {
    State(s.calls[id := c], s.order, legs, s.log + effects)
  }

  /** A leg row exists from now on; whether it was answered stays. */
  function UpsertLeg(legs: map<Chan, bool>, channel: Chan): map<Chan, bool> {
    if channel in legs then legs else legs[channel := false]
  }

  function HandleStasisStart(s: State, args: seq<string>, channel: Chan, now: int): State {
    var parsed := ParseArgs(args);
    if parsed == None || parsed.value.callId !in s.calls || !s.calls[parsed.value.callId].isClick2Call then s
    else
      var id := parsed.value.callId;
      Change(s, id, StartedCall(s.calls[id], parsed.value.leg, channel, now), UpsertLeg(s.legs, channel), [])
  }

  function AnsweredLegs(legs: map<Chan, bool>, channel: Chan): map<Chan, bool> {
    if channel in legs then legs[channel := true] else legs
  }

  /** The agent answered and no callee leg exists: the caller is told of and the callee dialled. */
  function CallerAnswers(s: State, id: CallId, legs: map<Chan, bool>, reply: Reply, now: int): State
    requires id in s.calls
  {
    var c := s.calls[id];
    var c' := DialledCall(c, reply, now);
    Change(s, id, c', if c'.calleeChannelId.Some? then UpsertLeg(legs, c'.calleeChannelId.value) else legs,
           Webhooks(id, c, CallerConnected) + DialEffects(id, c, reply))
  }

  /** The callee answered: both legs are bridged. */
  function CalleeAnswers(s: State, id: CallId, legs: map<Chan, bool>, reply: Reply, now: int): State
    requires id in s.calls
  {
    var c := s.calls[id];
    Change(s, id, BridgedCall(c, reply, now),
           if CanBridge(c) && reply.bridged.Some?
           then legs[c.callerChannelId.value := true][c.calleeChannelId.value := true] else legs,
           BridgeEffects(id, c, reply))
  }

  function HandleChannelStateChange(s: State, channel: Chan, up: bool, reply: Reply, now: int): State {
    var found := FindCall(s.order, s.calls, channel, true);
    if found == None || !up then s
    else
      var (id, c, legs) := (found.value, s.calls[found.value], AnsweredLegs(s.legs, channel));
      if c.callerChannelId == Some(channel) && c.calleeChannelId == None then CallerAnswers(s, id, legs, reply, now)
      else if c.calleeChannelId == Some(channel) && c.bridgeId == None then CalleeAnswers(s, id, legs, reply, now)
      else s.(legs := legs)
  }

  function HandleChannelDestroyed(s: State, channel: Chan, cause: Option<int>, now: int): State {
    var found := FindForChannel(s.order, s.calls, channel);
    if found == None || s.calls[found.value].endedAt.Some? then s
    else
      var (id, c) := (found.value, s.calls[found.value]);
      var isCallerLeg := c.callerChannelId == Some(channel);
      var status := ResolveCallEndStatus(channel in s.legs && s.legs[channel], c.bridgeId.Some?, cause);
      Change(s, id, EndedCall(c, status, now), s.legs, EndEffects(id, c, isCallerLeg, status))
  }

  datatype Event =
    | CallCreated(id: CallId, call: Call)
    | StasisStart(args: seq<string>, channel: Chan, now: int)
    | StateChange(channel: Chan, up: bool, reply: Reply, now: int)
    | Destroyed(channel: Chan, cause: Option<int>, now: int)

  /** A new call has a new id; nothing has happened to it yet. */
  predicate NewCall(s: State, id: CallId, c: Call) {
    id !in s.calls && c.calleeChannelId == None && c.bridgeId == None && c.endedAt == None
  }

  function Step(s: State, e: Event): State {
    match e
    case CallCreated(id, c) => if NewCall(s, id, c) then s.(calls := s.calls[id := c], order := [id] + s.order) else s
    case StasisStart(args, channel, now) => HandleStasisStart(s, args, channel, now)
    case StateChange(channel, up, reply, now) => HandleChannelStateChange(s, channel, up, reply, now)
    case Destroyed(channel, cause, now) => HandleChannelDestroyed(s, channel, cause, now)
  }

  function RunAll(s: State, events: seq<Event>): State
    decreases |events|
  {
    if events == [] then s else RunAll(Step(s, events[0]), events[1..])
  }

  function Initial(): State {
    State(map[], [], map[], [])
  }
}
