/** AMI events collected per call until a second after the call's last Cdr, then sent as one payload. */
module AmiAggregation {
  import opened Prelude
  import opened AmiMessage

  const CDR_FINALIZE_DELAY := 1000

  const CALL_EVENTS := {
    "Newchannel", "Newstate", "NewConnectedLine", "NewCallerid", "DialBegin", "DialEnd", "DialState",
    "BridgeCreate", "BridgeEnter", "BridgeLeave", "BridgeDestroy", "ChannelTalkingStart", "ChannelTalkingStop",
    "HangupRequest", "SoftHangupRequest", "Hangup", "VarSet", "Cdr"}

  type CallKey = string

  datatype AmiEvent = AmiEvent(fields: Fields, receivedAt: int)

  datatype CallRecord = CallRecord(linkedId: Option<string>, events: seq<AmiEvent>, uniqueIds: seq<string>,
                                   cdrReceived: bool, finalizeTimer: Option<nat>)

  datatype Timer = Timer(callKey: CallKey, dueAt: int)

  datatype Payload = Payload(linkedId: Option<string>, uniqueIds: seq<string>, cdrs: seq<AmiEvent>,
                             events: seq<AmiEvent>)

  datatype Sent = Sent(callKey: CallKey, payload: Payload, at: int)

  /** `accepted` records every event put into a bucket, with its key, in order of arrival. */
  datatype Worker = Worker(now: int, calls: map<CallKey, CallRecord>, timers: map<nat, Timer>, nextTimer: nat,
                           sent: seq<Sent>, accepted: seq<(CallKey, AmiEvent)>)

  // ---------- Events ----------

  /** A field that is missing reads as empty: both are falsy. */
  function Field(fields: Fields, name: string): string {
    if name in fields then fields[name] else ""
  }

  function Alias(fields: Fields, from: string, to: string): Fields {
    if Field(fields, from) != "" && Field(fields, to) == "" then fields[to := fields[from]] else fields
  }

  function Normalise(fields: Fields): Fields {
    Alias(Alias(fields, "Uniqueid", "UniqueID"), "Linkedid", "LinkedID")
  }

  /** The call an event is kept for; other messages are dropped. */
  function KeyOf(fields: Fields): Option<CallKey> {
    if Field(fields, "Response") != "" || Field(fields, "Event") == "" || Field(fields, "Event") !in CALL_EVENTS then
      None
    else if Field(fields, "LinkedID") != "" then Some(Field(fields, "LinkedID"))
    else if Field(fields, "UniqueID") != "" then Some(Field(fields, "UniqueID"))
    else None
  }

  predicate IsCdr(e: AmiEvent) {
    Field(e.fields, "Event") == "Cdr"
  }

  function Present(value: string): Option<string> {
    if value == "" then None else Some(value)
  }

  function AddUnique(ids: seq<string>, id: string): seq<string> {
    if id == "" || id in ids then ids else ids + [id]
  }

  function Cdrs(events: seq<AmiEvent>): seq<AmiEvent> {
    if events == [] then []
    else Cdrs(events[..|events| - 1]) + if IsCdr(events[|events| - 1]) then [events[|events| - 1]] else []
  }

  // ---------- What each handler does ----------

  function NewRecord(fields: Fields): CallRecord {
    CallRecord(Present(Field(fields, "LinkedID")), [], [], false, None)
  }

  function Push(r: CallRecord, e: AmiEvent): CallRecord {
    r.(events := r.events + [e], uniqueIds := AddUnique(r.uniqueIds, Field(e.fields, "UniqueID")),
       cdrReceived := r.cdrReceived || IsCdr(e))
  }

  function Accept(w: Worker, key: CallKey, e: AmiEvent): Worker {
    var r := if key in w.calls then w.calls[key] else NewRecord(e.fields);
    w.(calls := w.calls[key := Push(r, e)], accepted := w.accepted + [(key, e)])
  }

  function Live(timer: Option<nat>): set<nat> {
    if timer.Some? then {timer.value} else {}
  }

  /** Another Cdr restarts the delay. */
  function Schedule(w: Worker, key: CallKey): Worker {
    if key !in w.calls then w
    else
      var r := w.calls[key];
      w.(timers := (w.timers - Live(r.finalizeTimer))[w.nextTimer := Timer(key, w.now + CDR_FINALIZE_DELAY)],
         nextTimer := w.nextTimer + 1,
         calls := w.calls[key := r.(finalizeTimer := Some(w.nextTimer))])
  }

  function HandleMessage(w: Worker, raw: Fields): Worker {
    var fields := Normalise(raw);
    var key := KeyOf(fields);
    if key == None then w
    else
      var w1 := Accept(w, key.value, AmiEvent(fields, w.now));
      if Field(fields, "Event") == "Cdr" then Schedule(w1, key.value) else w1
  }

  function Finalize(w: Worker, key: CallKey): Worker {
    if key !in w.calls then w
    else
      var r := w.calls[key];
      w.(calls := w.calls - {key}, timers := w.timers - Live(r.finalizeTimer),
         sent := w.sent + [Sent(key, Payload(r.linkedId, r.uniqueIds, Cdrs(r.events), r.events), w.now)])
  }

  /** A timer fires no earlier than it is due, and once. */
  function Fire(w: Worker, timer: nat): Worker {
    if timer !in w.timers || w.now < w.timers[timer].dueAt then w
    else Finalize(w.(timers := w.timers - {timer}), w.timers[timer].callKey)
  }

  datatype Input = Message(raw: Fields) | TimerFires(timer: nat) | Tick(ms: nat)

  function Step(w: Worker, i: Input): Worker {
    match i
    case Message(raw) => HandleMessage(w, raw)
    case TimerFires(timer) => Fire(w, timer)
    case Tick(ms) => w.(now := w.now + ms)
  }

  function RunAll(w: Worker, inputs: seq<Input>): Worker
    decreases |inputs|
  {
    if inputs == [] then w else RunAll(Step(w, inputs[0]), inputs[1..])
  }

  function Initial(now: int): Worker {
    Worker(now, map[], map[], 0, [], [])
  }

  // ---------- Invariant ----------

  ghost predicate HasCdr(events: seq<AmiEvent>) {
    exists i :: 0 <= i < |events| && IsCdr(events[i])
  }

  /** When the last Cdr came in. */
  function LastCdrAt(events: seq<AmiEvent>): int {
    if events == [] then 0
    else if IsCdr(events[|events| - 1]) then events[|events| - 1].receivedAt
    else LastCdrAt(events[..|events| - 1])
  }

  function UniqueIdsOf(events: seq<AmiEvent>): seq<string> {
    if events == [] then []
    else AddUnique(UniqueIdsOf(events[..|events| - 1]), Field(events[|events| - 1].fields, "UniqueID"))
  }

  /** A bucket says of its events what its other fields claim. */
  ghost predicate Describes(linkedId: Option<string>, uniqueIds: seq<string>, events: seq<AmiEvent>) {
    events != [] && linkedId == Present(Field(events[0].fields, "LinkedID")) && uniqueIds == UniqueIdsOf(events)
  }

  /** A bucket has a timer iff it holds a Cdr. */
  ghost predicate RecordOk(r: CallRecord) {
    && Describes(r.linkedId, r.uniqueIds, r.events)
    && (r.cdrReceived <==> HasCdr(r.events)) && (r.finalizeTimer.Some? <==> HasCdr(r.events))
  }

  /** The timer is live, and due a second after the last Cdr. */
  ghost predicate TimerOk(r: CallRecord, key: CallKey, timers: map<nat, Timer>) {
    r.finalizeTimer.Some? ==>
      && r.finalizeTimer.value in timers
      && timers[r.finalizeTimer.value] == Timer(key, LastCdrAt(r.events) + CDR_FINALIZE_DELAY)
  }

  ghost predicate Buckets(calls: map<CallKey, CallRecord>, timers: map<nat, Timer>) {
    forall key :: key in calls ==> TimerOk(calls[key], key, timers)
  }

  ghost predicate Records(calls: map<CallKey, CallRecord>) {
    forall key :: key in calls ==> RecordOk(calls[key])
  }

  /** Every live timer is the timer of a bucket. */
  ghost predicate NoLeakedTimers(calls: map<CallKey, CallRecord>, timers: map<nat, Timer>, nextTimer: nat) {
    forall t :: t in timers ==>
      t < nextTimer && timers[t].callKey in calls && calls[timers[t].callKey].finalizeTimer == Some(t)
  }

  /** Buckets and live timers correspond one to one, but for buckets without a Cdr. */
  ghost predicate Timed(w: Worker) {
    Buckets(w.calls, w.timers) && NoLeakedTimers(w.calls, w.timers, w.nextTimer)
  }

  ghost predicate SentOk(s: Sent) {
    && Describes(s.payload.linkedId, s.payload.uniqueIds, s.payload.events)
    && s.payload.cdrs == Cdrs(s.payload.events) && HasCdr(s.payload.events)
    && s.at >= LastCdrAt(s.payload.events) + CDR_FINALIZE_DELAY
  }

  ghost predicate AllSentOk(sent: seq<Sent>) {
    forall i :: 0 <= i < |sent| ==> SentOk(sent[i])
  }

  function AcceptedFor(accepted: seq<(CallKey, AmiEvent)>, key: CallKey): seq<AmiEvent> {
    if accepted == [] then []
    else AcceptedFor(accepted[..|accepted| - 1], key)
         + if accepted[|accepted| - 1].0 == key then [accepted[|accepted| - 1].1] else []
  }

  function SentFor(sent: seq<Sent>, key: CallKey): seq<AmiEvent> {
    if sent == [] then []
    else SentFor(sent[..|sent| - 1], key)
         + if sent[|sent| - 1].callKey == key then sent[|sent| - 1].payload.events else []
  }

  function PendingFor(calls: map<CallKey, CallRecord>, key: CallKey): seq<AmiEvent> {
    if key in calls then calls[key].events else []
  }

  /** Per call: the events sent, then those pending, are the events accepted, in order of arrival. */
  ghost predicate Conserved(w: Worker) {
    forall key :: AcceptedFor(w.accepted, key) == SentFor(w.sent, key) + PendingFor(w.calls, key)
  }

  ghost predicate Inv(w: Worker) {
    Records(w.calls) && Timed(w) && AllSentOk(w.sent) && Conserved(w)
  }

  lemma AcceptedAppend(accepted: seq<(CallKey, AmiEvent)>, key: CallKey, e: AmiEvent, k: CallKey)
    ensures AcceptedFor(accepted + [(key, e)], k) == AcceptedFor(accepted, k) + if key == k then [e] else []
  {
    assert (accepted + [(key, e)])[..|accepted|] == accepted;
  }

  lemma SentAppend(sent: seq<Sent>, s: Sent, k: CallKey)
    ensures SentFor(sent + [s], k) == SentFor(sent, k) + if s.callKey == k then s.payload.events else []
  {
    assert (sent + [s])[..|sent|] == sent;
  }

  lemma PushedEvents(events: seq<AmiEvent>, e: AmiEvent)
    ensures HasCdr(events + [e]) <==> HasCdr(events) || IsCdr(e)
    ensures LastCdrAt(events + [e]) == if IsCdr(e) then e.receivedAt else LastCdrAt(events)
    ensures UniqueIdsOf(events + [e]) == AddUnique(UniqueIdsOf(events), Field(e.fields, "UniqueID"))
  {
    var more := events + [e];
    assert more[..|events|] == events;
    if HasCdr(events) {
      var i :| 0 <= i < |events| && IsCdr(events[i]);
      assert IsCdr(more[i]);
    }
    if IsCdr(e) { assert IsCdr(more[|events|]); }
  }

  lemma AcceptConserves(w: Worker, key: CallKey, e: AmiEvent)
    requires Conserved(w)
    ensures Conserved(Accept(w, key, e))
  {
    var w' := Accept(w, key, e);
    forall k ensures AcceptedFor(w'.accepted, k) == SentFor(w'.sent, k) + PendingFor(w'.calls, k) {
      AcceptedAppend(w.accepted, key, e, k);
      assert SentFor(w.sent, k) + PendingFor(w.calls, k) + [e] == SentFor(w.sent, k) + (PendingFor(w.calls, k) + [e]);
      assert AcceptedFor(w.accepted, k) == SentFor(w.sent, k) + PendingFor(w.calls, k);
    }
  }

  /** The bucket an event goes to, before and after. */
  function BucketFor(w: Worker, key: CallKey, e: AmiEvent): CallRecord {
    if key in w.calls then w.calls[key] else NewRecord(e.fields)
  }

  lemma PushDescribes(w: Worker, key: CallKey, e: AmiEvent)
    requires Records(w.calls)
    ensures var r, r' := BucketFor(w, key, e), Push(BucketFor(w, key, e), e);
            && Describes(r'.linkedId, r'.uniqueIds, r'.events)
            && (r'.cdrReceived <==> HasCdr(r'.events)) && r'.finalizeTimer == r.finalizeTimer
            && (HasCdr(r'.events) <==> r.finalizeTimer.Some? || IsCdr(e))
            && LastCdrAt(r'.events) == if IsCdr(e) then e.receivedAt else LastCdrAt(r.events)
  {
    var r := BucketFor(w, key, e);
    PushedEvents(r.events, e);
    if key in w.calls { assert RecordOk(w.calls[key]); }
  }

  /** A bucket changes and keeps its timer, if it has one. */
  lemma SameTimer(w: Worker, w': Worker, key: CallKey)
    requires Timed(w)
    requires key in w'.calls && w'.calls == w.calls[key := w'.calls[key]]
    requires TimerOk(w'.calls[key], key, w.timers)
    requires w'.timers == w.timers && w'.nextTimer == w.nextTimer
    requires w'.calls[key].finalizeTimer == if key in w.calls then w.calls[key].finalizeTimer else None
    ensures Timed(w')
  {
  }

  /** A bucket changes and gets a new timer for its old one, if it had one. */
  lemma NewTimer(w: Worker, w': Worker, key: CallKey, r: CallRecord, stale: set<nat>)
    requires Timed(w)
    requires r.finalizeTimer == Some(w.nextTimer)
    requires w'.calls == w.calls[key := r] && w'.nextTimer == w.nextTimer + 1
    requires stale == if key in w.calls then Live(w.calls[key].finalizeTimer) else {}
    requires w'.timers == (w.timers - stale)[w.nextTimer := Timer(key, LastCdrAt(r.events) + CDR_FINALIZE_DELAY)]
    ensures Timed(w')
  {
    NewTimerBuckets(w, w'.timers, key, r, stale);
    NewTimerNotLeaked(w, w', key, r, stale);
  }

  lemma NewTimerBuckets(w: Worker, timers': map<nat, Timer>, key: CallKey, r: CallRecord, stale: set<nat>)
    requires Timed(w) && TimerOk(r, key, timers')
    requires stale == if key in w.calls then Live(w.calls[key].finalizeTimer) else {}
    requires forall t :: t in w.timers - stale && t < w.nextTimer ==> t in timers' && timers'[t] == w.timers[t]
    ensures Buckets(w.calls[key := r], timers')
  {
    forall k | k in w.calls && k != key ensures TimerOk(w.calls[k], k, timers') {
      OthersKeepTimers(w, key, stale, k);
    }
  }

  /** Clearing one bucket's timer leaves every other bucket's alone. */
  lemma OthersKeepTimers(w: Worker, key: CallKey, stale: set<nat>, k: CallKey)
    requires Timed(w) && k in w.calls && k != key
    requires stale == if key in w.calls then Live(w.calls[key].finalizeTimer) else {}
    ensures TimerOk(w.calls[k], k, w.timers - stale)
    ensures w.calls[k].finalizeTimer.Some? ==> w.calls[k].finalizeTimer.value < w.nextTimer
  {
    assert TimerOk(w.calls[k], k, w.timers);
    if key in w.calls { assert TimerOk(w.calls[key], key, w.timers); }
  }

  lemma NewTimerNotLeaked(w: Worker, w': Worker, key: CallKey, r: CallRecord, stale: set<nat>)
    requires NoLeakedTimers(w.calls, w.timers, w.nextTimer) && r.finalizeTimer == Some(w.nextTimer)
    requires w'.calls == w.calls[key := r] && w'.nextTimer == w.nextTimer + 1
    requires stale == if key in w.calls then Live(w.calls[key].finalizeTimer) else {}
    requires w'.timers.Keys == (w.timers - stale).Keys + {w.nextTimer} && w'.timers[w.nextTimer].callKey == key
    requires forall t :: t in w.timers && t !in stale ==> w'.timers[t] == w.timers[t]
    ensures NoLeakedTimers(w'.calls, w'.timers, w'.nextTimer)
  {
  }

  lemma AcceptKeepsInv(w: Worker, key: CallKey, e: AmiEvent)
    requires Inv(w) && !IsCdr(e)
    ensures Inv(Accept(w, key, e))
  {
    AcceptKeepsTimers(w, key, e);
    AcceptConserves(w, key, e);
  }

  lemma AcceptKeepsTimers(w: Worker, key: CallKey, e: AmiEvent)
    requires Records(w.calls) && Timed(w) && !IsCdr(e)
    ensures Timed(Accept(w, key, e)) && Records(Accept(w, key, e).calls)
  {
    AcceptedRecordOk(w, key, e);
    SameTimer(w, Accept(w, key, e), key);
  }

  lemma AcceptedRecordOk(w: Worker, key: CallKey, e: AmiEvent)
    requires Records(w.calls) && Timed(w) && !IsCdr(e)
    ensures var w' := Accept(w, key, e);
            && key in w'.calls && w'.calls == w.calls[key := w'.calls[key]]
            && RecordOk(w'.calls[key]) && TimerOk(w'.calls[key], key, w.timers)
            && w'.calls[key].finalizeTimer == if key in w.calls then w.calls[key].finalizeTimer else None
  {
    PushDescribes(w, key, e);
    if key in w.calls { assert TimerOk(w.calls[key], key, w.timers); }
  }

  lemma CdrKeepsTimers(w: Worker, key: CallKey, e: AmiEvent)
    requires Records(w.calls) && Timed(w) && IsCdr(e) && e.receivedAt == w.now
    ensures Timed(Schedule(Accept(w, key, e), key)) && Records(Schedule(Accept(w, key, e), key).calls)
  {
    CdrRecordOk(w, key, e);
    Scheduled(w, key, e);
    Rescheduled(w, Schedule(Accept(w, key, e), key), key,
                Push(BucketFor(w, key, e), e).(finalizeTimer := Some(w.nextTimer)));
  }

  /** A bucket with a new Cdr and a new timer. */
  lemma Rescheduled(w: Worker, w': Worker, key: CallKey, r: CallRecord)
    requires Records(w.calls) && Timed(w) && RecordOk(r)
    requires r.finalizeTimer == Some(w.nextTimer) && LastCdrAt(r.events) == w.now
    requires w'.calls == w.calls[key := r] && w'.nextTimer == w.nextTimer + 1
    requires w'.timers == (w.timers - if key in w.calls then Live(w.calls[key].finalizeTimer) else {})
                          [w.nextTimer := Timer(key, w.now + CDR_FINALIZE_DELAY)]
    ensures Timed(w') && Records(w'.calls)
  {
    NewTimer(w, w', key, r, if key in w.calls then Live(w.calls[key].finalizeTimer) else {});
  }

  lemma CdrRecordOk(w: Worker, key: CallKey, e: AmiEvent)
    requires Records(w.calls) && IsCdr(e)
    ensures var r := Push(BucketFor(w, key, e), e).(finalizeTimer := Some(w.nextTimer));
            RecordOk(r) && LastCdrAt(r.events) == e.receivedAt
  {
    PushDescribes(w, key, e);
  }

  /** What accepting a Cdr and restarting the delay change. */
  lemma Scheduled(w: Worker, key: CallKey, e: AmiEvent)
    ensures var w' := Schedule(Accept(w, key, e), key);
            && w'.calls == w.calls[key := Push(BucketFor(w, key, e), e).(finalizeTimer := Some(w.nextTimer))]
            && w'.timers == (w.timers - if key in w.calls then Live(w.calls[key].finalizeTimer) else {})
                            [w.nextTimer := Timer(key, w.now + CDR_FINALIZE_DELAY)]
            && w'.nextTimer == w.nextTimer + 1
  {
    var r := Push(BucketFor(w, key, e), e);
    PutTwice(w.calls, key, r, r.(finalizeTimer := Some(w.nextTimer)));
  }

  lemma PutTwice<V>(m: map<CallKey, V>, key: CallKey, a: V, b: V)
    ensures m[key := a][key := b] == m[key := b]
  {
  }

  lemma CdrKeepsInv(w: Worker, key: CallKey, e: AmiEvent)
    requires Inv(w) && IsCdr(e) && e.receivedAt == w.now
    ensures Inv(Schedule(Accept(w, key, e), key))
  {
    CdrKeepsTimers(w, key, e);
    AcceptConserves(w, key, e);
    SamePending(Accept(w, key, e), Schedule(Accept(w, key, e), key));
  }

  lemma SamePending(w: Worker, w': Worker)
    requires Conserved(w) && w'.sent == w.sent && w'.accepted == w.accepted
    requires forall k :: PendingFor(w'.calls, k) == PendingFor(w.calls, k)
    ensures Conserved(w')
  {
    forall k ensures AcceptedFor(w'.accepted, k) == SentFor(w'.sent, k) + PendingFor(w'.calls, k) {
      assert AcceptedFor(w.accepted, k) == SentFor(w.sent, k) + PendingFor(w.calls, k);
    }
  }

  lemma MessageKeepsInv(w: Worker, raw: Fields)
    requires Inv(w)
    ensures Inv(HandleMessage(w, raw))
  {
    var fields := Normalise(raw);
    var key, e := KeyOf(fields), AmiEvent(fields, w.now);
    if key.Some? {
      if IsCdr(e) { CdrKeepsInv(w, key.value, e); } else { AcceptKeepsInv(w, key.value, e); }
    }
  }

  lemma FinalizeConserves(w: Worker, w': Worker, key: CallKey)
    requires Conserved(w) && key in w.calls && w'.calls == w.calls - {key} && w'.accepted == w.accepted
    requires |w'.sent| == |w.sent| + 1 && w'.sent == w.sent + [w'.sent[|w.sent|]]
    requires w'.sent[|w.sent|].callKey == key && w'.sent[|w.sent|].payload.events == w.calls[key].events
    ensures Conserved(w')
  {
    forall k ensures AcceptedFor(w'.accepted, k) == SentFor(w'.sent, k) + PendingFor(w'.calls, k) {
      SentAppend(w.sent, w'.sent[|w.sent|], k);
      assert AcceptedFor(w.accepted, k) == SentFor(w.sent, k) + PendingFor(w.calls, k);
      assert PendingFor(w'.calls, k) == if k == key then [] else PendingFor(w.calls, k);
    }
  }

  /** A bucket goes away together with its timer. */
  lemma DropBucket(w: Worker, w': Worker, key: CallKey)
    requires Timed(w) && key in w.calls && w'.nextTimer == w.nextTimer
    requires w'.calls == w.calls - {key} && w'.timers == w.timers - Live(w.calls[key].finalizeTimer)
    ensures Timed(w')
  {
    forall k | k in w'.calls ensures TimerOk(w'.calls[k], k, w'.timers) {
      OthersKeepTimers(w, key, Live(w.calls[key].finalizeTimer), k);
    }
    DropNotLeaked(w, w', key);
  }

  lemma DropNotLeaked(w: Worker, w': Worker, key: CallKey)
    requires NoLeakedTimers(w.calls, w.timers, w.nextTimer) && key in w.calls && w'.nextTimer == w.nextTimer
    requires w'.calls == w.calls - {key} && w'.timers == w.timers - Live(w.calls[key].finalizeTimer)
    ensures NoLeakedTimers(w'.calls, w'.timers, w'.nextTimer)
  {
  }

  lemma FireKeepsInv(w: Worker, timer: nat)
    requires Inv(w)
    ensures Inv(Fire(w, timer))
  {
    if timer in w.timers && w.now >= w.timers[timer].dueAt {
      FireDrops(w, timer);
      DropBucket(w, Fire(w, timer), w.timers[timer].callKey);
      FinalizeConserves(w, Fire(w, timer), w.timers[timer].callKey);
    }
  }

  /** The timer that fires is the timer of its bucket, and its payload is due. */
  lemma FireDrops(w: Worker, timer: nat)
    requires Inv(w) && timer in w.timers && w.now >= w.timers[timer].dueAt
    ensures var key, w' := w.timers[timer].callKey, Fire(w, timer);
            && key in w.calls && w.calls[key].finalizeTimer == Some(timer) && w'.calls == w.calls - {key}
            && w'.timers == w.timers - Live(w.calls[key].finalizeTimer)
            && |w'.sent| == |w.sent| + 1 && w'.sent == w.sent + [w'.sent[|w.sent|]] && SentOk(w'.sent[|w.sent|])
            && w'.sent[|w.sent|].callKey == key && w'.sent[|w.sent|].payload.events == w.calls[key].events
  {
    var key := w.timers[timer].callKey;
    assert RecordOk(w.calls[key]) && TimerOk(w.calls[key], key, w.timers);
  }

  /** Main result: after any interleaving of messages, clock ticks and timers, no accepted event is lost,
      duplicated or reordered within its call; every payload holds a Cdr and is sent a second or more after
      its last one; and the live timers are exactly those of the buckets holding a Cdr. */
  lemma {:induction false} RunsKeepInv(w: Worker, inputs: seq<Input>)
    requires Inv(w)
    ensures Inv(RunAll(w, inputs))
    decreases |inputs|
  {
    if inputs != [] {
      match inputs[0] {
        case Message(raw) => MessageKeepsInv(w, raw);
        case TimerFires(timer) => FireKeepsInv(w, timer);
        case Tick(_) =>
      }
      RunsKeepInv(Step(w, inputs[0]), inputs[1..]);
    }
  }

  /** In particular from the start of the worker on. */
  lemma EveryRunKeepsInv(now: int, inputs: seq<Input>)
    ensures Inv(RunAll(Initial(now), inputs))
  {
    RunsKeepInv(Initial(now), inputs);
  }
}
