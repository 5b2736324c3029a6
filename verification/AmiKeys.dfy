/** Which messages are kept, for which call, and what becomes of them. */
module AmiKeys {
  import opened Prelude
  import opened AmiMessage
  import opened AmiAggregation

  // ---------- Messages ----------

  function FirstOf(a: string, b: string): string {
    if a != "" then a else b
  }

  function LinkedIdOf(raw: Fields): string {
    FirstOf(Field(raw, "LinkedID"), Field(raw, "Linkedid"))
  }

  function UniqueIdOf(raw: Fields): string {
    FirstOf(Field(raw, "UniqueID"), Field(raw, "Uniqueid"))
  }

  /** An event of the list that names a call or at least a channel, and no answer to an action. */
  predicate Wanted(raw: Fields) {
    && Field(raw, "Response") == "" && Field(raw, "Event") in CALL_EVENTS
    && (LinkedIdOf(raw) != "" || UniqueIdOf(raw) != "")
  }

  /** The fields as they came, with both ids under their usual names. */
  predicate WithIds(raw: Fields, fields: Fields) {
    && Field(fields, "LinkedID") == LinkedIdOf(raw) && Field(fields, "UniqueID") == UniqueIdOf(raw)
    && fields - {"LinkedID", "UniqueID"} == raw - {"LinkedID", "UniqueID"}
  }

  /** A message that is wanted adds one event, of that message and the time it came, to its call; any other
      changes nothing. */
  lemma MessageIsKeptIff(w: Worker, raw: Fields) returns (fields: Fields)
    ensures WithIds(raw, fields)
    ensures var w' := HandleMessage(w, raw);
            if Wanted(raw) then
              var key := FirstOf(LinkedIdOf(raw), UniqueIdOf(raw));
              && w'.accepted == w.accepted + [(key, AmiEvent(fields, w.now))] && w'.sent == w.sent
              && PendingFor(w'.calls, key) == PendingFor(w.calls, key) + [AmiEvent(fields, w.now)]
              && forall k :: k != key ==> PendingFor(w'.calls, k) == PendingFor(w.calls, k)
            else w' == w
  {
    fields := Normalise(raw);
    assert "" !in CALL_EVENTS;
  }

  // ---------- Calls ----------

  /** Kept for the call it names; for its channel, when it names none. */
  predicate Belongs(key: CallKey, e: AmiEvent) {
    if Field(e.fields, "LinkedID") != "" then key == Field(e.fields, "LinkedID")
    else key == Field(e.fields, "UniqueID") && key != ""
  }

  ghost predicate Filed(accepted: seq<(CallKey, AmiEvent)>) {
    forall a :: a in accepted ==> Belongs(a.0, a.1) && Wanted(a.1.fields)
  }

  lemma OtherFields(raw: Fields, fields: Fields)
    requires WithIds(raw, fields)
    ensures forall n :: n !in {"LinkedID", "UniqueID"} ==> Field(fields, n) == Field(raw, n)
  {
    var ids := {"LinkedID", "UniqueID"};
    forall n | n !in ids ensures Field(fields, n) == Field(raw, n) {
      assert Field(fields, n) == Field(fields - ids, n) && Field(raw, n) == Field(raw - ids, n);
    }
  }

  lemma MessageKeepsFiled(w: Worker, raw: Fields)
    requires Filed(w.accepted)
    ensures Filed(HandleMessage(w, raw).accepted)
  {
    var fields := MessageIsKeptIff(w, raw);
    OtherFields(raw, fields);
  }

  lemma {:induction false} RunsKeepFiled(w: Worker, inputs: seq<Input>)
    requires Filed(w.accepted)
    ensures Filed(RunAll(w, inputs).accepted)
    decreases |inputs|
  {
    if inputs != [] {
      match inputs[0] {
        case Message(raw) => MessageKeepsFiled(w, raw);
        case TimerFires(_) =>
        case Tick(_) =>
      }
      RunsKeepFiled(Step(w, inputs[0]), inputs[1..]);
    }
  }

  /** Main result: in every run, an accepted event is kept for the call its LinkedID names, or, without one, for its
      channel; so the events of one call are all kept together, whichever of its channels they are about. */
  lemma EventsOfACallShareItsKey(now: int, inputs: seq<Input>, i: nat, j: nat)
    requires i < |RunAll(Initial(now), inputs).accepted| && j < |RunAll(Initial(now), inputs).accepted|
    ensures var ((key, e), (key', e')) :=
              (RunAll(Initial(now), inputs).accepted[i], RunAll(Initial(now), inputs).accepted[j]);
            var linkedId := Field(e.fields, "LinkedID");
            && key == (if linkedId != "" then linkedId else Field(e.fields, "UniqueID")) && key != ""
            && (linkedId != "" && Field(e'.fields, "LinkedID") == linkedId ==> key == key')
  {
    RunsKeepFiled(Initial(now), inputs);
    var accepted := RunAll(Initial(now), inputs).accepted;
    assert accepted[i] in accepted && accepted[j] in accepted;
  }

  // ---------- Payloads ----------

  lemma {:induction false} AcceptedForIff(accepted: seq<(CallKey, AmiEvent)>, key: CallKey, e: AmiEvent)
    ensures e in AcceptedFor(accepted, key) <==> (key, e) in accepted
  {
    if accepted != [] {
      var front, last := accepted[..|accepted| - 1], accepted[|accepted| - 1];
      assert accepted == front + [last];
      AcceptedForIff(front, key, e);
    }
  }

  lemma {:induction false} PayloadInSentFor(sent: seq<Sent>, i: nat, e: AmiEvent)
    requires i < |sent| && e in sent[i].payload.events
    ensures e in SentFor(sent, sent[i].callKey)
  {
    if i < |sent| - 1 { PayloadInSentFor(sent[..|sent| - 1], i, e); }
  }

  lemma PayloadAccepted(w: Worker, i: nat, e: AmiEvent)
    requires Conserved(w) && i < |w.sent| && e in w.sent[i].payload.events
    ensures (w.sent[i].callKey, e) in w.accepted
  {
    var key := w.sent[i].callKey;
    PayloadInSentFor(w.sent, i, e);
    assert AcceptedFor(w.accepted, key) == SentFor(w.sent, key) + PendingFor(w.calls, key);
    AcceptedForIff(w.accepted, key, e);
  }

  /** In every run, a payload has the events of one call only: an event that names a call names the one the payload
      is for. The payload names that call too, iff its first event does. */
  lemma PayloadsAreOfOneCall(now: int, inputs: seq<Input>, i: nat)
    requires i < |RunAll(Initial(now), inputs).sent|
    ensures var Sent(key, payload, at) := RunAll(Initial(now), inputs).sent[i];
            && (forall e :: e in payload.events ==> Belongs(key, e) && Wanted(e.fields))
            && (payload.linkedId.Some? ==> payload.linkedId == Some(key))
            && payload.events != []
            && (payload.linkedId.Some? <==> Field(payload.events[0].fields, "LinkedID") != "")
  {
    var w := RunAll(Initial(now), inputs);
    EveryRunKeepsInv(now, inputs);
    RunsKeepFiled(Initial(now), inputs);
    assert SentOk(w.sent[i]);
    var events := w.sent[i].payload.events;
    forall e | e in events ensures Belongs(w.sent[i].callKey, e) && Wanted(e.fields) {
      PayloadAccepted(w, i, e);
    }
    assert events[0] in events;
  }

  // ---------- What a bucket says of its events ----------

  lemma {:induction false} UniqueIdsExact(events: seq<AmiEvent>)
    ensures Distinct(UniqueIdsOf(events))
    ensures forall id :: id in UniqueIdsOf(events)
                         <==> id != "" && exists e :: e in events && Field(e.fields, "UniqueID") == id
  {
    if events != [] {
      var front, last := events[..|events| - 1], events[|events| - 1];
      assert events == front + [last];
      UniqueIdsExact(front);
    }
  }

  lemma {:induction false} LastCdrExact(events: seq<AmiEvent>) returns (i: nat)
    requires HasCdr(events)
    ensures i < |events| && IsCdr(events[i]) && LastCdrAt(events) == events[i].receivedAt
    ensures forall j :: i < j < |events| ==> !IsCdr(events[j])
  {
    i := |events| - 1;
    if !IsCdr(events[i]) {
      var k :| 0 <= k < |events| && IsCdr(events[k]);
      assert events[..i][k] == events[k];
      i := LastCdrExact(events[..i]);
    }
  }

  /** A second after the last Cdr of a call its timer sends every event of the call, and forgets it. */
  lemma QuietCallIsSent(w: Worker, key: CallKey) returns (timer: nat)
    requires Inv(w) && key in w.calls && HasCdr(w.calls[key].events)
    requires w.now >= LastCdrAt(w.calls[key].events) + 1000
    ensures timer in w.timers
    ensures var w', events := Fire(w, timer), w.calls[key].events;
            && key !in w'.calls && |w'.sent| == |w.sent| + 1 && w'.sent[..|w.sent|] == w.sent
            && var Sent(to, payload, at) := w'.sent[|w.sent|];
               && to == key && at == w.now && payload.events == events && payload.uniqueIds == UniqueIdsOf(events)
               && (forall e :: e in payload.cdrs <==> e in events && Field(e.fields, "Event") == "Cdr")
  {
    assert RecordOk(w.calls[key]) && TimerOk(w.calls[key], key, w.timers);
    timer := w.calls[key].finalizeTimer.value;
    CdrsExact(w.calls[key].events);
  }

  lemma {:induction false} CdrsExact(events: seq<AmiEvent>)
    ensures forall e :: e in Cdrs(events) <==> e in events && Field(e.fields, "Event") == "Cdr"
  {
    if events != [] {
      var front, last := events[..|events| - 1], events[|events| - 1];
      assert events == front + [last];
      CdrsExact(front);
    }
  }

  /** The Cdrs keep their order. */
  lemma {:induction false} CdrsConcat(a: seq<AmiEvent>, b: seq<AmiEvent>)
    ensures Cdrs(a + b) == Cdrs(a) + Cdrs(b)
  {
    if b == [] {
      assert a + b == a;
    } else {
      assert (a + b)[..|a + b| - 1] == a + b[..|b| - 1];
      CdrsConcat(a, b[..|b| - 1]);
    }
  }

  /** And no timer sends a call sooner. */
  lemma NotSentSooner(w: Worker, timer: nat)
    requires Inv(w) && Fire(w, timer) != w
    ensures timer in w.timers && w.timers[timer].callKey in w.calls
    ensures var events := w.calls[w.timers[timer].callKey].events;
            HasCdr(events) && w.now >= LastCdrAt(events) + 1000
  {
    var key := w.timers[timer].callKey;
    assert RecordOk(w.calls[key]) && TimerOk(w.calls[key], key, w.timers);
  }
}
