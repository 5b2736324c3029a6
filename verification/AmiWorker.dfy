/** The aggregating half of the AMI worker: a map of open calls and the timers it sets and clears.
    No event is lost, duplicated or reordered, whatever messages and timers come. */
module AmiWorker {
  import opened Prelude
  import opened AmiMessage
  import A = AmiAggregation
  import opened AmiAggregation

  class CdrWorker {
    var now: int
    var calls: map<CallKey, CallRecord>
    var timers: map<nat, Timer>
    var nextTimer: nat
    var sent: seq<Sent>
    ghost var accepted: seq<(CallKey, AmiEvent)>

    ghost function State(): Worker
      reads this
    {
      Worker(now, calls, timers, nextTimer, sent, accepted)
    }

    constructor (now: int)
      ensures State() == A.Initial(now) && Inv(State())
    {
      this.now, calls, timers, nextTimer, sent, accepted := now, map[], map[], 0, [], [];
    }

    method ClearTimeout(timer: Option<nat>)
      modifies this`timers
      ensures timers == old(timers) - Live(timer)
    {
      if timer.Some? {
        timers := timers - {timer.value};
      }
    }

    /** A message as it comes off the stream. */
    method HandleRawMessage(rawMessage: string)
      requires Inv(State())
      modifies this
      ensures State() == A.HandleMessage(old(State()), FieldsOf(SplitLines(rawMessage)))
      ensures Inv(State())
    {
      MessageKeepsInv(State(), FieldsOf(SplitLines(rawMessage)));
      var event := ParseMessage(rawMessage);
      HandleMessage(event);
    }

    method HandleMessage(raw: Fields)
      modifies this
      ensures State() == A.HandleMessage(old(State()), raw)
    {
      var event := Normalise(raw);
      if Field(event, "Response") != "" || Field(event, "Event") == "" || Field(event, "Event") !in CALL_EVENTS {
        return;
      }
      var callKey := if Field(event, "LinkedID") != "" then Field(event, "LinkedID") else Field(event, "UniqueID");
      if callKey == "" {
        return;
      }
      StoreEvent(callKey, AmiEvent(event, now));
      if Field(event, "Event") == "Cdr" {
        ScheduleCallFinalization(callKey);
      }
    }

    method StoreEvent(callKey: CallKey, event: AmiEvent)
      modifies this`calls, this`accepted
      ensures State() == Accept(old(State()), callKey, event)
    {
      if callKey !in calls {
        calls := calls[callKey := NewRecord(event.fields)];
      }
      var call := calls[callKey];
      if Field(event.fields, "UniqueID") != "" {
        call := call.(uniqueIds := AddUnique(call.uniqueIds, Field(event.fields, "UniqueID")));
      }
      call := call.(events := call.events + [event]);
      if IsCdr(event) {
        call := call.(cdrReceived := true);
      }
      calls := calls[callKey := call];
      accepted := accepted + [(callKey, event)];
    }

    method ScheduleCallFinalization(callKey: CallKey)
      modifies this`calls, this`timers, this`nextTimer
      ensures State() == Schedule(old(State()), callKey)
    {
      if callKey !in calls {
        return;
      }
      var call := calls[callKey];
      ClearTimeout(call.finalizeTimer);
      timers := timers[nextTimer := Timer(callKey, now + CDR_FINALIZE_DELAY)];
      calls := calls[callKey := call.(finalizeTimer := Some(nextTimer))];
      nextTimer := nextTimer + 1;
    }

    method FinalizeCall(callKey: CallKey)
      modifies this`calls, this`timers, this`sent
      ensures State() == Finalize(old(State()), callKey)
    {
      if callKey !in calls {
        return;
      }
      var call := calls[callKey];
      calls := calls - {callKey};
      ClearTimeout(call.finalizeTimer);
      var cdrEvents := FilterCdrs(call.events);
      sent := sent + [Sent(callKey, Payload(call.linkedId, call.uniqueIds, cdrEvents, call.events), now)];
    }

    static method FilterCdrs(events: seq<AmiEvent>) returns (cdrs: seq<AmiEvent>)
      ensures cdrs == Cdrs(events)
      ensures forall e :: e in cdrs <==> e in events && IsCdr(e)
    {
      cdrs := [];
      var i := 0;
      while i < |events|
        invariant 0 <= i <= |events| && cdrs == Cdrs(events[..i])
        invariant forall e :: e in cdrs <==> e in events[..i] && IsCdr(e)
      {
        assert events[..i + 1][..i] == events[..i];
        if IsCdr(events[i]) {
          cdrs := cdrs + [events[i]];
        }
        i := i + 1;
      }
      assert events[..i] == events;
    }

    /** The event loop runs a due timer's callback once. */
    method FireTimer(timer: nat)
      requires Inv(State())
      modifies this`calls, this`timers, this`sent
      ensures State() == Fire(old(State()), timer)
      ensures Inv(State())
    {
      FireKeepsInv(State(), timer);
      if timer !in timers || now < timers[timer].dueAt {
        return;
      }
      var callKey := timers[timer].callKey;
      timers := timers - {timer};
      FinalizeCall(callKey);
    }

    /** Time passes between callbacks. */
    method AdvanceClock(ms: nat)
      modifies this`now
      ensures State() == Step(old(State()), Tick(ms))
      ensures old(Inv(State())) ==> Inv(State())
    {
      now := now + ms;
    }
  }
}
