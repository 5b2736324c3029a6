/** The click-to-call workflow service: handlers that load a row, change it and save it, with the legs
    and the outgoing commands on the side. */
module Click2CallService {
  import opened Prelude
  import W = Click2Call
  import opened Click2Call
  import opened Click2CallSafety

  class Click2CallWorkflowService {
    var calls: map<CallId, Call>
    var order: seq<CallId>
    var legs: map<Chan, bool>
    var log: seq<Effect>

    ghost function Snapshot(): W.State
      reads this
    {
      W.State(calls, order, legs, log)
    }

    constructor ()
      ensures Snapshot() == Initial() && Inv(Snapshot())
    {
      calls, order, legs, log := map[], [], map[], [];
    }

    /** Every event keeps each command and webhook at most once, and what is set or ended as it is. */
    method HandleEvent(e: Event)
      requires Inv(Snapshot()) && !e.CallCreated?
      modifies this
      ensures Snapshot() == Step(old(Snapshot()), e)
      ensures Kept(old(Snapshot()), Snapshot())
    {
      StepKeepsInv(Snapshot(), e);
      match e {
        case StasisStart(args, channel, now) => HandleStasisStart(args, channel, now);
        case StateChange(channel, up, reply, now) => HandleChannelStateChange(channel, up, reply, now);
        case Destroyed(channel, cause, now) => HandleChannelDestroyed(channel, cause, now);
      }
    }

    method EmitWebhook(id: CallId, call: Call, trigger: Trigger)
      modifies this`log
      ensures log == old(log) + Webhooks(id, call, trigger)
    {
      if call.tenantId == None {
        return;
      }
      log := log + [Webhook(id, trigger)];
    }

    method Hangup(channel: Option<Chan>)
      modifies this`log
      ensures log == old(log) + Hangups(channel)
    {
      if channel.Some? {
        log := log + [HangupChannel(channel.value)];
      }
    }

    method UpsertFromAriChannel(channel: Chan)
      modifies this`legs
      ensures legs == UpsertLeg(old(legs), channel)
    {
      if channel !in legs {
        legs := legs[channel := false];
      }
    }

    method HandleStasisStart(args: seq<string>, channel: Chan, now: int)
      modifies this
      ensures Snapshot() == W.HandleStasisStart(old(Snapshot()), args, channel, now)
    {
      var parsed := ParseArgs(args);
      if parsed == None || parsed.value.callId !in calls || !calls[parsed.value.callId].isClick2Call {
        return;
      }
      var id := parsed.value.callId;
      var call := calls[id];
      UpsertFromAriChannel(channel);
      if parsed.value.leg == AgentLeg && (call.callerChannelId == None || call.callerChannelId == Some(channel)) {
        call := call.(callerChannelId := Some(channel));
        call := call.(status := Ringing);
        if call.startedAt == None {
          call := call.(startedAt := Some(now));
        }
      } else if parsed.value.leg == CalleeLeg
                && (call.calleeChannelId == None || call.calleeChannelId == Some(channel)) {
        call := call.(calleeChannelId := Some(channel));
        call := call.(status := Ringing);
      }
      calls := calls[id := call];
    }

    method HandleChannelStateChange(channel: Chan, up: bool, reply: Reply, now: int)
      modifies this
      ensures Snapshot() == W.HandleChannelStateChange(old(Snapshot()), channel, up, reply, now)
    {
      var found := FindCall(order, calls, channel, true);
      if found == None || !up {
        return;
      }
      var id := found.value;
      var call := calls[id];
      if channel in legs {
        legs := legs[channel := true];
      }
      if call.callerChannelId == Some(channel) && call.calleeChannelId == None {
        EmitWebhook(id, call, CallerConnected);
        OriginateCalleeLeg(id, reply, now);
      } else if call.calleeChannelId == Some(channel) && call.bridgeId == None {
        BridgeClick2CallLegs(id, reply, now);
      }
    }

    method OriginateCalleeLeg(id: CallId, reply: Reply, now: int)
      requires id in calls
      modifies this
      ensures calls == old(calls)[id := DialledCall(old(calls)[id], reply, now)] && order == old(order)
      ensures log == old(log) + DialEffects(id, old(calls)[id], reply)
      ensures var c, c' := old(calls)[id], DialledCall(old(calls)[id], reply, now);
              legs == if c.calleeChannelId == None && c'.calleeChannelId.Some?
                      then UpsertLeg(old(legs), c'.calleeChannelId.value) else old(legs)
    {
      var call := calls[id];
      if call.callToNumber == "" || call.calleeChannelId.Some? {
        assert calls == calls[id := call];
        return;
      }
      if call.direction == Internal && !reply.extensionFound {
        calls := calls[id := FailedCall(call, now)];
        return;
      }
      var args := ["click2call", if call.tenantId.Some? then call.tenantId.value else "", id, call.callToNumber,
                   if call.direction == Internal then "internal" else "external", "callee"];
      log := log + [OriginateCallee(id, args, reply.originated)];
      if reply.originated.Some? {
        call := call.(calleeChannelId := reply.originated, status := Ringing);
        calls := calls[id := call];
        UpsertFromAriChannel(reply.originated.value);
      } else {
        calls := calls[id := FailedCall(call, now)];
        Hangup(call.callerChannelId);
      }
    }

    method BridgeClick2CallLegs(id: CallId, reply: Reply, now: int)
      requires id in calls
      modifies this
      ensures Snapshot() == CalleeAnswers(old(Snapshot()), id, old(legs), reply, now)
    {
      var call := calls[id];
      if call.callerChannelId == None || call.calleeChannelId == None || call.bridgeId.Some? {
        assert calls == calls[id := call];
        return;
      }
      log := log + [BridgeLegs(id, call.callerChannelId.value, call.calleeChannelId.value, reply.bridged)];
      if reply.bridged == None {
        calls := calls[id := FailedCall(call, now)];
        return;
      }
      call := call.(bridgeId := reply.bridged, status := Answered, answeredAt := Some(now));
      calls := calls[id := call];
      legs := legs[call.callerChannelId.value := true];
      legs := legs[call.calleeChannelId.value := true];
      EmitWebhook(id, call, CalleeConnected);
    }

    method HandleChannelDestroyed(channel: Chan, cause: Option<int>, now: int)
      modifies this
      ensures Snapshot() == W.HandleChannelDestroyed(old(Snapshot()), channel, cause, now)
    {
      var found := FindForChannel(order, calls, channel);
      if found == None {
        return;
      }
      var id := found.value;
      var call := calls[id];
      if call.endedAt.Some? {
        return;
      }
      var isCallerLeg := call.callerChannelId == Some(channel);
      var wasBridged := call.bridgeId.Some?;
      var callStatus := ResolveCallEndStatus(channel in legs && legs[channel], wasBridged, cause);
      EmitWebhook(id, call, EndTrigger(isCallerLeg, callStatus));
      if !wasBridged {
        Hangup(if isCallerLeg then call.calleeChannelId else call.callerChannelId);
      }
      call := call.(status := callStatus, endedAt := Some(now));
      if call.startedAt.Some? {
        call := call.(duration := Some(Seconds(call.startedAt.value, now)));
      }
      calls := calls[id := call];
    }
  }
}
