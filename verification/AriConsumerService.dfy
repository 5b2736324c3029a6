/** One process of the election, its methods undisturbed: each is a short run of the protocol's steps. */
module AriConsumerService {
  import opened Prelude
  import L = LeaderElection
  import opened LeaderElection

  class Service {
    const process: Process
    var now: int
    var ttl: nat
    var lease: Option<Lease>
    ghost var sessions: map<LockValue, Session>
    var running: bool
    var isLeader: bool
    var leaderLockValue: Option<LockValue>

    ghost function Snapshot(): L.State
      reads this
    {
      L.State(now, ttl, lease, sessions)
    }

    /** A running leader knows its lock value and has no renewal on its way. Shutdown clears neither field. */
    ghost predicate Valid()
      reads this
    {
      && (isLeader <==> leaderLockValue.Some?)
      && (isLeader && running ==>
            Leads(Snapshot(), leaderLockValue.value) && sessions[leaderLockValue.value].process == process
            && sessions[leaderLockValue.value].pendingSets == 0 && sessions[leaderLockValue.value].failures == 0)
    }

    constructor (process: Process, now: int, ttl: nat)
      ensures Valid() && Snapshot() == L.Initial(now, ttl) && running && !isLeader
    {
      this.process, this.now, this.ttl, lease, sessions := process, now, ttl, None, map[];
      running, isLeader, leaderLockValue := true, false, None;
    }

    method AcquireLock(v: LockValue) returns (acquired: bool)
      modifies this`lease
      ensures acquired <==> old(CurrentLease(Snapshot())) == None
      ensures lease == if acquired then Some(Lease(v, now + ttl)) else old(lease)
    {
      if lease.Some? && now < lease.value.expiresAt {
        return false;
      }
      lease := Some(Lease(v, now + ttl));
      return true;
    }

    method ReleaseLock(v: LockValue) returns (released: bool)
      modifies this`lease
      ensures released <==> old(Held(Snapshot(), v))
      ensures lease == if released then None else old(lease)
    {
      if lease == None || now >= lease.value.expiresAt || lease.value.value != v {
        return false;
      }
      lease := None;
      return true;
    }

    method RenewLock(v: LockValue) returns (renewed: bool)
      modifies this`lease
      ensures renewed <==> old(Held(Snapshot(), v))
      ensures lease == if renewed then Some(Lease(v, now + ttl)) else old(lease)
    {
      if lease == None || now >= lease.value.expiresAt || lease.value.value != v {
        return false;
      }
      lease := Some(Lease(v, now + ttl));
      return true;
    }

    /** One round of the election loop, with the fresh value it would lock with. */
    method LeaderElectionRound(v: LockValue)
      requires Valid() && v !in sessions
      modifies this`lease, this`sessions, this`isLeader, this`leaderLockValue
      ensures Valid()
      ensures Snapshot() == if old(running && !isLeader)
                            then RunAll(old(Snapshot()), [Ask(v, process), SetNx(v), Reply(v)]) else old(Snapshot())
      ensures isLeader <==> old(isLeader) || (running && old(CurrentLease(Snapshot())) == None)
    {
      if !running || isLeader {
        return;
      }
      UnrollThree(Snapshot(), Ask(v, process), SetNx(v), Reply(v));
      sessions := sessions[v := Session(process, Asking, true, 0, 0, now)];
      var acquired := AcquireLock(v);
      if acquired {
        sessions := sessions[v := Session(process, Granted, true, 0, 0, now + ttl)];
        isLeader := true;
        leaderLockValue := Some(v);
        sessions := sessions[v := sessions[v].(phase := if sessions[v].running then Leading else Orphaned)];
      } else {
        sessions := sessions[v := sessions[v].(phase := Over)];
      }
    }

    /** The renewal timer: a leader whose lock is gone steps down before the method returns. */
    method RenewLeaderLock()
      requires Valid() && running
      modifies this`lease, this`sessions, this`isLeader, this`leaderLockValue
      ensures Valid()
      ensures Snapshot() == if old(isLeader) then Renewed(old(Snapshot()), old(leaderLockValue).value)
                            else old(Snapshot())
      ensures isLeader <==> old(isLeader && Held(Snapshot(), leaderLockValue.value))
    {
      if leaderLockValue == None {
        return;
      }
      var v := leaderLockValue.value;
      ghost var before := Snapshot();
      var renewed := RenewLock(v);
      sessions := Step(before, RenewCompare(v)).sessions;
      if renewed {
        sessions := sessions[v := sessions[v].(pendingSets := 0, leaseUntil := now + ttl)];
      } else {
        StepDown(v);
      }
    }

    /** Whatever lock the process leads with is forgotten. */
    method StepDown(v: LockValue)
      requires v in sessions && sessions[v].process == process && sessions[v].failures > 0
      modifies this`sessions, this`isLeader, this`leaderLockValue
      ensures Snapshot() == Step(old(Snapshot()), RenewFailed(v, false))
      ensures !isLeader && leaderLockValue == None
    {
      sessions := Step(Snapshot(), RenewFailed(v, false)).sessions;
      isLeader := false;
      leaderLockValue := None;
    }

    /** Shutdown: nothing runs any more, then the lock is released if it is still this process's. */
    method OnModuleDestroy()
      requires Valid() && running
      modifies this`lease, this`sessions, this`running
      ensures !running && Valid()
      ensures Snapshot() == if isLeader then Stopped(old(Snapshot()), process, leaderLockValue.value)
                            else Step(old(Snapshot()), Destroy(process))
      ensures isLeader ==> !Held(Snapshot(), leaderLockValue.value)
    {
      running := false;
      sessions := DestroyAll(sessions, process);
      if leaderLockValue.Some? {
        var v := leaderLockValue.value;
        Released(Snapshot(), v);
        var released := ReleaseLock(v);
        sessions := sessions[v := sessions[v].(phase := Over)];
      }
    }
  }

  /** A renewal undisturbed: comparison, then SET, or the reply of its failure. */
  ghost function Renewed(s: L.State, v: LockValue): L.State {
    Step(Step(s, RenewCompare(v)), if Held(s, v) then RenewSet(v) else RenewFailed(v, false))
  }

  /** A shutdown undisturbed. */
  ghost function Stopped(s: L.State, process: Process, v: LockValue): L.State {
    Step(Step(Step(s, Destroy(process)), ReleaseCompare(v)), ReleaseDelete(v))
  }

  /** Comparing and deleting with nothing in between. */
  lemma Released(s: L.State, v: LockValue)
    requires v in s.sessions && s.sessions[v].phase == Stopping
    ensures Step(Step(s, ReleaseCompare(v)), ReleaseDelete(v))
            == s.(sessions := s.sessions[v := s.sessions[v].(phase := Over)],
                  lease := if Held(s, v) then None else s.lease)
  {
    var x := s.sessions[v];
    assert s.sessions[v := x.(phase := Deleting)][v := x.(phase := Over)] == s.sessions[v := x.(phase := Over)];
  }
}
