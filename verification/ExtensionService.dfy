/** The allocator as the service runs it: one call on its own is a run of the interleaved protocol. */
module ExtensionService {
  import opened Prelude
  import opened ExtensionAllocator
  import opened AllocatorRuns

  class Service {
    var clock: int
    var cache: Option<nat>
    var lock: Option<Lock>
    var table: seq<nat>
    ghost var calls: map<CallId, Pc>

    ghost function Snapshot(): State
      reads this
    {
      State(clock, cache, lock, table, calls)
    }

    constructor (table: seq<nat>)
      ensures Snapshot() == Initial(table)
    {
      clock, cache, lock, calls := 0, None, None, map[];
      this.table := table;
    }

    method IncrementKey() returns (n: nat)
      modifies this`cache
      ensures cache == Some(n) && n == (if old(cache).Some? then old(cache).value else 0) + 1
    {
      n := (if cache.Some? then cache.value else 0) + 1;
      cache := Some(n);
    }

    /** SET NX with a time to live. */
    method TryAcquireLock(owner: CallId) returns (acquired: bool)
      modifies this`lock
      ensures acquired <==> old(CurrentLock(Snapshot())) == None
      ensures lock == if acquired then Some(Lock(owner, clock + LOCK_TTL_MS)) else old(lock)
    {
      if lock.Some? && clock < lock.value.expiresAt {
        return false;
      }
      lock := Some(Lock(owner, clock + LOCK_TTL_MS));
      return true;
    }

    /** Compare, then delete. */
    method ReleaseLock(owner: CallId) returns (released: bool)
      modifies this`lock
      ensures released <==> old(CurrentLock(Snapshot())).Some? && old(lock).value.owner == owner
      ensures lock == if released then None else old(lock)
    {
      if lock == None || clock >= lock.value.expiresAt || lock.value.owner != owner {
        return false;
      }
      lock := None;
      return true;
    }

    /** The top-extension key if it is set; else the lock, a second look, and the largest number in the table. */
    method GetNextExtensionId(c: CallId) returns (r: Option<nat>, ghost events: seq<Event>)
      requires c !in calls
      modifies this`cache, this`lock, this`calls
      ensures Snapshot() == RunAll(old(Snapshot()), events) && OnlyBy(c, events)
      ensures calls == old(calls)[c := if r.Some? then CreateRow(r.value) else Failed]
      ensures old(cache).Some? ==> r == cache == Some(old(cache).value + 1) && lock == old(lock)
      ensures old(cache) == None ==>
                if old(CurrentLock(Snapshot())).Some? then r == None && cache == None && lock == old(lock)
                else r == cache == Some(MaxExtensionId(table) + 1) && lock == None
    {
      events := [Start(c), Advance(c, Success), Advance(c, Success)];
      if cache.Some? {
        Increments(Snapshot(), c);
        var next := IncrementKey();
        calls := calls[c := CreateRow(next)];
        return Some(next), events;
      }
      ghost var before := Snapshot();
      var acquired := TryAcquireLock(c);
      if !acquired {
        Refused(before, c);
        calls := calls[c := Failed];
        return None, events;
      }
      GetsLock(before, c);
      calls := calls[c := Recheck(clock)];
      ghost var more;
      r, more := AllocateLocked(c);
      RunAppend(before, events, more);
      events := events + more;
    }

    /** With the lock held, nobody else and nothing failing, the second look finds the key still unset. */
    method AllocateLocked(c: CallId) returns (r: Option<nat>, ghost events: seq<Event>)
      requires c in calls && calls[c] == Recheck(clock) && cache == None && lock == Some(Lock(c, clock + LOCK_TTL_MS))
      modifies this`cache, this`lock, this`calls
      ensures Snapshot() == RunAll(old(Snapshot()), events) && OnlyBy(c, events)
      ensures r == Some(MaxExtensionId(table) + 1) && cache == r && calls == old(calls)[c := CreateRow(r.value)]
      ensures lock == None
    {
      ghost var before := Snapshot();
      var next := MaxExtensionId(table) + 1;
      SetsTheKey(before, c);
      cache := Some(next);
      calls := calls[c := ReleaseGet(clock, Some(next))];
      Releases(Snapshot(), c, next);
      var released := ReleaseLock(c);
      calls := calls[c := CreateRow(next)];
      RunAppend(before, [Advance(c, Success), Advance(c, Success), Advance(c, Success)],
                [Advance(c, Success)] + [Advance(c, Success)]);
      events := [Advance(c, Success), Advance(c, Success), Advance(c, Success)]
                + ([Advance(c, Success)] + [Advance(c, Success)]);
      return Some(next), events;
    }

    /** The row is created under the number the allocator gave. */
    method CreatePoolExtension(c: CallId) returns (r: Option<nat>, ghost events: seq<Event>)
      requires c !in calls
      modifies this`cache, this`lock, this`calls, this`table
      ensures Snapshot() == RunAll(old(Snapshot()), events) && OnlyBy(c, events)
      ensures table == old(table) + if r.Some? then [r.value] else []
    {
      ghost var before := Snapshot();
      r, events := GetNextExtensionId(c);
      if r.Some? {
        RunAppend(before, events, [Advance(c, Success)]);
        RunOne(Snapshot(), Advance(c, Success));
        table := table + [r.value];
        calls := calls[c := Created(r.value)];
        events := events + [Advance(c, Success)];
      }
    }
  }
}
