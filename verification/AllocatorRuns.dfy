/** Runs of the allocator, and what a call does when nobody disturbs it. */
module AllocatorRuns {
  import opened Prelude
  import opened ExtensionAllocator

  lemma {:induction false} RunAppend(s: State, a: seq<Event>, b: seq<Event>)
    ensures RunAll(s, a + b) == RunAll(RunAll(s, a), b)
    decreases |a|
  {
    if a == [] {
      assert a + b == b;
    } else {
      assert (a + b)[1..] == a[1..] + b;
      RunAppend(Step(s, a[0]), a[1..], b);
    }
  }

  lemma RunOne(s: State, e: Event)
    ensures RunAll(s, [e]) == Step(s, e)
  {
    assert [e][1..] == [];
    assert RunAll(Step(s, e), []) == Step(s, e);
  }

  lemma RunThree(s: State, a: Event, b: Event, c: Event)
    ensures RunAll(s, [a, b, c]) == Step(Step(Step(s, a), b), c)
  {
    assert [a, b, c] == [a] + ([b] + [c]);
    RunAppend(s, [a], [b] + [c]);
    RunAppend(Step(s, a), [b], [c]);
    RunOne(s, a);
    RunOne(Step(s, a), b);
    RunOne(Step(Step(s, a), b), c);
  }

  /** Each event is a command of this call that succeeds. */
  ghost predicate OnlyBy(c: CallId, events: seq<Event>) {
    forall e <- events :: e == Start(c) || e == Advance(c, Success)
  }

  /** With the key set: GET, then INCR. */
  lemma Increments(s: State, c: CallId)
    requires s.cache.Some? && c !in s.calls
    ensures var n := s.cache.value + 1;
            RunAll(s, [Start(c), Advance(c, Success), Advance(c, Success)])
            == s.(cache := Some(n), calls := s.calls[c := CreateRow(n)])
  {
    var n := s.cache.value + 1;
    RunThree(s, Start(c), Advance(c, Success), Advance(c, Success));
    assert s.calls[c := GetKey][c := Increment][c := CreateRow(n)] == s.calls[c := CreateRow(n)];
  }

  /** With the lock taken: GET, then a refused SET NX. */
  lemma Refused(s: State, c: CallId)
    requires s.cache == None && CurrentLock(s).Some? && c !in s.calls
    ensures RunAll(s, [Start(c), Advance(c, Success), Advance(c, Success)]) == Goto(s, c, Failed)
  {
    RunThree(s, Start(c), Advance(c, Success), Advance(c, Success));
    assert s.calls[c := GetKey][c := AcquireLock][c := Failed] == s.calls[c := Failed];
  }

  /** Up to the second look at the key. */
  lemma GetsLock(s: State, w: CallId)
    requires s.cache == None && CurrentLock(s) == None && w !in s.calls
    ensures RunAll(s, [Start(w), Advance(w, Success), Advance(w, Success)])
            == s.(lock := Some(Lock(w, s.clock + LOCK_TTL_MS)), calls := s.calls[w := Recheck(s.clock)])
  {
    RunThree(s, Start(w), Advance(w, Success), Advance(w, Success));
    assert s.calls[w := GetKey][w := AcquireLock][w := Recheck(s.clock)] == s.calls[w := Recheck(s.clock)];
  }

  lemma SetsTheKey(s: State, w: CallId)
    requires s.cache == None && w in s.calls && s.calls[w] == Recheck(s.clock)
    ensures var next := MaxExtensionId(s.table) + 1;
            RunAll(s, [Advance(w, Success), Advance(w, Success), Advance(w, Success)])
            == s.(cache := Some(next), calls := s.calls[w := ReleaseGet(s.clock, Some(next))])
  {
    var next := MaxExtensionId(s.table) + 1;
    RunThree(s, Advance(w, Success), Advance(w, Success), Advance(w, Success));
    assert s.calls[w := ReadMax(s.clock)][w := SetKey(s.clock, next)][w := ReleaseGet(s.clock, Some(next))]
           == s.calls[w := ReleaseGet(s.clock, Some(next))];
  }

  /** Compare, then delete. */
  lemma Releases(s: State, c: CallId, next: nat)
    requires c in s.calls && s.calls[c] == ReleaseGet(s.clock, Some(next))
    requires s.lock == Some(Lock(c, s.clock + LOCK_TTL_MS))
    ensures RunAll(s, [Advance(c, Success)] + [Advance(c, Success)]) == Goto(s.(lock := None), c, CreateRow(next))
  {
    var s1 := Step(s, Advance(c, Success));
    RunAppend(s, [Advance(c, Success)], [Advance(c, Success)]);
    RunOne(s, Advance(c, Success));
    RunOne(s1, Advance(c, Success));
    assert s1 == Goto(s, c, ReleaseDelete(s.clock, Some(next)));
    assert s.calls[c := ReleaseDelete(s.clock, Some(next))][c := CreateRow(next)] == s.calls[c := CreateRow(next)];
  }
}
