/** The allocator gives out unique numbers exactly as long as no SET of the key goes back. */
module AllocatorExactness {
  import opened Prelude
  import opened ExtensionAllocator
  import opened AllocatorRuns

  // ---------- Runs ----------

  /** No SET of the key takes effect. */
  ghost predicate NoSets(s: State, events: seq<Event>)
    decreases |events|
  {
    events != [] ==> !Sets(s, events[0]) && NoSets(Step(s, events[0]), events[1..])
  }

  lemma {:induction false} NoSetsAppend(s: State, a: seq<Event>, b: seq<Event>)
    requires NoSets(s, a) && NoSets(RunAll(s, a), b)
    ensures NoSets(s, a + b)
    decreases |a|
  {
    if a == [] {
      assert a + b == b;
    } else {
      assert (a + b)[1..] == a[1..] + b;
      NoSetsAppend(Step(s, a[0]), a[1..], b);
    }
  }

  lemma {:induction false} NoSetsIsSafe(s: State, events: seq<Event>)
    requires NoSets(s, events)
    ensures SafeRun(s, events)
    decreases |events|
  {
    if events != [] { NoSetsIsSafe(Step(s, events[0]), events[1..]); }
  }

  // ---------- Counting up ----------

  lemma IncrementSetsNothing(s: State, w: CallId)
    requires s.cache.Some? && w !in s.calls
    ensures NoSets(s, [Start(w), Advance(w, Success), Advance(w, Success)])
  {
    var s1 := Step(s, Start(w));
    var s2 := Step(s1, Advance(w, Success));
    assert s1.calls[w] == GetKey && s2.calls[w] == Increment;
    assert NoSets(Step(s2, Advance(w, Success)), []);
    assert [Advance(w, Success)][1..] == [];
    assert NoSets(s2, [Advance(w, Success)]);
    assert [Advance(w, Success), Advance(w, Success)][1..] == [Advance(w, Success)];
    assert NoSets(s1, [Advance(w, Success), Advance(w, Success)]);
    assert [Start(w), Advance(w, Success), Advance(w, Success)][1..] == [Advance(w, Success), Advance(w, Success)];
  }

  /** New calls count the key up to any number above it. */
  lemma {:induction false} CatchUp(s: State, m: nat) returns (more: seq<Event>, w: CallId)
    requires s.cache.Some? && s.cache.value < m
    ensures NoSets(s, more) && w !in s.calls
    ensures var s' := RunAll(s, more);
            && s'.table == s.table && w in s'.calls && s'.calls[w] == CreateRow(m)
            && forall d :: d in s.calls ==> d in s'.calls && s'.calls[d] == s.calls[d]
    decreases m - s.cache.value
  {
    w := FreshString(s.calls.Keys);
    more := [Start(w), Advance(w, Success), Advance(w, Success)];
    Increments(s, w);
    IncrementSetsNothing(s, w);
    var s1 := RunAll(s, more);
    if s.cache.value + 1 < m {
      var rest, last := CatchUp(s1, m);
      RunAppend(s, more, rest);
      NoSetsAppend(s, more, rest);
      more, w := more + rest, last;
    }
  }

  // ---------- The exact condition ----------

  /** Numbers are unique now, and stay unique while no further SET takes effect. */
  ghost predicate StaysUnique(s: State) {
    forall more {:trigger NoSets(s, more)} :: NoSets(s, more) ==> Unique(RunAll(s, more))
  }

  /** A SET that goes back to a number m given out or stored gives m out again, at once or when the key
      has counted up to it. */
  lemma GoingBack(s: State, e: Event)
    requires Sets(s, e) && !SetsAbove(s, e)
    ensures !StaysUnique(Step(s, e))
  {
    var s', c := Step(s, e), e.call;
    var next: int := s.calls[c].next;
    assert Number(s.calls[c]) == None;
    var bound := if e.reply == Success then next - 1 else next;
    var m: nat :| bound < m && (m in s.table || exists d :: d in s.calls && Number(s.calls[d]) == Some(m));
    if m !in s.table {
      var d :| d in s.calls && Number(s.calls[d]) == Some(m);
      assert d != c && d in s'.calls && Number(s'.calls[d]) == Some(m);
    }
    if m == next {
      Repeated(s', s', c, m);
      assert NoSets(s', []) && RunAll(s', []) == s';
    } else {
      var more, w := CatchUp(s', m);
      Repeated(s', RunAll(s', more), w, m);
    }
  }

  /** Two holders of one number, or a holder of a stored one. */
  lemma Repeated(s: State, s': State, w: CallId, m: nat)
    requires s'.table == s.table && forall d :: d in s.calls ==> d in s'.calls && s'.calls[d] == s.calls[d]
    requires w in s'.calls && Number(s'.calls[w]) == Some(m) && !s'.calls[w].Created?
    requires m in s.table || exists d :: d in s.calls && d != w && Number(s.calls[d]) == Some(m)
    ensures !Unique(s')
  {
    if m !in s.table {
      var d :| d in s.calls && d != w && Number(s.calls[d]) == Some(m);
      assert d in s'.calls && Number(s'.calls[d]) == Some(m);
    }
  }

  ghost predicate AlwaysUnique(s: State, events: seq<Event>)
    decreases |events|
  {
    StaysUnique(s) && (events != [] ==> AlwaysUnique(Step(s, events[0]), events[1..]))
  }

  lemma NumbersStayUnique(s: State)
    requires KeyInv(s) && NumbersInv(s)
    ensures StaysUnique(s)
  {
    forall more | NoSets(s, more) ensures Unique(RunAll(s, more)) {
      NoSetsIsSafe(s, more);
      SafeRunsKeepNumbers(s, more);
    }
  }

  /** One SET that takes effect. */
  lemma SetIff(s: State, e: Event)
    requires KeyInv(s) && NumbersInv(s) && Sets(s, e)
    ensures StaysUnique(Step(s, e)) <==> SetsAbove(s, e)
  {
    if SetsAbove(s, e) {
      KeyKept(s, e);
      NumbersKept(s, e);
      NumbersStayUnique(Step(s, e));
    } else {
      GoingBack(s, e);
    }
  }

  /** Main result: numbers are unique throughout a run, and would stay so if nobody set the key again, iff
      every SET that took effect was above every number given out or stored. */
  lemma {:induction false} UniqueIff(s: State, events: seq<Event>)
    requires KeyInv(s) && NumbersInv(s)
    ensures AlwaysUnique(s, events) <==> SafeRun(s, events)
    decreases |events|
  {
    NumbersStayUnique(s);
    if events != [] {
      var s' := Step(s, events[0]);
      if Sets(s, events[0]) { SetIff(s, events[0]); }
      if Sets(s, events[0]) ==> SetsAbove(s, events[0]) {
        KeyKept(s, events[0]);
        NumbersKept(s, events[0]);
        UniqueIff(s', events[1..]);
      }
    }
  }

  lemma UniqueFromTheStartIff(table: seq<nat>, events: seq<Event>)
    ensures AlwaysUnique(Initial(table), events) <==> SafeRun(Initial(table), events)
  {
    UniqueIff(Initial(table), events);
  }

  // ---------- A holder that stalls ----------

  /** The commands of a call that allocates undisturbed while the key is unset and the lock is free. */
  function Undisturbed(w: CallId): seq<Event> {
    [Start(w), Advance(w, Success), Advance(w, Success)]
    + [Advance(w, Success), Advance(w, Success), Advance(w, Success)]
  }

  /** From any state in which a call is about to set the unset key and its lock has expired, any new call that
      runs undisturbed before it gets the same number. */
  lemma ExpiredHolderDuplicates(s: State, c: CallId, w: CallId)
    requires c in s.calls && s.calls[c].SetKey? && s.calls[c].next == MaxExtensionId(s.table) + 1
    requires s.cache == None && CurrentLock(s) == None && w !in s.calls
    ensures var s' := RunAll(RunAll(s, Undisturbed(w)), [Advance(c, Success)]);
            && c in s'.calls && w in s'.calls && Number(s'.calls[c]) == Some(s.calls[c].next)
            && Number(s'.calls[w]) == Number(s'.calls[c])
  {
    GetsLock(s, w);
    var s1 := RunAll(s, [Start(w), Advance(w, Success), Advance(w, Success)]);
    SetsTheKey(s1, w);
    RunAppend(s, [Start(w), Advance(w, Success), Advance(w, Success)],
              [Advance(w, Success), Advance(w, Success), Advance(w, Success)]);
    RunOne(RunAll(s, Undisturbed(w)), Advance(c, Success));
  }

  /** Any holder that has found the key unset gets there by stalling for 60 seconds after it reads the maximum. */
  lemma StalledHolderDuplicates(s: State, c: CallId, w: CallId)
    requires c in s.calls && s.calls[c].ReadMax? && s.cache == None && w !in s.calls
    requires s.lock.Some? ==> s.lock.value.expiresAt <= s.clock + LOCK_TTL_MS
    ensures var stalled := RunAll(s, [Advance(c, Success), Tick(LOCK_TTL_MS)]);
            var s' := RunAll(RunAll(stalled, Undisturbed(w)), [Advance(c, Success)]);
            c in s'.calls && w in s'.calls && Number(s'.calls[c]).Some? && Number(s'.calls[c]) == Number(s'.calls[w])
  {
    var s1 := Step(s, Advance(c, Success));
    assert [Advance(c, Success), Tick(LOCK_TTL_MS)] == [Advance(c, Success)] + [Tick(LOCK_TTL_MS)];
    RunAppend(s, [Advance(c, Success)], [Tick(LOCK_TTL_MS)]);
    RunOne(s, Advance(c, Success));
    RunOne(s1, Tick(LOCK_TTL_MS));
    ExpiredHolderDuplicates(Step(s1, Tick(LOCK_TTL_MS)), c, w);
  }

  // ---------- A second look that fails ----------

  /** The rest of a call whose second look at the key fails, up to its SET. */
  function Overlooking(c: CallId): seq<Event> {
    [Advance(c, Error), Advance(c, Success), Advance(c, Success)]
  }

  lemma SetsBack(s: State, c: CallId)
    requires c in s.calls && s.calls[c].Recheck?
    ensures var acquired, next := s.calls[c].acquired, MaxExtensionId(s.table) + 1;
            RunAll(s, Overlooking(c))
            == Step(Goto(s, c, SetKey(acquired, next)), Advance(c, Success))
            == s.(cache := Some(next), calls := s.calls[c := ReleaseGet(acquired, Some(next))])
  {
    var acquired, next := s.calls[c].acquired, MaxExtensionId(s.table) + 1;
    RunThree(s, Advance(c, Error), Advance(c, Success), Advance(c, Success));
    assert s.calls[c := ReadMax(acquired)][c := SetKey(acquired, next)] == s.calls[c := SetKey(acquired, next)];
    assert s.calls[c := SetKey(acquired, next)][c := ReleaseGet(acquired, Some(next))]
           == s.calls[c := ReleaseGet(acquired, Some(next))];
  }

  /** Going on to the SET neither gives nor takes a number. */
  lemma StillBounded(s: State, c: CallId, pc: Pc, bound: int)
    requires c in s.calls && Number(s.calls[c]) == None && Number(pc) == None
    ensures Bounded(Goto(s, c, pc), bound) <==> Bounded(s, bound)
  {
    var s' := Goto(s, c, pc);
    forall d | d in s.calls && Number(s.calls[d]).Some? ensures d != c && s'.calls[d] == s.calls[d] {}
  }

  lemma LookKeepsNumbers(s: State, c: CallId) returns (ready: State)
    requires KeyInv(s) && NumbersInv(s) && c in s.calls && s.calls[c].Recheck?
    ensures ready == Goto(s, c, SetKey(s.calls[c].acquired, MaxExtensionId(s.table) + 1))
    ensures KeyInv(ready) && NumbersInv(ready)
  {
    ready := Goto(s, c, SetKey(s.calls[c].acquired, MaxExtensionId(s.table) + 1));
    SameNumbers(s, ready, c);
    assert forall n :: n in s.table ==> n <= MaxExtensionId(s.table);
  }

  lemma ReadyToSet(s: State, c: CallId, ready: State)
    requires c in s.calls && s.calls[c].Recheck?
    requires ready == Goto(s, c, SetKey(s.calls[c].acquired, MaxExtensionId(s.table) + 1))
    ensures var e := Advance(c, Success);
            && Sets(ready, e) && RunAll(s, Overlooking(c)) == Step(ready, e)
            && (SetsAbove(ready, e) <==> Bounded(s, MaxExtensionId(s.table)))
  {
    SetsBack(s, c);
    StillBounded(s, c, ready.calls[c], MaxExtensionId(s.table));
  }

  /** A holder whose second look fails, and that then goes on undisturbed, leaves numbers unique iff every
      number given out so far has reached the table: whoever has not created its row yet shares its number. */
  lemma FailedLookIff(s: State, c: CallId)
    requires KeyInv(s) && NumbersInv(s) && c in s.calls && s.calls[c].Recheck?
    ensures StaysUnique(RunAll(s, Overlooking(c))) <==> Bounded(s, MaxExtensionId(s.table))
  {
    var ready := LookKeepsNumbers(s, c);
    ReadyToSet(s, c, ready);
    SetIff(ready, Advance(c, Success));
  }

  /** From any state with the key set and the lock free: when both looks of a new call fail, it gets the number
      a call already has that is about to create the next row. The clock does not move. */
  lemma FailedLooksDuplicate(s: State, d: CallId, w: CallId)
    requires s.cache.Some? && CurrentLock(s) == None && w !in s.calls
    requires d in s.calls && Number(s.calls[d]) == Some(MaxExtensionId(s.table) + 1)
    ensures var s' := RunAll(s, [Start(w), Advance(w, Error), Advance(w, Success)] + Overlooking(w));
            && d in s'.calls && w in s'.calls && s'.clock == s.clock
            && Number(s'.calls[w]) == Number(s'.calls[d]) == Some(MaxExtensionId(s.table) + 1)
  {
    var first := [Start(w), Advance(w, Error), Advance(w, Success)];
    RunThree(s, Start(w), Advance(w, Error), Advance(w, Success));
    RunAppend(s, first, Overlooking(w));
    SetsBack(RunAll(s, first), w);
  }
}
