/** The number allocator of the extension pool: any number of processes, each call a sequence of
    single Redis or database commands that interleave freely with everybody else's. */
module ExtensionAllocator {
  import opened Prelude

  type CallId = string

  const LOCK_TTL_MS := 60_000
  const BASE_EXTENSION_ID := 3000

  /** A Redis lock key: its value is unique to the call that set it, and it vanishes when it expires. */
  datatype Lock = Lock(owner: CallId, expiresAt: int)

  /** The command a call sends next. `acquired` is the time at which it got the lock. */
  datatype Pc =
    | GetKey
    | Increment
    | AcquireLock
    | Recheck(acquired: int)
    | LockedIncrement(acquired: int)
    | ReadMax(acquired: int)
    | SetKey(acquired: int, next: nat)
    | ReleaseGet(acquired: int, result: Option<nat>)
    | ReleaseDelete(acquired: int, result: Option<nat>)
    | CreateRow(number: nat)
    | Created(number: nat)
    | Failed

  /** `cache` is the top-extension key, `table` the numbers of all extension rows. */
  datatype State = State(clock: int, cache: Option<nat>, lock: Option<Lock>, table: seq<nat>, calls: map<CallId, Pc>)

  /** A command succeeds, fails before it has an effect, or has its effect while the reply is lost. A GET that
      does not succeed is logged and reads as an unset key. */
  datatype Reply = Success | Error | LostReply

  datatype Event =
    | Start(call: CallId)
    | Advance(call: CallId, reply: Reply)
    | Crash(call: CallId)
    | Tick(ms: nat)

  /** The largest extension number, or the base when there is none. */
  function MaxExtensionId(table: seq<nat>): (r: nat)
    ensures table == [] ==> r == BASE_EXTENSION_ID
    ensures table != [] ==> r in table && forall n :: n in table ==> n <= r
  {
    if table == [] then BASE_EXTENSION_ID
    else if |table| == 1 then table[0]
    else
      var r := MaxExtensionId(table[1..]);
      assert table == [table[0]] + table[1..];
      if table[0] > r then table[0] else r
  }

  function CurrentLock(s: State): Option<Lock> {
    if s.lock.Some? && s.clock < s.lock.value.expiresAt then s.lock else None
  }

  function Goto(s: State, call: CallId, pc: Pc): State {
    s.(calls := s.calls[call := pc])
  }

  /** The end of a call that held the lock. */
  function Finish(result: Option<nat>): Pc {
    if result.Some? then CreateRow(result.value) else Failed
  }

  /** The next command of a call, and what the call does on its reply. */
  function AdvanceCall(s: State, c: CallId, reply: Reply): State
    requires c in s.calls
  {
    var ok := reply == Success;
    var effect := reply != Error;
    match s.calls[c]
    case GetKey =>
      Goto(s, c, if ok && s.cache.Some? then Increment else AcquireLock)
    case Increment =>
      var n := (if s.cache.Some? then s.cache.value else 0) + 1;
      Goto(if effect then s.(cache := Some(n)) else s, c, if ok then CreateRow(n) else Failed)
    case AcquireLock =>
      if CurrentLock(s).Some? then Goto(s, c, Failed)
      else Goto(if effect then s.(lock := Some(Lock(c, s.clock + LOCK_TTL_MS))) else s, c,
                if ok then Recheck(s.clock) else Failed)
    case Recheck(acquired) =>
      Goto(s, c, if ok && s.cache.Some? then LockedIncrement(acquired) else ReadMax(acquired))
    case LockedIncrement(acquired) =>
      var n := (if s.cache.Some? then s.cache.value else 0) + 1;
      Goto(if effect then s.(cache := Some(n)) else s, c, ReleaseGet(acquired, if ok then Some(n) else None))
    case ReadMax(acquired) =>
      Goto(s, c, if ok then SetKey(acquired, MaxExtensionId(s.table) + 1) else ReleaseGet(acquired, None))
    case SetKey(acquired, next) =>
      Goto(if effect then s.(cache := Some(next)) else s, c, ReleaseGet(acquired, if ok then Some(next) else None))
    case ReleaseGet(acquired, result) =>
      var own := CurrentLock(s).Some? && CurrentLock(s).value.owner == c;
      Goto(s, c, if ok && own then ReleaseDelete(acquired, result) else Finish(result))
    case ReleaseDelete(_, result) =>
      Goto(if effect then s.(lock := None) else s, c, if ok then Finish(result) else Failed)
    case CreateRow(n) =>
      Goto(if effect then s.(table := s.table + [n]) else s, c, if ok then Created(n) else Failed)
    case _ => s
  }

  function Step(s: State, e: Event): State {
    match e
    case Start(c) => if c in s.calls then s else Goto(s, c, GetKey)
    case Advance(c, reply) => if c in s.calls then AdvanceCall(s, c, reply) else s
    case Crash(c) => if c in s.calls then Goto(s, c, Failed) else s
    case Tick(ms) => s.(clock := s.clock + ms)
  }

  function RunAll(s: State, events: seq<Event>): State
    decreases |events|
  {
    if events == [] then s else RunAll(Step(s, events[0]), events[1..])
  }

  function Initial(table: seq<nat>): State {
    State(0, None, None, table, map[])
  }

  // ---------- Invariant ----------

  /** From the moment it has the lock until it decides to release it, and while it deletes it. */
  predicate Holds(pc: Pc) {
    pc.Recheck? || pc.LockedIncrement? || pc.ReadMax? || pc.SetKey? || pc.ReleaseDelete?
  }

  /** No call outlives its lock while it relies on it. */
  ghost predicate Timely(s: State) {
    forall c :: c in s.calls && Holds(s.calls[c]) ==> s.clock < s.calls[c].acquired + LOCK_TTL_MS
  }

  ghost predicate TimelyRun(s: State, events: seq<Event>)
    decreases |events|
  {
    Timely(s) && (events != [] ==> TimelyRun(Step(s, events[0]), events[1..]))
  }

  /** The number a call has been given. */
  function Number(pc: Pc): Option<nat> {
    match pc
    case ReleaseGet(_, result) => result
    case ReleaseDelete(_, result) => result
    case CreateRow(n) => Some(n)
    case Created(n) => Some(n)
    case _ => None
  }

  ghost predicate LockInv(s: State) {
    && (forall c :: c in s.calls && Holds(s.calls[c]) ==> s.lock == Some(Lock(c, s.calls[c].acquired + LOCK_TTL_MS)))
    && (forall c :: c in s.calls && s.calls[c].ReleaseGet? && s.lock.Some? && s.lock.value.owner == c ==>
          s.lock == Some(Lock(c, s.calls[c].acquired + LOCK_TTL_MS)))
    && (s.lock.Some? ==> s.lock.value.owner in s.calls)
    && (forall c :: c in s.calls && s.calls[c].AcquireLock? ==> s.lock.Some? ==> s.lock.value.owner != c)
    && (forall c :: c in s.calls && (s.calls[c].GetKey? || s.calls[c].Increment?) ==>
          s.lock.Some? ==> s.lock.value.owner != c)
  }

  /** Until the key is set nobody has a number or counts on the key, and whatever a call would set it to
      is above the table. */
  ghost predicate KeyInv(s: State) {
    s.cache == None ==>
      && (forall c :: c in s.calls ==>
            Number(s.calls[c]) == None && !s.calls[c].Increment? && !s.calls[c].LockedIncrement?)
      && (forall c, n :: c in s.calls && s.calls[c].SetKey? && n in s.table ==> n < s.calls[c].next)
  }

  /** A call that reads the maximum or sets the key finds the key unset. */
  ghost predicate UnsetInv(s: State) {
    forall c :: c in s.calls && (s.calls[c].ReadMax? || s.calls[c].SetKey?) ==> s.cache == None
  }

  /** Every number given out or in the table is at most the bound. */
  ghost predicate Bounded(s: State, bound: int) {
    && (forall n :: n in s.table ==> n <= bound)
    && (forall c :: c in s.calls && Number(s.calls[c]).Some? ==> Number(s.calls[c]).value <= bound)
  }

  ghost predicate DistinctNumbers(s: State) {
    forall c, d :: c in s.calls && d in s.calls && c != d && Number(s.calls[c]).Some? ==>
      Number(s.calls[c]) != Number(s.calls[d])
  }

  /** No two calls have the same number, and none has one in the table before it creates the row. */
  ghost predicate Unique(s: State) {
    && DistinctNumbers(s)
    && (forall c :: c in s.calls && Number(s.calls[c]).Some? && !s.calls[c].Created? ==>
          Number(s.calls[c]).value !in s.table)
  }

  ghost predicate NumbersInv(s: State) {
    Unique(s) && (s.cache.Some? ==> Bounded(s, s.cache.value))
  }

  /** Only acquiring and deleting touch the lock key. */
  lemma LockKept(s: State, e: Event)
    requires LockInv(s) && Timely(s)
    ensures LockInv(Step(s, e))
  {
    if e.Advance? && e.call in s.calls {
      var pc := s.calls[e.call];
      if pc.AcquireLock? {
        AcquireKeepsLock(s, e.call, e.reply);
      } else if pc.ReleaseGet? || pc.ReleaseDelete? {
        ReleaseKeepsLock(s, e.call, e.reply);
      } else {
        OthersKeepLock(s, e.call, e.reply);
      }
    }
  }

  lemma AcquireKeepsLock(s: State, c: CallId, reply: Reply)
    requires LockInv(s) && Timely(s) && c in s.calls && s.calls[c].AcquireLock?
    ensures LockInv(AdvanceCall(s, c, reply))
  {
  }

  lemma ReleaseKeepsLock(s: State, c: CallId, reply: Reply)
    requires LockInv(s) && c in s.calls && (s.calls[c].ReleaseGet? || s.calls[c].ReleaseDelete?)
    ensures LockInv(AdvanceCall(s, c, reply))
  {
  }

  lemma OthersKeepLock(s: State, c: CallId, reply: Reply)
    requires LockInv(s) && c in s.calls
    requires !s.calls[c].AcquireLock? && !s.calls[c].ReleaseGet? && !s.calls[c].ReleaseDelete?
    ensures LockInv(AdvanceCall(s, c, reply))
  {
    var s' := AdvanceCall(s, c, reply);
    var pc, pc' := s.calls[c], s'.calls[c];
    assert Holds(pc') || pc'.ReleaseGet? ==> Holds(pc) && pc'.acquired == pc.acquired;
    assert pc'.AcquireLock? || pc'.GetKey? || pc'.Increment? ==> pc.GetKey?;
    SameLock(s, s', c);
  }

  lemma SameLock(s: State, s': State, c: CallId)
    requires LockInv(s) && c in s.calls && c in s'.calls && s'.calls == s.calls[c := s'.calls[c]] && s'.lock == s.lock
    requires Holds(s'.calls[c]) || s'.calls[c].ReleaseGet? ==>
               Holds(s.calls[c]) && s'.calls[c].acquired == s.calls[c].acquired
    requires s'.calls[c].AcquireLock? || s'.calls[c].GetKey? || s'.calls[c].Increment? ==> s.calls[c].GetKey?
    ensures LockInv(s')
  {
  }

  /** In every run at all: the key is never unset again, and rows need a number. */
  lemma KeyKept(s: State, e: Event)
    requires KeyInv(s)
    ensures KeyInv(Step(s, e))
  {
    if e.Advance? && e.call in s.calls && s.cache == None {
      var s', c := AdvanceCall(s, e.call, e.reply), e.call;
      assert s'.cache == None ==> s'.table == s.table && Number(s'.calls[c]) == None;
      if s.calls[c].ReadMax? { assert forall n :: n in s.table ==> n <= MaxExtensionId(s.table); }
    }
  }

  /** A second look at the key that fails although the key is set. */
  predicate Overlooks(s: State, e: Event) {
    e.Advance? && e.call in s.calls && s.calls[e.call].Recheck? && e.reply != Success && s.cache.Some?
  }

  /** Only the holder of the lock reads the maximum or sets the key. */
  lemma UnsetKept(s: State, e: Event)
    requires LockInv(s) && KeyInv(s) && UnsetInv(s) && !Overlooks(s, e)
    ensures UnsetInv(Step(s, e))
  {
    if e.Advance? && e.call in s.calls {
      var s', c := AdvanceCall(s, e.call, e.reply), e.call;
      if s.calls[c].SetKey? {
        OnlyHolder(s, c);
      } else {
        assert s'.cache == None <==> s.cache == None;
        assert s'.calls[c].ReadMax? || s'.calls[c].SetKey? ==> s.cache == None;
        SameKey(s, s', c);
      }
    }
  }

  lemma OnlyHolder(s: State, c: CallId)
    requires LockInv(s) && c in s.calls && Holds(s.calls[c])
    ensures forall d :: d in s.calls && d != c ==> !Holds(s.calls[d])
  {
  }

  lemma SameKey(s: State, s': State, c: CallId)
    requires UnsetInv(s) && c in s'.calls && s'.calls == s.calls[c := s'.calls[c]]
    requires s'.cache == None <==> s.cache == None
    requires s'.calls[c].ReadMax? || s'.calls[c].SetKey? ==> s.cache == None
    ensures UnsetInv(s')
  {
  }

  // ---------- Numbers ----------

  /** The event is a SET of the key that takes effect. */
  predicate Sets(s: State, e: Event) {
    e.Advance? && e.call in s.calls && s.calls[e.call].SetKey? && e.reply != Error
  }

  /** It sets the key to a number no smaller than any given out or in the table, and larger if the call
      is given it. */
  ghost predicate SetsAbove(s: State, e: Event)
    requires Sets(s, e)
  {
    Bounded(s, if e.reply == Success then s.calls[e.call].next - 1 else s.calls[e.call].next)
  }

  /** Incrementing and setting the key give out its new value; creating a row uses a number up. */
  lemma NumbersKept(s: State, e: Event)
    requires KeyInv(s) && NumbersInv(s) && (Sets(s, e) ==> SetsAbove(s, e))
    ensures NumbersInv(Step(s, e))
  {
    if e.Advance? && e.call in s.calls {
      var pc := s.calls[e.call];
      if pc.SetKey? {
        SetKeepsNumbers(s, e.call, e.reply);
      } else if pc.Increment? || pc.LockedIncrement? {
        IncrementKeepsNumbers(s, e.call, e.reply);
      } else if pc.CreateRow? {
        CreateKeepsNumbers(s, e.call, e.reply);
      } else {
        OthersKeepNumbers(s, e.call, e.reply);
      }
    }
  }

  lemma SetKeepsNumbers(s: State, c: CallId, reply: Reply)
    requires NumbersInv(s) && c in s.calls && s.calls[c].SetKey?
    requires reply != Error ==> SetsAbove(s, Advance(c, reply))
    ensures NumbersInv(AdvanceCall(s, c, reply))
  {
    var s' := AdvanceCall(s, c, reply);
    if reply == Error { SameNumbers(s, s', c); } else { NewNumber(s, s', c, s.calls[c].next); }
  }

  lemma IncrementKeepsNumbers(s: State, c: CallId, reply: Reply)
    requires KeyInv(s) && NumbersInv(s) && c in s.calls && (s.calls[c].Increment? || s.calls[c].LockedIncrement?)
    ensures NumbersInv(AdvanceCall(s, c, reply))
  {
    var s' := AdvanceCall(s, c, reply);
    if reply == Error { SameNumbers(s, s', c); } else { NewNumber(s, s', c, s.cache.value + 1); }
  }

  /** The key moves to a value, and at most this call is given it. */
  lemma NewNumber(s: State, s': State, c: CallId, next: nat)
    requires Unique(s) && c in s.calls && c in s'.calls && s'.calls == s.calls[c := s'.calls[c]]
    requires s'.table == s.table && s'.cache == Some(next) && Bounded(s, next)
    requires Number(s'.calls[c]) == None
             || (Number(s'.calls[c]) == Some(next) && !s'.calls[c].Created? && Bounded(s, next - 1))
    ensures NumbersInv(s')
  {
  }

  lemma CreateKeepsNumbers(s: State, c: CallId, reply: Reply)
    requires NumbersInv(s) && c in s.calls && s.calls[c].CreateRow?
    ensures NumbersInv(AdvanceCall(s, c, reply))
  {
  }

  lemma OthersKeepNumbers(s: State, c: CallId, reply: Reply)
    requires NumbersInv(s) && c in s.calls && !s.calls[c].CreateRow?
    requires !s.calls[c].Increment? && !s.calls[c].LockedIncrement? && !s.calls[c].SetKey?
    ensures NumbersInv(AdvanceCall(s, c, reply))
  {
    OthersIssueNothing(s, c, reply);
    SameNumbers(s, AdvanceCall(s, c, reply), c);
  }

  lemma OthersIssueNothing(s: State, c: CallId, reply: Reply)
    requires c in s.calls && !s.calls[c].CreateRow?
    requires !s.calls[c].Increment? && !s.calls[c].LockedIncrement? && !s.calls[c].SetKey?
    ensures var s' := AdvanceCall(s, c, reply);
            && s'.cache == s.cache && s'.table == s.table
            && c in s'.calls && s'.calls == s.calls[c := s'.calls[c]]
            && (Number(s'.calls[c]) == None
                || (Number(s'.calls[c]) == Number(s.calls[c]) && (s'.calls[c].Created? <==> s.calls[c].Created?)))
  {
  }

  lemma SameNumbers(s: State, s': State, c: CallId)
    requires NumbersInv(s) && c in s.calls && c in s'.calls && s'.calls == s.calls[c := s'.calls[c]]
    requires s'.cache == s.cache && s'.table == s.table
    requires Number(s'.calls[c]) == None
             || (Number(s'.calls[c]) == Number(s.calls[c]) && (s'.calls[c].Created? <==> s.calls[c].Created?))
    ensures NumbersInv(s')
  {
  }

  // ---------- Runs ----------

  /** Every SET that takes effect is above the numbers there are. */
  ghost predicate SafeRun(s: State, events: seq<Event>)
    decreases |events|
  {
    events != [] ==> (Sets(s, events[0]) ==> SetsAbove(s, events[0])) && SafeRun(Step(s, events[0]), events[1..])
  }

  /** No SET takes effect while the key is already set. */
  ghost predicate SetOnce(s: State, events: seq<Event>)
    decreases |events|
  {
    events != [] ==> (Sets(s, events[0]) ==> s.cache == None) && SetOnce(Step(s, events[0]), events[1..])
  }

  /** No second look at the key fails while the key is set. */
  ghost predicate SeeingRun(s: State, events: seq<Event>)
    decreases |events|
  {
    events != [] ==> !Overlooks(s, events[0]) && SeeingRun(Step(s, events[0]), events[1..])
  }

  /** Crashes, failing commands, lost replies, expired locks: numbers stay unique as long as no SET goes back. */
  lemma {:induction false} SafeRunsKeepNumbers(s: State, events: seq<Event>)
    requires KeyInv(s) && NumbersInv(s) && SafeRun(s, events)
    ensures KeyInv(RunAll(s, events)) && NumbersInv(RunAll(s, events))
    decreases |events|
  {
    if events != [] {
      KeyKept(s, events[0]);
      NumbersKept(s, events[0]);
      SafeRunsKeepNumbers(Step(s, events[0]), events[1..]);
    }
  }

  /** The first SET is above the table, because a row needs a number and a number needs the key. */
  lemma {:induction false} SetOnceIsSafe(s: State, events: seq<Event>)
    requires KeyInv(s) && SetOnce(s, events)
    ensures SafeRun(s, events)
    decreases |events|
  {
    if events != [] {
      KeyKept(s, events[0]);
      SetOnceIsSafe(Step(s, events[0]), events[1..]);
    }
  }

  /** As long as no holder outlives its lock or overlooks the key, only one SET takes effect. */
  lemma {:induction false} TimelySetsOnce(s: State, events: seq<Event>)
    requires LockInv(s) && KeyInv(s) && UnsetInv(s) && TimelyRun(s, events) && SeeingRun(s, events)
    ensures SetOnce(s, events)
    ensures LockInv(RunAll(s, events)) && UnsetInv(RunAll(s, events))
    decreases |events|
  {
    if events != [] {
      LockKept(s, events[0]);
      KeyKept(s, events[0]);
      UnsetKept(s, events[0]);
      TimelySetsOnce(Step(s, events[0]), events[1..]);
    }
  }

  /** Main result: no two calls get the same number, and none gets one that is already in the table, in
      every run in which no SET takes effect while the key is set. */
  lemma NumbersAreUnique(table: seq<nat>, events: seq<Event>)
    requires SetOnce(Initial(table), events)
    ensures Unique(RunAll(Initial(table), events))
  {
    SetOnceIsSafe(Initial(table), events);
    SafeRunsKeepNumbers(Initial(table), events);
  }

  /** In particular when every holder is done with its lock in time and none overlooks the key. */
  lemma TimelyNumbersAreUnique(table: seq<nat>, events: seq<Event>)
    requires TimelyRun(Initial(table), events) && SeeingRun(Initial(table), events)
    ensures SetOnce(Initial(table), events) && Unique(RunAll(Initial(table), events))
  {
    TimelySetsOnce(Initial(table), events);
    NumbersAreUnique(table, events);
  }
}
