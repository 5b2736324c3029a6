/** Leader election over a Redis lease: every command of every process is its own step, so replies,
    renewals and releases may interleave with anything. Commands fail, replies get lost, processes crash. */
module LeaderElection {
  import opened Prelude

  /** The random lock value of one `acquireLock` call; it names the attempt and, if granted, the
      leadership that follows. */
  type LockValue = string
  type Process = string

  /** The lease in Redis. */
  datatype Lease = Lease(value: LockValue, expiresAt: int)

  datatype Phase =
    | Asking    // the SET NX is on its way
    | Granted   // it has set the key; the reply is on its way
    | Leading   // a running process is leader
    | Orphaned  // the reply came after the process was destroyed: it renews, but is not running
    | Stopping  // destroyed while leading; the release has not compared yet
    | Deleting  // the release has compared; its DEL is on its way
    | Over      // denied, stepped down or released

  /** `pendingSets` counts renewals that passed their comparison and whose SET is on its way,
      `failures` those that did not, or whose GET failed, and whose reply is on its way; `leaseUntil` is the
      expiry time of the attempt's last SET. */
  datatype Session = Session(process: Process, phase: Phase, running: bool, pendingSets: nat, failures: nat,
                             leaseUntil: int)

  type Sessions = map<LockValue, Session>

  datatype State = State(now: int, ttl: nat, lease: Option<Lease>, sessions: Sessions)

  datatype Event =
    | Ask(v: LockValue, asking: Process)
    | SetNx(v: LockValue)
    | Reply(v: LockValue)
    | RenewCompare(v: LockValue)
    | RenewSet(v: LockValue)
    | RenewFailed(v: LockValue, cancels: bool)
    | Destroy(process: Process)
    | ReleaseCompare(v: LockValue)
    | ReleaseDelete(v: LockValue)
    | CommandFails(v: LockValue)
    | RenewUnseen(v: LockValue)
    | RenewDropped(v: LockValue)
    | Crash(process: Process)
    | Tick(ms: nat)

  function CurrentLease(s: State): Option<Lease> {
    if s.lease.Some? && s.now < s.lease.value.expiresAt then s.lease else None
  }

  predicate Held(s: State, v: LockValue) {
    CurrentLease(s).Some? && CurrentLease(s).value.value == v
  }

  function Put(s: State, v: LockValue, x: Session): State {
    s.(sessions := s.sessions[v := x])
  }

  /** SET with the lease's time to live. */
  function Write(s: State, v: LockValue, x: Session): State {
    Put(s, v, x.(leaseUntil := s.now + s.ttl)).(lease := Some(Lease(v, s.now + s.ttl)))
  }

  /** The process forgets its leadership, whichever lock it is for; a release it has begun goes on, one it
      has not is cancelled. */
  function SteppedDown(x: Session, process: Process, cancels: bool): Session {
    if x.process == process && (x.phase in {Leading, Orphaned} || (cancels && x.phase == Stopping))
    then x.(phase := Over) else x
  }

  function Destroyed(x: Session, process: Process): Session {
    if x.process == process then x.(running := false, phase := if x.phase == Leading then Stopping else x.phase)
    else x
  }

  /** What a dead process has sent may still arrive. */
  function Crashed(x: Session, process: Process): Session {
    if x.process == process
    then x.(running := false, phase := if x.phase in {Asking, Deleting} then x.phase else Over) else x
  }

  function StepDownAll(sessions: Sessions, process: Process, cancels: bool): Sessions {
    map v | v in sessions :: SteppedDown(sessions[v], process, cancels)
  }

  function DestroyAll(sessions: Sessions, process: Process): Sessions {
    map v | v in sessions :: Destroyed(sessions[v], process)
  }

  function CrashAll(sessions: Sessions, process: Process): Sessions {
    map v | v in sessions :: Crashed(sessions[v], process)
  }

  /** One step of the attempt called v; steps it is not ready for change nothing. A renewal may compare
      late, in any phase after the grant; the reply of one that found another value, or none, steps the
      process down. A GET that fails is logged and reads as no value; a SET or DEL that fails ends what it
      was sent for, a renewal's SET without anybody stepping down. */
  function SessionStep(s: State, v: LockValue, e: Event): State
    requires v in s.sessions
  {
    var x := s.sessions[v];
    match e
    case SetNx(_) =>
      if x.phase != Asking then s
      else if CurrentLease(s).Some? then Put(s, v, x.(phase := Over))
      else Write(s, v, x.(phase := Granted))
    case Reply(_) =>
      if x.phase == Granted then Put(s, v, x.(phase := if x.running then Leading else Orphaned)) else s
    case RenewCompare(_) =>
      if x.phase in {Asking, Granted} then s
      else if Held(s, v) then Put(s, v, x.(pendingSets := x.pendingSets + 1))
      else Put(s, v, x.(failures := x.failures + 1))
    case RenewSet(_) =>
      if x.pendingSets == 0 then s else Write(s, v, x.(pendingSets := x.pendingSets - 1))
    case RenewFailed(_, cancels) =>
      if x.failures == 0 then s
      else s.(sessions := StepDownAll(s.sessions[v := x.(failures := x.failures - 1)], x.process, cancels))
    case ReleaseCompare(_) =>
      if x.phase == Stopping then Put(s, v, x.(phase := if Held(s, v) then Deleting else Over)) else s
    case ReleaseDelete(_) =>
      if x.phase == Deleting then Put(s, v, x.(phase := Over)).(lease := None) else s
    case CommandFails(_) =>
      if x.phase in {Asking, Granted, Stopping, Deleting} then Put(s, v, x.(phase := Over)) else s
    case RenewUnseen(_) =>
      if x.phase in {Asking, Granted} then s else Put(s, v, x.(failures := x.failures + 1))
    case RenewDropped(_) =>
      if x.pendingSets == 0 then s else Put(s, v, x.(pendingSets := x.pendingSets - 1))
    case _ => s
  }

  function Step(s: State, e: Event): State {
    match e
    case Tick(ms) => s.(now := s.now + ms)
    case Ask(v, process) => if v in s.sessions then s else Put(s, v, Session(process, Asking, true, 0, 0, s.now))
    case Destroy(process) => s.(sessions := DestroyAll(s.sessions, process))
    case Crash(process) => s.(sessions := CrashAll(s.sessions, process))
    case _ => if e.v in s.sessions then SessionStep(s, e.v, e) else s
  }

  function RunAll(s: State, events: seq<Event>): State
    decreases |events|
  {
    if events == [] then s else RunAll(Step(s, events[0]), events[1..])
  }

  function Initial(now: int, ttl: nat): State {
    State(now, ttl, None, map[])
  }

  // ---------- The assumption: whoever relies on its lease acts before it expires ----------

  /** Leaders, pending grants, renewals and deletions rely on the lease. */
  predicate Relies(x: Session) {
    x.phase !in {Asking, Over} && (x.phase in {Orphaned, Stopping} ==> x.pendingSets > 0)
  }

  ghost predicate Timely(s: State) {
    forall v :: v in s.sessions && Relies(s.sessions[v]) ==> s.now < s.sessions[v].leaseUntil
  }

  ghost predicate TimelyRun(s: State, events: seq<Event>)
    decreases |events|
  {
    Timely(s) && (events != [] ==> TimelyRun(Step(s, events[0]), events[1..]))
  }

  // ---------- At most one leader ----------

  /** The key still holds the value of an attempt that is not over. */
  ghost predicate Holder(s: State, v: LockValue)
    requires v in s.sessions
  {
    s.sessions[v].phase !in {Asking, Over} && Held(s, v)
  }

  ghost predicate Claims(s: State, v: LockValue) {
    v in s.sessions && (Relies(s.sessions[v]) || Holder(s, v))
  }

  /** The key is occupied at least as long as anybody relies on it, though perhaps by another value. */
  ghost predicate Protected(s: State) {
    && (forall v :: v in s.sessions && Relies(s.sessions[v]) ==>
          s.lease.Some? && s.lease.value.expiresAt >= s.sessions[v].leaseUntil)
    && (forall v :: v in s.sessions ==> s.sessions[v].leaseUntil <= s.now + s.ttl)
    && (s.lease.Some? && s.lease.value.value in s.sessions ==>
          s.lease.value.expiresAt == s.sessions[s.lease.value.value].leaseUntil)
    && (s.lease.Some? ==> s.lease.value.value in s.sessions)
    && (forall v :: v in s.sessions && s.sessions[v].phase in {Asking, Granted} ==> s.sessions[v].pendingSets == 0)
  }

  ghost predicate OneClaim(s: State) {
    forall v, w :: Claims(s, v) && Claims(s, w) ==> v == w
  }

  ghost predicate Inv(s: State) {
    Protected(s) && OneClaim(s)
  }

  /** A grant needs a free key: nobody relied on it. */
  lemma SetNxKeepsInv(s: State, v: LockValue)
    requires Inv(s) && Timely(s) && v in s.sessions
    ensures Inv(SessionStep(s, v, SetNx(v)))
  {
    var s' := SessionStep(s, v, SetNx(v));
    if s.sessions[v].phase == Asking && CurrentLease(s) == None {
      forall w | w in s.sessions ensures !Claims(s, w) {}
      forall w | w in s.sessions && w != v ensures Claims(s', w) ==> Claims(s, w) {}
    } else {
      forall w | Claims(s', w) ensures Claims(s, w) {}
    }
  }

  lemma ReplyKeepsInv(s: State, v: LockValue)
    requires Inv(s) && Timely(s) && v in s.sessions
    ensures Inv(SessionStep(s, v, Reply(v)))
  {
    var s' := SessionStep(s, v, Reply(v));
    forall w | Claims(s', w) ensures Claims(s, w) {}
  }

  /** Whoever finds its own value in the key already held it. */
  lemma RenewCompareKeepsInv(s: State, v: LockValue)
    requires Inv(s) && Timely(s) && v in s.sessions
    ensures Inv(SessionStep(s, v, RenewCompare(v)))
  {
    var s' := SessionStep(s, v, RenewCompare(v));
    forall w | Claims(s', w) ensures Claims(s, w) {}
  }

  lemma RenewSetKeepsInv(s: State, v: LockValue)
    requires Inv(s) && Timely(s) && v in s.sessions
    ensures Inv(SessionStep(s, v, RenewSet(v)))
  {
    var s' := SessionStep(s, v, RenewSet(v));
    forall w | Claims(s', w) ensures Claims(s, w) {}
  }

  /** Stepping down only gives claims up. */
  lemma RenewFailedKeepsInv(s: State, v: LockValue, cancels: bool)
    requires Inv(s) && Timely(s) && v in s.sessions
    ensures Inv(SessionStep(s, v, RenewFailed(v, cancels)))
  {
    var s' := SessionStep(s, v, RenewFailed(v, cancels));
    forall w | Claims(s', w) ensures Claims(s, w) {}
  }

  lemma DestroyKeepsInv(s: State, process: Process)
    requires Inv(s) && Timely(s)
    ensures Inv(Step(s, Destroy(process)))
  {
    var s' := Step(s, Destroy(process));
    forall w | Claims(s', w) ensures Claims(s, w) {}
  }

  lemma ReleaseCompareKeepsInv(s: State, v: LockValue)
    requires Inv(s) && Timely(s) && v in s.sessions
    ensures Inv(SessionStep(s, v, ReleaseCompare(v)))
  {
    var s' := SessionStep(s, v, ReleaseCompare(v));
    forall w | Claims(s', w) ensures Claims(s, w) {}
  }

  /** The one that deletes is the only one relying on the key. */
  lemma ReleaseDeleteKeepsInv(s: State, v: LockValue)
    requires Inv(s) && Timely(s) && v in s.sessions
    ensures Inv(SessionStep(s, v, ReleaseDelete(v)))
  {
    var s' := SessionStep(s, v, ReleaseDelete(v));
    forall w | Claims(s', w) ensures Claims(s, w) {}
    if s.sessions[v].phase == Deleting {
      assert Claims(s, v);
      forall w | w in s.sessions && Relies(s.sessions[w]) ensures Claims(s, w) {}
    }
  }

  /** A failure gives claims up, and what it gives up nobody relied on but its own attempt. */
  lemma FailureKeepsInv(s: State, v: LockValue, e: Event)
    requires Inv(s) && Timely(s) && v in s.sessions
    requires e == CommandFails(v) || e == RenewUnseen(v) || e == RenewDropped(v)
    ensures Inv(SessionStep(s, v, e))
  {
    var s' := SessionStep(s, v, e);
    forall w | Claims(s', w) ensures Claims(s, w) {}
  }

  lemma CrashKeepsInv(s: State, process: Process)
    requires Inv(s) && Timely(s)
    ensures Inv(Step(s, Crash(process)))
  {
    var s' := Step(s, Crash(process));
    forall w | Claims(s', w) ensures Claims(s, w) {}
  }

  lemma StepKeepsInv(s: State, e: Event)
    requires Inv(s) && Timely(s)
    ensures Inv(Step(s, e))
  {
    var s' := Step(s, e);
    if e.Tick? || e.Ask? {
      forall w | Claims(s', w) ensures Claims(s, w) {}
    } else if e.Destroy? {
      DestroyKeepsInv(s, e.process);
    } else if e.Crash? {
      CrashKeepsInv(s, e.process);
    } else if e.v in s.sessions {
      match e
      case SetNx(v) => SetNxKeepsInv(s, v);
      case Reply(v) => ReplyKeepsInv(s, v);
      case RenewCompare(v) => RenewCompareKeepsInv(s, v);
      case RenewSet(v) => RenewSetKeepsInv(s, v);
      case RenewFailed(v, cancels) => RenewFailedKeepsInv(s, v, cancels);
      case ReleaseCompare(v) => ReleaseCompareKeepsInv(s, v);
      case ReleaseDelete(v) => ReleaseDeleteKeepsInv(s, v);
      case CommandFails(v) => FailureKeepsInv(s, v, e);
      case RenewUnseen(v) => FailureKeepsInv(s, v, e);
      case RenewDropped(v) => FailureKeepsInv(s, v, e);
      case _ =>
    }
  }

  lemma {:induction false} RunsKeepInv(s: State, events: seq<Event>)
    requires Inv(s) && TimelyRun(s, events)
    ensures Inv(RunAll(s, events))
    decreases |events|
  {
    if events != [] {
      StepKeepsInv(s, events[0]);
      RunsKeepInv(Step(s, events[0]), events[1..]);
    }
  }

  predicate Leads(s: State, v: LockValue) {
    v in s.sessions && s.sessions[v].phase == Leading
  }

  /** Main result: at any time at most one running process is leader. */
  lemma AtMostOneLeader(now: int, ttl: nat, events: seq<Event>)
    requires TimelyRun(Initial(now, ttl), events)
    ensures var s := RunAll(Initial(now, ttl), events); forall v, w :: Leads(s, v) && Leads(s, w) ==> v == w
  {
    RunsKeepInv(Initial(now, ttl), events);
    var s := RunAll(Initial(now, ttl), events);
    forall v, w | Leads(s, v) && Leads(s, w) ensures v == w {
      assert Claims(s, v) && Claims(s, w);
    }
  }

  // ---------- Renewing and releasing touch only the caller's own lease ----------

  /** A renewal's SET and a release's DEL find the caller's own value in the key. */
  ghost predicate TouchesOwn(s: State, e: Event) {
    match e
    case RenewSet(v) => v in s.sessions && s.sessions[v].pendingSets > 0 ==> Held(s, v)
    case ReleaseDelete(v) => v in s.sessions && s.sessions[v].phase == Deleting ==> Held(s, v)
    case _ => true
  }

  /** No attempt ended while one of its renewals was on its way. */
  ghost predicate NoneInFlight(s: State) {
    forall v :: v in s.sessions && s.sessions[v].phase == Over ==> s.sessions[v].pendingSets == 0
  }

  ghost predicate QuietRun(s: State, events: seq<Event>)
    decreases |events|
  {
    NoneInFlight(s) && (events != [] ==> QuietRun(Step(s, events[0]), events[1..]))
  }

  /** Whoever relies on the key finds its own value there. */
  ghost predicate OwnLease(s: State) {
    forall v :: v in s.sessions && Relies(s.sessions[v]) ==> s.lease.Some? && s.lease.value.value == v
  }

  lemma StepKeepsOwn(s: State, e: Event)
    requires Inv(s) && Timely(s) && OwnLease(s) && NoneInFlight(s)
    ensures OwnLease(Step(s, e)) && TouchesOwn(s, e)
  {
    match e
    case Destroy(process) => EndingKeepsOwn(s, e);
    case Crash(process) => EndingKeepsOwn(s, e);
    case Tick(_) =>
    case Ask(_, _) =>
    case _ => if e.v in s.sessions { SessionKeepsOwn(s, e.v, e); }
  }

  lemma EndingKeepsOwn(s: State, e: Event)
    requires OwnLease(s) && (e.Destroy? || e.Crash?)
    ensures OwnLease(Step(s, e))
  {
  }

  lemma SessionKeepsOwn(s: State, v: LockValue, e: Event)
    requires Inv(s) && Timely(s) && OwnLease(s) && NoneInFlight(s) && v in s.sessions
    ensures OwnLease(SessionStep(s, v, e))
  {
  }

  ghost predicate AllTouchOwn(s: State, events: seq<Event>)
    decreases |events|
  {
    events != [] ==> TouchesOwn(s, events[0]) && AllTouchOwn(Step(s, events[0]), events[1..])
  }

  /** When no attempt ends with a renewal in flight, no SET or DEL ever touches another's lease. */
  lemma {:induction false} QuietRunsTouchOwn(s: State, events: seq<Event>)
    requires Inv(s) && OwnLease(s) && TimelyRun(s, events) && QuietRun(s, events)
    ensures AllTouchOwn(s, events)
    decreases |events|
  {
    if events != [] {
      StepKeepsInv(s, events[0]);
      StepKeepsOwn(s, events[0]);
      QuietRunsTouchOwn(Step(s, events[0]), events[1..]);
    }
  }

  // ---------- An ended attempt with a renewal in flight ----------

  lemma AfterOne(s: State, e: Event, more: seq<Event>)
    requires Timely(s) && TimelyRun(Step(s, e), more)
    requires TouchesOwn(s, e) ==> !AllTouchOwn(Step(s, e), more)
    ensures TimelyRun(s, [e] + more) && !AllTouchOwn(s, [e] + more)
  {
    assert ([e] + more)[1..] == more;
  }

  /** The event itself touches another's lease. */
  lemma AtOnce(s: State, e: Event) returns (more: seq<Event>)
    requires Timely(s) && Timely(Step(s, e)) && !TouchesOwn(s, e)
    ensures TimelyRun(s, more) && !AllTouchOwn(s, more)
  {
    assert TimelyRun(Step(s, e), []);
    AfterOne(s, e, []);
    more := [e] + [];
  }

  /** With the key free, the next process is granted the lease before the late SET lands. */
  lemma Overtaken(s: State, v: LockValue, next: Process) returns (more: seq<Event>)
    requires Inv(s) && Timely(s) && s.ttl > 0 && CurrentLease(s) == None
    requires v in s.sessions && s.sessions[v].phase == Over && s.sessions[v].pendingSets > 0
    ensures TimelyRun(s, more) && !AllTouchOwn(s, more)
  {
    var w := FreshString(s.sessions.Keys);
    var s1, s2 := Step(s, Ask(w, next)), Step(Step(s, Ask(w, next)), SetNx(w));
    assert Timely(s1);
    assert s2.lease == Some(Lease(w, s.now + s.ttl)) && s2.sessions[v] == s.sessions[v];
    assert Timely(s2) && Timely(Step(s2, RenewSet(v)));
    more := AtOnce(s2, RenewSet(v));
    AfterOne(s1, SetNx(w), more);
    AfterOne(s, Ask(w, next), [SetNx(w)] + more);
    more := [Ask(w, next)] + ([SetNx(w)] + more);
  }

  /** With nobody relying on the ended attempt's lease, it runs out first. */
  lemma RunsOut(s: State, v: LockValue, next: Process) returns (more: seq<Event>)
    requires Inv(s) && Timely(s) && s.ttl > 0 && Held(s, v) && forall w :: w in s.sessions ==> !Relies(s.sessions[w])
    requires v in s.sessions && s.sessions[v].phase == Over && s.sessions[v].pendingSets > 0
    ensures TimelyRun(s, more) && !AllTouchOwn(s, more)
  {
    var wait := Tick(s.lease.value.expiresAt - s.now);
    StepKeepsInv(s, wait);
    var later := Overtaken(Step(s, wait), v, next);
    AfterOne(s, wait, later);
    more := [wait] + later;
  }

  /** Somebody relies on a key that holds the ended attempt's value: a SET or DEL of its own on its way hits
      it; otherwise its process may shut down, and nobody relies on the key. */
  lemma ReliesInVain(s: State, v: LockValue, x: LockValue, next: Process) returns (more: seq<Event>)
    requires Inv(s) && Timely(s) && s.ttl > 0 && Held(s, v) && x in s.sessions && Relies(s.sessions[x])
    requires s.sessions[x].phase != Granted
    requires v in s.sessions && s.sessions[v].phase == Over && s.sessions[v].pendingSets > 0
    ensures TimelyRun(s, more) && !AllTouchOwn(s, more)
  {
    OthersDoNotRely(s, x);
    if s.sessions[x].pendingSets > 0 {
      more := AtOnce(s, RenewSet(x));
    } else if s.sessions[x].phase == Deleting {
      more := AtOnce(s, ReleaseDelete(x));
    } else {
      var stop := Destroy(s.sessions[x].process);
      StepKeepsInv(s, stop);
      var later := RunsOut(Step(s, stop), v, next);
      AfterOne(s, stop, later);
      more := [stop] + later;
    }
  }

  lemma OthersDoNotRely(s: State, x: LockValue)
    requires OneClaim(s) && x in s.sessions && Relies(s.sessions[x])
    ensures forall w :: w in s.sessions && w != x ==> !Relies(s.sessions[w])
  {
    forall w | w in s.sessions && w != x ensures !Relies(s.sessions[w]) {
      assert Claims(s, x) && (Relies(s.sessions[w]) ==> Claims(s, w));
    }
  }

  /** Conversely, whenever an attempt is over with a renewal's SET in flight, some continuation just as timely
      has a SET or DEL that hits another's lease, whoever holds the key now. */
  lemma InFlightCanOverwrite(s: State, v: LockValue, next: Process) returns (more: seq<Event>)
    requires Inv(s) && Timely(s) && s.ttl > 0
    requires v in s.sessions && s.sessions[v].phase == Over && s.sessions[v].pendingSets > 0
    ensures TimelyRun(s, more) && !AllTouchOwn(s, more)
  {
    if CurrentLease(s) == None {
      more := Overtaken(s, v, next);
    } else if !Held(s, v) {
      more := AtOnce(s, RenewSet(v));
    } else if forall w :: w in s.sessions ==> !Relies(s.sessions[w]) {
      more := RunsOut(s, v, next);
    } else {
      var x :| x in s.sessions && Relies(s.sessions[x]);
      more := Displaced(s, v, x, next);
    }
  }

  lemma Displaced(s: State, v: LockValue, x: LockValue, next: Process) returns (more: seq<Event>)
    requires Inv(s) && Timely(s) && s.ttl > 0 && Held(s, v) && x in s.sessions && Relies(s.sessions[x])
    requires v in s.sessions && s.sessions[v].phase == Over && s.sessions[v].pendingSets > 0
    ensures TimelyRun(s, more) && !AllTouchOwn(s, more)
  {
    if s.sessions[x].phase == Granted {
      var s' := Step(s, Reply(x));
      StepKeepsInv(s, Reply(x));
      OthersDoNotRely(s, x);
      var later;
      if Relies(s'.sessions[x]) {
        later := ReliesInVain(s', v, x, next);
      } else {
        later := RunsOut(s', v, next);
      }
      AfterOne(s, Reply(x), later);
      more := [Reply(x)] + later;
    } else {
      more := ReliesInVain(s, v, x, next);
    }
  }

  // ---------- Losing the lease ----------

  /** Three steps at once. */
  lemma UnrollThree(s: State, a: Event, b: Event, c: Event)
    ensures RunAll(s, [a, b, c]) == Step(Step(Step(s, a), b), c)
  {
    var s1, s2 := Step(s, a), Step(Step(s, a), b);
    assert [a, b, c][1..] == [b, c] && [b, c][1..] == [c] && [c][1..] == [];
    assert RunAll(s1, [b, c]) == RunAll(s2, [c]) == Step(s2, c);
  }

  /** Shutting a leader down between a renewal's comparison and its SET leaves the SET in flight. */
  lemma ShutdownLeavesRenewal(s: State, v: LockValue)
    requires Leads(s, v) && Held(s, v)
    ensures var s' := Step(RunAll(s, [RenewCompare(v), Destroy(s.sessions[v].process), ReleaseCompare(v)]),
                           ReleaseDelete(v));
            v in s'.sessions && s'.sessions[v].phase == Over && s'.sessions[v].pendingSets > 0
            && CurrentLease(s') == None
  {
    UnrollThree(s, RenewCompare(v), Destroy(s.sessions[v].process), ReleaseCompare(v));
  }

  /** So does a crash. */
  lemma CrashLeavesRenewal(s: State, v: LockValue)
    requires Leads(s, v) && Held(s, v)
    ensures var s' := Step(Step(s, RenewCompare(v)), Crash(s.sessions[v].process));
            v in s'.sessions && s'.sessions[v].phase == Over && s'.sessions[v].pendingSets > 0
  {
  }

  /** What is over stays over. */
  lemma {:induction false} OverForGood(s: State, v: LockValue, events: seq<Event>)
    requires v in s.sessions && s.sessions[v].phase == Over
    ensures v in RunAll(s, events).sessions && RunAll(s, events).sessions[v].phase == Over
    decreases |events|
  {
    if events != [] {
      var s' := Step(s, events[0]);
      assert v in s'.sessions && s'.sessions[v].phase == Over;
      OverForGood(s', v, events[1..]);
    }
  }

  /** A failure on its way is not lost: it reaches the process, whatever happens in between. */
  lemma {:induction false} FailureArrives(s: State, v: LockValue, events: seq<Event>)
    requires v in s.sessions && s.sessions[v].failures > 0
    requires forall e <- events :: !(e.RenewFailed? && e.v == v)
    ensures var s' := RunAll(s, events);
            v in s'.sessions && s'.sessions[v].failures > 0 && s'.sessions[v].process == s.sessions[v].process
    decreases |events|
  {
    if events != [] {
      var s', e := Step(s, events[0]), events[0];
      assert e in events;
      assert v in s'.sessions && s'.sessions[v].failures > 0 && s'.sessions[v].process == s.sessions[v].process;
      FailureArrives(s', v, events[1..]);
    }
  }

  /** A renewal that finds another value, or none, or whose GET fails, ends every leadership its process has
      when the reply arrives, for good, whatever happens between the comparison and the reply and after it. */
  lemma FailedRenewalStepsDown(s: State, v: LockValue, compare: Event, between: seq<Event>, cancels: bool,
                               after: seq<Event>)
    requires v in s.sessions && s.sessions[v].phase !in {Asking, Granted}
    requires (compare == RenewCompare(v) && !Held(s, v)) || compare == RenewUnseen(v)
    requires forall e <- between :: !(e.RenewFailed? && e.v == v)
    ensures var arriving := RunAll(Step(s, compare), between);
            var s' := RunAll(Step(arriving, RenewFailed(v, cancels)), after);
            forall w :: Leads(arriving, w) && arriving.sessions[w].process == s.sessions[v].process ==>
              w in s'.sessions && s'.sessions[w].phase == Over
  {
    var arriving := RunAll(Step(s, compare), between);
    FailureArrives(Step(s, compare), v, between);
    var s1 := Step(arriving, RenewFailed(v, cancels));
    forall w | Leads(arriving, w) && arriving.sessions[w].process == s.sessions[v].process
      ensures w in RunAll(s1, after).sessions && RunAll(s1, after).sessions[w].phase == Over
    {
      OverForGood(s1, w, after);
    }
  }

  /** So a late failure of an earlier lock costs a process the leadership it has under a later one; the lease it
      still holds then keeps everybody out until it expires. */
  lemma LateFailureDropsHolder(s: State, v: LockValue, w: LockValue, cancels: bool)
    requires v in s.sessions && s.sessions[v].failures > 0 && Leads(s, w) && Held(s, w)
    requires s.sessions[w].process == s.sessions[v].process
    ensures var s' := Step(s, RenewFailed(v, cancels)); !Leads(s', w) && Held(s', w)
    ensures OneClaim(s) ==> forall u :: !Leads(Step(s, RenewFailed(v, cancels)), u)
  {
    var s' := Step(s, RenewFailed(v, cancels));
    if OneClaim(s) {
      forall u | Leads(s', u) ensures u == w {
        assert Claims(s, u) && Claims(s, w);
      }
    }
  }

  /** A leader steps down on a single GET that fails, although it holds the lease. */
  lemma FailedGetDropsHolder(s: State, v: LockValue, cancels: bool)
    requires Leads(s, v) && Held(s, v)
    ensures var s' := Step(Step(s, RenewUnseen(v)), RenewFailed(v, cancels)); !Leads(s', v) && Held(s', v)
    ensures OneClaim(s) ==> forall u :: !Leads(Step(Step(s, RenewUnseen(v)), RenewFailed(v, cancels)), u)
  {
    var s1 := Step(s, RenewUnseen(v));
    LateFailureDropsHolder(s1, v, v, cancels);
    if OneClaim(s) {
      forall u, w | Claims(s1, u) && Claims(s1, w) ensures u == w {
        assert Claims(s, u) && Claims(s, w);
      }
    }
  }

  /** A grant whose reply is lost keeps everybody out, with nobody leading, until the lease expires. */
  lemma LostGrantKeepsOut(s: State, v: LockValue, w: LockValue, ms: nat)
    requires v in s.sessions && s.sessions[v].phase == Asking && CurrentLease(s) == None
    requires w in s.sessions && s.sessions[w].phase == Asking && w != v && ms < s.ttl
    ensures var s' := RunAll(s, [SetNx(v), CommandFails(v), Tick(ms)]);
            && Held(s', v) && v in s'.sessions && s'.sessions[v].phase == Over
            && var s'' := Step(s', SetNx(w)); w in s''.sessions && s''.sessions[w].phase == Over
  {
    UnrollThree(s, SetNx(v), CommandFails(v), Tick(ms));
  }

  // ---------- Without the assumption ----------

  /** A leader that has not renewed when its lease expires is not alone: any other process can lead too. */
  lemma LateLeadersOverlap(s: State, v: LockValue, w: LockValue, next: Process)
    requires Leads(s, v) && w !in s.sessions && CurrentLease(s) == None
    ensures var s' := RunAll(s, [Ask(w, next), SetNx(w), Reply(w)]); Leads(s', v) && Leads(s', w)
  {
    UnrollThree(s, Ask(w, next), SetNx(w), Reply(w));
  }
}
