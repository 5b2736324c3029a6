/** Retry and dead-letter handling of one Kafka topic: a failing listener gets its own retry messages. */
module KafkaRetry {
  import opened Prelude

  /** The number of an event, in order of publication. */
  type Origin = nat

  const MAX_RETRY_COUNT := 10

  /** Subscriber service names, compared and nothing else; two strings are special to the protocol:
      the empty one and "NONE", which a first delivery carries. */
  datatype Name = EmptyName | NoneName | Named(id: nat)

  datatype Listener = Listener(subscriberServiceName: Name, retry: bool)

  /** `origin` says which published event a message is, or is a retry of. */
  datatype Message = Message(origin: Origin, retryCount: nat, retrySubscriber: Option<Name>)

  /** What happens to an event and a listener, in order. */
  datatype Record =
    | Attempt(origin: Origin, name: Name, retryCount: nat, succeeded: bool)
    | DeadLetter(origin: Origin, name: Name, retryCount: nat)

  /** An event as it is first published. */
  function Published(origin: Origin): Message {
    Message(origin, 0, Some(NoneName))
  }

  /** An empty subscriber name goes over the wire as null. */
  function RetryOf(m: Message, name: Name): Message {
    Message(m.origin, m.retryCount + 1, if name == EmptyName then None else Some(name))
  }

  /** Whether a listener runs on a message rather than skipping it. */
  predicate Handles(m: Message, name: Name) {
    !(m.retryCount > 0 && m.retrySubscriber != Some(NoneName) && m.retrySubscriber != Some(name))
  }

  predicate Retries(m: Message, l: Listener) {
    m.retryCount < MAX_RETRY_COUNT && l.retry
  }

  function RecordsOf(m: Message, l: Listener, succeeds: bool): (r: seq<Record>)
    ensures forall x <- r :: x.origin == m.origin && x.name == l.subscriberServiceName
  {
    if !Handles(m, l.subscriberServiceName) then []
    else if succeeds then [Attempt(m.origin, l.subscriberServiceName, m.retryCount, true)]
    else [Attempt(m.origin, l.subscriberServiceName, m.retryCount, false)]
         + if Retries(m, l) then [] else [DeadLetter(m.origin, l.subscriberServiceName, m.retryCount + 1)]
  }

  function MessagesOf(m: Message, l: Listener, succeeds: bool): (r: seq<Message>)
    ensures forall x <- r :: x == RetryOf(m, l.subscriberServiceName)
  {
    if Handles(m, l.subscriberServiceName) && !succeeds && Retries(m, l)
    then [RetryOf(m, l.subscriberServiceName)] else []
  }

  /** What each listener in turn records, and publishes. */
  function AllRecords(m: Message, listeners: seq<Listener>, succeeds: Name -> bool): (r: seq<seq<Record>>)
    ensures |r| == |listeners|
    ensures forall i :: 0 <= i < |r| ==>
              r[i] == RecordsOf(m, listeners[i], succeeds(listeners[i].subscriberServiceName))
  {
    seq(|listeners|, i requires 0 <= i < |listeners| =>
      RecordsOf(m, listeners[i], succeeds(listeners[i].subscriberServiceName)))
  }

  function AllMessages(m: Message, listeners: seq<Listener>, succeeds: Name -> bool): (r: seq<seq<Message>>)
    ensures |r| == |listeners|
    ensures forall i :: 0 <= i < |r| ==>
              r[i] == MessagesOf(m, listeners[i], succeeds(listeners[i].subscriberServiceName))
  {
    seq(|listeners|, i requires 0 <= i < |listeners| =>
      MessagesOf(m, listeners[i], succeeds(listeners[i].subscriberServiceName)))
  }

  class KafkaConsumer {
    const listeners: seq<Listener>
    var topic: seq<Message>
    var log: seq<Record>

    constructor (listeners: seq<Listener>)
      ensures this.listeners == listeners && topic == [] && log == []
    {
      this.listeners, topic, log := listeners, [], [];
    }

    /** One message; `succeeds` says for which subscribers forwarding works this time. */
    method EachMessage(m: Message, succeeds: Name -> bool)
      modifies this
      ensures topic == old(topic) + Flatten(AllMessages(m, listeners, succeeds))
      ensures log == old(log) + Flatten(AllRecords(m, listeners, succeeds))
    {
      var i := 0;
      ghost var messages, records := AllMessages(m, listeners, succeeds), AllRecords(m, listeners, succeeds);
      while i < |listeners|
        invariant 0 <= i <= |listeners|
        invariant topic == old(topic) + Flatten(messages[..i])
        invariant log == old(log) + Flatten(records[..i])
      {
        var listener := listeners[i];
        AppendNext(old(topic), messages, i);
        AppendNext(old(log), records, i);
        ForListener(m, listener, succeeds(listener.subscriberServiceName));
        i := i + 1;
      }
      assert messages[..i] == messages && records[..i] == records;
    }

    /** The listener skips the message, or forwarding the event for it works, or throws and is handled. */
    method ForListener(m: Message, listener: Listener, succeeds: bool)
      modifies this
      ensures topic == old(topic) + MessagesOf(m, listener, succeeds)
      ensures log == old(log) + RecordsOf(m, listener, succeeds)
    {
      if m.retryCount > 0 && m.retrySubscriber != Some(NoneName) {
        if m.retrySubscriber != Some(listener.subscriberServiceName) {
          return;
        }
      }
      var messageConsumedSuccess := succeeds;
      log := log + [Attempt(m.origin, listener.subscriberServiceName, m.retryCount, messageConsumedSuccess)];
      if !messageConsumedSuccess {
        HandleRetryOrDLQ(m, listener);
      }
    }

    method HandleRetryOrDLQ(m: Message, listener: Listener)
      modifies this
      ensures topic == old(topic) + if Retries(m, listener) then [RetryOf(m, listener.subscriberServiceName)] else []
      ensures log == old(log) + if Retries(m, listener) then []
                                else [DeadLetter(m.origin, listener.subscriberServiceName, m.retryCount + 1)]
    {
      if m.retryCount < MAX_RETRY_COUNT && listener.retry {
        topic := topic + [RetryOf(m, listener.subscriberServiceName)];
      } else {
        log := log + [DeadLetter(m.origin, listener.subscriberServiceName, m.retryCount + 1)];
      }
    }
  }

  // ---------- Who runs on a retry ----------

  ghost predicate DistinctNames(listeners: seq<Listener>) {
    forall i, j :: 0 <= i < j < |listeners| ==> listeners[i].subscriberServiceName != listeners[j].subscriberServiceName
  }

  /** A listener's retry runs that listener and no other iff its name is neither empty nor, beside others, "NONE". */
  lemma RetryRunsOnlyItsListener(m: Message, listeners: seq<Listener>, i: nat)
    requires DistinctNames(listeners) && i < |listeners|
    ensures var name := listeners[i].subscriberServiceName;
            (forall j :: 0 <= j < |listeners| ==>
               (Handles(RetryOf(m, name), listeners[j].subscriberServiceName) <==> j == i))
            <==> name != EmptyName && (name != NoneName || |listeners| == 1)
  {
    var name := listeners[i].subscriberServiceName;
    if name == EmptyName {
      assert !Handles(RetryOf(m, name), listeners[i].subscriberServiceName);
    } else if name == NoneName && |listeners| > 1 {
      var j := if i == 0 then 1 else 0;
      assert Handles(RetryOf(m, name), listeners[j].subscriberServiceName);
    }
  }

  // ---------- The story of one event and one listener ----------

  function OfPair(origin: Origin, name: Name): Record -> bool {
    (r: Record) => r.origin == origin && r.name == name
  }

  /** Whether a message is a delivery of this event to this listener. */
  predicate Concerns(m: Message, origin: Origin, name: Name) {
    m.origin == origin && Handles(m, name)
  }

  function Concerning(origin: Origin, name: Name): Message -> bool {
    (m: Message) => Concerns(m, origin, name)
  }

  function History(log: seq<Record>, origin: Origin, name: Name): seq<Record> {
    Filter(log, OfPair(origin, name))
  }

  /** The waiting messages that will run this listener on this event. */
  function Due(topic: seq<Message>, origin: Origin, name: Name): seq<Message> {
    Filter(topic, Concerning(origin, name))
  }

  /** k failed attempts, counted from zero. */
  function Failures(origin: Origin, name: Name, k: nat): seq<Record> {
    if k == 0 then [] else Failures(origin, name, k - 1) + [Attempt(origin, name, k - 1, false)]
  }

  datatype World = World(topic: seq<Message>, log: seq<Record>)

  /** Consuming the waiting message at position i. */
  function Consume(w: World, listeners: seq<Listener>, i: nat, succeeds: Name -> bool): World
    requires i < |w.topic|
  {
    World(w.topic[..i] + w.topic[i + 1..] + Flatten(AllMessages(w.topic[i], listeners, succeeds)),
          w.log + Flatten(AllRecords(w.topic[i], listeners, succeeds)))
  }

  /** After k failures the listener's attempt k is due; or it succeeded; or it was given up and dead-lettered. */
  datatype Fate = Waiting(k: nat) | Succeeded(k: nat) | GivenUp(k: nat)

  ghost predicate HasFate(w: World, l: Listener, origin: Origin, fate: Fate) {
    Tells(History(w.log, origin, l.subscriberServiceName), Due(w.topic, origin, l.subscriberServiceName), l, origin,
          fate)
  }

  ghost predicate Tells(history: seq<Record>, due: seq<Message>, l: Listener, origin: Origin, fate: Fate) {
    var name := l.subscriberServiceName;
    && fate.k <= MAX_RETRY_COUNT && (!l.retry ==> fate.k == 0)
    && match fate
       case Waiting(k) => |due| == 1 && due[0].retryCount == k && history == Failures(origin, name, k)
       case Succeeded(k) => due == [] && history == Failures(origin, name, k) + [Attempt(origin, name, k, true)]
       case GivenUp(k) =>
         due == [] && history == Failures(origin, name, k + 1) + [DeadLetter(origin, name, k + 1)]
           && (k == MAX_RETRY_COUNT || !l.retry)
  }

  /** What consuming one message means for the fate of a listener. */
  function NextFate(m: Message, l: Listener, origin: Origin, fate: Fate, succeeds: bool): Fate {
    if m.origin != origin || !Handles(m, l.subscriberServiceName) then fate
    else if succeeds then Succeeded(m.retryCount)
    else if Retries(m, l) then Waiting(m.retryCount + 1)
    else GivenUp(m.retryCount)
  }

  ghost predicate Proper(listeners: seq<Listener>) {
    DistinctNames(listeners)
    && forall l :: l in listeners ==> l.subscriberServiceName != EmptyName && l.subscriberServiceName != NoneName
  }

  /** Of the listeners of a message, only the one with this name adds to this history. */
  lemma RecordsFor(m: Message, listeners: seq<Listener>, succeeds: Name -> bool, origin: Origin, j: nat)
    requires DistinctNames(listeners) && j < |listeners|
    ensures var name := listeners[j].subscriberServiceName;
            History(Flatten(AllRecords(m, listeners, succeeds)), origin, name)
            == if m.origin == origin then RecordsOf(m, listeners[j], succeeds(name)) else []
  {
    var parts, name := AllRecords(m, listeners, succeeds), listeners[j].subscriberServiceName;
    forall i | 0 <= i < |parts|
      ensures Filter(parts[i], OfPair(origin, name)) == if i == j && m.origin == origin then parts[i] else []
    {
      if i == j && m.origin == origin {
        FilterAll(parts[i], OfPair(origin, name));
      } else {
        FilterNone(parts[i], OfPair(origin, name));
      }
    }
    FilterFlatten(parts, OfPair(origin, name), j);
  }

  function DueAfter(m: Message, l: Listener, succeeds: bool): seq<Message> {
    if !succeeds && Retries(m, l) then [RetryOf(m, l.subscriberServiceName)] else []
  }

  /** Of the retries of a message, only the one for this listener makes it due again. */
  lemma MessagesFor(m: Message, listeners: seq<Listener>, succeeds: Name -> bool, origin: Origin, j: nat)
    requires Proper(listeners) && j < |listeners|
    ensures var (l, name) := (listeners[j], listeners[j].subscriberServiceName);
            Due(Flatten(AllMessages(m, listeners, succeeds)), origin, name)
            == if Concerns(m, origin, name) then DueAfter(m, l, succeeds(name)) else []
  {
    var parts, name := AllMessages(m, listeners, succeeds), listeners[j].subscriberServiceName;
    forall i | 0 <= i < |parts|
      ensures Filter(parts[i], Concerning(origin, name)) == if i == j && m.origin == origin then parts[i] else []
    {
      assert listeners[i] in listeners;
      RetryConcerns(m, listeners[i].subscriberServiceName, origin, name);
      if i == j && m.origin == origin {
        FilterAll(parts[i], Concerning(origin, name));
      } else {
        FilterNone(parts[i], Concerning(origin, name));
      }
    }
    FilterFlatten(parts, Concerning(origin, name), j);
  }

  lemma RetryConcerns(m: Message, own: Name, origin: Origin, name: Name)
    requires own != EmptyName && own != NoneName
    ensures Concerns(RetryOf(m, own), origin, name) <==> m.origin == origin && name == own
  {
  }

  /** What stays due when a message is taken out. */
  lemma OthersDue(topic: seq<Message>, i: nat, origin: Origin, name: Name)
    requires i < |topic| && |Due(topic, origin, name)| <= 1
    ensures var (due, rest) := (Due(topic, origin, name), Due(topic[..i] + topic[i + 1..], origin, name));
            if Concerns(topic[i], origin, name) then due == [topic[i]] && rest == [] else rest == due
  {
    var p := Concerning(origin, name);
    assert topic == topic[..i] + [topic[i]] + topic[i + 1..];
    FilterConcat(topic[..i] + [topic[i]], topic[i + 1..], p);
    FilterConcat(topic[..i], [topic[i]], p);
    FilterConcat(topic[..i], topic[i + 1..], p);
    if p(topic[i]) { FilterAll([topic[i]], p); } else { FilterNone([topic[i]], p); }
    Middle(Filter(topic[..i], p), Filter([topic[i]], p), Filter(topic[i + 1..], p));
  }

  lemma Middle<T>(a: seq<T>, own: seq<T>, b: seq<T>)
    requires |a + own + b| <= 1
    ensures own != [] ==> a == [] && b == [] && a + own + b == own && a + b == []
    ensures own == [] ==> a + own + b == a + b
  {
  }

  lemma ConsumeDue(w: World, listeners: seq<Listener>, i: nat, succeeds: Name -> bool, origin: Origin, j: nat)
    requires Proper(listeners) && i < |w.topic| && j < |listeners|
    requires |Due(w.topic, origin, listeners[j].subscriberServiceName)| <= 1
    ensures var (m, l, name) := (w.topic[i], listeners[j], listeners[j].subscriberServiceName);
            var (due, due') := (Due(w.topic, origin, name),
                                Due(Consume(w, listeners, i, succeeds).topic, origin, name));
            if Concerns(m, origin, name) then due == [m] && due' == DueAfter(m, l, succeeds(name)) else due' == due
  {
    var m, name, rest := w.topic[i], listeners[j].subscriberServiceName, w.topic[..i] + w.topic[i + 1..];
    OthersDue(w.topic, i, origin, name);
    FilterConcat(rest, Flatten(AllMessages(m, listeners, succeeds)), Concerning(origin, name));
    MessagesFor(m, listeners, succeeds, origin, j);
  }

  lemma ConsumeHistory(w: World, listeners: seq<Listener>, i: nat, succeeds: Name -> bool, origin: Origin, j: nat)
    requires Proper(listeners) && i < |w.topic| && j < |listeners|
    ensures var (m, l, name) := (w.topic[i], listeners[j], listeners[j].subscriberServiceName);
            var (history, history') := (History(w.log, origin, name),
                                        History(Consume(w, listeners, i, succeeds).log, origin, name));
            history' == if Concerns(m, origin, name) then history + RecordsOf(m, l, succeeds(name)) else history
  {
    var m, name := w.topic[i], listeners[j].subscriberServiceName;
    FilterConcat(w.log, Flatten(AllRecords(m, listeners, succeeds)), OfPair(origin, name));
    RecordsFor(m, listeners, succeeds, origin, j);
  }

  /** A delivery adds its attempt to the failures before it. */
  lemma DeliveryMovesFate(history: seq<Record>, m: Message, l: Listener, succeeds: bool, k: nat)
    requires Handles(m, l.subscriberServiceName)
    requires Tells(history, [m], l, m.origin, Waiting(k))
    ensures Tells(history + RecordsOf(m, l, succeeds), DueAfter(m, l, succeeds), l, m.origin,
                  NextFate(m, l, m.origin, Waiting(k), succeeds))
  {
    var name := l.subscriberServiceName;
    if !succeeds {
      assert history + [Attempt(m.origin, name, k, false)] == Failures(m.origin, name, k + 1);
      if !Retries(m, l) {
        assert history + RecordsOf(m, l, succeeds)
               == history + [Attempt(m.origin, name, k, false)] + [DeadLetter(m.origin, name, k + 1)];
      }
    }
  }

  /** One consumption moves every listener's fate one step, or not at all. */
  lemma ConsumeMovesFate(w: World, listeners: seq<Listener>, i: nat, succeeds: Name -> bool, origin: Origin, j: nat,
                         fate: Fate)
    requires Proper(listeners) && i < |w.topic| && j < |listeners| && HasFate(w, listeners[j], origin, fate)
    ensures HasFate(Consume(w, listeners, i, succeeds), listeners[j], origin,
                    NextFate(w.topic[i], listeners[j], origin, fate, succeeds(listeners[j].subscriberServiceName)))
  {
    var m, l := w.topic[i], listeners[j];
    ConsumeDue(w, listeners, i, succeeds, origin, j);
    ConsumeHistory(w, listeners, i, succeeds, origin, j);
    if Concerns(m, origin, l.subscriberServiceName) {
      DeliveryMovesFate(History(w.log, origin, l.subscriberServiceName), m, l, succeeds(l.subscriberServiceName),
                        fate.k);
    }
  }

  // ---------- Runs ----------

  /** Which waiting message is consumed, and for which subscribers that succeeds. */
  datatype Turn = Turn(i: nat, succeeds: Name -> bool)

  ghost predicate CanRun(w: World, listeners: seq<Listener>, turns: seq<Turn>)
    decreases |turns|
  {
    turns != [] ==>
      && turns[0].i < |w.topic|
      && CanRun(Consume(w, listeners, turns[0].i, turns[0].succeeds), listeners, turns[1..])
  }

  ghost function RunAll(w: World, listeners: seq<Listener>, turns: seq<Turn>): World
    requires CanRun(w, listeners, turns)
    decreases |turns|
  {
    if turns == [] then w else RunAll(Consume(w, listeners, turns[0].i, turns[0].succeeds), listeners, turns[1..])
  }

  /** Events just published, each once. */
  function FirstDeliveries(origins: seq<Origin>): seq<Message> {
    if origins == [] then [] else FirstDeliveries(origins[..|origins| - 1]) + [Published(origins[|origins| - 1])]
  }

  lemma {:induction false} FirstDue(origins: seq<Origin>, origin: Origin, name: Name)
    requires Distinct(origins)
    ensures Due(FirstDeliveries(origins), origin, name) == if origin in origins then [Published(origin)] else []
  {
    if origins != [] {
      var n, p := |origins| - 1, Concerning(origin, name);
      FirstDue(origins[..n], origin, name);
      FilterConcat(FirstDeliveries(origins[..n]), [Published(origins[n])], p);
      if origins[n] == origin {
        FilterAll([Published(origins[n])], p);
      } else {
        FilterNone([Published(origins[n])], p);
      }
      assert origins == origins[..n] + [origins[n]];
    }
  }

  lemma {:induction false} RunsMoveFate(w: World, listeners: seq<Listener>, turns: seq<Turn>, origin: Origin, j: nat,
                                        fate: Fate)
    returns (fate': Fate)
    requires Proper(listeners) && CanRun(w, listeners, turns) && j < |listeners|
             && HasFate(w, listeners[j], origin, fate)
    ensures HasFate(RunAll(w, listeners, turns), listeners[j], origin, fate')
    decreases |turns|
  {
    if turns == [] {
      fate' := fate;
    } else {
      var t := turns[0];
      ConsumeMovesFate(w, listeners, t.i, t.succeeds, origin, j, fate);
      var next := NextFate(w.topic[t.i], listeners[j], origin, fate, t.succeeds(listeners[j].subscriberServiceName));
      fate' := RunsMoveFate(Consume(w, listeners, t.i, t.succeeds), listeners, turns[1..], origin, j, next);
    }
  }

  /** Main result: in whatever order messages are consumed and whatever fails, an event and a listener
      have seen only failures 0, 1, ... and wait for the next attempt, or have ended in exactly one
      success or one dead letter, after at most eleven attempts. */
  lemma EveryListenerHasAFate(listeners: seq<Listener>, origins: seq<Origin>, turns: seq<Turn>, origin: Origin, j: nat)
    returns (fate: Fate)
    requires Proper(listeners) && Distinct(origins) && origin in origins && j < |listeners|
    requires CanRun(World(FirstDeliveries(origins), []), listeners, turns)
    ensures HasFate(RunAll(World(FirstDeliveries(origins), []), listeners, turns), listeners[j], origin, fate)
  {
    FirstDue(origins, origin, listeners[j].subscriberServiceName);
    fate := RunsMoveFate(World(FirstDeliveries(origins), []), listeners, turns, origin, j, Waiting(0));
  }

  function Attempts(history: seq<Record>): nat {
    if history == [] then 0 else Attempts(history[..|history| - 1]) + if history[|history| - 1].Attempt? then 1 else 0
  }

  lemma {:induction false} FailuresCount(origin: Origin, name: Name, k: nat)
    ensures Attempts(Failures(origin, name, k)) == k
  {
    if k > 0 {
      FailuresCount(origin, name, k - 1);
      assert Failures(origin, name, k)[..|Failures(origin, name, k)| - 1] == Failures(origin, name, k - 1);
    }
  }

  /** A fate allows at most eleven attempts. */
  lemma AtMostElevenAttempts(w: World, l: Listener, origin: Origin, fate: Fate)
    requires HasFate(w, l, origin, fate)
    ensures Attempts(History(w.log, origin, l.subscriberServiceName)) <= MAX_RETRY_COUNT + 1
  {
    var name, history := l.subscriberServiceName, History(w.log, origin, l.subscriberServiceName);
    FailuresCount(origin, name, fate.k);
    FailuresCount(origin, name, fate.k + 1);
    if !fate.Waiting? {
      assert history[..|history| - 1] == Failures(origin, name, if fate.Succeeded? then fate.k else fate.k + 1);
    }
  }

  // ---------- Termination ----------

  /** Ten minus the retry count, plus one; a first delivery may start a retry per listener. */
  function Weight(m: Message, n: nat): nat {
    if m.retryCount == 0 then 1 + 10 * n
    else if m.retryCount <= MAX_RETRY_COUNT then 11 - m.retryCount else 1
  }

  function TotalWeight(topic: seq<Message>, n: nat): nat {
    if topic == [] then 0 else Weight(topic[0], n) + TotalWeight(topic[1..], n)
  }

  lemma {:induction false} WeightConcat(a: seq<Message>, b: seq<Message>, n: nat)
    ensures TotalWeight(a + b, n) == TotalWeight(a, n) + TotalWeight(b, n)
  {
    if a == [] {
      assert a + b == b;
    } else {
      assert (a + b)[1..] == a[1..] + b;
      WeightConcat(a[1..], b, n);
    }
  }

  function Left(m: Message): nat {
    if m.retryCount < MAX_RETRY_COUNT then MAX_RETRY_COUNT - m.retryCount else 0
  }

  lemma RetryWeighs(m: Message, l: Listener, succeeds: bool, n: nat)
    ensures TotalWeight(MessagesOf(m, l, succeeds), n) <= Left(m)
  {
    var r := MessagesOf(m, l, succeeds);
    if r != [] { assert r[1..] == []; }
  }

  /** Parts that weigh at most `each` together weigh at most as often as much. */
  lemma {:induction false} FlattenWeighs(parts: seq<seq<Message>>, n: nat, each: nat)
    requires forall i :: 0 <= i < |parts| ==> TotalWeight(parts[i], n) <= each
    ensures TotalWeight(Flatten(parts), n) <= each * |parts|
  {
    if parts != [] {
      var k := |parts| - 1;
      FlattenWeighs(parts[..k], n, each);
      WeightConcat(Flatten(parts[..k]), parts[k], n);
      TimesNext(each, k);
    }
  }

  lemma TimesNext(each: nat, k: nat)
    ensures each * (k + 1) == each * k + each
  {
  }

  /** A retry names the listener it is for. */
  predicate Addressed(m: Message) {
    m.retryCount == 0 || (m.retrySubscriber.Some? && m.retrySubscriber.value != NoneName)
  }

  /** A first delivery starts at most one retry per listener, a retry at most one more. */
  lemma RetriesWeigh(m: Message, listeners: seq<Listener>, succeeds: Name -> bool, n: nat)
    requires Addressed(m) && DistinctNames(listeners)
    ensures TotalWeight(Flatten(AllMessages(m, listeners, succeeds)), n)
            <= if m.retryCount == 0 then 10 * |listeners| else Left(m)
  {
    var parts := AllMessages(m, listeners, succeeds);
    forall i | 0 <= i < |parts| ensures TotalWeight(parts[i], n) <= Left(m) {
      RetryWeighs(m, listeners[i], succeeds(listeners[i].subscriberServiceName), n);
    }
    if m.retryCount == 0 {
      FlattenWeighs(parts, n, Left(m));
    } else if j :| 0 <= j < |listeners| && Handles(m, listeners[j].subscriberServiceName) {
      FlattenOne(parts, j);
    } else {
      FlattenOne(parts, |parts|);
    }
  }

  ghost predicate AllAddressed(topic: seq<Message>) {
    forall i :: 0 <= i < |topic| ==> Addressed(topic[i])
  }

  lemma RetriesAreAddressed(m: Message, listeners: seq<Listener>, succeeds: Name -> bool)
    requires Proper(listeners)
    ensures AllAddressed(Flatten(AllMessages(m, listeners, succeeds)))
  {
    var parts := AllMessages(m, listeners, succeeds);
    forall i | 0 <= i < |parts| ensures AllAddressed(parts[i]) {
      assert listeners[i] in listeners;
      assert forall k :: 0 <= k < |parts[i]| ==> parts[i][k] in parts[i];
    }
    FlattenAddressed(parts);
  }

  lemma {:induction false} FlattenAddressed(parts: seq<seq<Message>>)
    requires forall i :: 0 <= i < |parts| ==> AllAddressed(parts[i])
    ensures AllAddressed(Flatten(parts))
  {
    if parts != [] { FlattenAddressed(parts[..|parts| - 1]); }
  }

  /** Every consumption makes the topic lighter. */
  lemma ConsumeWeighsLess(w: World, listeners: seq<Listener>, i: nat, succeeds: Name -> bool)
    requires Proper(listeners) && i < |w.topic| && AllAddressed(w.topic)
    ensures TotalWeight(Consume(w, listeners, i, succeeds).topic, |listeners|) < TotalWeight(w.topic, |listeners|)
    ensures AllAddressed(Consume(w, listeners, i, succeeds).topic)
  {
    var m, n, rest := w.topic[i], |listeners|, w.topic[..i] + w.topic[i + 1..];
    WeightWithout(w.topic, i, n);
    WeightConcat(rest, Flatten(AllMessages(m, listeners, succeeds)), n);
    RetriesWeigh(m, listeners, succeeds, n);
    ConsumeKeepsAddressed(w, listeners, i, succeeds);
  }

  lemma ConsumeKeepsAddressed(w: World, listeners: seq<Listener>, i: nat, succeeds: Name -> bool)
    requires Proper(listeners) && i < |w.topic| && AllAddressed(w.topic)
    ensures AllAddressed(Consume(w, listeners, i, succeeds).topic)
  {
    var m, rest := w.topic[i], w.topic[..i] + w.topic[i + 1..];
    RetriesAreAddressed(m, listeners, succeeds);
    AddressedConcat(rest, Flatten(AllMessages(m, listeners, succeeds)));
  }

  lemma AddressedConcat(a: seq<Message>, b: seq<Message>)
    requires AllAddressed(a) && AllAddressed(b)
    ensures AllAddressed(a + b)
  {
  }

  lemma WeightWithout(topic: seq<Message>, i: nat, n: nat)
    requires i < |topic|
    ensures TotalWeight(topic, n) == TotalWeight(topic[..i] + topic[i + 1..], n) + Weight(topic[i], n)
  {
    var before, after := topic[..i], topic[i..];
    assert topic == before + after && after[1..] == topic[i + 1..];
    WeightConcat(before, after, n);
    WeightConcat(before, after[1..], n);
  }

  /** However messages are consumed, the topic runs empty after a bounded number of consumptions. */
  lemma {:induction false} RunsAreBounded(w: World, listeners: seq<Listener>, turns: seq<Turn>)
    requires Proper(listeners) && AllAddressed(w.topic) && CanRun(w, listeners, turns)
    ensures |turns| <= TotalWeight(w.topic, |listeners|)
    decreases |turns|
  {
    if turns != [] {
      ConsumeWeighsLess(w, listeners, turns[0].i, turns[0].succeeds);
      RunsAreBounded(Consume(w, listeners, turns[0].i, turns[0].succeeds), listeners, turns[1..]);
    }
  }

  /** Once the topic is empty nobody waits: each event and listener ended in one success or one dead letter. */
  lemma DrainedMeansSettled(w: World, l: Listener, origin: Origin, fate: Fate)
    requires HasFate(w, l, origin, fate) && w.topic == []
    ensures !fate.Waiting?
  {
  }

  lemma {:induction false} FailuresAre(origin: Origin, name: Name, k: nat)
    ensures |Failures(origin, name, k)| == k
    ensures forall i :: 0 <= i < k ==> Failures(origin, name, k)[i] == Attempt(origin, name, i, false)
  {
    if k > 0 { FailuresAre(origin, name, k - 1); }
  }

  /** Attempts 0, 1, ... fail one after the other; then either the next one, at most the eleventh, succeeds, or, after
      all eleven that a retrying listener gets, or the single one of any other, comes one dead letter. */
  ghost predicate Settled(history: seq<Record>, l: Listener, origin: Origin, failed: nat) {
    var name := l.subscriberServiceName;
    && |history| == failed + 1
    && (forall i :: 0 <= i < failed ==> history[i] == Attempt(origin, name, i, false))
    && (if history[failed].Attempt? then
          history[failed] == Attempt(origin, name, failed, true) && failed < (if l.retry then 11 else 1)
        else history[failed] == DeadLetter(origin, name, failed) && failed == (if l.retry then 11 else 1))
  }

  lemma FateSettles(history: seq<Record>, l: Listener, origin: Origin, fate: Fate) returns (failed: nat)
    requires Tells(history, [], l, origin, fate)
    ensures Settled(history, l, origin, failed)
  {
    failed := if fate.GivenUp? then fate.k + 1 else fate.k;
    FailuresAre(origin, l.subscriberServiceName, failed);
  }

  /** Main result: once the topic is empty, every event and listener are settled; so a retrying listener that always
      fails has been tried exactly eleven times. */
  lemma ElevenAttemptsThenDeadLetter(listeners: seq<Listener>, origins: seq<Origin>, turns: seq<Turn>, origin: Origin,
                                     j: nat) returns (failed: nat)
    requires Proper(listeners) && Distinct(origins) && origin in origins && j < |listeners|
    requires CanRun(World(FirstDeliveries(origins), []), listeners, turns)
    requires RunAll(World(FirstDeliveries(origins), []), listeners, turns).topic == []
    ensures var w := RunAll(World(FirstDeliveries(origins), []), listeners, turns);
            Settled(History(w.log, origin, listeners[j].subscriberServiceName), listeners[j], origin, failed)
  {
    var w := RunAll(World(FirstDeliveries(origins), []), listeners, turns);
    var fate := EveryListenerHasAFate(listeners, origins, turns, origin, j);
    failed := FateSettles(History(w.log, origin, listeners[j].subscriberServiceName), listeners[j], origin, fate);
  }
}
