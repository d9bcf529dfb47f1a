/**
 The event bus of internal/adapters/memory/eventbus.go as a step system: any number of Publish
 calls run at once under the read lock, one worker drains each subscriber's queue, and
 Subscribe and Close take the write lock, so they wait until no Publish call is in progress.

 Deliveries carry the number of the Publish call and the position of the event in it, and each
 subscription remembers what was ever put on its queue; both are history, read by no step.
 */
module EventBus {
  import opened Wrappers
  import opened Orders

  const BUFFER: nat := 4096

  datatype Delivery = Delivery(call: nat, index: nat, event: Event)

  /** name "" matches every event. */
  datatype Subscription = Subscription(
    name: string, queue: seq<Delivery>, busy: Option<Delivery>, channelClosed: bool,
    handled: seq<Delivery>, accepted: seq<Delivery>)
  {
    predicate Matches(e: Event) {
      name == "" || name == e.EventName()
    }

    /** What the worker has in hand. */
    function InHand(): seq<Delivery> {
      if busy.Some? then [busy.value] else []
    }
  }

  /**
   One Publish call: its two loop positions, and whether it has counted a delivery in the wait
   group without having sent it yet. width is the number of subscriptions it ranges over.
   */
  datatype Call = Call(events: seq<Event>, at: nat, sub: nat, counted: bool, width: nat, active: bool, refused: bool)

  datatype Bus = Bus(subs: seq<Subscription>, calls: seq<Call>, closed: bool, inflight: int)

  datatype Action =
    | Subscribe(name: string)
    | Publish(events: seq<Event>)
    | Skip(call: nat)        // the subscription does not match
    | Count(call: nat)       // inflight.Add(1)
    | Send(call: nat)        // the channel send, once there is room
    | NextEvent(call: nat)   // inner loop done
    | Return(call: nat)      // outer loop done, read lock released
    | Take(worker: nat)      // receive from the channel
    | Done(worker: nat)      // handler returned, inflight.Done()
    | Close                  // write lock held: mark closed, close every channel

  predicate NoCallInProgress(b: Bus) {
    forall i :: 0 <= i < |b.calls| ==> !b.calls[i].active
  }

  predicate InLoop(b: Bus, c: nat) {
    && c < |b.calls| && b.calls[c].active && b.calls[c].at < |b.calls[c].events|
    && b.calls[c].sub < b.calls[c].width <= |b.subs|
  }

  predicate Enabled(b: Bus, a: Action) {
    match a
    case Subscribe(_) => NoCallInProgress(b)
    case Publish(_) => true
    case Skip(c) =>
      InLoop(b, c) && !b.calls[c].counted && !b.subs[b.calls[c].sub].Matches(b.calls[c].events[b.calls[c].at])
    case Count(c) =>
      InLoop(b, c) && !b.calls[c].counted && b.subs[b.calls[c].sub].Matches(b.calls[c].events[b.calls[c].at])
    case Send(c) => InLoop(b, c) && b.calls[c].counted && |b.subs[b.calls[c].sub].queue| < BUFFER
    case NextEvent(c) =>
      c < |b.calls| && b.calls[c].active && b.calls[c].at < |b.calls[c].events| && b.calls[c].sub == b.calls[c].width
    case Return(c) => c < |b.calls| && b.calls[c].active && b.calls[c].at == |b.calls[c].events|
    case Take(s) => s < |b.subs| && b.subs[s].busy == None && b.subs[s].queue != []
    case Done(s) => s < |b.subs| && b.subs[s].busy.Some?
    case Close => NoCallInProgress(b)
  }

  function Begun(b: Bus, events: seq<Event>): Call {
    Call(events, 0, 0, false, |b.subs|, !b.closed, b.closed)
  }

  function Pushed(s: Subscription, d: Delivery): Subscription {
    s.(queue := s.queue + [d], accepted := s.accepted + [d])
  }

  function Taken(s: Subscription): Subscription
    requires s.queue != []
  {
    s.(busy := Some(s.queue[0]), queue := s.queue[1..])
  }

  function Finished(s: Subscription): Subscription
    requires s.busy.Some?
  {
    s.(busy := None, handled := s.handled + [s.busy.value])
  }

  function Shut(s: Subscription): Subscription {
    s.(channelClosed := true)
  }

  function Effect(b: Bus, a: Action): Bus
    requires Enabled(b, a)
  {
    match a
    case Subscribe(name) => b.(subs := b.subs + [Subscription(name, [], None, false, [], [])])
    case Publish(events) => b.(calls := b.calls + [Begun(b, events)])
    case Skip(c) => b.(calls := b.calls[c := b.calls[c].(sub := b.calls[c].sub + 1)])
    case Count(c) => b.(calls := b.calls[c := b.calls[c].(counted := true)], inflight := b.inflight + 1)
    case Send(c) =>
      var k := b.calls[c];
      b.(subs := b.subs[k.sub := Pushed(b.subs[k.sub], Delivery(c, k.at, k.events[k.at]))],
         calls := b.calls[c := k.(sub := k.sub + 1, counted := false)])
    case NextEvent(c) => b.(calls := b.calls[c := b.calls[c].(at := b.calls[c].at + 1, sub := 0)])
    case Return(c) => b.(calls := b.calls[c := b.calls[c].(active := false)])
    case Take(s) => b.(subs := b.subs[s := Taken(b.subs[s])])
    case Done(s) => b.(subs := b.subs[s := Finished(b.subs[s])], inflight := b.inflight - 1)
    case Close =>
      if b.closed then b else b.(closed := true, subs := seq(|b.subs|, i requires 0 <= i < |b.subs| => Shut(b.subs[i])))
  }

  /** The bus before any step: no subscribers, no calls, nothing in flight. */
  const EMPTY_BUS := Bus([], [], false, 0)

  ghost predicate Steps(b: Bus, actions: seq<Action>, b': Bus)
    decreases |actions|
  {
    if actions == [] then b == b'
    else Enabled(b, actions[0]) && Steps(Effect(b, actions[0]), actions[1..], b')
  }

  // ---------------------------------------------------------------- what each subscriber is owed

  /** Deliveries of the first n events of a call that a subscription wants, in order. */
  function Wanted(s: Subscription, call: nat, events: seq<Event>, n: nat): seq<Delivery>
    requires n <= |events|
  {
    if n == 0 then []
    else
      Wanted(s, call, events, n - 1) +
      if s.Matches(events[n - 1]) then [Delivery(call, n - 1, events[n - 1])] else []
  }

  /** What call number c has put on subscription number j so far, read off its loop positions. */
  function Due(s: Subscription, j: nat, c: nat, k: Call): seq<Delivery>
    requires k.at <= |k.events|
  {
    if k.refused || j >= k.width then []
    else if j < k.sub && k.at < |k.events| then Wanted(s, c, k.events, k.at + 1)
    else Wanted(s, c, k.events, k.at)
  }

  /** The deliveries made by one call, in the order they were accepted. */
  function FromCall(ds: seq<Delivery>, c: nat): seq<Delivery> {
    if ds == [] then []
    else
      var d := ds[|ds| - 1];
      FromCall(ds[..|ds| - 1], c) + if d.call == c then [d] else []
  }

  /** Work each subscription still owes the wait group. */
  function Load(s: Subscription): nat {
    |s.queue| + if s.busy.Some? then 1 else 0
  }

  function TotalLoad(subs: seq<Subscription>): nat {
    if subs == [] then 0 else TotalLoad(subs[..|subs| - 1]) + Load(subs[|subs| - 1])
  }

  function PendingSends(calls: seq<Call>): nat {
    if calls == [] then 0
    else PendingSends(calls[..|calls| - 1]) + if calls[|calls| - 1].counted then 1 else 0
  }

  // ---------------------------------------------------------------- invariant

  ghost predicate SubOk(s: Subscription) {
    && s.accepted == s.handled + s.InHand() + s.queue
    && |s.queue| <= BUFFER
  }

  ghost predicate CallOk(b: Bus, k: Call) {
    && k.at <= |k.events| && k.sub <= k.width <= |b.subs|
    && (k.at == |k.events| ==> k.sub == 0)
    && (k.active ==> k.width == |b.subs| && !k.refused && !b.closed)
    && (k.counted ==> k.active && k.at < |k.events| && k.sub < k.width && b.subs[k.sub].Matches(k.events[k.at]))
    && (!k.active && !k.refused ==> k.at == |k.events|)
  }

  ghost predicate Shape(b: Bus) {
    && (forall j :: 0 <= j < |b.subs| ==> SubOk(b.subs[j]))
    && (forall c :: 0 <= c < |b.calls| ==> CallOk(b, b.calls[c]))
    && (forall j :: 0 <= j < |b.subs| && b.subs[j].channelClosed ==> b.closed)
    && (forall j, i :: 0 <= j < |b.subs| && 0 <= i < |b.subs[j].accepted| ==> b.subs[j].accepted[i].call < |b.calls|)
  }

  ghost predicate Ledger(b: Bus) {
    b.inflight == TotalLoad(b.subs) + PendingSends(b.calls)
  }

  ghost predicate DeliveredTo(s: Subscription, j: nat, c: nat, k: Call) {
    k.at <= |k.events| && FromCall(s.accepted, c) == Due(s, j, c, k)
  }

  ghost predicate Delivered(b: Bus) {
    forall j, c :: 0 <= j < |b.subs| && 0 <= c < |b.calls| ==> DeliveredTo(b.subs[j], j, c, b.calls[c])
  }

  ghost predicate Inv(b: Bus) {
    Shape(b) && Ledger(b) && Delivered(b)
  }

  // ---------------------------------------------------------------- preservation

  lemma ShapeKept(b: Bus, a: Action)
    requires Shape(b) && Enabled(b, a)
    ensures Shape(Effect(b, a))
  {
    hide Shape;
    match a {
      case Subscribe(_) => LockedShape(b, a);
      case Publish(_) => LockedShape(b, a);
      case Skip(c) => LoopShape(b, a, c);
      case Count(c) => LoopShape(b, a, c);
      case Send(c) => SendShape(b, c);
      case NextEvent(c) => LoopShape(b, a, c);
      case Return(c) => LoopShape(b, a, c);
      case Take(s) => WorkerStep(b, a, s);
      case Done(s) => WorkerStep(b, a, s);
      case Close => LockedShape(b, a);
    }
  }

  lemma LockedShape(b: Bus, a: Action)
    requires Shape(b) && Enabled(b, a) && (a.Subscribe? || a.Publish? || a.Close?)
    ensures Shape(Effect(b, a))
  {}

  lemma LoopShape(b: Bus, a: Action, c: nat)
    requires Shape(b) && Enabled(b, a) && a in {Skip(c), Count(c), NextEvent(c), Return(c)}
    ensures Shape(Effect(b, a))
  {
    assert CallOk(b, b.calls[c]);
    assert CallOk(b, Effect(b, a).calls[c]);
  }

  lemma WorkerStep(b: Bus, a: Action, j: nat)
    requires Shape(b) && Enabled(b, a) && a in {Take(j), Done(j)}
    ensures Shape(Effect(b, a))
  {
    assert SubOk(b.subs[j]);
    assert SubOk(Effect(b, a).subs[j]);
    WorkerShape(b, j, Effect(b, a).subs[j], Effect(b, a).inflight);
  }

  lemma SendShape(b: Bus, c: nat)
    requires Shape(b) && Enabled(b, Send(c))
    ensures Shape(Effect(b, Send(c)))
  {
    var k := b.calls[c];
    var s, d := b.subs[k.sub], Delivery(c, k.at, k.events[k.at]);
    assert SubOk(Pushed(s, d)) by {
      assert s.accepted + [d] == s.handled + s.InHand() + (s.queue + [d]);
    }
    var b' := Effect(b, Send(c));
    forall j | 0 <= j < |b'.subs| ensures b'.subs[j].name == b.subs[j].name {}
    assert forall e :: Pushed(s, d).Matches(e) == s.Matches(e);
  }

  lemma WorkerShape(b: Bus, j: nat, s: Subscription, n: int)
    requires Shape(b) && j < |b.subs| && SubOk(s)
    requires s.name == b.subs[j].name && s.accepted == b.subs[j].accepted && s.channelClosed == b.subs[j].channelClosed
    ensures Shape(b.(subs := b.subs[j := s], inflight := n))
  {
    assert forall e :: s.Matches(e) == b.subs[j].Matches(e);
  }

  lemma {:induction false} LoadUpdate(subs: seq<Subscription>, j: nat, s: Subscription)
    requires j < |subs|
    ensures TotalLoad(subs[j := s]) == TotalLoad(subs) - Load(subs[j]) + Load(s)
  {
    hide Load;
    var last := |subs| - 1;
    if j < last {
      assert subs[j := s][..last] == subs[..last][j := s];
      LoadUpdate(subs[..last], j, s);
    } else {
      assert subs[j := s][..last] == subs[..last];
    }
  }

  lemma {:induction false} SendsUpdate(calls: seq<Call>, c: nat, k: Call)
    requires c < |calls|
    ensures PendingSends(calls[c := k]) ==
      PendingSends(calls) - (if calls[c].counted then 1 else 0) + if k.counted then 1 else 0
  {
    var last := |calls| - 1;
    if c < last {
      assert calls[c := k][..last] == calls[..last][c := k];
      SendsUpdate(calls[..last], c, k);
    } else {
      assert calls[c := k][..last] == calls[..last];
    }
  }

  lemma {:induction false} LoadSame(a: seq<Subscription>, b: seq<Subscription>)
    requires |a| == |b| && forall j :: 0 <= j < |a| ==> Load(a[j]) == Load(b[j])
    ensures TotalLoad(a) == TotalLoad(b)
  {
    hide Load;
    if a != [] { LoadSame(a[..|a| - 1], b[..|b| - 1]); }
  }

  /** The wait group counts exactly what is counted but unsent, queued, or being handled. */
  lemma LedgerKept(b: Bus, a: Action)
    requires Shape(b) && Ledger(b) && Enabled(b, a)
    ensures Ledger(Effect(b, a))
  {
    hide TotalLoad, PendingSends;
    var b' := Effect(b, a);
    match a {
      case Subscribe(_) => LoadAppend(b.subs, b'.subs[|b.subs|]);
      case Publish(events) => SendsAppend(b.calls, Begun(b, events));
      case Skip(c) => SendsUpdate(b.calls, c, b'.calls[c]);
      case Count(c) => SendsUpdate(b.calls, c, b'.calls[c]);
      case Send(c) =>
        SendsUpdate(b.calls, c, b'.calls[c]);
        LoadUpdate(b.subs, b.calls[c].sub, b'.subs[b.calls[c].sub]);
      case NextEvent(c) => SendsUpdate(b.calls, c, b'.calls[c]);
      case Return(c) => SendsUpdate(b.calls, c, b'.calls[c]);
      case Take(s) => LoadUpdate(b.subs, s, b'.subs[s]);
      case Done(s) => LoadUpdate(b.subs, s, b'.subs[s]);
      case Close => LoadSame(b.subs, b'.subs);
    }
  }

  lemma LoadAppend(subs: seq<Subscription>, s: Subscription)
    ensures TotalLoad(subs + [s]) == TotalLoad(subs) + Load(s)
  {
    assert (subs + [s])[..|subs|] == subs;
  }

  lemma SendsAppend(calls: seq<Call>, k: Call)
    ensures PendingSends(calls + [k]) == PendingSends(calls) + if k.counted then 1 else 0
  {
    assert (calls + [k])[..|calls|] == calls;
  }

  lemma FromCallAppend(ds: seq<Delivery>, d: Delivery, c: nat)
    ensures FromCall(ds + [d], c) == FromCall(ds, c) + if d.call == c then [d] else []
  {
    assert (ds + [d])[..|ds|] == ds;
  }

  lemma {:induction false} FromCallNone(ds: seq<Delivery>, c: nat)
    requires forall i :: 0 <= i < |ds| ==> ds[i].call != c
    ensures FromCall(ds, c) == []
  {
    if ds != [] { FromCallNone(ds[..|ds| - 1], c); }
  }

  /** Only the name of a subscription decides what it wants. */
  lemma {:induction false} WantedByName(s: Subscription, t: Subscription, call: nat, events: seq<Event>, n: nat)
    requires s.name == t.name && n <= |events|
    ensures Wanted(s, call, events, n) == Wanted(t, call, events, n)
  {
    hide Event.EventName;
    if n > 0 { WantedByName(s, t, call, events, n - 1); }
  }

  /** A delivery account depends only on the subscription's name and history. */
  lemma SameAccount(s: Subscription, t: Subscription, j: nat, c: nat, k: Call)
    requires DeliveredTo(s, j, c, k) && s.name == t.name && s.accepted == t.accepted
    ensures DeliveredTo(t, j, c, k)
  {
    hide Wanted;
    WantedByName(s, t, c, k.events, k.at);
    if k.at < |k.events| { WantedByName(s, t, c, k.events, k.at + 1); }
  }

  /** Passing over a subscription that does not want the event leaves every account as it was. */
  lemma SkipAccount(s: Subscription, j: nat, c: nat, k: Call)
    requires DeliveredTo(s, j, c, k) && k.at < |k.events| && k.sub < k.width
    requires j == k.sub ==> !s.Matches(k.events[k.at])
    ensures DeliveredTo(s, j, c, k.(sub := k.sub + 1))
  {
    hide FromCall, Wanted, Event.EventName;
    WantedStep(s, c, k.events, k.at + 1);
  }

  /** So does turning to the next event once every subscription has been visited. */
  lemma NextAccount(s: Subscription, j: nat, c: nat, k: Call)
    requires DeliveredTo(s, j, c, k) && k.at < |k.events| && k.sub == k.width
    ensures DeliveredTo(s, j, c, k.(at := k.at + 1, sub := 0))
  {
    hide FromCall, Wanted;
  }

  /** Counting and returning do not move the loop positions. */
  lemma SamePlace(s: Subscription, j: nat, c: nat, k: Call, k': Call)
    requires DeliveredTo(s, j, c, k) && k' == k.(counted := k'.counted, active := k'.active)
    ensures DeliveredTo(s, j, c, k')
  {
    hide FromCall, Wanted;
  }

  /** Advancing a call without a send leaves every account as it was. */
  lemma LoopAdvance(b: Bus, a: Action, c: nat, j: nat)
    requires Delivered(b) && j < |b.subs| && Enabled(b, a) && a in {Skip(c), Count(c), NextEvent(c), Return(c)}
    ensures DeliveredTo(b.subs[j], j, c, Effect(b, a).calls[c])
  {
    hide DeliveredTo;
    var k := b.calls[c];
    assert DeliveredTo(b.subs[j], j, c, k);
    if a.Skip? {
      SkipAccount(b.subs[j], j, c, k);
    } else if a.NextEvent? {
      NextAccount(b.subs[j], j, c, k);
    } else {
      SamePlace(b.subs[j], j, c, k, Effect(b, a).calls[c]);
    }
  }

  /** The subscription that was sent to gains the event it wanted. */
  lemma SentAccount(s: Subscription, j: nat, c: nat, k: Call)
    requires DeliveredTo(s, j, c, k) && j == k.sub < k.width && k.at < |k.events| && !k.refused
    requires s.Matches(k.events[k.at])
    ensures DeliveredTo(Pushed(s, Delivery(c, k.at, k.events[k.at])), j, c, k.(sub := k.sub + 1, counted := false))
  {
    hide FromCall, Wanted;
    var d := Delivery(c, k.at, k.events[k.at]);
    FromCallAppend(s.accepted, d, c);
    WantedStep(s, c, k.events, k.at + 1);
    WantedByName(s, Pushed(s, d), c, k.events, k.at + 1);
  }

  /** The other subscriptions are where they were with the sending call. */
  lemma PassedAccount(s: Subscription, j: nat, c: nat, k: Call)
    requires DeliveredTo(s, j, c, k) && j != k.sub && k.at < |k.events|
    ensures DeliveredTo(s, j, c, k.(sub := k.sub + 1, counted := false))
  {
    hide FromCall, Wanted;
  }

  /** A delivery of one call changes no other call's account. */
  lemma OtherCallAccount(s: Subscription, d: Delivery, j: nat, c: nat, k: Call)
    requires DeliveredTo(s, j, c, k) && d.call != c
    ensures DeliveredTo(Pushed(s, d), j, c, k)
  {
    hide FromCall, Wanted;
    FromCallAppend(s.accepted, d, c);
    assert FromCall(s.accepted, c) + [] == FromCall(s.accepted, c);
    WantedByName(s, Pushed(s, d), c, k.events, k.at);
    if k.at < |k.events| { WantedByName(s, Pushed(s, d), c, k.events, k.at + 1); }
  }

  lemma SendAccount(b: Bus, c: nat, j: nat, c': nat)
    requires Shape(b) && Delivered(b) && Enabled(b, Send(c)) && j < |b.subs| && c' < |b.calls|
    ensures var b' := Effect(b, Send(c));
      DeliveredTo(b'.subs[j], j, c', b'.calls[c'])
  {
    hide DeliveredTo, Subscription.Matches, SubOk;
    var k := b.calls[c];
    assert DeliveredTo(b.subs[j], j, c', b.calls[c']);
    assert CallOk(b, k);
    if c' != c {
      if j == k.sub { OtherCallAccount(b.subs[j], Delivery(c, k.at, k.events[k.at]), j, c', b.calls[c']); }
    } else if j == k.sub {
      SentAccount(b.subs[j], j, c, k);
    } else {
      PassedAccount(b.subs[j], j, c, k);
    }
  }

  lemma WantedStep(s: Subscription, call: nat, events: seq<Event>, n: nat)
    requires 0 < n <= |events|
    ensures Wanted(s, call, events, n) == Wanted(s, call, events, n - 1) +
      if s.Matches(events[n - 1]) then [Delivery(call, n - 1, events[n - 1])] else []
  {}

  lemma DeliveredKept(b: Bus, a: Action)
    requires Shape(b) && Delivered(b) && Enabled(b, a)
    ensures Delivered(Effect(b, a))
  {
    var b' := Effect(b, a);
    forall j, c | 0 <= j < |b'.subs| && 0 <= c < |b'.calls| ensures DeliveredTo(b'.subs[j], j, c, b'.calls[c]) {
      AccountKept(b, a, j, c);
    }
  }

  lemma AccountKept(b: Bus, a: Action, j: nat, c: nat)
    requires Shape(b) && Delivered(b) && Enabled(b, a)
    requires j < |Effect(b, a).subs| && c < |Effect(b, a).calls|
    ensures DeliveredTo(Effect(b, a).subs[j], j, c, Effect(b, a).calls[c])
  {
    hide DeliveredTo, FromCall, Wanted, Due;
    var b' := Effect(b, a);
    if a.Subscribe? && j == |b.subs| {
      NewSubscriber(b, b'.subs[j], j, c);
    } else if a.Publish? && c == |b.calls| {
      NewCall(b, b.subs[j], j, c, a.events);
    } else if a.Send? {
      SendAccount(b, a.call, j, c);
    } else if (a.Skip? || a.Count? || a.NextEvent? || a.Return?) && c == a.call {
      LoopAdvance(b, a, c, j);
    } else {
      assert DeliveredTo(b.subs[j], j, c, b.calls[c]);
      SameAccount(b.subs[j], b'.subs[j], j, c, b.calls[c]);
    }
  }

  lemma NewSubscriber(b: Bus, s: Subscription, j: nat, c: nat)
    requires Shape(b) && c < |b.calls| && j == |b.subs| && s.accepted == []
    ensures DeliveredTo(s, j, c, b.calls[c])
  {
    assert CallOk(b, b.calls[c]);
  }

  lemma NewCall(b: Bus, s: Subscription, j: nat, c: nat, events: seq<Event>)
    requires Shape(b) && c == |b.calls| && j < |b.subs| && s == b.subs[j]
    ensures DeliveredTo(s, j, c, Begun(b, events))
  {
    FromCallNone(s.accepted, c);
  }

  lemma {:induction false} StepsKeep(b: Bus, actions: seq<Action>, b': Bus)
    requires Inv(b) && Steps(b, actions, b')
    ensures Inv(b')
    decreases |actions|
  {
    hide Shape, Ledger, Delivered, Effect, Enabled;
    if actions != [] {
      ShapeKept(b, actions[0]);
      LedgerKept(b, actions[0]);
      DeliveredKept(b, actions[0]);
      StepsKeep(Effect(b, actions[0]), actions[1..], b');
    }
  }

  ghost predicate Reachable(b: Bus) {
    exists actions :: Steps(EMPTY_BUS, actions, b)
  }

  /** Every reachable bus satisfies the invariant. */
  lemma ReachableInv(b: Bus)
    requires Reachable(b)
    ensures Inv(b)
  {
    var actions :| Steps(EMPTY_BUS, actions, b);
    StepsKeep(EMPTY_BUS, actions, b);
  }

  // ---------------------------------------------------------------- consequences

  /**
   FIFO, exactly once: what was handled, then what is in hand, then what is queued, is the
   accepted sequence; and each finished, unrefused call over this subscriber contributed all the
   events it wants, in the call's own order.
   */
  lemma FifoExactlyOnce(b: Bus, j: nat, c: nat)
    requires Reachable(b) && j < |b.subs| && c < |b.calls|
    ensures var s, k := b.subs[j], b.calls[c];
      && s.handled + s.InHand() + s.queue == s.accepted && |s.queue| <= 4096
      && (!k.active && !k.refused && j < k.width ==>
            FromCall(s.accepted, c) == Wanted(s, c, k.events, |k.events|))
      && (k.refused || j >= k.width ==> FromCall(s.accepted, c) == [])
      && (forall i :: 0 <= i < |s.accepted| ==> s.accepted[i].call < |b.calls|)
  {
    hide Wanted, FromCall, Reachable;
    ReachableInv(b);
    assert SubOk(b.subs[j]) && CallOk(b, b.calls[c]) && DeliveredTo(b.subs[j], j, c, b.calls[c]);
  }

  /** A step only adds to what a subscriber was ever sent, and only what a call in progress sends. */
  lemma StepGrows(b: Bus, a: Action, j: nat)
    requires Enabled(b, a) && j < |b.subs|
    ensures var b' := Effect(b, a);
      && j < |b'.subs| && b.subs[j].accepted <= b'.subs[j].accepted
      && (forall i :: |b.subs[j].accepted| <= i < |b'.subs[j].accepted| ==>
            b'.subs[j].accepted[i].call < |b.calls| && b.calls[b'.subs[j].accepted[i].call].active)
      && |b.calls| <= |b'.calls|
      && (forall c :: 0 <= c < |b.calls| && !b.calls[c].active ==> !b'.calls[c].active)
  {
    hide Subscription.Matches;
  }

  lemma {:induction false} RunGrows(b: Bus, actions: seq<Action>, b': Bus, j: nat, c: nat)
    requires Steps(b, actions, b') && j < |b.subs| && c < |b.calls| && !b.calls[c].active
    ensures j < |b'.subs| && b.subs[j].accepted <= b'.subs[j].accepted
    ensures forall i :: |b.subs[j].accepted| <= i < |b'.subs[j].accepted| ==> b'.subs[j].accepted[i].call != c
    decreases |actions|
  {
    hide Enabled, Effect;
    if actions != [] {
      var m := Effect(b, actions[0]);
      StepGrows(b, actions[0], j);
      RunGrows(m, actions[1..], b', j, c);
      forall i | |b.subs[j].accepted| <= i < |b'.subs[j].accepted| ensures b'.subs[j].accepted[i].call != c {
        if i < |m.subs[j].accepted| { assert b'.subs[j].accepted[i] == m.subs[j].accepted[i]; }
      }
    }
  }

  lemma {:induction false} FromCallConcat(xs: seq<Delivery>, ys: seq<Delivery>, c: nat)
    ensures FromCall(xs + ys, c) == FromCall(xs, c) + FromCall(ys, c)
  {
    if ys == [] {
      assert xs + ys == xs;
    } else {
      FromCallConcat(xs, ys[..|ys| - 1], c);
      assert (xs + ys)[..|xs + ys| - 1] == xs + ys[..|ys| - 1];
    }
  }

  /**
   A publisher's order across its calls: once a Publish call has returned, every subscriber was sent all it
   will ever be sent by that call, and whatever any later call sends lies behind it.
   */
  lemma CallsInOrder(b: Bus, c: nat, actions: seq<Action>, b': Bus, j: nat)
    requires Reachable(b) && c < |b.calls| && !b.calls[c].active && Steps(b, actions, b') && j < |b.subs|
    ensures j < |b'.subs| && b.subs[j].accepted <= b'.subs[j].accepted
    ensures FromCall(b'.subs[j].accepted, c) == FromCall(b.subs[j].accepted, c)
    ensures var ds := b'.subs[j].accepted;
      forall x, y :: 0 <= x < |ds| && 0 <= y < |ds| && ds[x].call == c && ds[y].call >= |b.calls| ==> x < y
  {
    hide Reachable, FromCall, SubOk, CallOk, Ledger, Delivered;
    ReachableInv(b);
    RunGrows(b, actions, b', j, c);
    var old', new' := b.subs[j].accepted, b'.subs[j].accepted;
    var rest := new'[|old'|..];
    assert new' == old' + rest;
    FromCallConcat(old', rest, c);
    FromCallNone(rest, c);
    assert FromCall(old', c) + [] == FromCall(old', c);
    assert forall x :: 0 <= x < |old'| ==> new'[x] == old'[x];
  }

  /** Deliveries to one subscriber are pairwise distinct. */
  lemma NoDuplicates(b: Bus, j: nat, x: nat, y: nat)
    requires Reachable(b) && j < |b.subs| && x < y < |b.subs[j].accepted|
    ensures b.subs[j].accepted[x] != b.subs[j].accepted[y]
  {
    var s := b.subs[j];
    if s.accepted[x] == s.accepted[y] {
      var c := s.accepted[x].call;
      ReachableInv(b);
      assert DeliveredTo(s, j, c, b.calls[c]);
      var x', y' := FromCallPositions(s.accepted, c, x, y);
      DueDistinct(s, j, c, b.calls[c], x', y');
    }
  }

  lemma {:induction false} FromCallPositions(ds: seq<Delivery>, c: nat, x: nat, y: nat) returns (x': nat, y': nat)
    requires x < y < |ds| && ds[x].call == c && ds[y].call == c
    ensures x' < y' < |FromCall(ds, c)| && FromCall(ds, c)[x'] == ds[x] && FromCall(ds, c)[y'] == ds[y]
  {
    var before := ds[..|ds| - 1];
    if y < |before| {
      x', y' := FromCallPositions(before, c, x, y);
    } else {
      x' := FromCallPosition(before, c, x);
      y' := |FromCall(before, c)|;
    }
  }

  lemma {:induction false} FromCallPosition(ds: seq<Delivery>, c: nat, x: nat) returns (x': nat)
    requires x < |ds| && ds[x].call == c
    ensures x' < |FromCall(ds, c)| && FromCall(ds, c)[x'] == ds[x]
  {
    var before := ds[..|ds| - 1];
    if x < |before| { x' := FromCallPosition(before, c, x); } else { x' := |FromCall(before, c)|; }
  }

  lemma DueDistinct(s: Subscription, j: nat, c: nat, k: Call, x: nat, y: nat)
    requires k.at <= |k.events| && x < y < |Due(s, j, c, k)|
    ensures Due(s, j, c, k)[x] != Due(s, j, c, k)[y]
  {
    hide Wanted;
    if k.at < |k.events| && j < k.sub {
      WantedIncreases(s, c, k.events, k.at + 1, x, y);
    } else {
      WantedIncreases(s, c, k.events, k.at, x, y);
    }
  }

  lemma {:induction false} WantedIncreases(s: Subscription, c: nat, events: seq<Event>, n: nat, x: nat, y: nat)
    requires n <= |events| && x < y < |Wanted(s, c, events, n)|
    ensures Wanted(s, c, events, n)[x].index < Wanted(s, c, events, n)[y].index < n
  {
    hide Subscription.Matches;
    var before := Wanted(s, c, events, n - 1);
    if y < |before| {
      WantedIncreases(s, c, events, n - 1, x, y);
    } else {
      WantedBelow(s, c, events, n - 1, x);
    }
  }

  lemma {:induction false} WantedBelow(s: Subscription, c: nat, events: seq<Event>, n: nat, x: nat)
    requires n <= |events| && x < |Wanted(s, c, events, n)|
    ensures Wanted(s, c, events, n)[x].index < n
  {
    hide Subscription.Matches;
    if x < |Wanted(s, c, events, n - 1)| { WantedBelow(s, c, events, n - 1, x); }
  }

  /** Of a finished call's events a subscriber was sent exactly those of the name it asked for, or all of them. */
  lemma DeliveredExactly(b: Bus, j: nat, c: nat, x: nat)
    requires Reachable(b) && j < |b.subs| && c < |b.calls| && j < b.calls[c].width && x < |b.calls[c].events|
    requires !b.calls[c].active && !b.calls[c].refused
    ensures var e, s := b.calls[c].events[x], b.subs[j];
      Delivery(c, x, e) in s.accepted <==> s.name == "" || s.name == e.EventName()
  {
    hide Reachable, Wanted, FromCall, Event.EventName;
    FifoExactlyOnce(b, j, c);
    var e, s, k := b.calls[c].events[x], b.subs[j], b.calls[c];
    WantedHas(s, c, k.events, |k.events|, x);
    FromCallHas(s.accepted, c, Delivery(c, x, e));
  }

  lemma {:induction false} WantedHas(s: Subscription, c: nat, events: seq<Event>, n: nat, x: nat)
    requires n <= |events| && x < |events|
    ensures Delivery(c, x, events[x]) in Wanted(s, c, events, n) <==> x < n && s.Matches(events[x])
  {
    hide Subscription.Matches;
    if n > 0 { WantedHas(s, c, events, n - 1, x); }
  }

  lemma {:induction false} FromCallHas(ds: seq<Delivery>, c: nat, d: Delivery)
    requires d.call == c
    ensures d in FromCall(ds, c) <==> d in ds
  {
    if ds != [] {
      FromCallHas(ds[..|ds| - 1], c, d);
      assert ds == ds[..|ds| - 1] + [ds[|ds| - 1]];
    }
  }

  /** Whatever a subscriber was sent has the name it asked for. */
  lemma SentMatches(b: Bus, j: nat, i: nat)
    requires Reachable(b) && j < |b.subs| && i < |b.subs[j].accepted|
    ensures b.subs[j].Matches(b.subs[j].accepted[i].event)
  {
    hide Reachable, Wanted, FromCall, Subscription.Matches;
    ReachableInv(b);
    var s := b.subs[j];
    var c := s.accepted[i].call;
    assert DeliveredTo(s, j, c, b.calls[c]);
    var x := FromCallPosition(s.accepted, c, i);
    var k := b.calls[c];
    WantedMatches(s, c, k.events, k.at);
    if k.at < |k.events| { WantedMatches(s, c, k.events, k.at + 1); }
  }

  lemma {:induction false} WantedMatches(s: Subscription, c: nat, events: seq<Event>, n: nat)
    requires n <= |events|
    ensures forall x :: 0 <= x < |Wanted(s, c, events, n)| ==> s.Matches(Wanted(s, c, events, n)[x].event)
  {
    hide Subscription.Matches;
    if n > 0 { WantedMatches(s, c, events, n - 1); }
  }

  lemma {:induction false} NamesStand(b: Bus, actions: seq<Action>, b': Bus, j: nat)
    requires Steps(b, actions, b') && j < |b.subs|
    ensures j < |b'.subs| && b'.subs[j].name == b.subs[j].name
    decreases |actions|
  {
    hide Enabled, Effect;
    if actions != [] {
      NameStands(b, actions[0], j);
      NamesStand(Effect(b, actions[0]), actions[1..], b', j);
    }
  }

  lemma NameStands(b: Bus, a: Action, j: nat)
    requires Enabled(b, a) && j < |b.subs|
    ensures j < |Effect(b, a).subs| && Effect(b, a).subs[j].name == b.subs[j].name
  {
    hide Subscription.Matches;
  }

  /** A new subscriber is sent, for the rest of the run, only events of the name it gave, and of later calls only. */
  lemma SubscriberGets(b: Bus, name: string, actions: seq<Action>, b': Bus, i: nat)
    requires Reachable(b) && NoCallInProgress(b) && Steps(Effect(b, Subscribe(name)), actions, b')
    ensures |b.subs| < |b'.subs| && b'.subs[|b.subs|].name == name
    ensures var ds := b'.subs[|b.subs|].accepted;
      i < |ds| ==> (name == "" || ds[i].event.EventName() == name) && ds[i].call >= |b.calls|
  {
    hide Reachable, Steps, Event.EventName;
    var m, j := Effect(b, Subscribe(name)), |b.subs|;
    NamesStand(m, actions, b', j);
    ReachableOn(b, Subscribe(name), actions, b');
    if i < |b'.subs[j].accepted| {
      SentMatches(b', j, i);
      var c := b'.subs[j].accepted[i].call;
      if c < |b.calls| { RunGrows(m, actions, b', j, c); }
    }
  }

  lemma {:induction false} StepsJoin(b: Bus, xs: seq<Action>, m: Bus, ys: seq<Action>, b': Bus)
    requires Steps(b, xs, m) && Steps(m, ys, b')
    ensures Steps(b, xs + ys, b')
    decreases |xs|
  {
    hide Enabled, Effect;
    if xs == [] {
      assert xs + ys == ys;
    } else {
      StepsJoin(Effect(b, xs[0]), xs[1..], m, ys, b');
      assert (xs + ys)[1..] == xs[1..] + ys;
    }
  }

  lemma ReachableOn(b: Bus, a: Action, actions: seq<Action>, b': Bus)
    requires Reachable(b) && Enabled(b, a) && Steps(Effect(b, a), actions, b')
    ensures Reachable(b')
  {
    hide Enabled, Effect;
    var before :| Steps(EMPTY_BUS, before, b);
    var rest := [a] + actions;
    assert rest[1..] == actions;
    StepsJoin(EMPTY_BUS, before, b, rest, b');
  }

  /** Close closes the bus and every channel. */
  lemma CloseCloses(b: Bus)
    requires Reachable(b) && NoCallInProgress(b)
    ensures Enabled(b, Close) && Effect(b, Close).closed
    ensures !b.closed ==> forall j :: 0 <= j < |b.subs| ==> Effect(b, Close).subs[j].channelClosed
  {
    hide Reachable;
  }

  lemma ClosedStep(b: Bus, a: Action, j: nat)
    requires Shape(b) && b.closed && Enabled(b, a) && j < |b.subs|
    ensures var b' := Effect(b, a);
      && b'.closed && j < |b'.subs| && b'.subs[j].accepted == b.subs[j].accepted && |b.calls| <= |b'.calls|
      && (forall c :: 0 <= c < |b.calls| ==> b'.calls[c].refused == b.calls[c].refused)
      && (forall c :: |b.calls| <= c < |b'.calls| ==> b'.calls[c].refused)
  {
    hide Subscription.Matches;
  }

  /** A closed bus stays closed: no subscriber is sent anything more, and every later Publish call is refused. */
  lemma {:induction false} ClosedForGood(b: Bus, actions: seq<Action>, b': Bus, j: nat)
    requires Shape(b) && b.closed && Steps(b, actions, b') && j < |b.subs|
    ensures b'.closed && j < |b'.subs| && b'.subs[j].accepted == b.subs[j].accepted
    ensures |b.calls| <= |b'.calls|
    ensures forall c :: 0 <= c < |b.calls| ==> b'.calls[c].refused == b.calls[c].refused
    ensures forall c :: |b.calls| <= c < |b'.calls| ==> b'.calls[c].refused
    decreases |actions|
  {
    hide Shape, Enabled, Effect;
    if actions != [] {
      ShapeKept(b, actions[0]);
      ClosedStep(b, actions[0], j);
      ClosedForGood(Effect(b, actions[0]), actions[1..], b', j);
    }
  }

  /** No send ever meets a closed channel, and the wait group never goes negative. */
  lemma SendsAreSafe(b: Bus, c: nat)
    requires Reachable(b)
    ensures b.inflight >= 0
    ensures Enabled(b, Send(c)) ==> !b.subs[b.calls[c].sub].channelClosed
    ensures forall s :: Enabled(b, Done(s)) ==> b.inflight >= 1
  {
    hide Reachable, TotalLoad, PendingSends;
    ReachableInv(b);
    if Enabled(b, Send(c)) { assert CallOk(b, b.calls[c]); }
    forall s | Enabled(b, Done(s)) ensures b.inflight >= 1 { LoadAtLeast(b.subs, s); }
  }

  lemma {:induction false} LoadAtLeast(subs: seq<Subscription>, j: nat)
    requires j < |subs|
    ensures TotalLoad(subs) >= Load(subs[j])
  {
    if j < |subs| - 1 { LoadAtLeast(subs[..|subs| - 1], j); }
  }

  /** A step of Publish call c, or of the worker whose full queue it is waiting for. */
  predicate Unblocks(b: Bus, c: nat, a: Action)
    requires c < |b.calls|
  {
    || a == Skip(c) || a == Count(c) || a == Send(c) || a == NextEvent(c) || a == Return(c)
    || (b.calls[c].counted && (a == Take(b.calls[c].sub) || a == Done(b.calls[c].sub)))
  }

  lemma NextMove(b: Bus, c: nat) returns (a: Action)
    requires c < |b.calls| && b.calls[c].active && CallOk(b, b.calls[c])
    ensures Enabled(b, a) && Unblocks(b, c, a)
  {
    hide Subscription.Matches;
    var k := b.calls[c];
    if k.at == |k.events| {
      a := Return(c);
    } else if k.sub == k.width {
      a := NextEvent(c);
    } else if !k.counted {
      a := if b.subs[k.sub].Matches(k.events[k.at]) then Count(c) else Skip(c);
    } else if |b.subs[k.sub].queue| < BUFFER {
      a := Send(c);
    } else {
      a := if b.subs[k.sub].busy.Some? then Done(k.sub) else Take(k.sub);
    }
  }

  /** Queue entries and work in hand that stand between a call and the send it is waiting for. */
  function Backlog(b: Bus, k: Call): nat {
    if k.sub < |b.subs| then 2 * |b.subs[k.sub].queue| + |b.subs[k.sub].InHand()| else 0
  }

  /** Nothing but call c and the workers moved, and what subscribers were sent meanwhile came from call c. */
  ghost predicate OnlyCall(b: Bus, c: nat, b': Bus) {
    && c < |b.calls| == |b'.calls| && b'.closed == b.closed && |b'.subs| == |b.subs|
    && b'.calls[c].events == b.calls[c].events && b'.calls[c].refused == b.calls[c].refused
    && b'.calls[c].width == b.calls[c].width
    && (forall i :: 0 <= i < |b.calls| && i != c ==> b'.calls[i] == b.calls[i])
    && (forall j :: 0 <= j < |b.subs| ==> Extended(b.subs[j], b'.subs[j], c))
  }

  ghost predicate Extended(s: Subscription, s': Subscription, c: nat) {
    && s'.name == s.name && s.accepted <= s'.accepted
    && forall i :: |s.accepted| <= i < |s'.accepted| ==> s'.accepted[i].call == c
  }

  lemma MoveOnlyCall(b: Bus, c: nat, a: Action)
    requires c < |b.calls| && Enabled(b, a) && Unblocks(b, c, a)
    ensures OnlyCall(b, c, Effect(b, a))
  {
    hide Subscription.Matches;
  }

  lemma OnlyCallTransitive(b: Bus, c: nat, m: Bus, b': Bus)
    requires OnlyCall(b, c, m) && OnlyCall(m, c, b')
    ensures OnlyCall(b, c, b')
  {
    hide Extended;
    forall j | 0 <= j < |b.subs| ensures Extended(b.subs[j], b'.subs[j], c) {
      ExtendedTransitive(b.subs[j], m.subs[j], b'.subs[j], c);
    }
  }

  lemma ExtendedTransitive(s: Subscription, t: Subscription, u: Subscription, c: nat)
    requires Extended(s, t, c) && Extended(t, u, c)
    ensures Extended(s, u, c)
  {
    forall i | |s.accepted| <= i < |u.accepted| ensures u.accepted[i].call == c {
      if i < |t.accepted| { assert u.accepted[i] == t.accepted[i]; }
    }
  }

  /** Every move towards the return of a call brings it nearer. */
  lemma MoveShrinks(b: Bus, c: nat, a: Action)
    requires c < |b.calls| && b.calls[c].active && CallOk(b, b.calls[c]) && Enabled(b, a) && Unblocks(b, c, a)
    ensures var k, b' := b.calls[c], Effect(b, a);
      var k' := b'.calls[c];
      && |k'.events| == |k.events| && k'.at <= |k'.events| && k'.sub <= k'.width == k.width
      && (|| k'.at > k.at
          || (k'.at == k.at && k'.sub > k.sub)
          || (k'.at == k.at && k'.sub == k.sub && k'.counted && !k.counted)
          || (k'.at == k.at && k'.sub == k.sub && k'.counted == k.counted && !k'.active)
          || (k'.at == k.at && k'.sub == k.sub && k'.counted == k.counted && k'.active
              && Backlog(b', k') < Backlog(b, k)))
  {
    hide Subscription.Matches;
  }

  /**
   Bounded queues never deadlock a publisher: from every reachable state, moves of the call itself and of
   the workers it waits for bring it to its return, whatever the other publishers do or leave undone.
   */
  lemma {:induction false} PublishReturns(b: Bus, c: nat) returns (actions: seq<Action>, b': Bus)
    requires Shape(b) && c < |b.calls| && b.calls[c].active
    ensures Steps(b, actions, b') && OnlyCall(b, c, b') && !b'.calls[c].active
    ensures forall i :: 0 <= i < |actions| ==>
      actions[i] in {Skip(c), Count(c), Send(c), NextEvent(c), Return(c)} || actions[i].Take? || actions[i].Done?
    decreases |b.calls[c].events| - b.calls[c].at, b.calls[c].width - b.calls[c].sub,
              if b.calls[c].counted then 0 else 1, if b.calls[c].active then 1 else 0, Backlog(b, b.calls[c])
  {
    hide Enabled, Effect, CallOk, SubOk, OnlyCall, Backlog;
    assert CallOk(b, b.calls[c]);
    CallBounds(b, c);
    var a := NextMove(b, c);
    var m := Effect(b, a);
    MoveOnlyCall(b, c, a);
    MoveShrinks(b, c, a);
    ShapeKept(b, a);
    OnlyCallSize(b, c, m);
    if m.calls[c].active {
      var rest;
      rest, b' := PublishReturns(m, c);
      OnlyCallTransitive(b, c, m, b');
      actions := [a] + rest;
      assert actions[1..] == rest;
    } else {
      b' := m;
      actions := [a];
      assert actions[1..] == [];
    }
  }

  lemma OnlyCallSize(b: Bus, c: nat, b': Bus)
    requires OnlyCall(b, c, b')
    ensures c < |b'.calls|
  {}

  lemma CallBounds(b: Bus, c: nat)
    requires c < |b.calls| && CallOk(b, b.calls[c])
    ensures b.calls[c].at <= |b.calls[c].events| && b.calls[c].sub <= b.calls[c].width
  {}

  lemma PublishNeverStuck(b: Bus, c: nat)
    requires Reachable(b) && c < |b.calls| && b.calls[c].active
    ensures exists actions, b' :: Steps(b, actions, b') && OnlyCall(b, c, b') && !b'.calls[c].active
  {
    hide Reachable, Shape, Ledger, Delivered, OnlyCall, Steps;
    ReachableInv(b);
    var actions, b' := PublishReturns(b, c);
    OnlyCallSize(b, c, b');
  }

  /** When Wait returns, everything accepted has been handled and no call is between counting and sending. */
  lemma WaitMeansDrained(b: Bus)
    requires Reachable(b)
    ensures b.inflight == 0 <==>
      && (forall j :: 0 <= j < |b.subs| ==> b.subs[j].handled == b.subs[j].accepted)
      && (forall c :: 0 <= c < |b.calls| ==> !b.calls[c].counted)
  {
    hide Reachable;
    ReachableInv(b);
    forall j | 0 <= j < |b.subs| ensures b.subs[j].handled == b.subs[j].accepted <==> Load(b.subs[j]) == 0 {
      assert SubOk(b.subs[j]);
      assert |b.subs[j].accepted| == |b.subs[j].handled| + Load(b.subs[j]);
    }
    NoLoad(b.subs);
    NoSends(b.calls);
  }

  lemma {:induction false} NoLoad(subs: seq<Subscription>)
    ensures TotalLoad(subs) == 0 <==> forall j :: 0 <= j < |subs| ==> Load(subs[j]) == 0
  {
    hide Load;
    if subs != [] { NoLoad(subs[..|subs| - 1]); }
  }

  lemma {:induction false} NoSends(calls: seq<Call>)
    ensures PendingSends(calls) == 0 <==> forall c :: 0 <= c < |calls| ==> !calls[c].counted
  {
    if calls != [] { NoSends(calls[..|calls| - 1]); }
  }

  /**
   From any reachable state, workers alone can finish everything already accepted, closed or not;
   so events enqueued before Close are still handled after it.
   */
  lemma {:induction false} WorkersDrain(b: Bus) returns (actions: seq<Action>, b': Bus)
    requires Shape(b)
    ensures Steps(b, actions, b') && b'.calls == b.calls && b'.closed == b.closed && |b'.subs| == |b.subs|
    ensures forall i :: 0 <= i < |actions| ==> actions[i].Take? || actions[i].Done?
    ensures forall j :: 0 <= j < |b.subs| ==>
      b'.subs[j].accepted == b.subs[j].accepted && b'.subs[j].handled == b.subs[j].accepted
    decreases Remaining(b)
  {
    hide Shape;
    if j: nat :| j < |b.subs| && b.subs[j].busy.Some? {
      actions, b' := DrainVia(b, Done(j), j);
    } else if j: nat :| j < |b.subs| && b.subs[j].queue != [] {
      actions, b' := DrainVia(b, Take(j), j);
    } else {
      actions, b' := [], b;
      forall j | 0 <= j < |b.subs| ensures b.subs[j].handled == b.subs[j].accepted { IdleDrained(b, j); }
    }
  }

  /** What the workers still have to do: two steps for each queued delivery, one for each in hand. */
  function Remaining(b: Bus): nat {
    2 * QueuedTotal(b.subs) + BusyTotal(b.subs)
  }

  lemma WorkShrinks(b: Bus, a: Action)
    requires Enabled(b, a) && (a.Take? || a.Done?)
    ensures Remaining(Effect(b, a)) == Remaining(b) - 1
    ensures var b' := Effect(b, a);
      && b'.calls == b.calls && |b'.subs| == |b.subs|
      && forall j :: 0 <= j < |b.subs| ==> b'.subs[j].accepted == b.subs[j].accepted
  {
    hide QueuedTotal, BusyTotal;
    TotalsUpdate(b.subs, a.worker, Effect(b, a).subs[a.worker]);
  }

  /**
   Workers cannot help draining: every run of worker steps uses up the work there is, one step at a time, so it
   ends; and wherever no worker can move, everything accepted has been handled.
   */
  lemma {:induction false} WorkersAlwaysDrain(b: Bus, actions: seq<Action>, b': Bus)
    requires Shape(b) && Steps(b, actions, b')
    requires forall i :: 0 <= i < |actions| ==> actions[i].Take? || actions[i].Done?
    ensures |actions| + Remaining(b') == Remaining(b) && |b'.subs| == |b.subs|
    ensures (forall j :: !Enabled(b', Take(j)) && !Enabled(b', Done(j))) ==>
      forall j :: 0 <= j < |b.subs| ==> b'.subs[j].handled == b'.subs[j].accepted == b.subs[j].accepted
    decreases |actions|
  {
    hide Shape, Effect, Remaining;
    if actions == [] {
      if forall j :: !Enabled(b, Take(j)) && !Enabled(b, Done(j)) {
        forall j | 0 <= j < |b.subs| ensures b.subs[j].handled == b.subs[j].accepted {
          assert !Enabled(b, Take(j)) && !Enabled(b, Done(j));
          IdleDrained(b, j);
        }
      }
    } else {
      WorkShrinks(b, actions[0]);
      ShapeKept(b, actions[0]);
      WorkersAlwaysDrain(Effect(b, actions[0]), actions[1..], b');
    }
  }

  lemma IdleDrained(b: Bus, j: nat)
    requires Shape(b) && j < |b.subs| && b.subs[j].busy == None && b.subs[j].queue == []
    ensures b.subs[j].handled == b.subs[j].accepted
  {
    assert SubOk(b.subs[j]);
  }

  lemma DrainVia(b: Bus, a: Action, j: nat) returns (actions: seq<Action>, b': Bus)
    requires Shape(b) && Enabled(b, a) && (a == Done(j) || a == Take(j)) && j < |b.subs|
    ensures Steps(b, actions, b') && b'.calls == b.calls && b'.closed == b.closed && |b'.subs| == |b.subs|
    ensures forall i :: 0 <= i < |actions| ==> actions[i].Take? || actions[i].Done?
    ensures forall i :: 0 <= i < |b.subs| ==>
      b'.subs[i].accepted == b.subs[i].accepted && b'.subs[i].handled == b.subs[i].accepted
    decreases Remaining(b), 0
  {
    hide Shape, Remaining;
    var m := Effect(b, a);
    ShapeKept(b, a);
    WorkShrinks(b, a);
    var rest;
    rest, b' := WorkersDrain(m);
    actions := [a] + rest;
    assert actions[1..] == rest;
  }

  function QueuedTotal(subs: seq<Subscription>): nat {
    if subs == [] then 0 else QueuedTotal(subs[..|subs| - 1]) + |subs[|subs| - 1].queue|
  }

  function BusyTotal(subs: seq<Subscription>): nat {
    if subs == [] then 0 else BusyTotal(subs[..|subs| - 1]) + |subs[|subs| - 1].InHand()|
  }

  lemma {:induction false} TotalsUpdate(subs: seq<Subscription>, j: nat, s: Subscription)
    requires j < |subs|
    ensures QueuedTotal(subs[j := s]) == QueuedTotal(subs) - |subs[j].queue| + |s.queue|
    ensures BusyTotal(subs[j := s]) == BusyTotal(subs) - |subs[j].InHand()| + |s.InHand()|
  {
    var last := |subs| - 1;
    if j < last {
      assert subs[j := s][..last] == subs[..last][j := s];
      TotalsUpdate(subs[..last], j, s);
    } else {
      assert subs[j := s][..last] == subs[..last];
    }
  }
}
