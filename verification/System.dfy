/**
 Write side, bus and projection together. The position projection is the bus's first subscriber and
 takes every event. Handing events to the publisher starts a Publish call on the bus, and the client
 goes on when that call has returned.
 */
module System {
  import opened Wrappers
  import opened Int64
  import opened Orders
  import opened ReadModel
  import opened Ledger
  import D = Desk
  import B = EventBus

  /** calling holds the number of the latest Publish call of each client that has made one. */
  datatype System = System(desk: D.Desk, bus: B.Bus, view: View, calling: map<nat, nat>)

  datatype Action =
    | DeskStep(d: D.Action)
    | PublishFrom(c: nat)
    | BusStep(b: B.Action)
    | ProjectNext            // the projection's worker handles the event it holds

  /** The client is not inside a Publish call. */
  predicate Free(s: System, c: nat) {
    c in s.calling && s.calling[c] < |s.bus.calls| ==> !s.bus.calls[s.calling[c]].active
  }

  predicate Enabled(s: System, a: Action) {
    match a
    case DeskStep(d) => !d.Hand? && D.Enabled(s.desk, d) && Free(s, d.c)
    case PublishFrom(c) => D.Enabled(s.desk, D.Hand(c)) && Free(s, c)
    case BusStep(b) => !b.Publish? && b != B.Done(0) && B.Enabled(s.bus, b)
    case ProjectNext => B.Enabled(s.bus, B.Done(0))
  }

  function Effect(s: System, a: Action): System
    requires Enabled(s, a)
  {
    match a
    case DeskStep(d) => s.(desk := D.Effect(s.desk, d))
    case PublishFrom(c) =>
      s.(desk := D.Effect(s.desk, D.Hand(c)), bus := B.Effect(s.bus, B.Publish(s.desk.clients[c].events)),
         calling := s.calling[c := |s.bus.calls|])
    case BusStep(b) => s.(bus := B.Effect(s.bus, b))
    case ProjectNext =>
      s.(bus := B.Effect(s.bus, B.Done(0)), view := Projected(s.view, s.bus.subs[0].busy.value.event))
  }

  /** A bus on which only the projection has subscribed. */
  function InitialBus(): B.Bus {
    B.Effect(B.EMPTY_BUS, B.Subscribe(""))
  }

  ghost predicate Start(s: System) {
    D.Start(s.desk) && s.bus == InitialBus() && s.view == EMPTY_VIEW && s.calling == map[]
  }

  ghost predicate Steps(s: System, actions: seq<Action>, s': System)
    decreases |actions|
  {
    if actions == [] then s == s'
    else Enabled(s, actions[0]) && Steps(Effect(s, actions[0]), actions[1..], s')
  }

  ghost predicate Reachable(s: System) {
    exists s0, actions :: Start(s0) && Steps(s0, actions, s)
  }

  // ---------------------------------------------------------------- how the parts are linked

  function Events(ds: seq<B.Delivery>): seq<Event> {
    if ds == [] then [] else Events(ds[..|ds| - 1]) + [ds[|ds| - 1].event]
  }

  /** Everything ever given to Publish, call after call. */
  function Submitted(calls: seq<B.Call>): seq<Event> {
    if calls == [] then [] else Submitted(calls[..|calls| - 1]) + calls[|calls| - 1].events
  }

  ghost predicate Linked(s: System) {
    && s.desk.handed == Submitted(s.bus.calls)
    && |s.bus.subs| >= 1 && s.bus.subs[0].name == ""
    && s.view == ProjectAll(Events(s.bus.subs[0].handled))
    && (forall c :: 0 <= c < |s.bus.calls| ==> s.bus.calls[c].width >= 1)
    && (forall c :: 0 <= c < |s.bus.calls| && s.bus.calls[c].refused ==> s.bus.closed)
    && (forall c :: c in s.calling ==> s.calling[c] < |s.bus.calls|)
  }

  ghost predicate Inv(s: System) {
    D.Inv(s.desk) && B.Inv(s.bus) && Truthful(s.desk) && Linked(s)
  }

  lemma SubmittedAppend(calls: seq<B.Call>, k: B.Call)
    ensures Submitted(calls + [k]) == Submitted(calls) + k.events
  {
    assert (calls + [k])[..|calls|] == calls;
  }

  lemma {:induction false} SubmittedUpdate(calls: seq<B.Call>, c: nat, k: B.Call)
    requires c < |calls| && k.events == calls[c].events
    ensures Submitted(calls[c := k]) == Submitted(calls)
  {
    var last := |calls| - 1;
    if c < last {
      assert calls[c := k][..last] == calls[..last][c := k];
      SubmittedUpdate(calls[..last], c, k);
    } else {
      assert calls[c := k][..last] == calls[..last];
    }
  }

  lemma EventsAppend(ds: seq<B.Delivery>, d: B.Delivery)
    ensures Events(ds + [d]) == Events(ds) + [d.event]
  {
    assert (ds + [d])[..|ds|] == ds;
  }

  lemma ProjectAppend(es: seq<Event>, e: Event)
    ensures ProjectAll(es + [e]) == Projected(ProjectAll(es), e)
  {
    assert (es + [e])[..|es|] == es;
  }

  /** Bus steps other than Publish and the projection's own Done leave the link untouched. */
  lemma BusStepLinked(s: System, b: B.Action)
    requires Linked(s) && Enabled(s, BusStep(b))
    ensures Linked(Effect(s, BusStep(b)))
  {
    hide ProjectAll, Events, Submitted;
    var bus, bus' := s.bus, B.Effect(s.bus, b);
    if b.Skip? || b.Count? || b.Send? || b.NextEvent? || b.Return? {
      SubmittedUpdate(bus.calls, b.call, bus'.calls[b.call]);
    }
  }

  lemma PublishLinked(s: System, c: nat)
    requires Linked(s) && Enabled(s, PublishFrom(c))
    ensures Linked(Effect(s, PublishFrom(c)))
  {
    hide ProjectAll, Events, Submitted;
    SubmittedAppend(s.bus.calls, B.Begun(s.bus, s.desk.clients[c].events));
  }

  lemma ProjectLinked(s: System)
    requires Linked(s) && Enabled(s, ProjectNext)
    ensures Linked(Effect(s, ProjectNext))
  {
    hide ProjectAll, Events, Submitted, Projected;
    var sub := s.bus.subs[0];
    EventsAppend(sub.handled, sub.busy.value);
    ProjectAppend(Events(sub.handled), sub.busy.value.event);
  }

  lemma DeskStepLinked(s: System, d: D.Action)
    requires Linked(s) && Enabled(s, DeskStep(d))
    ensures Linked(Effect(s, DeskStep(d)))
  {
    hide ProjectAll, Events, Submitted, Apply, IsOpening, D.Decided;
  }

  lemma BusInvKept(b: B.Bus, a: B.Action)
    requires B.Inv(b) && B.Enabled(b, a)
    ensures B.Inv(B.Effect(b, a))
  {
    hide B.Shape, B.Ledger, B.Delivered, B.Effect, B.Enabled;
    B.ShapeKept(b, a);
    B.LedgerKept(b, a);
    B.DeliveredKept(b, a);
  }

  lemma DeskKept(d: D.Desk, a: D.Action, lens: Lens)
    requires D.Inv(d) && D.Enabled(d, a) && Truthful(d) && Balanced(d, lens)
    ensures D.Inv(D.Effect(d, a)) && Truthful(D.Effect(d, a)) && Balanced(D.Effect(d, a), lens)
  {
    hide D.Inv, D.Enabled, D.Effect, Truthful, Balanced;
    D.StepKeeps(d, a);
    StepKeepsBooks(d, a, lens);
  }

  lemma StepKeeps(s: System, a: Action, lens: Lens)
    requires Inv(s) && Balanced(s.desk, lens) && Enabled(s, a)
    ensures Inv(Effect(s, a)) && Balanced(Effect(s, a).desk, lens)
  {
    hide D.Inv, D.Enabled, D.Effect, B.Inv, B.Enabled, B.Effect, Truthful, Balanced, Linked, Projected;
    match a {
      case DeskStep(d) =>
        DeskKept(s.desk, d, lens);
        DeskStepLinked(s, d);
      case PublishFrom(c) =>
        DeskKept(s.desk, D.Hand(c), lens);
        HandsOver(s.desk, c);
        PublishAlways(s.bus, s.desk.clients[c].events);
        BusInvKept(s.bus, B.Publish(s.desk.clients[c].events));
        PublishLinked(s, c);
      case BusStep(b) =>
        BusInvKept(s.bus, b);
        BusStepLinked(s, b);
      case ProjectNext =>
        BusInvKept(s.bus, B.Done(0));
        ProjectLinked(s);
    }
  }

  lemma HandsOver(d: D.Desk, c: nat)
    requires D.Enabled(d, D.Hand(c))
    ensures c < |d.clients| && d.clients[c].Outbox?
  {}

  lemma PublishAlways(b: B.Bus, events: seq<Event>)
    ensures B.Enabled(b, B.Publish(events))
  {}

  lemma {:induction false} StepsKeep(s: System, actions: seq<Action>, s': System, lens: Lens)
    requires Inv(s) && Balanced(s.desk, lens) && Steps(s, actions, s')
    ensures Inv(s') && Balanced(s'.desk, lens)
    decreases |actions|
  {
    hide Inv, Balanced, Effect, Enabled;
    if actions != [] {
      StepKeeps(s, actions[0], lens);
      StepsKeep(Effect(s, actions[0]), actions[1..], s', lens);
    }
  }

  lemma InitialBusInv()
    ensures B.Inv(InitialBus())
  {
    BusInvKept(B.EMPTY_BUS, B.Subscribe(""));
  }

  lemma StartDesk(d: D.Desk)
    requires D.Start(d)
    ensures D.Inv(d) && d.handed == []
  {}

  lemma StartInv(s: System, lens: Lens)
    requires Start(s)
    ensures Inv(s) && Balanced(s.desk, lens)
  {
    hide D.Inv, B.Inv, Truthful, Balanced, D.Start;
    InitialBusInv();
    StartDesk(s.desk);
    StartBooks(s.desk, lens);
    assert Events([]) == [] && ProjectAll([]) == EMPTY_VIEW;
  }

  lemma ReachableInv(s: System, lens: Lens)
    requires Reachable(s)
    ensures Inv(s) && Balanced(s.desk, lens)
  {
    hide Inv, Balanced, Start, Steps;
    var s0, actions :| Start(s0) && Steps(s0, actions, s);
    StartInv(s0, lens);
    StepsKeep(s0, actions, s, lens);
  }

  /** A run of the system is a run of its bus. */
  lemma {:induction false} BusRun(s: System, actions: seq<Action>, s': System) returns (bs: seq<B.Action>)
    requires Steps(s, actions, s')
    ensures B.Steps(s.bus, bs, s'.bus)
    decreases |actions|
  {
    hide B.Enabled, B.Effect, D.Enabled, D.Effect, Projected;
    if actions == [] {
      bs := [];
    } else {
      var a := actions[0];
      var rest := BusRun(Effect(s, a), actions[1..], s');
      match a {
        case DeskStep(_) => bs := rest;
        case PublishFrom(c) =>
          HandsOver(s.desk, c);
          PublishAlways(s.bus, s.desk.clients[c].events);
          bs := [B.Publish(s.desk.clients[c].events)] + rest;
          assert bs[1..] == rest;
        case BusStep(b) =>
          bs := [b] + rest;
          assert bs[1..] == rest;
        case ProjectNext =>
          bs := [B.Done(0)] + rest;
          assert bs[1..] == rest;
      }
    }
  }

  lemma BusReachable(s: System)
    requires Reachable(s)
    ensures B.Reachable(s.bus)
  {
    hide D.Start, B.Effect, Steps;
    var s0, actions :| Start(s0) && Steps(s0, actions, s);
    var bs := BusRun(s0, actions, s);
    var all := [B.Subscribe("")] + bs;
    assert all[1..] == bs;
    assert B.Steps(B.EMPTY_BUS, all, s.bus);
  }

  /**
   Each client's events reach every subscriber in the order of its commands: when a client is about to publish
   again, whatever this and later calls will send lies behind everything its previous call sent.
   */
  lemma ClientsInOrder(s: System, c: nat, actions: seq<Action>, s': System, j: nat)
    requires Reachable(s) && Enabled(s, PublishFrom(c)) && c in s.calling && Steps(s, actions, s') && j < |s.bus.subs|
    ensures j < |s'.bus.subs| && s.bus.subs[j].accepted <= s'.bus.subs[j].accepted
    ensures var ds := s'.bus.subs[j].accepted;
      var last, next := s.calling[c], |s.bus.calls|;
      forall x, y :: 0 <= x < |ds| && 0 <= y < |ds| && ds[x].call == last && ds[y].call >= next ==> x < y
  {
    hide Reachable, Steps, B.Steps, B.Reachable, D.Inv, B.Inv, Truthful, Balanced, Events, ProjectAll, Submitted,
      D.Enabled;
    ReachableInv(s, Lens("", "", NetQuantity));
    BusReachable(s);
    var bs := BusRun(s, actions, s');
    B.CallsInOrder(s.bus, s.calling[c], bs, s'.bus, j);
  }

  // ---------------------------------------------------------------- accounting for every event

  /** How many of a call's events are already on the projection's queue. */
  function Sent(k: B.Call): nat {
    if k.refused then 0 else if 0 < k.sub && k.at < |k.events| then k.at + 1 else k.at
  }

  function SentTotal(metas: Registry, lens: Lens, calls: seq<B.Call>): int
    requires forall c :: 0 <= c < |calls| ==> Sent(calls[c]) <= |calls[c].events|
  {
    if calls == [] then 0
    else
      var k := calls[|calls| - 1];
      SentTotal(metas, lens, calls[..|calls| - 1]) + Total(metas, lens, k.events[..Sent(k)])
  }

  /** Fills in Publish calls that have not reached the projection's queue yet. */
  function InCalls(metas: Registry, lens: Lens, calls: seq<B.Call>): int
    requires forall c :: 0 <= c < |calls| ==> Sent(calls[c]) <= |calls[c].events|
  {
    if calls == [] then 0
    else
      var k := calls[|calls| - 1];
      InCalls(metas, lens, calls[..|calls| - 1])
      + if k.refused then 0 else Total(metas, lens, k.events[Sent(k)..])
  }

  /** Fills given to Publish after the bus was closed, which it ignores. */
  function Dropped(metas: Registry, lens: Lens, calls: seq<B.Call>): int {
    if calls == [] then 0
    else
      var k := calls[|calls| - 1];
      Dropped(metas, lens, calls[..|calls| - 1])
      + if k.refused then Total(metas, lens, k.events) else 0
  }

  lemma {:induction false} SubmittedTotal(metas: Registry, lens: Lens, calls: seq<B.Call>)
    requires forall c :: 0 <= c < |calls| ==> Sent(calls[c]) <= |calls[c].events|
    ensures Total(metas, lens, Submitted(calls)) ==
      SentTotal(metas, lens, calls) + InCalls(metas, lens, calls) + Dropped(metas, lens, calls)
  {
    hide Total;
    NothingTotals(metas, lens);
    if calls != [] {
      var k := calls[|calls| - 1];
      SubmittedTotal(metas, lens, calls[..|calls| - 1]);
      TotalConcat(metas, lens, Submitted(calls[..|calls| - 1]), k.events);
      assert k.events == k.events[..Sent(k)] + k.events[Sent(k)..];
      TotalConcat(metas, lens, k.events[..Sent(k)], k.events[Sent(k)..]);
    }
  }

  /** Weight of a subscriber's deliveries, sorted by the first n calls. */
  function ByCall(metas: Registry, lens: Lens, ds: seq<B.Delivery>, n: nat): int {
    if n == 0 then 0
    else
      ByCall(metas, lens, ds, n - 1) + Total(metas, lens, Events(B.FromCall(ds, n - 1)))
  }

  lemma {:induction false} ByCallAppend(metas: Registry, lens: Lens, ds: seq<B.Delivery>, d: B.Delivery, n: nat)
    ensures ByCall(metas, lens, ds + [d], n) ==
      ByCall(metas, lens, ds, n) + if d.call < n then Weight(metas, lens, d.event) else 0
  {
    hide Total, Weight, Events, B.FromCall;
    if n > 0 {
      ByCallAppend(metas, lens, ds, d, n - 1);
      B.FromCallAppend(ds, d, n - 1);
      var from := B.FromCall(ds, n - 1);
      if d.call == n - 1 {
        EventsAppend(from, d);
        TotalConcat(metas, lens, Events(from), [d.event]);
        SingleTotal(metas, lens, d.event);
      } else {
        assert from + [] == from;
      }
    }
  }

  lemma {:induction false} ByCallNothing(metas: Registry, lens: Lens, n: nat)
    ensures ByCall(metas, lens, [], n) == 0
  {
    if n > 0 {
      ByCallNothing(metas, lens, n - 1);
      assert B.FromCall([], n - 1) == [] && Events([]) == [];
    }
  }

  /** Sorting deliveries by the call they came from loses none. */
  lemma {:induction false} ByCallTotal(metas: Registry, lens: Lens, ds: seq<B.Delivery>, n: nat)
    requires forall i :: 0 <= i < |ds| ==> ds[i].call < n
    ensures Total(metas, lens, Events(ds)) == ByCall(metas, lens, ds, n)
  {
    hide Weight, B.FromCall, ByCall;
    if ds == [] {
      ByCallNothing(metas, lens, n);
    } else {
      var before, d := ds[..|ds| - 1], ds[|ds| - 1];
      ByCallTotal(metas, lens, before, n);
      assert ds == before + [d];
      ByCallAppend(metas, lens, before, d, n);
      var es := Events(ds);
      assert es[..|es| - 1] == Events(before);
    }
  }

  /** A wildcard subscriber wants every event. */
  lemma {:induction false} WildcardWants(s: B.Subscription, call: nat, events: seq<Event>, n: nat)
    requires s.name == "" && n <= |events|
    ensures Events(B.Wanted(s, call, events, n)) == events[..n]
  {
    hide Events;
    if n == 0 {
      NoEvents();
    } else {
      WildcardWants(s, call, events, n - 1);
      EventsAppend(B.Wanted(s, call, events, n - 1), B.Delivery(call, n - 1, events[n - 1]));
      assert events[..n] == events[..n - 1] + [events[n - 1]];
    }
  }

  lemma NoEvents()
    ensures Events([]) == []
  {}

  lemma CallSent(s: System, c: nat)
    requires Inv(s) && c < |s.bus.calls|
    ensures var k := s.bus.calls[c];
      Sent(k) <= |k.events| && Events(B.FromCall(s.bus.subs[0].accepted, c)) == k.events[..Sent(k)]
  {
    hide B.Wanted, B.FromCall, Events, Submitted, ProjectAll, D.Inv, Truthful;
    var k, sub := s.bus.calls[c], s.bus.subs[0];
    assert B.CallOk(s.bus, k) && B.DeliveredTo(sub, 0, c, k);
    WildcardWants(sub, c, k.events, Sent(k));
    NoEvents();
  }

  lemma SentAll(s: System)
    requires Inv(s)
    ensures forall c :: 0 <= c < |s.bus.calls| ==> Sent(s.bus.calls[c]) <= |s.bus.calls[c].events|
  {
    hide Inv, Sent;
    forall c | 0 <= c < |s.bus.calls| ensures Sent(s.bus.calls[c]) <= |s.bus.calls[c].events| { CallSent(s, c); }
  }

  lemma {:induction false} ByCallIsSent(s: System, lens: Lens, n: nat)
    requires Inv(s) && n <= |s.bus.calls|
    requires forall c :: 0 <= c < |s.bus.calls| ==> Sent(s.bus.calls[c]) <= |s.bus.calls[c].events|
    ensures var metas := Metas(s.desk.store);
      ByCall(metas, lens, s.bus.subs[0].accepted, n) == SentTotal(metas, lens, s.bus.calls[..n])
  {
    hide Inv, Sent, Total, Events, B.FromCall, Metas, Submitted, ProjectAll;
    SubsThere(s);
    if n > 0 {
      ByCallIsSent(s, lens, n - 1);
      CallSent(s, n - 1);
      assert s.bus.calls[..n][..n - 1] == s.bus.calls[..n - 1];
    }
  }

  lemma SubsThere(s: System)
    requires Inv(s)
    ensures |s.bus.subs| >= 1 && s.bus.subs[0].name == ""
    ensures forall i :: 0 <= i < |s.bus.subs[0].accepted| ==> s.bus.subs[0].accepted[i].call < |s.bus.calls|
    ensures var sub := s.bus.subs[0]; sub.accepted == sub.handled + sub.InHand() + sub.queue
    ensures s.view == ProjectAll(Events(s.bus.subs[0].handled)) && s.desk.handed == Submitted(s.bus.calls)
    ensures forall c :: 0 <= c < |s.bus.calls| && s.bus.calls[c].refused ==> s.bus.closed
  {
    hide D.Inv, Truthful, Events, ProjectAll, Submitted;
    assert B.SubOk(s.bus.subs[0]);
  }

  lemma {:induction false} EventsConcat(xs: seq<B.Delivery>, ys: seq<B.Delivery>)
    ensures Events(xs + ys) == Events(xs) + Events(ys)
  {
    if ys == [] {
      assert xs + ys == xs;
    } else {
      EventsConcat(xs, ys[..|ys| - 1]);
      assert (xs + ys)[..|xs + ys| - 1] == xs + ys[..|ys| - 1];
    }
  }

  /** Events the projection has been sent but not finished. */
  function Unprojected(s: System): seq<Event>
    requires |s.bus.subs| >= 1
  {
    Events(s.bus.subs[0].InHand() + s.bus.subs[0].queue)
  }

  /**
   Every stored share is in exactly one place: projected, on its way to the projection, in a Publish
   call, ignored by a closed bus, or committed but not yet published. It holds for every account and
   symbol at every point of every interleaving.
   */
  lemma Conservation(s: System, lens: Lens)
    requires Reachable(s)
    ensures |s.bus.subs| >= 1
    ensures forall c :: 0 <= c < |s.bus.calls| ==> Sent(s.bus.calls[c]) <= |s.bus.calls[c].events|
    ensures var metas := Metas(s.desk.store);
      Committed(s.desk.lives, lens) ==
          Total(metas, lens, Events(s.bus.subs[0].handled))
        + Total(metas, lens, Unprojected(s))
        + InCalls(metas, lens, s.bus.calls)
        + Dropped(metas, lens, s.bus.calls)
        + Waiting(metas, lens, s.desk.clients)
  {
    hide Reachable, Inv, Sent, Total, Events, Submitted, SentTotal, InCalls, Dropped, Waiting, Committed, Metas,
      ByCall, ProjectAll;
    ReachableInv(s, lens);
    SubsThere(s);
    SentAll(s);
    var metas := Metas(s.desk.store);
    var sub := s.bus.subs[0];
    SubmittedTotal(metas, lens, s.bus.calls);
    ByCallTotal(metas, lens, sub.accepted, |s.bus.calls|);
    ByCallIsSent(s, lens, |s.bus.calls|);
    assert s.bus.calls[..|s.bus.calls|] == s.bus.calls;
    assert sub.accepted == sub.handled + (sub.InHand() + sub.queue);
    EventsConcat(sub.handled, sub.InHand() + sub.queue);
    TotalConcat(metas, lens, Events(sub.handled), Unprojected(s));
  }

  // ---------------------------------------------------------------- what the projection shows

  /** Fills that reached the projection before their order was announced; it drops them. */
  function Orphans(metas: Registry, lens: Lens, es: seq<Event>): int {
    if es == [] then 0
    else
      var before, e := es[..|es| - 1], es[|es| - 1];
      Orphans(metas, lens, before)
      + if e.IsFill() && MetaIn(before, e.orderID) == None then Weight(metas, lens, e) else 0
  }

  lemma {:induction false} MetaAgrees(metas: Registry, es: seq<Event>, id: string)
    requires EventsOk(metas, es)
    ensures MetaIn(es, id).Some? ==> id in metas && MetaIn(es, id).value == metas[id]
  {
    hide FixedPoint.MulQuantity;
    if es != [] {
      assert EventOk(metas, es[|es| - 1]);
      MetaAgrees(metas, es[..|es| - 1], id);
    }
  }

  /** What trades amount to. */
  function TradeSum(m: Measure, ts: seq<Trade>): int {
    if ts == [] then 0
    else TradeSum(m, ts[..|ts| - 1]) + Measured(m, ts[|ts| - 1].side, ts[|ts| - 1].qty, ts[|ts| - 1].px)
  }

  lemma TradeSumAppend(m: Measure, ts: seq<Trade>, t: Trade)
    ensures TradeSum(m, ts + [t]) == TradeSum(m, ts) + Measured(m, t.side, t.qty, t.px)
  {
    assert (ts + [t])[..|ts|] == ts;
  }

  lemma {:induction false} TradeSumIsNet(ts: seq<Trade>)
    ensures TradeSum(NetQuantity, ts) == Net(ts)
  {
    if ts != [] { TradeSumIsNet(ts[..|ts| - 1]); }
  }

  /** When no notional overflows, volume and cost leave nothing out. */
  lemma {:induction false} TradeSumIsAll(ts: seq<Trade>)
    requires forall i :: 0 <= i < |ts| ==> Priced(ts[i])
    ensures TradeSum(Quantity, ts) == Volume(ts) && TradeSum(Cost, ts) == TrueCost(ts)
  {
    hide FixedPoint.MulQuantity;
    if ts != [] { TradeSumIsAll(ts[..|ts| - 1]); }
  }

  /** Attributed trades and orphans together are all the fills that arrived. */
  lemma {:induction false} TradesAndOrphans(metas: Registry, lens: Lens, es: seq<Event>)
    requires EventsOk(metas, es)
    ensures Total(metas, lens, es) ==
      TradeSum(lens.measure, Trades(es, lens.account, lens.symbol)) + Orphans(metas, lens, es)
  {
    hide MetaIn, TradeSum, EventOk, Measured;
    if es == [] {
      NothingTraded(lens.measure);
    } else {
      var before, e := es[..|es| - 1], es[|es| - 1];
      TradesAndOrphans(metas, lens, before);
      if e.IsFill() {
        MetaAgrees(metas, before, e.orderID);
        var m := MetaIn(before, e.orderID);
        if m.Some? {
          var t := Trade(m.value.side, e.fillQty, e.fillPrice);
          TradeSumAppend(lens.measure, Trades(before, lens.account, lens.symbol), t);
        }
      }
    }
  }

  lemma NothingTraded(m: Measure)
    ensures TradeSum(m, []) == 0
  {}

  /** What the projection has been given is truthful about stored orders. */
  lemma AcceptedOk(s: System)
    requires Inv(s)
    ensures |s.bus.subs| >= 1 && EventsOk(Metas(s.desk.store), Events(s.bus.subs[0].accepted))
  {
    hide Inv, EventOk, Sent, Metas, ProjectAll, Events, Submitted;
    SubsThere(s);
    var metas, ds := Metas(s.desk.store), s.bus.subs[0].accepted;
    SubmittedOk(s);
    EventsLength(ds);
    forall i | 0 <= i < |ds| ensures EventOk(metas, Events(ds)[i]) {
      EventsAt(ds, i);
      DeliveryOk(s, metas, ds[i], i);
    }
  }

  lemma SubmittedOk(s: System)
    requires Inv(s)
    ensures EventsOk(Metas(s.desk.store), Submitted(s.bus.calls))
  {
    hide D.Inv, B.Inv, EventsOk, Submitted, ProjectAll, Events;
  }

  lemma {:induction false} EventsLength(ds: seq<B.Delivery>)
    ensures |Events(ds)| == |ds|
  {
    if ds != [] { EventsLength(ds[..|ds| - 1]); }
  }

  lemma {:induction false} EventsAt(ds: seq<B.Delivery>, i: nat)
    requires i < |ds|
    ensures |Events(ds)| == |ds| && Events(ds)[i] == ds[i].event
  {
    EventsLength(ds);
    EventsLength(ds[..|ds| - 1]);
    if i < |ds| - 1 { EventsAt(ds[..|ds| - 1], i); }
  }

  lemma DeliveryOk(s: System, metas: Registry, d: B.Delivery, i: nat)
    requires Inv(s) && |s.bus.subs| >= 1 && i < |s.bus.subs[0].accepted| && d == s.bus.subs[0].accepted[i]
    requires d.call < |s.bus.calls| && EventsOk(metas, Submitted(s.bus.calls))
    ensures EventOk(metas, d.event)
  {
    hide Inv, EventOk, Sent, Events, Submitted, B.FromCall;
    var from := B.FromCall(s.bus.subs[0].accepted, d.call);
    var x := B.FromCallPosition(s.bus.subs[0].accepted, d.call, i);
    CallSent(s, d.call);
    EventsAt(from, x);
    SubmittedHas(metas, s.bus.calls, d.call);
    assert d.event == s.bus.calls[d.call].events[x];
  }

  lemma {:induction false} SubmittedHas(metas: Registry, calls: seq<B.Call>, c: nat)
    requires c < |calls| && EventsOk(metas, Submitted(calls))
    ensures EventsOk(metas, calls[c].events)
  {
    hide EventOk;
    var before, last := Submitted(calls[..|calls| - 1]), calls[|calls| - 1].events;
    var all := Submitted(calls);
    assert all == before + last;
    if c == |calls| - 1 {
      forall i | 0 <= i < |last| ensures EventOk(metas, last[i]) { assert all[|before| + i] == last[i]; }
    } else {
      forall i | 0 <= i < |before| ensures EventOk(metas, before[i]) { assert all[i] == before[i]; }
      SubmittedHas(metas, calls[..|calls| - 1], c);
    }
  }

  lemma HandledOk(s: System)
    requires Inv(s)
    ensures |s.bus.subs| >= 1 && EventsOk(Metas(s.desk.store), Events(s.bus.subs[0].handled))
  {
    hide Inv, EventOk, Events, Metas, ProjectAll, Submitted;
    SubsThere(s);
    AcceptedOk(s);
    var sub := s.bus.subs[0];
    var metas := Metas(s.desk.store);
    assert sub.accepted == sub.handled + (sub.InHand() + sub.queue);
    EventsConcat(sub.handled, sub.InHand() + sub.queue);
    var all := Events(sub.accepted);
    forall i | 0 <= i < |Events(sub.handled)| ensures EventOk(metas, Events(sub.handled)[i]) {
      assert all[i] == Events(sub.handled)[i];
    }
  }

  /**
   The quantity on display is the stored one less whatever has not arrived and whatever arrived too
   early, modulo 2^64: one equation for every account, symbol and interleaving.
   */
  lemma DisplayedQuantity(s: System, account: string, symbol: string)
    requires Reachable(s)
    ensures |s.bus.subs| >= 1
    ensures forall c :: 0 <= c < |s.bus.calls| ==> Sent(s.bus.calls[c]) <= |s.bus.calls[c].events|
    ensures var metas, net := Metas(s.desk.store), Lens(account, symbol, NetQuantity);
      PositionAt(s.view, account, symbol).netQty == Wrap(
          StoredNet(s.desk.store, account, symbol)
        - Orphans(metas, net, Events(s.bus.subs[0].handled))
        - Total(metas, net, Unprojected(s))
        - InCalls(metas, net, s.bus.calls)
        - Dropped(metas, net, s.bus.calls)
        - Waiting(metas, net, s.desk.clients))
  {
    hide Reachable, Inv, Sent, Total, Events, InCalls, Dropped, Waiting, StoredNet, Metas, Trades, Net, Orphans,
      ProjectAll, Submitted, Wrap, PositionAt, Balanced, EventOk, Committed, TradeSum;
    var net := Lens(account, symbol, NetQuantity);
    Conservation(s, net);
    ReachableInv(s, net);
    StoredTotals(s, account, symbol);
    SubsThere(s);
    HandledOk(s);
    var es := Events(s.bus.subs[0].handled);
    TradesAndOrphans(Metas(s.desk.store), net, es);
    TradeSumIsNet(Trades(es, account, symbol));
    ProjectionExact(es, account, symbol);
  }

  lemma StoredTotals(s: System, account: string, symbol: string)
    requires Inv(s)
    ensures Committed(s.desk.lives, Lens(account, symbol, NetQuantity)) == StoredNet(s.desk.store, account, symbol)
    ensures Committed(s.desk.lives, Lens(account, symbol, Quantity)) == StoredQuantity(s.desk.store, account, symbol)
    ensures Committed(s.desk.lives, Lens(account, symbol, Cost)) == StoredCost(s.desk.lives, account, symbol)
  {
    hide D.Inv, Committed, StoredNet, StoredQuantity, StoredCost, B.Inv, Truthful, Linked;
    CommittedIsStored(s.desk, account, symbol);
  }

  /** Each fill comes after the announcement of its order, except perhaps the one at position x. */
  ghost predicate FirstExcept(es: seq<Event>, x: int) {
    forall i :: 0 <= i < |es| && i != x && es[i].IsFill() ==>
      exists j :: 0 <= j < i && es[j].OrderPlaced? && es[j].orderID == es[i].orderID
  }

  /** Each fill comes after the announcement of its order. */
  ghost predicate AnnouncedFirst(es: seq<Event>) {
    FirstExcept(es, -1)
  }

  lemma {:induction false} AnnouncedMeta(es: seq<Event>, j: nat)
    requires j < |es| && es[j].OrderPlaced?
    ensures MetaIn(es, es[j].orderID).Some?
  {
    if j < |es| - 1 { AnnouncedMeta(es[..|es| - 1], j); }
  }

  lemma {:induction false} NoOrphans(metas: Registry, lens: Lens, es: seq<Event>)
    requires AnnouncedFirst(es)
    ensures Orphans(metas, lens, es) == 0
  {
    hide MetaIn, Weight;
    if es != [] {
      var before, e := es[..|es| - 1], es[|es| - 1];
      assert AnnouncedFirst(before) by {
        forall i | 0 <= i < |before| && before[i].IsFill()
          ensures exists j :: 0 <= j < i && before[j].OrderPlaced? && before[j].orderID == before[i].orderID
        {
          var j :| 0 <= j < i && es[j].OrderPlaced? && es[j].orderID == es[i].orderID;
          assert before[j] == es[j];
        }
      }
      NoOrphans(metas, lens, before);
      if e.IsFill() {
        var j :| 0 <= j < |es| - 1 && es[j].OrderPlaced? && es[j].orderID == e.orderID;
        assert before[j] == es[j];
        AnnouncedMeta(before, j);
      }
    }
  }

  /** Nothing is on its way: no client owes events, no Publish call is unfinished, the projection's worker is idle. */
  ghost predicate Quiescent(s: System) {
    && |s.bus.subs| >= 1 && s.bus.subs[0].busy == None && s.bus.subs[0].queue == []
    && (forall c :: 0 <= c < |s.bus.calls| ==> !s.bus.calls[c].active)
    && (forall c :: 0 <= c < |s.desk.clients| ==> Outgoing(s.desk.clients[c]) == [])
  }

  lemma {:induction false} NobodyWaiting(metas: Registry, lens: Lens, clients: seq<D.Client>)
    requires forall c :: 0 <= c < |clients| ==> Outgoing(clients[c]) == []
    ensures Waiting(metas, lens, clients) == 0
  {
    NothingTotals(metas, lens);
    if clients != [] { NobodyWaiting(metas, lens, clients[..|clients| - 1]); }
  }

  lemma {:induction false} NothingInCalls(metas: Registry, lens: Lens, calls: seq<B.Call>)
    requires forall c :: 0 <= c < |calls| ==> !calls[c].refused && Sent(calls[c]) == |calls[c].events|
    ensures InCalls(metas, lens, calls) == 0 && Dropped(metas, lens, calls) == 0
  {
    hide Sent, Total;
    if calls != [] {
      var k := calls[|calls| - 1];
      NothingInCalls(metas, lens, calls[..|calls| - 1]);
      assert k.events[Sent(k)..] == [];
      NothingTotals(metas, lens);
    }
  }

  lemma CallsFinished(s: System)
    requires Inv(s) && !s.bus.closed && forall c :: 0 <= c < |s.bus.calls| ==> !s.bus.calls[c].active
    ensures forall c :: 0 <= c < |s.bus.calls| ==>
      !s.bus.calls[c].refused && Sent(s.bus.calls[c]) == |s.bus.calls[c].events|
  {
    hide D.Inv, Truthful, ProjectAll, Events, Submitted, B.Delivered, B.Ledger;
    forall c | 0 <= c < |s.bus.calls|
      ensures !s.bus.calls[c].refused && Sent(s.bus.calls[c]) == |s.bus.calls[c].events|
    {
      assert B.CallOk(s.bus, s.bus.calls[c]);
    }
  }

  /** On a drained and open bus, everything committed was traded on the display or arrived too early. */
  lemma DrainedTotals(s: System, lens: Lens)
    requires Reachable(s) && Quiescent(s) && !s.bus.closed
    ensures var es := Events(s.bus.subs[0].handled);
      Committed(s.desk.lives, lens)
        == TradeSum(lens.measure, Trades(es, lens.account, lens.symbol)) + Orphans(Metas(s.desk.store), lens, es)
  {
    hide Reachable, Inv, Sent, Total, InCalls, Dropped, Waiting, Committed, Metas, Orphans, ProjectAll, Events,
      Balanced, Outgoing, Trades, TradeSum, EventOk, Submitted;
    Conservation(s, lens);
    ReachableInv(s, lens);
    CallsFinished(s);
    HandledOk(s);
    var metas := Metas(s.desk.store);
    TradesAndOrphans(metas, lens, Events(s.bus.subs[0].handled));
    NobodyWaiting(metas, lens, s.desk.clients);
    NothingInCalls(metas, lens, s.bus.calls);
    assert s.bus.subs[0].InHand() + s.bus.subs[0].queue == [];
    NoEvents();
    NothingTotals(metas, lens);
  }

  /**
   Once everything is drained on an open bus, each position shows buys minus sells of the stored orders less
   the fills that arrived before their announcement, modulo 2^64; so with announcements first it
   shows exactly the stored quantity, whenever that fits.
   */
  lemma DrainedDisplay(s: System, account: string, symbol: string)
    requires Reachable(s) && Quiescent(s) && !s.bus.closed
    ensures var net := StoredNet(s.desk.store, account, symbol);
      var es := Events(s.bus.subs[0].handled);
      && PositionAt(s.view, account, symbol).netQty
           == Wrap(net - Orphans(Metas(s.desk.store), Lens(account, symbol, NetQuantity), es))
      && (AnnouncedFirst(es) ==> PositionAt(s.view, account, symbol).netQty == Wrap(net))
  {
    hide Reachable, Inv, Committed, StoredNet, Metas, Orphans, ProjectAll, PositionAt, AnnouncedFirst, Balanced, Wrap,
      Quiescent, Events, Trades, TradeSum, Net, Submitted;
    var net := Lens(account, symbol, NetQuantity);
    ReachableInv(s, net);
    StoredTotals(s, account, symbol);
    SubsThere(s);
    DrainedTotals(s, net);
    var es := Events(s.bus.subs[0].handled);
    TradeSumIsNet(Trades(es, account, symbol));
    ProjectionExact(es, account, symbol);
    if AnnouncedFirst(es) { NoOrphans(Metas(s.desk.store), net, es); }
  }

  // ---------------------------------------------------------------- average price

  lemma {:induction false} TradesPriced(metas: Registry, account: string, symbol: string, es: seq<Event>)
    requires EventsOk(metas, es)
    ensures forall i :: 0 <= i < |Trades(es, account, symbol)| ==>
      Priced(Trades(es, account, symbol)[i]) && Trades(es, account, symbol)[i].qty > 0
  {
    hide MetaIn, FixedPoint.MulQuantity;
    if es != [] {
      assert EventOk(metas, es[|es| - 1]);
      TradesPriced(metas, account, symbol, es[..|es| - 1]);
    }
  }

  /**
   The branch that leaves a notional out is never taken for fills the aggregate emitted, so the volume
   behind the average is the whole traded quantity, and the average's error bound applies to all of it.
   */
  lemma DisplayedAverage(s: System, account: string, symbol: string)
    requires Reachable(s)
    requires |s.bus.subs| >= 1
    requires var ts := Trades(Events(s.bus.subs[0].handled), account, symbol);
      && Fits(Notionals(ts)) && Fits(Volume(ts)) && Volume(ts) > 0
      && FixedPoint.DivByQuantity(Notionals(ts), Volume(ts)).Some?
    ensures var ts := Trades(Events(s.bus.subs[0].handled), account, symbol);
      var traded, p := TradeSum(Quantity, ts), PositionAt(s.view, account, symbol);
      && p.totalAbs == traded
      && 2 * Abs(AveragePrice(p) * traded - TradeSum(Cost, ts)) <= 1000 * |ts| + traded
  {
    hide Reachable, Inv, Trades, Events, Notionals, Volume, TrueCost, TradeSum, AveragePrice, PositionAt, ProjectAll,
      Metas, FixedPoint.DivByQuantity, Submitted;
    ReachableInv(s, Lens(account, symbol, NetQuantity));
    SubsThere(s);
    HandledOk(s);
    var es := Events(s.bus.subs[0].handled);
    TradesPriced(Metas(s.desk.store), account, symbol, es);
    TradeSumIsAll(Trades(es, account, symbol));
    ProjectionExact(es, account, symbol);
    AverageError(es, account, symbol);
  }

  /**
   Drained, open and with announcements first, the display speaks of the stored orders: its volume is their
   whole filled quantity, and its average, over that volume, is within half of 1000 per fill plus
   the volume of the exact cost of every fill ever committed to them.
   */
  lemma DrainedAverage(s: System, account: string, symbol: string)
    requires Reachable(s) && Quiescent(s) && !s.bus.closed && AnnouncedFirst(Events(s.bus.subs[0].handled))
    requires var ts := Trades(Events(s.bus.subs[0].handled), account, symbol);
      var quantity := StoredQuantity(s.desk.store, account, symbol);
      && Fits(Notionals(ts)) && Fits(quantity) && quantity > 0
      && FixedPoint.DivByQuantity(Notionals(ts), quantity).Some?
    ensures var ts := Trades(Events(s.bus.subs[0].handled), account, symbol);
      var quantity, p := StoredQuantity(s.desk.store, account, symbol), PositionAt(s.view, account, symbol);
      && p.totalAbs == quantity
      && 2 * Abs(AveragePrice(p) * quantity - StoredCost(s.desk.lives, account, symbol)) <= 1000 * |ts| + quantity
  {
    hide Reachable, Inv, Trades, Events, Notionals, Volume, TrueCost, TradeSum, AveragePrice, PositionAt, ProjectAll,
      Metas, FixedPoint.DivByQuantity, Submitted, StoredQuantity, StoredCost, StoredNet, Committed, Orphans,
      AnnouncedFirst, Quiescent;
    ReachableInv(s, Lens(account, symbol, Quantity));
    StoredTotals(s, account, symbol);
    SubsThere(s);
    HandledOk(s);
    var es, metas := Events(s.bus.subs[0].handled), Metas(s.desk.store);
    DrainedTotals(s, Lens(account, symbol, Quantity));
    DrainedTotals(s, Lens(account, symbol, Cost));
    NoOrphans(metas, Lens(account, symbol, Quantity), es);
    NoOrphans(metas, Lens(account, symbol, Cost), es);
    TradesPriced(metas, account, symbol, es);
    TradeSumIsAll(Trades(es, account, symbol));
    DisplayedAverage(s, account, symbol);
  }
}
