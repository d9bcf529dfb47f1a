/**
 Where the announcement of each order is, and what a caller can know of it: an order that was routed, or whose
 placement is over, has been announced to the projection, so filling only such orders is safe.
 */
module Tracing {
  import opened Int64
  import opened Orders
  import opened ReadModel
  import opened Ledger
  import opened System
  import opened Draining
  import opened Announcements
  import D = Desk
  import B = EventBus

  /** No placement of this order is still on its way to publishing it or inside that Publish call. */
  ghost predicate Settled(s: System, id: string) {
    && (forall c :: 0 <= c < |s.desk.clients| ==> !Announces(Outgoing(s.desk.clients[c]), id))
    && (forall n :: 0 <= n < |s.bus.calls| && s.bus.calls[n].active ==> !Announces(s.bus.calls[n].events, id))
  }

  ghost predicate InOutbox(s: System, id: string) {
    exists c :: 0 <= c < |s.desk.clients| && Announces(Outgoing(s.desk.clients[c]), id)
  }

  ghost predicate InCall(s: System, id: string) {
    exists n :: 0 <= n < |s.bus.calls| && Announces(s.bus.calls[n].events, id)
  }

  /** A client placing an order holds its announcement, or has handed it to its latest Publish call. */
  ghost predicate HoldsNews(s: System, c: nat)
    requires c < |s.desk.clients|
  {
    match s.desk.clients[c]
    case Keying(_, order, events) => Announces(events, order.id)
    case Outbox(order, events, placed) => placed ==> Announces(events, order.id)
    case Routing(order) =>
      c in s.calling && s.calling[c] < |s.bus.calls| && Announces(s.bus.calls[s.calling[c]].events, order.id)
    case _ => true
  }

  /** Where the announcement of every stored order is, and that whatever was routed has been announced. */
  ghost predicate Traced(s: System) {
    && |s.bus.subs| >= 1
    && (forall id :: id in s.desk.store ==> InOutbox(s, id) || InCall(s, id))
    && (forall c :: 0 <= c < |s.desk.clients| ==> HoldsNews(s, c))
    && (!s.bus.closed ==> forall id :: id in s.desk.routed ==> Announces(Arrived(s), id))
  }

  lemma {:induction false} FromCallSource(ds: seq<B.Delivery>, c: nat, x: nat) returns (i: nat)
    requires x < |B.FromCall(ds, c)|
    ensures i < |ds| && ds[i] == B.FromCall(ds, c)[x]
  {
    var before := ds[..|ds| - 1];
    if x < |B.FromCall(before, c)| { i := FromCallSource(before, c, x); } else { i := |ds| - 1; }
  }

  /** Everything in a call that returned on an open bus has arrived. */
  lemma ReturnedArrived(s: System, n: nat, id: string)
    requires Inv(s) && |s.bus.subs| >= 1 && !s.bus.closed && n < |s.bus.calls| && !s.bus.calls[n].active
    requires Announces(s.bus.calls[n].events, id)
    ensures Announces(Arrived(s), id)
  {
    hide Events, B.FromCall, B.Inv, D.Inv, Truthful, Submitted, ProjectAll;
    var k, ds := s.bus.calls[n], s.bus.subs[0].accepted;
    CallSent(s, n);
    AllSent(s, n);
    var j :| 0 <= j < |k.events| && k.events[j].OrderPlaced? && k.events[j].orderID == id;
    var from := B.FromCall(ds, n);
    EventsLength(from);
    var i := FromCallSource(ds, n, j);
    EventsAt(from, j);
    EventsAt(ds, i);
    assert Events(ds)[i] == k.events[j];
  }

  lemma AllSent(s: System, n: nat)
    requires Inv(s) && !s.bus.closed && n < |s.bus.calls| && !s.bus.calls[n].active
    ensures Sent(s.bus.calls[n]) == |s.bus.calls[n].events|
  {
    hide D.Inv, Truthful, Submitted, ProjectAll, Events, B.Delivered, B.Ledger;
    assert B.CallOk(s.bus, s.bus.calls[n]);
  }

  /** Once no placement of a stored order is under way, its announcement has arrived. */
  lemma SettledArrived(s: System, id: string)
    requires Inv(s) && Traced(s) && !s.bus.closed && id in s.desk.store && Settled(s, id)
    ensures Announces(Arrived(s), id)
  {
    hide Inv, Events, Announces, HoldsNews;
    assert InCall(s, id);
    var n :| 0 <= n < |s.bus.calls| && Announces(s.bus.calls[n].events, id);
    ReturnedArrived(s, n, id);
  }

  // ---- preservation

  lemma OutgoingKept(d: D.Desk, a: D.Action)
    requires D.Enabled(d, a) && !a.Hand?
    ensures |D.Effect(d, a).clients| == |d.clients|
    ensures forall c :: 0 <= c < |d.clients| ==>
      Outgoing(d.clients[c]) == [] || Outgoing(D.Effect(d, a).clients[c]) == Outgoing(d.clients[c])
  {
    D.OthersStand(d, a);
    OwnOutgoing(d, a);
    hide D.Effect, D.Enabled, Outgoing;
  }

  lemma OwnOutgoing(d: D.Desk, a: D.Action)
    requires D.Enabled(d, a) && !a.Hand?
    ensures a.c < |D.Effect(d, a).clients|
    ensures Outgoing(d.clients[a.c]) == [] || Outgoing(D.Effect(d, a).clients[a.c]) == Outgoing(d.clients[a.c])
  {
    hide D.Effect;
    D.OthersStand(d, a);
    if Still(a) { StillOutgoing(d, a); }
  }

  lemma NothingAnnounced(id: string)
    ensures !Announces([], id)
  {}

  lemma OutboxKept(s: System, a: D.Action, id: string)
    requires Enabled(s, DeskStep(a)) && InOutbox(s, id)
    ensures InOutbox(Effect(s, DeskStep(a)), id)
  {
    hide D.Enabled, D.Effect, Announces, Outgoing;
    OutgoingKept(s.desk, a);
    NothingAnnounced(id);
    var c :| 0 <= c < |s.desk.clients| && Announces(Outgoing(s.desk.clients[c]), id);
    assert Announces(Outgoing(Effect(s, DeskStep(a)).desk.clients[c]), id);
  }

  /** Only a save stores a new order, and it leaves the announcement with its client. */
  lemma NewsOfStored(d: D.Desk, a: D.Action, id: string)
    requires D.Inv(d) && D.Enabled(d, a) && !a.Hand? && id in D.Effect(d, a).store && id !in d.store
    ensures a.c < |D.Effect(d, a).clients| && Announces(Outgoing(D.Effect(d, a).clients[a.c]), id)
  {
    hide D.Effect, D.Decided, D.LivesOk, D.RoutedOk, Announces, IsOpening;
    if a.Save? {
      D.SaveEffect(d, a);
      D.ClientFact(d, a.c);
      NewsOfDecided(d.clients[a.c]);
    } else {
      StoredBefore(d, a, id);
    }
  }

  lemma StoredBefore(d: D.Desk, a: D.Action, id: string)
    requires D.Inv(d) && D.Enabled(d, a) && !a.Save? && !a.Hand?
    ensures id in D.Effect(d, a).store <==> id in d.store
  {
    hide D.Inv, IsOpening, Apply, D.Decided;
    if a.Update? { D.CommitReplacesRead(d, a.c); }
  }

  lemma NewsOfDecided(k: D.Client)
    requires k.Built? && IsOpening(k.opening) && k.step.command == D.Verdict(k.risk)
    ensures var t := D.Decided(k.opening, k.step);
      t.order.id == k.opening.order.id && Announces(t.log, t.order.id)
  {
    hide IsOpening, D.Decided, D.LifeOk;
    D.NewLife(k.opening, k.risk, k.key, k.step);
    assert D.Decided(k.opening, k.step).log[0].OrderPlaced?;
  }

  lemma SaveNews(s: System, a: D.Action)
    requires D.Inv(s.desk) && Enabled(s, DeskStep(a)) && a.Save?
    ensures a.c < |Effect(s, DeskStep(a)).desk.clients| && HoldsNews(Effect(s, DeskStep(a)), a.c)
  {
    hide D.Effect, D.Decided, D.LivesOk, D.RoutedOk, Announces, IsOpening;
    D.SaveEffect(s.desk, a);
    D.ClientFact(s.desk, a.c);
    NewsOfDecided(s.desk.clients[a.c]);
  }

  lemma QuietNews(s: System, a: D.Action)
    requires Enabled(s, DeskStep(a)) && !a.Save? && HoldsNews(s, a.c)
    ensures a.c < |Effect(s, DeskStep(a)).desk.clients| && HoldsNews(Effect(s, DeskStep(a)), a.c)
  {
    hide Announces, Apply, IsOpening, D.Decided;
  }

  lemma RoutedKept(s: System, a: D.Action, id: string)
    requires Inv(s) && Traced(s) && Enabled(s, DeskStep(a)) && !s.bus.closed && id in D.Effect(s.desk, a).routed
    ensures Announces(Arrived(s), id)
  {
    hide Inv, D.Effect, D.Enabled, Free, Events, Announces, InOutbox, InCall, HoldsNews;
    RoutedGrows(s.desk, a);
    if id !in s.desk.routed {
      RouterReturned(s, a);
      ReturnedArrived(s, s.calling[a.c], id);
    }
  }

  /** A client that routes has come back from the call that published its order. */
  lemma RouterReturned(s: System, a: D.Action)
    requires Traced(s) && Enabled(s, DeskStep(a)) && a.Route?
    ensures a.c in s.calling && s.calling[a.c] < |s.bus.calls| && !s.bus.calls[s.calling[a.c]].active
    ensures a.c < |s.desk.clients| && s.desk.clients[a.c].Routing?
    ensures Announces(s.bus.calls[s.calling[a.c]].events, s.desk.clients[a.c].order.id)
  {
    hide Events, Announces, InOutbox, InCall;
    assert HoldsNews(s, a.c);
  }

  lemma RoutedGrows(d: D.Desk, a: D.Action)
    requires D.Enabled(d, a)
    ensures var d' := D.Effect(d, a);
      d'.routed == d.routed || (a.Route? && d'.routed == d.routed + {d.clients[a.c].order.id})
  {
    hide Apply, IsOpening, D.Decided;
  }

  lemma DeskTraced(s: System, a: D.Action)
    requires Inv(s) && Traced(s) && Enabled(s, DeskStep(a))
    ensures Traced(Effect(s, DeskStep(a)))
  {
    hide D.Effect, D.Enabled, InOutbox, InCall, HoldsNews, Events, Announces, Inv, Free;
    var s' := Effect(s, DeskStep(a));
    forall id | id in s'.desk.store ensures InOutbox(s', id) || InCall(s', id) { StoredTraced(s, a, id); }
    AllNews(s, a);
    if !s'.bus.closed {
      forall id | id in s'.desk.routed ensures Announces(Arrived(s'), id) { RoutedKept(s, a, id); }
    }
  }

  lemma AllNews(s: System, a: D.Action)
    requires Inv(s) && Traced(s) && Enabled(s, DeskStep(a))
    ensures var s' := Effect(s, DeskStep(a));
      forall c :: 0 <= c < |s'.desk.clients| ==> HoldsNews(s', c)
  {
    hide D.Inv, B.Inv, Linked, Truthful, D.Effect, D.Enabled, HoldsNews, InOutbox, InCall, Events, Announces;
    var s' := Effect(s, DeskStep(a));
    D.OthersStand(s.desk, a);
    if a.Save? { SaveNews(s, a); } else { QuietNews(s, a); }
    forall c | 0 <= c < |s'.desk.clients| ensures HoldsNews(s', c) {
      if c != a.c { OtherNews(s, s', c); }
    }
  }

  lemma StoredTraced(s: System, a: D.Action, id: string)
    requires Inv(s) && Traced(s) && Enabled(s, DeskStep(a)) && id in D.Effect(s.desk, a).store
    ensures InOutbox(Effect(s, DeskStep(a)), id) || InCall(Effect(s, DeskStep(a)), id)
  {
    hide D.Inv, B.Inv, Linked, Truthful, D.Effect, D.Enabled, HoldsNews, Events, Announces;
    if id !in s.desk.store {
      NewsOfStored(s.desk, a, id);
    } else if InOutbox(s, id) {
      OutboxKept(s, a, id);
    } else {
      assert InCall(s, id);
      var n :| 0 <= n < |s.bus.calls| && Announces(s.bus.calls[n].events, id);
      assert Effect(s, DeskStep(a)).bus == s.bus;
    }
  }

  lemma OtherNews(s: System, s': System, c: nat)
    requires c < |s.desk.clients| && c < |s'.desk.clients| && HoldsNews(s, c) && s'.desk.clients[c] == s.desk.clients[c]
    requires c in s.calling ==> c in s'.calling && s'.calling[c] == s.calling[c]
    requires |s.bus.calls| <= |s'.bus.calls|
    requires forall n :: 0 <= n < |s.bus.calls| ==> s'.bus.calls[n].events == s.bus.calls[n].events
    ensures HoldsNews(s', c)
  {
    hide Announces;
  }

  lemma PublishTraced(s: System, c: nat)
    requires Traced(s) && Enabled(s, PublishFrom(c))
    ensures Traced(Effect(s, PublishFrom(c)))
  {
    hide Events, Announces;
    var s', k := Effect(s, PublishFrom(c)), s.desk.clients[c];
    var n := |s.bus.calls|;
    assert HoldsNews(s, c);
    assert s'.bus.calls[n].events == k.events;
    forall id | id in s'.desk.store ensures InOutbox(s', id) || InCall(s', id) {
      if InOutbox(s, id) {
        var i :| 0 <= i < |s.desk.clients| && Announces(Outgoing(s.desk.clients[i]), id);
        if i == c {
          assert Announces(s'.bus.calls[n].events, id);
        } else {
          assert Announces(Outgoing(s'.desk.clients[i]), id);
        }
      } else {
        assert InCall(s, id);
        var i :| 0 <= i < n && Announces(s.bus.calls[i].events, id);
        assert Announces(s'.bus.calls[i].events, id);
      }
    }
    forall i | 0 <= i < |s'.desk.clients| ensures HoldsNews(s', i) {
      if i != c { OtherNews(s, s', i); }
    }
  }

  lemma BusTraced(s: System, a: Action)
    requires Traced(s) && Enabled(s, a) && (a.BusStep? || a.ProjectNext?)
    ensures Traced(Effect(s, a))
  {
    BusArrivals(s.bus, BusPart(a));
    var s' := Effect(s, a);
    hide B.Effect, B.Enabled, Events, Announces, Projected;
    forall id | id in s'.desk.store ensures InOutbox(s', id) || InCall(s', id) {
      if InOutbox(s, id) {
        var i :| 0 <= i < |s.desk.clients| && Announces(Outgoing(s.desk.clients[i]), id);
        assert Announces(Outgoing(s'.desk.clients[i]), id);
      } else {
        assert InCall(s, id);
        var i :| 0 <= i < |s.bus.calls| && Announces(s.bus.calls[i].events, id);
        assert Announces(s'.bus.calls[i].events, id);
      }
    }
    forall i | 0 <= i < |s'.desk.clients| ensures HoldsNews(s', i) { OtherNews(s, s', i); }
    if !s'.bus.closed && s'.bus.subs[0].accepted != s.bus.subs[0].accepted {
      var d: B.Delivery :| s'.bus.subs[0].accepted == s.bus.subs[0].accepted + [d];
      EventsAppend(s.bus.subs[0].accepted, d);
      forall id | id in s'.desk.routed ensures Announces(Arrived(s'), id) { AnnouncesMore(Arrived(s), d.event, id); }
    }
  }

  // ---------------------------------------------------------------- each announcement is in one place

  /** Clients and Publish calls, numbered one after the other. */
  function Bearers(s: System): nat {
    |s.desk.clients| + |s.bus.calls|
  }

  /** The events a client has yet to publish, or those a call was given. */
  function News(s: System, k: nat): seq<Event>
    requires k < Bearers(s)
  {
    if k < |s.desk.clients| then Outgoing(s.desk.clients[k]) else s.bus.calls[k - |s.desk.clients|].events
  }

  ghost predicate Bears(s: System, k: nat, id: string) {
    k < Bearers(s) && Announces(News(s, k), id)
  }

  ghost predicate OneBearer(s: System) {
    forall j: nat, k: nat, id :: j != k ==> !(Bears(s, j, id) && Bears(s, k, id))
  }

  /** Whatever is announced is stored. */
  lemma BorneIsStored(s: System, k: nat, id: string)
    requires Inv(s) && Bears(s, k, id)
    ensures id in s.desk.store
  {
    hide D.Inv, B.Inv, Submitted, ProjectAll, Events, EventOk, Outgoing;
    var metas := Metas(s.desk.store);
    if k >= |s.desk.clients| {
      SubmittedHas(metas, s.bus.calls, k - |s.desk.clients|);
    }
    assert EventsOk(metas, News(s, k));
    KnownID(metas, News(s, k), id);
  }

  lemma KnownID(metas: Registry, es: seq<Event>, id: string)
    requires EventsOk(metas, es) && Announces(es, id)
    ensures id in metas
  {
    hide FixedPoint.MulQuantity;
    var j :| 0 <= j < |es| && es[j].OrderPlaced? && es[j].orderID == id;
    assert EventOk(metas, es[j]);
  }

  /** No change to an order announces anything. */
  lemma ChangeAnnouncesNothing(base: Snapshot, command: Command, now: Time)
    ensures Apply(base, command, now).Applied? ==> !Apply(base, command, now).event.OrderPlaced?
  {
    hide FillTally;
  }

  /** What a client announces after a step other than a save, it announced before. */
  lemma QuietBearer(d: D.Desk, a: D.Action, id: string)
    requires D.Inv(d) && D.Enabled(d, a) && !a.Save? && !a.Hand?
    requires a.c < |D.Effect(d, a).clients| && Announces(Outgoing(D.Effect(d, a).clients[a.c]), id)
    ensures Announces(Outgoing(d.clients[a.c]), id)
  {
    hide D.Effect, Announces, D.LivesOk, D.RoutedOk, IsOpening, Apply;
    if a.Update? {
      var k := d.clients[a.c];
      D.ClientFact(d, a.c);
      ChangeAnnouncesNothing(k.base, k.step.command, k.step.now);
      AfterUpdate(d, a);
      NothingAnnounced(id);
      LoneEvent(k.event, id);
    } else {
      StillOutgoing(d, a);
    }
  }

  lemma AfterUpdate(d: D.Desk, a: D.Action)
    requires D.Enabled(d, a) && a.Update?
    ensures Outgoing(D.Effect(d, a).clients[a.c]) in {[], [d.clients[a.c].event]}
  {
    hide D.Lengthened;
  }

  lemma LoneEvent(e: Event, id: string)
    requires !e.OrderPlaced?
    ensures !Announces([e], id)
  {}

  /** What a client announces after a save is an order that was not stored. */
  lemma SaveBearer(d: D.Desk, a: D.Action, id: string)
    requires D.Inv(d) && D.Enabled(d, a) && a.Save?
    requires a.c < |D.Effect(d, a).clients| && Announces(Outgoing(D.Effect(d, a).clients[a.c]), id)
    ensures id !in d.store
  {
    hide D.Effect, D.Decided, D.LivesOk, D.RoutedOk, IsOpening, D.LifeOk;
    var k := d.clients[a.c];
    D.SaveEffect(d, a);
    D.ClientFact(d, a.c);
    D.NewLife(k.opening, k.risk, k.key, k.step);
  }

  lemma DeskBearer(s: System, a: D.Action)
    requires Inv(s) && OneBearer(s) && Enabled(s, DeskStep(a))
    ensures OneBearer(Effect(s, DeskStep(a)))
  {
    hide D.Effect, D.Enabled, Bears, Inv, Free;
    var s' := Effect(s, DeskStep(a));
    forall j: nat, k: nat, id | j != k && Bears(s', j, id) && Bears(s', k, id) ensures false {
      if a.Save? {
        SavedBearer(s, a, j, id);
        SavedBearer(s, a, k, id);
      } else {
        OldBearer(s, a, j, id);
        OldBearer(s, a, k, id);
      }
    }
  }

  lemma OldBearer(s: System, a: D.Action, k: nat, id: string)
    requires Inv(s) && Enabled(s, DeskStep(a)) && !a.Save? && Bears(Effect(s, DeskStep(a)), k, id)
    ensures Bears(s, k, id)
  {
    hide D.Inv, B.Inv, Linked, Truthful, D.Effect, D.Enabled, Announces, Outgoing;
    D.OthersStand(s.desk, a);
    if k == a.c { QuietBearer(s.desk, a, id); }
  }

  /** After a save either nothing new is announced or the saving client alone announces something unheard of. */
  lemma SavedBearer(s: System, a: D.Action, k: nat, id: string)
    requires Inv(s) && Enabled(s, DeskStep(a)) && a.Save? && Bears(Effect(s, DeskStep(a)), k, id)
    ensures if k == a.c then id !in s.desk.store else Bears(s, k, id) && id in s.desk.store
  {
    hide D.Inv, B.Inv, Linked, Truthful, D.Effect, D.Enabled, Announces, Outgoing;
    D.OthersStand(s.desk, a);
    if k == a.c { SaveBearer(s.desk, a, id); } else { BorneIsStored(s, k, id); }
  }

  /** Publishing moves the client's announcements to its call. */
  lemma PublishBearer(s: System, c: nat, k: nat, id: string)
    requires Enabled(s, PublishFrom(c)) && Bears(Effect(s, PublishFrom(c)), k, id)
    ensures c < |s.desk.clients| && k != c && Bears(s, if k == Bearers(s) then c else k, id)
  {
    hide Announces;
    var s' := Effect(s, PublishFrom(c));
    NothingAnnounced(id);
    assert Outgoing(s'.desk.clients[c]) == [];
  }

  lemma BusBearer(s: System, a: Action, k: nat, id: string)
    requires Enabled(s, a) && (a.BusStep? || a.ProjectNext?) && |s.bus.subs| >= 1 && Bears(Effect(s, a), k, id)
    ensures Bears(s, k, id)
  {
    BusArrivals(s.bus, BusPart(a));
    hide Announces, B.Enabled, B.Effect, Projected;
  }

  lemma BearerStep(s: System, a: Action)
    requires Inv(s) && |s.bus.subs| >= 1 && OneBearer(s) && Enabled(s, a)
    ensures OneBearer(Effect(s, a))
  {
    hide Inv, Bears, Enabled, Effect;
    var s' := Effect(s, a);
    if a.DeskStep? {
      DeskBearer(s, a.d);
    } else {
      forall j: nat, k: nat, id | j != k && Bears(s', j, id) && Bears(s', k, id) ensures false {
        if a.PublishFrom? {
          PublishBearer(s, a.c, j, id);
          PublishBearer(s, a.c, k, id);
        } else {
          BusBearer(s, a, j, id);
          BusBearer(s, a, k, id);
        }
      }
    }
  }

  // ---------------------------------------------------------------- every run

  lemma TracedStep(s: System, a: Action)
    requires Inv(s) && Traced(s) && Enabled(s, a)
    ensures Traced(Effect(s, a))
  {
    hide Inv, Traced, Enabled, Effect;
    match a {
      case DeskStep(d) => DeskTraced(s, d);
      case PublishFrom(c) => PublishTraced(s, c);
      case BusStep(_) => BusTraced(s, a);
      case ProjectNext => BusTraced(s, a);
    }
  }

  lemma {:induction false} TracedRun(s: System, actions: seq<Action>, s': System, lens: Lens)
    requires Inv(s) && Balanced(s.desk, lens) && Traced(s) && OneBearer(s) && Steps(s, actions, s')
    ensures Inv(s') && Traced(s') && OneBearer(s')
    decreases |actions|
  {
    hide Inv, Balanced, OneBearer, Effect, Enabled, InOutbox, InCall, HoldsNews, Events;
    if actions != [] {
      StepKeeps(s, actions[0], lens);
      TracedStep(s, actions[0]);
      BearerStep(s, actions[0]);
      TracedRun(Effect(s, actions[0]), actions[1..], s', lens);
    }
  }

  lemma StartTraced(s: System)
    requires Start(s)
    ensures Traced(s) && OneBearer(s)
  {
    assert forall c :: 0 <= c < |s.desk.clients| ==> s.desk.clients[c].Idle?;
  }

  lemma ReachableTraced(s: System)
    requires Reachable(s)
    ensures Inv(s) && Traced(s) && OneBearer(s)
  {
    hide Inv, Traced, OneBearer, Balanced, Start, Steps;
    var lens := Lens("", "", NetQuantity);
    var s0, actions :| Start(s0) && Steps(s0, actions, s);
    StartInv(s0, lens);
    StartTraced(s0);
    TracedRun(s0, actions, s, lens);
  }

  /** Every stored order is announced in exactly one place: one client's outbox or one Publish call. */
  lemma AnnouncedOnce(s: System, id: string)
    requires Reachable(s) && id in s.desk.store
    ensures exists k: nat :: Bears(s, k, id) && forall j: nat :: Bears(s, j, id) ==> j == k
  {
    hide Reachable, Inv, HoldsNews, Announces, Events, Outgoing;
    ReachableTraced(s);
    if InOutbox(s, id) {
      var c :| 0 <= c < |s.desk.clients| && Announces(Outgoing(s.desk.clients[c]), id);
      assert Bears(s, c, id);
    } else {
      assert InCall(s, id);
      var n :| 0 <= n < |s.bus.calls| && Announces(s.bus.calls[n].events, id);
      assert News(s, |s.desk.clients| + n) == s.bus.calls[n].events;
      assert Bears(s, |s.desk.clients| + n, id);
    }
  }

  /** A client whose PlaceOrder has come back from Publish leaves its order settled. */
  lemma ReturnedIsSettled(s: System, c: nat)
    requires Reachable(s) && c < |s.desk.clients| && s.desk.clients[c].Routing? && Free(s, c)
    ensures Settled(s, s.desk.clients[c].order.id)
  {
    hide Reachable, Inv, Announces, Events, Outgoing, InOutbox, InCall;
    ReachableTraced(s);
    var id, base := s.desk.clients[c].order.id, |s.desk.clients|;
    assert HoldsNews(s, c);
    var n := s.calling[c];
    assert News(s, base + n) == s.bus.calls[n].events;
    assert Bears(s, base + n, id);
    forall i | 0 <= i < |s.desk.clients| ensures !Announces(Outgoing(s.desk.clients[i]), id) {
      assert !Bears(s, i, id);
    }
    forall i | 0 <= i < |s.bus.calls| && s.bus.calls[i].active ensures !Announces(s.bus.calls[i].events, id) {
      assert News(s, base + i) == s.bus.calls[i].events;
      assert !Bears(s, base + i, id);
    }
  }

  /** Once settled, an order stays settled. */
  lemma SettledStays(s: System, a: Action, id: string)
    requires Inv(s) && |s.bus.subs| >= 1 && id in s.desk.store && Settled(s, id) && Enabled(s, a)
    ensures Settled(Effect(s, a), id)
  {
    hide Inv, Announces, Enabled, Effect, Outgoing;
    var s' := Effect(s, a);
    SameClients(s, a);
    forall c | 0 <= c < |s'.desk.clients| ensures !Announces(Outgoing(s'.desk.clients[c]), id) {
      if Bears(s', c, id) { StillUnsettled(s, a, c, id); }
    }
    forall n | 0 <= n < |s'.bus.calls| && s'.bus.calls[n].active ensures !Announces(s'.bus.calls[n].events, id) {
      var k := |s.desk.clients| + n;
      assert News(s', k) == s'.bus.calls[n].events;
      if Bears(s', k, id) { StillUnsettled(s, a, k, id); }
    }
  }

  lemma SameClients(s: System, a: Action)
    requires Enabled(s, a)
    ensures |Effect(s, a).desk.clients| == |s.desk.clients|
  {
    hide D.Effect, D.Enabled, B.Effect, B.Enabled, Projected;
    if a.DeskStep? { D.OthersStand(s.desk, a.d); }
    if a.PublishFrom? { D.OthersStand(s.desk, D.Hand(a.c)); }
  }

  /** An announcement of a stored order that is still to be made, or in a call in progress, was so before. */
  lemma StillUnsettled(s: System, a: Action, k: nat, id: string)
    requires Inv(s) && |s.bus.subs| >= 1 && id in s.desk.store && Enabled(s, a) && Bears(Effect(s, a), k, id)
    requires |Effect(s, a).desk.clients| == |s.desk.clients|
    requires k >= |s.desk.clients| ==> Effect(s, a).bus.calls[k - |s.desk.clients|].active
    ensures !Settled(s, id)
  {
    hide Inv, Announces, D.Effect, D.Enabled, B.Effect, B.Enabled, Outgoing, Projected;
    if a.DeskStep? {
      if a.d.Save? { SavedBearer(s, a.d, k, id); } else { OldBearer(s, a.d, k, id); }
    } else if a.PublishFrom? {
      PublishBearer(s, a.c, k, id);
      CallsAppended(s, a.c);
    } else {
      BusArrivals(s.bus, BusPart(a));
      BusBearer(s, a, k, id);
    }
  }

  lemma CallsAppended(s: System, c: nat)
    requires Enabled(s, PublishFrom(c))
    ensures var calls := Effect(s, PublishFrom(c)).bus.calls;
      |calls| == |s.bus.calls| + 1 && forall i :: 0 <= i < |s.bus.calls| ==> calls[i] == s.bus.calls[i]
  {}

  /** So from the moment PlaceOrder has come back from Publish, its order is settled for the rest of the run. */
  lemma {:induction false} SettledForGood(s: System, actions: seq<Action>, s': System, id: string)
    requires Reachable(s) && id in s.desk.store && Settled(s, id) && Steps(s, actions, s')
    ensures id in s'.desk.store && Settled(s', id)
    decreases |actions|
  {
    hide Reachable, Settled, Enabled, Effect, Inv, InOutbox, InCall, HoldsNews, Events;
    if actions != [] {
      ReachableTraced(s);
      SettledStays(s, actions[0], id);
      StoreGrows(s, actions[0], id);
      OneStep(s, actions[0], Effect(s, actions[0]));
      ReachableOn(s, [actions[0]], Effect(s, actions[0]));
      SettledForGood(Effect(s, actions[0]), actions[1..], s', id);
    }
  }

  lemma StoreGrows(s: System, a: Action, id: string)
    requires Enabled(s, a) && id in s.desk.store
    ensures id in Effect(s, a).desk.store
  {
    hide Apply, IsOpening, D.Decided, B.Effect, B.Enabled, Projected, D.Lengthened;
  }

  /**
   An order that was routed to the venue, or whose placement is over, has been announced to the projection,
   in every interleaving on an open bus.
   */
  lemma RoutedIsAnnounced(s: System, id: string)
    requires Reachable(s) && !s.bus.closed && (id in s.desk.routed || (id in s.desk.store && Settled(s, id)))
    ensures |s.bus.subs| >= 1 && Announces(Arrived(s), id)
  {
    hide Reachable, Inv, OneBearer, InOutbox, InCall, HoldsNews, Events, Announces, Settled;
    ReachableTraced(s);
    if id !in s.desk.routed { SettledArrived(s, id); }
  }

  /** Fills are tried only on orders that were routed or whose placement is over. */
  ghost predicate Careful(s: System, a: Action) {
    TriesFill(s, a) ==> var id := s.desk.clients[a.d.c].base.id; id in s.desk.routed || Settled(s, id)
  }

  ghost predicate CarefulSteps(s: System, actions: seq<Action>, s': System)
    decreases |actions|
  {
    if actions == [] then s == s'
    else Enabled(s, actions[0]) && Careful(s, actions[0]) && CarefulSteps(Effect(s, actions[0]), actions[1..], s')
  }

  lemma HeldIsStored(s: System, c: nat)
    requires Inv(s) && c < |s.desk.clients| && s.desk.clients[c].Holding?
    ensures s.desk.clients[c].base.id in s.desk.store
  {
    hide B.Inv, Linked, Truthful, D.LifeOk;
    D.ClientFact(s.desk, c);
  }

  lemma {:induction false} CarefulIsPatient(s: System, actions: seq<Action>, s': System)
    requires Reachable(s) && CarefulSteps(s, actions, s')
    ensures PatientSteps(s, actions, s')
    decreases |actions|
  {
    hide Reachable, Effect, Enabled, Announces, Settled, Events, Inv, Balanced, Steps;
    if actions != [] {
      var a := actions[0];
      if TriesFill(s, a) && |s.bus.subs| >= 1 && !s.bus.closed {
        ReachableInv(s, Lens("", "", NetQuantity));
        HeldIsStored(s, a.d.c);
        RoutedIsAnnounced(s, s.desk.clients[a.d.c].base.id);
      }
      OneStep(s, a, Effect(s, a));
      ReachableOn(s, [a], Effect(s, a));
      CarefulIsPatient(Effect(s, a), actions[1..], s');
    }
  }

  /**
   So filling only what was routed, as a venue does, or what PlaceOrder has returned, is enough: on an open and
   drained bus every position shows exactly the stored buys minus sells, in every such interleaving.
   */
  lemma CarefulDisplay(s0: System, actions: seq<Action>, s: System, account: string, symbol: string)
    requires Start(s0) && CarefulSteps(s0, actions, s) && Quiescent(s) && !s.bus.closed
    ensures PositionAt(s.view, account, symbol).netQty == Wrap(StoredNet(s.desk.store, account, symbol))
  {
    hide Start, CarefulSteps, PatientSteps, Quiescent, StoredNet, PositionAt, Wrap;
    assert Steps(s0, [], s0);
    CarefulIsPatient(s0, actions, s);
    PatientDisplay(s0, actions, s, account, symbol);
  }
}
