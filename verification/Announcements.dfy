/**
 Whether an order's announcement reaches the projection before its fills. Each client publishes in order,
 but a saved order is visible before its announcement is published, so the answer depends on when other
 clients may fill it.
 */
module Announcements {
  import opened Int64
  import opened Orders
  import opened OrderHistory
  import opened ReadModel
  import opened Ledger
  import opened System
  import D = Desk
  import B = EventBus

  /** The announcement of this order is among these events. */
  ghost predicate Announces(es: seq<Event>, id: string) {
    exists j :: 0 <= j < |es| && es[j].OrderPlaced? && es[j].orderID == id
  }

  /** Everything put on the projection's queue so far. */
  function Arrived(s: System): seq<Event>
    requires |s.bus.subs| >= 1
  {
    Events(s.bus.subs[0].accepted)
  }

  /** This step tries a fill, on the order its client has read. */
  predicate TriesFill(s: System, a: Action) {
    a.DeskStep? && a.d.Attempt? && a.d.command.Fill? && a.d.c < |s.desk.clients| && s.desk.clients[a.d.c].Holding?
  }

  /** Fills are tried only on orders whose announcement is on the projection's queue, while the bus is open. */
  ghost predicate Patient(s: System, a: Action) {
    TriesFill(s, a) && |s.bus.subs| >= 1 && !s.bus.closed ==> Announces(Arrived(s), s.desk.clients[a.d.c].base.id)
  }

  ghost predicate PatientSteps(s: System, actions: seq<Action>, s': System)
    decreases |actions|
  {
    if actions == [] then s == s'
    else Enabled(s, actions[0]) && Patient(s, actions[0]) && PatientSteps(Effect(s, actions[0]), actions[1..], s')
  }

  // ---------------------------------------------------------------- invariant of patient runs

  ghost predicate FillsAnnounced(arrived: seq<Event>, es: seq<Event>) {
    forall i :: 0 <= i < |es| && es[i].IsFill() ==> Announces(arrived, es[i].orderID)
  }

  ghost predicate ClientPatient(arrived: seq<Event>, k: D.Client) {
    && (k.Proposing? && k.event.IsFill() ==> Announces(arrived, k.event.orderID))
    && (k.Built? ==> IsOpening(k.opening) && (k.step.command.Accept? || k.step.command.Reject?))
    && FillsAnnounced(arrived, Outgoing(k))
  }

  /** Nothing on its way will arrive too early, nor did anything that arrived, except perhaps at position x. */
  ghost predicate AllPatient(s: System, x: int) {
    && |s.bus.subs| >= 1 && s.bus.subs[0].name == "" && x < |s.bus.subs[0].accepted|
    && FirstExcept(Arrived(s), x)
    && (forall c :: 0 <= c < |s.bus.calls| && s.bus.calls[c].active ==>
          FillsAnnounced(Arrived(s), s.bus.calls[c].events))
    && (!s.bus.closed ==> forall c :: 0 <= c < |s.desk.clients| ==> ClientPatient(Arrived(s), s.desk.clients[c]))
  }

  lemma AnnouncesMore(arrived: seq<Event>, e: Event, id: string)
    requires Announces(arrived, id)
    ensures Announces(arrived + [e], id)
  {
    var j :| 0 <= j < |arrived| && arrived[j].OrderPlaced? && arrived[j].orderID == id;
    assert (arrived + [e])[j] == arrived[j];
  }

  lemma FillsMore(arrived: seq<Event>, e: Event, es: seq<Event>)
    requires FillsAnnounced(arrived, es)
    ensures FillsAnnounced(arrived + [e], es)
  {
    hide Announces;
    forall i | 0 <= i < |es| && es[i].IsFill() ensures Announces(arrived + [e], es[i].orderID) {
      AnnouncesMore(arrived, e, es[i].orderID);
    }
  }

  lemma ClientMore(arrived: seq<Event>, e: Event, k: D.Client)
    requires ClientPatient(arrived, k)
    ensures ClientPatient(arrived + [e], k)
  {
    hide Announces, FillsAnnounced, IsOpening, Outgoing;
    FillsMore(arrived, e, Outgoing(k));
    if k.Proposing? && k.event.IsFill() { AnnouncesMore(arrived, e, k.event.orderID); }
  }

  lemma FirstMore(arrived: seq<Event>, e: Event, x: int)
    requires FirstExcept(arrived, x) && (e.IsFill() && x != |arrived| ==> Announces(arrived, e.orderID))
    ensures FirstExcept(arrived + [e], x)
  {
    var all := arrived + [e];
    forall i | 0 <= i < |all| && i != x && all[i].IsFill()
      ensures exists j :: 0 <= j < i && all[j].OrderPlaced? && all[j].orderID == all[i].orderID
    {
      if i < |arrived| {
        assert all[i] == arrived[i];
        var j :| 0 <= j < i && arrived[j].OrderPlaced? && arrived[j].orderID == arrived[i].orderID;
        assert all[j] == arrived[j];
      } else {
        var j :| 0 <= j < |arrived| && arrived[j].OrderPlaced? && arrived[j].orderID == e.orderID;
        assert all[j] == arrived[j];
      }
    }
  }

  /** The projection's queue either stays as it is or takes one event of a Publish call in progress. */
  lemma BusArrivals(b: B.Bus, a: B.Action)
    requires B.Enabled(b, a) && |b.subs| >= 1 && !a.Publish?
    ensures var b' := B.Effect(b, a);
      && |b'.subs| >= 1 && b'.subs[0].name == b.subs[0].name
      && (b'.subs[0].accepted == b.subs[0].accepted
          || (exists d: B.Delivery :: d.call < |b.calls| && d.index < |b.calls[d.call].events| && b.calls[d.call].active
                && d.event == b.calls[d.call].events[d.index] && b'.subs[0].accepted == b.subs[0].accepted + [d]))
      && |b'.calls| == |b.calls|
      && (forall c :: 0 <= c < |b.calls| ==>
            b'.calls[c].events == b.calls[c].events && (b'.calls[c].active ==> b.calls[c].active))
      && (b.closed ==> b'.closed)
  {
    if a.Send? && b.calls[a.call].sub == 0 {
      var k := b.calls[a.call];
      var d := B.Delivery(a.call, k.at, k.events[k.at]);
      assert B.Effect(b, a).subs[0].accepted == b.subs[0].accepted + [d];
    }
  }

  /** The bus step behind a step that moves nothing but the bus and the projection. */
  function BusPart(a: Action): B.Action
    requires a.BusStep? || a.ProjectNext?
  {
    if a.BusStep? then a.b else B.Done(0)
  }

  lemma BusPatient(s: System, a: Action, x: int)
    requires AllPatient(s, x) && Enabled(s, a) && (a.BusStep? || a.ProjectNext?)
    ensures AllPatient(Effect(s, a), x)
  {
    BusArrivals(s.bus, BusPart(a));
    var s' := Effect(s, a);
    hide B.Effect, B.Enabled, FirstExcept, FillsAnnounced, ClientPatient, Events, Projected;
    if s'.bus.subs[0].accepted != s.bus.subs[0].accepted {
      var d: B.Delivery :| d.call < |s.bus.calls| && d.index < |s.bus.calls[d.call].events|
        && s.bus.calls[d.call].active && d.event == s.bus.calls[d.call].events[d.index]
        && s'.bus.subs[0].accepted == s.bus.subs[0].accepted + [d];
      EventsAppend(s.bus.subs[0].accepted, d);
      EventsLength(s.bus.subs[0].accepted);
      OneMore(s, s', d, x);
    }
  }

  lemma OneMore(s: System, s': System, d: B.Delivery, x: int)
    requires AllPatient(s, x) && s'.desk == s.desk && |s'.bus.subs| >= 1 && s'.bus.subs[0].name == ""
    requires s.bus.closed ==> s'.bus.closed
    requires d.call < |s.bus.calls| && d.index < |s.bus.calls[d.call].events| && s.bus.calls[d.call].active
      && d.event == s.bus.calls[d.call].events[d.index]
    requires |s'.bus.calls| == |s.bus.calls|
    requires forall c :: 0 <= c < |s.bus.calls| ==>
      s'.bus.calls[c].events == s.bus.calls[c].events && (s'.bus.calls[c].active ==> s.bus.calls[c].active)
    requires s'.bus.subs[0].accepted == s.bus.subs[0].accepted + [d] && Arrived(s') == Arrived(s) + [d.event]
    requires |Arrived(s)| == |s.bus.subs[0].accepted|
    ensures AllPatient(s', x)
  {
    hide FirstExcept, ClientPatient, Events, Announces;
    var arrived := Arrived(s);
    assert FillsAnnounced(arrived, s.bus.calls[d.call].events);
    FirstMore(arrived, d.event, x);
    forall c | 0 <= c < |s.bus.calls| && s'.bus.calls[c].active
      ensures FillsAnnounced(Arrived(s'), s'.bus.calls[c].events)
    {
      FillsMore(arrived, d.event, s.bus.calls[c].events);
    }
    if !s'.bus.closed {
      forall c | 0 <= c < |s.desk.clients| ensures ClientPatient(Arrived(s'), s'.desk.clients[c]) {
        ClientMore(arrived, d.event, s.desk.clients[c]);
      }
    }
  }

  lemma PublishPatient(s: System, c: nat, x: int)
    requires AllPatient(s, x) && Enabled(s, PublishFrom(c))
    ensures AllPatient(Effect(s, PublishFrom(c)), x)
  {
    hide FirstExcept, FillsAnnounced, Events, Announces, IsOpening;
    var k := s.desk.clients[c];
    assert !s.bus.closed ==> ClientPatient(Arrived(s), k);
    EmptyPatient(Arrived(s));
  }

  lemma EmptyPatient(arrived: seq<Event>)
    ensures FillsAnnounced(arrived, [])
  {}

  /** The two events of a placement are not fills. */
  lemma PlacementHasNoFills(arrived: seq<Event>, opening: Opening, step: Step)
    requires IsOpening(opening) && (step.command.Accept? || step.command.Reject?)
    ensures FillsAnnounced(arrived, D.Decided(opening, step).log)
  {
    hide Complaint;
  }

  lemma SingleFill(arrived: seq<Event>, e: Event)
    requires e.IsFill() ==> Announces(arrived, e.orderID)
    ensures FillsAnnounced(arrived, [e])
  {}

  /** A change to an order speaks of that order, and only a fill speaks of a fill. */
  lemma EventOfChange(base: Snapshot, command: Command, now: Time)
    ensures var r := Apply(base, command, now);
      r.Applied? ==> r.event.orderID == base.id && r.event.IsFill() == command.Fill? && r.order.id == base.id
                     && r.order.version == base.version + 1 && (command.Fill? ==> r.event.fillQty == command.qty)
  {
    hide FillTally;
  }

  lemma DeskPatient(s: System, a: D.Action, x: int)
    requires AllPatient(s, x) && Enabled(s, DeskStep(a)) && Patient(s, DeskStep(a)) && D.Inv(s.desk)
    ensures AllPatient(Effect(s, DeskStep(a)), x)
  {
    hide D.Effect, D.Enabled, D.LivesOk, D.ClientOk, FirstExcept, FillsAnnounced, ClientPatient, Events, Announces;
    var d, d' := s.desk, D.Effect(s.desk, a);
    D.OthersStand(d, a);
    if !s.bus.closed {
      if a.Attempt? { AttemptHolds(d, a); }
      ClientAfter(Arrived(s), d, a);
      forall c | 0 <= c < |d'.clients| ensures ClientPatient(Arrived(s), d'.clients[c]) {
        assert ClientPatient(Arrived(s), d.clients[c]);
      }
    }
  }

  lemma AttemptHolds(d: D.Desk, a: D.Action)
    requires D.Enabled(d, a) && a.Attempt?
    ensures a.c < |d.clients| && d.clients[a.c].Holding?
  {}

  lemma ClientAfter(arrived: seq<Event>, d: D.Desk, a: D.Action)
    requires D.Enabled(d, a) && !a.Hand? && ClientPatient(arrived, d.clients[a.c])
    requires a.Attempt? && a.command.Fill? ==> Announces(arrived, d.clients[a.c].base.id)
    ensures a.c < |D.Effect(d, a).clients| && ClientPatient(arrived, D.Effect(d, a).clients[a.c])
  {
    hide FillsAnnounced, Announces, IsOpening, D.Decided, Apply;
    var k := d.clients[a.c];
    EmptyPatient(arrived);
    if a.Save? {
      PlacementHasNoFills(arrived, k.opening, k.step);
    } else if a.Update? {
      SingleFill(arrived, k.event);
    } else if a.Attempt? {
      EventOfChange(k.base, a.command, a.now);
    }
  }

  lemma PatientStep(s: System, a: Action, x: int, lens: Lens)
    requires Inv(s) && Balanced(s.desk, lens) && AllPatient(s, x) && Enabled(s, a) && Patient(s, a)
    ensures Inv(Effect(s, a)) && Balanced(Effect(s, a).desk, lens) && AllPatient(Effect(s, a), x)
  {
    StepKeeps(s, a, lens);
    assert D.Inv(s.desk);
    hide Inv, AllPatient, Patient, Balanced, D.Inv, D.Effect, D.Enabled, B.Effect, B.Enabled, Projected;
    match a {
      case DeskStep(d) => DeskPatient(s, d, x);
      case PublishFrom(c) => PublishPatient(s, c, x);
      case BusStep(_) => BusPatient(s, a, x);
      case ProjectNext => BusPatient(s, a, x);
    }
  }

  lemma {:induction false} PatientRun(s: System, actions: seq<Action>, s': System, x: int, lens: Lens)
    requires Inv(s) && Balanced(s.desk, lens) && AllPatient(s, x) && PatientSteps(s, actions, s')
    ensures Inv(s') && Balanced(s'.desk, lens) && AllPatient(s', x) && Steps(s, actions, s')
    decreases |actions|
  {
    hide Inv, AllPatient, Balanced, Effect, Enabled, Patient;
    if actions != [] {
      PatientStep(s, actions[0], x, lens);
      PatientRun(Effect(s, actions[0]), actions[1..], s', x, lens);
    }
  }

  lemma StartPatient(s: System)
    requires Start(s)
    ensures AllPatient(s, -1)
  {
    assert s.bus.subs[0].accepted == [];
    NoEvents();
    assert forall c :: 0 <= c < |s.desk.clients| ==> s.desk.clients[c].Idle?;
  }

  lemma PatientFromStart(s0: System, actions: seq<Action>, s: System)
    requires Start(s0) && PatientSteps(s0, actions, s)
    ensures Reachable(s) && Inv(s) && AllPatient(s, -1)
  {
    hide Start, Steps, PatientSteps, Inv, Balanced, AllPatient;
    var lens := Lens("", "", NetQuantity);
    StartInv(s0, lens);
    StartPatient(s0);
    PatientRun(s0, actions, s, -1, lens);
  }

  /** The projection handles a prefix of what arrived. */
  lemma HandledFirst(s: System)
    requires Inv(s) && AllPatient(s, -1)
    ensures |s.bus.subs| >= 1 && AnnouncedFirst(Events(s.bus.subs[0].handled))
  {
    hide Inv, Events, ProjectAll, Submitted, ClientPatient, FillsAnnounced;
    SubsThere(s);
    var sub := s.bus.subs[0];
    assert sub.accepted == sub.handled + (sub.InHand() + sub.queue);
    EventsConcat(sub.handled, sub.InHand() + sub.queue);
    var all, es := Events(sub.accepted), Events(sub.handled);
    forall i | 0 <= i < |es| && es[i].IsFill()
      ensures exists j :: 0 <= j < i && es[j].OrderPlaced? && es[j].orderID == es[i].orderID
    {
      assert all[i] == es[i];
      var j :| 0 <= j < i && all[j].OrderPlaced? && all[j].orderID == all[i].orderID;
      assert all[j] == es[j];
    }
  }

  /**
   If fills are tried only on orders whose announcement was enqueued, then on an open and drained bus every
   position shows the stored buys minus sells, in every interleaving.
   */
  lemma PatientDisplay(s0: System, actions: seq<Action>, s: System, account: string, symbol: string)
    requires Start(s0) && PatientSteps(s0, actions, s) && Quiescent(s) && !s.bus.closed
    ensures PositionAt(s.view, account, symbol).netQty == Wrap(StoredNet(s.desk.store, account, symbol))
  {
    hide Start, Steps, PatientSteps, Quiescent, Inv, AllPatient, StoredNet, PositionAt, Reachable, AnnouncedFirst,
      Orphans, Wrap;
    PatientFromStart(s0, actions, s);
    HandledFirst(s);
    DrainedDisplay(s, account, symbol);
  }
}
