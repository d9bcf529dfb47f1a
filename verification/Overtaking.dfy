/**
 Why fills must wait for announcements: an order filled before its announcement is enqueued can lose that fill
 from the display for good.
 */
module Overtaking {
  import opened Int64
  import opened Orders
  import opened OrderHistory
  import opened ReadModel
  import opened Ledger
  import opened System
  import opened Draining
  import opened Announcements
  import opened Tracing
  import D = Desk
  import B = EventBus

  /** Client c is about to fill an order it has read, which is still as it read it, and the fill will apply. */
  ghost predicate ReadyToFill(s: System, c: nat, fill: Command, now: Time) {
    && fill.Fill? && Enabled(s, DeskStep(D.Attempt(c, fill, now)))
    && var base := s.desk.clients[c].base;
       && base.id in s.desk.store && s.desk.store[base.id] == base && Apply(base, fill, now).Applied?
  }

  lemma ReadyClient(s: System, c: nat, fill: Command, now: Time)
    requires ReadyToFill(s, c, fill, now)
    ensures c < |s.desk.clients| && s.desk.clients[c].Holding?
  {}

  /** The fill, its commit and its publication, up to the return of that call, while everyone else waits. */
  lemma FillAlone(s: System, c: nat, fill: Command, now: Time) returns (actions: seq<Action>, m: System)
    requires Reachable(s) && !s.bus.closed && ReadyToFill(s, c, fill, now)
    ensures Steps(s, actions, m) && actions != [] && actions[0] == DeskStep(D.Attempt(c, fill, now)) && Reachable(m)
    ensures var base := s.desk.clients[c].base;
      var r := Apply(base, fill, now);
      && m.desk.store == s.desk.store[base.id := r.order] && m.desk.clients == s.desk.clients[c := D.Idle]
      && |s.bus.subs| >= 1 && |m.bus.subs| >= 1 && m.bus.subs[0].name == s.bus.subs[0].name && !m.bus.closed
      && Arrived(m) == Arrived(s) + [r.event] && |m.bus.calls| == |s.bus.calls| + 1
      && !m.bus.calls[|s.bus.calls|].active && forall i :: 0 <= i < |s.bus.calls| ==> m.bus.calls[i] == s.bus.calls[i]
  {
    hide Reachable, Steps, Apply, B.OnlyCall, Events, ReadyToFill, Continues;
    ReadyClient(s, c, fill, now);
    OpenShape(s);
    var first, n := CommitAlone(s, c, fill, now);
    ReachableOn(s, first, n);
    var p := PublishStep(n, c);
    ReachableOn(n, [PublishFrom(c)], p);
    var e := n.desk.clients[c].events[0];
    var rest;
    rest, m := CallReturns(p, |s.bus.calls|);
    OneArrives(p, m, |s.bus.calls|, e);
    OthersKept(p.bus, |s.bus.calls|, m.bus);
    ContinuesOpen(p, m);
    StepsJoin(s, first, n, [PublishFrom(c)], p);
    StepsJoin(s, first + [PublishFrom(c)], p, rest, m);
    actions := first + [PublishFrom(c)] + rest;
    assert actions[0] == first[0];
    assert m.desk.clients == s.desk.clients[c := D.Idle];
  }

  lemma ContinuesOpen(s: System, s': System)
    requires Continues(s, s')
    ensures s'.bus.closed == s.bus.closed && |s'.bus.subs| == |s.bus.subs| >= 1
    ensures s'.desk.store == s.desk.store && s.bus.subs[0].accepted <= s'.bus.subs[0].accepted
  {}

  lemma OthersKept(b: B.Bus, n: nat, b': B.Bus)
    requires B.OnlyCall(b, n, b') && |b.subs| >= 1
    ensures |b'.calls| == |b.calls| && |b'.subs| == |b.subs| && b'.subs[0].name == b.subs[0].name
    ensures forall i :: 0 <= i < |b.calls| && i != n ==> b'.calls[i] == b.calls[i]
  {
    assert B.Extended(b.subs[0], b'.subs[0], n);
  }

  lemma CommitAlone(s: System, c: nat, fill: Command, now: Time) returns (actions: seq<Action>, n: System)
    requires ReadyToFill(s, c, fill, now)
    ensures Steps(s, actions, n) && actions != [] && actions[0] == DeskStep(D.Attempt(c, fill, now))
    ensures var base := s.desk.clients[c].base;
      var r := Apply(base, fill, now);
      && n.bus == s.bus && n.view == s.view && n.calling == s.calling && Free(n, c)
      && n.desk.store == s.desk.store[base.id := r.order]
      && n.desk.clients == s.desk.clients[c := D.Outbox(r.order, [r.event], false)]
  {
    hide Apply, D.Lengthened;
    var a, b := DeskStep(D.Attempt(c, fill, now)), DeskStep(D.Update(c));
    EventOfChange(s.desk.clients[c].base, fill, now);
    var m := Effect(s, a);
    n := Effect(m, b);
    OneStep(s, a, m);
    OneStep(m, b, n);
    StepsJoin(s, [a], m, [b], n);
    actions := [a] + [b];
    var r := Apply(s.desk.clients[c].base, fill, now);
    assert n.desk.clients == s.desk.clients[c := D.Outbox(r.order, [r.event], false)];
  }

  /** A new call with one event, left to itself, puts exactly that event on the projection's queue. */
  lemma OneArrives(p: System, m: System, n: nat, e: Event)
    requires Reachable(p) && Reachable(m) && B.OnlyCall(p.bus, n, m.bus) && !p.bus.closed && n < |p.bus.calls|
    requires p.bus.calls[n].events == [e] && p.bus.calls[n].at == 0 && p.bus.calls[n].sub == 0 && !m.bus.calls[n].active
    ensures |p.bus.subs| >= 1 && |m.bus.subs| >= 1 && Arrived(m) == Arrived(p) + [e]
  {
    hide Reachable, Events, B.FromCall, D.Inv, Truthful, Submitted, ProjectAll, Balanced, B.Inv, Sent;
    var lens := Lens("", "", NetQuantity);
    ReachableInv(p, lens);
    ReachableInv(m, lens);
    var before, after := p.bus.subs[0].accepted, m.bus.subs[0].accepted;
    assert B.Extended(p.bus.subs[0], m.bus.subs[0], n);
    var fresh' := after[|before|..];
    assert after == before + fresh';
    CallSent(p, n);
    CallSent(m, n);
    AllSent(m, n);
    NoneSent(p, n);
    EventsLength(B.FromCall(before, n));
    B.FromCallConcat(before, fresh', n);
    FromCallAll(fresh', n);
    EventsConcat(before, fresh');
    assert B.FromCall(before, n) + fresh' == fresh';
  }

  lemma NoneSent(s: System, n: nat)
    requires n < |s.bus.calls| && s.bus.calls[n].at == 0 && s.bus.calls[n].sub == 0
    ensures Sent(s.bus.calls[n]) == 0
  {}

  lemma {:induction false} FromCallAll(ds: seq<B.Delivery>, c: nat)
    requires forall i :: 0 <= i < |ds| ==> ds[i].call == c
    ensures B.FromCall(ds, c) == ds
  {
    if ds != [] { FromCallAll(ds[..|ds| - 1], c); }
  }

  // ---- what the projection then lacks

  lemma {:induction false} NoMeta(es: seq<Event>, id: string)
    requires !Announces(es, id)
    ensures MetaIn(es, id).None?
  {
    if es != [] {
      var before := es[..|es| - 1];
      forall j | 0 <= j < |before| && before[j].OrderPlaced? ensures before[j].orderID != id {
        assert before[j] == es[j];
      }
      NoMeta(before, id);
    }
  }

  /** A lone fill that came too early is all that is lost. */
  lemma {:induction false} OneOrphan(metas: Registry, lens: Lens, es: seq<Event>, x: nat)
    requires x < |es| && FirstExcept(es, x) && es[x].IsFill() && !Announces(es[..x], es[x].orderID)
    ensures Orphans(metas, lens, es) == Weight(metas, lens, es[x])
  {
    hide MetaIn, Weight, Announces;
    var before, e := es[..|es| - 1], es[|es| - 1];
    FirstPrefix(es, x);
    if x == |es| - 1 {
      NoOrphans(metas, lens, before);
      NoMeta(before, e.orderID);
    } else {
      assert before[..x] == es[..x];
      OneOrphan(metas, lens, before, x);
      if e.IsFill() {
        var j :| 0 <= j < |es| - 1 && es[j].OrderPlaced? && es[j].orderID == e.orderID;
        assert before[j] == es[j];
        AnnouncedMeta(before, j);
      }
    }
  }

  lemma FirstPrefix(es: seq<Event>, x: nat)
    requires es != [] && x < |es| && FirstExcept(es, x)
    ensures var before := es[..|es| - 1];
      FirstExcept(before, x) && (x == |es| - 1 ==> AnnouncedFirst(before))
  {
    var before := es[..|es| - 1];
    forall i | 0 <= i < |before| && i != x && before[i].IsFill()
      ensures exists j :: 0 <= j < i && before[j].OrderPlaced? && before[j].orderID == before[i].orderID
    {
      var j :| 0 <= j < i && es[j].OrderPlaced? && es[j].orderID == es[i].orderID;
      assert before[j] == es[j];
    }
  }

  /** Counted without sign, whatever else was lost, a fill that came too early is missing too. */
  lemma {:induction false} OrphansAtLeast(metas: Registry, lens: Lens, es: seq<Event>, x: nat)
    requires lens.measure == Quantity && EventsOk(metas, es)
    requires x < |es| ==> es[x].IsFill() && !Announces(es[..x], es[x].orderID)
    ensures Orphans(metas, lens, es) >= if x < |es| then Weight(metas, lens, es[x]) else 0
  {
    hide MetaIn, Announces, FixedPoint.MulQuantity;
    if es != [] {
      var before, e := es[..|es| - 1], es[|es| - 1];
      assert EventOk(metas, e);
      if x < |before| { assert before[..x] == es[..x]; }
      if x == |before| { NoMeta(before, e.orderID); }
      OrphansAtLeast(metas, lens, before, x);
    }
  }

  /** A run that only winds down is patient. */
  lemma {:induction false} WindingIsPatient(s: System, actions: seq<Action>, s': System)
    requires Steps(s, actions, s') && AllWinding(actions)
    ensures PatientSteps(s, actions, s')
    decreases |actions|
  {
    hide Enabled, Effect, Announces, Events;
    if actions != [] { WindingIsPatient(Effect(s, actions[0]), actions[1..], s'); }
  }

  /** After the lone fill every other client and call is as patient as before. */
  lemma PatientButOne(s: System, m: System, c: nat, e: Event)
    requires AllPatient(s, -1) && !s.bus.closed && c < |s.desk.clients|
    requires m.desk.clients == s.desk.clients[c := D.Idle] && !m.bus.closed
    requires |m.bus.subs| >= 1 && m.bus.subs[0].name == "" && Arrived(m) == Arrived(s) + [e]
    requires |m.bus.calls| == |s.bus.calls| + 1 && !m.bus.calls[|s.bus.calls|].active
    requires forall i :: 0 <= i < |s.bus.calls| ==> m.bus.calls[i] == s.bus.calls[i]
    ensures AllPatient(m, |Arrived(s)|)
  {
    hide Events, FillsAnnounced, ClientPatient, Announces;
    var arrived := Arrived(s);
    EventsLength(m.bus.subs[0].accepted);
    assert FirstExcept(arrived, |arrived|);
    FirstMore(arrived, e, |arrived|);
    forall i | 0 <= i < |m.bus.calls| && m.bus.calls[i].active
      ensures FillsAnnounced(Arrived(m), m.bus.calls[i].events)
    {
      FillsMore(arrived, e, s.bus.calls[i].events);
    }
    forall i | 0 <= i < |m.desk.clients| ensures ClientPatient(Arrived(m), m.desk.clients[i]) {
      if i == c { IdlePatient(Arrived(m)); } else { ClientMore(arrived, e, s.desk.clients[i]); }
    }
  }

  lemma IdlePatient(arrived: seq<Event>)
    ensures ClientPatient(arrived, D.Idle)
  {}

  lemma {:induction false} EventsPrefix(xs: seq<B.Delivery>, ys: seq<B.Delivery>)
    requires xs <= ys
    ensures Events(xs) <= Events(ys)
  {
    assert ys == xs + ys[|xs|..];
    EventsConcat(xs, ys[|xs|..]);
  }

  /**
   From every reachable state on an open bus in which a client is about to fill an order that has not been
   announced, some run starting with that fill ends drained and open with the fill lost for good:
   what the position has traded falls short of the stored filled quantity by at least the fill.
   */
  lemma UnannouncedFillIsLost(s: System, c: nat, fill: Command, now: Time) returns (actions: seq<Action>, s': System)
    requires Reachable(s) && !s.bus.closed && ReadyToFill(s, c, fill, now)
    requires |s.bus.subs| >= 1 && !Announces(Arrived(s), s.desk.clients[c].base.id)
    ensures Steps(s, actions, s') && actions != [] && actions[0] == DeskStep(D.Attempt(c, fill, now))
    ensures Reachable(s') && Quiescent(s') && !s'.bus.closed
    ensures var base := s.desk.clients[c].base;
      && s'.desk.store == s.desk.store[base.id := Apply(base, fill, now).order]
      && TradeSum(Quantity, Trades(Events(s'.bus.subs[0].handled), base.accountID, base.symbol))
           <= StoredQuantity(s'.desk.store, base.accountID, base.symbol) - fill.qty
  {
    hide Steps, Reachable, Apply, Quiescent, Events, ReadyToFill, Announces, AllWinding, Trades, TradeSum,
      StoredQuantity, Continues;
    ReadyClient(s, c, fill, now);
    var base := s.desk.clients[c].base;
    var r := Apply(base, fill, now);
    FillFacts(s, c, fill, now);
    var first, m := FillAlone(s, c, fill, now);
    var rest;
    rest, s' := CanSettle(m);
    ContinuesOpen(m, s');
    StepsJoin(s, first, m, rest, s');
    actions := first + rest;
    var es, x := Events(s'.bus.subs[0].handled), |Arrived(s)|;
    EventsPrefix(m.bus.subs[0].accepted, s'.bus.subs[0].accepted);
    assert es[..x] == Arrived(s) && es[x] == r.event;
    ShortBy(s', es, x, base, r.order);
  }

  lemma FillFacts(s: System, c: nat, fill: Command, now: Time)
    requires ReadyToFill(s, c, fill, now)
    ensures var base := s.desk.clients[c].base;
      var r := Apply(base, fill, now);
      && r.Applied? && r.event.IsFill() && r.event.orderID == base.id && r.event.fillQty == fill.qty
      && r.order.accountID == base.accountID && r.order.symbol == base.symbol && r.order.side == base.side
  {
    hide Apply;
    EventOfChange(s.desk.clients[c].base, fill, now);
    TermsOfChange(s.desk.clients[c].base, fill, now);
  }

  lemma TermsOfChange(base: Snapshot, command: Command, now: Time)
    ensures var r := Apply(base, command, now);
      r.Applied? ==> r.order.accountID == base.accountID && r.order.symbol == base.symbol && r.order.side == base.side
  {
    hide FillTally;
  }

  lemma ShortBy(s: System, es: seq<Event>, x: nat, base: Snapshot, next: Snapshot)
    requires Reachable(s) && Quiescent(s) && !s.bus.closed && es == Events(s.bus.subs[0].handled)
    requires x < |es| && es[x].IsFill() && es[x].orderID == base.id && !Announces(es[..x], base.id)
    requires base.id in s.desk.store && s.desk.store[base.id] == next
    requires next.accountID == base.accountID && next.symbol == base.symbol
    ensures TradeSum(Quantity, Trades(es, base.accountID, base.symbol))
         <= StoredQuantity(s.desk.store, base.accountID, base.symbol) - es[x].fillQty
  {
    hide Reachable, Quiescent, Inv, Balanced, Events, Announces, Trades, TradeSum, Committed, StoredQuantity,
      StoredCost, StoredNet, Orphans, EventOk, ProjectAll, Submitted;
    var lens := Lens(base.accountID, base.symbol, Quantity);
    ReachableInv(s, lens);
    StoredTotals(s, base.accountID, base.symbol);
    HandledOk(s);
    DrainedTotals(s, lens);
    OrphansAtLeast(Metas(s.desk.store), lens, es, x);
  }

  /**
   The discipline cannot be relaxed: at the first fill that breaks it, after any run that kept it, some
   continuation ends drained and open with every position showing the stored quantity less exactly that fill.
   */
  lemma FirstLapseLoses(s0: System, before: seq<Action>, s: System, c: nat, fill: Command, now: Time)
    returns (actions: seq<Action>, s': System)
    requires Start(s0) && PatientSteps(s0, before, s) && !s.bus.closed && ReadyToFill(s, c, fill, now)
    requires !Patient(s, DeskStep(D.Attempt(c, fill, now)))
    ensures Steps(s, actions, s') && actions != [] && actions[0] == DeskStep(D.Attempt(c, fill, now))
    ensures Reachable(s') && Quiescent(s') && !s'.bus.closed
    ensures var base := s.desk.clients[c].base;
      && s'.desk.store == s.desk.store[base.id := Apply(base, fill, now).order]
      && forall account, symbol ::
           PositionAt(s'.view, account, symbol).netQty == Wrap(StoredNet(s'.desk.store, account, symbol)
             - if Belongs(base, account, symbol) then Signed(base.side, fill.qty) else 0)
  {
    hide Start, PatientSteps, Steps, Reachable, Apply, Quiescent, Events, ReadyToFill, AllWinding, StoredNet,
      Continues, PositionAt, Wrap, Inv, FirstExcept, ClientPatient, FillsAnnounced, Announces;
    PatientFromStart(s0, before, s);
    ReadyClient(s, c, fill, now);
    var base := s.desk.clients[c].base;
    var r := Apply(base, fill, now);
    FillFacts(s, c, fill, now);
    var first, m := FillAlone(s, c, fill, now);
    PatientButOne(s, m, c, r.event);
    var rest;
    rest, s' := CanSettle(m);
    ContinuesOpen(m, s');
    StepsJoin(s, first, m, rest, s');
    actions := first + rest;
    var es, x := Events(s'.bus.subs[0].handled), |Arrived(s)|;
    WindsPatiently(m, rest, s', x);
    EventsPrefix(m.bus.subs[0].accepted, s'.bus.subs[0].accepted);
    assert es[..x] == Arrived(s) && es[x] == r.event;
    forall account, symbol
      ensures PositionAt(s'.view, account, symbol).netQty == Wrap(StoredNet(s'.desk.store, account, symbol)
                - if Belongs(base, account, symbol) then Signed(base.side, fill.qty) else 0)
    {
      ShortByOne(s', es, x, base, r.order, account, symbol);
    }
  }

  lemma WindsPatiently(m: System, rest: seq<Action>, s': System, x: int)
    requires Reachable(m) && AllPatient(m, x) && Steps(m, rest, s') && AllWinding(rest)
    ensures |s'.bus.subs| >= 1 && FirstExcept(Arrived(s'), x)
  {
    hide Steps, Reachable, PatientSteps, AllWinding, Inv, Balanced, FirstExcept, ClientPatient, FillsAnnounced,
      Events;
    var lens := Lens("", "", NetQuantity);
    ReachableInv(m, lens);
    WindingIsPatient(m, rest, s');
    PatientRun(m, rest, s', x, lens);
  }

  lemma ShortByOne(s: System, es: seq<Event>, x: nat, base: Snapshot, next: Snapshot, account: string, symbol: string)
    requires Reachable(s) && Quiescent(s) && !s.bus.closed && es == Events(s.bus.subs[0].handled)
    requires x < |es| && FirstExcept(es, x)
    requires es[x].IsFill() && es[x].orderID == base.id && !Announces(es[..x], base.id)
    requires base.id in s.desk.store && s.desk.store[base.id] == next
    requires next.accountID == base.accountID && next.symbol == base.symbol && next.side == base.side
    ensures PositionAt(s.view, account, symbol).netQty == Wrap(StoredNet(s.desk.store, account, symbol)
              - if Belongs(base, account, symbol) then Signed(base.side, es[x].fillQty) else 0)
  {
    hide Reachable, Quiescent, Events, Announces, FirstExcept, AnnouncedFirst, StoredNet, PositionAt, Wrap, Orphans;
    DrainedDisplay(s, account, symbol);
    OneOrphan(Metas(s.desk.store), Lens(account, symbol, NetQuantity), es, x);
  }

  // ---------------------------------------------------------------- the shortest such run

  /**
   The bus comment's promise that an announcement is always projected before the fills that follow it is not
   kept by the program: between Save and Publish another client can read the order, fill it and
   publish first. With two clients and one order, the run ends drained with the fill stored and nothing on display.
   */
  lemma FillOvertakes(s0: System, o: Opening, fill: Command, now: Time) returns (actions: seq<Action>, s': System)
    requires Start(s0) && |s0.desk.clients| >= 2 && IsOpening(o) && fill.Fill?
    requires Apply(D.Decided(o, Step(Accept, now)).order, fill, now).Applied?
    ensures Steps(s0, actions, s') && Quiescent(s') && !s'.bus.closed
    ensures StoredNet(s'.desk.store, o.order.accountID, o.order.symbol) == Signed(o.order.side, fill.qty)
    ensures PositionAt(s'.view, o.order.accountID, o.order.symbol).netQty == 0
  {
    hide Steps, PatientSteps, Apply, IsOpening, D.Decided, Quiescent, StoredNet, PositionAt, Patient, Start, Wrap,
      Reachable, ReadyToFill, Lifecycle;
    var before, s := ReadUnannounced(s0, o, fill, now);
    ReadyClient(s, 1, fill, now);
    var base := s.desk.clients[1].base;
    var rest;
    rest, s' := FirstLapseLoses(s0, before, s, 1, fill, now);
    PatientAreSteps(s0, before, s);
    StepsJoin(s0, before, s, rest, s');
    actions := before + rest;
    FillFacts(s, 1, fill, now);
    FilledOnce(base, fill, now);
    var next := Apply(base, fill, now).order;
    assert s'.desk.store == map[base.id := next];
    OnlyOrder(s'.desk.store, base.id, next, base.accountID, base.symbol);
    NothingShown();
  }

  lemma NothingShown()
    ensures Wrap(0) == 0
  {}

  /** Client 0 has saved its order and not published it; client 1 has read it. */
  lemma ReadUnannounced(s0: System, o: Opening, fill: Command, now: Time) returns (actions: seq<Action>, s: System)
    requires Start(s0) && |s0.desk.clients| >= 2 && IsOpening(o) && fill.Fill?
    requires Apply(D.Decided(o, Step(Accept, now)).order, fill, now).Applied?
    ensures PatientSteps(s0, actions, s) && !s.bus.closed && ReadyToFill(s, 1, fill, now)
    ensures !Patient(s, DeskStep(D.Attempt(1, fill, now)))
    ensures var t := D.Decided(o, Step(Accept, now));
      && s.desk.clients[1].base == t.order && s.desk.store == map[t.order.id := t.order]
      && Lifecycle(t.order) && t.order.filledQty == 0 && SameTerms(o.order, t.order)
  {
    hide IsOpening, D.Decided, Apply, D.LifeOk, Events;
    var risk, step := D.RiskVerdict(true, ""), Step(Accept, now);
    D.NewLife(o, risk, "", step);
    D.StoredId(o.order.id, D.Life(o, [step], risk, ""), D.Decided(o, step).order);
    NoEvents();
    actions := [DeskStep(D.CheckKey(0, "")), DeskStep(D.Build(0, o, risk, now)), DeskStep(D.Save(0)),
                DeskStep(D.Get(1, o.order.id))];
    var s1 := Effect(s0, actions[0]);
    var s2 := Effect(s1, actions[1]);
    var s3 := Effect(s2, actions[2]);
    s := Effect(s3, actions[3]);
    assert PatientSteps(s3, actions[3..], s) by { assert actions[3..][1..] == []; }
    assert PatientSteps(s2, actions[2..], s) by { assert actions[2..][1..] == actions[3..]; }
    assert PatientSteps(s1, actions[1..], s) by { assert actions[1..][1..] == actions[2..]; }
  }

  lemma FilledOnce(base: Snapshot, fill: Command, now: Time)
    requires fill.Fill? && Apply(base, fill, now).Applied? && Lifecycle(base) && base.filledQty == 0
    ensures Apply(base, fill, now).order.filledQty == fill.qty && Fits(fill.qty)
  {
    hide FillTally;
    FillTallyOk(base, fill.qty, fill.px);
  }

  lemma OnlyOrder(store: map<string, Snapshot>, id: string, s: Snapshot, account: string, symbol: string)
    requires store == map[id := s] && Belongs(s, account, symbol)
    ensures StoredNet(store, account, symbol) == Signed(s.side, s.filledQty)
  {
    var m := map i | i in store :: NetOf(store[i], account, symbol);
    SumRemove(m, id);
    assert m - {id} == map[];
  }

  lemma {:induction false} PatientAreSteps(s: System, actions: seq<Action>, s': System)
    requires PatientSteps(s, actions, s')
    ensures Steps(s, actions, s')
    decreases |actions|
  {
    hide Enabled, Effect, Patient;
    if actions != [] { PatientAreSteps(Effect(s, actions[0]), actions[1..], s'); }
  }

  // ---------------------------------------------------------------- a repeated key is no sign

  /**
   An id answered for a repeated idempotency key may name an order not announced yet: the key is bound before
   the announcement is published, so the second caller has its answer, is idle and free, while the first
   still holds the news.
   */
  lemma AnsweredUnannounced(s0: System, o: Opening, key: string, now: Time) returns (actions: seq<Action>, s: System)
    requires Start(s0) && |s0.desk.clients| >= 2 && IsOpening(o) && key != ""
    ensures Steps(s0, actions, s) && actions != [] && actions[|actions| - 1] == DeskStep(D.CheckKey(1, key))
    ensures (key, o.order.id) in s.desk.answers && o.order.id in s.desk.store
    ensures s.desk.store[o.order.id].status == Accepted
    ensures |s.desk.clients| >= 2 && s.desk.clients[1].Idle? && Free(s, 1) && !s.bus.closed
    ensures |s.bus.subs| >= 1 && !Announces(Arrived(s), o.order.id)
  {
    hide IsOpening, D.Decided, Steps;
    var first, m := BoundUnannounced(s0, o, key, now);
    var again := DeskStep(D.CheckKey(1, key));
    s := Effect(m, again);
    OneStep(m, again, s);
    StepsJoin(s0, first, m, [again], s);
    actions := first + [again];
    NothingAnnounced(o.order.id);
  }

  /** Client 0 has saved its order and bound the key, and published nothing. */
  lemma BoundUnannounced(s0: System, o: Opening, key: string, now: Time) returns (actions: seq<Action>, s: System)
    requires Start(s0) && |s0.desk.clients| >= 2 && IsOpening(o) && key != ""
    ensures Steps(s0, actions, s)
    ensures key in s.desk.idem && s.desk.idem[key] == o.order.id && o.order.id in s.desk.store
    ensures s.desk.store[o.order.id].status == Accepted
    ensures |s.desk.clients| >= 2 && s.desk.clients[1].Idle? && s.calling == map[] && !s.bus.closed
    ensures |s.bus.subs| >= 1 && Arrived(s) == []
  {
    hide IsOpening, D.Decided, D.LifeOk, Events;
    var risk := D.RiskVerdict(true, "");
    D.NewLife(o, risk, key, Step(Accept, now));
    NoEvents();
    actions := [DeskStep(D.CheckKey(0, key)), DeskStep(D.Build(0, o, risk, now)), DeskStep(D.Save(0)),
                DeskStep(D.Bind(0))];
    var s1 := Effect(s0, actions[0]);
    var s2 := Effect(s1, actions[1]);
    var s3 := Effect(s2, actions[2]);
    s := Effect(s3, actions[3]);
    assert Steps(s3, actions[3..], s) by { assert actions[3..][1..] == []; }
    assert Steps(s2, actions[2..], s) by { assert actions[2..][1..] == actions[3..]; }
    assert Steps(s1, actions[1..], s) by { assert actions[1..][1..] == actions[2..]; }
  }
}
