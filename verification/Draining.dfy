/**
 Progress of the whole system: from every reachable state, with no new command, the clients can publish what
 they have committed, their Publish calls can return and the workers can handle everything that was sent.
 */
module Draining {
  import opened Wrappers
  import opened Orders
  import opened ReadModel
  import opened Ledger
  import opened System
  import D = Desk
  import B = EventBus

  /** Steps that begin nothing: bus steps, binding a key, and publishing what is already committed. */
  predicate Winding(a: Action) {
    || (a.BusStep? && !a.b.Subscribe? && !a.b.Close?)
    || a.ProjectNext? || a.PublishFrom? || (a.DeskStep? && a.d.Bind?)
  }

  ghost predicate AllWinding(actions: seq<Action>) {
    forall i :: 0 <= i < |actions| ==> Winding(actions[i])
  }

  /** What winding down leaves alone, and that it only adds to what the projection was sent. */
  ghost predicate Continues(s: System, s': System) {
    && s'.desk.store == s.desk.store && s'.desk.lives == s.desk.lives && |s'.desk.clients| == |s.desk.clients|
    && s'.bus.closed == s.bus.closed && 1 <= |s.bus.subs| == |s'.bus.subs|
    && s.bus.subs[0].accepted <= s'.bus.subs[0].accepted
  }

  lemma ContinuesTransitive(s: System, m: System, s': System)
    requires Continues(s, m) && Continues(m, s')
    ensures Continues(s, s')
  {}

  ghost predicate NoCalls(s: System) {
    forall i :: 0 <= i < |s.bus.calls| ==> !s.bus.calls[i].active
  }

  // ---------------------------------------------------------------- runs

  lemma {:induction false} StepsJoin(s: System, xs: seq<Action>, m: System, ys: seq<Action>, s': System)
    requires Steps(s, xs, m) && Steps(m, ys, s')
    ensures Steps(s, xs + ys, s')
    decreases |xs|
  {
    hide Enabled, Effect;
    if xs == [] {
      assert xs + ys == ys;
    } else {
      StepsJoin(Effect(s, xs[0]), xs[1..], m, ys, s');
      assert (xs + ys)[1..] == xs[1..] + ys;
    }
  }

  lemma OneStep(s: System, a: Action, s': System)
    requires Enabled(s, a) && Effect(s, a) == s'
    ensures Steps(s, [a], s')
  {
    hide Enabled, Effect;
    assert [a][1..] == [];
  }

  lemma ReachableOn(s: System, actions: seq<Action>, s': System)
    requires Reachable(s) && Steps(s, actions, s')
    ensures Reachable(s')
  {
    hide Steps, Start;
    var s0, before :| Start(s0) && Steps(s0, before, s);
    StepsJoin(s0, before, s, actions, s');
  }

  /** The same bus step, taken by the whole system. */
  function Lifted(b: B.Action): Action {
    if b == B.Done(0) then ProjectNext else BusStep(b)
  }

  /** A run of the bus alone is a run of the system. */
  lemma {:induction false} LiftedRun(s: System, bs: seq<B.Action>, b': B.Bus) returns (actions: seq<Action>, s': System)
    requires B.Steps(s.bus, bs, b')
    requires forall i :: 0 <= i < |bs| ==> !bs[i].Publish? && !bs[i].Subscribe? && !bs[i].Close?
    ensures Steps(s, actions, s') && AllWinding(actions)
    ensures s'.bus == b' && s'.desk == s.desk && s'.calling == s.calling
    decreases |bs|
  {
    hide B.Enabled, B.Effect, Projected;
    if bs == [] {
      actions, s' := [], s;
    } else {
      var a := Lifted(bs[0]);
      var m := Effect(s, a);
      var rest;
      rest, s' := LiftedRun(m, bs[1..], b');
      actions := [a] + rest;
      assert actions[1..] == rest;
    }
  }

  // ---------------------------------------------------------------- calls return

  lemma OpenShape(s: System)
    requires Reachable(s)
    ensures B.Shape(s.bus) && |s.bus.subs| >= 1
  {
    hide Reachable, D.Inv, Truthful, Balanced, B.Shape, B.Ledger, B.Delivered, Events, ProjectAll, Submitted;
    ReachableInv(s, Lens("", "", NetQuantity));
  }

  /** One call in progress can return while everything else waits. */
  lemma CallReturns(s: System, n: nat) returns (actions: seq<Action>, s': System)
    requires Reachable(s) && n < |s.bus.calls|
    ensures Steps(s, actions, s') && AllWinding(actions) && Reachable(s') && Continues(s, s')
    ensures s'.desk == s.desk && s'.calling == s.calling
    ensures B.OnlyCall(s.bus, n, s'.bus) && !s'.bus.calls[n].active
  {
    hide Reachable, Steps, B.Steps, B.Shape, Winding, B.Extended;
    OpenShape(s);
    if s.bus.calls[n].active {
      var bs, b' := B.PublishReturns(s.bus, n);
      actions, s' := LiftedRun(s, bs, b');
      FirstExtended(s.bus, n, b');
      ReachableOn(s, actions, s');
    } else {
      actions, s' := [], s;
      NoSteps(s);
      SameCall(s.bus, n);
    }
  }

  lemma NoSteps(s: System)
    ensures Steps(s, [], s)
  {}

  lemma SameCall(b: B.Bus, n: nat)
    requires n < |b.calls|
    ensures B.OnlyCall(b, n, b)
  {}

  lemma FirstExtended(b: B.Bus, n: nat, b': B.Bus)
    requires B.OnlyCall(b, n, b') && |b.subs| >= 1
    ensures b'.closed == b.closed && |b'.subs| == |b.subs| && b.subs[0].accepted <= b'.subs[0].accepted
  {
    assert B.Extended(b.subs[0], b'.subs[0], n);
  }

  lemma {:induction false} CallsReturn(s: System, n: nat) returns (actions: seq<Action>, s': System)
    requires Reachable(s) && n <= |s.bus.calls|
    ensures Steps(s, actions, s') && AllWinding(actions) && Reachable(s') && Continues(s, s')
    ensures s'.desk == s.desk && |s'.bus.calls| == |s.bus.calls|
    ensures forall i :: 0 <= i < n ==> !s'.bus.calls[i].active
  {
    hide Reachable, Steps, Winding, Continues, B.Extended;
    if n == 0 {
      actions, s' := [], s;
      NoSteps(s);
      OpenShape(s);
      assert Continues(s, s) by { Unmoved(s); }
    } else {
      var before, m := CallsReturn(s, n - 1);
      var last;
      last, s' := CallReturns(m, n - 1);
      StepsJoin(s, before, m, last, s');
      ContinuesTransitive(s, m, s');
      actions := before + last;
    }
  }

  lemma Unmoved(s: System)
    requires |s.bus.subs| >= 1
    ensures Continues(s, s)
  {}

  // ---------------------------------------------------------------- clients publish

  /** The client has nothing left to publish, and nobody else moved. */
  ghost predicate Flushed(s: System, c: nat, s': System) {
    && c < |s.desk.clients| == |s'.desk.clients| && Outgoing(s'.desk.clients[c]) == []
    && forall i :: 0 <= i < |s.desk.clients| && i != c ==> s'.desk.clients[i] == s.desk.clients[i]
  }

  lemma BindStep(s: System, c: nat) returns (s': System)
    requires c < |s.desk.clients| && s.desk.clients[c].Keying? && NoCalls(s) && |s.bus.subs| >= 1
    ensures Steps(s, [DeskStep(D.Bind(c))], s') && Winding(DeskStep(D.Bind(c))) && Continues(s, s') && NoCalls(s')
    ensures |s'.desk.clients| == |s.desk.clients| && s'.desk.clients[c].Outbox? && s'.bus == s.bus
    ensures forall i :: 0 <= i < |s.desk.clients| && i != c ==> s'.desk.clients[i] == s.desk.clients[i]
  {
    s' := Effect(s, DeskStep(D.Bind(c)));
    OneStep(s, DeskStep(D.Bind(c)), s');
  }

  lemma PublishStep(s: System, c: nat) returns (s': System)
    requires c < |s.desk.clients| && s.desk.clients[c].Outbox? && Free(s, c) && |s.bus.subs| >= 1
    ensures Steps(s, [PublishFrom(c)], s') && Continues(s, s') && Flushed(s, c, s')
    ensures s'.desk.clients[c] == if s.desk.clients[c].placed && s.desk.clients[c].order.status == Accepted
                                  then D.Routing(s.desk.clients[c].order) else D.Idle
    ensures s'.bus == s.bus.(calls := s.bus.calls + [B.Begun(s.bus, s.desk.clients[c].events)])
    ensures s'.desk.routed == s.desk.routed
  {
    s' := Effect(s, PublishFrom(c));
    OneStep(s, PublishFrom(c), s');
  }

  lemma PublishOne(s: System, c: nat) returns (actions: seq<Action>, s': System)
    requires Reachable(s) && c < |s.desk.clients| && s.desk.clients[c].Outbox? && NoCalls(s)
    ensures Steps(s, actions, s') && AllWinding(actions) && Reachable(s') && Continues(s, s')
    ensures NoCalls(s') && Flushed(s, c, s')
  {
    hide Reachable, Steps, Continues, B.Extended, Outgoing;
    OpenShape(s);
    var m := PublishStep(s, c);
    ReachableOn(s, [PublishFrom(c)], m);
    var rest;
    rest, s' := CallReturns(m, |s.bus.calls|);
    StepsJoin(s, [PublishFrom(c)], m, rest, s');
    ContinuesTransitive(s, m, s');
    actions := [PublishFrom(c)] + rest;
  }

  lemma FlushOne(s: System, c: nat) returns (actions: seq<Action>, s': System)
    requires Reachable(s) && c < |s.desk.clients| && NoCalls(s)
    ensures Steps(s, actions, s') && AllWinding(actions) && Reachable(s') && Continues(s, s')
    ensures NoCalls(s') && Flushed(s, c, s')
  {
    hide Reachable, Steps, Continues, Winding, NoCalls;
    OpenShape(s);
    if s.desk.clients[c].Keying? {
      var m := BindStep(s, c);
      ReachableOn(s, [DeskStep(D.Bind(c))], m);
      var rest;
      rest, s' := PublishOne(m, c);
      StepsJoin(s, [DeskStep(D.Bind(c))], m, rest, s');
      ContinuesTransitive(s, m, s');
      actions := [DeskStep(D.Bind(c))] + rest;
    } else if s.desk.clients[c].Outbox? {
      actions, s' := PublishOne(s, c);
    } else {
      actions, s' := [], s;
      NoSteps(s);
      Unmoved(s);
    }
  }

  lemma {:induction false} FlushAll(s: System, n: nat) returns (actions: seq<Action>, s': System)
    requires Reachable(s) && n <= |s.desk.clients| && NoCalls(s)
    ensures Steps(s, actions, s') && AllWinding(actions) && Reachable(s') && Continues(s, s') && NoCalls(s')
    ensures |s'.desk.clients| == |s.desk.clients| && forall i :: 0 <= i < n ==> Outgoing(s'.desk.clients[i]) == []
  {
    hide Reachable, Steps, Continues, Winding, NoCalls, Outgoing;
    if n == 0 {
      actions, s' := [], s;
      NoSteps(s);
      OpenShape(s);
      Unmoved(s);
    } else {
      var before, m := FlushAll(s, n - 1);
      var last;
      last, s' := FlushOne(m, n - 1);
      StepsJoin(s, before, m, last, s');
      ContinuesTransitive(s, m, s');
      actions := before + last;
    }
  }

  // ---------------------------------------------------------------- workers finish

  lemma WorkersFinish(s: System) returns (actions: seq<Action>, s': System)
    requires Reachable(s)
    ensures Steps(s, actions, s') && AllWinding(actions) && Reachable(s') && Continues(s, s')
    ensures s'.desk == s.desk && s'.bus.calls == s.bus.calls
    ensures s'.bus.subs[0].handled == s'.bus.subs[0].accepted == s.bus.subs[0].accepted
    ensures s'.bus.subs[0].queue == [] && s'.bus.subs[0].busy == None
  {
    hide Reachable, Steps, B.Steps, Winding, B.CallOk, B.SubOk;
    OpenShape(s);
    var bs, b' := B.WorkersDrain(s.bus);
    actions, s' := LiftedRun(s, bs, b');
    ReachableOn(s, actions, s');
    OpenShape(s');
    assert B.SubOk(s'.bus.subs[0]);
    NothingLeft(s'.bus.subs[0]);
  }

  lemma NothingLeft(sub: B.Subscription)
    requires B.SubOk(sub) && sub.handled == sub.accepted
    ensures sub.queue == [] && sub.busy == None
  {
    assert |sub.accepted| == |sub.handled| + |sub.InHand()| + |sub.queue|;
  }

  /**
   Everything can always be finished: from every reachable state some run that begins nothing new, closes
   nothing and changes no order ends with nothing on its way and the projection having handled all it was sent.
   */
  lemma CanSettle(s: System) returns (actions: seq<Action>, s': System)
    requires Reachable(s)
    ensures Steps(s, actions, s') && AllWinding(actions) && Reachable(s') && Continues(s, s') && Quiescent(s')
    ensures s'.bus.subs[0].handled == s'.bus.subs[0].accepted
  {
    hide Reachable, Steps, Continues, Winding, Outgoing;
    var first, m := CallsReturn(s, |s.bus.calls|);
    var second, n := FlushAll(m, |m.desk.clients|);
    var third;
    third, s' := WorkersFinish(n);
    StepsJoin(s, first, m, second, n);
    StepsJoin(s, first + second, n, third, s');
    ContinuesTransitive(s, m, n);
    ContinuesTransitive(s, n, s');
    OpenShape(s');
    actions := first + second + third;
  }
}
