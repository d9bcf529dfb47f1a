/**
 Whole lives of an order: arbitrary command sequences from creation on, the event log they leave
 behind, and what that log determines.
 */
module OrderHistory {
  import opened Wrappers
  import opened Int64
  import opened FixedPoint
  import opened Orders

  /** An order together with every event it has emitted. */
  datatype Trace = Trace(order: Snapshot, log: seq<Event>)

  datatype Step = Step(command: Command, now: Time)

  function Begin(opening: Opening): Trace {
    Trace(opening.order, [opening.event])
  }

  /** A refused command changes nothing. */
  function Do(t: Trace, s: Step): Trace {
    match Apply(t.order, s.command, s.now)
    case Applied(o, e) => Trace(o, t.log + [e])
    case Refused(_) => t
  }

  function Execute(t: Trace, steps: seq<Step>): Trace {
    if steps == [] then t else Do(Execute(t, steps[..|steps| - 1]), steps[|steps| - 1])
  }

  // ---------------------------------------------------------------- replaying the log

  /** The order an OrderPlaced event announces. */
  function Announced(e: Event): Snapshot
    requires e.OrderPlaced?
  {
    Snapshot(e.orderID, e.accountID, e.symbol, e.side, e.orderType, e.tif, e.limitPrice, e.quantity,
             0, 0, New, 0, e.at, e.at)
  }

  /** What a later event says happened, read from the event alone. */
  function Evolve(o: Snapshot, e: Event): Snapshot {
    var o' := o.(version := o.version + 1, updatedAt := e.at);
    match e
    case OrderPlaced(_, _, _, _, _, _, _, _, _) => o
    case OrderAccepted(_, _) => o'.(status := Accepted)
    case OrderRejected(_, _, _) => o'.(status := Rejected)
    case OrderPartiallyFilled(_, _, _, _, cumulative, avg) =>
      o'.(status := PartiallyFilled, filledQty := cumulative, avgFillPx := avg)
    case OrderFilled(_, _, _, _, avg) => o'.(status := Filled, filledQty := o.quantity, avgFillPx := avg)
    case OrderCanceled(_, _) => o'.(status := Canceled)
    case OrderExpired(_, _) => o'.(status := Expired)
  }

  function Replay(log: seq<Event>): Option<Snapshot> {
    if log == [] then None
    else if |log| == 1 then if log[0].OrderPlaced? then Some(Announced(log[0])) else None
    else
      var before := Replay(log[..|log| - 1]);
      if before == None then None else Some(Evolve(before.value, log[|log| - 1]))
  }

  /** Total quantity of the fill events in a log. */
  function FilledBy(log: seq<Event>): int {
    if log == [] then 0
    else
      var e := log[|log| - 1];
      FilledBy(log[..|log| - 1]) + if e.IsFill() then e.fillQty else 0
  }

  /** Log and order tell the same story. */
  ghost predicate Coherent(t: Trace) {
    && Lifecycle(t.order)
    && Replay(t.log) == Some(t.order)
    && |t.log| == t.order.version + 1
    && t.log[|t.log| - 1].at == t.order.updatedAt
    && FilledBy(t.log) == t.order.filledQty
    && forall i :: 0 <= i < |t.log| ==>
         && t.log[i].orderID == t.order.id
         && (t.log[i].OrderPlaced? <==> i == 0)
         && (t.log[i].IsFill() ==> t.log[i].fillQty > 0 && t.log[i].fillPrice > 0
                                   && MulQuantity(t.log[i].fillPrice, t.log[i].fillQty).Some?)
  }

  lemma BeginCoherent(id: string, accountID: string, symbol: string, side: Side, ot: OrderType, tif: TimeInForce,
                      limitPrice: int64, quantity: int64, now: Time)
    ensures var r := Open(id, accountID, symbol, side, ot, tif, limitPrice, quantity, now);
      r.Ok? ==> Coherent(Begin(r.value))
  {
    hide Text.TrimSpace, MulQuantity;
    OpenKeepsLifecycle(id, accountID, symbol, side, ot, tif, limitPrice, quantity, now);
    var r := Open(id, accountID, symbol, side, ot, tif, limitPrice, quantity, now);
    if r.Ok? {
      assert [r.value.event][..0] == [];
      assert FilledBy([r.value.event]) == 0;
    }
  }

  lemma OpeningCoherent(o: Opening)
    requires IsOpening(o)
    ensures Coherent(Begin(o)) && o.order.status == New && o.order.version == 0
  {
    hide Coherent, Text.TrimSpace;
    var s := o.order;
    BeginCoherent(s.id, s.accountID, s.symbol, s.side, s.orderType, s.tif, s.limitPrice, s.quantity, s.createdAt);
  }

  lemma ReplayAppend(log: seq<Event>, e: Event)
    requires Replay(log).Some?
    ensures log != [] && Replay(log + [e]) == Some(Evolve(Replay(log).value, e))
    ensures FilledBy(log + [e]) == FilledBy(log) + if e.IsFill() then e.fillQty else 0
  {
    assert (log + [e])[..|log|] == log;
  }

  /** The event is a faithful account of what the command did. */
  lemma EventTellsAll(o: Snapshot, c: Command, now: Time)
    requires Lifecycle(o) && Apply(o, c, now).Applied?
    ensures Evolve(o, Apply(o, c, now).event) == Apply(o, c, now).order
    ensures var e := Apply(o, c, now).event;
      && !e.OrderPlaced?
      && (e.IsFill() ==> e.fillQty > 0 && e.fillPrice > 0 && MulQuantity(e.fillPrice, e.fillQty).Some?)
  {
    hide FillTally, MulQuantity;
    if c.Fill? { FillTallyOk(o, c.qty, c.px); }
  }

  lemma DoCoherent(t: Trace, s: Step)
    requires Coherent(t)
    ensures Coherent(Do(t, s))
  {
    hide Apply, Lifecycle, Replay, FilledBy, Evolve, MulQuantity;
    var r := Apply(t.order, s.command, s.now);
    if r.Applied? {
      ApplyKeepsLifecycle(t.order, s.command, s.now);
      EventTellsAll(t.order, s.command, s.now);
      ReplayAppend(t.log, r.event);
    }
  }

  /**
   For every life of every order: the log replays to the order, version counts the events, the
   filled quantity is the sum of the fills, and the lifecycle invariant holds throughout.
   */
  lemma {:induction false} ExecuteCoherent(t: Trace, steps: seq<Step>)
    requires Coherent(t)
    ensures Coherent(Execute(t, steps))
  {
    hide Coherent;
    if steps != [] {
      ExecuteCoherent(t, steps[..|steps| - 1]);
      DoCoherent(Execute(t, steps[..|steps| - 1]), steps[|steps| - 1]);
    }
  }

  /** Commands that took effect along a run. */
  function AppliedCount(t: Trace, steps: seq<Step>): nat {
    if steps == [] then 0
    else
      var before := steps[..|steps| - 1];
      var s := steps[|steps| - 1];
      AppliedCount(t, before) + if Apply(Execute(t, before).order, s.command, s.now).Applied? then 1 else 0
  }

  lemma {:induction false} VersionCountsApplied(t: Trace, steps: seq<Step>)
    requires Coherent(t)
    ensures Execute(t, steps).order.version == t.order.version + AppliedCount(t, steps)
  {
    hide Coherent, Apply;
    if steps != [] {
      var before := steps[..|steps| - 1];
      var s := steps[|steps| - 1];
      VersionCountsApplied(t, before);
      ExecuteCoherent(t, before);
      var o := Execute(t, before).order;
      if Apply(o, s.command, s.now).Applied? {
        assert Lifecycle(o) by { CoherentLifecycle(Execute(t, before)); }
        ApplyKeepsLifecycle(o, s.command, s.now);
      }
    }
  }

  lemma CoherentLifecycle(t: Trace)
    requires Coherent(t)
    ensures Lifecycle(t.order)
  {}

  /** No order takes more than quantity + 1 effective commands, however many are tried. */
  lemma RunsAreBounded(t: Trace, steps: seq<Step>)
    requires Coherent(t)
    ensures t.order.version + AppliedCount(t, steps) <= t.order.quantity + 1
  {
    hide Coherent;
    VersionCountsApplied(t, steps);
    ExecuteCoherent(t, steps);
    CoherentLifecycle(Execute(t, steps));
    TermsStand(t, steps);
  }

  /** The terms agreed at creation never change. */
  lemma {:induction false} TermsStand(t: Trace, steps: seq<Step>)
    requires Coherent(t)
    ensures SameTerms(t.order, Execute(t, steps).order)
  {
    hide Coherent, Apply;
    if steps != [] {
      var before := steps[..|steps| - 1];
      var s := steps[|steps| - 1];
      TermsStand(t, before);
      ExecuteCoherent(t, before);
      CoherentLifecycle(Execute(t, before));
      var o := Execute(t, before).order;
      if Apply(o, s.command, s.now).Applied? { ApplyKeepsLifecycle(o, s.command, s.now); }
    }
  }

  /** Events are only ever added behind those already there. */
  lemma {:induction false} LogGrows(t: Trace, steps: seq<Step>)
    ensures t.log <= Execute(t, steps).log
  {
    hide Apply;
    if steps != [] { LogGrows(t, steps[..|steps| - 1]); }
  }

  // ---------------------------------------------------------------- buffers, pulls and reloads

  /** A live order object: its state, the events it still buffers, and the events pulled from it so far. */
  datatype Session = Session(order: Snapshot, buffer: seq<Event>, pulled: seq<Event>)

  /** PullEvents empties the buffer; Reload stores a snapshot and rehydrates it, which starts with no buffer. */
  datatype Use = Perform(step: Step) | Pull | Reload

  function UseOnce(s: Session, u: Use): Session {
    match u
    case Perform(step) =>
      (match Apply(s.order, step.command, step.now)
       case Applied(o, e) => Session(o, s.buffer + [e], s.pulled)
       case Refused(_) => s)
    case Pull => Session(s.order, [], s.pulled + s.buffer)
    case Reload => Session(s.order, [], s.pulled)
  }

  function UseAll(s: Session, uses: seq<Use>): Session {
    if uses == [] then s else UseOnce(UseAll(s, uses[..|uses| - 1]), uses[|uses| - 1])
  }

  /** Events thrown away by reloading an order whose buffer had not been pulled. */
  function Lost(s: Session, uses: seq<Use>): nat {
    if uses == [] then 0
    else
      var before := uses[..|uses| - 1];
      Lost(s, before) + if uses[|uses| - 1].Reload? then |UseAll(s, before).buffer| else 0
  }

  ghost predicate SessionInv(s: Session, lost: nat) {
    && Lifecycle(s.order)
    && |s.pulled| + |s.buffer| + lost == s.order.version + 1
    && (lost == 0 ==> Replay(s.pulled + s.buffer) == Some(s.order))
  }

  lemma UseKeeps(s: Session, u: Use, lost: nat)
    requires SessionInv(s, lost)
    ensures SessionInv(UseOnce(s, u), lost + if u.Reload? then |s.buffer| else 0)
  {
    hide Apply, Lifecycle, Replay, Evolve;
    if u.Perform? {
      var r := Apply(s.order, u.step.command, u.step.now);
      if r.Applied? {
        ApplyKeepsLifecycle(s.order, u.step.command, u.step.now);
        EventTellsAll(s.order, u.step.command, u.step.now);
        if lost == 0 {
          assert s.pulled + (s.buffer + [r.event]) == (s.pulled + s.buffer) + [r.event];
          ReplayAppend(s.pulled + s.buffer, r.event);
        }
      }
    } else if u.Pull? {
      assert (s.pulled + s.buffer) + [] == s.pulled + s.buffer;
    } else if s.buffer == [] {
      assert s.pulled + [] == s.pulled + s.buffer;
    }
  }

  lemma {:induction false} UsesKeep(s: Session, uses: seq<Use>)
    requires SessionInv(s, 0)
    ensures SessionInv(UseAll(s, uses), Lost(s, uses))
  {
    hide SessionInv, UseOnce;
    if uses != [] {
      UsesKeep(s, uses[..|uses| - 1]);
      UseKeeps(UseAll(s, uses[..|uses| - 1]), uses[|uses| - 1], Lost(s, uses[..|uses| - 1]));
    }
  }

  /**
   The events pulled so far followed by those still buffered rebuild the order exactly when no
   reload ever dropped a buffered event.
   */
  lemma LogCompleteIffNothingLost(s: Session, uses: seq<Use>)
    requires SessionInv(s, 0)
    ensures var end := UseAll(s, uses);
      Replay(end.pulled + end.buffer) == Some(end.order) <==> Lost(s, uses) == 0
  {
    hide Replay, UseAll, Lost;
    UsesKeep(s, uses);
    var end := UseAll(s, uses);
    if Lost(s, uses) > 0 { ReplayVersion(end.pulled + end.buffer); }
  }

  /** A replayed order's version is at most the number of events after the first. */
  lemma {:induction false} ReplayVersion(log: seq<Event>)
    ensures Replay(log).Some? ==> Replay(log).value.version < |log|
  {
    if |log| > 1 { ReplayVersion(log[..|log| - 1]); }
  }

  /** Buffered events really can be lost: accept, then reload before pulling. */
  lemma ReloadCanLose(o: Snapshot, e: Event, now: Time)
    requires o.status == New && o.version == 0
    ensures Lost(Session(o, [e], []), [Perform(Step(Accept, now)), Reload]) == 2
  {
    var s, accept := Session(o, [e], []), Perform(Step(Accept, now));
    assert [accept, Reload][..1] == [accept] && [accept][..0] == [];
    assert UseAll(s, []) == s;
    assert UseAll(s, [accept]) == UseOnce(s, accept);
    assert |UseOnce(s, accept).buffer| == 2;
    assert Lost(s, [accept]) == 0;
  }
}

/** The volume-weighted average fill price: error and convexity over whole lives. */
module Vwap {
  import opened Wrappers
  import opened Int64
  import opened FixedPoint
  import opened Orders
  import opened OrderHistory

  datatype Execution = Execution(qty: int64, px: int64)

  /** Executions recorded by a log, oldest first. */
  function Executions(log: seq<Event>): seq<Execution> {
    if log == [] then []
    else
      var e := log[|log| - 1];
      Executions(log[..|log| - 1]) + if e.IsFill() then [Execution(e.fillQty, e.fillPrice)] else []
  }

  function Shares(xs: seq<Execution>): int {
    if xs == [] then 0 else Shares(xs[..|xs| - 1]) + xs[|xs| - 1].qty
  }

  /** Exact cost of the executions, in price units times quantity units. */
  function Cost(xs: seq<Execution>): int {
    if xs == [] then 0 else Cost(xs[..|xs| - 1]) + xs[|xs| - 1].px * xs[|xs| - 1].qty
  }

  /** Each execution may add 2000 plus the cumulative quantity, in doubled units. */
  function Allowance(xs: seq<Execution>): int {
    if xs == [] then 0 else Allowance(xs[..|xs| - 1]) + 2000 + Shares(xs)
  }

  /** Doubled distance between the average's cost and the true cost. */
  function Drift(o: Snapshot, xs: seq<Execution>): nat {
    2 * Abs(o.avgFillPx * o.filledQty - Cost(xs))
  }

  lemma ExecutionsAppend(log: seq<Event>, e: Event)
    ensures Executions(log + [e]) ==
      Executions(log) + if e.IsFill() then [Execution(e.fillQty, e.fillPrice)] else []
  {
    assert (log + [e])[..|log|] == log;
  }

  lemma SumsAppend(xs: seq<Execution>, x: Execution)
    ensures Shares(xs + [x]) == Shares(xs) + x.qty
    ensures Cost(xs + [x]) == Cost(xs) + x.px * x.qty
    ensures Allowance(xs + [x]) == Allowance(xs) + 2000 + Shares(xs) + x.qty
  {
    assert (xs + [x])[..|xs|] == xs;
  }

  /** Three roundings in one fill move the average's cost by at most (2000 + new quantity) / 2. */
  lemma FillDrift(o: Snapshot, qty: int64, px: int64)
    requires Lifecycle(o) && qty > 0 && px > 0 && FillTally(o, qty, px).Ok?
    ensures var t := FillTally(o, qty, px).value;
      2 * Abs(t.avg * t.filled - (o.avgFillPx * o.filledQty + px * qty)) <= 2000 + t.filled
  {
    hide FillTally, MulQuantity, DivByQuantity;
    FillTallyOk(o, qty, px);
    MulQuantityError(o.avgFillPx, o.filledQty);
    MulQuantityError(px, qty);
    var total := MulQuantity(o.avgFillPx, o.filledQty).value + MulQuantity(px, qty).value;
    DivByQuantityError(total, o.filledQty + qty);
  }

  ghost predicate DriftBounded(t: Trace) {
    && Shares(Executions(t.log)) == t.order.filledQty
    && Drift(t.order, Executions(t.log)) <= Allowance(Executions(t.log))
  }

  lemma DoDrift(t: Trace, s: Step)
    requires Coherent(t) && DriftBounded(t)
    ensures DriftBounded(Do(t, s))
  {
    hide Coherent, Lifecycle, FillTally, Executions, Shares, Cost, Allowance;
    var r := Apply(t.order, s.command, s.now);
    if r.Applied? {
      CoherentLifecycle(t);
      ExecutionsAppend(t.log, r.event);
      if s.command.Fill? {
        FillDrift(t.order, s.command.qty, s.command.px);
        FillTallyOk(t.order, s.command.qty, s.command.px);
        SumsAppend(Executions(t.log), Execution(s.command.qty, s.command.px));
      } else {
        assert Executions(t.log) + [] == Executions(t.log);
      }
    }
  }

  /** A new order has no executions and no drift. */
  lemma BeginDrift(opening: Opening)
    requires opening.event.OrderPlaced? && opening.order.filledQty == 0
    ensures Executions(Begin(opening).log) == [] && DriftBounded(Begin(opening))
  {
    assert [opening.event][..0] == [];
    assert Executions([opening.event]) == [];
  }

  /**
   However many fills an order takes, the stored average times the filled quantity stays within
   half the accumulated allowance of the true cost, although each average is computed from the
   previous rounded one.
   */
  lemma {:induction false} VwapDrift(t: Trace, steps: seq<Step>)
    requires Coherent(t) && DriftBounded(t)
    ensures var end := Execute(t, steps);
      && Shares(Executions(end.log)) == end.order.filledQty
      && Drift(end.order, Executions(end.log)) <= Allowance(Executions(end.log))
  {
    hide Coherent, DriftBounded, Do;
    if steps != [] {
      VwapDrift(t, steps[..|steps| - 1]);
      assert DriftBounded(Execute(t, steps[..|steps| - 1])) by { DriftFold(Execute(t, steps[..|steps| - 1])); }
      ExecuteCoherent(t, steps[..|steps| - 1]);
      DoDrift(Execute(t, steps[..|steps| - 1]), steps[|steps| - 1]);
    }
    assert DriftBounded(Execute(t, steps));
    DriftUnfold(Execute(t, steps));
  }

  lemma DriftFold(t: Trace)
    requires Shares(Executions(t.log)) == t.order.filledQty
    requires Drift(t.order, Executions(t.log)) <= Allowance(Executions(t.log))
    ensures DriftBounded(t)
  {}

  lemma DriftUnfold(t: Trace)
    requires DriftBounded(t)
    ensures Shares(Executions(t.log)) == t.order.filledQty
    ensures Drift(t.order, Executions(t.log)) <= Allowance(Executions(t.log))
  {}

  /**
   The same from the moment of creation, for every request NewOrder accepts and every sequence of commands; and
   throughout the order has the terms of the request, which its log announces first.
   */
  lemma LifeOfAnOrder(id: string, accountID: string, symbol: string, side: Side, ot: OrderType, tif: TimeInForce,
                      limitPrice: int64, quantity: int64, now: Time, steps: seq<Step>)
    requires Open(id, accountID, symbol, side, ot, tif, limitPrice, quantity, now).Ok?
    ensures var opening := Open(id, accountID, symbol, side, ot, tif, limitPrice, quantity, now).value;
      var end := Execute(Begin(opening), steps);
      && Coherent(end)
      && end.order.id == id && end.order.accountID == accountID && end.order.symbol == symbol && end.order.side == side
      && end.order.orderType == ot && end.order.tif == tif && end.order.limitPrice == limitPrice
      && end.order.quantity == quantity && end.order.createdAt == now
      && end.log[0] == OrderPlaced(id, now, accountID, symbol, side, ot, tif, quantity, limitPrice)
      && end.order.version <= quantity + 1
      && Shares(Executions(end.log)) == end.order.filledQty <= quantity
      && Drift(end.order, Executions(end.log)) <= Allowance(Executions(end.log))
  {
    hide Execute, Coherent, Drift, Allowance, Executions, Shares, Open;
    OpenCarries(id, accountID, symbol, side, ot, tif, limitPrice, quantity, now);
    var opening := Open(id, accountID, symbol, side, ot, tif, limitPrice, quantity, now).value;
    var t := Begin(opening);
    BeginCoherent(id, accountID, symbol, side, ot, tif, limitPrice, quantity, now);
    BeginDrift(opening);
    ExecuteCoherent(t, steps);
    CoherentLifecycle(Execute(t, steps));
    TermsStand(t, steps);
    LogGrows(t, steps);
    VwapDrift(t, steps);
  }

  // ---------------------------------------------------------------- convexity

  /** Every execution is of at least q units, at a price within [lo, hi]. */
  ghost predicate FillsWithin(xs: seq<Execution>, q: int, lo: int, hi: int) {
    forall i :: 0 <= i < |xs| ==> xs[i].qty >= q && lo <= xs[i].px <= hi
  }

  ghost predicate AverageWithin(t: Trace, lo: int, hi: int) {
    && (t.order.filledQty > 0 ==> t.order.filledQty >= 1000 && lo <= t.order.avgFillPx <= hi)
    && (t.order.filledQty == 0 ==> Executions(t.log) == [])
  }

  lemma ScaleBounds(lo: int, p: int, hi: int, q: nat)
    requires lo <= p <= hi
    ensures lo * q <= p * q <= hi * q
  {
    assert p * q == lo * q + (p - lo) * q && hi * q == p * q + (hi - p) * q;
  }

  /** The nearest integer to a value near [lo * f, hi * f] stays in [lo, hi]. */
  lemma NearestWithin(total: int64, f: int64, lo: int, hi: int)
    requires f > 0 && total >= 0 && DivByQuantity(total, f).Some?
    requires 2 * (lo * f) - f <= 2000 * total < 2 * (hi * f) + f
    ensures lo <= DivByQuantity(total, f).value <= hi
  {
    hide DivByQuantity;
    var p: int := DivByQuantity(total, f).value;
    DivByQuantityTie(total, f);
    if p < lo { MultiplesApart(p, lo, f); }
    if p > hi { MultiplesApart(hi, p, f); }
  }

  /** Exactly half-way, the price is rounded up. */
  lemma DivByQuantityTie(total: int64, f: int64)
    requires f > 0 && DivByQuantity(total, f).Some?
    ensures var p := DivByQuantity(total, f).value;
      && 2 * Abs(p * f - 1000 * total) <= f
      && (total >= 0 && 2 * Abs(p * f - 1000 * total) == f ==> p * f > 1000 * total)
  {
    hide RoundHalfAway;
    DivByQuantityError(total, f);
    var p := DivByQuantity(total, f).value;
    RoundIsNearest(total * 1000, f, p);
    AbsMul(p, f);
  }

  lemma FillWithin(o: Snapshot, qty: int64, px: int64, lo: int, hi: int)
    requires Lifecycle(o) && qty >= 1000 && 0 < lo <= px <= hi && FillTally(o, qty, px).Ok?
    requires o.filledQty > 0 ==> o.filledQty >= 1000 && lo <= o.avgFillPx <= hi
    ensures lo <= FillTally(o, qty, px).value.avg <= hi
  {
    hide FillTally, MulQuantity, DivByQuantity;
    FillTallyOk(o, qty, px);
    if o.filledQty == 0 {
      EmptyNotional();
      PriceRoundTrip(px, qty);
    } else {
      BlendWithin(o, qty, px, lo, hi);
    }
  }

  lemma EmptyNotional()
    ensures MulQuantity(0, 0) == Some(0)
  {
    hide FloorDiv, RoundHalfAway;
    RoundExact(0);
  }

  lemma Distribute(k: int, a: int, b: int)
    ensures k * (a + b) == k * a + k * b
  {}

  lemma BlendWithin(o: Snapshot, qty: int64, px: int64, lo: int, hi: int)
    requires qty >= 1000 && o.filledQty >= 1000 && 0 < lo <= px <= hi && lo <= o.avgFillPx <= hi
    requires MulQuantity(o.avgFillPx, o.filledQty).Some? && MulQuantity(px, qty).Some?
    requires var total := MulQuantity(o.avgFillPx, o.filledQty).value + MulQuantity(px, qty).value;
      Fits(total) && Fits(o.filledQty + qty) && DivByQuantity(total, o.filledQty + qty).Some?
    ensures var total := MulQuantity(o.avgFillPx, o.filledQty).value + MulQuantity(px, qty).value;
      lo <= DivByQuantity(total, o.filledQty + qty).value <= hi
  {
    hide MulQuantity, DivByQuantity;
    var a: int, b: int := MulQuantity(o.avgFillPx, o.filledQty).value, MulQuantity(px, qty).value;
    var f: int := o.filledQty + qty;
    MulQuantityError(o.avgFillPx, o.filledQty);
    MulQuantityError(px, qty);
    ScaleBounds(lo, o.avgFillPx, hi, o.filledQty);
    ScaleBounds(lo, px, hi, qty);
    Distribute(lo, o.filledQty, qty);
    Distribute(hi, o.filledQty, qty);
    if f == 2000 {
      OneShareExact(o.avgFillPx);
      OneShareExact(px);
    }
    NearestWithin(a + b, f, lo, hi);
  }

  lemma OneShareExact(px: int64)
    ensures MulQuantity(px, 1000) == Some(px)
  {
    hide FloorDiv, RoundHalfAway;
    RoundExact(px);
  }

  lemma DoWithin(t: Trace, s: Step, lo: int, hi: int)
    requires Coherent(t) && AverageWithin(t, lo, hi) && 0 < lo
    requires FillsWithin(Executions(Do(t, s).log), 1000, lo, hi)
    ensures AverageWithin(Do(t, s), lo, hi)
  {
    hide Coherent, Lifecycle, FillTally, Executions;
    var r := Apply(t.order, s.command, s.now);
    if r.Applied? {
      CoherentLifecycle(t);
      ExecutionsAppend(t.log, r.event);
      if s.command.Fill? {
        var x := Execution(s.command.qty, s.command.px);
        var xs := Executions(t.log) + [x];
        assert xs[|xs| - 1] == x;
        FillTallyOk(t.order, x.qty, x.px);
        LifecycleSigns(t.order);
        FillWithin(t.order, x.qty, x.px, lo, hi);
      }
    }
  }

  lemma ExecutionsGrow(t: Trace, s: Step, lo: int, hi: int)
    requires FillsWithin(Executions(Do(t, s).log), 1000, lo, hi)
    ensures FillsWithin(Executions(t.log), 1000, lo, hi)
  {
    hide Apply, Executions;
    var r := Apply(t.order, s.command, s.now);
    if r.Applied? {
      ExecutionsAppend(t.log, r.event);
      var xs, ys := Executions(t.log), Executions(Do(t, s).log);
      forall i | 0 <= i < |xs| ensures xs[i].qty >= 1000 && lo <= xs[i].px <= hi {
        assert xs[i] == ys[i];
      }
    }
  }

  /**
   When every fill is of at least one whole share, the average never leaves the range of the fill
   prices, after any number of fills.
   */
  lemma {:induction false} VwapConvex(t: Trace, steps: seq<Step>, lo: int, hi: int)
    requires Coherent(t) && AverageWithin(t, lo, hi) && 0 < lo
    requires FillsWithin(Executions(Execute(t, steps).log), 1000, lo, hi)
    ensures AverageWithin(Execute(t, steps), lo, hi)
  {
    hide Coherent, AverageWithin, FillsWithin, Do;
    if steps != [] {
      var before, last := Execute(t, steps[..|steps| - 1]), steps[|steps| - 1];
      ExecutionsGrow(before, last, lo, hi);
      VwapConvex(t, steps[..|steps| - 1], lo, hi);
      ExecuteCoherent(t, steps[..|steps| - 1]);
      DoWithin(before, last, lo, hi);
    }
  }

  /** From creation on: with whole-share fills priced within [lo, hi], so is every average the order ever shows. */
  lemma AverageOfALife(opening: Opening, steps: seq<Step>, lo: int, hi: int)
    requires Coherent(Begin(opening)) && opening.order.status == New && 0 < lo
    requires FillsWithin(Executions(Execute(Begin(opening), steps).log), 1000, lo, hi)
    ensures var o := Execute(Begin(opening), steps).order;
      o.filledQty > 0 ==> lo <= o.avgFillPx <= hi
  {
    hide Execute;
    BeginDrift(opening);
    VwapConvex(Begin(opening), steps, lo, hi);
  }

  /** Fills all at one price keep the average exactly at that price. */
  lemma ConstantPrice(opening: Opening, steps: seq<Step>, px: int64)
    requires Coherent(Begin(opening)) && opening.order.status == New && px > 0
    requires FillsWithin(Executions(Execute(Begin(opening), steps).log), 1000, px, px)
    ensures var o := Execute(Begin(opening), steps).order;
      o.filledQty > 0 ==> o.avgFillPx == px
  {
    hide Execute, Coherent, FillsWithin;
    AverageOfALife(opening, steps, px, px);
  }

  // ---------------------------------------------------------------- exactly when the average stays in range

  /** A fill that opens the position sets the average to its price taken there and back. */
  lemma FirstFill(o: Snapshot, qty: int64, px: int64, now: Time)
    requires Lifecycle(o) && o.status == Accepted && 0 < qty <= o.quantity && px > 0
    requires MulQuantity(px, qty).Some? && MulQuantity(px, qty).value >= 0
    requires DivByQuantity(MulQuantity(px, qty).value, qty).Some?
    ensures var r := Apply(o, Fill(qty, px), now);
      && r.Applied? && r.event.IsFill() && r.event.fillQty == qty && r.event.fillPrice == px
      && r.order.filledQty == qty && Some(r.order.avgFillPx) == DivByQuantity(MulQuantity(px, qty).value, qty)
  {
    hide MulQuantity, DivByQuantity, AddI64;
    EmptyNotional();
    AddI64Exact(0, qty);
    AddI64Exact(0, MulQuantity(px, qty).value);
  }

  /** Every accepted order escapes with a first fill below a share at some price of at most a thousand minor units. */
  lemma SmallFillEscapes(o: Snapshot, q: int64, now: Time) returns (px: int64)
    requires Lifecycle(o) && o.status == Accepted && 1 <= q < 1000 && q <= o.quantity
    ensures 1 <= px <= 1000
    ensures var r := Apply(o, Fill(q, px), now);
      && r.Applied? && r.event.IsFill() && r.event.fillQty == q && r.event.fillPrice == px
      && r.order.filledQty == q && r.order.avgFillPx != px
  {
    hide Apply, MulQuantity, DivByQuantity;
    px := PriceLost(q);
    FirstFill(o, q, px, now);
  }

  /** One thousandth of a share at the smallest price drives the average to zero, below every fill price. */
  lemma TinyFillEscapes(o: Snapshot, now: Time)
    requires Lifecycle(o) && o.status == Accepted
    ensures var r := Apply(o, Fill(1, 1), now);
      r.Applied? && r.order.avgFillPx == 0 && r.event.fillPrice == 1
  {
    hide Apply, MulQuantity, DivByQuantity;
    TinyNotional();
    FirstFill(o, 1, 1, now);
  }

  lemma TinyNotional()
    ensures MulQuantity(1, 1) == Some(0) && DivByQuantity(0, 1) == Some(0)
  {
    hide FloorDiv, RoundHalfAway;
    RoundIsNearest(1, 1000, 0);
    RoundIsNearest(0, 1, 0);
  }

  ghost predicate AverageInRange(o: Snapshot, lo: int, hi: int) {
    o.filledQty > 0 ==> lo <= o.avgFillPx <= hi
  }

  /** Whatever an order's life, fills of at least q units priced within a range keep its average there. */
  ghost predicate MinimumKeepsAverage(q: int) {
    forall opening: Opening, steps: seq<Step>, lo: int, hi: int ::
      IsOpening(opening) && FillsWithin(Executions(Execute(Begin(opening), steps).log), q, lo, hi)
      ==> AverageInRange(Execute(Begin(opening), steps).order, lo, hi)
  }

  /** Emitted fill prices are positive, so a lower bound may be taken to be. */
  lemma {:induction false} ExecutionsPositive(log: seq<Event>)
    requires forall i :: 0 <= i < |log| && log[i].IsFill() ==> log[i].fillPrice > 0
    ensures forall i :: 0 <= i < |Executions(log)| ==> Executions(log)[i].px > 0
  {
    if log != [] { ExecutionsPositive(log[..|log| - 1]); }
  }

  lemma LifeWithin(opening: Opening, steps: seq<Step>, q: int, lo: int, hi: int)
    requires IsOpening(opening) && q >= 1000
    requires FillsWithin(Executions(Execute(Begin(opening), steps).log), q, lo, hi)
    ensures AverageInRange(Execute(Begin(opening), steps).order, lo, hi)
  {
    hide Execute, Executions, IsOpening, Replay, FilledBy, Lifecycle, MulQuantity;
    OpeningCoherent(opening);
    ExecuteCoherent(Begin(opening), steps);
    var xs := Executions(Execute(Begin(opening), steps).log);
    ExecutionsPositive(Execute(Begin(opening), steps).log);
    var lo' := if lo > 0 then lo else 1;
    assert FillsWithin(xs, 1000, lo', hi);
    AverageOfALife(opening, steps, lo', hi);
  }

  /** A life that escapes: a market order of q units, accepted and filled at once. */
  lemma SmallLifeEscapes(q: int64) returns (opening: Opening, steps: seq<Step>, px: int64)
    requires 1 <= q < 1000
    ensures IsOpening(opening)
    ensures FillsWithin(Executions(Execute(Begin(opening), steps).log), q, px, px)
    ensures !AverageInRange(Execute(Begin(opening), steps).order, px, px)
  {
    hide IsOpening, Execute, Executions, Apply, Do, Lifecycle;
    opening := PlainOpening(q);
    var m := AcceptedTrace(opening);
    px := SmallFillEscapes(m.order, q, 0);
    steps := [Step(Accept, 0), Step(Fill(q, px), 0)];
    TwoSteps(Begin(opening), steps[0], steps[1]);
    LoneFill(m, q, px);
  }

  lemma AcceptedTrace(opening: Opening) returns (m: Trace)
    requires opening.order.status == New && Lifecycle(opening.order) && !opening.event.IsFill()
    ensures m == Do(Begin(opening), Step(Accept, 0)) && m.order.status == Accepted && Lifecycle(m.order)
    ensures m.order.quantity == opening.order.quantity && Executions(m.log) == []
  {
    hide ApplyFill, Executions;
    m := Do(Begin(opening), Step(Accept, 0));
    NoExecutions();
    ExecutionsAppend([], opening.event);
    ExecutionsAppend([opening.event], m.log[1]);
    assert [] + [opening.event] == [opening.event] && m.log == [opening.event] + [m.log[1]];
  }

  lemma NoExecutions()
    ensures Executions([]) == []
  {}

  lemma TwoSteps(t: Trace, a: Step, b: Step)
    ensures Execute(t, [a, b]) == Do(Do(t, a), b)
  {
    hide Do;
    assert [a, b][..1] == [a] && [a][..0] == [];
    assert Execute(t, []) == t;
    assert Execute(t, [a]) == Do(t, a);
  }

  /** The first fill is the only execution. */
  lemma LoneFill(m: Trace, q: int64, px: int64)
    requires Executions(m.log) == []
    requires var r := Apply(m.order, Fill(q, px), 0);
      r.Applied? && r.event.IsFill() && r.event.fillQty == q && r.event.fillPrice == px
    ensures var t := Do(m, Step(Fill(q, px), 0));
      t.order == Apply(m.order, Fill(q, px), 0).order && FillsWithin(Executions(t.log), q, px, px)
  {
    hide Apply, Executions;
    ExecutionsAppend(m.log, Apply(m.order, Fill(q, px), 0).event);
  }

  lemma PlainOpening(q: int64) returns (opening: Opening)
    requires q > 0
    ensures IsOpening(opening) && opening.order.status == New && opening.order.quantity == q && Lifecycle(opening.order)
    ensures !opening.event.IsFill()
  {
    Text.TrimNothing("o");
    Text.TrimNothing("a");
    opening := Open("o", "a", "s", Buy, Market, Day, 0, q, 0).value;
  }

  /** One whole share is exactly the minimum fill size that keeps every average within its fill prices. */
  lemma ConvexExactly(q: int64)
    requires q >= 1
    ensures MinimumKeepsAverage(q) <==> q >= 1000
  {
    hide Execute, Executions, IsOpening, FillsWithin, AverageInRange;
    if q >= 1000 {
      forall opening: Opening, steps: seq<Step>, lo: int, hi: int
        | IsOpening(opening) && FillsWithin(Executions(Execute(Begin(opening), steps).log), q, lo, hi)
        ensures AverageInRange(Execute(Begin(opening), steps).order, lo, hi)
      {
        LifeWithin(opening, steps, q, lo, hi);
      }
    } else {
      var opening, steps, px := SmallLifeEscapes(q);
    }
  }
}
