/**
 The order aggregate of internal/domain: lifecycle statuses, events, and what each command does to
 an order's state, as functions on values.
 */
module Orders {
  import opened Wrappers
  import opened Int64
  import opened FixedPoint
  import opened Text

  type Time = int

  // The Go types are strings; every text other than the named constants is kept, so that validation can refuse it.
  datatype Side = Buy | Sell | OtherSide(text: string)
  datatype OrderType = Market | Limit | OtherType(text: string)
  datatype TimeInForce = Day | Gtc | Ioc | Fok | OtherTif(text: string)

  datatype Status = New | Accepted | PartiallyFilled | Filled | Canceled | Rejected | Expired

  datatype Error =
    | EmptyID | EmptyAccount | InvalidSymbol | InvalidSide | InvalidOrderType | InvalidTIF
    | InvalidQuantity | LimitPriceRequired | MarketPriceSet
    | InvalidTransition | FillPrice | Overfill | Overflow

  datatype Result<+T> = Ok(value: T) | Err(error: Error)

  /** Everything an order holds apart from its buffer of unpublished events. */
  datatype Snapshot = Snapshot(
    id: string, accountID: string, symbol: string, side: Side, orderType: OrderType, tif: TimeInForce,
    limitPrice: int64, quantity: int64, filledQty: int64, avgFillPx: int64,
    status: Status, version: int, createdAt: Time, updatedAt: Time)

  datatype Event =
    | OrderPlaced(orderID: string, at: Time, accountID: string, symbol: string, side: Side,
                  orderType: OrderType, tif: TimeInForce, quantity: int64, limitPrice: int64)
    | OrderAccepted(orderID: string, at: Time)
    | OrderRejected(orderID: string, at: Time, reason: string)
    | OrderPartiallyFilled(orderID: string, at: Time, fillQty: int64, fillPrice: int64,
                           cumulativeQty: int64, avgFillPrice: int64)
    | OrderFilled(orderID: string, at: Time, fillQty: int64, fillPrice: int64, avgFillPrice: int64)
    | OrderCanceled(orderID: string, at: Time)
    | OrderExpired(orderID: string, at: Time)
  {
    predicate IsFill() {
      OrderPartiallyFilled? || OrderFilled?
    }

    function EventName(): string {
      match this
      case OrderPlaced(_, _, _, _, _, _, _, _, _) => "OrderPlaced"
      case OrderAccepted(_, _) => "OrderAccepted"
      case OrderRejected(_, _, _) => "OrderRejected"
      case OrderPartiallyFilled(_, _, _, _, _, _) => "OrderPartiallyFilled"
      case OrderFilled(_, _, _, _, _) => "OrderFilled"
      case OrderCanceled(_, _) => "OrderCanceled"
      case OrderExpired(_, _) => "OrderExpired"
    }
  }

  /** The names subscribers ask for, one for each kind of event. */
  lemma NamesTellEvents(e: Event)
    ensures e.EventName() == "OrderPlaced" <==> e.OrderPlaced?
    ensures e.EventName() == "OrderAccepted" <==> e.OrderAccepted?
    ensures e.EventName() == "OrderRejected" <==> e.OrderRejected?
    ensures e.EventName() == "OrderPartiallyFilled" <==> e.OrderPartiallyFilled?
    ensures e.EventName() == "OrderFilled" <==> e.OrderFilled?
    ensures e.EventName() == "OrderCanceled" <==> e.OrderCanceled?
    ensures e.EventName() == "OrderExpired" <==> e.OrderExpired?
  {
    assert e.OrderPlaced? <==> |e.EventName()| == 11 && e.EventName()[5] == 'P';
    assert e.OrderAccepted? <==> e.EventName()[5] == 'A';
    assert e.OrderRejected? <==> e.EventName()[5] == 'R';
  }

  // ---------------------------------------------------------------- state machine

  function LegalTransitions(s: Status): set<Status> {
    match s
    case New => {Accepted, Rejected}
    case Accepted => {PartiallyFilled, Filled, Canceled, Expired}
    case PartiallyFilled => {PartiallyFilled, Filled, Canceled, Expired}
    case Filled => {}
    case Canceled => {}
    case Rejected => {}
    case Expired => {}
  }

  predicate CanTransitionTo(s: Status, to: Status) {
    to in LegalTransitions(s)
  }

  predicate IsTerminal(s: Status) {
    |LegalTransitions(s)| == 0
  }

  // ---------------------------------------------------------------- creation

  /** The first rule of NewOrder that a request breaks, in the order they are checked. */
  function Complaint(id: string, accountID: string, symbol: string, side: Side, ot: OrderType, tif: TimeInForce,
                     limitPrice: int64, quantity: int64): Option<Error>
  {
    if TrimSpace(id) == "" then Some(EmptyID)
    else if TrimSpace(accountID) == "" then Some(EmptyAccount)
    else if symbol == "" then Some(InvalidSymbol)
    else if side.OtherSide? then Some(InvalidSide)
    else if ot.OtherType? then Some(InvalidOrderType)
    else if tif.OtherTif? then Some(InvalidTIF)
    else if quantity <= 0 then Some(InvalidQuantity)
    else if ot == Limit && limitPrice <= 0 then Some(LimitPriceRequired)
    else if ot == Market && limitPrice != 0 then Some(MarketPriceSet)
    else None
  }

  /** A fresh order and the event announcing it. */
  datatype Opening = Opening(order: Snapshot, event: Event)

  function Open(id: string, accountID: string, symbol: string, side: Side, ot: OrderType, tif: TimeInForce,
                limitPrice: int64, quantity: int64, now: Time): Result<Opening>
  {
    var complaint := Complaint(id, accountID, symbol, side, ot, tif, limitPrice, quantity);
    if complaint.Some? then Err(complaint.value)
    else Ok(Opening(
      Snapshot(id, accountID, symbol, side, ot, tif, limitPrice, quantity, 0, 0, New, 0, now, now),
      OrderPlaced(id, now, accountID, symbol, side, ot, tif, quantity, limitPrice)))
  }

  /** An opening that NewOrder really produces. */
  predicate IsOpening(o: Opening) {
    var s := o.order;
    Open(s.id, s.accountID, s.symbol, s.side, s.orderType, s.tif, s.limitPrice, s.quantity, s.createdAt) == Ok(o)
  }

  /** NewOrder accepts a request exactly when it keeps all nine rules, whatever order they are checked in. */
  lemma OpensExactly(id: string, accountID: string, symbol: string, side: Side, ot: OrderType, tif: TimeInForce,
                     limitPrice: int64, quantity: int64, now: Time)
    ensures Open(id, accountID, symbol, side, ot, tif, limitPrice, quantity, now).Ok? <==>
      && TrimSpace(id) != "" && TrimSpace(accountID) != "" && symbol != ""
      && (side == Buy || side == Sell) && (ot == Market || ot == Limit) && tif in {Day, Gtc, Ioc, Fok}
      && quantity > 0 && (if ot == Limit then limitPrice > 0 else limitPrice == 0)
  {
    hide TrimSpace;
  }

  /** The first rule broken decides the error, in the program's order. */
  lemma ComplainsExactly(id: string, accountID: string, symbol: string, side: Side, ot: OrderType, tif: TimeInForce,
                         limitPrice: int64, quantity: int64, now: Time)
    ensures var r := Open(id, accountID, symbol, side, ot, tif, limitPrice, quantity, now);
      var named := TrimSpace(id) != "" && TrimSpace(accountID) != "" && symbol != "";
      var sided := named && side in {Buy, Sell};
      var typed := sided && ot in {Market, Limit};
      var timed := typed && tif in {Day, Gtc, Ioc, Fok};
      && (r == Err(EmptyID) <==> TrimSpace(id) == "")
      && (r == Err(EmptyAccount) <==> TrimSpace(id) != "" && TrimSpace(accountID) == "")
      && (r == Err(InvalidSymbol) <==> TrimSpace(id) != "" && TrimSpace(accountID) != "" && symbol == "")
      && (r == Err(InvalidSide) <==> named && !sided)
      && (r == Err(InvalidOrderType) <==> sided && !typed)
      && (r == Err(InvalidTIF) <==> typed && !timed)
      && (r == Err(InvalidQuantity) <==> timed && quantity <= 0)
      && (r == Err(LimitPriceRequired) <==> timed && quantity > 0 && ot == Limit && limitPrice <= 0)
      && (r == Err(MarketPriceSet) <==> timed && quantity > 0 && ot == Market && limitPrice != 0)
  {
    hide TrimSpace;
  }

  /** A new order carries the terms of the request and nothing filled, and its announcement says the same. */
  lemma OpenCarries(id: string, accountID: string, symbol: string, side: Side, ot: OrderType, tif: TimeInForce,
                    limitPrice: int64, quantity: int64, now: Time)
    requires Open(id, accountID, symbol, side, ot, tif, limitPrice, quantity, now).Ok?
    ensures var o := Open(id, accountID, symbol, side, ot, tif, limitPrice, quantity, now).value.order;
      && o.id == id && o.accountID == accountID && o.symbol == symbol && o.side == side && o.orderType == ot
      && o.tif == tif && o.limitPrice == limitPrice && o.quantity == quantity && o.createdAt == o.updatedAt == now
      && o.status == New && o.version == 0 && o.filledQty == 0 && o.avgFillPx == 0
    ensures var e := Open(id, accountID, symbol, side, ot, tif, limitPrice, quantity, now).value.event;
      && e.OrderPlaced? && e.orderID == id && e.at == now && e.accountID == accountID && e.symbol == symbol
      && e.side == side && e.orderType == ot && e.tif == tif && e.quantity == quantity && e.limitPrice == limitPrice
  {
    hide TrimSpace;
  }

  // ---------------------------------------------------------------- commands

  datatype Command = Accept | Reject(reason: string) | Cancel | Expire | Fill(qty: int64, px: int64)

  datatype Outcome = Applied(order: Snapshot, event: Event) | Refused(error: Error)

  /** Move to a status, bumping version and timestamp. */
  function Moved(o: Snapshot, to: Status, now: Time): Snapshot {
    o.(status := to, updatedAt := now, version := o.version + 1)
  }

  /** Cumulative quantity and average price after a fill. */
  datatype Tally = Tally(filled: int64, avg: int64)

  /** The arithmetic of Fill after its status, quantity and price checks. */
  function FillTally(o: Snapshot, qty: int64, px: int64): Result<Tally> {
    var newFilled := AddI64(o.filledQty, qty);
    if newFilled == None then Err(Overflow)
    else if newFilled.value > o.quantity then Err(Overfill)
    else
      var oldNotional, addNotional := MulQuantity(o.avgFillPx, o.filledQty), MulQuantity(px, qty);
      if oldNotional == None || addNotional == None then Err(Overflow)
      else
        var total := AddI64(oldNotional.value, addNotional.value);
        if total == None then Err(Overflow)
        else
          var newAvg := DivByQuantity(total.value, newFilled.value);
          if newAvg == None then Err(Overflow) else Ok(Tally(newFilled.value, newAvg.value))
  }

  function ApplyFill(o: Snapshot, qty: int64, px: int64, now: Time): Outcome {
    if o.status != Accepted && o.status != PartiallyFilled then Refused(InvalidTransition)
    else if qty <= 0 then Refused(InvalidQuantity)
    else if px <= 0 then Refused(FillPrice)
    else
      var tally := FillTally(o, qty, px);
      if tally.Err? then Refused(tally.error)
      else
        var o' := o.(filledQty := tally.value.filled, avgFillPx := tally.value.avg);
        if o'.filledQty == o.quantity then
          Applied(Moved(o', Filled, now), OrderFilled(o.id, now, qty, px, o'.avgFillPx))
        else
          Applied(Moved(o', PartiallyFilled, now),
                  OrderPartiallyFilled(o.id, now, qty, px, o'.filledQty, o'.avgFillPx))
  }

  function Apply(o: Snapshot, c: Command, now: Time): Outcome {
    match c
    case Accept =>
      if CanTransitionTo(o.status, Accepted)
      then Applied(Moved(o, Accepted, now), OrderAccepted(o.id, now)) else Refused(InvalidTransition)
    case Reject(reason) =>
      if CanTransitionTo(o.status, Rejected)
      then Applied(Moved(o, Rejected, now), OrderRejected(o.id, now, reason)) else Refused(InvalidTransition)
    case Cancel =>
      if CanTransitionTo(o.status, Canceled)
      then Applied(Moved(o, Canceled, now), OrderCanceled(o.id, now)) else Refused(InvalidTransition)
    case Expire =>
      if CanTransitionTo(o.status, Expired)
      then Applied(Moved(o, Expired, now), OrderExpired(o.id, now)) else Refused(InvalidTransition)
    case Fill(qty, px) => ApplyFill(o, qty, px, now)
  }

  // ---------------------------------------------------------------- lifecycle invariant

  /** Status, filled quantity, average and version agree with one another. */
  ghost predicate Lifecycle(o: Snapshot) {
    && 0 <= o.filledQty <= o.quantity && o.quantity > 0
    && 0 <= o.avgFillPx && (o.filledQty == 0 ==> o.avgFillPx == 0)
    && (o.status == New ==> o.version == 0)
    && (o.status == Accepted || o.status == Rejected ==> o.version == 1)
    && (o.status in {New, Accepted, Rejected} ==> o.filledQty == 0)
    && (o.status == PartiallyFilled ==> 0 < o.filledQty < o.quantity)
    && (o.status == Filled <==> o.filledQty == o.quantity)
    && 0 <= o.version <= 1 + o.filledQty + (if o.status in {Canceled, Expired} then 1 else 0)
    && (o.version == 0 ==> o.status == New)
  }

  /** Fields fixed at creation. */
  predicate SameTerms(a: Snapshot, b: Snapshot) {
    b == a.(filledQty := b.filledQty, avgFillPx := b.avgFillPx, status := b.status,
            version := b.version, updatedAt := b.updatedAt)
  }

  lemma OpenKeepsLifecycle(id: string, accountID: string, symbol: string, side: Side, ot: OrderType, tif: TimeInForce,
                           limitPrice: int64, quantity: int64, now: Time)
    ensures var r := Open(id, accountID, symbol, side, ot, tif, limitPrice, quantity, now);
      r.Ok? ==> Lifecycle(r.value.order)
  {
    hide TrimSpace;
  }

  /**
   Fill with its sums taken over unbounded integers: what the checked arithmetic computes whenever
   the order is in a lifecycle state, because none of its sums can hit the blind spot of AddI64.
   */
  function ExactTally(o: Snapshot, qty: int64, px: int64): Result<Tally> {
    var newFilled := o.filledQty + qty;
    if !Fits(newFilled) then Err(Overflow)
    else if newFilled > o.quantity then Err(Overfill)
    else
      var oldNotional, addNotional := MulQuantity(o.avgFillPx, o.filledQty), MulQuantity(px, qty);
      if oldNotional == None || addNotional == None || !Fits(oldNotional.value + addNotional.value) then Err(Overflow)
      else
        var newAvg := DivByQuantity(oldNotional.value + addNotional.value, newFilled);
        if newAvg == None then Err(Overflow) else Ok(Tally(newFilled, newAvg.value))
  }

  lemma FillSumsExact(o: Snapshot, qty: int64, px: int64)
    requires Lifecycle(o) && qty > 0 && px > 0
    ensures FillTally(o, qty, px) == ExactTally(o, qty, px)
  {
    hide AddI64, MulQuantity, DivByQuantity;
    AddI64Exact(o.filledQty, qty);
    var a, b := MulQuantity(o.avgFillPx, o.filledQty), MulQuantity(px, qty);
    if a.Some? && b.Some? {
      MulQuantityError(px, qty);
      AddI64Exact(a.value, b.value);
    }
  }

  /** What a successful tally says, free of the overflow branches. */
  lemma FillTallyOk(o: Snapshot, qty: int64, px: int64)
    requires Lifecycle(o) && qty > 0 && px > 0 && FillTally(o, qty, px).Ok?
    ensures var t := FillTally(o, qty, px).value;
      && t.filled == o.filledQty + qty <= o.quantity
      && t.avg >= 0
      && MulQuantity(px, qty).Some?
      && MulQuantity(o.avgFillPx, o.filledQty).Some?
      && var total := MulQuantity(o.avgFillPx, o.filledQty).value + MulQuantity(px, qty).value;
         Fits(total) && total >= 0 && DivByQuantity(total, t.filled) == Some(t.avg)
  {
    hide AddI64, MulQuantity, DivByQuantity;
    FillSumsExact(o, qty, px);
    MulQuantityError(px, qty);
    MulQuantityError(o.avgFillPx, o.filledQty);
    var total := MulQuantity(o.avgFillPx, o.filledQty).value + MulQuantity(px, qty).value;
    DivByQuantityError(total, o.filledQty + qty);
  }

  /**
   One applied command: the lifecycle invariant survives, exactly one version is consumed, the terms
   and identity of the order stand, and the event carries the order's id and the command's time.
   */
  lemma ApplyKeepsLifecycle(o: Snapshot, c: Command, now: Time)
    requires Lifecycle(o) && Apply(o, c, now).Applied?
    ensures var r := Apply(o, c, now);
      && Lifecycle(r.order) && SameTerms(o, r.order)
      && r.order.version == o.version + 1 && r.order.updatedAt == now
      && r.event.orderID == o.id && r.event.at == now
      && r.order.filledQty == o.filledQty + (if r.event.IsFill() then r.event.fillQty else 0)
      && CanTransitionTo(o.status, r.order.status)
  {
    hide FillTally;
    if c.Fill? { FillTallyOk(o, c.qty, c.px); }
  }

  lemma TallyStaysWithin(o: Snapshot, qty: int64, px: int64)
    requires ExactTally(o, qty, px).Ok?
    ensures o.filledQty + qty <= o.quantity && ExactTally(o, qty, px).value.filled == o.filledQty + qty
  {
    hide MulQuantity, DivByQuantity;
  }

  /** The summed notional of a fill and the average it gives, as roundings half away from zero, stay within 64 bits. */
  predicate AmountsFit(o: Snapshot, qty: int64, px: int64)
    requires o.filledQty + qty != 0
  {
    var total := RoundHalfAway(o.avgFillPx * o.filledQty, 1000) + RoundHalfAway(px * qty, 1000);
    total <= MAX_INT64 && RoundHalfAway(1000 * total, o.filledQty + qty) <= MAX_INT64
  }

  /** The tally of a fill within the order fails only when the summed notional or its average leaves 64 bits. */
  lemma TalliesExactly(o: Snapshot, qty: int64, px: int64)
    requires Lifecycle(o) && qty > 0 && px > 0 && o.filledQty + qty <= o.quantity
    ensures ExactTally(o, qty, px).Ok? <==> AmountsFit(o, qty, px)
    ensures ExactTally(o, qty, px) == Err(Overflow) <==> !AmountsFit(o, qty, px)
    ensures ExactTally(o, qty, px).Ok? ==> ExactTally(o, qty, px).value.filled == o.filledQty + qty
  {
    hide RoundHalfAway, Lifecycle;
    LifecycleSigns(o);
    var a, b := RoundHalfAway(o.avgFillPx * o.filledQty, 1000), RoundHalfAway(px * qty, 1000);
    AbsMul(o.avgFillPx, o.filledQty);
    AbsMul(px, qty);
    RoundNonNegative(o.avgFillPx * o.filledQty, 1000);
    RoundNonNegative(px * qty, 1000);
    RoundNonNegative(1000 * (a + b), o.filledQty + qty);
  }

  lemma LifecycleSigns(o: Snapshot)
    requires Lifecycle(o)
    ensures o.filledQty >= 0 && o.avgFillPx >= 0 && (o.filledQty == 0 ==> o.avgFillPx == 0)
  {}

  predicate IsWorking(o: Snapshot) {
    o.status == Accepted || o.status == PartiallyFilled
  }

  /** What a caller can check before a command, for an order in a lifecycle state. */
  predicate CanApply(o: Snapshot, c: Command) {
    match c
    case Accept => o.status == New
    case Reject(_) => o.status == New
    case Cancel => IsWorking(o)
    case Expire => IsWorking(o)
    case Fill(qty, px) =>
      && IsWorking(o) && qty > 0 && px > 0 && 0 < o.filledQty + qty <= o.quantity && AmountsFit(o, qty, px)
  }

  /** Exactly which commands take effect on an order in a lifecycle state. */
  lemma AppliesExactly(o: Snapshot, c: Command, now: Time)
    requires Lifecycle(o)
    ensures Apply(o, c, now).Applied? <==> CanApply(o, c)
  {
    hide FillTally, ExactTally, AmountsFit;
    if c.Fill? && c.qty > 0 && c.px > 0 {
      FillSumsExact(o, c.qty, c.px);
      if o.filledQty + c.qty <= o.quantity { TalliesExactly(o, c.qty, c.px); }
      if ExactTally(o, c.qty, c.px).Ok? { TallyStaysWithin(o, c.qty, c.px); }
    }
  }

  /** Exactly which error each refused command is answered with, the first check that fails deciding. */
  lemma RefusesExactly(o: Snapshot, c: Command, now: Time)
    requires Lifecycle(o) && !CanApply(o, c)
    ensures Apply(o, c, now).Refused?
    ensures !c.Fill? ==> Apply(o, c, now) == Refused(InvalidTransition)
    ensures c.Fill? ==>
      var r, sum := Apply(o, c, now), o.filledQty + c.qty;
      && (r == Refused(InvalidTransition) <==> !IsWorking(o))
      && (r == Refused(InvalidQuantity) <==> IsWorking(o) && c.qty <= 0)
      && (r == Refused(FillPrice) <==> IsWorking(o) && c.qty > 0 && c.px <= 0)
      && (r == Refused(Overfill) <==> IsWorking(o) && c.qty > 0 && c.px > 0 && o.quantity < sum <= MAX_INT64)
      && (r == Refused(Overflow) <==>
            && IsWorking(o) && c.qty > 0 && c.px > 0
            && (sum > MAX_INT64 || (sum <= o.quantity && !AmountsFit(o, c.qty, c.px))))
  {
    hide FillTally, ExactTally, AmountsFit;
    AppliesExactly(o, c, now);
    if c.Fill? && c.qty > 0 && c.px > 0 {
      FillSumsExact(o, c.qty, c.px);
      if o.filledQty + c.qty <= o.quantity { TalliesExactly(o, c.qty, c.px); } else { TallyTooLarge(o, c.qty, c.px); }
    }
  }

  lemma TallyTooLarge(o: Snapshot, qty: int64, px: int64)
    requires Lifecycle(o) && qty > 0 && o.filledQty + qty > o.quantity
    ensures ExactTally(o, qty, px) == Err(if o.filledQty + qty > MAX_INT64 then Overflow else Overfill)
  {
    hide MulQuantity, DivByQuantity;
  }

  /** Where each command leads and what it announces: the status, and the event with all it carries. */
  lemma ApplyLeadsTo(o: Snapshot, c: Command, now: Time)
    requires Lifecycle(o) && Apply(o, c, now).Applied?
    ensures var r := Apply(o, c, now);
      match c
      case Accept => r.order.status == Accepted && r.event == OrderAccepted(o.id, now)
      case Reject(reason) => r.order.status == Rejected && r.event == OrderRejected(o.id, now, reason)
      case Cancel => r.order.status == Canceled && r.event == OrderCanceled(o.id, now)
      case Expire => r.order.status == Expired && r.event == OrderExpired(o.id, now)
      case Fill(qty, px) =>
        if o.filledQty + qty == o.quantity
        then r.order.status == Filled && r.event == OrderFilled(o.id, now, qty, px, r.order.avgFillPx)
        else && r.order.status == PartiallyFilled && Fits(o.filledQty + qty)
             && r.event == OrderPartiallyFilled(o.id, now, qty, px, o.filledQty + qty, r.order.avgFillPx)
    ensures !c.Fill? ==>
      Apply(o, c, now).order.filledQty == o.filledQty && Apply(o, c, now).order.avgFillPx == o.avgFillPx
  {
    hide FillTally;
    if c.Fill? { FillTallyOk(o, c.qty, c.px); }
  }

  /** Terminal statuses absorb, and they are the only ones that do. */
  lemma TerminalAbsorbs(o: Snapshot)
    requires Lifecycle(o)
    ensures IsTerminal(o.status) <==> forall c: Command, now: Time :: Apply(o, c, now).Refused?
    ensures IsTerminal(o.status) <==> o.status in {Filled, Canceled, Rejected, Expired}
  {
    hide FillTally;
    if !IsTerminal(o.status) {
      assert o.status == New ==> Apply(o, Accept, 0).Applied?;
      assert o.status != New ==> Apply(o, Cancel, 0).Applied?;
    }
  }
}
