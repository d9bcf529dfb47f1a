/** The mutable Order object of internal/domain/order.go, proved to do what the functions of Orders say. */
module OrderAggregate {
  import opened Wrappers
  import opened Int64
  import opened FixedPoint
  import opened Text
  import opened Orders

  class Order {
    var id: string
    var accountID: string
    var symbol: string
    var side: Side
    var orderType: OrderType
    var tif: TimeInForce
    var limitPrice: int64
    var quantity: int64
    var filledQty: int64
    var avgFillPx: int64
    var status: Status
    var version: int
    var createdAt: Time
    var updatedAt: Time
    var events: seq<Event>

    /** The copy persisted by the repository; it leaves the event buffer behind. */
    function State(): Snapshot
      reads this
    {
      Snapshot(id, accountID, symbol, side, orderType, tif, limitPrice, quantity, filledQty, avgFillPx,
               status, version, createdAt, updatedAt)
    }

    /** What a command must have done to this object and answered. */
    twostate predicate Obeys(c: Command, now: Time, new err: Option<Error>)
      reads this
    {
      match Apply(old(State()), c, now)
      case Applied(o, e) => err == None && State() == o && events == old(events) + [e]
      case Refused(error) => err == Some(error) && State() == old(State()) && events == old(events)
    }

    /** Rehydration: the stored state, no buffered events. */
    constructor (s: Snapshot)
      ensures State() == s && events == []
    {
      id, accountID, symbol, side := s.id, s.accountID, s.symbol, s.side;
      orderType, tif, limitPrice, quantity := s.orderType, s.tif, s.limitPrice, s.quantity;
      filledQty, avgFillPx, status, version := s.filledQty, s.avgFillPx, s.status, s.version;
      createdAt, updatedAt, events := s.createdAt, s.updatedAt, [];
    }

    static method NewOrder(id: string, accountID: string, symbol: string, side: Side, ot: OrderType, tif: TimeInForce,
                           limitPrice: int64, quantity: int64, now: Time) returns (o: Order?, err: Option<Error>)
      ensures (o == null) == err.Some?
      ensures o != null ==> fresh(o)
      ensures o != null ==>
        && o.id == id && o.accountID == accountID && o.symbol == symbol && o.side == side && o.orderType == ot
        && o.tif == tif && o.limitPrice == limitPrice && o.quantity == quantity && o.createdAt == o.updatedAt == now
        && o.status == New && o.version == 0 && o.filledQty == 0 && o.avgFillPx == 0
      ensures match Open(id, accountID, symbol, side, ot, tif, limitPrice, quantity, now)
        case Ok(opening) => o != null && o.State() == opening.order && o.events == [opening.event]
        case Err(error) => err == Some(error)
    {
      if TrimSpace(id) == "" {
        return null, Some(EmptyID);
      }
      if TrimSpace(accountID) == "" {
        return null, Some(EmptyAccount);
      }
      if symbol == "" {
        return null, Some(InvalidSymbol);
      }
      if side != Buy && side != Sell {
        return null, Some(InvalidSide);
      }
      if ot != Market && ot != Limit {
        return null, Some(InvalidOrderType);
      }
      if tif !in {Day, Gtc, Ioc, Fok} {
        return null, Some(InvalidTIF);
      }
      if quantity <= 0 {
        return null, Some(InvalidQuantity);
      }
      if ot == Limit && limitPrice <= 0 {
        return null, Some(LimitPriceRequired);
      }
      if ot == Market && limitPrice != 0 {
        return null, Some(MarketPriceSet);
      }
      o := new Order(Snapshot(id, accountID, symbol, side, ot, tif, limitPrice, quantity, 0, 0, New, 0, now, now));
      o.Raise(OrderPlaced(id, now, accountID, symbol, side, ot, tif, quantity, limitPrice));
      err := None;
    }

    method Raise(e: Event)
      modifies this`events
      ensures events == old(events) + [e]
    {
      events := events + [e];
    }

    /** Hands the buffer over once: a second pull yields nothing new. */
    method PullEvents() returns (pulled: seq<Event>)
      modifies this`events
      ensures pulled == old(events) && events == []
    {
      pulled := events;
      events := [];
    }

    method Transition(to: Status, now: Time) returns (err: Option<Error>)
      modifies this`status, this`updatedAt, this`version
      ensures err == None <==> CanTransitionTo(old(status), to)
      ensures State() == if err == None then Moved(old(State()), to, now) else old(State())
      ensures err.Some? ==> err.value == InvalidTransition
    {
      if !CanTransitionTo(status, to) {
        return Some(InvalidTransition);
      }
      status := to;
      updatedAt := now;
      version := version + 1;
      err := None;
    }

    method DoAccept(now: Time) returns (err: Option<Error>)
      modifies this
      ensures Obeys(Accept, now, err)
      ensures err == None ==>
        status == Accepted && version == old(version) + 1 && events == old(events) + [OrderAccepted(id, now)]
    {
      err := Transition(Accepted, now);
      if err.Some? {
        return;
      }
      Raise(OrderAccepted(id, now));
    }

    method DoReject(reason: string, now: Time) returns (err: Option<Error>)
      modifies this
      ensures Obeys(Reject(reason), now, err)
      ensures err == None ==>
        status == Rejected && version == old(version) + 1 && events == old(events) + [OrderRejected(id, now, reason)]
    {
      err := Transition(Rejected, now);
      if err.Some? {
        return;
      }
      Raise(OrderRejected(id, now, reason));
    }

    method DoCancel(now: Time) returns (err: Option<Error>)
      modifies this
      ensures Obeys(Cancel, now, err)
      ensures err == None ==>
        status == Canceled && version == old(version) + 1 && events == old(events) + [OrderCanceled(id, now)]
    {
      err := Transition(Canceled, now);
      if err.Some? {
        return;
      }
      Raise(OrderCanceled(id, now));
    }

    method DoExpire(now: Time) returns (err: Option<Error>)
      modifies this
      ensures Obeys(Expire, now, err)
      ensures err == None ==>
        status == Expired && version == old(version) + 1 && events == old(events) + [OrderExpired(id, now)]
    {
      err := Transition(Expired, now);
      if err.Some? {
        return;
      }
      Raise(OrderExpired(id, now));
    }

    /** The transition errors dropped here never occur: the contract demands the move on every success. */
    method DoFill(qty: int64, px: int64, now: Time) returns (err: Option<Error>)
      modifies this
      ensures Obeys(Fill(qty, px), now, err)
    {
      hide AddI64, MulQuantity, DivByQuantity;
      if status != Accepted && status != PartiallyFilled {
        return Some(InvalidTransition);
      }
      if qty <= 0 {
        return Some(InvalidQuantity);
      }
      if px <= 0 {
        return Some(FillPrice);
      }
      var newFilled := AddI64(filledQty, qty);
      if newFilled == None {
        return Some(Overflow);
      }
      if newFilled.value > quantity {
        return Some(Overfill);
      }
      var oldNotional := MulQuantity(avgFillPx, filledQty);
      if oldNotional == None {
        return Some(Overflow);
      }
      var addNotional := MulQuantity(px, qty);
      if addNotional == None {
        return Some(Overflow);
      }
      var totalNotional := AddI64(oldNotional.value, addNotional.value);
      if totalNotional == None {
        return Some(Overflow);
      }
      var newAvg := DivByQuantity(totalNotional.value, newFilled.value);
      if newAvg == None {
        return Some(Overflow);
      }
      filledQty := newFilled.value;
      avgFillPx := newAvg.value;
      if newFilled.value == quantity {
        var _ := Transition(Filled, now);
        Raise(OrderFilled(id, now, qty, px, avgFillPx));
      } else {
        var _ := Transition(PartiallyFilled, now);
        Raise(OrderPartiallyFilled(id, now, qty, px, filledQty, avgFillPx));
      }
      err := None;
    }
  }
}
