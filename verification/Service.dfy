/**
 The commands of internal/app/service.go run one at a time on the real objects, and their
 correspondence with the step system: an undisturbed command is one particular run of Desk steps.

 Clock readings, the generated id and the answer of the risk system are inputs.
 */
module Service {
  import opened Wrappers
  import opened Int64
  import opened FixedPoint
  import opened Decimal
  import opened Types
  import opened Orders
  import opened OrderHistory
  import opened Store
  import opened OrderAggregate
  import opened Repository
  import Breaker
  import Limiter
  import D = Desk

  datatype PlaceOrderCommand = PlaceOrderCommand(
    accountID: string, symbol: string, side: string, orderType: string, tif: string,
    quantity: string, limitPrice: string, idempotencyKey: string)

  /** Successive readings of the clock during one PlaceOrder. */
  datatype Readings = Readings(limited: real, built: Time, asked: int, reported: int, decided: Time)

  datatype Reason =
    | RateLimited | BadQuantity | BadMoney
    | Invalid(error: Error)
    | RepositoryError(repo: RepoError)

  datatype Placement = Denied(reason: Reason) | Existing(id: string) | Created(id: string, status: Status)

  datatype Built = NotBuilt(reason: Reason) | IsBuilt(opening: Opening)

  /** Parsing and validation, in the program's order. */
  function Build(cmd: PlaceOrderCommand, id: string, now: Time): Built {
    var symbol, side := SymbolOf(cmd.symbol), SideOf(cmd.side);
    var ot, tif := OrderTypeOf(cmd.orderType), TimeInForceOf(cmd.tif);
    if symbol.Err? then NotBuilt(Invalid(symbol.error))
    else if side.Err? then NotBuilt(Invalid(side.error))
    else if ot.Err? then NotBuilt(Invalid(ot.error))
    else if tif.Err? then NotBuilt(Invalid(tif.error))
    else BuildAmounts(cmd, symbol.value, side.value, ot.value, tif.value, id, now)
  }

  function BuildAmounts(cmd: PlaceOrderCommand, symbol: string, side: Side, ot: OrderType, tif: TimeInForce,
                        id: string, now: Time): Built
  {
    var qty := FixedValue(cmd.quantity, QUANTITY_SCALE);
    if qty == None then NotBuilt(BadQuantity)
    else
      var limit := if ot == Limit then FixedValue(cmd.limitPrice, MONEY_SCALE) else Some(0);
      if limit == None then NotBuilt(BadMoney)
      else
        match Open(id, cmd.accountID, symbol, side, ot, tif, limit.value, qty.value, now)
        case Ok(opening) => IsBuilt(opening)
        case Err(error) => NotBuilt(Invalid(error))
  }

  /** The order carries what the texts of the command name, at the scales of its kind of amount. */
  ghost predicate Honours(cmd: PlaceOrderCommand, id: string, now: Time, o: Snapshot) {
    && o.id == id && o.accountID == cmd.accountID && o.createdAt == now
    && SymbolOf(cmd.symbol) == Ok(o.symbol) && SideOf(cmd.side) == Ok(o.side)
    && OrderTypeOf(cmd.orderType) == Ok(o.orderType) && TimeInForceOf(cmd.tif) == Ok(o.tif)
    && FixedValue(cmd.quantity, 1000) == Some(o.quantity) && o.quantity > 0
    && (o.orderType == Limit ==> FixedValue(cmd.limitPrice, 10000) == Some(o.limitPrice) && o.limitPrice > 0)
    && (o.orderType == Market ==> o.limitPrice == 0)
  }

  /** The announcement that goes with an order. */
  function Announcement(o: Snapshot): Event {
    OrderPlaced(o.id, o.createdAt, o.accountID, o.symbol, o.side, o.orderType, o.tif, o.quantity, o.limitPrice)
  }

  /** Acceptance exactly on an approval; otherwise a rejection giving the risk system's reason, or that it had none. */
  function Ruling(id: string, risk: D.Risk, now: Time): Event {
    if risk.RiskError? then OrderRejected(id, now, "risk check unavailable")
    else if risk.approved then OrderAccepted(id, now)
    else OrderRejected(id, now, risk.reason)
  }

  lemma BuildHonours(cmd: PlaceOrderCommand, id: string, now: Time)
    requires Build(cmd, id, now).IsBuilt?
    ensures var opening := Build(cmd, id, now).opening;
      Honours(cmd, id, now, opening.order) && opening.event == Announcement(opening.order)
  {
    hide FixedValue, SymbolOf, SideOf, OrderTypeOf, TimeInForceOf, Text.TrimSpace, Open;
    var symbol, side := SymbolOf(cmd.symbol).value, SideOf(cmd.side).value;
    var ot, tif := OrderTypeOf(cmd.orderType).value, TimeInForceOf(cmd.tif).value;
    var qty := FixedValue(cmd.quantity, QUANTITY_SCALE).value;
    var limit := if ot == Limit then FixedValue(cmd.limitPrice, MONEY_SCALE).value else 0;
    OpenCarries(id, cmd.accountID, symbol, side, ot, tif, limit, qty, now);
    OpensExactly(id, cmd.accountID, symbol, side, ot, tif, limit, qty, now);
  }

  /** An ordinary quantity literal is stored as what its digits say, in thousandths of a share. */
  lemma LiteralQuantity(cmd: PlaceOrderCommand, id: string, now: Time, w: string, dot: bool, f: string)
    requires Literal(w, dot, f, 1000) && cmd.quantity == Written(false, w, dot, f) && Build(cmd, id, now).IsBuilt?
    ensures |f| <= 3 && Build(cmd, id, now).opening.order.quantity
      == Text.NumberOf(w) * 1000 + Text.NumberOf(f) * Text.Pow10(3 - |f|)
  {
    hide FixedValue, Build, DigitCount, Text.NumberOf, Text.Pow10, SymbolOf, SideOf, OrderTypeOf, TimeInForceOf;
    UsedScaleDigits();
    BuildHonours(cmd, id, now);
    ParseMeaning(false, w, dot, f, 1000);
  }

  /** Exactly which requests build an order. */
  lemma BuildsExactly(cmd: PlaceOrderCommand, id: string, now: Time)
    ensures var qty, limit := FixedValue(cmd.quantity, 1000), FixedValue(cmd.limitPrice, 10000);
      Build(cmd, id, now).IsBuilt? <==>
        && SymbolOf(cmd.symbol).Ok? && SideOf(cmd.side).Ok?
        && OrderTypeOf(cmd.orderType).Ok? && TimeInForceOf(cmd.tif).Ok?
        && qty.Some? && qty.value > 0 && (OrderTypeOf(cmd.orderType) == Ok(Limit) ==> limit.Some? && limit.value > 0)
        && Text.TrimSpace(id) != "" && Text.TrimSpace(cmd.accountID) != ""
  {
    hide FixedValue, Normal, Text.TrimSpace;
    SymbolThere(cmd.symbol);
  }

  lemma SymbolThere(s: string)
    ensures SymbolOf(s).Ok? ==> SymbolOf(s).value != ""
    ensures SymbolOf(s).Err? ==> SymbolOf(s) == Err(InvalidSymbol)
  {
    hide Normal;
  }

  /** The first thing wrong with a request decides its answer, in the program's order. */
  lemma BuildRefusesWith(cmd: PlaceOrderCommand, id: string, now: Time)
    ensures var r := Build(cmd, id, now);
      var qty, limit := FixedValue(cmd.quantity, 1000), FixedValue(cmd.limitPrice, 10000);
      var named := SymbolOf(cmd.symbol).Ok?;
      var sided := named && SideOf(cmd.side).Ok?;
      var typed := sided && OrderTypeOf(cmd.orderType).Ok?;
      var read := typed && TimeInForceOf(cmd.tif).Ok?;
      var limited := OrderTypeOf(cmd.orderType) == Ok(Limit);
      var priced := read && qty.Some? && (limited ==> limit.Some?);
      var owned := priced && Text.TrimSpace(id) != "" && Text.TrimSpace(cmd.accountID) != "";
      && (r == NotBuilt(Invalid(InvalidSymbol)) <==> !named)
      && (r == NotBuilt(Invalid(InvalidSide)) <==> named && !sided)
      && (r == NotBuilt(Invalid(InvalidOrderType)) <==> sided && !typed)
      && (r == NotBuilt(Invalid(InvalidTIF)) <==> typed && !read)
      && (r == NotBuilt(BadQuantity) <==> read && qty == None)
      && (r == NotBuilt(BadMoney) <==> read && qty.Some? && limited && limit == None)
      && (r == NotBuilt(Invalid(EmptyID)) <==> priced && Text.TrimSpace(id) == "")
      && (r == NotBuilt(Invalid(EmptyAccount)) <==>
            priced && Text.TrimSpace(id) != "" && Text.TrimSpace(cmd.accountID) == "")
      && (r == NotBuilt(Invalid(InvalidQuantity)) <==> owned && qty.value <= 0)
      && (r == NotBuilt(Invalid(LimitPriceRequired)) <==> owned && qty.value > 0 && limited && limit.value <= 0)
  {
    hide FixedValue, Normal, Text.TrimSpace, SymbolOf;
    SymbolThere(cmd.symbol);
    OnlyNamesRead(cmd.side);
    OnlyNamesRead(cmd.orderType);
    OnlyNamesRead(cmd.tif);
  }

  /** The decided order is the opened one after its ruling, and its two events are the announcement and the ruling. */
  lemma DecidedSays(opening: Opening, risk: D.Risk, now: Time)
    requires IsOpening(opening)
    ensures var t := D.Decided(opening, Step(D.Verdict(risk), now));
      && Lifecycle(t.order) && SameTerms(opening.order, t.order) && t.order.version == 1 && t.order.updatedAt == now
      && t.order.status == (if D.Approved(risk) then Accepted else Rejected)
      && t.log == [opening.event, Ruling(opening.order.id, risk, now)]
  {
    hide IsOpening, Lifecycle, Apply, Coherent;
    OpeningCoherent(opening);
    CoherentLifecycle(Begin(opening));
    var o, c := opening.order, D.Verdict(risk);
    NewApplies(o, c, now);
    ApplyKeepsLifecycle(o, c, now);
    ApplyLeadsTo(o, c, now);
  }

  lemma NewApplies(o: Snapshot, c: Command, now: Time)
    requires o.status == New && o.version == 0 && (c.Accept? || c.Reject?)
    ensures Apply(o, c, now).Applied? && Apply(o, c, now).order.version == 1
  {}

  lemma HonouredStill(cmd: PlaceOrderCommand, id: string, now: Time, a: Snapshot, b: Snapshot)
    requires Honours(cmd, id, now, a) && SameTerms(a, b)
    ensures Honours(cmd, id, now, b) && Announcement(b) == Announcement(a)
  {
    hide FixedValue, SymbolOf, SideOf, OrderTypeOf, TimeInForceOf;
  }

  function AsReason(err: Option<RepoError>): Option<Reason> {
    if err.Some? then Some(RepositoryError(err.value)) else None
  }

  /** What the service sees of the risk system through the breaker. */
  function Seen(admitted: bool, answer: D.Risk): D.Risk {
    if admitted then answer else D.RiskError
  }

  /** Whether the breaker lets a call through now. */
  predicate Lets(c: Breaker.Config, g: Breaker.Gauge, now: int) {
    Breaker.Refreshed(c, g, now).mode != Breaker.Open
  }

  /** The breaker after one guarded risk check. */
  function Guarded(c: Breaker.Config, g: Breaker.Gauge, answer: D.Risk, t: Readings): Breaker.Gauge {
    var g' := Breaker.Refreshed(c, g, t.asked);
    if g'.mode == Breaker.Open then g' else Breaker.Recorded(c, g', answer.RiskError?, t.reported)
  }

  ghost predicate AllLifecycle(orders: Book) {
    forall id :: id in orders ==> Lifecycle(orders[id])
  }

  /**
   What the breaker makes of a risk check: nothing when it is not let through; an error counts as a failure, and any
   verdict, approval or refusal, as a success.
   */
  lemma GuardedCounts(c: Breaker.Config, g: Breaker.Gauge, answer: D.Risk, t: Readings)
    ensures var open, after := Breaker.Refreshed(c, g, t.asked), Guarded(c, g, answer, t);
      && (!Lets(c, g, t.asked) ==> after == g)
      && (open.mode == Breaker.Closed && answer.RiskError? ==>
            if g.failures + 1 >= c.failureThreshold then after.mode == Breaker.Open && after.openedAt == t.reported
            else after.mode == Breaker.Closed && after.failures == g.failures + 1)
      && (open.mode == Breaker.Closed && answer.RiskVerdict? ==> after.mode == Breaker.Closed && after.failures == 0)
      && (open.mode == Breaker.HalfOpen && answer.RiskError? ==>
            after.mode == Breaker.Open && after.openedAt == t.reported)
      && (open.mode == Breaker.HalfOpen && answer.RiskVerdict? ==>
            after.mode != Breaker.Open && after.halfOpenSuccess == open.halfOpenSuccess + 1)
  {}

  class Service {
    const repo: OrderRepository
    const limiter: Limiter.RateLimiter
    const breaker: Breaker.CircuitBreaker
    /** Everything passed to Publish, and every id sent to the venue, in order. */
    var published: seq<Event>
    var routed: seq<string>

    /** The repository is in order, and everything in it is in a lifecycle state. */
    ghost predicate Valid()
      reads this, repo
    {
      repo.Valid() && AllLifecycle(repo.orders)
    }

    constructor (repo: OrderRepository, limiter: Limiter.RateLimiter, breaker: Breaker.CircuitBreaker)
      requires repo.Valid() && AllLifecycle(repo.orders)
      ensures Valid()
      ensures this.repo == repo && this.limiter == limiter && this.breaker == breaker
      ensures published == [] && routed == []
    {
      this.repo, this.limiter, this.breaker := repo, limiter, breaker;
      published, routed := [], [];
    }

    method PlaceOrder(cmd: PlaceOrderCommand, id: string, answer: D.Risk, t: Readings) returns (r: Placement)
      requires Valid()
      modifies this, repo`shards, repo`idem, repo`orders, limiter, breaker
      ensures Valid()
      ensures limiter.Level() == Limiter.Called(old(limiter.Level()), t.limited)
      ensures r == Denied(RateLimited) <==> !Limiter.Admits(old(limiter.Level()), t.limited)
      ensures var admitted := Lets(breaker.Settings(), old(breaker.Reading()), t.asked);
        var p := Placed(old(repo.orders), old(repo.idem), cmd.idempotencyKey, Build(cmd, id, t.built),
                        Seen(admitted, answer), t.decided);
        r != Denied(RateLimited) ==>
          && r == p.placement && repo.orders == p.orders && repo.idem == p.idem
          && published == old(published) + p.events && routed == old(routed) + p.routed
      ensures var admitted := Lets(breaker.Settings(), old(breaker.Reading()), t.asked);
        r.Created? ==>
          && r.id == id && id !in old(repo.orders) && id in repo.orders && Honours(cmd, id, t.built, repo.orders[id])
          && repo.orders == old(repo.orders)[id := repo.orders[id]] && repo.orders[id].updatedAt == t.decided
          && routed == old(routed) + (if r.status == Accepted then [id] else [])
          && repo.idem == (if cmd.idempotencyKey == "" then old(repo.idem)
                           else old(repo.idem)[cmd.idempotencyKey := id])
          && repo.orders[id].status == r.status && (r.status == Accepted <==> admitted && D.Approved(answer))
          && published == old(published)
                          + [Announcement(repo.orders[id]), Ruling(id, Seen(admitted, answer), t.decided)]
      ensures r.Existing? <==>
        && Limiter.Admits(old(limiter.Level()), t.limited)
        && cmd.idempotencyKey != "" && cmd.idempotencyKey in old(repo.idem)
      ensures r.Existing? ==> r.id == old(repo.idem)[cmd.idempotencyKey] && r.id in repo.orders
      ensures r != Denied(RateLimited) && !r.Existing? && Build(cmd, id, t.built).NotBuilt? ==>
        r == Denied(Build(cmd, id, t.built).reason)
      ensures r == Denied(RepositoryError(Duplicate)) <==>
        r != Denied(RateLimited) && !r.Existing? && Build(cmd, id, t.built).IsBuilt? && id in old(repo.orders)
      ensures !r.Created? ==>
        && repo.orders == old(repo.orders) && repo.idem == old(repo.idem)
        && published == old(published) && routed == old(routed)
      ensures breaker.Reading() ==
        if r.Created? || r == Denied(RepositoryError(Duplicate))
        then Guarded(breaker.Settings(), old(breaker.Reading()), answer, t) else old(breaker.Reading())
    {
      hide OrderRepository.Valid, Build, D.Decided, D.Verdict, Guarded, Limiter.Called, Limiter.Admits,
        Breaker.Refreshed, Lifecycle, Honours, Announcement, Ruling, IsOpening;
      var allowed := limiter.Allow(t.limited);
      if !allowed {
        return Denied(RateLimited);
      }
      if cmd.idempotencyKey != "" {
        var existing := repo.FindByIdempotencyKey(cmd.idempotencyKey);
        if existing.Some? {
          return Existing(existing.value);
        }
      }
      var order, reason := BuildOrder(cmd, id, t.built);
      if order == null {
        return Denied(reason.value);
      }
      var risk := CheckRisk(answer, t);
      ghost var opening := Build(cmd, id, t.built).opening;
      BuildOpens(cmd, id, t.built);
      BuildHonours(cmd, id, t.built);
      DecidedSays(opening, risk, t.decided);
      HonouredStill(cmd, id, t.built, opening.order, D.Decided(opening, Step(D.Verdict(risk), t.decided)).order);
      r := Commit(order, opening, risk, cmd.idempotencyKey, t.decided);
    }

    /** Decide, save, publish and route; an id already taken stops it at the save. */
    method Commit(order: Order, ghost opening: Opening, risk: D.Risk, key: string, now: Time) returns (r: Placement)
      requires repo.Valid()
      requires order.State() == opening.order && order.events == [opening.event] && opening.order.status == New
      modifies this, order, repo`shards, repo`idem, repo`orders
      ensures repo.Valid()
      ensures var t := D.Decided(opening, Step(D.Verdict(risk), now));
        var id := t.order.id;
        && id == opening.order.id && t.order.status == (if D.Approved(risk) then Accepted else Rejected)
        && (if SaveError(old(repo.orders), t.order).Some? then
              && r == Denied(RepositoryError(Duplicate))
              && repo.orders == old(repo.orders) && repo.idem == old(repo.idem)
              && published == old(published) && routed == old(routed)
            else
              && r == Created(id, t.order.status)
              && repo.orders == old(repo.orders)[id := t.order]
              && repo.idem == (if key == "" then old(repo.idem) else old(repo.idem)[key := id])
              && published == old(published) + t.log
              && routed == old(routed) + (if t.order.status == Accepted then [id] else []))
    {
      hide OrderRepository.Valid, D.Decided, D.Verdict;
      Decide(order, opening, risk, now);
      var err := repo.Save(order.State(), key);
      if err.Some? {
        return Denied(RepositoryError(err.value));
      }
      var events := order.PullEvents();
      published := published + events;
      if order.status == Accepted {
        routed := routed + [order.id];
      }
      r := Created(order.id, order.status);
    }

    method BuildOrder(cmd: PlaceOrderCommand, id: string, now: Time) returns (o: Order?, reason: Option<Reason>)
      ensures match Build(cmd, id, now)
        case NotBuilt(why) => o == null && reason == Some(why) && !why.RateLimited? && !why.RepositoryError?
        case IsBuilt(opening) => o != null && fresh(o) && o.State() == opening.order && o.events == [opening.event]
                                 && opening.order.id == id && opening.order.status == New
    {
      hide SymbolOf, SideOf, OrderTypeOf, TimeInForceOf, BuildAmounts;
      var symbol := ParseSymbol(cmd.symbol);
      if symbol.Err? {
        return null, Some(Invalid(symbol.error));
      }
      var side := SideOf(cmd.side);
      if side.Err? {
        return null, Some(Invalid(side.error));
      }
      var ot := OrderTypeOf(cmd.orderType);
      if ot.Err? {
        return null, Some(Invalid(ot.error));
      }
      var tif := TimeInForceOf(cmd.tif);
      if tif.Err? {
        return null, Some(Invalid(tif.error));
      }
      o, reason := BuildWithAmounts(cmd, symbol.value, side.value, ot.value, tif.value, id, now);
    }

    method BuildWithAmounts(cmd: PlaceOrderCommand, symbol: string, side: Side, ot: OrderType, tif: TimeInForce,
                            id: string, now: Time) returns (o: Order?, reason: Option<Reason>)
      ensures match BuildAmounts(cmd, symbol, side, ot, tif, id, now)
        case NotBuilt(why) => o == null && reason == Some(why) && !why.RateLimited? && !why.RepositoryError?
        case IsBuilt(opening) => o != null && fresh(o) && o.State() == opening.order && o.events == [opening.event]
                                 && opening.order.id == id && opening.order.status == New
    {
      hide FixedValue;
      o, reason := null, None;
      var qty := ParseFixed(cmd.quantity, QUANTITY_SCALE);
      if qty == None {
        return null, Some(BadQuantity);
      }
      var limit := Some(0 as int64);
      if ot == Limit {
        limit := ParseFixed(cmd.limitPrice, MONEY_SCALE);
        if limit == None {
          return null, Some(BadMoney);
        }
      }
      var err;
      o, err := Order.NewOrder(id, cmd.accountID, symbol, side, ot, tif, limit.value, qty.value, now);
      if err.Some? {
        return null, Some(Invalid(err.value));
      }
    }

    /** The risk call behind the breaker: skipped when open, and its outcome recorded otherwise. */
    method CheckRisk(answer: D.Risk, t: Readings) returns (risk: D.Risk)
      modifies breaker
      ensures breaker.Reading() == Guarded(breaker.Settings(), old(breaker.Reading()), answer, t)
      ensures var admitted := Lets(breaker.Settings(), old(breaker.Reading()), t.asked);
        risk == Seen(admitted, answer)
    {
      var admitted := breaker.Allow(t.asked);
      if !admitted {
        return D.RiskError;
      }
      breaker.Record(answer.RiskError?, t.reported);
      risk := answer;
    }

    /** The verdict applied to a fresh order; the errors dropped here cannot occur on a New one. */
    method Decide(order: Order, ghost opening: Opening, risk: D.Risk, now: Time)
      requires order.State() == opening.order && order.events == [opening.event] && opening.order.status == New
      modifies order
      ensures var after := D.Decided(opening, Step(D.Verdict(risk), now));
        && order.State() == after.order && order.events == after.log && after.order.id == opening.order.id
        && after.order.status == if D.Approved(risk) then Accepted else Rejected
    {
      if risk.RiskError? {
        var _ := order.DoReject("risk check unavailable", now);
      } else if risk.approved {
        var _ := order.DoAccept(now);
      } else {
        var _ := order.DoReject(risk.reason, now);
      }
    }

    method CancelOrder(id: string, now: Time) returns (reason: Option<Reason>)
      requires Valid()
      modifies this`published, repo`shards, repo`orders
      ensures Valid() && old(published) <= published
      ensures AnsweredTruly(old(repo.orders), repo.orders, Sent(old(published), published), id, Cancel, now, reason)
      ensures Changed(old(repo.orders), id, Cancel, now) == Change(repo.orders, Sent(old(published), published), reason)
    {
      hide OrderRepository.Valid, Changed, Lifecycle, AnsweredTruly;
      StoredUnderOwnIds();
      ChangedTruly(repo.orders, id, Cancel, now);
      reason := ChangeOrder(id, Cancel, now);
    }

    method ApplyFill(id: string, quantity: string, price: string, now: Time) returns (reason: Option<Reason>)
      requires Valid()
      modifies this`published, repo`shards, repo`orders
      ensures Valid() && old(published) <= published
      ensures var qty, px := FixedValue(quantity, 1000), FixedValue(price, 10000);
        var sent := Sent(old(published), published);
        && (reason == Some(BadQuantity) <==> qty == None)
        && (reason == Some(BadMoney) <==> qty.Some? && px == None)
        && (qty == None || px == None ==> repo.orders == old(repo.orders) && published == old(published))
        && (qty.Some? && px.Some? ==>
              && AnsweredTruly(old(repo.orders), repo.orders, sent, id, Fill(qty.value, px.value), now, reason)
              && Changed(old(repo.orders), id, Fill(qty.value, px.value), now) == Change(repo.orders, sent, reason))
    {
      hide OrderRepository.Valid, Changed, Lifecycle, AnsweredTruly, FixedValue;
      var qty := ParseFixed(quantity, QUANTITY_SCALE);
      if qty == None {
        return Some(BadQuantity);
      }
      var px := ParseFixed(price, MONEY_SCALE);
      if px == None {
        return Some(BadMoney);
      }
      StoredUnderOwnIds();
      ChangedTruly(repo.orders, id, Fill(qty.value, px.value), now);
      ChangedNeverBad(repo.orders, id, Fill(qty.value, px.value), now);
      reason := ChangeOrder(id, Fill(qty.value, px.value), now);
    }

    lemma StoredUnderOwnIds()
      requires repo.Valid()
      ensures forall id :: id in repo.orders ==> repo.orders[id].id == id
    {}

    method Perform(order: Order, command: Command, now: Time) returns (err: Option<Error>)
      requires command.Cancel? || command.Fill?
      modifies order
      ensures order.Obeys(command, now, err)
    {
      hide Apply;
      match command {
        case Cancel => err := order.DoCancel(now);
        case Fill(qty, px) => err := order.DoFill(qty, px, now);
      }
    }

    /** Get, change the copy, Update against the version read, publish: what cancelling and filling share. */
    method ChangeOrder(id: string, command: Command, now: Time) returns (reason: Option<Reason>)
      requires repo.Valid() && (command.Cancel? || command.Fill?)
      modifies this`published, repo`shards, repo`orders
      ensures repo.Valid() && old(published) <= published
      ensures Changed(old(repo.orders), id, command, now)
           == Change(repo.orders, Sent(old(published), published), reason)
    {
      hide Apply, OrderRepository.Valid, Lifecycle;
      StoredUnderOwnIds();
      var found := repo.Get(id);
      if found == None {
        return Some(RepositoryError(NotFound));
      }
      var order := new Order(found.value);
      var expected := order.version;
      var err := Perform(order, command, now);
      if err.Some? {
        return Some(Invalid(err.value));
      }
      StoredUnder(repo.orders, id, found.value, command, now);
      var failed := repo.Update(order.State(), expected);
      if failed.Some? {
        return AsReason(failed);
      }
      var events := order.PullEvents();
      published := published + events;
      reason := None;
    }
  }

  // ---------------------------------------------------------------- commands on the flat store

  /** Outcome of an undisturbed Get / mutate / Update: the store after it, the events it publishes, its error. */
  datatype Change = Change(orders: Book, events: seq<Event>, reason: Option<Reason>)

  function Changed(orders: Book, id: string, command: Command, now: Time): Change {
    if id !in orders then Change(orders, [], Some(RepositoryError(NotFound)))
    else
      match Apply(orders[id], command, now)
      case Refused(error) => Change(orders, [], Some(Invalid(error)))
      case Applied(next, event) => Change(orders[id := next], [event], None)
  }

  /**
   What the answer of a change means, whatever computed it. Success exactly when the order is there and the command
   may be applied: then that order alone moves one version on, in the way the command says, and one event says so.
   NotFound exactly when the order is not there; otherwise the aggregate's own error. A failure changes nothing.
   */
  ghost predicate AnsweredTruly(before: Book, after: Book, sent: seq<Event>, id: string, command: Command, now: Time,
                                reason: Option<Reason>)
  {
    && (reason == None <==> id in before && CanApply(before[id], command))
    && (reason == Some(RepositoryError(NotFound)) <==> id !in before)
    && (id in before && reason.Some? ==>
          reason.value.Invalid? && Apply(before[id], command, now) == Refused(reason.value.error))
    && (reason.Some? ==> after == before && sent == [])
    && (reason == None && id in before ==>
          && id in after && after == before[id := after[id]] && SameTerms(before[id], after[id])
          && after[id].version == before[id].version + 1 && after[id].updatedAt == now
          && |sent| == 1 && sent[0].orderID == id && sent[0].at == now
          && (command.Cancel? ==> after[id].status == Canceled && sent[0].OrderCanceled?
                                  && after[id].filledQty == before[id].filledQty)
          && (command.Fill? ==> after[id].filledQty == before[id].filledQty + command.qty && sent[0].IsFill()
                                && sent[0].fillQty == command.qty && sent[0].fillPrice == command.px))
  }

  /** The changed order is in a lifecycle state again, and the answer means what it says. */
  lemma ChangedTruly(orders: Book, id: string, command: Command, now: Time)
    requires AllLifecycle(orders) && (id in orders ==> orders[id].id == id) && (command.Cancel? || command.Fill?)
    ensures var r := Changed(orders, id, command, now);
      AllLifecycle(r.orders) && AnsweredTruly(orders, r.orders, r.events, id, command, now, r.reason)
  {
    hide Apply, Lifecycle, CanApply;
    if id in orders {
      AppliesExactly(orders[id], command, now);
      if Apply(orders[id], command, now).Applied? {
        ApplyKeepsLifecycle(orders[id], command, now);
        ApplyLeadsTo(orders[id], command, now);
      }
    }
  }

  lemma ChangedNeverBad(orders: Book, id: string, command: Command, now: Time)
    ensures Changed(orders, id, command, now).reason !in {Some(BadQuantity), Some(BadMoney)}
  {
    hide Apply;
  }

  /** Outcome of an undisturbed placement: the store and keys after it, what it publishes and routes, its answer. */
  datatype PlaceOutcome = PlaceOutcome(
    orders: Book, idem: map<string, string>, events: seq<Event>, routed: seq<string>, placement: Placement)

  function Placed(orders: Book, idem: map<string, string>, key: string, built: Built, risk: D.Risk, now: Time)
    : PlaceOutcome
  {
    if key != "" && key in idem then PlaceOutcome(orders, idem, [], [], Existing(idem[key]))
    else
      match built
      case NotBuilt(reason) => PlaceOutcome(orders, idem, [], [], Denied(reason))
      case IsBuilt(opening) =>
        var t := D.Decided(opening, Step(D.Verdict(risk), now));
        var id := t.order.id;
        if SaveError(orders, t.order).Some?
        then PlaceOutcome(orders, idem, [], [], Denied(RepositoryError(Duplicate)))
        else PlaceOutcome(orders[id := t.order], if key == "" then idem else idem[key := id], t.log,
                          if t.order.status == Accepted then [id] else [], Created(id, t.order.status))
  }

  /** What was appended to a log. */
  function Sent(before: seq<Event>, after: seq<Event>): seq<Event> {
    if |before| <= |after| then after[|before|..] else []
  }

  /** An order read by id still carries that id after a command, so Update looks where Get looked. */
  lemma StoredUnder(orders: Book, id: string, s: Snapshot, command: Command, now: Time)
    requires id in orders && orders[id] == s && s.id == id
    ensures Apply(s, command, now).Applied? ==>
      Apply(s, command, now).order.id == id && UpdateError(orders, Apply(s, command, now).order, s.version) == None
  {
    hide FillTally;
  }

  // ---------------------------------------------------------------- correspondence with the step system

  /**
   An undisturbed CancelOrder or ApplyFill is the run Get, Attempt, Update, Hand of one client: same
   store, same events handed over, and the client is idle again.
   */
  lemma ChangeIsDeskRun(d: D.Desk, c: nat, id: string, command: Command, now: Time)
    returns (actions: seq<D.Action>, d': D.Desk)
    requires D.Inv(d) && c < |d.clients| && d.clients[c].Idle? && (command.Cancel? || command.Fill?)
    ensures D.Steps(d, actions, d')
    ensures var r := Changed(d.store, id, command, now);
      && d'.store == r.orders && d'.handed == d.handed + r.events && d'.clients == d.clients
      && AnsweredTruly(d.store, d'.store, r.events, id, command, now, r.reason)
  {
    hide Apply, D.Inv, D.Enabled, D.Effect, Lifecycle, CanApply, AnsweredTruly;
    StoredLifecycles(d);
    if id in d.store { D.StoredUnderId(d, id); }
    ChangedTruly(d.store, id, command, now);
    if id !in d.store {
      actions, d' := [], d;
    } else {
      var s := d.store[id];
      StoredUnder(d.store, id, s, command, now);
      if Apply(s, command, now).Refused? {
        actions, d' := RefusedRun(d, c, id, command, now);
      } else {
        actions, d' := AppliedRun(d, c, id, command, now);
      }
    }
  }

  lemma StoredLifecycles(d: D.Desk)
    requires D.Inv(d)
    ensures AllLifecycle(d.store)
  {
    hide D.LifeOk, Lifecycle;
    forall id | id in d.store ensures Lifecycle(d.store[id]) {
      assert D.LifeOk(id, d.lives[id], d.store[id]);
      D.StoredId(id, d.lives[id], d.store[id]);
    }
  }

  lemma RefusedRun(d: D.Desk, c: nat, id: string, command: Command, now: Time)
    returns (actions: seq<D.Action>, d': D.Desk)
    requires c < |d.clients| && d.clients[c].Idle? && (command.Cancel? || command.Fill?)
    requires id in d.store && Apply(d.store[id], command, now).Refused?
    ensures D.Steps(d, actions, d') && d' == d
  {
    hide Apply;
    actions := [D.Get(c, id), D.Attempt(c, command, now)];
    var d1 := D.Effect(d, actions[0]);
    d' := D.Effect(d1, actions[1]);
    assert D.Steps(d1, actions[1..], d') by { assert actions[1..][1..] == []; }
    assert d'.clients == d.clients;
  }

  lemma AppliedRun(d: D.Desk, c: nat, id: string, command: Command, now: Time)
    returns (actions: seq<D.Action>, d': D.Desk)
    requires c < |d.clients| && d.clients[c].Idle? && (command.Cancel? || command.Fill?)
    requires id in d.store && Apply(d.store[id], command, now).Applied?
    requires var next := Apply(d.store[id], command, now).order;
      next.id == id && UpdateError(d.store, next, d.store[id].version) == None
    ensures D.Steps(d, actions, d')
    ensures var r := Apply(d.store[id], command, now);
      d'.store == d.store[id := r.order] && d'.handed == d.handed + [r.event] && d'.clients == d.clients
  {
    hide Apply, D.Lengthened;
    actions := [D.Get(c, id), D.Attempt(c, command, now), D.Update(c), D.Hand(c)];
    var d1 := D.Effect(d, actions[0]);
    var d2 := D.Effect(d1, actions[1]);
    var d3 := D.Effect(d2, actions[2]);
    d' := D.Effect(d3, actions[3]);
    assert D.Steps(d3, actions[3..], d') by { assert actions[3..][1..] == []; }
    assert D.Steps(d2, actions[2..], d') by { assert actions[2..][1..] == actions[3..]; }
    assert D.Steps(d1, actions[1..], d') by { assert actions[1..][1..] == actions[2..]; }
    assert d'.clients == d.clients;
  }

  /** The answer a placement gives for its key, if it has one and an order to name. */
  function AnswerOf(key: string, p: Placement): set<(string, string)> {
    if key == "" || p.Denied? then {} else {(key, p.id)}
  }

  lemma BuildOpens(cmd: PlaceOrderCommand, id: string, now: Time)
    ensures Build(cmd, id, now).IsBuilt? ==> IsOpening(Build(cmd, id, now).opening)
  {
    hide FixedValue, SymbolOf, SideOf, OrderTypeOf, TimeInForceOf, Complaint;
  }

  /**
   Every undisturbed PlaceOrder that the limiter lets through is a run of one client, with the same store, keys,
   events, routing and answer: CheckKey alone for a key already bound, then GiveUp for a request that does not
   build, Build and a failing Save for an id already taken, and otherwise Build, Save, Bind, Hand and, for an
   accepted order, Route and Finish.
   */
  lemma PlaceIsDeskRun(d: D.Desk, c: nat, cmd: PlaceOrderCommand, id: string, built: Time, risk: D.Risk, decided: Time)
    returns (actions: seq<D.Action>, d': D.Desk)
    requires c < |d.clients| && d.clients[c].Idle?
    ensures D.Steps(d, actions, d') && d'.clients == d.clients
    ensures var p := Placed(d.store, d.idem, cmd.idempotencyKey, Build(cmd, id, built), risk, decided);
      && d'.store == p.orders && d'.idem == p.idem && d'.handed == d.handed + p.events
      && d'.routed == d.routed + (set i | i in p.routed)
      && d'.answers == d.answers + AnswerOf(cmd.idempotencyKey, p.placement)
  {
    hide IsOpening, D.Decided, D.Verdict, D.Enabled, D.Effect, Build;
    var key, order := cmd.idempotencyKey, Build(cmd, id, built);
    BuildOpens(cmd, id, built);
    if key != "" && key in d.idem {
      actions, d' := RepeatedRun(d, c, key);
    } else if order.NotBuilt? {
      actions, d' := GivenUpRun(d, c, key);
    } else if D.Decided(order.opening, Step(D.Verdict(risk), decided)).order.id in d.store {
      actions, d' := TakenRun(d, c, key, order.opening, risk, decided);
    } else {
      actions, d' := CreatedRun(d, c, key, order.opening, risk, decided);
    }
  }

  lemma RepeatedRun(d: D.Desk, c: nat, key: string) returns (actions: seq<D.Action>, d': D.Desk)
    requires c < |d.clients| && d.clients[c].Idle? && key != "" && key in d.idem
    ensures D.Steps(d, actions, d') && d' == d.(answers := d.answers + {(key, d.idem[key])})
  {
    actions := [D.CheckKey(c, key)];
    d' := D.Effect(d, actions[0]);
    assert actions[1..] == [];
  }

  lemma GivenUpRun(d: D.Desk, c: nat, key: string) returns (actions: seq<D.Action>, d': D.Desk)
    requires c < |d.clients| && d.clients[c].Idle? && (key == "" || key !in d.idem)
    ensures D.Steps(d, actions, d') && d' == d
  {
    actions := [D.CheckKey(c, key), D.GiveUp(c)];
    var d1 := D.Effect(d, actions[0]);
    d' := D.Effect(d1, actions[1]);
    assert D.Steps(d1, actions[1..], d') by { assert actions[1..][1..] == []; }
    assert d'.clients == d.clients;
  }

  lemma TakenRun(d: D.Desk, c: nat, key: string, opening: Opening, risk: D.Risk, now: Time)
    returns (actions: seq<D.Action>, d': D.Desk)
    requires c < |d.clients| && d.clients[c].Idle? && IsOpening(opening) && (key == "" || key !in d.idem)
    requires D.Decided(opening, Step(D.Verdict(risk), now)).order.id in d.store
    ensures D.Steps(d, actions, d') && d' == d
  {
    hide IsOpening, D.Decided, D.Verdict;
    actions := [D.CheckKey(c, key), D.Build(c, opening, risk, now), D.Save(c)];
    var d1 := D.Effect(d, actions[0]);
    var d2 := D.Effect(d1, actions[1]);
    d' := D.Effect(d2, actions[2]);
    assert D.Steps(d2, actions[2..], d') by { assert actions[2..][1..] == []; }
    assert D.Steps(d1, actions[1..], d') by { assert actions[1..][1..] == actions[2..]; }
    assert d'.clients == d.clients;
  }

  lemma CreatedRun(d: D.Desk, c: nat, key: string, opening: Opening, risk: D.Risk, now: Time)
    returns (actions: seq<D.Action>, d': D.Desk)
    requires c < |d.clients| && d.clients[c].Idle? && IsOpening(opening) && (key == "" || key !in d.idem)
    requires D.Decided(opening, Step(D.Verdict(risk), now)).order.id !in d.store
    ensures D.Steps(d, actions, d')
    ensures var t := D.Decided(opening, Step(D.Verdict(risk), now));
      var id := t.order.id;
      && d'.store == d.store[id := t.order] && d'.handed == d.handed + t.log && d'.clients == d.clients
      && d'.idem == (if key == "" then d.idem else d.idem[key := id])
      && d'.routed == (if t.order.status == Accepted then d.routed + {id} else d.routed)
      && d'.answers == (if key == "" then d.answers else d.answers + {(key, id)})
  {
    hide IsOpening, D.Decided, D.Verdict, D.Enabled, D.Effect;
    var first, m := ToSave(d, c, key, opening, risk, now);
    var second;
    second, d' := FromSave(m, c, key, D.Decided(opening, Step(D.Verdict(risk), now)));
    D.StepsJoin(d, first, m, second, d');
    actions := first + second;
    assert d'.clients == d.clients;
  }

  lemma ToSave(d: D.Desk, c: nat, key: string, opening: Opening, risk: D.Risk, now: Time)
    returns (actions: seq<D.Action>, d': D.Desk)
    requires c < |d.clients| && d.clients[c].Idle? && IsOpening(opening) && (key == "" || key !in d.idem)
    requires D.Decided(opening, Step(D.Verdict(risk), now)).order.id !in d.store
    ensures D.Steps(d, actions, d')
    ensures var t := D.Decided(opening, Step(D.Verdict(risk), now));
      && d'.store == d.store[t.order.id := t.order] && d'.clients == d.clients[c := D.Keying(key, t.order, t.log)]
      && d'.idem == d.idem && d'.handed == d.handed && d'.routed == d.routed && d'.answers == d.answers
  {
    hide IsOpening, D.Decided, D.Verdict;
    actions := [D.CheckKey(c, key), D.Build(c, opening, risk, now), D.Save(c)];
    var d1 := D.Effect(d, actions[0]);
    var d2 := D.Effect(d1, actions[1]);
    d' := D.Effect(d2, actions[2]);
    assert D.Steps(d2, actions[2..], d') by { assert actions[2..][1..] == []; }
    assert D.Steps(d1, actions[1..], d') by { assert actions[1..][1..] == actions[2..]; }
  }

  lemma FromSave(d: D.Desk, c: nat, key: string, t: Trace) returns (actions: seq<D.Action>, d': D.Desk)
    requires c < |d.clients| && d.clients[c] == D.Keying(key, t.order, t.log)
    ensures D.Steps(d, actions, d')
    ensures
      && d'.store == d.store && d'.handed == d.handed + t.log && d'.clients == d.clients[c := D.Idle]
      && d'.idem == (if key == "" then d.idem else d.idem[key := t.order.id])
      && d'.routed == (if t.order.status == Accepted then d.routed + {t.order.id} else d.routed)
      && d'.answers == (if key == "" then d.answers else d.answers + {(key, t.order.id)})
  {
    var d1 := D.Effect(d, D.Bind(c));
    d' := D.Effect(d1, D.Hand(c));
    actions := [D.Bind(c), D.Hand(c)];
    assert D.Steps(d1, actions[1..], d') by { assert actions[1..][1..] == []; }
    if t.order.status == Accepted {
      var d2 := d';
      var d3 := D.Effect(d2, D.Route(c));
      d' := D.Effect(d3, D.Finish(c));
      var more := [D.Route(c), D.Finish(c)];
      assert D.Steps(d3, more[1..], d') by { assert more[1..][1..] == []; }
      D.StepsJoin(d, actions, d2, more, d');
      actions := actions + more;
    }
  }
}
