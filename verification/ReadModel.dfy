/** The position projection of internal/adapters/memory/readmodel.go. */
module ReadModel {
  import opened Wrappers
  import opened Int64
  import opened FixedPoint
  import opened Decimal
  import opened Orders

  /** What an order's fills need to be attributed. */
  datatype Meta = Meta(account: string, symbol: string, side: Side)

  datatype Position = Position(netQty: int64, totalCost: int64, totalAbs: int64)

  datatype View = View(meta: map<string, Meta>, byAccount: map<string, map<string, Position>>)

  const EMPTY_VIEW := View(map[], map[])
  const NO_POSITION := Position(0, 0, 0)

  function PositionAt(v: View, account: string, symbol: string): Position {
    if account in v.byAccount && symbol in v.byAccount[account] then v.byAccount[account][symbol] else NO_POSITION
  }

  /** One execution folded into a position; the sums wrap, and a notional that overflows is left out of the cost. */
  function Credited(p: Position, side: Side, qty: int64, px: int64): Position {
    var signed := if side == Sell then Neg(qty) else qty;
    var p' := p.(netQty := Wrap(p.netQty + signed));
    var notional := MulQuantity(px, qty);
    if notional == None then p'
    else p'.(totalCost := Wrap(p.totalCost + notional.value), totalAbs := Wrap(p.totalAbs + qty))
  }

  function WithPosition(v: View, account: string, symbol: string, p: Position): View {
    var row := if account in v.byAccount then v.byAccount[account] else map[];
    v.(byAccount := v.byAccount[account := row[symbol := p]])
  }

  function FillProjected(v: View, orderID: string, qty: int64, px: int64): View {
    if orderID !in v.meta then v
    else
      var m := v.meta[orderID];
      WithPosition(v, m.account, m.symbol, Credited(PositionAt(v, m.account, m.symbol), m.side, qty, px))
  }

  function Projected(v: View, e: Event): View {
    if e.OrderPlaced? then v.(meta := v.meta[e.orderID := Meta(e.accountID, e.symbol, e.side)])
    else if e.IsFill() then FillProjected(v, e.orderID, e.fillQty, e.fillPrice)
    else v
  }

  function ProjectAll(es: seq<Event>): View {
    if es == [] then EMPTY_VIEW else Projected(ProjectAll(es[..|es| - 1]), es[|es| - 1])
  }

  /** Average price shown for a position. */
  function AveragePrice(p: Position): int64 {
    if p.totalAbs > 0 then
      var a := DivByQuantity(p.totalCost, p.totalAbs);
      if a.Some? then a.value else 0
    else 0
  }

  datatype Row = Row(accountID: string, symbol: string, netQty: string, avgPrice: string)

  function RowOf(accountID: string, symbol: string, p: Position): Row {
    Row(accountID, symbol, FixedText(p.netQty, QUANTITY_SCALE), FixedText(AveragePrice(p), MONEY_SCALE))
  }

  class PositionReadModel {
    var meta: map<string, Meta>
    var byAccount: map<string, map<string, Position>>

    function Contents(): View
      reads this
    {
      View(meta, byAccount)
    }

    constructor ()
      ensures Contents() == EMPTY_VIEW
    {
      meta, byAccount := map[], map[];
    }

    method Project(e: Event)
      modifies this
      ensures Contents() == Projected(old(Contents()), e)
    {
      match e {
        case OrderPlaced(orderID, _, accountID, symbol, side, _, _, _, _) =>
          meta := meta[orderID := Meta(accountID, symbol, side)];
        case OrderPartiallyFilled(orderID, _, qty, px, _, _) => ApplyFill(orderID, qty, px);
        case OrderFilled(orderID, _, qty, px, _) => ApplyFill(orderID, qty, px);
        case _ =>
      }
    }

    method ApplyFill(orderID: string, qty: int64, px: int64)
      modifies this`byAccount
      ensures Contents() == FillProjected(old(Contents()), orderID, qty, px)
    {
      hide MulQuantity, Wrap, Neg;
      if orderID !in meta {
        return;
      }
      var m := meta[orderID];
      var bySym := if m.account in byAccount then byAccount[m.account] else map[];
      var pos := if m.symbol in bySym then bySym[m.symbol] else NO_POSITION;
      var signed := qty;
      if m.side == Sell {
        signed := Neg(qty);
      }
      pos := pos.(netQty := Wrap(pos.netQty + signed));
      var notional := MulQuantity(px, qty);
      if notional.Some? {
        pos := pos.(totalCost := Wrap(pos.totalCost + notional.value));
        pos := pos.(totalAbs := Wrap(pos.totalAbs + qty));
      }
      byAccount := byAccount[m.account := bySym[m.symbol := pos]];
    }

    /** One row per symbol ever traded by the account, in some order. */
    method Positions(accountID: string) returns (views: seq<Row>)
      ensures var bySym := if accountID in byAccount then byAccount[accountID] else map[];
        && |views| == |bySym|
        && (forall i :: 0 <= i < |views| ==>
              views[i].symbol in bySym && views[i] == RowOf(accountID, views[i].symbol, bySym[views[i].symbol]))
        && (forall i, j :: 0 <= i < j < |views| ==> views[i].symbol != views[j].symbol)
    {
      hide FixedText, DivByQuantity;
      var bySym := if accountID in byAccount then byAccount[accountID] else map[];
      views := [];
      var left := bySym.Keys;
      while left != {}
        invariant left <= bySym.Keys && |views| + |left| == |bySym|
        invariant forall i :: 0 <= i < |views| ==>
          && views[i].symbol in bySym && views[i].symbol !in left
          && views[i] == RowOf(accountID, views[i].symbol, bySym[views[i].symbol])
        invariant forall i, j :: 0 <= i < j < |views| ==> views[i].symbol != views[j].symbol
        decreases left
      {
        var sym :| sym in left;
        var pos := bySym[sym];
        var avg: int64 := 0;
        if pos.totalAbs > 0 {
          var a := DivByQuantity(pos.totalCost, pos.totalAbs);
          if a.Some? {
            avg := a.value;
          }
        }
        var net := FormatFixed(pos.netQty, QUANTITY_SCALE);
        var price := FormatFixed(avg, MONEY_SCALE);
        views := views + [Row(accountID, sym, net, price)];
        left := left - {sym};
      }
    }
  }

  // ---------------------------------------------------------------- what the projection should hold

  /** The most recent announcement of an order in an event sequence. */
  function MetaIn(es: seq<Event>, id: string): Option<Meta> {
    if es == [] then None
    else
      var e := es[|es| - 1];
      if e.OrderPlaced? && e.orderID == id then Some(Meta(e.accountID, e.symbol, e.side))
      else MetaIn(es[..|es| - 1], id)
  }

  datatype Trade = Trade(side: Side, qty: int64, px: int64)

  /** Executions that belong to an account and symbol, as far as the announcements seen before them tell. */
  function Trades(es: seq<Event>, account: string, symbol: string): seq<Trade> {
    if es == [] then []
    else
      var before, e := es[..|es| - 1], es[|es| - 1];
      var m := if e.IsFill() then MetaIn(before, e.orderID) else None;
      if m.Some? && m.value.account == account && m.value.symbol == symbol
      then Trades(before, account, symbol) + [Trade(m.value.side, e.fillQty, e.fillPrice)]
      else Trades(before, account, symbol)
  }

  function Signed(side: Side, qty: int): int {
    if side == Sell then -qty else qty
  }

  /** Buys minus sells, over unbounded integers. */
  function Net(ts: seq<Trade>): int {
    if ts == [] then 0 else Net(ts[..|ts| - 1]) + Signed(ts[|ts| - 1].side, ts[|ts| - 1].qty)
  }

  predicate Priced(t: Trade) {
    MulQuantity(t.px, t.qty).Some?
  }

  function Notionals(ts: seq<Trade>): int {
    if ts == [] then 0
    else
      var t := ts[|ts| - 1];
      Notionals(ts[..|ts| - 1]) + if Priced(t) then MulQuantity(t.px, t.qty).value else 0
  }

  function Volume(ts: seq<Trade>): int {
    if ts == [] then 0
    else
      var t := ts[|ts| - 1];
      Volume(ts[..|ts| - 1]) + if Priced(t) then t.qty else 0
  }

  /** Price times quantity, exactly. */
  function TrueCost(ts: seq<Trade>): int {
    if ts == [] then 0
    else
      var t := ts[|ts| - 1];
      TrueCost(ts[..|ts| - 1]) + if Priced(t) then t.px * t.qty else 0
  }

  lemma {:induction false} MetaTracked(es: seq<Event>, id: string)
    ensures MetaIn(es, id) == if id in ProjectAll(es).meta then Some(ProjectAll(es).meta[id]) else None
  {
    hide Credited;
    if es != [] { MetaTracked(es[..|es| - 1], id); }
  }

  lemma CreditedSums(ts: seq<Trade>, t: Trade)
    ensures Credited(Position(Wrap(Net(ts)), Wrap(Notionals(ts)), Wrap(Volume(ts))), t.side, t.qty, t.px)
         == Position(Wrap(Net(ts + [t])), Wrap(Notionals(ts + [t])), Wrap(Volume(ts + [t])))
  {
    hide Wrap, MulQuantity;
    assert (ts + [t])[..|ts|] == ts;
    NetStep(Net(ts), t.side, t.qty);
    if Priced(t) {
      WrapAdd(Notionals(ts), MulQuantity(t.px, t.qty).value);
      WrapAdd(Volume(ts), t.qty);
    }
  }

  lemma NetStep(n: int, side: Side, qty: int64)
    ensures Wrap(Wrap(n) + (if side == Sell then Neg(qty) else qty)) == Wrap(n + Signed(side, qty))
  {
    hide Wrap;
    if side == Sell {
      WrapAdd(0 - qty, Wrap(n));
      WrapAdd(n, 0 - qty);
    } else {
      WrapAdd(n, qty);
    }
  }

  /** Placing a position changes that position and no other. */
  lemma PositionUpdate(v: View, account: string, symbol: string, p: Position, a: string, s: string)
    ensures PositionAt(WithPosition(v, account, symbol, p), a, s) ==
      if a == account && s == symbol then p else PositionAt(v, a, s)
  {}

  /**
   Whatever events arrive in whatever order, each position holds exactly the executions attributable
   to it: buys minus sells, notionals and volume, each modulo 2^64.
   */
  lemma {:induction false} ProjectionExact(es: seq<Event>, account: string, symbol: string)
    ensures var ts := Trades(es, account, symbol);
      PositionAt(ProjectAll(es), account, symbol) == Position(Wrap(Net(ts)), Wrap(Notionals(ts)), Wrap(Volume(ts)))
  {
    hide Credited, Net, Notionals, Volume, Wrap, WithPosition;
    if es == [] {
      ZeroSums();
    } else {
      var before, e := es[..|es| - 1], es[|es| - 1];
      ProjectionExact(before, account, symbol);
      if e.IsFill() {
        MetaTracked(before, e.orderID);
        var v, m := ProjectAll(before), MetaIn(before, e.orderID);
        if m.Some? {
          var p := Credited(PositionAt(v, m.value.account, m.value.symbol), m.value.side, e.fillQty, e.fillPrice);
          PositionUpdate(v, m.value.account, m.value.symbol, p, account, symbol);
          CreditedSums(Trades(before, account, symbol), Trade(m.value.side, e.fillQty, e.fillPrice));
        }
      }
    }
  }

  lemma ZeroSums()
    ensures Wrap(Net([])) == 0 && Wrap(Notionals([])) == 0 && Wrap(Volume([])) == 0
  {}

  // ---------------------------------------------------------------- average price

  /** Rounding each notional once costs at most half a unit each: the errors add up, they do not compound. */
  lemma {:induction false} NotionalError(ts: seq<Trade>)
    ensures 2 * Abs(1000 * Notionals(ts) - TrueCost(ts)) <= 1000 * |ts|
  {
    hide MulQuantity;
    if ts != [] {
      var t := ts[|ts| - 1];
      NotionalError(ts[..|ts| - 1]);
      if Priced(t) { MulQuantityError(t.px, t.qty); }
    }
  }

  /**
   The average shown, times the volume, is within half of 1000 per execution plus the volume of the
   true cost, as long as the sums and the average fit in 64 bits.
   */
  lemma AverageError(es: seq<Event>, account: string, symbol: string)
    requires var ts := Trades(es, account, symbol);
      && Fits(Notionals(ts)) && Fits(Volume(ts)) && Volume(ts) > 0
      && DivByQuantity(Notionals(ts), Volume(ts)).Some?
    ensures var ts := Trades(es, account, symbol);
      var avg := AveragePrice(PositionAt(ProjectAll(es), account, symbol));
      2 * Abs(avg * Volume(ts) - TrueCost(ts)) <= 1000 * |ts| + Volume(ts)
  {
    hide Trades, ProjectAll, Notionals, Volume, TrueCost, DivByQuantity, PositionAt, Wrap;
    var ts := Trades(es, account, symbol);
    ProjectionExact(es, account, symbol);
    NotionalError(ts);
    DivByQuantityError(Notionals(ts), Volume(ts));
  }

  /**
   A row is of its account and symbol, and its numbers read back as themselves unless one is the smallest, which the
   printer cannot negate; a position without volume, or with an average that does not fit, shows an average of 0.
   */
  lemma RowsReadBack(accountID: string, symbol: string, p: Position)
    ensures var r := RowOf(accountID, symbol, p);
      && r.accountID == accountID && r.symbol == symbol
      && (FixedValue(r.netQty, 1000) == Some(p.netQty) <==> p.netQty != MIN_INT64)
      && (FixedValue(r.avgPrice, 10000) == Some(AveragePrice(p)) <==> AveragePrice(p) != MIN_INT64)
    ensures p.totalAbs <= 0 || DivByQuantity(p.totalCost, p.totalAbs) == None ==>
      FixedValue(RowOf(accountID, symbol, p).avgPrice, 10000) == Some(0)
    ensures p.totalAbs > 0 && DivByQuantity(p.totalCost, p.totalAbs).Some? ==>
      AveragePrice(p) == DivByQuantity(p.totalCost, p.totalAbs).value
  {
    hide FixedText, FixedValue, DivByQuantity;
    PrintThenParse(p.netQty, QUANTITY_SCALE);
    PrintThenParse(AveragePrice(p), MONEY_SCALE);
  }
}
