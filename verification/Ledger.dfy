/** Conservation of filled quantity on the write side: what is stored, and where its events are. */
module Ledger {
  import opened Wrappers
  import opened FixedPoint
  import opened Orders
  import opened OrderHistory
  import opened Store
  import opened Desk
  import opened ReadModel
  import Text
  import Vwap

  function Terms(s: Snapshot): Meta {
    Meta(s.accountID, s.symbol, s.side)
  }

  type Registry = map<string, Meta>

  /** Whose order each stored id is. */
  function Metas(store: Book): Registry {
    map id | id in store :: Terms(store[id])
  }

  /** What is added up over fills: signed quantity, quantity whatever the side, or price times quantity. */
  datatype Measure = NetQuantity | Quantity | Cost

  datatype Lens = Lens(account: string, symbol: string, measure: Measure)

  function Measured(m: Measure, side: Side, qty: int, px: int): int {
    match m
    case NetQuantity => Signed(side, qty)
    case Quantity => qty
    case Cost => px * qty
  }

  /** What an event adds for an account and symbol. */
  function Weight(metas: Registry, lens: Lens, e: Event): int {
    if e.IsFill() && e.orderID in metas
       && metas[e.orderID].account == lens.account && metas[e.orderID].symbol == lens.symbol
    then Measured(lens.measure, metas[e.orderID].side, e.fillQty, e.fillPrice) else 0
  }

  function Total(metas: Registry, lens: Lens, es: seq<Event>): int {
    if es == [] then 0
    else Total(metas, lens, es[..|es| - 1]) + Weight(metas, lens, es[|es| - 1])
  }

  /** What executions on one side amount to. */
  function Executed(m: Measure, side: Side, xs: seq<Vwap.Execution>): int {
    if xs == [] then 0
    else Executed(m, side, xs[..|xs| - 1]) + Measured(m, side, xs[|xs| - 1].qty, xs[|xs| - 1].px)
  }

  /** What the committed fills of one order amount to, as they count towards an account and symbol. */
  function Stake(life: Life, lens: Lens): int {
    var o := life.opening.order;
    if o.accountID == lens.account && o.symbol == lens.symbol
    then Executed(lens.measure, o.side, Vwap.Executions(End(life).log)) else 0
  }

  function Stakes(lives: map<string, Life>, lens: Lens): map<string, int> {
    map id | id in lives :: Stake(lives[id], lens)
  }

  ghost function Sum(m: map<string, int>): int
    decreases |m|
  {
    if m == map[] then 0
    else
      var id :| id in m;
      m[id] + Sum(m - {id})
  }

  /** What all committed fills of an account and symbol amount to. */
  ghost function Committed(lives: map<string, Life>, lens: Lens): int {
    Sum(Stakes(lives, lens))
  }

  /** Events a client has committed but not yet handed to the publisher. */
  function Outgoing(k: Client): seq<Event> {
    if k.Keying? || k.Outbox? then k.events else []
  }

  function Waiting(metas: Registry, lens: Lens, clients: seq<Client>): int {
    if clients == [] then 0
    else
      Waiting(metas, lens, clients[..|clients| - 1])
      + Total(metas, lens, Outgoing(clients[|clients| - 1]))
  }

  // ---------------------------------------------------------------- sums

  lemma {:induction false} SumRemove(m: map<string, int>, id: string)
    requires id in m
    ensures Sum(m) == m[id] + Sum(m - {id})
    decreases |m|
  {
    var x :| x in m && Sum(m) == m[x] + Sum(m - {x});
    if x != id {
      SumRemove(m - {x}, id);
      SumRemove(m - {id}, x);
      assert m - {x} - {id} == m - {id} - {x};
    }
  }

  lemma SumPut(m: map<string, int>, id: string, v: int)
    ensures Sum(m[id := v]) == Sum(m) + v - (if id in m then m[id] else 0)
  {
    hide Sum;
    var m' := m[id := v];
    SumRemove(m', id);
    assert m' - {id} == m - {id};
    if id in m {
      SumRemove(m, id);
    } else {
      assert m - {id} == m;
    }
  }

  /** Committing to one order moves the total by the change in that order alone. */
  lemma CommittedPut(lives: map<string, Life>, lens: Lens, id: string, life: Life)
    ensures Committed(lives[id := life], lens)
         == Committed(lives, lens) + Stake(life, lens) - (if id in lives then Stake(lives[id], lens) else 0)
  {
    hide Sum, Stake;
    assert Stakes(lives[id := life], lens) == Stakes(lives, lens)[id := Stake(life, lens)];
    SumPut(Stakes(lives, lens), id, Stake(life, lens));
  }

  lemma {:induction false} TotalConcat(metas: Registry, lens: Lens, xs: seq<Event>, ys: seq<Event>)
    ensures Total(metas, lens, xs + ys) == Total(metas, lens, xs) + Total(metas, lens, ys)
  {
    hide Weight;
    if ys == [] {
      assert xs + ys == xs;
    } else {
      TotalConcat(metas, lens, xs, ys[..|ys| - 1]);
      assert (xs + ys)[..|xs + ys| - 1] == xs + ys[..|ys| - 1];
    }
  }

  /** The registry knows every order these events are about. */
  ghost predicate Known(metas: Registry, es: seq<Event>) {
    forall i :: 0 <= i < |es| ==> es[i].orderID in metas
  }

  ghost predicate Grows(metas: Registry, metas': Registry) {
    forall id :: id in metas ==> id in metas' && metas'[id] == metas[id]
  }

  lemma {:induction false} TotalStable(metas: Registry, metas': Registry, lens: Lens, es: seq<Event>)
    requires Known(metas, es) && Grows(metas, metas')
    ensures Total(metas', lens, es) == Total(metas, lens, es)
  {
    if es != [] { TotalStable(metas, metas', lens, es[..|es| - 1]); }
  }

  lemma {:induction false} WaitingStable(metas: Registry, metas': Registry, lens: Lens, clients: seq<Client>)
    requires Grows(metas, metas') && forall c :: 0 <= c < |clients| ==> Known(metas, Outgoing(clients[c]))
    ensures Waiting(metas', lens, clients) == Waiting(metas, lens, clients)
  {
    hide Total, Outgoing, Known, Grows;
    if clients != [] {
      WaitingStable(metas, metas', lens, clients[..|clients| - 1]);
      TotalStable(metas, metas', lens, Outgoing(clients[|clients| - 1]));
    }
  }

  lemma {:induction false} WaitingUpdate(metas: Registry, lens: Lens, clients: seq<Client>, c: nat, k: Client)
    requires c < |clients|
    ensures Waiting(metas, lens, clients[c := k]) ==
      Waiting(metas, lens, clients)
      - Total(metas, lens, Outgoing(clients[c])) + Total(metas, lens, Outgoing(k))
  {
    hide Total, Outgoing;
    var last := |clients| - 1;
    if c < last {
      assert clients[c := k][..last] == clients[..last][c := k];
      WaitingUpdate(metas, lens, clients[..last], c, k);
    } else {
      assert clients[c := k][..last] == clients[..last];
    }
  }

  // ---------------------------------------------------------------- invariant

  /** An event tells the truth about a registered order, and a fill is positive with a representable notional. */
  ghost predicate EventOk(metas: Registry, e: Event) {
    && e.orderID in metas
    && (e.OrderPlaced? ==> Meta(e.accountID, e.symbol, e.side) == metas[e.orderID])
    && (e.IsFill() ==> e.fillQty > 0 && MulQuantity(e.fillPrice, e.fillQty).Some?)
  }

  ghost predicate EventsOk(metas: Registry, es: seq<Event>) {
    forall i :: 0 <= i < |es| ==> EventOk(metas, es[i])
  }

  ghost predicate Truthful(d: Desk) {
    && EventsOk(Metas(d.store), d.handed)
    && forall c :: 0 <= c < |d.clients| ==> EventsOk(Metas(d.store), Outgoing(d.clients[c]))
  }

  ghost predicate Balanced(d: Desk, lens: Lens) {
    Committed(d.lives, lens) ==
      Total(Metas(d.store), lens, d.handed) + Waiting(Metas(d.store), lens, d.clients)
  }

  lemma EventsOkGrow(metas: Registry, metas': Registry, es: seq<Event>)
    requires EventsOk(metas, es) && Grows(metas, metas')
    ensures EventsOk(metas', es) && Known(metas, es)
  {
    hide MulQuantity;
    forall i | 0 <= i < |es| ensures EventOk(metas', es[i]) && es[i].orderID in metas { assert EventOk(metas, es[i]); }
  }

  /** Steps that change neither the store nor what anyone has committed or handed over. */
  predicate Still(a: Action) {
    !a.Save? && !a.Update? && !a.Hand?
  }

  lemma StillStep(d: Desk, a: Action)
    requires Enabled(d, a) && Still(a)
    ensures var d' := Effect(d, a);
      && d'.store == d.store && d'.lives == d.lives && d'.handed == d.handed
      && (|| d'.clients == d.clients
          || exists k :: d'.clients == d.clients[a.c := k] && Outgoing(k) == Outgoing(d.clients[a.c]))
  {
    hide Effect, Enabled, Outgoing;
    var d' := Effect(d, a);
    StillStore(d, a);
    StillOutgoing(d, a);
    OthersStand(d, a);
    var k := d'.clients[a.c];
    assert d'.clients == d.clients[a.c := k];
  }

  lemma StillStore(d: Desk, a: Action)
    requires Enabled(d, a) && Still(a)
    ensures Effect(d, a).store == d.store && Effect(d, a).lives == d.lives && Effect(d, a).handed == d.handed
  {
    hide Apply, IsOpening, Decided;
  }

  lemma StillOutgoing(d: Desk, a: Action)
    requires Enabled(d, a) && Still(a)
    ensures a.c < |Effect(d, a).clients| && Outgoing(Effect(d, a).clients[a.c]) == Outgoing(d.clients[a.c])
  {
    hide Apply, IsOpening, Decided;
  }

  lemma StillKeeps(d: Desk, a: Action, lens: Lens)
    requires Enabled(d, a) && Still(a) && Truthful(d) && Balanced(d, lens)
    ensures Truthful(Effect(d, a)) && Balanced(Effect(d, a), lens)
  {
    StillStep(d, a);
    var d' := Effect(d, a);
    hide Effect, Enabled, EventsOk, Outgoing, Total, Waiting, Committed;
    if d'.clients != d.clients {
      var k :| d'.clients == d.clients[a.c := k] && Outgoing(k) == Outgoing(d.clients[a.c]);
      WaitingUpdate(Metas(d.store), lens, d.clients, a.c, k);
    }
  }

  lemma HandKeeps(d: Desk, a: Action, lens: Lens)
    requires Enabled(d, a) && a.Hand? && Truthful(d) && Balanced(d, lens)
    ensures Truthful(Effect(d, a)) && Balanced(Effect(d, a), lens)
  {
    hide Total, Waiting, Committed, EventOk;
    var d', k := Effect(d, a), d.clients[a.c];
    var metas := Metas(d.store);
    assert EventsOk(metas, Outgoing(k));
    TotalConcat(metas, lens, d.handed, k.events);
    WaitingUpdate(metas, lens, d.clients, a.c, d'.clients[a.c]);
    NothingTotals(metas, lens);
  }

  lemma NothingTotals(metas: Registry, lens: Lens)
    ensures Total(metas, lens, []) == 0
  {}

  /** The store side of Save: a new id, nothing filled, and two events that move nothing. */
  lemma SaveFacts(d: Desk, a: Action)
    requires Inv(d) && Enabled(d, a) && a.Save?
    ensures var k := d.clients[a.c];
      var t := Decided(k.opening, k.step);
      && |t.log| == 2 && t.log[0] == k.opening.event && t.log[0].OrderPlaced?
      && !t.log[0].IsFill() && !t.log[1].IsFill() && !t.log[1].OrderPlaced?
      && t.log[0].orderID == t.order.id == t.log[1].orderID && t.order.filledQty == 0
      && Meta(t.log[0].accountID, t.log[0].symbol, t.log[0].side) == Terms(t.order)
  {
    hide LifeOk, Text.TrimSpace, Complaint;
    var k := d.clients[a.c];
    assert ClientOk(d.lives, k);
    NewLife(k.opening, k.risk, k.key, k.step);
  }

  /** What a step that stores one order does to the books. */
  ghost predicate Stores(d: Desk, d': Desk, c: nat, s: Snapshot, life: Life, es: seq<Event>) {
    && d'.lives == d.lives[s.id := life] && d.store.Keys == d.lives.Keys
    && c < |d.clients| && |d'.clients| == |d.clients|
    && d'.store == d.store[s.id := s] && d'.handed == d.handed
    && Outgoing(d.clients[c]) == [] && Outgoing(d'.clients[c]) == es
    && d'.clients == d.clients[c := d'.clients[c]]
    && (s.id in d.store ==> Terms(s) == Terms(d.store[s.id]))
  }

  /** Storing an order keeps the books when the events going out with it weigh what the order gained. */
  lemma StoreBooks(d: Desk, d': Desk, c: nat, s: Snapshot, life: Life, es: seq<Event>, lens: Lens)
    requires Stores(d, d', c, s, life, es) && Truthful(d) && Balanced(d, lens)
    requires EventsOk(Metas(d'.store), es)
    requires Total(Metas(d'.store), lens, es) ==
      Stake(life, lens) - (if s.id in d.lives then Stake(d.lives[s.id], lens) else 0)
    ensures Truthful(d') && Balanced(d', lens)
  {
    hide Committed, Total, Waiting, EventsOk, Outgoing, Stake;
    var metas, metas' := Metas(d.store), Metas(d'.store);
    assert Grows(metas, metas');
    CommittedPut(d.lives, lens, s.id, life);
    EventsOkGrow(metas, metas', d.handed);
    TotalStable(metas, metas', lens, d.handed);
    AllGrow(d, metas', d'.clients, c, es);
    WaitingStable(metas, metas', lens, d.clients);
    WaitingUpdate(metas', lens, d.clients, c, d'.clients[c]);
    NothingTotals(metas', lens);
  }

  /** A save either stores the decided order with its two events, or sends its client home. */
  lemma SaveStores(d: Desk, a: Action)
    requires Enabled(d, a) && a.Save? && d.store.Keys == d.lives.Keys
    ensures var d', k := Effect(d, a), d.clients[a.c];
      var t := Decided(k.opening, k.step);
      && Outgoing(k) == []
      && (if SaveError(d.store, t.order) == None 
          then Stores(d, d', a.c, t.order, Life(k.opening, [k.step], k.risk, k.key), t.log) && t.order.id !in d.store
          else d' == Became(d, a.c, Idle))
  {
    hide Decided;
  }

  lemma StoredTerms(d: Desk, d': Desk, c: nat, s: Snapshot, life: Life, es: seq<Event>)
    requires Stores(d, d', c, s, life, es)
    ensures s.id in Metas(d'.store) && Metas(d'.store)[s.id] == Terms(s)
  {}

  /** An order just decided has executed nothing. */
  lemma ZeroStake(life: Life, lens: Lens)
    requires |life.steps| == 1
    requires var log := Decided(life.opening, life.steps[0]).log; |log| == 2 && !log[0].IsFill() && !log[1].IsFill()
    ensures Stake(life, lens) == 0
  {
    hide Do;
    var t, step := Begin(life.opening), life.steps[0];
    assert life.steps == [step] && [step][..0] == [];
    assert Execute(t, []) == t;
    assert End(life) == Do(t, step);
    var log := End(life).log;
    assert log[..1] == [log[0]] && log[..1][..0] == [];
    assert Vwap.Executions(log[..1]) == [];
  }

  lemma SaveKeeps(d: Desk, a: Action, lens: Lens)
    requires Inv(d) && Enabled(d, a) && a.Save? && Truthful(d) && Balanced(d, lens)
    ensures Truthful(Effect(d, a)) && Balanced(Effect(d, a), lens)
  {
    var d', k := Effect(d, a), d.clients[a.c];
    var t := Decided(k.opening, k.step);
    var life := Life(k.opening, [k.step], k.risk, k.key);
    hide LivesOk, ClientsOk, Decided, Total, EventsOk, Truthful, Balanced, Effect, Stores, Stake, Metas, Terms;
    SaveFacts(d, a);
    SameIds(d);
    SaveStores(d, a);
    if SaveError(d.store, t.order) == None {
      StoredTerms(d, d', a.c, t.order, life, t.log);
      ZeroStake(life, lens);
      NoFills(Metas(d'.store), lens, t.log);
      OpeningEventsOk(Metas(d'.store), t);
      StoreBooks(d, d', a.c, t.order, life, t.log, lens);
    } else {
      IdleBooks(d, d', a.c, lens);
    }
  }

  lemma SameIds(d: Desk)
    requires Inv(d)
    ensures d.store.Keys == d.lives.Keys
  {
    hide LifeOk;
  }

  /** A failed save or update only sends its client home. */
  lemma IdleBooks(d: Desk, d': Desk, c: nat, lens: Lens)
    requires Truthful(d) && Balanced(d, lens) && c < |d.clients| && Outgoing(d.clients[c]) == []
    requires d' == Became(d, c, Idle)
    ensures Truthful(d') && Balanced(d', lens)
  {
    hide Committed, Total, Waiting, EventOk;
    WaitingUpdate(Metas(d.store), lens, d.clients, c, Idle);
  }

  lemma NoFills(metas: Registry, lens: Lens, es: seq<Event>)
    requires |es| == 2 && !es[0].IsFill() && !es[1].IsFill()
    ensures Total(metas, lens, es) == 0
  {
    assert es[..1][..0] == [];
    assert Total(metas, lens, es[..1]) == 0;
  }

  lemma OpeningEventsOk(metas: Registry, t: Trace)
    requires |t.log| == 2 && t.log[0].OrderPlaced? && !t.log[1].IsFill() && !t.log[1].OrderPlaced?
    requires t.log[0].orderID == t.log[1].orderID == t.order.id
    requires t.order.id in metas && metas[t.order.id] == Terms(t.order)
    requires Meta(t.log[0].accountID, t.log[0].symbol, t.log[0].side) == Terms(t.order)
    ensures EventsOk(metas, t.log)
  {}

  /** After one client's change, every client's outgoing events are truthful under the grown registry. */
  lemma AllGrow(d: Desk, metas': Registry, clients': seq<Client>, c: nat, es: seq<Event>)
    requires Truthful(d) && Grows(Metas(d.store), metas') && c < |d.clients| && |clients'| == |d.clients|
    requires EventsOk(metas', es) && Outgoing(clients'[c]) == es
    requires forall i :: 0 <= i < |d.clients| && i != c ==> clients'[i] == d.clients[i]
    ensures forall i :: 0 <= i < |clients'| ==> EventsOk(metas', Outgoing(clients'[i]))
    ensures forall i :: 0 <= i < |d.clients| ==> Known(Metas(d.store), Outgoing(d.clients[i]))
  {
    hide EventsOk, Known, Grows, Outgoing;
    forall i | 0 <= i < |d.clients|
      ensures EventsOk(metas', Outgoing(clients'[i])) && Known(Metas(d.store), Outgoing(d.clients[i]))
    {
      EventsOkGrow(Metas(d.store), metas', Outgoing(d.clients[i]));
    }
  }

  lemma CommitEventOk(d: Desk, k: Client)
    requires Inv(d) && k.Proposing? && ClientOk(d.lives, k)
    ensures !k.event.OrderPlaced?
    ensures k.event.IsFill() ==> k.event.fillQty > 0 && MulQuantity(k.event.fillPrice, k.event.fillQty).Some?
  {
    hide Apply, Lifecycle, MulQuantity, LivesOk, ClientsOk, RoutedOk, BaseOk;
    BaseLifecycle(d, k.base);
    EventTellsAll(k.base, k.step.command, k.step.now);
  }

  /** A fill weighs what it adds to its order's executions; any other event weighs nothing. */
  lemma StakeMoves(metas: Registry, life: Life, life': Life, e: Event, lens: Lens)
    requires life'.opening == life.opening && End(life').log == End(life).log + [e]
    requires e.orderID in metas && metas[e.orderID] == Terms(life.opening.order)
    ensures Weight(metas, lens, e) == Stake(life', lens) - Stake(life, lens)
  {
    hide End, Measured;
    var o, xs := life.opening.order, Vwap.Executions(End(life).log);
    Vwap.ExecutionsAppend(End(life).log, e);
    if e.IsFill() {
      var x := Vwap.Execution(e.fillQty, e.fillPrice);
      assert (xs + [x])[..|xs|] == xs;
    } else {
      assert xs + [] == xs;
    }
  }

  /** A commit writes its event at the end of the order's log. */
  lemma CommitLog(id: string, life: Life, k: Client)
    requires k.Proposing? && LifeOk(id, life, k.base)
    requires Apply(k.base, k.step.command, k.step.now) == Applied(k.next, k.event)
    ensures End(life.(steps := life.steps + [k.step])).log == End(life).log + [k.event]
    ensures Terms(life.opening.order) == Terms(k.base)
  {
    hide Apply, At, IsOpening;
    LifeExtended(life, k.step, |life.steps| + 1);
    StoredId(id, life, k.base);
  }

  /** The order is still at the version its client read. */
  predicate Current(d: Desk, a: Action)
    requires Enabled(d, a) && a.Update?
  {
    var base := d.clients[a.c].base;
    base.id in d.store && d.store[base.id].version == base.version
  }

  /** What a commit does to the books: the changed order is stored, and its event ends its log and goes out. */
  ghost predicate Commits(d: Desk, d': Desk, c: nat, k: Client) {
    && k.Proposing? && k.base.id in d.lives && k.base.id in d.store
    && var life := d.lives[k.base.id];
       var life' := life.(steps := life.steps + [k.step]);
       && Stores(d, d', c, k.next, life', [k.event]) && k.next.id == k.base.id && d.store[k.base.id] == k.base
       && k.event.orderID == k.next.id && Terms(k.next) == Terms(k.base)
       && End(life').log == End(life).log + [k.event] && Terms(life.opening.order) == Terms(k.base)
       && EventOk(Metas(d'.store), k.event)
  }

  lemma CommitStores(d: Desk, a: Action)
    requires Enabled(d, a) && a.Update? && Current(d, a) && Inv(d)
    ensures Commits(d, Effect(d, a), a.c, d.clients[a.c])
  {
    hide ClientOk, Extends, Apply, MulQuantity, LifeOk, End;
    var k := d.clients[a.c];
    ClientFact(d, a.c);
    SameIds(d);
    ProposalFact(d, k);
    assert LifeOk(k.base.id, d.lives[k.base.id], d.store[k.base.id]);
    CommitReplacesRead(d, a.c);
    CommitEventOk(d, k);
    CommitLog(k.base.id, d.lives[k.base.id], k);
  }

  lemma ProposalFact(d: Desk, k: Client)
    requires k.Proposing? && ClientOk(d.lives, k)
    ensures Apply(k.base, k.step.command, k.step.now) == Applied(k.next, k.event)
  {
    hide Apply, BaseOk;
  }

  lemma UpdateKeeps(d: Desk, a: Action, lens: Lens)
    requires Inv(d) && Enabled(d, a) && a.Update? && Truthful(d) && Balanced(d, lens)
    ensures Truthful(Effect(d, a)) && Balanced(Effect(d, a), lens)
  {
    hide Inv, Effect, Truthful, Balanced, Lengthened;
    var k := d.clients[a.c];
    UpdateEffect(d, a);
    if UpdateError(d.store, k.next, k.base.version).Some? {
      IdleBooks(d, Effect(d, a), a.c, lens);
    } else {
      SameOrder(d, a);
      CommitKeeps(d, a, lens);
    }
  }

  lemma SameOrder(d: Desk, a: Action)
    requires Inv(d) && Enabled(d, a) && a.Update?
    ensures d.clients[a.c].next.id == d.clients[a.c].base.id
  {
    hide LivesOk, RoutedOk, ClientOk, Effect;
    ClientFact(d, a.c);
    ProposalKeepsId(d, d.clients[a.c]);
  }

  lemma CommitKeeps(d: Desk, a: Action, lens: Lens)
    requires Enabled(d, a) && a.Update? && Current(d, a) && Inv(d) && Truthful(d) && Balanced(d, lens)
    ensures Truthful(Effect(d, a)) && Balanced(Effect(d, a), lens)
  {
    hide Inv, Effect, EventsOk, Truthful, Balanced, EventOk, Stake, Weight, Total, End;
    var d', k := Effect(d, a), d.clients[a.c];
    CommitStores(d, a);
    var metas := Metas(d'.store);
    var life := d.lives[k.base.id];
    var life' := life.(steps := life.steps + [k.step]);
    SingleTotal(metas, lens, k.event);
    SingleOk(metas, k.event);
    StoredTerms(d, d', a.c, k.next, life', [k.event]);
    StakeMoves(metas, life, life', k.event, lens);
    StoreBooks(d, d', a.c, k.next, life', [k.event], lens);
  }

  lemma SingleTotal(metas: Registry, lens: Lens, e: Event)
    ensures Total(metas, lens, [e]) == Weight(metas, lens, e)
  {
    assert [e][..0] == [];
    NothingTotals(metas, lens);
  }

  lemma SingleOk(metas: Registry, e: Event)
    requires EventOk(metas, e)
    ensures EventsOk(metas, [e])
  {}

  lemma StepKeepsBooks(d: Desk, a: Action, lens: Lens)
    requires Inv(d) && Enabled(d, a) && Truthful(d) && Balanced(d, lens)
    ensures Truthful(Effect(d, a)) && Balanced(Effect(d, a), lens)
  {
    hide Inv, Truthful, Balanced, Effect, Enabled;
    if a.Save? { SaveKeeps(d, a, lens); }
    else if a.Update? { UpdateKeeps(d, a, lens); }
    else if a.Hand? { HandKeeps(d, a, lens); }
    else { StillKeeps(d, a, lens); }
  }

  lemma StartBooks(d: Desk, lens: Lens)
    requires Start(d)
    ensures Truthful(d) && Balanced(d, lens)
  {
    hide Total;
    IdleWaiting(Metas(d.store), lens, d.clients);
    NothingTotals(Metas(d.store), lens);
  }

  lemma {:induction false} IdleWaiting(metas: Registry, lens: Lens, clients: seq<Client>)
    requires forall c :: 0 <= c < |clients| ==> clients[c].Idle?
    ensures Waiting(metas, lens, clients) == 0
  {
    if clients != [] {
      IdleWaiting(metas, lens, clients[..|clients| - 1]);
      NothingTotals(metas, lens);
    }
  }

  // ---------------------------------------------------------------- reading the totals off the store

  predicate Belongs(o: Snapshot, account: string, symbol: string) {
    o.accountID == account && o.symbol == symbol
  }

  function NetOf(o: Snapshot, account: string, symbol: string): int {
    if Belongs(o, account, symbol) then Signed(o.side, o.filledQty) else 0
  }

  /** Filled quantity of all stored orders of an account and symbol, buys minus sells. */
  ghost function StoredNet(store: Book, account: string, symbol: string): int {
    Sum(map id | id in store :: NetOf(store[id], account, symbol))
  }

  /** The same, buys plus sells. */
  ghost function StoredQuantity(store: Book, account: string, symbol: string): int {
    Sum(map id | id in store :: if Belongs(store[id], account, symbol) then store[id].filledQty else 0)
  }

  /** Exact cost of every fill ever committed to an order of the account and symbol. */
  ghost function StoredCost(lives: map<string, Life>, account: string, symbol: string): int {
    Sum(map id | id in lives ::
      if Belongs(lives[id].opening.order, account, symbol) then Vwap.Cost(Vwap.Executions(End(lives[id]).log)) else 0)
  }

  lemma {:induction false} ExecutedIs(side: Side, xs: seq<Vwap.Execution>)
    ensures Executed(NetQuantity, side, xs) == Signed(side, Vwap.Shares(xs))
    ensures Executed(Quantity, side, xs) == Vwap.Shares(xs)
    ensures Executed(Cost, side, xs) == Vwap.Cost(xs)
  {
    if xs != [] { ExecutedIs(side, xs[..|xs| - 1]); }
  }

  /** The filled quantity of a stored order is that of its executions. */
  lemma LifeShares(id: string, life: Life, s: Snapshot)
    requires LifeOk(id, life, s)
    ensures Vwap.Shares(Vwap.Executions(End(life).log)) == s.filledQty && SameTerms(life.opening.order, s)
  {
    hide At, IsOpening, Vwap.Executions, Vwap.Shares, Vwap.Drift, Vwap.Allowance, Coherent;
    OpeningCoherent(life.opening);
    OpeningEmpty(life.opening);
    Vwap.BeginDrift(life.opening);
    Vwap.VwapDrift(Begin(life.opening), life.steps);
    StoredId(id, life, s);
  }

  /** What one stored order counts for, in each measure. */
  lemma StakeIs(id: string, life: Life, s: Snapshot, account: string, symbol: string)
    requires LifeOk(id, life, s)
    ensures var ours := Belongs(s, account, symbol);
      && Belongs(life.opening.order, account, symbol) == ours
      && Stake(life, Lens(account, symbol, NetQuantity)) == NetOf(s, account, symbol)
      && Stake(life, Lens(account, symbol, Quantity)) == (if ours then s.filledQty else 0)
      && Stake(life, Lens(account, symbol, Cost)) == (if ours then Vwap.Cost(Vwap.Executions(End(life).log)) else 0)
  {
    LifeShares(id, life, s);
    hide LifeOk, End, Executed, Vwap.Executions, Vwap.Shares, Vwap.Cost;
    ExecutedIs(s.side, Vwap.Executions(End(life).log));
  }

  /** The committed totals are what the stored orders say. */
  lemma CommittedIsStored(d: Desk, account: string, symbol: string)
    requires Inv(d)
    ensures Committed(d.lives, Lens(account, symbol, NetQuantity)) == StoredNet(d.store, account, symbol)
    ensures Committed(d.lives, Lens(account, symbol, Quantity)) == StoredQuantity(d.store, account, symbol)
    ensures Committed(d.lives, Lens(account, symbol, Cost)) == StoredCost(d.lives, account, symbol)
  {
    hide LivesOk, ClientsOk, Committed, StoredNet, StoredQuantity, StoredCost;
    NetAgrees(d, account, symbol);
    QuantityAgrees(d, account, symbol);
    CostAgrees(d, account, symbol);
  }

  lemma NetAgrees(d: Desk, account: string, symbol: string)
    requires LivesOk(d)
    ensures Committed(d.lives, Lens(account, symbol, NetQuantity)) == StoredNet(d.store, account, symbol)
  {
    hide LifeOk, Sum, End, Stake, Vwap.Executions, Vwap.Cost, Belongs;
    var lives, store := d.lives, d.store;
    var net := map id | id in store :: NetOf(store[id], account, symbol);
    forall id | id in lives ensures Stake(lives[id], Lens(account, symbol, NetQuantity)) == net[id] {
      StakeIs(id, lives[id], store[id], account, symbol);
    }
    assert Stakes(lives, Lens(account, symbol, NetQuantity)) == net;
  }

  lemma QuantityAgrees(d: Desk, account: string, symbol: string)
    requires LivesOk(d)
    ensures Committed(d.lives, Lens(account, symbol, Quantity)) == StoredQuantity(d.store, account, symbol)
  {
    hide LifeOk, Sum, End, Stake, Vwap.Executions, Vwap.Cost, Belongs;
    var lives, store := d.lives, d.store;
    var all := map id | id in store :: if Belongs(store[id], account, symbol) then store[id].filledQty else 0;
    forall id | id in lives ensures Stake(lives[id], Lens(account, symbol, Quantity)) == all[id] {
      StakeIs(id, lives[id], store[id], account, symbol);
    }
    assert Stakes(lives, Lens(account, symbol, Quantity)) == all;
  }

  lemma CostAgrees(d: Desk, account: string, symbol: string)
    requires LivesOk(d)
    ensures Committed(d.lives, Lens(account, symbol, Cost)) == StoredCost(d.lives, account, symbol)
  {
    hide LifeOk, Sum, End, Stake, Vwap.Executions, Vwap.Cost, Belongs;
    var lives, store := d.lives, d.store;
    var cost := map id | id in lives ::
      if Belongs(lives[id].opening.order, account, symbol) then Vwap.Cost(Vwap.Executions(End(lives[id]).log)) else 0;
    forall id | id in lives ensures Stake(lives[id], Lens(account, symbol, Cost)) == cost[id] {
      StakeIs(id, lives[id], store[id], account, symbol);
    }
    assert Stakes(lives, Lens(account, symbol, Cost)) == cost;
  }
}
