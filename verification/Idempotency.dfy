/**
 Idempotent creation. The key is looked up before the order is built and bound only after it is
 saved, so the promise depends on placements under one key not overlapping; every other
 interleaving is allowed.
 */
module Idempotency {
  import opened Wrappers
  import opened Orders
  import opened OrderHistory
  import opened Store
  import opened Desk

  /** The key a client is placing an order under, between its lookup and its binding. */
  function PlacingKey(k: Client): Option<string> {
    match k
    case Cleared(key) => Some(key)
    case Built(key, _, _, _) => Some(key)
    case Keying(key, _, _) => Some(key)
    case _ => None
  }

  ghost predicate NobodyPlacing(d: Desk, key: string) {
    forall c :: 0 <= c < |d.clients| ==> PlacingKey(d.clients[c]) != Some(key)
  }

  /** A placement under a key starts only when no other one under that key is under way. */
  ghost predicate Orderly(d: Desk, a: Action) {
    a.CheckKey? && a.key != "" ==> NobodyPlacing(d, a.key)
  }

  ghost predicate OrderlySteps(d: Desk, actions: seq<Action>, d': Desk)
    decreases |actions|
  {
    if actions == [] then d == d'
    else
      && Enabled(d, actions[0]) && Orderly(d, actions[0])
      && OrderlySteps(Effect(d, actions[0]), actions[1..], d')
  }

  /** Client c has saved this order under this key and is about to bind it. */
  ghost predicate AboutToBind(d: Desk, c: nat, key: string, id: string) {
    && c < |d.clients| && d.clients[c].Keying?
    && d.clients[c].key == key && d.clients[c].order.id == id
  }

  predicate PlacesUnderKey(k: Client) {
    PlacingKey(k).Some? && PlacingKey(k).value != ""
  }

  ghost predicate OnePlacer(d: Desk) {
    && (forall c, c' :: 0 <= c < c' < |d.clients| && PlacesUnderKey(d.clients[c])
          ==> PlacingKey(d.clients[c]) != PlacingKey(d.clients[c']))
    && (forall c :: 0 <= c < |d.clients| && PlacesUnderKey(d.clients[c])
          ==> PlacingKey(d.clients[c]).value !in d.idem)
  }

  /** An order placed under a key is the one bound to it, or is about to be. */
  ghost predicate Accounted(d: Desk, key: string, id: string) {
    (key in d.idem && d.idem[key] == id) || exists c: nat :: AboutToBind(d, c, key, id)
  }

  ghost predicate Links(d: Desk) {
    && (forall key :: key in d.idem ==> key != "" && d.idem[key] in d.lives && d.lives[d.idem[key]].key == key)
    && (forall p :: p in d.answers ==> p.0 in d.idem && d.idem[p.0] == p.1)
  }

  ghost predicate KeysAccounted(d: Desk) {
    && (forall id :: id in d.lives && d.lives[id].key != "" ==> Accounted(d, d.lives[id].key, id))
    && Stamped(d) && Links(d)
  }

  lemma OnePlacerKept(d: Desk, a: Action)
    requires OnePlacer(d) && Enabled(d, a) && Orderly(d, a)
    ensures OnePlacer(Effect(d, a))
  {
    hide Effect, Enabled, PlacingKey;
    var d' := Effect(d, a);
    PlacerAfter(d, a);
    BindOnly(d, a);
    OthersStand(d, a);
    if a.Bind? {
      assert PlacingKey(d.clients[a.c]) != None;
    }
  }

  /** A step leaves its client placing under the key it had, under none, or (after a lookup) under a new one. */
  lemma PlacerAfter(d: Desk, a: Action)
    requires Enabled(d, a)
    ensures a.c < |Effect(d, a).clients|
    ensures var before, after := PlacingKey(d.clients[a.c]), PlacingKey(Effect(d, a).clients[a.c]);
      || after == None || after == before
      || (a.CheckKey? && after == Some(a.key) && (a.key == "" || a.key !in d.idem))
  {
    hide Apply, IsOpening, Decided;
  }

  /** Only binding changes the bindings, and it binds the key its client was placing under. */
  lemma BindOnly(d: Desk, a: Action)
    requires Enabled(d, a)
    ensures !a.Bind? ==> Effect(d, a).idem == d.idem
    ensures a.Bind? ==>
      && PlacingKey(d.clients[a.c]) == Some(d.clients[a.c].key) && PlacingKey(Effect(d, a).clients[a.c]) == None
      && forall key :: key in Effect(d, a).idem ==> key in d.idem || (key == d.clients[a.c].key && key != "")
  {
    hide Apply, IsOpening, Decided;
  }

  lemma AboutToBindStays(d: Desk, a: Action, c: nat, key: string, id: string)
    requires Enabled(d, a) && AboutToBind(d, c, key, id) && !(a == Bind(c))
    ensures AboutToBind(Effect(d, a), c, key, id)
  {
    hide Apply, IsOpening, Decided;
  }

  lemma AccountedStays(d: Desk, a: Action, key: string, id: string)
    requires OnePlacer(d) && Enabled(d, a) && key != "" && Accounted(d, key, id)
    ensures Accounted(Effect(d, a), key, id)
  {
    hide AboutToBind, OnePlacer, Effect, Enabled;
    if key in d.idem && d.idem[key] == id {
      BindingsStand(d, a);
    } else {
      var c: nat :| AboutToBind(d, c, key, id);
      if a == Bind(c) {
        BoundNow(d, c, key, id);
      } else {
        AboutToBindStays(d, a, c, key, id);
      }
    }
  }

  lemma BoundNow(d: Desk, c: nat, key: string, id: string)
    requires Enabled(d, Bind(c)) && AboutToBind(d, c, key, id) && key != ""
    ensures var idem := Effect(d, Bind(c)).idem; key in idem && idem[key] == id
  {}

  lemma QuietLinks(d: Desk, a: Action)
    requires Links(d) && Enabled(d, a) && Quiet(a) && !a.Bind?
    ensures Links(Effect(d, a)) && Effect(d, a).lives == d.lives
  {
    hide Apply, IsOpening, Decided;
  }

  lemma BindLinks(d: Desk, a: Action)
    requires Links(d) && Stamped(d) && OnePlacer(d) && Enabled(d, a) && a.Bind?
    ensures Links(Effect(d, a)) && Effect(d, a).lives == d.lives
  {
    assert PlacingKey(d.clients[a.c]) == Some(d.clients[a.c].key);
  }

  lemma SaveLinks(d: Desk, a: Action)
    requires Inv(d) && Links(d) && Enabled(d, a) && a.Save?
    ensures var d' := Effect(d, a);
      && Links(d')
      && forall id :: id in d'.lives && id !in d.lives ==> AboutToBind(d', a.c, d'.lives[id].key, id)
  {
    hide LifeOk, ClientOk, Decided, IsOpening;
    var k := d.clients[a.c];
    if SaveError(d.store, Decided(k.opening, k.step).order) == None {
      assert Decided(k.opening, k.step).order.id !in d.lives;
    }
  }

  lemma UpdateLinks(d: Desk, a: Action)
    requires Links(d) && Enabled(d, a) && a.Update?
    ensures Links(Effect(d, a)) && Effect(d, a).lives.Keys == d.lives.Keys
  {
    hide Apply, IsOpening, Lengthened;
    var k := d.clients[a.c];
    LengthenedKeys(d.lives, k.next.id, k.step);
  }

  lemma LengthenedKeys(lives: map<string, Life>, id: string, step: Step)
    ensures var lives' := Lengthened(lives, id, step);
      lives'.Keys == lives.Keys && forall i :: i in lives ==> lives'[i].key == lives[i].key
  {}

  lemma AccountsKept(d: Desk, a: Action)
    requires Inv(d) && OnePlacer(d) && KeysAccounted(d) && Enabled(d, a)
    ensures KeysAccounted(Effect(d, a))
  {
    var d' := Effect(d, a);
    KeysStand(d, a);
    StampedKept(d, a);
    hide Inv, OnePlacer, Links, Accounted, Effect, Enabled, AboutToBind, Stamped;
    if a.Save? { SaveLinks(d, a); }
    else if a.Update? { UpdateLinks(d, a); }
    else if a.Bind? { BindLinks(d, a); }
    else { QuietLinks(d, a); }
    forall id | id in d'.lives && d'.lives[id].key != "" ensures Accounted(d', d'.lives[id].key, id) {
      if id in d.lives {
        AccountedStays(d, a, d.lives[id].key, id);
      } else {
        NewAccount(d', a.c, d'.lives[id].key, id);
      }
    }
  }

  lemma NewAccount(d: Desk, c: nat, key: string, id: string)
    requires AboutToBind(d, c, key, id)
    ensures Accounted(d, key, id)
  {}

  /** No step changes the key an order was placed under. */
  lemma KeysStand(d: Desk, a: Action)
    requires Inv(d) && Enabled(d, a)
    ensures forall id :: id in d.lives ==> id in Effect(d, a).lives && Effect(d, a).lives[id].key == d.lives[id].key
  {
    hide LifeOk, ClientOk, Decided, IsOpening, Apply;
  }

  lemma OrderlyStep(d: Desk, a: Action)
    requires Inv(d) && OnePlacer(d) && KeysAccounted(d) && Enabled(d, a) && Orderly(d, a)
    ensures var d' := Effect(d, a);
      && Inv(d') && OnePlacer(d') && KeysAccounted(d')
      && forall key :: key in d.idem ==> key in d'.idem && d'.idem[key] == d.idem[key]
  {
    hide Inv, OnePlacer, KeysAccounted, Effect, Enabled, Orderly;
    StepKeeps(d, a);
    OnePlacerKept(d, a);
    BindingsStand(d, a);
    AccountsKept(d, a);
  }

  lemma BindingsStand(d: Desk, a: Action)
    requires OnePlacer(d) && Enabled(d, a)
    ensures forall key :: key in d.idem ==> key in Effect(d, a).idem && Effect(d, a).idem[key] == d.idem[key]
  {
    hide Apply, IsOpening, Decided;
    if a.Bind? { assert PlacingKey(d.clients[a.c]) == Some(d.clients[a.c].key); }
  }

  lemma {:induction false} OrderlyRun(d: Desk, actions: seq<Action>, d': Desk)
    requires Inv(d) && OnePlacer(d) && KeysAccounted(d) && OrderlySteps(d, actions, d')
    ensures Inv(d') && OnePlacer(d') && KeysAccounted(d')
    ensures forall key :: key in d.idem ==> key in d'.idem && d'.idem[key] == d.idem[key]
    decreases |actions|
  {
    hide Inv, OnePlacer, KeysAccounted, Effect, Enabled, Orderly;
    if actions != [] {
      OrderlyStep(d, actions[0]);
      OrderlyRun(Effect(d, actions[0]), actions[1..], d');
    }
  }

  lemma StartAccounted(d: Desk)
    requires Start(d)
    ensures Inv(d) && OnePlacer(d) && KeysAccounted(d)
  {}

  /**
   Over every run in which placements under one key do not overlap: all successes under a key
   returned the same id, at most one order was created under it, the binding names that order, and
   the order is stored.
   */
  lemma PlacedOnce(d0: Desk, actions: seq<Action>, d: Desk)
    requires Start(d0) && OrderlySteps(d0, actions, d)
    ensures forall p, q :: p in d.answers && q in d.answers && p.0 == q.0 ==> p.1 == q.1
    ensures forall id, id' ::
      id in d.lives && id' in d.lives && d.lives[id].key != "" && d.lives[id].key == d.lives[id'].key ==> id == id'
    ensures forall key :: key in d.idem ==>
      d.idem[key] in d.store && d.idem[key] in d.lives && d.lives[d.idem[key]].key == key
  {
    hide OrderlySteps, LifeOk, ClientOk;
    StartAccounted(d0);
    OrderlyRun(d0, actions, d);
    forall id, id' | id in d.lives && id' in d.lives && d.lives[id].key != "" && d.lives[id].key == d.lives[id'].key
      ensures id == id'
    {
      SameKeySameOrder(d, id, id');
    }
  }

  lemma SameKeySameOrder(d: Desk, id: string, id': string)
    requires OnePlacer(d) && KeysAccounted(d) && id in d.lives && id' in d.lives
    requires d.lives[id].key != "" && d.lives[id].key == d.lives[id'].key
    ensures id == id'
  {
    var key := d.lives[id].key;
    if key in d.idem {
      BoundOnly(d, key, id);
      BoundOnly(d, key, id');
    } else {
      var c: nat :| AboutToBind(d, c, key, id);
      var c': nat :| AboutToBind(d, c', key, id');
      assert PlacingKey(d.clients[c]) == PlacingKey(d.clients[c']) == Some(key);
      assert c == c';
    }
  }

  /** A bound key has nobody left to bind it, so its orders are the one it names. */
  lemma BoundOnly(d: Desk, key: string, id: string)
    requires OnePlacer(d) && Accounted(d, key, id) && key != "" && key in d.idem
    ensures d.idem[key] == id
  {
    hide OnePlacer;
    if c: nat :| AboutToBind(d, c, key, id) { BinderUnbound(d, c, key, id); }
  }

  lemma BinderUnbound(d: Desk, c: nat, key: string, id: string)
    requires OnePlacer(d) && AboutToBind(d, c, key, id) && key != ""
    ensures key !in d.idem
  {
    assert PlacingKey(d.clients[c]) == Some(key);
  }

  /** Once bound, a key keeps its order for the rest of the run. */
  lemma BindingsNeverChange(d0: Desk, first: seq<Action>, d: Desk, rest: seq<Action>, d': Desk, key: string)
    requires Start(d0) && OrderlySteps(d0, first, d) && OrderlySteps(d, rest, d') && key in d.idem
    ensures key in d'.idem && d'.idem[key] == d.idem[key]
  {
    hide OrderlySteps, Inv, OnePlacer, KeysAccounted, Start;
    StartAccounted(d0);
    OrderlyRun(d0, first, d);
    OrderlyRun(d, rest, d');
  }

  /** Two placements that both look the key up before either binds it create two orders under it. */
  lemma OverlapCreatesTwo(d: Desk, o: Opening, o': Opening, key: string) returns (actions: seq<Action>, d': Desk)
    requires Start(d) && |d.clients| >= 2 && key != ""
    requires IsOpening(o) && IsOpening(o') && o.order.id != o'.order.id
    ensures Steps(d, actions, d')
    ensures o.order.id in d'.lives && o'.order.id in d'.lives
    ensures d'.lives[o.order.id].key == d'.lives[o'.order.id].key == key
    ensures (key, o.order.id) in d'.answers && (key, o'.order.id) in d'.answers
  {
    var m := Effect(d, CheckKey(0, key));
    var n := Effect(m, CheckKey(1, key));
    TwoSteps(d, CheckKey(0, key), m, CheckKey(1, key), n);
    hide Effect, Enabled, IsOpening;
    assert Reachable(d) by { assert Steps(d, [], d); }
    ReachableOn(d, [CheckKey(0, key), CheckKey(1, key)], n);
    var rest;
    rest, d' := OverlapEverywhere(n, 0, 1, o, o', key);
    StepsJoin(d, [CheckKey(0, key), CheckKey(1, key)], n, rest, d');
    actions := [CheckKey(0, key), CheckKey(1, key)] + rest;
  }

  /** Whatever a client has saved and is about to bind was stored under the key it holds. */
  ghost predicate Stamped(d: Desk) {
    forall c :: 0 <= c < |d.clients| && d.clients[c].Keying? ==>
      d.clients[c].order.id in d.lives && d.lives[d.clients[c].order.id].key == d.clients[c].key
  }

  lemma StampedKept(d: Desk, a: Action)
    requires Inv(d) && Stamped(d) && Enabled(d, a)
    ensures Stamped(Effect(d, a))
  {
    hide Inv, Enabled, Effect, Decided;
    KeysStand(d, a);
    OthersStand(d, a);
    if a.Save? { SaveStamps(d, a); } else { NotYetSaved(d, a); }
  }

  lemma SaveStamps(d: Desk, a: Action)
    requires Enabled(d, a) && a.Save?
    ensures var d' := Effect(d, a);
      d'.clients[a.c].Keying? ==>
        d'.clients[a.c].order.id in d'.lives && d'.lives[d'.clients[a.c].order.id].key == d'.clients[a.c].key
  {
    hide Decided, Effect;
    SaveEffect(d, a);
  }

  lemma NotYetSaved(d: Desk, a: Action)
    requires Enabled(d, a) && !a.Save?
    ensures !Effect(d, a).clients[a.c].Keying? || Effect(d, a).clients[a.c] == d.clients[a.c]
  {
    hide Apply, IsOpening, Decided;
  }

  lemma {:induction false} StampedRun(d: Desk, actions: seq<Action>, d': Desk)
    requires Inv(d) && Stamped(d) && Steps(d, actions, d')
    ensures Inv(d') && Stamped(d')
    decreases |actions|
  {
    hide Inv, Stamped, Effect, Enabled;
    if actions != [] {
      StepKeeps(d, actions[0]);
      StampedKept(d, actions[0]);
      StampedRun(Effect(d, actions[0]), actions[1..], d');
    }
  }

  lemma ReachableStamped(d: Desk)
    requires Reachable(d)
    ensures Inv(d) && Stamped(d)
  {
    hide Inv, Steps;
    var d0, actions :| Start(d0) && Steps(d0, actions, d);
    StartAccounted(d0);
    StampedRun(d0, actions, d);
  }

  lemma ReachableOn(d: Desk, actions: seq<Action>, d': Desk)
    requires Reachable(d) && Steps(d, actions, d')
    ensures Reachable(d')
  {
    hide Steps, Start;
    var d0, before :| Start(d0) && Steps(d0, before, d);
    StepsJoin(d0, before, d, actions, d');
  }

  /** The order a placement under way is for; o, while it has none of its own yet. */
  function PlacedID(k: Client, o: Opening): string {
    match k
    case Built(_, opening, _, _) => opening.order.id
    case Keying(_, order, _) => order.id
    case _ => o.order.id
  }

  /** The placement has stored its order already, or no stored id stands in its way. */
  predicate CanStore(d: Desk, k: Client, o: Opening) {
    k.Keying? || PlacedID(k, o) !in d.store
  }

  /**
   The discipline cannot be relaxed: wherever a run lets two placements under one key be under way at once,
   however far each has come and whatever else is stored or going on, it can go on to create an
   order for each and to answer with both.
   */
  lemma OverlapEverywhere(d: Desk, c: nat, c': nat, o: Opening, o': Opening, key: string)
    returns (actions: seq<Action>, d': Desk)
    requires Reachable(d) && c < |d.clients| && c' < |d.clients| && c != c' && key != ""
    requires PlacingKey(d.clients[c]) == PlacingKey(d.clients[c']) == Some(key)
    requires IsOpening(o) && IsOpening(o') && PlacedID(d.clients[c], o) != PlacedID(d.clients[c'], o')
    requires CanStore(d, d.clients[c], o) && CanStore(d, d.clients[c'], o')
    ensures Steps(d, actions, d')
    ensures var id, id' := PlacedID(d.clients[c], o), PlacedID(d.clients[c'], o');
      && id in d'.lives && id' in d'.lives && d'.lives[id].key == d'.lives[id'].key == key
      && (key, id) in d'.answers && (key, id') in d'.answers
  {
    hide Steps, Effect, Enabled, IsOpening, Reachable, AboutToBind, PlacedID;
    var id, id' := PlacedID(d.clients[c], o), PlacedID(d.clients[c'], o');
    var first, m := ToBinding(d, c, o, key);
    ReachableOn(d, first, m);
    assert m.clients[c'] == d.clients[c'];
    var second, n := ToBinding(m, c', o', key);
    StillAbout(m, n, c, c', key, id);
    var third;
    third, d' := BothBound(n, c, c', id, id', key);
    StepsJoin(d, first, m, second, n);
    StepsJoin(d, first + second, n, third, d');
    actions := first + second + third;
  }

  lemma StillAbout(m: Desk, n: Desk, c: nat, c': nat, key: string, id: string)
    requires AboutToBind(m, c, key, id) && c != c' && |n.clients| == |m.clients|
    requires forall i :: 0 <= i < |m.clients| && i != c' ==> n.clients[i] == m.clients[i]
    ensures AboutToBind(n, c, key, id)
  {}

  /** One placement goes on alone until its order is stored and its key about to be bound. */
  lemma ToBinding(d: Desk, c: nat, o: Opening, key: string) returns (actions: seq<Action>, d': Desk)
    requires Reachable(d) && c < |d.clients| && PlacingKey(d.clients[c]) == Some(key)
    requires IsOpening(o) && CanStore(d, d.clients[c], o)
    ensures Steps(d, actions, d') && AboutToBind(d', c, key, PlacedID(d.clients[c], o))
    ensures |d'.clients| == |d.clients| && forall i :: 0 <= i < |d.clients| && i != c ==> d'.clients[i] == d.clients[i]
    ensures var id := PlacedID(d.clients[c], o);
      && d'.store.Keys == d.store.Keys + {id} && id in d'.lives && d'.lives[id].key == key
      && forall i :: i in d.lives && i != id ==> i in d'.lives && d'.lives[i].key == d.lives[i].key
  {
    hide Reachable, IsOpening, LifeOk, Effect, Enabled, ClientsOk, RoutedOk;
    ReachableStamped(d);
    match d.clients[c] {
      case Cleared(_) =>
        actions, d' := BuildAndSave(d, c, o);
      case Built(_, _, _, _) =>
        ClientFact(d, c);
        actions, d' := SaveBuilt(d, c);
      case Keying(_, _, _) =>
        actions, d' := [], d;
    }
  }

  lemma BuildAndSave(d: Desk, c: nat, o: Opening) returns (actions: seq<Action>, d': Desk)
    requires c < |d.clients| && d.clients[c].Cleared? && IsOpening(o) && o.order.id !in d.store
    ensures Steps(d, actions, d')
    ensures var key, id := d.clients[c].key, o.order.id;
      && AboutToBind(d', c, key, id) && |d'.clients| == |d.clients|
      && (forall i :: 0 <= i < |d.clients| && i != c ==> d'.clients[i] == d.clients[i])
      && d'.store.Keys == d.store.Keys + {id} && id in d'.lives && d'.lives[id].key == key
      && forall i :: i in d.lives && i != id ==> i in d'.lives && d'.lives[i].key == d.lives[i].key
  {
    hide IsOpening;
    var build := Build(c, o, RiskError, 0);
    var m := Effect(d, build);
    var rest;
    rest, d' := SaveBuilt(m, c);
    actions := [build] + rest;
    assert actions[1..] == rest;
  }

  lemma SaveBuilt(d: Desk, c: nat) returns (actions: seq<Action>, d': Desk)
    requires c < |d.clients| && d.clients[c].Built?
    requires var k := d.clients[c];
      IsOpening(k.opening) && k.step.command == Verdict(k.risk) && k.opening.order.id !in d.store
    ensures Steps(d, actions, d')
    ensures var k := d.clients[c];
      var id := k.opening.order.id;
      && AboutToBind(d', c, k.key, id) && |d'.clients| == |d.clients|
      && (forall i :: 0 <= i < |d.clients| && i != c ==> d'.clients[i] == d.clients[i])
      && d'.store.Keys == d.store.Keys + {id} && id in d'.lives && d'.lives[id].key == k.key
      && forall i :: i in d.lives && i != id ==> i in d'.lives && d'.lives[i].key == d.lives[i].key
  {
    hide IsOpening, Decided, LifeOk, Effect;
    var k := d.clients[c];
    NewLife(k.opening, k.risk, k.key, k.step);
    SaveEffect(d, Save(c));
    actions, d' := [Save(c)], Effect(d, Save(c));
    assert actions[1..] == [];
  }

  lemma BothBound(d: Desk, c: nat, c': nat, id: string, id': string, key: string)
    returns (actions: seq<Action>, d': Desk)
    requires c != c' && key != "" && AboutToBind(d, c, key, id) && AboutToBind(d, c', key, id')
    ensures Steps(d, actions, d') && d'.lives == d.lives
    ensures (key, id) in d'.answers && (key, id') in d'.answers
  {
    var m := Effect(d, Bind(c));
    d' := Effect(m, Bind(c'));
    actions := [Bind(c), Bind(c')];
    TwoSteps(d, Bind(c), m, Bind(c'), d');
  }

  lemma TwoSteps(d: Desk, a: Action, m: Desk, b: Action, d': Desk)
    requires Enabled(d, a) && Effect(d, a) == m && Enabled(m, b) && Effect(m, b) == d'
    ensures Steps(d, [a, b], d')
  {
    hide Enabled, Effect;
    assert Steps(m, [b], d') by { assert [b][1..] == []; }
    assert [a, b][1..] == [b];
  }
}
