/**
 The write side of internal/app/service.go as a step system: any number of clients interleave the
 steps of PlaceOrder, CancelOrder and ApplyFill against one order store.

 A step is what happens under one lock of the repository, or between two of them. The store is
 the flat map that the sharded repository represents. lives, handed, routed and answers are
 history, read by no step: how each stored order came about, every event handed to the publisher,
 every order sent to the venue, and every order id returned for an idempotency key.
 */
module Desk {
  import opened Wrappers
  import opened Orders
  import opened OrderHistory
  import opened Store
  import Text
  import Vwap

  /** Outcome of the pre-trade risk check; a timeout or an open breaker is an error too. */
  datatype Risk = RiskError | RiskVerdict(approved: bool, reason: string)

  predicate Approved(r: Risk) {
    r.RiskVerdict? && r.approved
  }

  /** Fail closed: only an approval that came back without error accepts the order. */
  function Verdict(r: Risk): Command {
    match r
    case RiskError => Reject("risk check unavailable")
    case RiskVerdict(approved, reason) => if approved then Accept else Reject(reason)
  }

  /** How a stored order came about: its opening, the committed commands in order, and its placement. */
  datatype Life = Life(opening: Opening, steps: seq<Step>, risk: Risk, key: string)

  /** The aggregate's own run of the first n committed commands. */
  function At(life: Life, n: nat): Trace
    requires n <= |life.steps|
  {
    Execute(Begin(life.opening), life.steps[..n])
  }

  function End(life: Life): Trace {
    Execute(Begin(life.opening), life.steps)
  }

  datatype Client =
    | Idle
    | Cleared(key: string)                                                    // no order under this key yet
    | Built(key: string, opening: Opening, risk: Risk, step: Step)            // order decided, not yet saved
    | Keying(key: string, order: Snapshot, events: seq<Event>)                // saved, key not yet bound
    | Holding(base: Snapshot)                                                 // read a copy
    | Proposing(base: Snapshot, step: Step, next: Snapshot, event: Event)     // changed the copy
    | Outbox(order: Snapshot, events: seq<Event>, placed: bool)               // committed, events not yet published
    | Routing(order: Snapshot)                                                // sending to the venue

  datatype Desk = Desk(
    store: Book, idem: map<string, string>, clients: seq<Client>,
    lives: map<string, Life>, handed: seq<Event>, routed: set<string>, answers: set<(string, string)>)

  datatype Action =
    | CheckKey(c: nat, key: string)
    | GiveUp(c: nat)                                                          // the request does not validate
    | Build(c: nat, opening: Opening, risk: Risk, now: Time)
    | Save(c: nat)
    | Bind(c: nat)
    | Hand(c: nat)
    | Route(c: nat)
    | Finish(c: nat)
    | Get(c: nat, id: string)
    | Attempt(c: nat, command: Command, now: Time)
    | Update(c: nat)

  /** The order after the risk verdict, with the two events it has buffered. */
  function Decided(opening: Opening, step: Step): Trace {
    Do(Begin(opening), step)
  }

  predicate Enabled(d: Desk, a: Action) {
    && a.c < |d.clients|
    && var k := d.clients[a.c];
    match a
    case CheckKey(_, _) => k.Idle?
    case GiveUp(_) => k.Cleared?
    case Build(_, opening, _, _) => k.Cleared? && IsOpening(opening)
    case Save(_) => k.Built?
    case Bind(_) => k.Keying?
    case Hand(_) => k.Outbox?
    case Route(_) => k.Routing?
    case Finish(_) => k.Routing?
    case Get(_, _) => k.Idle?
    case Attempt(_, command, _) => k.Holding? && (command.Cancel? || command.Fill?)
    case Update(_) => k.Proposing?
  }

  function Became(d: Desk, c: nat, k: Client): Desk
    requires c < |d.clients|
  {
    d.(clients := d.clients[c := k])
  }

  function Effect(d: Desk, a: Action): Desk
    requires Enabled(d, a)
  {
    var k := d.clients[a.c];
    match a
    case CheckKey(c, key) =>
      if key != "" && key in d.idem then d.(answers := d.answers + {(key, d.idem[key])})
      else Became(d, c, Cleared(key))
    case GiveUp(c) => Became(d, c, Idle)
    case Build(c, opening, risk, now) => Became(d, c, Built(k.key, opening, risk, Step(Verdict(risk), now)))
    case Save(c) =>
      var t := Decided(k.opening, k.step);
      if SaveError(d.store, t.order).Some? then Became(d, c, Idle)
      else Became(d, c, Keying(k.key, t.order, t.log))
             .(store := d.store[t.order.id := t.order],
               lives := d.lives[t.order.id := Life(k.opening, [k.step], k.risk, k.key)])
    case Bind(c) =>
      var d' := Became(d, c, Outbox(k.order, k.events, true));
      if k.key == "" then d'
      else d'.(idem := d.idem[k.key := k.order.id], answers := d.answers + {(k.key, k.order.id)})
    case Hand(c) =>
      Became(d, c, if k.placed && k.order.status == Accepted then Routing(k.order) else Idle)
        .(handed := d.handed + k.events)
    case Route(c) => d.(routed := d.routed + {k.order.id})
    case Finish(c) => Became(d, c, Idle)
    case Get(c, id) => if id in d.store then Became(d, c, Holding(d.store[id])) else d
    case Attempt(c, command, now) =>
      (match Apply(k.base, command, now)
       case Applied(next, event) => Became(d, c, Proposing(k.base, Step(command, now), next, event))
       case Refused(_) => Became(d, c, Idle))
    case Update(c) =>
      if UpdateError(d.store, k.next, k.base.version).Some? then Became(d, c, Idle)
      else Became(d, c, Outbox(k.next, [k.event], false))
             .(store := d.store[k.next.id := k.next], lives := Lengthened(d.lives, k.next.id, k.step))
  }

  /** One more committed command in the history of an order. */
  function Lengthened(lives: map<string, Life>, id: string, step: Step): map<string, Life> {
    if id in lives then lives[id := lives[id].(steps := lives[id].steps + [step])] else lives
  }

  ghost predicate Start(d: Desk) {
    && d.store == map[] && d.idem == map[] && d.lives == map[] && d.handed == []
    && d.routed == {} && d.answers == {}
    && forall c :: 0 <= c < |d.clients| ==> d.clients[c].Idle?
  }

  /** d' is reached from d by the given steps, in that interleaving. */
  ghost predicate Steps(d: Desk, actions: seq<Action>, d': Desk)
    decreases |actions|
  {
    if actions == [] then d == d'
    else Enabled(d, actions[0]) && Steps(Effect(d, actions[0]), actions[1..], d')
  }

  lemma {:induction false} StepsJoin(d: Desk, xs: seq<Action>, m: Desk, ys: seq<Action>, d': Desk)
    requires Steps(d, xs, m) && Steps(m, ys, d')
    ensures Steps(d, xs + ys, d')
    decreases |xs|
  {
    hide Enabled, Effect;
    if xs == [] {
      assert xs + ys == ys;
    } else {
      StepsJoin(Effect(d, xs[0]), xs[1..], m, ys, d');
      assert (xs + ys)[1..] == xs[1..] + ys;
    }
  }

  ghost predicate Reachable(d: Desk) {
    exists d0, actions :: Start(d0) && Steps(d0, actions, d)
  }

  // ---------------------------------------------------------------- invariant

  ghost predicate LifeOk(id: string, life: Life, s: Snapshot) {
    && IsOpening(life.opening) && life.opening.order.id == id
    && |life.steps| >= 1 && life.steps[0].command == Verdict(life.risk)
    && (forall i :: 0 < i < |life.steps| ==> life.steps[i].command.Cancel? || life.steps[i].command.Fill?)
    && (forall n :: 0 <= n <= |life.steps| ==> At(life, n).order.version == n)
    && End(life).order == s
  }

  /** Every stored order is where its committed commands, run one after another, leave it. */
  ghost predicate LivesOk(d: Desk) {
    && d.store.Keys == d.lives.Keys
    && forall id :: id in d.store ==> LifeOk(id, d.lives[id], d.store[id])
  }

  /** The snapshot is one that the store held at the version it carries. */
  ghost predicate BaseOk(lives: map<string, Life>, base: Snapshot) {
    && base.id in lives
    && 1 <= base.version <= |lives[base.id].steps|
    && base == At(lives[base.id], base.version).order
  }

  ghost predicate Placed(lives: map<string, Life>, o: Snapshot) {
    o.id in lives && (o.status == Accepted ==> Approved(lives[o.id].risk))
  }

  ghost predicate ClientOk(lives: map<string, Life>, k: Client) {
    match k
    case Idle => true
    case Cleared(_) => true
    case Built(_, opening, risk, step) => IsOpening(opening) && step.command == Verdict(risk)
    case Keying(_, order, _) => Placed(lives, order)
    case Holding(base) => BaseOk(lives, base)
    case Proposing(base, step, next, event) =>
      && BaseOk(lives, base) && (step.command.Cancel? || step.command.Fill?)
      && Apply(base, step.command, step.now) == Applied(next, event)
    case Outbox(order, _, placed) => placed ==> Placed(lives, order)
    case Routing(order) => Placed(lives, order) && order.status == Accepted
  }

  ghost predicate ClientsOk(d: Desk) {
    forall c :: 0 <= c < |d.clients| ==> ClientOk(d.lives, d.clients[c])
  }

  ghost predicate RoutedOk(d: Desk) {
    forall id :: id in d.routed ==> id in d.lives && Approved(d.lives[id].risk)
  }

  ghost predicate Inv(d: Desk) {
    LivesOk(d) && ClientsOk(d) && RoutedOk(d)
  }

  // ---------------------------------------------------------------- lives

  lemma LifeCoherent(life: Life, n: nat)
    requires IsOpening(life.opening) && n <= |life.steps|
    ensures Coherent(At(life, n)) && Lifecycle(At(life, n).order)
    ensures SameTerms(life.opening.order, At(life, n).order)
  {
    hide Coherent, IsOpening;
    OpeningCoherent(life.opening);
    ExecuteCoherent(Begin(life.opening), life.steps[..n]);
    CoherentLifecycle(At(life, n));
    TermsStand(Begin(life.opening), life.steps[..n]);
  }

  lemma EndIsLast(life: Life)
    ensures End(life) == At(life, |life.steps|)
  {
    assert life.steps[..|life.steps|] == life.steps;
  }

  /** Committing one more command extends the run by one step and leaves its past alone. */
  lemma LifeExtended(life: Life, step: Step, n: nat)
    requires n <= |life.steps| + 1
    ensures var life' := life.(steps := life.steps + [step]);
      && At(life', n) == (if n <= |life.steps| then At(life, n) else Do(End(life), step))
      && (n == |life'.steps| ==> End(life') == At(life', n))
  {
    hide Do;
    var life' := life.(steps := life.steps + [step]);
    EndIsLast(life');
    if n <= |life.steps| {
      assert life'.steps[..n] == life.steps[..n];
    } else {
      assert life'.steps[..n] == life'.steps;
      assert life'.steps[..n - 1] == life.steps;
    }
  }

  /** A version match means nothing was committed since the read, so the stored order is the one that was read. */
  lemma MatchMeansUnchanged(d: Desk, base: Snapshot)
    requires LivesOk(d) && BaseOk(d.lives, base)
    ensures base.id in d.store
    ensures d.store[base.id].version == base.version <==> d.store[base.id] == base
  {
    hide LifeOk, At;
    assert LifeOk(base.id, d.lives[base.id], d.store[base.id]);
    StoredVersion(base.id, d.lives[base.id], d.store[base.id]);
  }

  lemma StoredVersion(id: string, life: Life, s: Snapshot)
    requires LifeOk(id, life, s)
    ensures s.version == |life.steps| && s == At(life, |life.steps|).order
  {
    EndIsLast(life);
  }

  lemma NewLife(opening: Opening, risk: Risk, key: string, step: Step)
    requires IsOpening(opening) && step.command == Verdict(risk)
    ensures var t := Decided(opening, step);
      && LifeOk(opening.order.id, Life(opening, [step], risk, key), t.order)
      && t.order.id == opening.order.id && t.order.version == 1
      && t.order.status == (if Approved(risk) then Accepted else Rejected)
      && |t.log| == 2 && t.log[0] == opening.event && t.log[1].orderID == t.order.id && !t.log[1].IsFill()
      && opening.event.OrderPlaced? && opening.event.orderID == t.order.id && t.order.filledQty == 0
      && SameTerms(opening.order, t.order)
  {
    hide Text.TrimSpace, Complaint;
    var life := Life(opening, [step], risk, key);
    OpeningCoherent(opening);
    var t := Begin(opening);
    assert [step][..1] == [step] && [step][..0] == [];
    assert Execute(t, []) == t;
    assert Execute(t, [step]) == Do(t, step);
    assert At(life, 0) == t && At(life, 1) == Do(t, step) && End(life) == Do(t, step);
  }

  lemma CommitLife(id: string, life: Life, base: Snapshot, step: Step, next: Snapshot, event: Event)
    requires LifeOk(id, life, base)
    requires step.command.Cancel? || step.command.Fill?
    requires Apply(base, step.command, step.now) == Applied(next, event)
    ensures LifeOk(id, life.(steps := life.steps + [step]), next)
    ensures next.id == id && next.version == base.version + 1 && SameTerms(base, next)
    ensures event.orderID == id
    ensures next.filledQty == base.filledQty + if event.IsFill() then event.fillQty else 0
  {
    hide Apply, At, End, IsOpening;
    StoredVersion(id, life, base);
    var n := |life.steps|;
    LifeCoherent(life, n);
    EndIsLast(life);
    ApplyKeepsLifecycle(base, step.command, step.now);
    var life' := life.(steps := life.steps + [step]);
    forall m | 0 <= m <= n + 1 ensures At(life', m).order.version == m { LifeExtended(life, step, m); }
    LifeExtended(life, step, n + 1);
    assert Do(End(life), step).order == next;
  }

  // ---------------------------------------------------------------- preservation

  /** Steps that touch neither store nor lives. */
  predicate Quiet(a: Action) {
    !a.Save? && !a.Update?
  }

  lemma QuietKeeps(d: Desk, a: Action)
    requires Inv(d) && Enabled(d, a) && Quiet(a)
    ensures Inv(Effect(d, a))
  {
    hide LifeOk, ClientOk, IsOpening, Apply;
    var d' := Effect(d, a);
    assert ClientOk(d.lives, d.clients[a.c]);
    QuietClient(d, a);
    forall c | 0 <= c < |d'.clients| ensures ClientOk(d'.lives, d'.clients[c]) {
      assert ClientOk(d.lives, d.clients[c]);
    }
  }

  lemma QuietClient(d: Desk, a: Action)
    requires LivesOk(d) && RoutedOk(d) && Enabled(d, a) && Quiet(a) && ClientOk(d.lives, d.clients[a.c])
    ensures a.c < |Effect(d, a).clients| && ClientOk(d.lives, Effect(d, a).clients[a.c]) && RoutedOk(Effect(d, a))
  {
    hide LifeOk, BaseOk, Apply, IsOpening;
    if a.Get? && a.id in d.store {
      assert LifeOk(a.id, d.lives[a.id], d.store[a.id]);
      FreshRead(d, a.id);
    }
  }

  lemma FreshRead(d: Desk, id: string)
    requires id in d.store && id in d.lives && LifeOk(id, d.lives[id], d.store[id])
    ensures BaseOk(d.lives, d.store[id])
  {
    hide At;
    StoredVersion(id, d.lives[id], d.store[id]);
    StoredId(id, d.lives[id], d.store[id]);
  }

  lemma StoredId(id: string, life: Life, s: Snapshot)
    requires LifeOk(id, life, s)
    ensures s.id == id && Lifecycle(s) && SameTerms(life.opening.order, s)
  {
    hide IsOpening;
    EndIsLast(life);
    LifeCoherent(life, |life.steps|);
  }

  lemma StoredUnderId(d: Desk, id: string)
    requires Inv(d) && id in d.store
    ensures d.store[id].id == id
  {
    hide LifeOk;
    assert LifeOk(id, d.lives[id], d.store[id]);
    StoredId(id, d.lives[id], d.store[id]);
  }

  /** Adding a life, or extending one, keeps every snapshot that was ever read a snapshot of the past. */
  lemma BaseSurvives(lives: map<string, Life>, lives': map<string, Life>, base: Snapshot)
    requires BaseOk(lives, base) && base.id in lives'
    requires var life, life' := lives[base.id], lives'[base.id];
      life'.opening == life.opening && life.steps <= life'.steps
    ensures BaseOk(lives', base)
  {
    var life, life' := lives[base.id], lives'[base.id];
    assert life'.steps[..base.version] == life.steps[..base.version];
  }

  lemma ClientFact(d: Desk, c: nat)
    requires Inv(d) && c < |d.clients|
    ensures ClientOk(d.lives, d.clients[c])
  {
    hide ClientOk, LivesOk;
  }

  /** What a save does when it succeeds, and otherwise. */
  lemma SaveEffect(d: Desk, a: Action)
    requires Enabled(d, a) && a.Save?
    ensures var d', k := Effect(d, a), d.clients[a.c];
      var t := Decided(k.opening, k.step);
      && d'.routed == d.routed
      && (if t.order.id in d.store then d' == Became(d, a.c, Idle)
          else && d'.store == d.store[t.order.id := t.order]
               && d'.lives == d.lives[t.order.id := Life(k.opening, [k.step], k.risk, k.key)]
               && d'.clients == d.clients[a.c := Keying(k.key, t.order, t.log)])
  {
    hide Decided;
  }

  lemma SaveKeeps(d: Desk, a: Action)
    requires Inv(d) && Enabled(d, a) && a.Save?
    ensures Inv(Effect(d, a))
  {
    hide LifeOk, IsOpening, Decided, Effect, BaseOk, Apply, ClientOk;
    var d' := Effect(d, a);
    SaveEffect(d, a);
    SavedLife(d, a);
    forall c | 0 <= c < |d'.clients| ensures ClientOk(d'.lives, d'.clients[c]) {
      assert ClientOk(d.lives, d.clients[c]);
      if c != a.c { OthersSurvive(d.lives, d'.lives, d.clients[c]); }
    }
  }

  /** The order a save stores has a life of its own, and the saving client knows what it placed. */
  lemma SavedLife(d: Desk, a: Action)
    requires Inv(d) && Enabled(d, a) && a.Save?
    ensures var d' := Effect(d, a);
      && LivesOk(d') && Extends(d.lives, d'.lives)
      && a.c < |d'.clients| && ClientOk(d'.lives, d'.clients[a.c])
  {
    hide LifeOk, IsOpening, Decided, Effect, BaseOk, Apply;
    var k := d.clients[a.c];
    SaveEffect(d, a);
    ClientFact(d, a.c);
    NewLife(k.opening, k.risk, k.key, k.step);
  }

  /** lives' extends lives: nothing is forgotten, each history only grows at its end. */
  ghost predicate Extends(lives: map<string, Life>, lives': map<string, Life>) {
    forall id :: id in lives ==>
      && id in lives' && lives'[id].opening == lives[id].opening && lives[id].steps <= lives'[id].steps
      && lives'[id].risk == lives[id].risk && lives'[id].key == lives[id].key
  }

  lemma OthersSurvive(lives: map<string, Life>, lives': map<string, Life>, k: Client)
    requires ClientOk(lives, k) && Extends(lives, lives')
    ensures ClientOk(lives', k)
  {
    hide At, Apply, IsOpening, BaseOk;
    if k.Holding? || k.Proposing? {
      BaseKnown(lives, k.base);
      BaseSurvives(lives, lives', k.base);
    }
  }

  lemma BaseKnown(lives: map<string, Life>, base: Snapshot)
    requires BaseOk(lives, base)
    ensures base.id in lives
  {}

  /** What an update does when it succeeds, and otherwise. */
  lemma UpdateEffect(d: Desk, a: Action)
    requires Enabled(d, a) && a.Update?
    ensures var d', k := Effect(d, a), d.clients[a.c];
      && d'.routed == d.routed && d'.handed == d.handed
      && (if UpdateError(d.store, k.next, k.base.version).Some? then d' == Became(d, a.c, Idle)
          else && d'.store == d.store[k.next.id := k.next]
               && d'.lives == Lengthened(d.lives, k.next.id, k.step)
               && d'.clients == d.clients[a.c := Outbox(k.next, [k.event], false)])
  {
    hide Lengthened;
  }

  lemma UpdateKeeps(d: Desk, a: Action)
    requires Inv(d) && Enabled(d, a) && a.Update?
    ensures Inv(Effect(d, a))
  {
    hide LifeOk, At, Apply, IsOpening, BaseOk, Lengthened, Effect, LivesOk;
    var d', k := Effect(d, a), d.clients[a.c];
    CommitReplacesRead(d, a.c);
    UpdateEffect(d, a);
    forall c | 0 <= c < |d'.clients| ensures ClientOk(d'.lives, d'.clients[c]) {
      assert ClientOk(d.lives, d.clients[c]);
      if c != a.c { OthersSurvive(d.lives, d'.lives, d.clients[c]); }
    }
  }

  /**
   The heart of optimistic concurrency: an Update that succeeds replaces exactly the snapshot its
   client read, raises the stored version by one, extends the order's history by the client's
   command, and touches no other order. One that fails changes nothing in the store.
   */
  lemma CommitReplacesRead(d: Desk, c: nat)
    requires Inv(d) && Enabled(d, Update(c))
    ensures var d', k := Effect(d, Update(c)), d.clients[c];
      var id := k.base.id;
      && k.next.id == id && id in d.store && LivesOk(d') && Extends(d.lives, d'.lives)
      && (if d.store[id].version == k.base.version then
            && d.store[id] == k.base
            && d'.store == d.store[id := k.next] && k.next.version == d.store[id].version + 1
            && d'.lives[id].steps == d.lives[id].steps + [k.step]
            && SameTerms(k.base, k.next) && k.event.orderID == id
            && k.next.filledQty == k.base.filledQty + (if k.event.IsFill() then k.event.fillQty else 0)
          else d'.store == d.store && d'.lives == d.lives)
  {
    hide LifeOk, At, Apply, IsOpening, BaseOk, Effect, LivesOk, RoutedOk, Lengthened, Extends;
    var d', k := Effect(d, Update(c)), d.clients[c];
    assert ClientOk(d.lives, k);
    MatchMeansUnchanged(d, k.base);
    ProposalKeepsId(d, k);
    UpdateEffect(d, Update(c));
    if d.store[k.base.id] == k.base {
      CommitLives(d, d', k);
    } else {
      SameLives(d, d');
    }
  }

  lemma SameLives(d: Desk, d': Desk)
    requires LivesOk(d) && d'.store == d.store && d'.lives == d.lives
    ensures LivesOk(d') && Extends(d.lives, d'.lives)
  {
    hide LifeOk;
  }

  lemma CommitLives(d: Desk, d': Desk, k: Client)
    requires LivesOk(d) && k.Proposing? && (k.step.command.Cancel? || k.step.command.Fill?)
    requires Apply(k.base, k.step.command, k.step.now) == Applied(k.next, k.event)
    requires k.base.id in d.store && d.store[k.base.id] == k.base && k.next.id == k.base.id
    requires d'.store == d.store[k.next.id := k.next] && d'.lives == Lengthened(d.lives, k.next.id, k.step)
    ensures LivesOk(d') && Extends(d.lives, d'.lives)
    ensures k.base.id in d'.lives && d'.lives[k.base.id].steps == d.lives[k.base.id].steps + [k.step]
    ensures k.next.version == k.base.version + 1 && SameTerms(k.base, k.next) && k.event.orderID == k.base.id
    ensures k.next.filledQty == k.base.filledQty + (if k.event.IsFill() then k.event.fillQty else 0)
  {
    hide LifeOk, Apply;
    var id := k.base.id;
    assert LifeOk(id, d.lives[id], d.store[id]);
    CommitLife(id, d.lives[id], k.base, k.step, k.next, k.event);
  }

  lemma ProposalKeepsId(d: Desk, k: Client)
    requires LivesOk(d) && k.Proposing? && ClientOk(d.lives, k)
    ensures k.next.id == k.base.id
  {
    hide At, Apply, End, LifeOk, Lifecycle;
    BaseLifecycle(d, k.base);
    ApplyKeepsLifecycle(k.base, k.step.command, k.step.now);
  }

  /** Whatever was read was a lifecycle state. */
  lemma BaseLifecycle(d: Desk, base: Snapshot)
    requires LivesOk(d) && BaseOk(d.lives, base)
    ensures Lifecycle(base)
  {
    hide At, Lifecycle, LifeOk, Coherent, IsOpening;
    var life := d.lives[base.id];
    LifeOpens(base.id, life, d.store[base.id]);
    LifeCoherent(life, base.version);
  }

  lemma LifeOpens(id: string, life: Life, s: Snapshot)
    requires LifeOk(id, life, s)
    ensures IsOpening(life.opening)
  {}

  /** A step changes its own client and no other. */
  lemma OthersStand(d: Desk, a: Action)
    requires Enabled(d, a)
    ensures a.c < |d.clients| == |Effect(d, a).clients|
    ensures forall c :: 0 <= c < |d.clients| && c != a.c ==> Effect(d, a).clients[c] == d.clients[c]
  {
    hide Apply, IsOpening, Decided;
  }

  lemma StepKeeps(d: Desk, a: Action)
    requires Inv(d) && Enabled(d, a)
    ensures Inv(Effect(d, a))
  {
    hide LivesOk, ClientsOk, RoutedOk, Effect, Enabled;
    if a.Save? { SaveKeeps(d, a); } else if a.Update? { UpdateKeeps(d, a); } else { QuietKeeps(d, a); }
  }

  lemma {:induction false} StepsKeep(d: Desk, actions: seq<Action>, d': Desk)
    requires Inv(d) && Steps(d, actions, d')
    ensures Inv(d')
    decreases |actions|
  {
    hide Inv, Effect, Enabled;
    if actions != [] {
      StepKeeps(d, actions[0]);
      StepsKeep(Effect(d, actions[0]), actions[1..], d');
    }
  }

  lemma ReachableInv(d: Desk)
    requires Reachable(d)
    ensures Inv(d)
  {
    var d0, actions :| Start(d0) && Steps(d0, actions, d);
    StepsKeep(d0, actions, d);
  }

  // ---------------------------------------------------------------- consequences, for every interleaving

  /**
   Whatever the interleaving, each stored order is the result of its committed commands run one after
   another by the aggregate itself: the log replays to it, its version counts the commits, its
   filled quantity is the sum of the committed fills and never exceeds what was ordered.
   */
  lemma HistoriesAreSequential(d: Desk, id: string)
    requires Reachable(d) && id in d.store
    ensures id in d.lives
    ensures var s, life := d.store[id], d.lives[id];
      && End(life).order == s && Coherent(End(life)) && Lifecycle(s)
      && s.version == |life.steps| <= s.quantity + 1
      && Replay(End(life).log) == Some(s)
      && FilledBy(End(life).log) == s.filledQty <= s.quantity
      && SameTerms(life.opening.order, s)
  {
    hide Reachable, At, Replay, FilledBy, IsOpening;
    ReachableInv(d);
    var s, life := d.store[id], d.lives[id];
    assert LifeOk(id, life, s);
    StoredVersion(id, life, s);
    EndIsLast(life);
    LifeCoherent(life, |life.steps|);
  }

  /** The error of a stored average is bounded over its whole committed history. */
  lemma StoredDrift(d: Desk, id: string)
    requires Reachable(d) && id in d.store
    ensures id in d.lives
    ensures var xs := Vwap.Executions(End(d.lives[id]).log);
      Vwap.Shares(xs) == d.store[id].filledQty && Vwap.Drift(d.store[id], xs) <= Vwap.Allowance(xs)
  {
    hide Reachable, At, IsOpening, Vwap.Executions, Vwap.Shares, Vwap.Drift, Vwap.Allowance, Coherent;
    ReachableInv(d);
    var life := d.lives[id];
    assert LifeOk(id, life, d.store[id]);
    OpeningCoherent(life.opening);
    OpeningEmpty(life.opening);
    Vwap.BeginDrift(life.opening);
    Vwap.VwapDrift(Begin(life.opening), life.steps);
  }

  lemma OpeningEmpty(o: Opening)
    requires IsOpening(o)
    ensures o.event.OrderPlaced? && o.order.filledQty == 0
  {
    hide Complaint;
  }

  /**
   Fail closed: whatever was ever routed is a stored order, and an order that was routed, or holds any
   filled quantity, passed a risk check that returned without error and approved it. Every stored order
   was first saved at version 1 as Accepted or Rejected, and a Rejected one has never changed since.
   */
  lemma FailClosed(d: Desk, id: string)
    requires Reachable(d)
    ensures d.routed <= d.store.Keys
    ensures id in d.store <==> id in d.lives
    ensures id in d.store ==>
      var life := d.lives[id];
      && |life.steps| >= 1 && At(life, 1).order.version == 1
      && At(life, 1).order.status == (if Approved(life.risk) then Accepted else Rejected)
      && (id in d.routed || d.store[id].filledQty > 0 ==> Approved(life.risk))
      && (!Approved(life.risk) ==> d.store[id] == At(life, 1).order && d.store[id].status == Rejected)
  {
    hide Reachable;
    ReachableInv(d);
    if id in d.store {
      var life := d.lives[id];
      assert LifeOk(id, life, d.store[id]);
      FirstStep(id, life, d.store[id]);
      if !Approved(life.risk) { RejectedStays(id, life, d.store[id]); }
    }
  }

  lemma FirstStep(id: string, life: Life, s: Snapshot)
    requires LifeOk(id, life, s)
    ensures At(life, 1) == Decided(life.opening, life.steps[0])
    ensures At(life, 1).order.version == 1
    ensures At(life, 1).order.status == (if Approved(life.risk) then Accepted else Rejected)
    ensures At(life, 1).order.filledQty == 0
  {
    hide IsOpening;
    var t, step := Begin(life.opening), life.steps[0];
    assert life.steps[..1] == [step] && [step][..0] == [];
    assert Execute(t, []) == t;
    assert Execute(t, [step]) == Do(t, step);
    NewLife(life.opening, life.risk, life.key, step);
  }

  lemma RejectedStays(id: string, life: Life, s: Snapshot)
    requires LifeOk(id, life, s) && !Approved(life.risk)
    ensures |life.steps| == 1 && s == At(life, 1).order && s.status == Rejected && s.filledQty == 0
  {
    hide IsOpening, Apply;
    FirstStep(id, life, s);
    EndIsLast(life);
    if |life.steps| > 1 {
      var step := life.steps[1];
      assert At(life, 2).order.version == 2;
      assert life.steps[..2][..1] == life.steps[..1];
      assert At(life, 2) == Do(At(life, 1), step);
      RejectedRefuses(At(life, 1).order, step);
    }
  }

  lemma RejectedRefuses(o: Snapshot, step: Step)
    requires o.status == Rejected
    ensures Apply(o, step.command, step.now).Refused?
  {}

  // ---------------------------------------------------------------- what the status of a stored order tells

  /** After the first, every committed command took effect on the order as the one before left it. */
  lemma LastCommit(id: string, life: Life, s: Snapshot)
    requires LifeOk(id, life, s) && |life.steps| >= 2
    ensures var last, before := life.steps[|life.steps| - 1], At(life, |life.steps| - 1).order;
      && (last.command.Cancel? || last.command.Fill?) && Lifecycle(before)
      && Apply(before, last.command, last.now).Applied? && Apply(before, last.command, last.now).order == s
  {
    hide IsOpening, Apply, Lifecycle, Coherent;
    var n := |life.steps|;
    EndIsLast(life);
    LifeCoherent(life, n - 1);
    assert life.steps[..n][..n - 1] == life.steps[..n - 1];
    assert At(life, n) == Do(At(life, n - 1), life.steps[n - 1]);
  }

  /**
   The status of a stored order says how it got there, in every interleaving: Accepted or Rejected when nothing
   but the risk verdict was committed, Canceled exactly when the last committed command is a cancel, partly or
   wholly filled exactly when it is a fill, and never New or Expired.
   */
  lemma StatusTells(d: Desk, id: string)
    requires Reachable(d) && id in d.store
    ensures id in d.lives && |d.lives[id].steps| >= 1
    ensures var s, life := d.store[id], d.lives[id];
      var last := life.steps[|life.steps| - 1].command;
      && s.status != New && s.status != Expired
      && (s.status == Canceled <==> last.Cancel?)
      && (s.status in {PartiallyFilled, Filled} <==> last.Fill?)
      && (s.status == Accepted <==> |life.steps| == 1 && Approved(life.risk))
      && (s.status == Rejected <==> |life.steps| == 1 && !Approved(life.risk))
  {
    hide Reachable, LifeOk, At, Apply, Lifecycle;
    ReachableInv(d);
    var s, life := d.store[id], d.lives[id];
    assert LifeOk(id, life, s);
    FirstStep(id, life, s);
    FirstCommand(id, life, s);
    if |life.steps| >= 2 {
      LastCommit(id, life, s);
      var n := |life.steps|;
      ApplyLeadsTo(At(life, n - 1).order, life.steps[n - 1].command, life.steps[n - 1].now);
    } else {
      StoredVersion(id, life, s);
    }
  }

  lemma FirstCommand(id: string, life: Life, s: Snapshot)
    requires LifeOk(id, life, s)
    ensures |life.steps| >= 1 && !life.steps[0].command.Cancel? && !life.steps[0].command.Fill?
  {}

  /** A rejection says why: the risk system's own reason, or that it gave no answer. */
  lemma RejectionSaysWhy(d: Desk, id: string)
    requires Reachable(d) && id in d.store && d.store[id].status == Rejected
    ensures id in d.lives
    ensures var life := d.lives[id];
      var why := if life.risk.RiskError? then "risk check unavailable" else life.risk.reason;
      && !(life.risk.RiskVerdict? && life.risk.approved) && |life.steps| == 1
      && End(life).log == [life.opening.event, OrderRejected(id, life.steps[0].now, why)]
  {
    hide Reachable, LifeOk, At, IsOpening;
    StatusTells(d, id);
    ReachableInv(d);
    var s, life := d.store[id], d.lives[id];
    assert LifeOk(id, life, s);
    FirstStep(id, life, s);
    EndIsLast(life);
    RejectedLog(id, life, s);
  }

  lemma RejectedLog(id: string, life: Life, s: Snapshot)
    requires LifeOk(id, life, s) && !Approved(life.risk)
    ensures var why := if life.risk.RiskError? then "risk check unavailable" else life.risk.reason;
      Decided(life.opening, life.steps[0]).log == [life.opening.event, OrderRejected(id, life.steps[0].now, why)]
  {
    hide IsOpening;
    OpeningCoherent(life.opening);
    ApplyLeadsTo(life.opening.order, life.steps[0].command, life.steps[0].now);
  }
}
