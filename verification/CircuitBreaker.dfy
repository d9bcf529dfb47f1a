/** The circuit breaker of internal/resilience/circuitbreaker.go, under a clock that never goes back. */
module Breaker {
  datatype Mode = Closed | Open | HalfOpen

  datatype Config = Config(failureThreshold: int, successThreshold: int, cooldown: int)

  /** Non-positive settings get their defaults; durations are in nanoseconds. */
  function WithDefaults(c: Config): (r: Config)
    ensures Usable(r) && (Usable(c) ==> r == c)
    ensures c.failureThreshold >= 1 ==> r.failureThreshold == c.failureThreshold
    ensures c.successThreshold >= 1 ==> r.successThreshold == c.successThreshold
    ensures c.cooldown > 0 ==> r.cooldown == c.cooldown
    ensures !(c.failureThreshold >= 1) ==> r.failureThreshold == 5
    ensures !(c.successThreshold >= 1) ==> r.successThreshold == 1
    ensures !(c.cooldown > 0) ==> r.cooldown == 5 * 1000 * 1000 * 1000
  {
    Config(if c.failureThreshold < 1 then 5 else c.failureThreshold,
           if c.successThreshold < 1 then 1 else c.successThreshold,
           if c.cooldown <= 0 then 5_000_000_000 else c.cooldown)
  }

  predicate Usable(c: Config) {
    c.failureThreshold >= 1 && c.successThreshold >= 1 && c.cooldown > 0
  }

  datatype Gauge = Gauge(mode: Mode, failures: int, halfOpenSuccess: int, openedAt: int)

  const FRESH := Gauge(Closed, 0, 0, 0)

  /** An open breaker becomes half-open once the cool-down has passed. */
  function Refreshed(c: Config, g: Gauge, now: int): Gauge {
    if g.mode == Open && now - g.openedAt >= c.cooldown then g.(mode := HalfOpen, halfOpenSuccess := 0) else g
  }

  function Tripped(g: Gauge, now: int): Gauge {
    g.(mode := Open, openedAt := now, failures := 0)
  }

  /** Whether recording this outcome trips the breaker. */
  predicate Trips(c: Config, g: Gauge, failed: bool) {
    failed && (g.mode == HalfOpen || (g.mode == Closed && g.failures + 1 >= c.failureThreshold))
  }

  function Recorded(c: Config, g: Gauge, failed: bool, now: int): Gauge {
    if failed then
      var g' := g.(failures := g.failures + 1);
      if Trips(c, g, true) then Tripped(g', now) else g'
    else
      match g.mode
      case HalfOpen =>
        var n := g.halfOpenSuccess + 1;
        if n >= c.successThreshold then g.(mode := Closed, failures := 0, halfOpenSuccess := n)
        else g.(halfOpenSuccess := n)
      case Closed => g.(failures := 0)
      case Open => g
  }

  class CircuitBreaker {
    const failureThreshold: int
    const successThreshold: int
    const cooldown: int
    var mode: Mode
    var failures: int
    var halfOpenSuccess: int
    var openedAt: int

    function Settings(): Config {
      Config(failureThreshold, successThreshold, cooldown)
    }

    function Reading(): Gauge
      reads this
    {
      Gauge(mode, failures, halfOpenSuccess, openedAt)
    }

    constructor (c: Config)
      ensures Settings() == WithDefaults(c) && Reading() == FRESH
    {
      failureThreshold := if c.failureThreshold < 1 then 5 else c.failureThreshold;
      successThreshold := if c.successThreshold < 1 then 1 else c.successThreshold;
      cooldown := if c.cooldown <= 0 then 5_000_000_000 else c.cooldown;
      mode, failures, halfOpenSuccess, openedAt := Closed, 0, 0, 0;
    }

    method Transition(to: Mode)
      modifies this`mode
      ensures mode == to
    {
      if mode == to {
        return;
      }
      mode := to;
    }

    method Refresh(now: int)
      modifies this
      ensures Reading() == Refreshed(Settings(), old(Reading()), now)
    {
      if mode == Open && now - openedAt >= cooldown {
        Transition(HalfOpen);
        halfOpenSuccess := 0;
      }
    }

    method State(now: int) returns (m: Mode)
      modifies this
      ensures Reading() == Refreshed(Settings(), old(Reading()), now) && m == Reading().mode
    {
      Refresh(now);
      m := mode;
    }

    method Allow(now: int) returns (admitted: bool)
      modifies this
      ensures Reading() == Refreshed(Settings(), old(Reading()), now)
      ensures admitted <==> Reading().mode != Open
    {
      Refresh(now);
      admitted := mode != Open;
    }

    method Trip(now: int)
      modifies this
      ensures Reading() == Tripped(old(Reading()), now)
    {
      Transition(Open);
      openedAt := now;
      failures := 0;
    }

    method Record(failed: bool, now: int)
      modifies this
      ensures Reading() == Recorded(Settings(), old(Reading()), failed, now)
    {
      if failed {
        failures := failures + 1;
        match mode {
          case HalfOpen => Trip(now);
          case Closed =>
            if failures >= failureThreshold {
              Trip(now);
            }
          case Open =>
        }
        return;
      }
      match mode {
        case HalfOpen =>
          halfOpenSuccess := halfOpenSuccess + 1;
          if halfOpenSuccess >= successThreshold {
            Transition(Closed);
            failures := 0;
          }
        case Closed => failures := 0;
        case Open =>
      }
    }
  }

  // ---------------------------------------------------------------- runs

  /** Calls ask for admission, report their outcome (perhaps much later), and observers read the state. */
  datatype Action = Ask(now: int) | Report(failed: bool, now: int) | Observe(now: int)

  /**
   Where a run stands: the breaker, when it tripped, every outcome reported, the last clock reading, and how many
   outcomes had been reported when it last became half-open.
   */
  datatype Run = Run(gauge: Gauge, trips: seq<int>, outcomes: seq<bool>, clock: int, probing: nat)

  function Act(c: Config, r: Run, a: Action): Run {
    match a
    case Report(failed, now) =>
      Run(Recorded(c, r.gauge, failed, now),
          if Trips(c, r.gauge, failed) then r.trips + [now] else r.trips,
          r.outcomes + [failed], now, r.probing)
    case Ask(now) => Looked(c, r, now)
    case Observe(now) => Looked(c, r, now)
  }

  function Looked(c: Config, r: Run, now: int): Run {
    var g := Refreshed(c, r.gauge, now);
    r.(gauge := g, clock := now,
       probing := if r.gauge.mode != HalfOpen && g.mode == HalfOpen then |r.outcomes| else r.probing)
  }

  function RunOf(c: Config, start: int, actions: seq<Action>): Run {
    if actions == [] then Run(FRESH, [], [], start, 0)
    else Act(c, RunOf(c, start, actions[..|actions| - 1]), actions[|actions| - 1])
  }

  ghost predicate ClockAdvances(start: int, actions: seq<Action>) {
    && (forall i :: 0 <= i < |actions| ==> start <= actions[i].now)
    && (forall i, j :: 0 <= i < j < |actions| ==> actions[i].now <= actions[j].now)
  }

  /** Failures at the end of the outcomes reported so far. */
  function TrailingFailures(outcomes: seq<bool>): nat {
    if outcomes == [] || !outcomes[|outcomes| - 1] then 0
    else 1 + TrailingFailures(outcomes[..|outcomes| - 1])
  }

  ghost predicate Inv(c: Config, r: Run) {
    && (r.gauge.mode == Closed ==>
          r.gauge.failures == TrailingFailures(r.outcomes) && r.gauge.failures < c.failureThreshold)
    && (r.gauge.mode == HalfOpen ==>
          && r.probing <= |r.outcomes| && r.gauge.halfOpenSuccess == |r.outcomes| - r.probing < c.successThreshold
          && forall i :: r.probing <= i < |r.outcomes| ==> !r.outcomes[i])
    && (r.gauge.mode != Closed ==> r.trips != [])
    && (r.trips != [] ==>
          && r.gauge.openedAt == r.trips[|r.trips| - 1] <= r.clock
          && (r.gauge.mode != Open ==> r.gauge.openedAt + c.cooldown <= r.clock))
    && (forall i :: 0 < i < |r.trips| ==> r.trips[i - 1] + c.cooldown <= r.trips[i])
  }

  lemma TrailingAppend(outcomes: seq<bool>, failed: bool)
    ensures TrailingFailures(outcomes + [failed]) == if failed then 1 + TrailingFailures(outcomes) else 0
  {
    assert (outcomes + [failed])[..|outcomes|] == outcomes;
  }

  lemma ActKeeps(c: Config, r: Run, a: Action)
    requires Usable(c) && Inv(c, r) && r.clock <= a.now
    ensures Inv(c, Act(c, r, a))
  {
    hide TrailingFailures;
    if a.Report? { TrailingAppend(r.outcomes, a.failed); }
  }

  /** The invariant holds at every point of every run. */
  lemma {:induction false} RunKeeps(c: Config, start: int, actions: seq<Action>)
    requires Usable(c) && ClockAdvances(start, actions)
    ensures Inv(c, RunOf(c, start, actions))
    ensures RunOf(c, start, actions).clock == if actions == [] then start else actions[|actions| - 1].now
  {
    hide Inv;
    if actions == [] {
      FreshInv(c, start);
    } else {
      var before, last := actions[..|actions| - 1], actions[|actions| - 1];
      RunKeeps(c, start, before);
      ActKeeps(c, RunOf(c, start, before), last);
    }
  }

  lemma FreshInv(c: Config, start: int)
    requires Usable(c)
    ensures Inv(c, Run(FRESH, [], [], start, 0))
  {}

  /** Whether a run's next call would be let through. */
  predicate Admits(c: Config, r: Run, now: int) {
    Refreshed(c, r.gauge, now).mode != Open
  }

  /**
   At every admission of every run, all earlier trips lie at least a cool-down back, whatever
   outcomes came in late; and a call is denied exactly while the breaker is open and the cool-down of its last
   trip is not over.
   */
  lemma AdmissionsRespectCooldown(c: Config, start: int, actions: seq<Action>, now: int)
    requires Usable(c) && ClockAdvances(start, actions + [Ask(now)])
    ensures var r := RunOf(c, start, actions);
      && (Admits(c, r, now) ==> forall i :: 0 <= i < |r.trips| ==> r.trips[i] + c.cooldown <= now)
      && (r.trips != [] && now < r.trips[|r.trips| - 1] + c.cooldown ==> Refreshed(c, r.gauge, now).mode == Open)
      && (!Admits(c, r, now) <==>
            r.gauge.mode == Open && r.trips != [] && now < r.trips[|r.trips| - 1] + c.cooldown)
  {
    hide RunOf, TrailingFailures;
    ClockOfPrefix(start, actions, now);
    RunKeeps(c, start, actions);
    var r := RunOf(c, start, actions);
    forall i | 0 <= i < |r.trips| ensures r.trips[i] <= r.trips[|r.trips| - 1] {
      TripsSpread(c, r, i, |r.trips| - 1);
    }
  }

  lemma ClockOfPrefix(start: int, actions: seq<Action>, now: int)
    requires ClockAdvances(start, actions + [Ask(now)])
    ensures ClockAdvances(start, actions)
    ensures (if actions == [] then start else actions[|actions| - 1].now) <= now
  {
    var all := actions + [Ask(now)];
    assert forall i :: 0 <= i < |actions| ==> actions[i] == all[i];
    assert all[|actions|].now == now;
  }

  /** j - i trips later is at least j - i cool-downs later. */
  lemma {:induction false} TripsSpread(c: Config, r: Run, i: nat, j: nat)
    requires Usable(c) && Inv(c, r) && i <= j < |r.trips|
    ensures r.trips[i] + (j - i) * c.cooldown <= r.trips[j]
    ensures r.trips[i] <= r.trips[j]
    decreases j
  {
    if i < j {
      TripsSpread(c, r, i, j - 1);
      assert (j - i) * c.cooldown == (j - 1 - i) * c.cooldown + c.cooldown;
    }
  }

  /** Any stretch of a run holding n trips lasts at least n - 1 cool-downs. */
  lemma TripRate(c: Config, start: int, actions: seq<Action>, from: nat, n: nat, span: int)
    requires Usable(c) && ClockAdvances(start, actions) && n >= 1
    requires from + n <= |RunOf(c, start, actions).trips|
    requires RunOf(c, start, actions).trips[from + n - 1] - RunOf(c, start, actions).trips[from] <= span
    ensures (n - 1) * c.cooldown <= span
  {
    hide RunOf, Inv;
    RunKeeps(c, start, actions);
    TripsSpread(c, RunOf(c, start, actions), from, from + n - 1);
  }

  /** While closed, an outcome trips the breaker exactly when it completes a full run of consecutive failures. */
  lemma TripsOnThreshold(c: Config, start: int, actions: seq<Action>, failed: bool, now: int)
    requires Usable(c) && ClockAdvances(start, actions) && RunOf(c, start, actions).gauge.mode == Closed
    ensures var r := RunOf(c, start, actions);
      var r' := Act(c, r, Report(failed, now));
      && (r'.trips != r.trips <==> TrailingFailures(r.outcomes + [failed]) == c.failureThreshold)
      && (r'.trips != r.trips ==>
            r'.trips == r.trips + [now] && r'.gauge == Gauge(Open, 0, r.gauge.halfOpenSuccess, now))
      && (r'.trips == r.trips ==> r'.gauge.mode == Closed)
  {
    hide RunOf, TrailingFailures;
    RunKeeps(c, start, actions);
    TrailingAppend(RunOf(c, start, actions).outcomes, failed);
  }

  // ---------------------------------------------------------------- recovery

  /**
   While half-open, only successes have been reported since half-open was entered; one more closes the breaker,
   with its failures forgotten, exactly when it completes the threshold, and a failure always trips it.
   */
  lemma ClosesOnThreshold(c: Config, start: int, actions: seq<Action>, failed: bool, now: int)
    requires Usable(c) && ClockAdvances(start, actions) && RunOf(c, start, actions).gauge.mode == HalfOpen
    ensures var r := RunOf(c, start, actions);
      var r' := Act(c, r, Report(failed, now));
      && r.probing <= |r.outcomes| && (forall i :: r.probing <= i < |r.outcomes| ==> !r.outcomes[i])
      && (r'.gauge.mode == Closed <==> !failed && |r.outcomes| - r.probing + 1 == c.successThreshold)
      && (r'.gauge.mode == HalfOpen <==> !failed && |r.outcomes| - r.probing + 1 < c.successThreshold)
      && (r'.gauge.mode == Open <==> failed)
      && (r'.gauge.mode == Closed ==> r'.gauge.failures == 0)
      && (failed ==> r'.trips == r.trips + [now] && r'.gauge.openedAt == now && r'.gauge.failures == 0)
  {
    hide RunOf, TrailingFailures;
    RunKeeps(c, start, actions);
  }

  /** Half-open begins when a call or an observer looks at an open breaker after its cool-down, and only then. */
  lemma HalfOpenBegins(c: Config, start: int, actions: seq<Action>, a: Action)
    requires Usable(c) && ClockAdvances(start, actions) && RunOf(c, start, actions).gauge.mode != HalfOpen
    ensures var r := RunOf(c, start, actions);
      var r' := Act(c, r, a);
      && (r'.gauge.mode == HalfOpen <==>
            !a.Report? && r.gauge.mode == Open && r.trips != [] && r.trips[|r.trips| - 1] + c.cooldown <= a.now)
      && (r'.gauge.mode == HalfOpen ==> r'.probing == |r'.outcomes|)
  {
    hide RunOf, TrailingFailures;
    RunKeeps(c, start, actions);
  }

  function Successes(n: nat, now: int): seq<Action> {
    seq(n, _ => Report(false, now))
  }

  lemma {:induction false} SuccessesCount(c: Config, start: int, actions: seq<Action>, now: int, n: nat)
    requires Usable(c) && RunOf(c, start, actions).gauge.mode == HalfOpen
    requires RunOf(c, start, actions).gauge.halfOpenSuccess == 0 && n <= c.successThreshold
    ensures var g := RunOf(c, start, actions + Successes(n, now)).gauge;
      if n < c.successThreshold then g.mode == HalfOpen && g.halfOpenSuccess == n
      else g.mode == Closed && g.failures == 0
  {
    var all := actions + Successes(n, now);
    if n == 0 {
      assert all == actions;
    } else {
      SuccessesCount(c, start, actions, now, n - 1);
      assert all[..|all| - 1] == actions + Successes(n - 1, now);
    }
  }

  /** Under every configuration a run trips, becomes half-open and closes again. */
  lemma Recovers(c: Config, start: int) returns (actions: seq<Action>)
    requires Usable(c)
    ensures ClockAdvances(start, actions) && RunOf(c, start, actions).trips != []
    ensures RunOf(c, start, actions).gauge.mode == Closed && RunOf(c, start, actions).gauge.failures == 0
  {
    hide RunOf;
    var probing := HalfOpenIsReached(c, start);
    var late := if probing == [] then start else probing[|probing| - 1].now;
    actions := probing + Successes(c.successThreshold, late);
    SuccessesCount(c, start, probing, late, c.successThreshold);
    assert forall i :: 0 <= i < |actions| ==> actions[i].now == if i < |probing| then probing[i].now else late;
    RunKeeps(c, start, probing);
    TripsGrow(c, start, probing, Successes(c.successThreshold, late));
  }

  lemma {:induction false} TripsGrow(c: Config, start: int, actions: seq<Action>, more: seq<Action>)
    ensures RunOf(c, start, actions).trips <= RunOf(c, start, actions + more).trips
  {
    if more == [] {
      assert actions + more == actions;
    } else {
      TripsGrow(c, start, actions, more[..|more| - 1]);
      assert (actions + more)[..|actions + more| - 1] == actions + more[..|more| - 1];
    }
  }

  // ---------------------------------------------------------------- probing

  /** Calls let through along a run. */
  function Admitted(c: Config, start: int, actions: seq<Action>): nat {
    if actions == [] then 0
    else
      var before, last := actions[..|actions| - 1], actions[|actions| - 1];
      Admitted(c, start, before) + if last.Ask? && Admits(c, RunOf(c, start, before), last.now) then 1 else 0
  }

  /** Calls that ask along a stretch of a run. */
  function Asked(actions: seq<Action>): nat {
    if actions == [] then 0
    else Asked(actions[..|actions| - 1]) + if actions[|actions| - 1].Ask? then 1 else 0
  }

  /** Until an outcome is reported, a half-open breaker lets through every call that asks, and stays as it is. */
  lemma {:induction false} HalfOpenAdmitsAll(c: Config, start: int, actions: seq<Action>, more: seq<Action>)
    requires RunOf(c, start, actions).gauge.mode == HalfOpen
    requires forall i :: 0 <= i < |more| ==> !more[i].Report?
    ensures RunOf(c, start, actions + more).gauge == RunOf(c, start, actions).gauge
    ensures Admitted(c, start, actions + more) == Admitted(c, start, actions) + Asked(more)
  {
    if more == [] {
      assert actions + more == actions;
    } else {
      var before := more[..|more| - 1];
      HalfOpenAdmitsAll(c, start, actions, before);
      assert (actions + more)[..|actions + more| - 1] == actions + before;
    }
  }

  /**
   Half-open is documented as a single probe. From every half-open point of every run, at most one call
   gets through before the next outcome exactly when at most one call asks: the breaker itself reserves nothing.
   */
  lemma SingleProbeExactly(c: Config, start: int, actions: seq<Action>, more: seq<Action>)
    requires RunOf(c, start, actions).gauge.mode == HalfOpen
    requires forall i :: 0 <= i < |more| ==> !more[i].Report?
    ensures Admitted(c, start, actions + more) - Admitted(c, start, actions) <= 1 <==> Asked(more) <= 1
  {
    hide RunOf, Admitted, Asked;
    HalfOpenAdmitsAll(c, start, actions, more);
  }

  function Failures(n: nat, now: int): seq<Action> {
    seq(n, _ => Report(true, now))
  }

  lemma {:induction false} FailuresCount(c: Config, start: int, n: nat)
    requires Usable(c) && n <= c.failureThreshold
    ensures var g := RunOf(c, start, Failures(n, start)).gauge;
      if n < c.failureThreshold then g == Gauge(Closed, n, 0, 0) else g == Gauge(Open, 0, 0, start)
  {
    if n > 0 {
      FailuresCount(c, start, n - 1);
      assert Failures(n, start)[..n - 1] == Failures(n - 1, start);
    }
  }

  /** Under every configuration a half-open point is reached: enough failures, then a call after the cool-down. */
  lemma HalfOpenIsReached(c: Config, start: int) returns (actions: seq<Action>)
    requires Usable(c)
    ensures ClockAdvances(start, actions) && RunOf(c, start, actions).gauge.mode == HalfOpen
    ensures RunOf(c, start, actions).gauge.halfOpenSuccess == 0
  {
    var failures := Failures(c.failureThreshold, start);
    FailuresCount(c, start, c.failureThreshold);
    actions := failures + [Ask(start + c.cooldown)];
    assert actions[..|actions| - 1] == failures;
  }

  /** So under every configuration and for every n, some run has n calls let through before any outcome is known. */
  lemma HalfOpenAdmitsMany(c: Config, start: int, n: nat) returns (actions: seq<Action>, more: seq<Action>)
    requires Usable(c)
    ensures ClockAdvances(start, actions + more) && RunOf(c, start, actions).gauge.mode == HalfOpen
    ensures forall i :: 0 <= i < |more| ==> more[i].Ask?
    ensures Admitted(c, start, actions + more) == Admitted(c, start, actions) + n
  {
    hide RunOf, Admitted;
    actions := HalfOpenIsReached(c, start);
    var late := if actions == [] then start else actions[|actions| - 1].now;
    more := seq(n, _ => Ask(late));
    AskedAll(late, n);
    HalfOpenAdmitsAll(c, start, actions, more);
    var all := actions + more;
    assert forall i :: 0 <= i < |all| ==> all[i] == if i < |actions| then actions[i] else Ask(late);
  }

  lemma {:induction false} AskedAll(now: int, n: nat)
    ensures Asked(seq(n, _ => Ask(now))) == n
  {
    if n > 0 {
      var asks: seq<Action> := seq(n, _ => Ask(now));
      assert asks[..n - 1] == seq(n - 1, _ => Ask(now));
      AskedAll(now, n - 1);
    }
  }
}
