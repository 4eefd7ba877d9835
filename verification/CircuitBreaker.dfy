/**
 * The per-provider circuit breaker: a sliding window of outcomes, a quarantine with one probe, and retries
 * with exponential backoff. Calls interleave freely between their admission and their outcome.
 */
module CircuitBreaker {
  import opened Common

  datatype Settings = Settings(
    window: nat, failureThreshold: nat, failureRate: real, resetSeconds: real,
    retryAttempts: nat, backoffSeconds: real, backoffMaxSeconds: real)
  {
    ghost predicate Valid() {
      window >= 2 && failureThreshold >= 1 && 0.0 <= failureRate <= 1.0 && resetSeconds >= 1.0
      && backoffSeconds > 0.0 && backoffMaxSeconds > 0.0
    }
  }

  /** `outcomes` lists the recent calls, oldest first; `true` is a success. */
  datatype Circuit = Circuit(failures: nat, openedAt: Option<real>, halfOpen: bool, outcomes: seq<bool>)

  const CLOSED := Circuit(0, None, false, [])

  function FailureCount(outcomes: seq<bool>): (n: nat)
    ensures n <= |outcomes|
  {
    if outcomes == [] then 0 else (if outcomes[0] then 0 else 1) + FailureCount(outcomes[1..])
  }

  /** The newest `window` outcomes. */
  function Newest(outcomes: seq<bool>, window: nat): seq<bool> {
    if |outcomes| > window then outcomes[|outcomes| - window..] else outcomes
  }

  function FailureRate(failed: nat, n: nat): real {
    if n > 0 then failed as real / n as real else 0.0
  }

  /** The window is bad enough to open the circuit. */
  predicate Trips(cfg: Settings, outcomes: seq<bool>) {
    || FailureCount(outcomes) >= cfg.failureThreshold
    || (|outcomes| >= (if cfg.window < 5 then cfg.window else 5) && FailureRate(FailureCount(outcomes), |outcomes|) >= cfg.failureRate)
  }

  datatype Refusal = CircuitOpen | ProbeInFlight

  function Before(cfg: Settings, c: Circuit, now: real): Result<Circuit, Refusal> {
    if c.openedAt.None? then Ok(c)
    else if now - c.openedAt.value < cfg.resetSeconds then Err(CircuitOpen)
    else if c.halfOpen then Err(ProbeInFlight)
    else Ok(c.(halfOpen := true))
  }

  function Succeeded(cfg: Settings, c: Circuit): Circuit {
    var outcomes := if c.halfOpen then [] else Newest(c.outcomes + [true], cfg.window);
    Circuit(FailureCount(outcomes), None, false, outcomes)
  }

  function Failed(cfg: Settings, c: Circuit, now: real): Circuit {
    var outcomes := Newest(c.outcomes + [false], cfg.window);
    Circuit(FailureCount(outcomes), if Trips(cfg, outcomes) then Some(now) else c.openedAt, false, outcomes)
  }

  // ----- the invariant of one circuit -------------------------------------------------------------

  ghost predicate CircuitInv(cfg: Settings, c: Circuit) {
    && |c.outcomes| <= cfg.window
    && c.failures == FailureCount(c.outcomes)
    && (c.halfOpen ==> c.openedAt.Some?)
    && (c.openedAt.Some? ==> Trips(cfg, c.outcomes))
  }

  lemma {:induction false} FailureCountAppend(outcomes: seq<bool>, ok: bool)
    ensures FailureCount(outcomes + [ok]) == FailureCount(outcomes) + if ok then 0 else 1
  {
    if outcomes != [] {
      assert (outcomes + [ok])[1..] == outcomes[1..] + [ok];
      FailureCountAppend(outcomes[1..], ok);
    }
  }

  /** Another failure, even if it pushes the oldest outcome out, never makes a bad window good. */
  lemma FailureKeepsTripped(cfg: Settings, outcomes: seq<bool>)
    requires cfg.Valid() && |outcomes| <= cfg.window && Trips(cfg, outcomes)
    ensures Trips(cfg, Newest(outcomes + [false], cfg.window))
  {
    var next := Newest(outcomes + [false], cfg.window);
    var f, n := FailureCount(outcomes), |outcomes|;
    FailureCountAppend(outcomes, false);
    if n == cfg.window {
      assert outcomes + [false] == [outcomes[0]] + next;
      assert FailureCount(next) >= f && |next| == n;
      RateGrows(f, n, FailureCount(next), n);
    } else {
      assert next == outcomes + [false];
      RateGrows(f, n, f + 1, n + 1);
    }
  }

  lemma RateGrows(f: nat, n: nat, f': nat, n': nat)
    requires 0 < n && f <= n
    requires (n' == n && f' >= f) || (n' == n + 1 && f' == f + 1)
    ensures f' as real / n' as real >= f as real / n as real
  {
    var a, b, a', b' := f as real, n as real, f' as real, n' as real;
    assert a' * b >= a * b' by {
      if n' == n {
        MulMono(a, a', b);
      } else {
        assert a' * b == a * b + b && a * b' == a * b + a;
      }
    }
    assert a' / b' - a / b == (a' * b - a * b') / (b * b') by { FractionDifference(a, b, a', b'); }
  }

  lemma MulMono(x: real, y: real, z: real)
    requires x <= y && z >= 0.0
    ensures x * z <= y * z
  {
  }

  lemma FractionDifference(a: real, b: real, a': real, b': real)
    requires b > 0.0 && b' > 0.0
    ensures b * b' > 0.0 && a' / b' - a / b == (a' * b - a * b') / (b * b')
  {
    var x, y := a' / b', a / b;
    assert a' == x * b' && a == y * b;
    assert a' * b - a * b' == (x - y) * (b * b');
  }

  lemma CircuitInvKept(cfg: Settings, c: Circuit, now: real)
    requires cfg.Valid() && CircuitInv(cfg, c)
    ensures Before(cfg, c, now).Ok? ==> CircuitInv(cfg, Before(cfg, c, now).value)
    ensures CircuitInv(cfg, Succeeded(cfg, c))
    ensures CircuitInv(cfg, Failed(cfg, c, now))
  {
    if c.openedAt.Some? {
      FailureKeepsTripped(cfg, c.outcomes);
    }
  }

  /** Any failure while the circuit is open, so in particular a failed probe, restarts the quarantine. */
  lemma FailureWhileOpenRestarts(cfg: Settings, c: Circuit, now: real)
    requires cfg.Valid() && CircuitInv(cfg, c) && c.openedAt.Some?
    ensures Failed(cfg, c, now).openedAt == Some(now) && !Failed(cfg, c, now).halfOpen
    ensures forall later: real :: later < now + cfg.resetSeconds ==> Before(cfg, Failed(cfg, c, now), later) == Err(CircuitOpen)
  {
    FailureKeepsTripped(cfg, c.outcomes);
  }

  // ----- interleaved calls ----------------------------------------------------------------------------

  /** `plain` calls were admitted by a closed circuit, `probes` by an open one; all are still in flight. */
  datatype World = World(circuit: Circuit, plain: nat, probes: nat) {
    function Leave(probe: bool): World
      requires if probe then probes > 0 else plain > 0
    {
      if probe then this.(probes := probes - 1) else this.(plain := plain - 1)
    }

    predicate HasCall(probe: bool) {
      if probe then probes > 0 else plain > 0
    }
  }

  datatype Action =
    | Begin(now: real)
    | EndOk(probe: bool)
    | EndFailed(probe: bool, now: real)
    | EndCancelled(probe: bool)  // `execute` re-raises without reporting

  ghost predicate Next(cfg: Settings, w: World, a: Action, w': World) {
    match a
    case Begin(now) =>
      (match Before(cfg, w.circuit, now)
       case Err(_) => w' == w
       case Ok(c) => w' == if c.halfOpen then World(c, w.plain, w.probes + 1) else World(c, w.plain + 1, w.probes))
    case EndOk(probe) =>
      w.HasCall(probe) && w' == w.Leave(probe).(circuit := Succeeded(cfg, w.circuit))
    case EndFailed(probe, now) =>
      w.HasCall(probe) && w' == w.Leave(probe).(circuit := Failed(cfg, w.circuit, now))
    case EndCancelled(probe) =>
      w.HasCall(probe) && w' == w.Leave(probe)
  }

  ghost predicate Run(cfg: Settings, states: seq<World>, actions: seq<Action>) {
    && |states| == |actions| + 1
    && forall i :: 0 <= i < |actions| ==> Next(cfg, states[i], actions[i], states[i + 1])
  }

  const START := World(CLOSED, 0, 0)

  /** In every reachable state, cancelled calls or not, the circuit invariant holds. */
  lemma {:induction false} RunCircuitInv(cfg: Settings, states: seq<World>, actions: seq<Action>, i: nat)
    requires cfg.Valid() && Run(cfg, states, actions) && states[0] == START && i < |states|
    ensures CircuitInv(cfg, states[i].circuit)
  {
    if i > 0 {
      RunCircuitInv(cfg, states, actions, i - 1);
      assert Next(cfg, states[i - 1], actions[i - 1], states[i]);
      match actions[i - 1]
      case Begin(now) => CircuitInvKept(cfg, states[i - 1].circuit, now);
      case EndFailed(_, now) => CircuitInvKept(cfg, states[i - 1].circuit, now);
      case _ => CircuitInvKept(cfg, states[i - 1].circuit, 0.0);
    }
  }

  /** Without cancelled calls a half-open circuit always has a probe in flight that will settle it. */
  lemma {:induction false} HalfOpenHasProbe(cfg: Settings, states: seq<World>, actions: seq<Action>, i: nat)
    requires cfg.Valid() && Run(cfg, states, actions) && states[0] == START && i < |states|
    requires forall a :: a in actions ==> !a.EndCancelled?
    ensures states[i].circuit.halfOpen ==> states[i].probes > 0
  {
    if i > 0 {
      HalfOpenHasProbe(cfg, states, actions, i - 1);
      RunCircuitInv(cfg, states, actions, i - 1);
      assert Next(cfg, states[i - 1], actions[i - 1], states[i]);
      assert actions[i - 1] in actions;
    }
  }

  ghost predicate AdmitsAt(cfg: Settings, states: seq<World>, actions: seq<Action>, i: nat)
    requires i < |actions| && |states| == |actions| + 1
  {
    actions[i].Begin? && Before(cfg, states[i].circuit, actions[i].now).Ok?
  }

  /**
   * Quarantine over whole runs: after an opening at time t, and until some call succeeds, no call is
   * admitted before t + reset, whatever late failures and cancellations come in.
   */
  lemma {:induction false} NothingAdmittedInQuarantine(cfg: Settings, states: seq<World>, actions: seq<Action>, i: nat, j: nat, t: real)
    requires cfg.Valid() && Run(cfg, states, actions) && states[0] == START && i <= j < |actions|
    requires states[i].circuit.openedAt == Some(t)
    requires forall m :: i <= m < j ==> !actions[m].EndOk? && (actions[m].EndFailed? ==> actions[m].now >= t)
    requires actions[j].Begin? && actions[j].now < t + cfg.resetSeconds
    ensures !AdmitsAt(cfg, states, actions, j)
  {
    StaysOpen(cfg, states, actions, i, j, t);
  }

  lemma {:induction false} StaysOpen(cfg: Settings, states: seq<World>, actions: seq<Action>, i: nat, j: nat, t: real)
    requires cfg.Valid() && Run(cfg, states, actions) && states[0] == START && i <= j < |states|
    requires states[i].circuit.openedAt == Some(t)
    requires forall m :: i <= m < j ==> !actions[m].EndOk? && (actions[m].EndFailed? ==> actions[m].now >= t)
    ensures states[j].circuit.openedAt.Some? && states[j].circuit.openedAt.value >= t
  {
    if i < j {
      StaysOpen(cfg, states, actions, i, j - 1, t);
      assert Next(cfg, states[j - 1], actions[j - 1], states[j]);
    }
  }

  // ----- the window over a run ------------------------------------------------------------------------

  /** The outcomes reported in the first `i` steps since the last successful probe. */
  function Reported(states: seq<World>, actions: seq<Action>, i: nat): seq<bool>
    requires i <= |actions| < |states|
  {
    if i == 0 then []
    else
      match actions[i - 1]
      case EndOk(_) => if states[i - 1].circuit.halfOpen then [] else Reported(states, actions, i - 1) + [true]
      case EndFailed(_, _) => Reported(states, actions, i - 1) + [false]
      case _ => Reported(states, actions, i - 1)
  }

  /** `part` is what a window of the given size sees of `all`: the newest outcomes, or all of them. */
  ghost predicate WindowOf(part: seq<bool>, all: seq<bool>, window: nat) {
    && |part| == (if |all| < window then |all| else window)
    && part == all[|all| - |part|..]
  }

  lemma WindowSlides(part: seq<bool>, all: seq<bool>, window: nat, ok: bool)
    requires WindowOf(part, all, window)
    ensures WindowOf(Newest(part + [ok], window), all + [ok], window)
  {
    var more := all + [ok];
    assert more[|all| - |part|..] == part + [ok];
    if |part| == window {
      assert more[|more| - window..] == more[|all| - |part|..][1..];
    }
  }

  /** In every reachable state the circuit holds exactly the newest reported outcomes, oldest first. */
  lemma {:induction false} WindowHoldsNewest(cfg: Settings, states: seq<World>, actions: seq<Action>, i: nat)
    requires cfg.Valid() && Run(cfg, states, actions) && states[0] == START && i < |states|
    ensures WindowOf(states[i].circuit.outcomes, Reported(states, actions, i), cfg.window)
  {
    if i > 0 {
      WindowHoldsNewest(cfg, states, actions, i - 1);
      assert Next(cfg, states[i - 1], actions[i - 1], states[i]);
      var outcomes, all := states[i - 1].circuit.outcomes, Reported(states, actions, i - 1);
      WindowSlides(outcomes, all, cfg.window, actions[i - 1].EndOk?);
    }
  }

  /** The newest outcomes of a list contain at least `count` failures. */
  ghost predicate AllFailed(all: seq<bool>, count: nat) {
    count <= |all| && forall i :: |all| - count <= i < |all| ==> !all[i]
  }

  lemma {:induction false} CountFailures(outcomes: seq<bool>, count: nat)
    requires AllFailed(outcomes, count)
    ensures FailureCount(outcomes) >= count
  {
    if |outcomes| > count {
      CountFailures(outcomes[1..], count);
    } else if count > 0 {
      assert !outcomes[0];
      CountFailures(outcomes[1..], count - 1);
    }
  }

  /** How many of the steps from `i` to `j` report a failure. */
  function FailuresBetween(actions: seq<Action>, i: nat, j: nat): nat
    requires i <= j <= |actions|
  {
    if i == j then 0 else FailuresBetween(actions, i, j - 1) + if actions[j - 1].EndFailed? then 1 else 0
  }

  lemma {:induction false} FailuresAreNewest(states: seq<World>, actions: seq<Action>, i: nat, j: nat)
    requires i <= j <= |actions| < |states| && forall m :: i <= m < j ==> !actions[m].EndOk?
    ensures AllFailed(Reported(states, actions, j), FailuresBetween(actions, i, j))
  {
    if i < j {
      FailuresAreNewest(states, actions, i, j - 1);
    }
  }

  /**
   * From every reachable state, whatever else begins, is refused or is cancelled in between: as many failures
   * as the threshold without a success leave the circuit open.
   */
  lemma ConsecutiveFailuresOpen(cfg: Settings, states: seq<World>, actions: seq<Action>, i: nat, j: nat)
    requires cfg.Valid() && Run(cfg, states, actions) && states[0] == START && i <= j <= |actions|
    requires forall m :: i <= m < j ==> !actions[m].EndOk?
    requires FailuresBetween(actions, i, j) >= cfg.failureThreshold && cfg.failureThreshold <= cfg.window
    ensures states[j].circuit.openedAt.Some?
  {
    var m := LastFailure(actions, i, j);
    assert Next(cfg, states[m], actions[m], states[m + 1]);
    FailuresAreNewest(states, actions, i, m + 1);
    WindowHoldsNewest(cfg, states, actions, m + 1);
    CountFailures(states[m + 1].circuit.outcomes, cfg.failureThreshold);
    OpenUntilSuccess(cfg, states, actions, m + 1, j);
  }

  lemma {:induction false} LastFailure(actions: seq<Action>, i: nat, j: nat) returns (m: nat)
    requires i <= j <= |actions| && FailuresBetween(actions, i, j) > 0
    ensures i <= m < j && actions[m].EndFailed? && FailuresBetween(actions, i, m + 1) == FailuresBetween(actions, i, j)
  {
    if actions[j - 1].EndFailed? {
      m := j - 1;
    } else {
      m := LastFailure(actions, i, j - 1);
    }
  }

  lemma {:induction false} OpenUntilSuccess(cfg: Settings, states: seq<World>, actions: seq<Action>, i: nat, j: nat)
    requires cfg.Valid() && Run(cfg, states, actions) && i <= j < |states|
    requires states[i].circuit.openedAt.Some? && forall m :: i <= m < j ==> !actions[m].EndOk?
    ensures states[j].circuit.openedAt.Some?
  {
    if i < j {
      OpenUntilSuccess(cfg, states, actions, i, j - 1);
      assert Next(cfg, states[j - 1], actions[j - 1], states[j]);
    }
  }

  /** The places of the failures among the newest `n` of `all`. */
  function FailedPlaces(all: seq<bool>, n: nat): set<int>
    requires n <= |all|
  {
    set i | |all| - n <= i < |all| && !all[i]
  }

  lemma {:induction false} CountIsPlaces(part: seq<bool>, all: seq<bool>, window: nat)
    requires WindowOf(part, all, window)
    ensures FailureCount(part) == |FailedPlaces(all, |part|)|
  {
    PlacesOfSuffix(all, |part|);
    assert part == all[|all| - |part|..];
  }

  lemma {:induction false} PlacesOfSuffix(all: seq<bool>, n: nat)
    requires n <= |all|
    ensures FailureCount(all[|all| - n..]) == |FailedPlaces(all, n)|
  {
    if n > 0 {
      PlacesOfSuffix(all, n - 1);
      var first := |all| - n;
      assert all[first..][1..] == all[first + 1..];
      assert FailedPlaces(all, n) == FailedPlaces(all, n - 1) + if all[first] then {} else {first};
    }
  }

  /**
   * Exactly when a reported failure opens the circuit: the newest outcomes, up to the window size and with the
   * failure itself, contain the threshold of failures, or there are at least five of them (or a window full)
   * and the failures among them reach the rate.
   */
  lemma FailureOpensIff(cfg: Settings, states: seq<World>, actions: seq<Action>, i: nat)
    requires cfg.Valid() && Run(cfg, states, actions) && states[0] == START && i < |actions| && actions[i].EndFailed?
    requires states[i].circuit.openedAt.None?
    ensures var all := Reported(states, actions, i) + [false];
      var n := if |all| < cfg.window then |all| else cfg.window;
      var failed := |FailedPlaces(all, n)|;
      states[i + 1].circuit.openedAt.Some? <==>
      failed >= cfg.failureThreshold || ((n >= 5 || n >= cfg.window) && failed as real >= Share(cfg.failureRate, n))
  {
    var outcomes := states[i + 1].circuit.outcomes;
    WindowHoldsNewest(cfg, states, actions, i + 1);
    FailureOpens(cfg, states[i], actions[i], states[i + 1], states, actions, i);
    CountIsPlaces(outcomes, Reported(states, actions, i) + [false], cfg.window);
    TripsIff(cfg, outcomes);
    hide FailedPlaces, Trips, Reported, Run, Next, FailureCount, Share;
  }

  lemma FailureOpens(cfg: Settings, w: World, a: Action, w': World, states: seq<World>, actions: seq<Action>, i: nat)
    requires Run(cfg, states, actions) && i < |actions| && w == states[i] && a == actions[i] && w' == states[i + 1]
    requires a.EndFailed? && w.circuit.openedAt.None?
    ensures w'.circuit.openedAt.Some? <==> Trips(cfg, w'.circuit.outcomes)
    ensures Reported(states, actions, i + 1) == Reported(states, actions, i) + [false]
  {
    assert Next(cfg, w, a, w');
    hide Trips, Newest, FailureCount;
  }

  lemma TripsIff(cfg: Settings, outcomes: seq<bool>)
    requires cfg.Valid() && outcomes != []
    ensures var n, failed := |outcomes|, FailureCount(outcomes);
      Trips(cfg, outcomes) <==>
      failed >= cfg.failureThreshold || ((n >= 5 || n >= cfg.window) && failed as real >= Share(cfg.failureRate, n))
  {
    hide FailureCount, FailureRate, Share;
    RateIff(FailureCount(outcomes), |outcomes|, cfg.failureRate);
  }

  /** That share of `n` outcomes. */
  function Share(rate: real, n: nat): real {
    rate * n as real
  }

  lemma RateIff(failed: nat, n: nat, rate: real)
    requires n > 0
    ensures FailureRate(failed, n) >= rate <==> failed as real >= Share(rate, n)
  {
    var q, x := failed as real / n as real, n as real;
    assert q * x == failed as real;
    if q >= rate {
      MulMono(rate, q, x);
    } else {
      ProductPositive(rate - q, x);
      assert (rate - q) * x == rate * x - q * x;
    }
  }

  // ----- the cancelled probe ---------------------------------------------------------------------------

  /** A schedule from `w` that gets a call admitted. */
  ghost predicate CanAdmit(cfg: Settings, w: World) {
    exists states: seq<World>, actions: seq<Action> ::
      Run(cfg, states, actions) && states[0] == w && |actions| > 0 && AdmitsAt(cfg, states, actions, |actions| - 1)
  }

  lemma {:induction false} StuckStays(cfg: Settings, states: seq<World>, actions: seq<Action>, i: nat)
    requires Run(cfg, states, actions) && i < |states|
    requires states[0].circuit.halfOpen && states[0].circuit.openedAt.Some? && states[0].plain == states[0].probes == 0
    ensures states[i] == states[0]
  {
    if i > 0 {
      StuckStays(cfg, states, actions, i - 1);
      assert Next(cfg, states[i - 1], actions[i - 1], states[i]);
    }
  }

  /**
   * A provider is locked out for good exactly when its circuit is half-open and no call is left in flight,
   * which is what cancelling a lone probe leaves behind.
   */
  lemma LockedOutIff(cfg: Settings, w: World)
    requires cfg.Valid() && CircuitInv(cfg, w.circuit)
    ensures !CanAdmit(cfg, w) <==> w.circuit.halfOpen && w.plain == 0 && w.probes == 0
  {
    if w.circuit.halfOpen && w.plain == 0 && w.probes == 0 {
      if CanAdmit(cfg, w) {
        var states: seq<World>, actions: seq<Action> :|
          Run(cfg, states, actions) && states[0] == w && |actions| > 0 && AdmitsAt(cfg, states, actions, |actions| - 1);
        StuckStays(cfg, states, actions, |actions| - 1);
        assert false;
      }
    } else if w.circuit.halfOpen {
      var a := EndOk(w.probes > 0);
      var w1 := w.Leave(w.probes > 0).(circuit := Succeeded(cfg, w.circuit));
      var w2 := World(w1.circuit, w1.plain + 1, w1.probes);
      var states, actions := [w, w1, w2], [a, Begin(0.0)];
      assert Next(cfg, w, a, w1) && Next(cfg, w1, Begin(0.0), w2);
      assert Run(cfg, states, actions) && AdmitsAt(cfg, states, actions, 1);
    } else {
      var now := if w.circuit.openedAt.Some? then w.circuit.openedAt.value + cfg.resetSeconds else 0.0;
      var c := Before(cfg, w.circuit, now).value;
      var w1 := if c.halfOpen then World(c, w.plain, w.probes + 1) else World(c, w.plain + 1, w.probes);
      var states, actions := [w, w1], [Begin(now)];
      assert Next(cfg, w, Begin(now), w1);
      assert Run(cfg, states, actions) && AdmitsAt(cfg, states, actions, 0);
    }
  }

  ghost predicate Reached(cfg: Settings, w: World) {
    exists states: seq<World>, actions: seq<Action> ::
      Run(cfg, states, actions) && states[0] == START && states[|actions|] == w
  }

  lemma ReachStep(cfg: Settings, w: World, a: Action, w': World)
    requires Reached(cfg, w) && Next(cfg, w, a, w')
    ensures Reached(cfg, w')
  {
    var states: seq<World>, actions: seq<Action> :| Run(cfg, states, actions) && states[0] == START && states[|actions|] == w;
    var states', actions' := states + [w'], actions + [a];
    forall i | 0 <= i < |actions'| ensures Next(cfg, states'[i], actions'[i], states'[i + 1]) {
      if i < |actions| {
        assert Next(cfg, states[i], actions[i], states[i + 1]);
      }
    }
    assert Run(cfg, states', actions') && states'[|actions'|] == w';
  }

  function Failures(n: nat): seq<bool> {
    seq(n, _ => false)
  }

  lemma {:induction false} FailuresCount(n: nat)
    ensures FailureCount(Failures(n)) == n
  {
    if n > 0 {
      FailuresCount(n - 1);
      assert Failures(n)[1..] == Failures(n - 1);
    }
  }

  /** Nothing but failures has happened, and the circuit is still closed. */
  function AfterFailures(n: nat): World {
    World(Circuit(n, None, false, Failures(n)), 0, 0)
  }

  /** Call after call fails until the circuit opens, at the latest when the window is long enough for its rate. */
  lemma {:induction false} FailUntilOpen(cfg: Settings, n: nat) returns (c: Circuit)
    requires cfg.Valid() && Reached(cfg, AfterFailures(n)) && n < 5 && n < cfg.window
    ensures Reached(cfg, World(c, 0, 0)) && c.openedAt == Some(0.0) && !c.halfOpen
    decreases 5 - n
  {
    var w := AfterFailures(n);
    var called := w.(plain := 1);
    c := Failed(cfg, w.circuit, 0.0);
    FailuresCount(n + 1);
    assert w.circuit.outcomes + [false] == Failures(n + 1);
    assert Newest(Failures(n + 1), cfg.window) == Failures(n + 1);
    ReachStep(cfg, w, Begin(0.0), called);
    ReachStep(cfg, called, EndFailed(false, 0.0), World(c, 0, 0));
    if n + 1 >= 5 || n + 1 >= cfg.window {
      WholeWindowTrips(cfg, n + 1);
    }
    if c.openedAt.None? {
      c := FailUntilOpen(cfg, n + 1);
    }
  }

  lemma WholeWindowTrips(cfg: Settings, n: nat)
    requires cfg.Valid() && n >= 1 && (n >= 5 || n >= cfg.window)
    ensures Trips(cfg, Failures(n))
  {
    FailuresCount(n);
    assert n as real / n as real == 1.0;
  }

  /** For every setting: failures open the circuit, a probe is admitted after the quarantine and cancelled. */
  lemma CancelledProbeLocksOut(cfg: Settings) returns (w: World)
    requires cfg.Valid()
    ensures Reached(cfg, w) && w.circuit.halfOpen && w.plain == 0 && w.probes == 0 && !CanAdmit(cfg, w)
  {
    var states: seq<World>, actions: seq<Action> := [START], [];
    assert Run(cfg, states, actions) && states[|actions|] == START;
    assert Failures(0) == [] && AfterFailures(0) == START;
    var c := FailUntilOpen(cfg, 0);
    var probing := World(c.(halfOpen := true), 0, 1);
    w := probing.(probes := 0);
    ReachStep(cfg, World(c, 0, 0), Begin(cfg.resetSeconds), probing);
    ReachStep(cfg, probing, EndCancelled(true), w);
    ReachedInv(cfg, w);
    LockedOutIff(cfg, w);
  }

  lemma ReachedInv(cfg: Settings, w: World)
    requires cfg.Valid() && Reached(cfg, w)
    ensures CircuitInv(cfg, w.circuit)
  {
    var states: seq<World>, actions: seq<Action> :| Run(cfg, states, actions) && states[0] == START && states[|actions|] == w;
    RunCircuitInv(cfg, states, actions, |actions|);
  }

  // ----- the registry and one guarded call ------------------------------------------------------------

  class ProviderResilience {
    const cfg: Settings
    var states: map<string, Circuit>

    constructor (cfg: Settings)
      ensures this.cfg == cfg && states == map[]
    {
      this.cfg := cfg;
      states := map[];
    }

    function State(provider: string): Circuit
      reads this`states
    {
      if provider in states then states[provider] else CLOSED
    }

    method BeforeCall(provider: string, now: real) returns (r: Result<(), Refusal>)
      modifies this`states
      ensures match old(Before(cfg, State(provider), now))
              case Ok(c) => r == Ok(()) && State(provider) == c
              case Err(e) => r == Err(e) && State(provider) == old(State(provider))
      ensures forall p :: p != provider ==> State(p) == old(State(p))
    {
      var c := State(provider);
      states := states[provider := c];
      if c.openedAt.None? {
        return Ok(());
      }
      if now - c.openedAt.value < cfg.resetSeconds {
        return Err(CircuitOpen);
      }
      if c.halfOpen {
        return Err(ProbeInFlight);
      }
      states := states[provider := c.(halfOpen := true)];
      r := Ok(());
    }

    /** Appends an outcome and drops the oldest ones beyond the window. */
    method Push(outcomes: seq<bool>, ok: bool) returns (r: seq<bool>)
      ensures r == Newest(outcomes + [ok], cfg.window)
      ensures |outcomes| <= cfg.window ==> WindowOf(r, outcomes + [ok], cfg.window)
    {
      r := outcomes + [ok];
      while |r| > cfg.window
        invariant Newest(r, cfg.window) == Newest(outcomes + [ok], cfg.window)
      {
        r := r[1..];
      }
    }

    method Success(provider: string)
      modifies this`states
      ensures State(provider) == Succeeded(cfg, old(State(provider)))
      ensures forall p :: p != provider ==> State(p) == old(State(p))
    {
      var c := State(provider);
      var outcomes := [];
      if !c.halfOpen {
        outcomes := Push(c.outcomes, true);
      }
      states := states[provider := Circuit(FailureCount(outcomes), None, false, outcomes)];
    }

    method Failure(provider: string, now: real)
      modifies this`states
      ensures State(provider) == Failed(cfg, old(State(provider)), now)
      ensures forall p :: p != provider ==> State(p) == old(State(p))
    {
      var c := State(provider);
      var outcomes := Push(c.outcomes, false);
      var failures := FailureCount(outcomes);
      var rate := if |outcomes| > 0 then failures as real / |outcomes| as real else 0.0;
      var enough := |outcomes| >= (if cfg.window < 5 then cfg.window else 5);
      var openedAt := c.openedAt;
      if failures >= cfg.failureThreshold || (enough && rate >= cfg.failureRate) {
        openedAt := Some(now);
      }
      states := states[provider := Circuit(failures, openedAt, false, outcomes)];
    }

    /**
     * One guarded call, admitted at `start` and settled at `end`. An admitted call that is not cancelled
     * reports exactly one outcome, success iff its last attempt was answered; a cancelled one leaves the
     * circuit as its admission left it.
     */
    method Execute(provider: string, replies: nat -> Reply, jitter: nat -> real, start: real, end: real)
      returns (r: Outcome, attempts: nat)
      requires cfg.Valid() && forall i :: 0.0 <= jitter(i) <= 1.0
      modifies this`states
      ensures match old(Before(cfg, State(provider), start))
              case Err(e) => r == Refused(e) && attempts == 0 && State(provider) == old(State(provider))
              case Ok(c) =>
                && 1 <= attempts <= cfg.retryAttempts + 1
                && (forall i :: 0 <= i < attempts - 1 ==> replies(i) == Retryable)
                && match replies(attempts - 1)
                   case Answered => r == Returned && State(provider) == Succeeded(cfg, c)
                   case CancelledReply => r == WasCancelled && State(provider) == c
                   case _ => r == Raised && State(provider) == Failed(cfg, c, end)
      ensures forall p :: p != provider ==> State(p) == old(State(p))
    {
      var admitted := BeforeCall(provider, start);
      if admitted.Err? {
        return Refused(admitted.error), 0;
      }
      var report, sleeps;
      report, attempts, sleeps := RetryLoop(cfg, replies, jitter);
      match report {
        case None =>
          r := WasCancelled;
        case Some(true) =>
          Success(provider);
          r := Returned;
        case Some(false) =>
          Failure(provider, end);
          r := Raised;
      }
    }
  }

  /** How a guarded call ends for its caller. */
  datatype Outcome = Refused(reason: Refusal) | Returned | Raised | WasCancelled

  /** How one attempt of the guarded operation ends. */
  datatype Reply = Answered | Retryable | Fatal | CancelledReply

  function Power2(n: nat): real {
    if n == 0 then 1.0 else 2.0 * Power2(n - 1)
  }

  function Backoff(cfg: Settings, attempt: nat): real {
    var grown := cfg.backoffSeconds * Power2(attempt);
    if cfg.backoffMaxSeconds < grown then cfg.backoffMaxSeconds else grown
  }

  function Pause(cfg: Settings, attempt: nat, u: real): real {
    Backoff(cfg, attempt) + u * (Backoff(cfg, attempt) * 0.25)
  }

  /** At least the backoff, at most a quarter more, and bounded by the configured maximum. */
  ghost predicate SoundPause(cfg: Settings, attempt: nat, pause: real) {
    0.0 < Backoff(cfg, attempt) <= pause <= Backoff(cfg, attempt) * 1.25 <= cfg.backoffMaxSeconds * 1.25
  }

  lemma PauseIsSound(cfg: Settings, attempt: nat, u: real)
    requires cfg.Valid() && 0.0 <= u <= 1.0
    ensures SoundPause(cfg, attempt, Pause(cfg, attempt, u))
    ensures u == 0.0 ==> Pause(cfg, attempt, u) == Backoff(cfg, attempt)
    ensures u == 1.0 ==> Pause(cfg, attempt, u) == Backoff(cfg, attempt) * 1.25
  {
    BackoffPositive(cfg, attempt);
    var b := Backoff(cfg, attempt);
    var quarter := b * 0.25;
    MulMono(0.0, u, quarter);
    MulMono(u, 1.0, quarter);
    assert 0.0 <= u * quarter <= quarter;
    assert Pause(cfg, attempt, u) == b + u * quarter && b * 1.25 == b + quarter;
  }

  /**
   * The retry loop of `execute` after admission. `replies` and `jitter` (a fraction of a quarter backoff)
   * are what the provider and the random source do. Every admitted call that is not cancelled reports
   * exactly one outcome: success iff its last attempt was answered, and it stops at the first attempt that
   * is not retryable or at the last one allowed.
   */
  method RetryLoop(cfg: Settings, replies: nat -> Reply, jitter: nat -> real) returns (report: Option<bool>, attempts: nat, sleeps: seq<real>)
    requires cfg.Valid() && forall i :: 0.0 <= jitter(i) <= 1.0
    ensures 1 <= attempts <= cfg.retryAttempts + 1 && |sleeps| == attempts - 1
    ensures forall i :: 0 <= i < attempts - 1 ==> replies(i) == Retryable
    ensures replies(attempts - 1) == Retryable ==> attempts == cfg.retryAttempts + 1
    ensures report == (match replies(attempts - 1)
                       case Answered => Some(true)
                       case CancelledReply => None
                       case _ => Some(false))
    ensures forall i :: 0 <= i < |sleeps| ==> SoundPause(cfg, i, sleeps[i])
  {
    attempts, sleeps, report := 0, [], None;
    while true
      invariant attempts <= cfg.retryAttempts && |sleeps| == attempts
      invariant forall i :: 0 <= i < attempts ==> replies(i) == Retryable
      invariant forall i :: 0 <= i < |sleeps| ==> SoundPause(cfg, i, sleeps[i])
      decreases cfg.retryAttempts - attempts
    {
      var attempt := attempts;
      attempts := attempts + 1;
      match replies(attempt) {
        case Answered =>
          report := Some(true);
          return;
        case CancelledReply =>
          return;
        case _ =>
          if replies(attempt) != Retryable || attempt == cfg.retryAttempts {
            report := Some(false);
            return;
          }
      }
      var pause := Pause(cfg, attempt, jitter(attempt));
      PauseIsSound(cfg, attempt, jitter(attempt));
      sleeps := sleeps + [pause];
    }
  }

  /** The backoff starts at the configured value, doubles from attempt to attempt, and stays at the maximum. */
  lemma BackoffDoubles(cfg: Settings, attempt: nat)
    requires cfg.Valid()
    ensures Backoff(cfg, 0) == if cfg.backoffMaxSeconds < cfg.backoffSeconds then cfg.backoffMaxSeconds else cfg.backoffSeconds
    ensures Backoff(cfg, attempt + 1) ==
            if cfg.backoffMaxSeconds < 2.0 * Backoff(cfg, attempt) then cfg.backoffMaxSeconds else 2.0 * Backoff(cfg, attempt)
  {
    assert cfg.backoffSeconds * Power2(attempt + 1) == 2.0 * (cfg.backoffSeconds * Power2(attempt));
  }

  lemma {:induction false} BackoffPositive(cfg: Settings, attempt: nat)
    requires cfg.Valid()
    ensures 0.0 < Backoff(cfg, attempt) <= cfg.backoffMaxSeconds
  {
    PowerPositive(attempt);
    ProductPositive(cfg.backoffSeconds, Power2(attempt));
  }

  lemma {:induction false} PowerPositive(n: nat)
    ensures Power2(n) >= 1.0
  {
    if n > 0 {
      PowerPositive(n - 1);
    }
  }

  lemma ProductPositive(x: real, y: real)
    requires x > 0.0 && y > 0.0
    ensures x * y > 0.0
  {
  }
}
