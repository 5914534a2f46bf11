/**
  Health hysteresis of one replica (health/monitor.go). A history is a sequence
  of check results, newest first; true is a passed check.
 */
module HealthSpec {
  import opened Common

  datatype Health = Health(up: bool, failures: nat, successes: nat)

  /** The failures that take a replica down, and the successes that bring it back. */
  datatype Config = Config(failureThreshold: nat, successThreshold: nat)

  ghost predicate ValidConfig(c: Config) {
    c.failureThreshold > 0 && c.successThreshold > 0
  }

  const FRESH: Health := Health(true, 0, 0)

  function Check(c: Config, s: Health, passed: bool): (t: Health) {
    if passed then
      if s.up then Health(true, 0, 0)
      else if s.successes + 1 >= c.successThreshold then Health(true, 0, 0)
      else Health(false, 0, s.successes + 1)
    else
    if s.failures + 1 >= c.failureThreshold then Health(false, 0, 0)
    else Health(s.up, s.failures + 1, 0)
  }

  function After(c: Config, h: seq<bool>): (s: Health) {
    if h == [] then FRESH else Check(c, After(c, h[1..]), h[0])
  }

  /** How many of the newest results in a row equal `passed`. */
  function Trailing(h: seq<bool>, passed: bool): (n: nat) {
    if h == [] || h[0] != passed then 0 else 1 + Trailing(h[1..], passed)
  }

  /**
    The reference meaning of health, without counters: the newest run of results
    that reached its threshold decides, and a replica with no such run is healthy.
   */
  predicate Verdict(c: Config, h: seq<bool>) {
    if h == [] then true
    else if Trailing(h, false) >= c.failureThreshold then false
    else if Trailing(h, true) >= c.successThreshold then true
    else Verdict(c, h[1..])
  }

  /** Main theorem: the counters compute exactly that meaning. */
  lemma {:induction false} HealthIsLastDecisiveRun(c: Config, h: seq<bool>)
    requires ValidConfig(c)
    ensures var s := After(c, h);
            && s.up == Verdict(c, h)
            && (s.up ==> s.failures == Trailing(h, false) < c.failureThreshold && s.successes == 0)
            && (!s.up ==> s.successes == Trailing(h, true) < c.successThreshold)
  {
    if h != [] {
      HealthIsLastDecisiveRun(c, h[1..]);
    }
  }

  /** How often a check moved the replica to `up`. */
  function Moves(c: Config, h: seq<bool>, up: bool): (n: nat) {
    if h == [] then 0
    else Moves(c, h[1..], up) + if After(c, h[1..]).up != up && After(c, h).up == up then 1 else 0
  }

  function Changes(c: Config, h: seq<bool>): (n: nat) {
    Moves(c, h, true) + Moves(c, h, false)
  }

  lemma {:induction false} MovesAlternate(c: Config, h: seq<bool>)
    ensures Moves(c, h, false) == Moves(c, h, true) + if After(c, h).up then 0 else 1
  {
    if h != [] {
      MovesAlternate(c, h[1..]);
    }
  }

  /** Each move down used up a threshold of checks, and so did each move up. */
  lemma {:induction false} MovesArePaid(c: Config, h: seq<bool>)
    requires ValidConfig(c)
    ensures var s := After(c, h);
            c.failureThreshold * Moves(c, h, false) + c.successThreshold * Moves(c, h, true)
            + (if s.up then s.failures else s.successes) <= |h|
  {
    if h != [] {
      var rest := h[1..];
      MovesArePaid(c, rest);
      HealthIsLastDecisiveRun(c, rest);
      OneMore(c.failureThreshold, Moves(c, rest, false));
      OneMore(c.successThreshold, Moves(c, rest, true));
      var downs, ups := c.failureThreshold * Moves(c, rest, false), c.successThreshold * Moves(c, rest, true);
      assert Moves(c, h, false) == Moves(c, rest, false) || Moves(c, h, false) == Moves(c, rest, false) + 1;
      assert Moves(c, h, true) == Moves(c, rest, true) || Moves(c, h, true) == Moves(c, rest, true) + 1;
    }
  }

  lemma Spread(n: nat, f: nat, s: nat)
    ensures n * (f + s) == f * n + s * n
    ensures (2 * n) * (f + s) == 2 * (n * (f + s))
    ensures (2 * n + 1) * (f + s) == 2 * (n * (f + s)) + f + s
  {
    var t := f + s;
    assert (2 * n) * t == 2 * (n * t);
    assert (2 * n + 1) * t == 2 * n * t + t;
  }

  /** Main theorem: a replica flaps at most this often in a given number of checks. */
  lemma FlappingBounded(c: Config, h: seq<bool>)
    requires ValidConfig(c)
    ensures var f, s := c.failureThreshold, c.successThreshold;
            Changes(c, h) * (f + s) <= 2 * |h| + if s > f then s - f else 0
  {
    hide Moves, After;
    MovesAlternate(c, h);
    MovesArePaid(c, h);
    OneMore(c.failureThreshold, Moves(c, h, true));
    Spread(Moves(c, h, true), c.failureThreshold, c.successThreshold);
  }

  function Repeat(passed: bool, n: nat): (h: seq<bool>)
    ensures |h| == n
  {
    if n == 0 then [] else [passed] + Repeat(passed, n - 1)
  }

  /** The worst history: `f` failures, `s` successes, and again. */
  function Flap(c: Config, rounds: nat): (h: seq<bool>)
    ensures |h| == rounds * (c.failureThreshold + c.successThreshold)
  {
    if rounds == 0 then []
    else
      OneMore(c.failureThreshold + c.successThreshold, rounds - 1);
      Repeat(true, c.successThreshold) + (Repeat(false, c.failureThreshold) + Flap(c, rounds - 1))
  }

  /** `n` failures on a fresh replica take it down with the last one. */
  lemma {:induction false} FailingRun(c: Config, h: seq<bool>, n: nat)
    requires ValidConfig(c) && After(c, h) == FRESH && n <= c.failureThreshold
    ensures var g := Repeat(false, n) + h;
            && After(c, g) == (if n == c.failureThreshold then Health(false, 0, 0) else Health(true, n, 0))
            && Moves(c, g, true) == Moves(c, h, true)
            && Moves(c, g, false) == Moves(c, h, false) + if n == c.failureThreshold then 1 else 0
  {
    var g := Repeat(false, n) + h;
    if n == 0 {
      assert g == h;
    } else {
      assert g[1..] == Repeat(false, n - 1) + h;
      FailingRun(c, h, n - 1);
    }
  }

  lemma {:induction false} PassingRun(c: Config, h: seq<bool>, n: nat)
    requires ValidConfig(c) && After(c, h) == Health(false, 0, 0) && n <= c.successThreshold
    ensures var g := Repeat(true, n) + h;
            && After(c, g) == (if n == c.successThreshold then FRESH else Health(false, 0, n))
            && Moves(c, g, true) == Moves(c, h, true) + (if n == c.successThreshold then 1 else 0)
            && Moves(c, g, false) == Moves(c, h, false)
  {
    var g := Repeat(true, n) + h;
    if n == 0 {
      assert g == h;
    } else {
      assert g[1..] == Repeat(true, n - 1) + h;
      PassingRun(c, h, n - 1);
    }
  }

  lemma {:induction false} FlapChanges(c: Config, rounds: nat)
    requires ValidConfig(c)
    ensures After(c, Flap(c, rounds)) == FRESH && Changes(c, Flap(c, rounds)) == 2 * rounds
  {
    if rounds > 0 {
      FlapChanges(c, rounds - 1);
      var before := Flap(c, rounds - 1);
      FailingRun(c, before, c.failureThreshold);
      PassingRun(c, Repeat(false, c.failureThreshold) + before, c.successThreshold);
    }
  }

  /** The flapping bound is attained: after any number of rounds, and half a round later. */
  lemma FlappingAttained(c: Config, rounds: nat)
    requires ValidConfig(c)
    ensures var f, s, h := c.failureThreshold, c.successThreshold, Flap(c, rounds);
            && Changes(c, h) * (f + s) == 2 * |h|
            && Changes(c, Repeat(false, f) + h) * (f + s) == 2 * |Repeat(false, f) + h| + s - f
  {
    FlapChanges(c, rounds);
    FailingRun(c, Flap(c, rounds), c.failureThreshold);
    hide Moves, After, Flap, Repeat;
    Spread(rounds, c.failureThreshold, c.successThreshold);
  }
}

/** The monitor over all replicas: tracked states, panic mode and change notices. */
module HealthMonitor {
  import opened Common
  import opened HealthSpec

  datatype Name = Name(text: string)
  datatype StateChange = StateChange(replica: Name, from: bool, to: bool, at: int)

  const BUFFER: nat := 10

  /** A non-blocking send into the change channel: dropped when the buffer is full. */
  function Offer(q: seq<StateChange>, x: StateChange): (r: seq<StateChange>)
    ensures |q| <= BUFFER ==> |r| <= BUFFER
  {
    if |q| < BUFFER then q + [x] else q
  }

  /** The notices after a check: a change of state is offered, and nothing else. */
  function Noted(q: seq<StateChange>, replica: Name, was: bool, now: bool, at: int): (r: seq<StateChange>)
    ensures |q| <= BUFFER ==> |r| <= BUFFER
  {
    if was == now then q else Offer(q, StateChange(replica, was, now, at))
  }

  ghost predicate NoneUp(states: map<Name, Health>) {
    forall n :: n in states ==> !states[n].up
  }

  /** Panic mode, as promised: there are replicas and none of them is healthy. */
  ghost predicate Panics(states: map<Name, Health>) {
    states != map[] && NoneUp(states)
  }

  /** The tracked states are those of the results seen so far. */
  ghost predicate Tracks(c: Config, states: map<Name, Health>, history: map<Name, seq<bool>>) {
    history.Keys == states.Keys && forall n :: n in states ==> states[n] == After(c, history[n])
  }

  lemma CheckTracks(c: Config, states: map<Name, Health>, history: map<Name, seq<bool>>, n: Name, passed: bool)
    requires Tracks(c, states, history) && n in states
    ensures n in history
    ensures Tracks(c, states[n := Check(c, states[n], passed)], history[n := [passed] + history[n]])
  {
    assert ([passed] + history[n])[1..] == history[n];
  }

  ghost function Names(rs: seq<Replica>): (names: set<Name>) {
    set r | r in rs :: r.name
  }

  class Replica {
    const name: Name
    var healthy: bool

    constructor (name: Name, healthy: bool)
      ensures this.name == name && this.healthy == healthy
    {
      this.name, this.healthy := name, healthy;
    }
  }

  class Tracker {
    var up: bool
    var failures: nat
    var successes: nat

    function View(): (s: Health)
      reads this
    {
      Health(up, failures, successes)
    }

    constructor ()
      ensures View() == FRESH
    {
      up, failures, successes := true, 0, 0;
    }

    /** The counter updates of one check. */
    method Update(c: Config, passed: bool)
      modifies this
      ensures View() == Check(c, old(View()), passed)
    {
      if passed {
        failures := 0;
        successes := successes + 1;
        if !up && successes >= c.successThreshold {
          up := true;
          successes := 0;
        } else if up {
          successes := 0;
        }
      } else {
        successes := 0;
        failures := failures + 1;
        if failures >= c.failureThreshold {
          up := false;
          failures := 0;
        }
      }
    }
  }

  ghost function Views(states: map<Name, Tracker>): (m: map<Name, Health>)
    reads states.Values
  {
    map n | n in states :: states[n].View()
  }

  /** One tracker per name, none shared. */
  ghost predicate OneEach(states: map<Name, Tracker>) {
    forall m, n :: m in states && n in states && m != n ==> states[m] != states[n]
  }

  /** A check of one replica leaves the trackers of all others alone. */
  method UpdateTracker(states: map<Name, Tracker>, name: Name, c: Config, passed: bool)
    requires OneEach(states) && name in states
    modifies states[name]
    ensures Views(states) == old(Views(states))[name := Check(c, old(Views(states)[name]), passed)]
  {
    hide Check;
    states[name].Update(c, passed);
  }

  /** The loop of updatePanicMode: how many trackers are healthy. */
  method CountHealthy(states: map<Name, Tracker>) returns (healthyCount: nat)
    ensures healthyCount == 0 <==> forall n :: n in states ==> !states[n].up
  {
    healthyCount := 0;
    var todo := states.Keys;
    while todo != {}
      invariant todo <= states.Keys
      invariant healthyCount == 0 <==> forall n :: n in states && n !in todo ==> !states[n].up
      decreases todo
    {
      var n :| n in todo;
      if states[n].up {
        healthyCount := healthyCount + 1;
      }
      todo := todo - {n};
    }
  }

  lemma PanicsWhen(states: map<Name, Tracker>)
    ensures Panics(Views(states)) <==> |states| > 0 && forall n :: n in states ==> !states[n].up
  {
    var v := Views(states);
    assert v.Keys == states.Keys;
    assert v == map[] <==> v.Keys == {};
    assert |states| > 0 <==> states.Keys != {};
  }

  class Monitor {
    const replicas: seq<Replica>
    const config: Config
    var states: map<Name, Tracker>
    var panicMode: bool
    var panicTime: Option<int>
    var changes: seq<StateChange>
    ghost var history: map<Name, seq<bool>>

    /** What holds between checks, whatever results came before. */
    ghost predicate Valid()
      reads this, states.Values
    {
      && Apart()
      && Tracks(config, Views(states), history)
      && panicMode == Panics(Views(states))
      && panicTime.Some? == panicMode
    }

    /** The shape of the monitor: one tracker per name, none shared. */
    ghost predicate Apart()
      reads this
    {
      && ValidConfig(config) && |changes| <= BUFFER
      && states.Keys == Names(replicas)
      && OneEach(states)
    }

    /** NewMonitor: thresholds that are not positive are replaced by defaults. */
    constructor (replicas: seq<Replica>, failureThreshold: int, successThreshold: int)
      ensures Valid() && this.replicas == replicas && changes == [] && !panicMode
      ensures config.failureThreshold == if failureThreshold <= 0 then 3 else failureThreshold
      ensures config.successThreshold == if successThreshold <= 0 then 2 else successThreshold
      ensures states.Keys == Names(replicas)
      ensures forall n :: n in states ==> fresh(states[n]) && history[n] == []
    {
      this.replicas := replicas;
      config := Config(if failureThreshold <= 0 then 3 else failureThreshold,
                       if successThreshold <= 0 then 2 else successThreshold);
      states, history := map[], map[];
      panicMode, panicTime, changes := false, None, [];
      new;
      var i := 0;
      while i < |replicas|
        invariant 0 <= i <= |replicas| && this.replicas == replicas
        invariant states.Keys == Names(replicas[..i])
        invariant forall n :: n in states ==> fresh(states[n]) && states[n].View() == FRESH
        invariant OneEach(states)
        invariant changes == [] && !panicMode && panicTime.None?
      {
        var t := new Tracker();
        assert replicas[..i + 1] == replicas[..i] + [replicas[i]];
        states := states[replicas[i].name := t];
        i := i + 1;
      }
      assert replicas[..i] == replicas;
      history := map n | n in states :: [];
    }

    /** updatePanicMode: counts the healthy trackers; `now` is its clock reading. */
    method UpdatePanicMode(now: int)
      requires Apart()
      modifies this`panicMode, this`panicTime
      ensures panicMode == Panics(Views(states))
      ensures panicTime == if panicMode == old(panicMode) then old(panicTime) else if panicMode then Some(now) else None
    {
      PanicsWhen(states);
      hide Panics, Views;
      var healthyCount := CountHealthy(states);
      var wasPanic := panicMode;
      panicMode := healthyCount == 0 && |states| > 0;
      if panicMode && !wasPanic {
        panicTime := Some(now);
      }
      if !panicMode && wasPanic {
        panicTime := None;
      }
    }

    /** The first part of processCheckResult: tracker, replica and notice. */
    method Observe(replica: Replica, passed: bool, noticeTime: int)
      requires Apart() && Tracks(config, Views(states), history) && replica in replicas
      modifies this`changes, this`history, replica, states[replica.name]
      ensures Apart() && Tracks(config, Views(states), history)
      ensures history == old(history)[replica.name := [passed] + old(history[replica.name])]
      ensures Views(states) == old(Views(states))[replica.name := Check(config, old(Views(states)[replica.name]), passed)]
      ensures replica.healthy == Views(states)[replica.name].up
      ensures changes == Noted(old(changes), replica.name,
                               old(Views(states)[replica.name].up), Views(states)[replica.name].up, noticeTime)
    {
      hide Check, After, Tracks;
      var state := states[replica.name];
      var oldUp := state.up;
      Track(replica.name, passed);
      hide Views;
      replica.healthy := state.up;
      Notify(replica.name, oldUp, state.up, noticeTime);
    }

    /** The tracker's part, and the result it has seen. */
    method Track(name: Name, passed: bool)
      requires OneEach(states) && Tracks(config, Views(states), history) && name in states
      modifies this`history, states[name]
      ensures Tracks(config, Views(states), history) && name in Views(states) && name in old(Views(states))
      ensures name in old(history) && history == old(history)[name := [passed] + old(history[name])]
      ensures Views(states) == old(Views(states))[name := Check(config, old(Views(states)[name]), passed)]
      ensures Views(states)[name].up == states[name].up
    {
      hide Check, After, OneEach, Tracks;
      CheckTracks(config, Views(states), history, name, passed);
      UpdateTracker(states, name, config, passed);
      history := history[name := [passed] + history[name]];
    }

    /** The non-blocking notice of a change. */
    method Notify(name: Name, was: bool, now: bool, at: int)
      requires |changes| <= BUFFER
      modifies this`changes
      ensures changes == Noted(old(changes), name, was, now, at) && |changes| <= BUFFER
    {
      if was != now {
        changes := Offer(changes, StateChange(name, was, now, at));
      }
    }

    /** processCheckResult, with the clock readings for the notice and for panic mode. */
    method ProcessCheckResult(replica: Replica, passed: bool, noticeTime: int, panicNow: int)
      requires Valid() && replica in replicas
      modifies this, replica, states[replica.name]
      ensures Valid() && states == old(states)
      ensures history == old(history)[replica.name := [passed] + old(history[replica.name])]
      ensures Views(states) == old(Views(states))[replica.name := Check(config, old(Views(states)[replica.name]), passed)]
      ensures replica.healthy == Views(states)[replica.name].up
      ensures changes == Noted(old(changes), replica.name,
                               old(Views(states)[replica.name].up), Views(states)[replica.name].up, noticeTime)
      ensures var was, now := old(Views(states)[replica.name].up), Views(states)[replica.name].up;
              changes == if was != now && |old(changes)| < 10
                         then old(changes) + [StateChange(replica.name, was, now, noticeTime)] else old(changes)
      ensures panicMode == old(panicMode) ==> panicTime == old(panicTime)
      ensures panicMode && !old(panicMode) ==> panicTime == Some(panicNow)
    {
      hide Check, After, Panics, OneEach, Tracks, Names;
      Observe(replica, passed, noticeTime);
      hide Views;
      UpdatePanicMode(panicNow);
    }

    /** GetState: a name that is not monitored counts as healthy. */
    method IsHealthy(name: Name) returns (up: bool)
      requires Valid()
      ensures up == (name in history ==> Verdict(config, history[name]))
    {
      if name !in states {
        return true;
      }
      HealthIsLastDecisiveRun(config, history[name]);
      assert Views(states)[name] == After(config, history[name]);
      return states[name].up;
    }

    /** GetHealthyReplicas: exactly the replicas whose last decisive run was good, in order. */
    method GetHealthyReplicas() returns (healthy: seq<Replica>)
      requires Valid()
      ensures healthy == Healthy(config, history, replicas)
    {
      hide Verdict, Healthy, Tracks, Panics;
      healthy := [];
      var i := 0;
      HealthyEnds(config, history, replicas);
      while i < |replicas|
        invariant 0 <= i <= |replicas|
        invariant healthy + Healthy(config, history, replicas[i..]) == Healthy(config, history, replicas)
      {
        HealthyNext(config, history, replicas, i, healthy);
        var up := IsHealthy(replicas[i].name);
        if up {
          healthy := healthy + [replicas[i]];
        }
        i := i + 1;
      }
    }
  }

  lemma HealthyEnds(c: Config, history: map<Name, seq<bool>>, rs: seq<Replica>)
    ensures [] + Healthy(c, history, rs[0..]) == Healthy(c, history, rs)
    ensures Healthy(c, history, rs[|rs|..]) == []
  {
    assert rs[0..] == rs;
  }

  lemma HealthyNext(c: Config, history: map<Name, seq<bool>>, rs: seq<Replica>, i: nat, healthy: seq<Replica>)
    requires i < |rs|
    ensures var rest := Healthy(c, history, rs[i + 1..]);
            healthy + Healthy(c, history, rs[i..])
            == (if Offered(c, history, rs[i]) then healthy + [rs[i]] else healthy) + rest
  {
    assert rs[i..][1..] == rs[i + 1..];
    var rest := Healthy(c, history, rs[i + 1..]);
    assert healthy + ([rs[i]] + rest) == (healthy + [rs[i]]) + rest;
  }

  /** The replicas whose results so far make them healthy. */
  ghost function Healthy(c: Config, history: map<Name, seq<bool>>, rs: seq<Replica>): (r: seq<Replica>) {
    if rs == [] then []
    else if Offered(c, history, rs[0]) then [rs[0]] + Healthy(c, history, rs[1..])
    else Healthy(c, history, rs[1..])
  }

  /**
    Main theorem: in every state a run of checks can reach, panic mode holds
    exactly when there are replicas and the last decisive run of each was bad,
    with the panic time set exactly while it holds.
   */
  lemma PanicExactlyWhenNoneHealthy(m: Monitor)
    requires m.Valid()
    ensures m.panicMode <==> m.history != map[] && forall n :: n in m.history ==> !Verdict(m.config, m.history[n])
    ensures m.panicTime.Some? <==> m.panicMode
  {
    forall n | n in m.history
      ensures Views(m.states)[n].up == Verdict(m.config, m.history[n])
    {
      HealthIsLastDecisiveRun(m.config, m.history[n]);
    }
    assert m.history.Keys == Views(m.states).Keys;
    assert m.history == map[] <==> m.history.Keys == {};
    assert Views(m.states) == map[] <==> Views(m.states).Keys == {};
  }

  ghost predicate Offered(c: Config, history: map<Name, seq<bool>>, r: Replica) {
    r.name in history ==> Verdict(c, history[r.name])
  }

  lemma {:induction false} HealthyMembers(c: Config, history: map<Name, seq<bool>>, rs: seq<Replica>)
    ensures forall i :: 0 <= i < |Healthy(c, history, rs)| ==> Healthy(c, history, rs)[i] in rs
    ensures forall i :: 0 <= i < |Healthy(c, history, rs)| ==> Offered(c, history, Healthy(c, history, rs)[i])
    ensures forall i :: 0 <= i < |rs| && Offered(c, history, rs[i]) ==> rs[i] in Healthy(c, history, rs)
  {
    if rs != [] {
      HealthyMembers(c, history, rs[1..]);
      assert forall i :: 0 < i < |rs| ==> rs[i] == rs[1..][i - 1];
    }
  }

  /** A monitor offers no replica exactly in panic mode, or when it has none. */
  lemma NothingOfferedExactlyInPanic(m: Monitor)
    requires m.Valid()
    ensures Healthy(m.config, m.history, m.replicas) == [] <==> m.panicMode || m.replicas == []
  {
    PanicExactlyWhenNoneHealthy(m);
    var healthy := Healthy(m.config, m.history, m.replicas);
    HealthyMembers(m.config, m.history, m.replicas);
    assert m.history.Keys == Names(m.replicas);
    if healthy != [] {
      assert healthy[0].name in Names(m.replicas);
    } else if m.replicas != [] {
      assert m.replicas[0].name in Names(m.replicas);
      forall n | n in m.history
        ensures !Verdict(m.config, m.history[n])
      {
        var r :| r in m.replicas && r.name == n;
        assert r !in healthy;
      }
    }
  }
}

/**
  Checks of several replicas at once. Each replica's goroutine holds only its
  own lock while it updates its tracker; the panic update takes the monitor's
  lock and reads the trackers one after another while others may still change.
 */
module ConcurrentChecks {
  import opened Common
  import opened HealthSpec
  import opened HealthMonitor

  /**
    A goroutine in processCheckResult: none; tracker updated and waiting for the
    monitor's lock; or scanning, having read the trackers in `seen` and found
    one of them healthy or not.
   */
  datatype Phase = Resting | Updated | Scanning(seen: set<Name>, anyUp: bool)

  /** The trackers are given by the results they have seen. */
  datatype State = State(history: map<Name, seq<bool>>, checks: seq<Phase>, panicMode: bool, panicTime: Option<int>)

  datatype Step =
    | Check(g: nat, name: Name, passed: bool)  // the tracker update
    | Lock(g: nat)                             // updatePanicMode takes the monitor's lock
    | Read(g: nat, name: Name)                 // its loop reads one tracker
    | Finish(g: nat, now: int)                 // it writes the panic fields and releases the lock

  predicate Up(c: Config, s: State, n: Name)
    requires n in s.history
  {
    After(c, s.history[n]).up
  }

  predicate NobodyScans(s: State) {
    forall g :: 0 <= g < |s.checks| ==> !s.checks[g].Scanning?
  }

  predicate Enabled(s: State, step: Step) {
    && step.g < |s.checks|
    && var p := s.checks[step.g];
       match step
       case Check(_, name, _) => p.Resting? && name in s.history
       case Lock(_) => p.Updated? && NobodyScans(s)
       case Read(_, name) => p.Scanning? && name in s.history && name !in p.seen
       case Finish(_, _) => p.Scanning? && p.seen == s.history.Keys
  }

  function Apply(c: Config, s: State, step: Step): (t: State)
    requires Enabled(s, step)
  {
    var p := s.checks[step.g];
    match step
    case Check(g, name, passed) =>
      s.(history := s.history[name := [passed] + s.history[name]], checks := s.checks[g := Updated])
    case Lock(g) => s.(checks := s.checks[g := Scanning({}, false)])
    case Read(g, name) => s.(checks := s.checks[g := Scanning(p.seen + {name}, p.anyUp || Up(c, s, name))])
    case Finish(g, now) =>
      var panics := !p.anyUp && s.history != map[];
      State(s.history, s.checks[g := Resting], panics,
            if panics == s.panicMode then s.panicTime else if panics then Some(now) else None)
  }

  predicate Runs(c: Config, s: State, steps: seq<Step>)
    decreases |steps|
  {
    steps == [] || (Enabled(s, steps[0]) && Runs(c, Apply(c, s, steps[0]), steps[1..]))
  }

  function Final(c: Config, s: State, steps: seq<Step>): (t: State)
    requires Runs(c, s, steps)
    decreases |steps|
  {
    if steps == [] then s else Final(c, Apply(c, s, steps[0]), steps[1..])
  }

  function Started(names: set<Name>, goroutines: nat): (s: State) {
    State(map n | n in names :: [], seq(goroutines, _ => Resting), false, None)
  }

  ghost predicate NobodyWaits(s: State) {
    forall g :: 0 <= g < |s.checks| ==> !s.checks[g].Updated?
  }

  /** There are trackers and none of those named is up. */
  ghost predicate NoneUpAmong(c: Config, s: State, names: set<Name>) {
    forall n :: n in names && n in s.history ==> !Up(c, s, n)
  }

  ghost predicate OneScans(s: State) {
    forall g, h :: 0 <= g < h < |s.checks| ==> !(s.checks[g].Scanning? && s.checks[h].Scanning?)
  }

  /**
    Unless a check waits for the lock: a scan's findings are still true of what
    it has read, and without a scan the panic mode is exact.
   */
  ghost predicate Inv(c: Config, s: State) {
    && OneScans(s) && (s.panicTime.Some? <==> s.panicMode)
    && (forall g :: 0 <= g < |s.checks| && s.checks[g].Scanning? ==> s.checks[g].seen <= s.history.Keys)
    && (NobodyWaits(s) ==>
          && (forall g :: 0 <= g < |s.checks| && s.checks[g].Scanning? ==>
                (s.checks[g].anyUp <==> !NoneUpAmong(c, s, s.checks[g].seen)))
          && (NobodyScans(s) ==> (s.panicMode <==> s.history != map[] && NoneUpAmong(c, s, s.history.Keys))))
  }

  lemma CheckKeeps(c: Config, s: State, g: nat, name: Name, passed: bool)
    requires Inv(c, s) && Enabled(s, Check(g, name, passed))
    ensures Inv(c, Apply(c, s, Check(g, name, passed)))
  {
    var t := Apply(c, s, Check(g, name, passed));
    assert t.checks[g].Updated?;
    assert t.history.Keys == s.history.Keys;
  }

  lemma LockKeeps(c: Config, s: State, g: nat)
    requires Inv(c, s) && Enabled(s, Lock(g))
    ensures Inv(c, Apply(c, s, Lock(g)))
  {
    var t := Apply(c, s, Lock(g));
    assert t.checks[g].Scanning?;
    hide Up;
  }

  lemma SameWaiting(s: State, t: State, g: nat)
    requires g < |s.checks| && |t.checks| == |s.checks| && t.checks == s.checks[g := t.checks[g]]
    requires !s.checks[g].Updated? && !t.checks[g].Updated?
    ensures NobodyWaits(t) <==> NobodyWaits(s)
  {
    forall h | 0 <= h < |s.checks| ensures s.checks[h].Updated? <==> t.checks[h].Updated? {
    }
  }

  lemma ReadKeeps(c: Config, s: State, g: nat, name: Name)
    requires Inv(c, s) && Enabled(s, Read(g, name))
    ensures Inv(c, Apply(c, s, Read(g, name)))
  {
    var t := Apply(c, s, Read(g, name));
    assert t.checks[g].Scanning?;
    SameWaiting(s, t, g);
    assert !NoneUpAmong(c, s, t.checks[g].seen) <==> !NoneUpAmong(c, s, s.checks[g].seen) || Up(c, s, name);
    forall names ensures NoneUpAmong(c, t, names) <==> NoneUpAmong(c, s, names) {
    }
    hide Up;
  }

  lemma FinishKeeps(c: Config, s: State, g: nat, now: int)
    requires Inv(c, s) && Enabled(s, Finish(g, now))
    ensures Inv(c, Apply(c, s, Finish(g, now)))
  {
    var t := Apply(c, s, Finish(g, now));
    SameWaiting(s, t, g);
    forall names ensures NoneUpAmong(c, t, names) <==> NoneUpAmong(c, s, names) {
    }
    hide Up;
  }

  lemma InvKept(c: Config, s: State, step: Step)
    requires Inv(c, s) && Enabled(s, step)
    ensures Inv(c, Apply(c, s, step))
  {
    match step
    case Check(g, name, passed) => CheckKeeps(c, s, g, name, passed);
    case Lock(g) => LockKeeps(c, s, g);
    case Read(g, name) => ReadKeeps(c, s, g, name);
    case Finish(g, now) => FinishKeeps(c, s, g, now);
    hide Inv, Apply, Enabled;
  }

  lemma {:induction false} InvAlways(c: Config, s: State, steps: seq<Step>)
    requires Inv(c, s) && Runs(c, s, steps)
    ensures Inv(c, Final(c, s, steps))
    decreases |steps|
  {
    hide Inv, Apply, Enabled;
    if steps != [] {
      InvKept(c, s, steps[0]);
      InvAlways(c, Apply(c, s, steps[0]), steps[1..]);
    }
  }

  lemma InvStarted(c: Config, names: set<Name>, goroutines: nat)
    ensures Inv(c, Started(names, goroutines))
  {
    var s := Started(names, goroutines);
    if names != {} {
      var n :| n in names;
      assert n in s.history && Up(c, s, n);
    } else {
      assert s.history == map[];
    }
  }

  /**
    Main theorem: in every interleaving of checks, tracker reads included,
    whenever no check is between its tracker update and the end of its panic
    update, panic mode holds exactly when there are replicas and the last decisive
    run of each was bad; and the panic time is always set exactly while it holds.
   */
  lemma PanicExactAtRest(c: Config, names: set<Name>, goroutines: nat, steps: seq<Step>)
    requires ValidConfig(c) && Runs(c, Started(names, goroutines), steps)
    ensures var s := Final(c, Started(names, goroutines), steps);
            && (s.panicTime.Some? <==> s.panicMode)
            && ((forall g :: 0 <= g < |s.checks| ==> s.checks[g].Resting?) ==>
                  (s.panicMode <==> s.history != map[] && forall n :: n in s.history ==> !Verdict(c, s.history[n])))
  {
    InvStarted(c, names, goroutines);
    InvAlways(c, Started(names, goroutines), steps);
    var s := Final(c, Started(names, goroutines), steps);
    forall n | n in s.history ensures Up(c, s, n) == Verdict(c, s.history[n]) {
      HealthIsLastDecisiveRun(c, s.history[n]);
    }
    hide Started, Runs, Final, Verdict, After;
  }

  /** Before that it may lag: one replica, one failure to go down, and the tracker is down first. */
  lemma PanicMayLag(n: Name)
    ensures var c, s := Config(1, 1), Started({n}, 1);
            var steps := [Check(0, n, false)];
            && Runs(c, s, steps)
            && var t := Final(c, s, steps); !t.panicMode && t.history == map[n := [false]] && !Verdict(c, [false])
  {
    var c, s := Config(1, 1), Started({n}, 1);
    var t := Apply(c, s, Check(0, n, false));
    assert [Check(0, n, false)][1..] == [] && [false] + [] == [false];
    assert t.history == map[n := [false]];
  }

  /** And it catches up when the check is through, with the time of its reading. */
  lemma PanicCatchesUp(n: Name, now: int)
    ensures var c, s := Config(1, 1), Started({n}, 1);
            var steps := [Check(0, n, false), Lock(0), Read(0, n), Finish(0, now)];
            && Runs(c, s, steps)
            && var t := Final(c, s, steps); t.panicMode && t.panicTime == Some(now) && t.checks == [Resting]
  {
    var c, s := Config(1, 1), Started({n}, 1);
    var t := Apply(c, s, Check(0, n, false));
    assert [false] + [] == [false] && [false][1..] == [];
    assert t.history == map[n := [false]] && !Up(c, t, n);
    var u := Apply(c, t, Lock(0));
    var v := Apply(c, u, Read(0, n));
    assert v.checks[0].seen == v.history.Keys;
    var w := Apply(c, v, Finish(0, now));
    assert Runs(c, w, []) && Final(c, w, []) == w;
    RunsCons(c, v, Finish(0, now), []);
    RunsCons(c, u, Read(0, n), [Finish(0, now)]);
    RunsCons(c, t, Lock(0), [Read(0, n), Finish(0, now)]);
    RunsCons(c, s, Check(0, n, false), [Lock(0), Read(0, n), Finish(0, now)]);
  }

  lemma RunsCons(c: Config, s: State, step: Step, steps: seq<Step>)
    requires Enabled(s, step) && Runs(c, Apply(c, s, step), steps)
    ensures Runs(c, s, [step] + steps) && Final(c, s, [step] + steps) == Final(c, Apply(c, s, step), steps)
  {
    assert ([step] + steps)[1..] == steps;
  }
}
