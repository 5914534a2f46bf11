/**
  Dispatches by several goroutines. Call holds the breaker's lock while its
  function runs, so it is one step; the check of the state before it is another,
  and what happens between the two is what a sequential run cannot show.
 */
module ConcurrentDispatch {
  import opened Tallies
  import opened FmBreakerSpec
  import opened DispatchSpec

  datatype Caller = Outside | Checked

  /** `tries` are the plugin tries since the last success or reset; `now` is the last clock reading. */
  datatype State = State(circuit: Circuit, callers: seq<Caller>, tries: nat, now: int)

  datatype Step =
    | Check(c: nat)                                              // State() != Open, or the goal is refused
    | Execute(c: nat, start: int, ok: bool, end: int, n: nat)    // Call, its function making `n` tries
    | ResetBreaker

  predicate Enabled(s: State, step: Step) {
    match step
    case Check(c) => c < |s.callers| && s.callers[c].Outside?
    case Execute(c, start, ok, end, n) =>
      && c < |s.callers| && s.callers[c].Checked?
      && s.now <= start <= end                           // the clock never goes back
      && n <= MAX_RETRIES + 1 && (ok ==> n > 0)          // no success without a try
    case ResetBreaker => true
  }

  function Apply(s: State, step: Step): (t: State)
    requires Enabled(s, step)
  {
    match step
    case Check(c) => if s.circuit.mode == Open then s else s.(callers := s.callers[c := Checked])
    case Execute(c, start, ok, end, n) =>
      State(FmBreakerSpec.Do(s.circuit, FmBreakerSpec.Call(start, !ok, end)), s.callers[c := Outside],
            if !Executes(s.circuit, start) then s.tries else if ok then 0 else s.tries + n,
            if Executes(s.circuit, start) then end else start)
    case ResetBreaker => s.(circuit := Cleared(s.circuit), tries := 0)
  }

  predicate Runs(s: State, steps: seq<Step>)
    decreases |steps|
  {
    steps == [] || (Enabled(s, steps[0]) && Runs(Apply(s, steps[0]), steps[1..]))
  }

  function Final(s: State, steps: seq<Step>): (t: State)
    requires Runs(s, steps)
    decreases |steps|
  {
    if steps == [] then s else Final(Apply(s, steps[0]), steps[1..])
  }

  function Started(callers: nat, now: int): (s: State) {
    State(New(5, 2, 30_000_000_000), seq(callers, _ => Outside), 0, now)
  }

  function IsChecked(): Caller -> nat {
    (c: Caller) => if c.Checked? then 1 else 0
  }

  /** Callers between the check and the call. */
  function Between(s: State): (n: nat) {
    Tally(s.callers, IsChecked())
  }

  /** Once open, every further failed call used up a caller that was already past the check. */
  ghost predicate Inv(s: State) {
    && s.circuit.failureThreshold == FAILURE_THRESHOLD && s.circuit.successThreshold == 2
    && Between(s) <= |s.callers|
    && s.tries <= s.circuit.failures * (MAX_RETRIES + 1)
    && (s.circuit.mode == Open <==> s.circuit.failures >= FAILURE_THRESHOLD)
    && (s.circuit.mode == Open ==> s.circuit.failures + Between(s) < FAILURE_THRESHOLD + |s.callers|)
  }

  lemma InvKept(s: State, step: Step)
    requires Inv(s) && Enabled(s, step)
    ensures Inv(Apply(s, step)) && |Apply(s, step).callers| == |s.callers|
  {
    var t := Apply(s, step);
    if !step.ResetBreaker? && t.callers != s.callers {
      TallyUpdate(s.callers, step.c, t.callers[step.c], IsChecked());
      TallyAtMost(t.callers);
    }
    hide Tally;
  }

  lemma {:induction false} TallyAtMost(cs: seq<Caller>)
    ensures Tally(cs, IsChecked()) <= |cs|
  {
    if cs != [] {
      TallyAtMost(cs[1..]);
    }
  }

  lemma {:induction false} InvAlways(s: State, steps: seq<Step>)
    requires Inv(s) && Runs(s, steps)
    ensures Inv(Final(s, steps)) && |Final(s, steps).callers| == |s.callers|
    decreases |steps|
  {
    hide Inv, Apply, Enabled;
    if steps != [] {
      InvKept(s, steps[0]);
      InvAlways(Apply(s, steps[0]), steps[1..]);
    }
  }

  /**
    Main theorem: with any number of concurrent callers, in every interleaving,
    the plugin tries since the last success or reset are at most four for each
    of the five failures that open the breaker and for each other caller, which
    may be past the check when it opens.
   */
  lemma ConcurrentWorkBounded(callers: nat, now: int, steps: seq<Step>)
    requires callers > 0 && Runs(Started(callers, now), steps)
    ensures Final(Started(callers, now), steps).tries <= (FAILURE_THRESHOLD + callers - 1) * (MAX_RETRIES + 1)
  {
    InvStarted(callers, now);
    InvAlways(Started(callers, now), steps);
  }

  lemma InvStarted(callers: nat, now: int)
    ensures Inv(Started(callers, now))
  {
    TallyZero(Started(callers, now).callers, IsChecked());
  }

  /** Ample time for a call whose retries back off. */
  const MINUTE := 60_000_000_000

  /** A time from now on at which an open breaker lets a call through. */
  function LateEnough(s: State): (t: int)
    ensures t >= s.now && t - s.circuit.lastFailure > s.circuit.timeout
  {
    var t := s.circuit.lastFailure + s.circuit.timeout + 1;
    if t < s.now then s.now else t
  }

  /** A failed call of caller `c` that uses all its tries. */
  function FailingCall(s: State, c: nat): (step: Step) {
    Execute(c, LateEnough(s), false, LateEnough(s) + MINUTE, MAX_RETRIES + 1)
  }

  /** A call of caller `c` whose first try succeeds. */
  function GoodCall(s: State, c: nat): (step: Step) {
    Execute(c, LateEnough(s), true, LateEnough(s) + MINUTE, 1)
  }

  lemma RunsCons(s: State, step: Step, steps: seq<Step>)
    requires Enabled(s, step) && Runs(Apply(s, step), steps)
    ensures Runs(s, [step] + steps) && Final(s, [step] + steps) == Final(Apply(s, step), steps)
  {
    assert ([step] + steps)[1..] == steps;
  }

  /** One failure short of opening and everyone past the check: each may still fail once. */
  lemma {:induction false} EachFailsOnce(s: State, c: nat) returns (steps: seq<Step>)
    requires c <= |s.callers| && forall i :: c <= i < |s.callers| ==> s.callers[i].Checked?
    requires s.circuit.failureThreshold == FAILURE_THRESHOLD && s.circuit.mode != HalfOpen
    requires s.circuit.failures == FAILURE_THRESHOLD - 1 + c && s.tries == s.circuit.failures * (MAX_RETRIES + 1)
    ensures Runs(s, steps) && Final(s, steps).tries == (FAILURE_THRESHOLD + |s.callers| - 1) * (MAX_RETRIES + 1)
    decreases |s.callers| - c
  {
    if c == |s.callers| {
      return [];
    }
    var step := FailingCall(s, c);
    var t := Apply(s, step);
    assert t.circuit.failures == s.circuit.failures + 1;
    steps := EachFailsOnce(t, c + 1);
    RunsCons(s, step, steps);
    steps := [step] + steps;
  }

  /** One caller fails and checks again until one more failure would open. */
  lemma {:induction false} OneFailsAgain(s: State) returns (steps: seq<Step>)
    requires s.callers != [] && forall i :: 0 <= i < |s.callers| ==> s.callers[i].Checked?
    requires s.circuit.failureThreshold == FAILURE_THRESHOLD && s.circuit.mode == Closed
    requires s.circuit.failures < FAILURE_THRESHOLD && s.tries == s.circuit.failures * (MAX_RETRIES + 1)
    ensures Runs(s, steps) && Final(s, steps).tries == (FAILURE_THRESHOLD + |s.callers| - 1) * (MAX_RETRIES + 1)
    decreases FAILURE_THRESHOLD - s.circuit.failures
  {
    if s.circuit.failures == FAILURE_THRESHOLD - 1 {
      steps := EachFailsOnce(s, 0);
      return;
    }
    var step := FailingCall(s, 0);
    var t := Apply(s, step);
    var u := Apply(t, Check(0));
    assert u.callers == s.callers;
    steps := OneFailsAgain(u);
    RunsCons(t, Check(0), steps);
    RunsCons(s, step, [Check(0)] + steps);
    steps := [step] + ([Check(0)] + steps);
  }

  lemma {:induction false} EveryoneChecks(s: State, c: nat) returns (steps: seq<Step>)
    requires s.callers != [] && c <= |s.callers| && s.circuit == New(5, 2, 30_000_000_000) && s.tries == 0
    requires forall i :: 0 <= i < |s.callers| ==> s.callers[i] == if i < c then Checked else Outside
    ensures Runs(s, steps) && Final(s, steps).tries == (FAILURE_THRESHOLD + |s.callers| - 1) * (MAX_RETRIES + 1)
    decreases |s.callers| - c
  {
    if c == |s.callers| {
      steps := OneFailsAgain(s);
      return;
    }
    steps := EveryoneChecks(Apply(s, Check(c)), c + 1);
    RunsCons(s, Check(c), steps);
    steps := [Check(c)] + steps;
  }

  /** The bound is attained, for every number of callers and starting time. */
  lemma ConcurrentWorkAttained(callers: nat, now: int) returns (steps: seq<Step>)
    requires callers > 0
    ensures Runs(Started(callers, now), steps)
    ensures Final(Started(callers, now), steps).tries == (FAILURE_THRESHOLD + callers - 1) * (MAX_RETRIES + 1)
  {
    steps := EveryoneChecks(Started(callers, now), 0);
  }

  predicate NoReset(steps: seq<Step>) {
    forall i :: 0 <= i < |steps| ==> !steps[i].ResetBreaker?
  }

  /** The step runs the plugin rather than being rejected. */
  predicate Executing(s: State, step: Step) {
    step.Execute? && Enabled(s, step) && Executes(s.circuit, step.start)
  }

  /** Some call reaches the plugin before the next reset. */
  ghost predicate CanExecute(s: State) {
    exists steps, step :: Runs(s, steps) && NoReset(steps) && Executing(Final(s, steps), step)
  }

  /** Some continuation without a reset ends with the breaker closed. */
  ghost predicate CanClose(s: State) {
    exists steps :: Runs(s, steps) && NoReset(steps) && Final(s, steps).circuit.mode == Closed
  }

  /** Some caller is between the check and the call. */
  ghost predicate SomeBetween(s: State) {
    exists c :: 0 <= c < |s.callers| && s.callers[c].Checked?
  }

  /** The breaker is open and nobody is past the check. */
  predicate ShutOff(s: State) {
    s.circuit.mode == Open && forall c :: 0 <= c < |s.callers| ==> s.callers[c].Outside?
  }

  lemma {:induction false} ShutOffStays(s: State, steps: seq<Step>)
    requires ShutOff(s) && Runs(s, steps) && NoReset(steps)
    ensures ShutOff(Final(s, steps))
    decreases |steps|
  {
    if steps != [] {
      assert !steps[0].ResetBreaker?;
      ShutOffStays(Apply(s, steps[0]), steps[1..]);
    }
  }

  /** The way back: a success through the half-open breaker, another check, another success. */
  lemma ClosingRun(s: State, c: nat)
    requires Inv(s) && s.circuit.mode == Open && c < |s.callers| && s.callers[c].Checked?
    ensures CanExecute(s) && CanClose(s)
  {
    var a := GoodCall(s, c);
    assert Runs(s, []) && NoReset([]) && Executing(Final(s, []), a);
    var t := Apply(s, a);
    assert t.circuit.mode == HalfOpen && t.circuit.successes == 1;
    var u := Apply(t, Check(c));
    var b := GoodCall(u, c);
    assert Apply(u, b).circuit.mode == Closed;
    assert Runs(Apply(u, b), []);
    RunsCons(u, b, []);
    RunsCons(t, Check(c), [b] + []);
    RunsCons(s, a, [Check(c)] + ([b] + []));
    var steps := [a] + ([Check(c)] + ([b] + []));
    assert NoReset(steps) && Final(s, steps).circuit.mode == Closed;
  }

  /**
    Exactly when an open breaker can recover without a reset, after any run: when
    some caller passed the check before it opened. With one caller at a time
    there is none, so no call reaches the plugin and it stays open.
   */
  lemma RecoversExactly(callers: nat, now: int, steps: seq<Step>)
    requires Runs(Started(callers, now), steps) && Final(Started(callers, now), steps).circuit.mode == Open
    ensures var s := Final(Started(callers, now), steps);
            (CanClose(s) <==> SomeBetween(s)) && (CanExecute(s) <==> SomeBetween(s))
  {
    InvStarted(callers, now);
    InvAlways(Started(callers, now), steps);
    var s := Final(Started(callers, now), steps);
    hide Inv, Started;
    if c :| 0 <= c < |s.callers| && s.callers[c].Checked? {
      hide CanExecute, CanClose, Runs, Final;
      ClosingRun(s, c);
    } else {
      forall more | Runs(s, more) && NoReset(more) ensures ShutOff(Final(s, more)) {
        ShutOffStays(s, more);
      }
    }
  }

  /** One caller at a time: an open breaker has nobody past the check, so only a reset brings it back. */
  lemma AloneNeverRecovers(now: int, steps: seq<Step>)
    requires Runs(Started(1, now), steps) && Final(Started(1, now), steps).circuit.mode == Open
    ensures !CanExecute(Final(Started(1, now), steps))
  {
    RecoversExactly(1, now, steps);
    InvStarted(1, now);
    InvAlways(Started(1, now), steps);
    var s := Final(Started(1, now), steps);
    hide CanExecute, Started, Runs, Final;
    if c :| 0 <= c < |s.callers| && s.callers[c].Checked? {
      TallyAtLeast(s.callers, c, IsChecked());
    }
  }
}
