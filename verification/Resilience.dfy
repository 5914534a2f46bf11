/**
  The Fabric Manager's circuit breaker (resilience/circuit_breaker.go) as a
  function of its call history, newest call first. Times are integers.
 */
module FmBreakerSpec {

  datatype Mode = Closed | Open | HalfOpen

  /** `lastFailure` is meaningful once a failure was recorded. */
  datatype Circuit = Circuit(mode: Mode, failures: nat, successes: nat, lastFailure: int,
                             failureThreshold: nat, successThreshold: nat, timeout: int)

  /** NewCircuitBreaker, with its defaults for values below one. */
  function New(failureThreshold: int, successThreshold: int, timeout: int): (c: Circuit)
    ensures c.failureThreshold == if failureThreshold >= 1 then failureThreshold else 5
    ensures c.successThreshold == if successThreshold >= 1 then successThreshold else 2
    ensures c.timeout == if timeout >= 1 then timeout else 30_000_000_000
    ensures c.mode == Closed && c.failures == c.successes == 0
  {
    Circuit(Closed, 0, 0, 0,
            if failureThreshold < 1 then 5 else failureThreshold,
            if successThreshold < 1 then 2 else successThreshold,
            if timeout < 1 then 30_000_000_000 else timeout)
  }

  /** The start of Call: an open breaker turns half-open once the timeout elapsed. */
  function Begin(c: Circuit, now: int): (d: Circuit) {
    if c.mode == Open && now - c.lastFailure > c.timeout then c.(mode := HalfOpen, successes := 0) else c
  }

  /** recordFailure or recordSuccess, after the protected function ran. */
  function Finish(c: Circuit, failed: bool, now: int): (d: Circuit) {
    if failed then
      c.(lastFailure := now, failures := c.failures + 1, successes := 0,
         mode := if c.failures + 1 >= c.failureThreshold then Open else c.mode)
    else
      c.(failures := 0, successes := c.successes + 1,
         mode := if c.mode == HalfOpen && c.successes + 1 >= c.successThreshold then Closed else c.mode)
  }

  function Cleared(c: Circuit): (d: Circuit) {
    c.(mode := Closed, failures := 0, successes := 0, lastFailure := 0)
  }

  /** A call to the breaker: when it started, and how the function would end and when. */
  datatype Event = Call(start: int, failed: bool, end: int) | Reset

  /** The call runs its function rather than being rejected. */
  predicate Executes(c: Circuit, start: int) {
    Begin(c, start).mode != Open
  }

  function Do(c: Circuit, e: Event): (d: Circuit) {
    match e
    case Reset => Cleared(c)
    case Call(start, failed, end) =>
      if Executes(c, start) then Finish(Begin(c, start), failed, end) else Begin(c, start)
  }

  function After(c: Circuit, h: seq<Event>): (d: Circuit) {
    if h == [] then c else Do(After(c, h[1..]), h[0])
  }

  // ---- reference notions on the history -------------------------------------

  predicate Ran(c: Circuit, h: seq<Event>)
    requires h != []
  {
    h[0].Call? && Executes(After(c, h[1..]), h[0].start)
  }

  /** The length of the trailing run of executed calls, since the last reset, that ended as `failed`. */
  function Trailing(c: Circuit, h: seq<Event>, failed: bool): (n: nat) {
    if h == [] || h[0].Reset? then 0
    else if !Ran(c, h) then Trailing(c, h[1..], failed)
    else if h[0].failed == failed then Trailing(c, h[1..], failed) + 1
    else 0
  }

  /** When the last executed call that failed ended. */
  function LastFailed(c: Circuit, h: seq<Event>): (t: int) {
    if h == [] || h[0].Reset? then 0
    else if Ran(c, h) && h[0].failed then h[0].end
    else LastFailed(c, h[1..])
  }

  /**
    In every run: the two counters are the trailing failure and success runs of
    executed calls, the remembered time is that of the last failure, and an
    open breaker has seen at least the threshold of failures in a row.
   */
  lemma {:induction false} CountersAreTrailingRuns(c: Circuit, h: seq<Event>)
    requires c.mode == Closed && c.failures == c.successes == 0 && c.lastFailure == 0
    ensures var d := After(c, h);
            && d.failures == Trailing(c, h, true)
            && d.successes == Trailing(c, h, false)
            && d.lastFailure == LastFailed(c, h)
            && d.failureThreshold == c.failureThreshold && d.successThreshold == c.successThreshold
            && d.timeout == c.timeout
            && (d.mode == Open ==> d.failures >= d.failureThreshold && d.successes == 0)
  {
    if h != [] {
      CountersAreTrailingRuns(c, h[1..]);
    }
  }

  /**
    A rejected call changes nothing, and a call gets through an open breaker
    exactly when it starts more than the timeout after the last failure.
   */
  lemma ThroughOpenExactlyAfterTimeout(c: Circuit, h: seq<Event>, e: Event)
    requires c.mode == Closed && c.failures == c.successes == 0 && c.lastFailure == 0 && e.Call?
    ensures var d := After(c, h);
            && (!Ran(c, [e] + h) ==> After(c, [e] + h) == d && d.mode == Open)
            && (d.mode == Open ==> (Ran(c, [e] + h) <==> e.start - LastFailed(c, h) > c.timeout))
  {
    CountersAreTrailingRuns(c, h);
    assert ([e] + h)[1..] == h && ([e] + h)[0] == e;
  }

  /**
    The next mode of a call, from the executed calls alone: a failure opens it
    exactly when it completes the threshold in a row, from closed and half-open
    alike; a success closes a half-open one, or one that opens into it, exactly
    when it completes its threshold.
   */
  lemma TransitionsExactly(c: Circuit, h: seq<Event>, e: Event)
    requires c.mode == Closed && c.failures == c.successes == 0 && c.lastFailure == 0 && e.Call?
    requires Ran(c, [e] + h)
    ensures var m, n := After(c, h).mode, After(c, [e] + h).mode;
            && (e.failed && Trailing(c, h, true) + 1 >= c.failureThreshold ==> n == Open)
            && (e.failed && Trailing(c, h, true) + 1 < c.failureThreshold ==> n == if m == Open then HalfOpen else m)
            && (!e.failed && m == Closed ==> n == Closed)
            && (!e.failed && m != Closed ==>
                  n == if Trailing(c, [e] + h, false) >= c.successThreshold then Closed else HalfOpen)
  {
    CountersAreTrailingRuns(c, h);
    CountersAreTrailingRuns(c, [e] + h);
    assert ([e] + h)[0] == e && ([e] + h)[1..] == h;
  }

  /**
    Half-open is entered through the timeout only, and left to closed only
    after a full trailing run of successes.
   */
  lemma ClosesOnlyAfterSuccesses(c: Circuit, h: seq<Event>)
    requires c.mode == Closed && c.failures == c.successes == 0 && c.lastFailure == 0
    requires h != [] && h[0].Call?
    requires After(c, h).mode == Closed && After(c, h[1..]).mode != Closed
    ensures Ran(c, h) && Trailing(c, h, false) >= c.successThreshold
  {
    CountersAreTrailingRuns(c, h);
    CountersAreTrailingRuns(c, h[1..]);
  }
}

/**
  The breaker, retry policy and dispatcher objects (dal/dispatcher.go,
  resilience/retry.go). The dispatcher's breakers are private to it and are
  kept by value; CircuitBreaker is the same breaker as an object of its own.
 */
module Dispatching {
  import opened FmBreakerSpec
  import opened DispatchSpec

  /**
    Everything outside: what the plugin will answer, when the context will be
    done, what the clock will show. All arbitrary; the counters say how much
    of each was consumed.
   */
  class World {
    const replies: nat -> Reply
    const done: nat -> bool
    const clock: nat -> int
    var tries: nat
    var polls: nat
    var ticks: nat

    constructor (replies: nat -> Reply, done: nat -> bool, clock: nat -> int)
      ensures this.replies == replies && this.done == done && this.clock == clock
      ensures tries == polls == ticks == 0
    {
      this.replies, this.done, this.clock := replies, done, clock;
      tries, polls, ticks := 0, 0, 0;
    }

    function Position(): (p: DispatchSpec.Position)
      reads this
    {
      DispatchSpec.Position(tries, polls)
    }

    method Try() returns (r: Reply)
      modifies this`tries
      ensures r == replies(old(tries)) && tries == old(tries) + 1
    {
      r := replies(tries);
      tries := tries + 1;
    }

    method Poll() returns (d: bool)
      modifies this`polls
      ensures d == done(old(polls)) && polls == old(polls) + 1
    {
      d := done(polls);
      polls := polls + 1;
    }

    method Now() returns (t: int)
      modifies this`ticks
      ensures ticks == old(ticks) + 1
    {
      t := clock(ticks);
      ticks := ticks + 1;
    }
  }

  class CircuitBreaker {
    var mode: Mode
    var failures: nat
    var successes: nat
    var lastFailure: int
    const failureThreshold: nat
    const successThreshold: nat
    const timeout: int

    function Circuit(): (c: FmBreakerSpec.Circuit)
      reads this
    {
      FmBreakerSpec.Circuit(mode, failures, successes, lastFailure, failureThreshold, successThreshold, timeout)
    }

    constructor (failureThreshold: int, successThreshold: int, timeout: int)
      ensures Circuit() == New(failureThreshold, successThreshold, timeout)
    {
      mode, failures, successes, lastFailure := Closed, 0, 0, 0;
      this.failureThreshold := if failureThreshold < 1 then 5 else failureThreshold;
      this.successThreshold := if successThreshold < 1 then 2 else successThreshold;
      this.timeout := if timeout < 1 then 30_000_000_000 else timeout;
    }

    /** The part of Call before the protected function. */
    method Enter(now: int) returns (execute: bool)
      modifies this
      ensures Circuit() == Begin(old(Circuit()), now) && (execute <==> Executes(old(Circuit()), now))
    {
      if mode == Open && now - lastFailure > timeout {
        mode := HalfOpen;
        successes := 0;
      }
      execute := mode != Open;
    }

    /** Call with a function that ends as `failed` at time `end`, if it is run at all. */
    method Call(start: int, failed: bool, end: int) returns (executed: bool)
      modifies this
      ensures Circuit() == Do(old(Circuit()), FmBreakerSpec.Call(start, failed, end))
      ensures executed <==> Executes(old(Circuit()), start)
    {
      executed := Enter(start);
      if executed {
        if failed {
          RecordFailure(end);
        } else {
          RecordSuccess();
        }
      }
    }

    method RecordFailure(now: int)
      modifies this
      ensures Circuit() == Finish(old(Circuit()), true, now)
    {
      lastFailure := now;
      failures := failures + 1;
      successes := 0;
      if failures >= failureThreshold {
        mode := Open;
      }
    }

    method RecordSuccess()
      modifies this
      ensures Circuit() == Finish(old(Circuit()), false, 0)
    {
      failures := 0;
      successes := successes + 1;
      if mode == HalfOpen && successes >= successThreshold {
        mode := Closed;
      }
    }

    method Reset()
      modifies this
      ensures Circuit() == Cleared(old(Circuit()))
    {
      mode, failures, successes, lastFailure := Closed, 0, 0, 0;
    }
  }

  /** No context is ever done. */
  ghost predicate Undisturbed(world: World) {
    forall k :: !world.done(k)
  }

  /** How many of the tries `from` up to `to` ended in a retryable error. */
  function Retryables(replies: nat -> Reply, from: nat, to: nat): (n: nat)
    decreases to
  {
    if to <= from then 0
    else Retryables(replies, from, to - 1) + if replies(to - 1) == ProgramError(true) then 1 else 0
  }

  lemma RetryablesNext(replies: nat -> Reply, from: nat, to: nat)
    ensures Retryables(replies, from, from) == 0
    ensures from <= to ==> Retryables(replies, from, to + 1)
                           == Retryables(replies, from, to) + if replies(to) == ProgramError(true) then 1 else 0
  {
  }

  lemma Disturbed(world: World, k: nat)
    ensures world.done(k) ==> !Undisturbed(world)
  {
  }

  /**
    RetryPolicy.Attempt around the dispatcher's function. At most maxRetries + 1
    tries; all but the last failed; success is the last try's; without
    cancellation a failure means every allowed try was used.
   */
  method Attempt(world: World, maxRetries: int) returns (ok: bool, retryable: nat, cancelled: bool)
    modifies world`tries, world`polls
    ensures (ok, world.Position()) == Attempted(world.replies, world.done, old(world.Position()), 0, maxRetries)
    ensures old(world.tries) <= world.tries
    ensures world.tries - old(world.tries) <= if maxRetries < 0 then 0 else maxRetries + 1
    ensures forall i :: old(world.tries) <= i < world.tries - 1 ==> world.replies(i) != Programmed
    ensures ok <==> world.tries > old(world.tries) && world.replies(world.tries - 1) == Programmed
    ensures ok ==> !cancelled
    ensures retryable == Retryables(world.replies, old(world.tries), world.tries)
    ensures !ok && !cancelled ==> world.tries - old(world.tries) == if maxRetries < 0 then 0 else maxRetries + 1
    ensures cancelled ==> !Undisturbed(world)
  {
    hide Attempted, Retryables, Undisturbed;
    RetryablesNext(world.replies, world.tries, world.tries);
    retryable := 0;
    var attempt := 0;
    while attempt <= maxRetries
      invariant attempt == world.tries - old(world.tries)
      invariant Attempted(world.replies, world.done, world.Position(), attempt, maxRetries)
                == Attempted(world.replies, world.done, old(world.Position()), 0, maxRetries)
      invariant retryable == Retryables(world.replies, old(world.tries), world.tries)
      invariant 0 <= attempt <= if maxRetries < 0 then 0 else maxRetries + 1
      invariant forall i :: old(world.tries) <= i < world.tries ==> world.replies(i) != Programmed
    {
      AttemptedStep(world.replies, world.done, world.Position(), attempt, maxRetries);
      RetryablesNext(world.replies, old(world.tries), world.tries);
      Disturbed(world, world.polls);
      Disturbed(world, world.polls + 1);
      cancelled := world.Poll();
      if cancelled {
        return false, retryable, true;
      }
      var r := world.Try();
      if r == Programmed {
        return true, retryable, false;
      }
      if r.ProgramError? && r.retryable {
        retryable := retryable + 1;
      }
      if attempt < maxRetries {
        cancelled := world.Poll();
        if cancelled {
          return false, retryable, true;
        }
      }
      attempt := attempt + 1;
    }
    AttemptedStep(world.replies, world.done, world.Position(), attempt, maxRetries);
    return false, retryable, false;
  }

  datatype Stats = Stats(dispatched: nat, succeeded: nat, failed: nat, retries: nat,
                         circuitOpen: nat, fallbacks: nat)

  /**
    A vendor's breaker between calls: never half-open, open exactly after five
    failed calls in a row, and `tries` plugin tries since the last success or
    reset, at most four per failed call.
   */
  ghost predicate Bounded(c: Circuit, tries: nat) {
    && c.failureThreshold == FAILURE_THRESHOLD
    && c.mode != HalfOpen
    && c.failures <= FAILURE_THRESHOLD
    && (c.mode == Open <==> c.failures == FAILURE_THRESHOLD)
    && tries <= c.failures * (MAX_RETRIES + 1)
  }

  /** A breaker that is not open runs the call, and stays bounded. */
  lemma BoundedAfter(c: Circuit, start: int, ok: bool, end: int, tries: nat, n: nat)
    requires Bounded(c, tries) && c.mode != Open && n <= MAX_RETRIES + 1
    ensures Executes(c, start)
    ensures var d := Finish(Begin(c, start), !ok, end);
            Bounded(d, if ok then 0 else tries + n) && d.failures == if ok then 0 else c.failures + 1
    ensures tries + n <= WORK
  {
  }

  /** cb.Call around retryPolicy.Attempt: the breaker after the call. */
  method Guarded(c: Circuit, world: World, ghost tries: nat) returns (ok: bool, retryable: nat, d: Circuit)
    requires Bounded(c, tries) && c.mode != Open
    modifies world
    ensures (ok, world.Position()) == Attempted(world.replies, world.done, old(world.Position()), 0, MAX_RETRIES)
    ensures old(world.tries) <= world.tries
    ensures Bounded(d, if ok then 0 else tries + world.tries - old(world.tries))
    ensures tries + world.tries - old(world.tries) <= WORK
    ensures d.failures == if ok then 0 else c.failures + 1
    ensures world.tries - old(world.tries) <= MAX_RETRIES + 1
    ensures Undisturbed(world) && !ok ==> world.tries - old(world.tries) == MAX_RETRIES + 1
    ensures retryable == Retryables(world.replies, old(world.tries), world.tries)
    ensures ok <==> world.tries > old(world.tries) && world.replies(world.tries - 1) == Programmed
  {
    hide Undisturbed, Attempted, Retryables, Bounded;
    var now := world.Now();
    d := Begin(c, now);
    ghost var before := world.tries;
    var cancelled;
    ok, retryable, cancelled := Attempt(world, MAX_RETRIES);
    var end := world.Now();
    BoundedAfter(c, now, ok, end, tries, world.tries - before);
    d := Finish(d, !ok, end);
    hide Finish, Begin;
  }

  /** Every vendor is bounded. */
  ghost predicate AllBounded(breakers: map<Vendor, Circuit>, tries: map<Vendor, nat>) {
    && tries.Keys == breakers.Keys
    && forall v :: v in breakers ==> Bounded(breakers[v], tries[v])
  }

  lemma BoundedLookup(breakers: map<Vendor, Circuit>, tries: map<Vendor, nat>, v: Vendor)
    requires AllBounded(breakers, tries)
    ensures if v in breakers then v in tries && Bounded(breakers[v], tries[v])
            else v !in tries && Bounded(New(5, 2, 30_000_000_000), 0)
    ensures v in breakers ==> tries[v] <= WORK
  {
  }

  lemma BoundedUpdate(breakers: map<Vendor, Circuit>, tries: map<Vendor, nat>, v: Vendor, c: Circuit, n: nat)
    requires AllBounded(breakers, tries) && Bounded(c, n)
    ensures AllBounded(breakers[v := c], tries[v := n])
  {
  }

  /** A vendor's failure count; a vendor without a breaker has none. */
  function Failures(breakers: map<Vendor, Circuit>, v: Vendor): (n: nat) {
    if v in breakers then breakers[v].failures else 0
  }

  lemma OpenAtThreshold(breakers: map<Vendor, Circuit>, tries: map<Vendor, nat>, v: Vendor)
    requires AllBounded(breakers, tries)
    ensures v in breakers && breakers[v].mode == Open <==> Failures(breakers, v) == FAILURE_THRESHOLD
    ensures Failures(breakers, v) <= FAILURE_THRESHOLD
  {
  }

  lemma Overwritten<A, B>(m: map<A, B>, k: A, x: B, y: B)
    ensures m[k := x][k := y] == m[k := y]
  {
  }

  class Dispatcher {
    var stats: Stats
    var breakers: map<Vendor, Circuit>
    const vendorFallbacks: map<Vendor, seq<Vendor>>
    ghost var tries: map<Vendor, nat>  // plugin tries since the vendor's last success or reset

    /** What holds between calls: every vendor is bounded and the counters balance. */
    ghost predicate Valid()
      reads this
    {
      AllBounded(breakers, tries) && stats.dispatched == stats.succeeded + stats.failed
    }

    predicate IsOpen(vendor: Vendor)
      reads this
    {
      vendor in breakers && breakers[vendor].mode == Open
    }

    /** Every vendor a Dispatch may try is open. */
    predicate AllOpen()
      reads this
    {
      forall i :: 0 <= i < |Chain()| ==> IsOpen(Chain()[i])
    }

    constructor ()
      ensures Valid() && breakers == map[] && stats == Stats(0, 0, 0, 0, 0, 0)
      ensures vendorFallbacks == map[Intel := [Custom], Nvidia := [Custom], Custom := []]
    {
      stats := Stats(0, 0, 0, 0, 0, 0);
      breakers, tries := map[], map[];
      vendorFallbacks := map[Intel := [Custom], Nvidia := [Custom], Custom := []];
    }

    /** The vendors a Dispatch may try, in order: the primary and its fallbacks. */
    function Chain(): (vs: seq<Vendor>) {
      [Custom] + Fallbacks()
    }

    function Fallbacks(): (vs: seq<Vendor>) {
      if Custom in vendorFallbacks then vendorFallbacks[Custom] else []
    }

    /**
      One vendor: get or create its breaker, refuse when it is open, otherwise
      retry inside it. Other vendors' breakers are left alone.
     */
    method DispatchWithResilience(vendor: Vendor, world: World) returns (ok: bool)
      requires AllBounded(breakers, tries)
      modifies this, world
      ensures AllBounded(breakers, tries) && old(world.tries) <= world.tries
      ensures vendor in breakers && breakers == old(breakers)[vendor := breakers[vendor]]
      ensures tries == old(tries)[vendor := if ok then 0 else old(TriesOf(vendor)) + world.tries - old(world.tries)]
      ensures old(TriesOf(vendor)) + world.tries - old(world.tries) <= WORK
      ensures stats == old(stats).(succeeded := old(stats.succeeded) + if ok then 1 else 0,
                                   retries := old(stats.retries)
                                              + Retryables(world.replies, old(world.tries), world.tries),
                                   circuitOpen := old(stats.circuitOpen) + if old(IsOpen(vendor)) then 1 else 0)
      ensures Failures(breakers, vendor) == if ok then 0
                                            else Failures(old(breakers), vendor) + if old(IsOpen(vendor)) then 0 else 1
      ensures old(IsOpen(vendor)) ==> world.Position() == old(world.Position())
      ensures !old(IsOpen(vendor)) ==>
                (ok, world.Position()) == Attempted(world.replies, world.done, old(world.Position()), 0, MAX_RETRIES)
      ensures world.tries - old(world.tries) <= MAX_RETRIES + 1
      ensures Undisturbed(world) && !ok && !old(IsOpen(vendor)) ==> world.tries - old(world.tries) == MAX_RETRIES + 1
      ensures old(IsOpen(vendor)) ==> !ok && IsOpen(vendor) && world.tries == old(world.tries)
      ensures forall v :: old(IsOpen(v)) ==> IsOpen(v)
      ensures ok ==> world.tries > old(world.tries) && world.replies(world.tries - 1) == Programmed
    {
      hide AllBounded, Bounded, Undisturbed, Attempted;
      var c := if vendor in breakers then breakers[vendor] else New(5, 2, 30_000_000_000);
      assert c.mode == Open <==> IsOpen(vendor);
      assert c.failures == Failures(breakers, vendor);
      hide New;
      ghost var n := TriesOf(vendor);
      BoundedLookup(breakers, tries, vendor);
      BoundedUpdate(breakers, tries, vendor, c, n);
      breakers, tries := breakers[vendor := c], tries[vendor := n];
      if c.mode == Open {
        stats := stats.(circuitOpen := stats.circuitOpen + 1);
        return false;
      }
      hide Retryables;
      ok := Protected(vendor, c, world);
      Overwritten(old(breakers), vendor, c, breakers[vendor]);
      Overwritten(old(tries), vendor, n, tries[vendor]);
    }

    /** The part of dispatchWithResilience after the check of the breaker's state. */
    method Protected(vendor: Vendor, c: Circuit, world: World) returns (ok: bool)
      requires AllBounded(breakers, tries)
      requires vendor in breakers && breakers[vendor] == c && c.mode != Open && vendor in tries
      modifies this, world
      ensures AllBounded(breakers, tries) && old(world.tries) <= world.tries
      ensures vendor in breakers && breakers == old(breakers)[vendor := breakers[vendor]]
      ensures vendor in tries && tries == old(tries)[vendor := tries[vendor]]
      ensures tries[vendor] == if ok then 0 else old(tries[vendor]) + world.tries - old(world.tries)
      ensures old(tries[vendor]) + world.tries - old(world.tries) <= WORK
      ensures stats == old(stats).(succeeded := old(stats.succeeded) + if ok then 1 else 0,
                                   retries := old(stats.retries)
                                              + Retryables(world.replies, old(world.tries), world.tries))
      ensures breakers[vendor].failures == if ok then 0 else c.failures + 1
      ensures (ok, world.Position()) == Attempted(world.replies, world.done, old(world.Position()), 0, MAX_RETRIES)
      ensures world.tries - old(world.tries) <= MAX_RETRIES + 1
      ensures Undisturbed(world) && !ok ==> world.tries - old(world.tries) == MAX_RETRIES + 1
      ensures ok ==> world.tries > old(world.tries) && world.replies(world.tries - 1) == Programmed
    {
      hide AllBounded, Bounded, Undisturbed, Retryables, Attempted;
      BoundedLookup(breakers, tries, vendor);
      var retryable, d;
      ok, retryable, d := Guarded(c, world, tries[vendor]);
      ghost var n := if ok then 0 else tries[vendor] + world.tries - old(world.tries);
      BoundedUpdate(breakers, tries, vendor, d, n);
      breakers, tries := breakers[vendor := d], tries[vendor := n];
      stats := stats.(retries := stats.retries + retryable);
      if ok {
        stats := stats.(succeeded := stats.succeeded + 1);
      }
    }

    /** Plugin tries for the vendor since its last success or reset. */
    ghost function TriesOf(vendor: Vendor): (n: nat)
      reads this
    {
      if vendor in tries then tries[vendor] else 0
    }

    /**
      Dispatch: the primary vendor, then the fallbacks until one succeeds. A
      refused goal (done context or missing goal) is not counted. If every
      vendor it may try is open, the plugin is not tried and all stay open.
     */
    method Dispatch(hasGoal: bool, world: World) returns (ok: bool, refused: bool)
      requires Valid()
      modifies this, world
      ensures Valid() && old(world.tries) <= world.tries
      ensures stats.dispatched == old(stats.dispatched) + if refused then 0 else 1
      ensures stats.succeeded == old(stats.succeeded) + if ok then 1 else 0
      ensures !refused && !ok ==> stats.fallbacks == old(stats.fallbacks) + |Fallbacks()|
      ensures !refused && !ok ==> Custom in breakers
      ensures !refused && !ok ==> forall i :: 0 <= i < |Fallbacks()| ==> Fallbacks()[i] in breakers
      ensures Fallbacks() == [] ==> old(TriesOf(Custom)) + world.tries - old(world.tries) <= WORK || refused
      ensures Fallbacks() == [] && !refused ==>
                TriesOf(Custom) == if ok then 0 else old(TriesOf(Custom)) + world.tries - old(world.tries)
      ensures Fallbacks() == [] && !refused ==>
                Failures(breakers, Custom) == if ok then 0
                                              else Failures(old(breakers), Custom) + if old(IsOpen(Custom)) then 0 else 1
      ensures Fallbacks() == [] ==>
                (Mirror(world.Position(), Failures(breakers, Custom)), Ended(ok, refused))
                == Acted(world.replies, world.done, Mirror(old(world.Position()), Failures(old(breakers), Custom)),
                         DispatchGoal(hasGoal))
      ensures Fallbacks() == [] ==> world.tries - old(world.tries) <= MAX_RETRIES + 1
      ensures Fallbacks() == [] && Undisturbed(world) && !refused && !ok && !old(IsOpen(Custom)) ==>
                world.tries - old(world.tries) == MAX_RETRIES + 1
      ensures refused <==> !hasGoal || world.done(old(world.polls))
      ensures refused ==> !ok && world.tries == old(world.tries) && breakers == old(breakers) && tries == old(tries)
      ensures ok ==> world.tries > old(world.tries) && world.replies(world.tries - 1) == Programmed
      ensures old(AllOpen()) ==> !ok && world.tries == old(world.tries) && AllOpen()
    {
      hide AllBounded, Retryables, Bounded, Undisturbed, Attempted;
      OpenAtThreshold(breakers, tries, Custom);
      var cancelled := world.Poll();
      if cancelled || !hasGoal {
        return false, true;
      }
      refused := false;
      stats := stats.(dispatched := stats.dispatched + 1);
      assert Chain()[0] == Custom;
      ok := DispatchWithResilience(Custom, world);
      if !ok {
        ok := TryFallbacks(world);
        if !ok {
          stats := stats.(failed := stats.failed + 1);
        }
      }
    }

    /** The loop of Dispatch over the fallbacks, until one succeeds. */
    method TryFallbacks(world: World) returns (ok: bool)
      requires AllBounded(breakers, tries)
      modifies this, world
      ensures AllBounded(breakers, tries) && old(world.tries) <= world.tries
      ensures stats.dispatched == old(stats.dispatched) && stats.failed == old(stats.failed)
      ensures stats.succeeded == old(stats.succeeded) + if ok then 1 else 0
      ensures !ok ==> stats.fallbacks == old(stats.fallbacks) + |Fallbacks()|
      ensures !ok ==> forall i :: 0 <= i < |Fallbacks()| ==> Fallbacks()[i] in breakers
      ensures forall v :: v in old(breakers) ==> v in breakers
      ensures ok ==> world.tries > old(world.tries) && world.replies(world.tries - 1) == Programmed
      ensures old(AllOpen()) ==> !ok && world.tries == old(world.tries) && AllOpen()
      ensures Fallbacks() == [] ==>
                !ok && world.Position() == old(world.Position()) && tries == old(tries) && breakers == old(breakers)
    {
      hide AllBounded, Retryables, Bounded, Undisturbed, Failures, Attempted;
      ok := false;
      var i := 0;
      while i < |Fallbacks()|
        invariant 0 <= i <= |Fallbacks()| && !ok
        invariant AllBounded(breakers, tries) && old(world.tries) <= world.tries
        invariant stats.dispatched == old(stats.dispatched) && stats.failed == old(stats.failed)
        invariant stats.succeeded == old(stats.succeeded) && stats.fallbacks == old(stats.fallbacks) + i
        invariant forall v :: v in old(breakers) ==> v in breakers
        invariant forall k :: 0 <= k < i ==> Fallbacks()[k] in breakers
        invariant old(AllOpen()) ==> world.tries == old(world.tries) && AllOpen()
        invariant i == 0 ==> world.Position() == old(world.Position()) && tries == old(tries) && breakers == old(breakers)
      {
        stats := stats.(fallbacks := stats.fallbacks + 1);
        assert Chain()[i + 1] == Fallbacks()[i];
        ok := DispatchWithResilience(Fallbacks()[i], world);
        if ok {
          return;
        }
        i := i + 1;
      }
    }

    /** The only way back for an open vendor. */
    method ResetCircuitBreaker(vendor: Vendor)
      requires Valid()
      modifies this
      ensures Valid() && !IsOpen(vendor) && stats == old(stats) && TriesOf(vendor) == 0
      ensures Failures(breakers, vendor) == 0
      ensures forall v :: v != vendor ==> TriesOf(v) == old(TriesOf(v))
      ensures forall v :: v != vendor ==> Failures(breakers, v) == Failures(old(breakers), v)
      ensures forall v :: v in old(breakers) && v != vendor ==> v in breakers && breakers[v] == old(breakers[v])
    {
      if vendor in breakers {
        breakers := breakers[vendor := Cleared(breakers[vendor])];
        tries := tries[vendor := 0];
      }
    }
  }

  /**
    Between the calls of any run: at most failure threshold times tries per
    call plugin tries since the vendor's last success or reset, never a
    half-open breaker, and every dispatched goal succeeded or failed.
   */
  lemma WorkBounded(d: Dispatcher, vendor: Vendor)
    requires d.Valid()
    ensures d.TriesOf(vendor) <= WORK
    ensures vendor in d.breakers ==> d.breakers[vendor].mode != HalfOpen
    ensures d.IsOpen(vendor) <==> vendor in d.breakers && d.breakers[vendor].failures >= FAILURE_THRESHOLD
    ensures d.stats.dispatched == d.stats.succeeded + d.stats.failed
  {
    if vendor in d.breakers {
      assert Bounded(d.breakers[vendor], d.tries[vendor]);
    }
  }

  /**
    No recovery without a reset: once every vendor Dispatch may try is open,
    any number of dispatches, whatever the clock shows, tries no plugin and
    fails every accepted goal.
   */
  method OpenForGood(d: Dispatcher, world: World, goals: seq<bool>)
    requires d.Valid() && d.AllOpen()
    modifies d, world
    ensures d.Valid() && d.AllOpen()
    ensures world.tries == old(world.tries) && d.stats.succeeded == old(d.stats.succeeded)
  {
    for n := 0 to |goals|
      invariant d.Valid() && d.AllOpen()
      invariant world.tries == old(world.tries) && d.stats.succeeded == old(d.stats.succeeded)
    {
      var ok, refused := d.Dispatch(goals[n], world);
    }
  }

  // ---- whole runs -------------------------------------------------------------

  /** How a dispatch ended. */
  function Ended(ok: bool, refused: bool): (o: Outcome) {
    if refused then Refused else if ok then Succeeded else Failed
  }

  /** One action on a dispatcher without fallbacks, such as NewPluginDispatcher makes: the reference's step. */
  method Act(d: Dispatcher, world: World, a: Action) returns (ghost o: Outcome)
    requires d.Valid() && d.Fallbacks() == []
    modifies d, world
    ensures d.Valid()
    ensures (Mirror(world.Position(), Failures(d.breakers, Custom)), o)
            == Acted(world.replies, world.done, Mirror(old(world.Position()), Failures(old(d.breakers), Custom)), a)
    ensures d.stats.succeeded == old(d.stats.succeeded) + if o.Succeeded? then 1 else 0
    ensures d.stats.failed == old(d.stats.failed) + if o.Failed? then 1 else 0
  {
    hide AllBounded, Attempted;
    match a
    case DispatchGoal(present) =>
      var ok, refused := d.Dispatch(present, world);
      o := Ended(ok, refused);
    case ResetVendor(vendor) =>
      d.ResetCircuitBreaker(vendor);
      o := if vendor == Custom then CustomReset else OtherReset;
  }

  /**
    Main theorem: any run of a new dispatcher, under any clock, is the reference
    run, outcome by outcome, try by try. So Custom is open exactly when the last
    five accepted dispatches since its last success or reset all failed; every
    accepted dispatch is counted as success or failure; and the plugin tries are
    at most twenty for each success and each reset of Custom, and twenty more.
   */
  method AnyRun(world: World, script: seq<Action>) returns (d: Dispatcher, ghost log: seq<Outcome>)
    modifies world
    ensures fresh(d) && d.Valid()
    ensures (Mirror(world.Position(), Failures(d.breakers, Custom)), log)
            == ReferenceRun(world.replies, world.done, old(world.Position()), script)
    ensures d.IsOpen(Custom) <==> FailedRun(log) >= 5
    ensures d.stats.succeeded == Count(log, Succeeded) && d.stats.failed == Count(log, Failed)
    ensures world.tries - old(world.tries) <= 20 * (Count(log, Succeeded) + Count(log, CustomReset) + 1)
  {
    hide AllBounded, Acted;
    d := new Dispatcher();
    log := [];
    var n := 0;
    assert script[..0] == [];
    while n < |script|
      invariant 0 <= n <= |script| && fresh(d) && d.Valid() && d.Fallbacks() == []
      invariant (Mirror(world.Position(), Failures(d.breakers, Custom)), log)
                == ReferenceRun(world.replies, world.done, old(world.Position()), script[..n])
      invariant d.stats.succeeded == Count(log, Succeeded) && d.stats.failed == Count(log, Failed)
    {
      hide Dispatcher.Valid, Failures, Count;
      assert script[..n + 1][..n] == script[..n];
      ghost var o := Act(d, world, script[n]);
      ConsLog(o, log);
      log := [o] + log;
      n := n + 1;
    }
    assert script[..n] == script;
    FailuresAreTheRun(world.replies, world.done, old(world.Position()), script);
    WorkWithin(world.replies, world.done, old(world.Position()), script);
    OpenAtThreshold(d.breakers, d.tries, Custom);
  }

  /**
    No recovery without a reset, from a new dispatcher on: a plugin that fails
    its first twenty tries, and may work ever after, is never tried again,
    however many goals follow and whatever the clock shows.
   */
  method NeverRecovers(world: World, later: seq<bool>) returns (d: Dispatcher)
    requires Undisturbed(world)
    requires forall i :: world.tries <= i < world.tries + 20 ==> world.replies(i) != Programmed
    modifies world
    ensures fresh(d) && d.Valid() && d.AllOpen()
    ensures world.tries == old(world.tries) + 20 && d.stats.succeeded == 0
  {
    hide AllBounded;
    d := new Dispatcher();
    for n := 0 to FAILURE_THRESHOLD
      invariant fresh(d) && d.Valid() && d.Fallbacks() == []
      invariant Failures(d.breakers, Custom) == n && d.stats.succeeded == 0
      invariant world.tries == old(world.tries) + n * (MAX_RETRIES + 1)
    {
      OpenAtThreshold(d.breakers, d.tries, Custom);
      assert !world.done(world.polls);
      hide Failures;
      var ok, refused := d.Dispatch(true, world);
    }
    OpenAtThreshold(d.breakers, d.tries, Custom);
    OpenForGood(d, world, later);
  }
}
