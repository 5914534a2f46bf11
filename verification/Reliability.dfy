/** Attempt-time budgeting of the Weaver gateway (reliability/timeout.go), in nanoseconds. */
module Timeouts {

  const OVERHEAD: int := 50_000_000

  /** Go's integer division, which truncates toward zero. */
  function GoDiv(a: int, n: int): (q: int)
    requires n != 0
  {
    if (a >= 0) == (n > 0) then (if a >= 0 then a / n else (-a) / (-n))
    else if a >= 0 then -(a / (-n)) else -((-a) / n)
  }

  /**
    CalculateAttemptTimeout with `remaining` time until the global deadline.
    The division panics when no attempt is left, so a caller must not ask.
   */
  function AttemptTimeout(remaining: int, maxAttempts: int, current: int, replicaTimeout: int): (t: int)
    requires remaining > 0 ==> maxAttempts - current + 1 != 0
    ensures t >= 0 && (remaining <= 0 ==> t == 0)
  {
    if remaining <= 0 then 0
    else
      var perAttempt := GoDiv(remaining, maxAttempts - current + 1) - OVERHEAD;
      var capped := if perAttempt > replicaTimeout then replicaTimeout else perAttempt;
      if capped < 0 then 0 else capped
  }

  /** `n` attempts of timeout `t`, overhead included, fit into the time remaining. */
  predicate Fits(t: int, n: nat, remaining: int) {
    (t + OVERHEAD) * n <= remaining
  }

  lemma FitsExactly(t: int, n: nat, remaining: nat)
    requires n > 0
    ensures Fits(t, n, remaining) <==> t + OVERHEAD <= remaining / n
  {
    ShareOfTotal(remaining, n);
    ProductOrder(t + OVERHEAD, remaining / n, n);
    ProductOrder(remaining / n, t + OVERHEAD, n);
  }

  /**
    What the timeout is for: with attempts left to make, it is the greatest one
    within the replica timeout for which all of them still fit into the time
    remaining; and zero when none does.
   */
  lemma GreatestThatFits(remaining: int, maxAttempts: int, current: int, replicaTimeout: int)
    requires remaining > 0 && maxAttempts >= current
    ensures var t, n := AttemptTimeout(remaining, maxAttempts, current, replicaTimeout), maxAttempts - current + 1;
            && (t > 0 ==> t <= replicaTimeout && Fits(t, n, remaining))
            && (forall u :: t < u <= replicaTimeout ==> !Fits(u, n, remaining))
  {
    hide Fits;
    var t, n := AttemptTimeout(remaining, maxAttempts, current, replicaTimeout), maxAttempts - current + 1;
    FitsExactly(t, n, remaining);
    forall u | t < u <= replicaTimeout ensures !Fits(u, n, remaining) {
      FitsExactly(u, n, remaining);
    }
  }

  /** The time left when attempt `k` starts, attempt `i` having used `used[i - 1]`. */
  function TimeLeft(first: int, used: seq<int>, k: nat): (r: int)
    requires 1 <= k <= |used| + 1
  {
    if k == 1 then first else TimeLeft(first, used, k - 1) - used[k - 2]
  }

  /** The timeout attempt `k` of |used| is given. */
  function TimeoutOf(first: int, used: seq<int>, k: nat, replicaTimeout: int): (t: int)
    requires 1 <= k <= |used|
  {
    AttemptTimeout(TimeLeft(first, used, k), |used|, k, replicaTimeout)
  }

  /** Every attempt keeps to its timeout plus the overhead. */
  ghost predicate Keeps(first: int, used: seq<int>, replicaTimeout: int) {
    forall k :: 1 <= k <= |used| ==>
      0 <= used[k - 1] <= TimeoutOf(first, used, k, replicaTimeout) + OVERHEAD
  }

  lemma ShareOfTotal(r: nat, n: nat)
    requires n > 0
    ensures r / n * n <= r < r / n * n + n
  {
  }

  lemma ShareAtLeast(r: int, n: nat, x: int)
    requires n > 0 && r >= 0 && x * n <= r
    ensures x <= r / n
  {
    ShareOfTotal(r, n);
    ProductOrder(x, r / n, n);
  }

  lemma ProductOrder(x: int, y: int, n: nat)
    requires n > 0
    ensures x > y ==> x * n >= y * n + n
  {
    if x > y {
      var d := x - y - 1;
      assert d * n >= 0;
      assert x * n == (y + (d + 1)) * n == y * n + (d + 1) * n == y * n + (d * n + n);
    }
  }

  /** Spending at most one share of the time leaves the other shares no smaller. */
  lemma ShareKept(r: int, n: nat, u: int)
    requires n > 1 && r >= 0 && 0 <= u <= r / n
    ensures r - u >= 0 && r / n <= (r - u) / (n - 1)
  {
    ShareOfTotal(r, n);
    var q := r / n;
    assert q * n == q * (n - 1) + q;
    assert q * (n - 1) >= 0;
    ShareAtLeast(r - u, n - 1, q);
  }

  /** The share of attempt `k` never falls below that of attempt 1, nor below the overhead. */
  lemma {:induction false} ShareGrows(first: int, used: seq<int>, replicaTimeout: int, k: nat)
    requires 1 <= k <= |used| && Keeps(first, used, replicaTimeout)
    requires first >= |used| * OVERHEAD
    ensures TimeLeft(first, used, k) >= 0
    ensures TimeLeft(first, used, k) / (|used| - k + 1) >= OVERHEAD
    ensures k > 1 ==> TimeLeft(first, used, k - 1) >= 0
    ensures k > 1 ==>
              TimeLeft(first, used, k - 1) / (|used| - k + 2) <= TimeLeft(first, used, k) / (|used| - k + 1)
  {
    var n := |used|;
    if k == 1 {
      assert OVERHEAD * n <= first;
      ShareAtLeast(first, n, OVERHEAD);
    } else {
      ShareGrows(first, used, replicaTimeout, k - 1);
      UseWithinShare(first, used, replicaTimeout, k - 1);
      ShareKept(TimeLeft(first, used, k - 1), n - k + 2, used[k - 2]);
    }
  }

  lemma UseWithinShare(first: int, used: seq<int>, replicaTimeout: int, k: nat)
    requires 1 <= k <= |used| && Keeps(first, used, replicaTimeout)
    requires TimeLeft(first, used, k) >= 0 && TimeLeft(first, used, k) / (|used| - k + 1) >= OVERHEAD
    ensures 0 <= used[k - 1] <= TimeLeft(first, used, k) / (|used| - k + 1)
  {
    hide TimeLeft;
    assert used[k - 1] <= TimeoutOf(first, used, k, replicaTimeout) + OVERHEAD;
  }

  /** A timeout follows its share. */
  lemma TimeoutGrows(r: int, r': int, n: nat, k: nat, replicaTimeout: int)
    requires 1 <= k < n && r >= 0 && r' >= 0 && r / (n - k + 1) <= r' / (n - k) && OVERHEAD <= r / (n - k + 1)
    ensures AttemptTimeout(r, n, k, replicaTimeout) <= AttemptTimeout(r', n, k + 1, replicaTimeout)
  {
  }

  /**
    Main theorem: if attempt 1 starts with at least the overhead per attempt
    left and every attempt keeps to its timeout plus the overhead, then timeouts
    never decrease from one attempt to the next, and all attempts end by the
    global deadline.
   */
  lemma BudgetHolds(first: int, used: seq<int>, replicaTimeout: int)
    requires Keeps(first, used, replicaTimeout) && first >= |used| * 50_000_000
    ensures forall k :: 1 <= k < |used| ==>
              TimeoutOf(first, used, k, replicaTimeout) <= TimeoutOf(first, used, k + 1, replicaTimeout)
    ensures TimeLeft(first, used, |used| + 1) >= 0
  {
    forall k | 1 <= k < |used|
      ensures TimeoutOf(first, used, k, replicaTimeout) <= TimeoutOf(first, used, k + 1, replicaTimeout)
    {
      hide TimeLeft, Keeps;
      ShareGrows(first, used, replicaTimeout, k);
      ShareGrows(first, used, replicaTimeout, k + 1);
      TimeoutGrows(TimeLeft(first, used, k), TimeLeft(first, used, k + 1), |used|, k, replicaTimeout);
    }
    var n := |used|;
    if n > 0 {
      ShareGrows(first, used, replicaTimeout, n);
      UseWithinShare(first, used, replicaTimeout, n);
    }
  }

  lemma {:induction false} SteadyUse(first: int, used: seq<int>, k: nat)
    requires 1 <= k <= |used| + 1 && (forall i :: 0 <= i < |used| ==> used[i] == OVERHEAD)
    ensures TimeLeft(first, used, k) == first - (k - 1) * OVERHEAD
  {
    if k > 1 {
      SteadyUse(first, used, k - 1);
    }
  }

  /**
    The overhead per attempt is exactly what must be left at the start: it is
    enough for every well-behaved run, and with less some well-behaved run
    overruns the global deadline.
   */
  lemma BudgetHoldsExactly(first: int, maxAttempts: nat, replicaTimeout: int)
    ensures (forall used: seq<int> :: |used| == maxAttempts && Keeps(first, used, replicaTimeout) ==>
               TimeLeft(first, used, maxAttempts + 1) >= 0)
            <==> first >= maxAttempts * 50_000_000
  {
    if first >= maxAttempts * OVERHEAD {
      forall used: seq<int> | |used| == maxAttempts && Keeps(first, used, replicaTimeout)
        ensures TimeLeft(first, used, maxAttempts + 1) >= 0
      {
        BudgetHolds(first, used, replicaTimeout);
      }
    } else {
      var used := seq(maxAttempts, i => OVERHEAD);
      assert Keeps(first, used, replicaTimeout);
      SteadyUse(first, used, maxAttempts + 1);
    }
  }

  datatype Deadline = NoDeadline | At(t: int)

  /** The deadline an attempt works against: the request's own, or the global timeout from `now`. */
  function DeadlineOf(request: Deadline, now: int, globalTimeout: int): (d: int) {
    if request.At? then request.t else now + globalTimeout
  }

  /**
    CreateAttemptContext: the attempt's deadline, with its three clock readings
    (for a missing request deadline, for the time remaining, for the attempt).
   */
  function AttemptDeadline(request: Deadline, clock: (int, int, int), globalTimeout: int,
                           maxAttempts: int, current: int, replicaTimeout: int): (d: int)
    requires DeadlineOf(request, clock.0, globalTimeout) > clock.1 ==> maxAttempts - current + 1 != 0
    ensures d <= DeadlineOf(request, clock.0, globalTimeout)
    ensures replicaTimeout >= 0 ==> d <= clock.2 + replicaTimeout
    ensures DeadlineOf(request, clock.0, globalTimeout) >= clock.2 ==> d >= clock.2
    ensures request.At? ==> d <= request.t
  {
    var deadline := DeadlineOf(request, clock.0, globalTimeout);
    var d := clock.2 + AttemptTimeout(deadline - clock.1, maxAttempts, current, replicaTimeout);
    if d > deadline then deadline else d
  }

  /**
    The attempt's deadline exactly: its timeout after the clock's last reading,
    but no later than the request's deadline, or than the global timeout after
    the first reading when the request has none.
   */
  lemma DeadlineExactly(request: Deadline, clock: (int, int, int), globalTimeout: int,
                        maxAttempts: int, current: int, replicaTimeout: int)
    requires maxAttempts - current + 1 != 0
    ensures var limit := if request.At? then request.t else clock.0 + globalTimeout;
            var t := AttemptTimeout(limit - clock.1, maxAttempts, current, replicaTimeout);
            var d := AttemptDeadline(request, clock, globalTimeout, maxAttempts, current, replicaTimeout);
            && (d == clock.2 + t || d == limit) && d <= clock.2 + t && d <= limit
  {
  }
}

/** The Weaver circuit breaker (reliability/circuit_breaker.go), newest event first. */
module WeaverBreakerSpec {
  import opened Common

  datatype Mode = Closed | Open | HalfOpen

  datatype Breaker = Breaker(mode: Mode, consecutiveFailures: nat, consecutiveSuccesses: nat,
                             totalFailures: nat, totalSuccesses: nat, stateChanges: nat, lastFailure: int,
                             failureThreshold: int, successThreshold: int, timeout: int)

  /** Any interleaving of Allow and late or early records. */
  datatype Event = Allow(now: int) | Success | Failure(now: int)

  /** NewCircuitBreaker: only zero is replaced by a default. */
  function New(failureThreshold: int, successThreshold: int, timeout: int, now: int): (b: Breaker) {
    Breaker(Closed, 0, 0, 0, 0, 0, now,
            if failureThreshold == 0 then 5 else failureThreshold,
            if successThreshold == 0 then 2 else successThreshold,
            if timeout == 0 then 30_000_000_000 else timeout)
  }

  predicate Allowed(b: Breaker, now: int) {
    b.mode != Open || now - b.lastFailure >= b.timeout
  }

  function Do(b: Breaker, e: Event): (c: Breaker) {
    match e
    case Allow(now) =>
      if b.mode == Open && now - b.lastFailure >= b.timeout then
        b.(mode := HalfOpen, consecutiveSuccesses := 0, consecutiveFailures := 0, stateChanges := b.stateChanges + 1)
      else b
    case Success =>
      var c := b.(totalSuccesses := b.totalSuccesses + 1, consecutiveFailures := 0);
      if b.mode != HalfOpen then c
      else if b.consecutiveSuccesses + 1 >= b.successThreshold then
        c.(mode := Closed, consecutiveSuccesses := 0, stateChanges := b.stateChanges + 1)
      else c.(consecutiveSuccesses := b.consecutiveSuccesses + 1)
    case Failure(now) =>
      var c := b.(totalFailures := b.totalFailures + 1, lastFailure := now, consecutiveSuccesses := 0);
      match b.mode
      case Closed =>
        if b.consecutiveFailures + 1 >= b.failureThreshold then
          c.(mode := Open, consecutiveFailures := 0, stateChanges := b.stateChanges + 1)
        else c.(consecutiveFailures := b.consecutiveFailures + 1)
      case HalfOpen => c.(mode := Open, consecutiveFailures := 0, stateChanges := b.stateChanges + 1)
      case Open => c
  }

  function After(b: Breaker, h: seq<Event>): (c: Breaker) {
    if h == [] then b else Do(After(b, h[1..]), h[0])
  }

  /** How often the run went from one mode to another. */
  function Moves(b: Breaker, h: seq<Event>, from: Mode, to: Mode): (n: nat) {
    if h == [] then 0
    else Moves(b, h[1..], from, to)
         + if After(b, h[1..]).mode == from && After(b, h).mode == to && from != to then 1 else 0
  }

  /** A threshold below one acts like one. */
  function Effective(threshold: int): (n: nat) {
    if threshold < 1 then 1 else threshold
  }

  function AsInt(p: bool): (n: int) {
    if p then 1 else 0
  }

  /**
    Transitions balance: trips minus closes is one exactly while not closed,
    probes minus reopens minus closes is one exactly while half-open, no other
    transition exists, and stateChanges is their sum.
   */
  lemma {:induction false} TransitionsBalance(b: Breaker, h: seq<Event>)
    requires b.mode == Closed && b.stateChanges == 0
    ensures var c := After(b, h);
            var trips, closes := Moves(b, h, Closed, Open), Moves(b, h, HalfOpen, Closed);
            var probes, reopens := Moves(b, h, Open, HalfOpen), Moves(b, h, HalfOpen, Open);
            && trips - closes == AsInt(c.mode != Closed)
            && probes - reopens - closes == AsInt(c.mode == HalfOpen)
            && c.stateChanges == trips + closes + probes + reopens
            && Moves(b, h, Closed, HalfOpen) == 0 && Moves(b, h, Open, Closed) == 0
  {
    if h != [] {
      TransitionsBalance(b, h[1..]);
    }
  }

  lemma {:induction false} ThresholdsKept(b: Breaker, h: seq<Event>)
    ensures After(b, h).failureThreshold == b.failureThreshold
    ensures After(b, h).successThreshold == b.successThreshold
  {
    if h != [] {
      ThresholdsKept(b, h[1..]);
    }
  }

  /** Each trip used up a threshold of failures, and each reopening one failure. */
  lemma {:induction false} TripsArePaid(b: Breaker, h: seq<Event>)
    requires b.mode == Closed && b.consecutiveFailures == 0
    ensures Effective(b.failureThreshold) * Moves(b, h, Closed, Open) + Moves(b, h, HalfOpen, Open)
            + After(b, h).consecutiveFailures + b.totalFailures <= After(b, h).totalFailures
  {
    if h != [] {
      TripsArePaid(b, h[1..]);
      ThresholdsKept(b, h[1..]);
      var f, trips := Effective(b.failureThreshold), Moves(b, h[1..], Closed, Open);
      OneMore(f, trips);
      var paid := f * trips;
      assert f * Moves(b, h, Closed, Open) == paid + if Moves(b, h, Closed, Open) > trips then f else 0;
    }
  }

  /** Each close used up a threshold of successes. */
  lemma {:induction false} ClosesArePaid(b: Breaker, h: seq<Event>)
    requires b.mode == Closed && b.consecutiveSuccesses == 0
    ensures Effective(b.successThreshold) * Moves(b, h, HalfOpen, Closed)
            + After(b, h).consecutiveSuccesses + b.totalSuccesses <= After(b, h).totalSuccesses
  {
    if h != [] {
      ClosesArePaid(b, h[1..]);
      ThresholdsKept(b, h[1..]);
      var s, closes := Effective(b.successThreshold), Moves(b, h[1..], HalfOpen, Closed);
      OneMore(s, closes);
      var paid := s * closes;
      assert s * Moves(b, h, HalfOpen, Closed) == paid + if Moves(b, h, HalfOpen, Closed) > closes then s else 0;
    }
  }

  /** When the last failure was recorded, or the breaker made. */
  function LastRecorded(b: Breaker, h: seq<Event>): (t: int) {
    if h == [] then b.lastFailure
    else if h[0].Failure? then h[0].now
    else LastRecorded(b, h[1..])
  }

  /**
    Allow refuses exactly while open and within the timeout of the last recorded
    failure, late records included.
   */
  lemma {:induction false} RefusesExactly(b: Breaker, h: seq<Event>, now: int)
    ensures Allowed(After(b, h), now) <==>
            After(b, h).mode != Open || now - LastRecorded(b, h) >= b.timeout
    ensures After(b, h).lastFailure == LastRecorded(b, h) && After(b, h).timeout == b.timeout
  {
    if h != [] {
      RefusesExactly(b, h[1..], now);
    }
  }

  // ---- transitions from the events alone ---------------------------------------------

  /** The failures recorded since the last success, or since the start. */
  function TrailingFailures(h: seq<Event>): (n: nat) {
    if h == [] then 0
    else
      match h[0]
      case Failure(_) => TrailingFailures(h[1..]) + 1
      case Success => 0
      case Allow(_) => TrailingFailures(h[1..])
  }

  /** The successes recorded since the breaker last turned half-open. */
  function SuccessesSinceProbe(b: Breaker, h: seq<Event>): (n: nat) {
    if h == [] || (After(b, h).mode == HalfOpen && After(b, h[1..]).mode != HalfOpen) then 0
    else SuccessesSinceProbe(b, h[1..]) + if h[0].Success? then 1 else 0
  }

  function Recorded(h: seq<Event>, failure: bool): (n: nat) {
    if h == [] then 0
    else Recorded(h[1..], failure) + if (if failure then h[0].Failure? else h[0].Success?) then 1 else 0
  }

  /** What each counter is, in terms of the events. */
  lemma {:induction false} CountersAreEvents(b: Breaker, h: seq<Event>)
    requires b.mode == Closed && b.consecutiveFailures == b.consecutiveSuccesses == 0
    ensures var c := After(b, h);
            && (c.mode == Closed ==> c.consecutiveFailures == TrailingFailures(h) < Effective(b.failureThreshold))
            && (c.mode == HalfOpen ==>
                  c.consecutiveSuccesses == SuccessesSinceProbe(b, h) < Effective(b.successThreshold))
            && (c.mode == Closed ==> c.consecutiveSuccesses == 0)
  {
    if h != [] {
      CountersAreEvents(b, h[1..]);
      ThresholdsKept(b, h[1..]);
    }
  }

  /**
    Main theorem: the next mode, from the events alone. A closed breaker opens
    with exactly the failure that makes the threshold in a row; an open one turns
    half-open with exactly an Allow from the timeout after the last recorded
    failure on; a half-open one reopens with the first failure, closes with
    exactly the success that makes the threshold, and stays otherwise.
   */
  lemma TransitionsExactly(b: Breaker, h: seq<Event>, e: Event)
    requires b.mode == Closed && b.consecutiveFailures == b.consecutiveSuccesses == 0
    ensures var m, n := After(b, h).mode, After(b, [e] + h).mode;
            match m
            case Closed => n == if e.Failure? && TrailingFailures(h) + 1 >= b.failureThreshold then Open else Closed
            case Open => n == if e.Allow? && e.now - LastRecorded(b, h) >= b.timeout then HalfOpen else Open
            case HalfOpen =>
              n == if e.Failure? then Open
                   else if e.Success? && SuccessesSinceProbe(b, h) + 1 >= b.successThreshold then Closed
                   else HalfOpen
  {
    assert ([e] + h)[0] == e && ([e] + h)[1..] == h;
    CountersAreEvents(b, h);
    ThresholdsKept(b, h);
    RefusesExactly(b, h, 0);
  }

  /** The totals count the recorded events, and nothing else. */
  lemma {:induction false} TotalsAreEvents(b: Breaker, h: seq<Event>)
    ensures After(b, h).totalFailures == b.totalFailures + Recorded(h, true)
    ensures After(b, h).totalSuccesses == b.totalSuccesses + Recorded(h, false)
  {
    if h != [] {
      TotalsAreEvents(b, h[1..]);
    }
  }

  /** With the defaults, five failures in a row open a new breaker and a call right after is refused. */
  lemma OpensAtFive(now: int)
    ensures var b := New(0, 0, 0, now);
            var f := Failure(now);
            && After(b, [f, f, f, f]).mode == Closed && After(b, [f, f, f, f, f]).mode == Open
            && !Allowed(After(b, [f, f, f, f, f]), now + 1)
  {
    var b, f := New(0, 0, 0, now), Failure(now);
    assert [f][1..] == [] && [f, f][1..] == [f] && [f, f, f][1..] == [f, f];
    assert [f, f, f, f][1..] == [f, f, f] && [f, f, f, f, f][1..] == [f, f, f, f];
    assert After(b, [f]).consecutiveFailures == 1;
    assert After(b, [f, f]).consecutiveFailures == 2;
    assert After(b, [f, f, f]).consecutiveFailures == 3;
  }
}

module WeaverBreaker {
  import opened WeaverBreakerSpec

  class CircuitBreaker {
    var mode: Mode
    var consecutiveFailures: nat
    var consecutiveSuccesses: nat
    var totalFailures: nat
    var totalSuccesses: nat
    var stateChanges: nat
    var lastFailure: int
    const failureThreshold: int
    const successThreshold: int
    const timeout: int

    function View(): (b: Breaker)
      reads this
    {
      Breaker(mode, consecutiveFailures, consecutiveSuccesses, totalFailures, totalSuccesses, stateChanges,
              lastFailure, failureThreshold, successThreshold, timeout)
    }

    constructor (failureThreshold: int, successThreshold: int, timeout: int, now: int)
      ensures View() == New(failureThreshold, successThreshold, timeout, now)
      ensures mode == Closed && consecutiveFailures == consecutiveSuccesses == stateChanges == 0
      ensures this.failureThreshold == if failureThreshold == 0 then 5 else failureThreshold
      ensures this.successThreshold == if successThreshold == 0 then 2 else successThreshold
      ensures this.timeout == if timeout == 0 then 30_000_000_000 else timeout
    {
      this.failureThreshold := if failureThreshold == 0 then 5 else failureThreshold;
      this.successThreshold := if successThreshold == 0 then 2 else successThreshold;
      this.timeout := if timeout == 0 then 30_000_000_000 else timeout;
      mode, lastFailure := Closed, now;
      consecutiveFailures, consecutiveSuccesses := 0, 0;
      totalFailures, totalSuccesses, stateChanges := 0, 0, 0;
    }

    method Allow(now: int) returns (ok: bool)
      modifies this
      ensures View() == Do(old(View()), WeaverBreakerSpec.Allow(now)) && ok == Allowed(old(View()), now)
    {
      match mode
      case Closed => return true;
      case Open =>
        if now - lastFailure >= timeout {
          mode := HalfOpen;
          consecutiveSuccesses := 0;
          consecutiveFailures := 0;
          stateChanges := stateChanges + 1;
          return true;
        }
        return false;
      case HalfOpen => return true;
    }

    method RecordSuccess()
      modifies this
      ensures View() == Do(old(View()), Success)
    {
      totalSuccesses := totalSuccesses + 1;
      consecutiveFailures := 0;
      if mode == HalfOpen {
        consecutiveSuccesses := consecutiveSuccesses + 1;
        if consecutiveSuccesses >= successThreshold {
          mode := Closed;
          consecutiveSuccesses := 0;
          stateChanges := stateChanges + 1;
        }
      }
    }

    method RecordFailure(now: int)
      modifies this
      ensures View() == Do(old(View()), Failure(now))
    {
      totalFailures := totalFailures + 1;
      lastFailure := now;
      consecutiveSuccesses := 0;
      match mode
      case Closed =>
        consecutiveFailures := consecutiveFailures + 1;
        if consecutiveFailures >= failureThreshold {
          mode := Open;
          consecutiveFailures := 0;
          stateChanges := stateChanges + 1;
        }
      case HalfOpen =>
        mode := Open;
        consecutiveFailures := 0;
        stateChanges := stateChanges + 1;
      case Open =>
    }

    /** Back to the state of a new breaker. */
    method Reset(now: int)
      modifies this
      ensures View() == New(failureThreshold, successThreshold, timeout, now)
                        .(failureThreshold := failureThreshold, successThreshold := successThreshold, timeout := timeout)
    {
      mode, lastFailure := Closed, now;
      consecutiveFailures, consecutiveSuccesses := 0, 0;
      totalFailures, totalSuccesses, stateChanges := 0, 0, 0;
    }
  }
}
