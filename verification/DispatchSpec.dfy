/**
  The dispatcher as a function of what the plugin answers and when the context
  is done, without breaker, clock or map: the run it is to be equal to.
 */
module DispatchSpec {
  import opened Common

  /** How one run of the dispatcher's innermost function ends. */
  datatype Reply = PluginMissing | ProgramError(retryable: bool) | Unsuccessful | Programmed

  datatype Vendor = Intel | Nvidia | Custom | OtherVendor(name: string)

  /** MaxRetries of DefaultRetryPolicy, and the failures that open a breaker made by the dispatcher. */
  const MAX_RETRIES := 3
  const FAILURE_THRESHOLD := 5

  /** The most plugin tries a vendor gets between successes and resets. */
  const WORK := FAILURE_THRESHOLD * (MAX_RETRIES + 1)

  /** How many plugin tries were made and how often the context was asked. */
  datatype Position = Position(tries: nat, polls: nat)

  /**
    The retries from number `attempt` on: the context is asked before every try
    and again before sleeping, and the first success ends them.
   */
  function Attempted(replies: nat -> Reply, done: nat -> bool, p: Position, attempt: nat, maxRetries: int): (r: (bool, Position))
    decreases maxRetries + 1 - attempt
  {
    if attempt > maxRetries then (false, p)
    else if done(p.polls) then (false, p.(polls := p.polls + 1))
    else if replies(p.tries) == Programmed then (true, Position(p.tries + 1, p.polls + 1))
    else if attempt == maxRetries then (false, Position(p.tries + 1, p.polls + 1))
    else if done(p.polls + 1) then (false, Position(p.tries + 1, p.polls + 2))
    else Attempted(replies, done, Position(p.tries + 1, p.polls + 2), attempt + 1, maxRetries)
  }

  /** One round of the retries. */
  lemma AttemptedStep(replies: nat -> Reply, done: nat -> bool, p: Position, attempt: nat, maxRetries: int)
    ensures var r := Attempted(replies, done, p, attempt, maxRetries);
            if attempt > maxRetries then r == (false, p)
            else if done(p.polls) then r == (false, Position(p.tries, p.polls + 1))
            else if replies(p.tries) == Programmed then r == (true, Position(p.tries + 1, p.polls + 1))
            else if attempt == maxRetries then
              r == (false, Position(p.tries + 1, p.polls + 1))
              && r == Attempted(replies, done, Position(p.tries + 1, p.polls + 1), attempt + 1, maxRetries)
            else if done(p.polls + 1) then r == (false, Position(p.tries + 1, p.polls + 2))
            else r == Attempted(replies, done, Position(p.tries + 1, p.polls + 2), attempt + 1, maxRetries)
  {
  }

  lemma {:induction false} AttemptedWithin(replies: nat -> Reply, done: nat -> bool, p: Position, attempt: nat, maxRetries: int)
    requires attempt <= maxRetries + 1
    ensures var r := Attempted(replies, done, p, attempt, maxRetries);
            && p.tries <= r.1.tries <= p.tries + maxRetries + 1 - attempt
            && (r.0 ==> r.1.tries > p.tries && replies(r.1.tries - 1) == Programmed)
    decreases maxRetries + 1 - attempt
  {
    if attempt < maxRetries && !done(p.polls) && replies(p.tries) != Programmed && !done(p.polls + 1) {
      AttemptedWithin(replies, done, Position(p.tries + 1, p.polls + 2), attempt + 1, maxRetries);
    }
  }

  /** What a user of the dispatcher may do. */
  datatype Action = DispatchGoal(present: bool) | ResetVendor(vendor: Vendor)

  /** How an action ended, as far as the vendor Dispatch tries is concerned. */
  datatype Outcome = Refused | Succeeded | Failed | CustomReset | OtherReset

  /** Where the outside stands, and the vendor's failures in a row, up to the threshold. */
  datatype Mirror = Mirror(at: Position, failures: nat)

  /** One action. At the threshold a dispatch fails without asking the plugin or the context again. */
  function Acted(replies: nat -> Reply, done: nat -> bool, m: Mirror, a: Action): (r: (Mirror, Outcome)) {
    match a
    case ResetVendor(v) => if v == Custom then (m.(failures := 0), CustomReset) else (m, OtherReset)
    case DispatchGoal(present) =>
      var asked := m.at.(polls := m.at.polls + 1);
      if done(m.at.polls) || !present then (m.(at := asked), Refused)
      else if m.failures >= FAILURE_THRESHOLD then (m.(at := asked), Failed)
      else
        var (ok, at) := Attempted(replies, done, asked, 0, MAX_RETRIES);
        if ok then (Mirror(at, 0), Succeeded) else (Mirror(at, m.failures + 1), Failed)
  }

  /** A whole script from a new dispatcher: where it ends, and all outcomes, newest first. */
  function ReferenceRun(replies: nat -> Reply, done: nat -> bool, start: Position, script: seq<Action>): (r: (Mirror, seq<Outcome>))
    decreases |script|
  {
    if script == [] then (Mirror(start, 0), [])
    else
      var (m, log) := ReferenceRun(replies, done, start, script[..|script| - 1]);
      var (m', o) := Acted(replies, done, m, script[|script| - 1]);
      (m', [o] + log)
  }

  /** The failed dispatches since the last success or reset, in a log with the newest outcome first. */
  function FailedRun(log: seq<Outcome>): (n: nat) {
    if log == [] then 0
    else
      match log[0]
      case Failed => FailedRun(log[1..]) + 1
      case Succeeded => 0
      case CustomReset => 0
      case _ => FailedRun(log[1..])
  }

  function Count(log: seq<Outcome>, o: Outcome): (n: nat) {
    if log == [] then 0 else Count(log[1..], o) + if log[0] == o then 1 else 0
  }

  function AtMostThreshold(n: nat): (r: nat) {
    if n < FAILURE_THRESHOLD then n else FAILURE_THRESHOLD
  }

  lemma ConsLog(o: Outcome, log: seq<Outcome>)
    ensures FailedRun([o] + log) == match o
                                    case Failed => FailedRun(log) + 1
                                    case Succeeded => 0
                                    case CustomReset => 0
                                    case _ => FailedRun(log)
    ensures forall x :: Count([o] + log, x) == Count(log, x) + if o == x then 1 else 0
  {
    assert ([o] + log)[1..] == log;
  }

  /** The figures: three retries, so a plugin that fails three times and then works succeeds, at the fourth try. */
  lemma FourthTryCounts(replies: nat -> Reply, done: nat -> bool, m: Mirror)
    requires forall k :: !done(k)
    requires m.failures < 5 && replies(m.at.tries + 3) == Programmed
    requires forall i :: m.at.tries <= i < m.at.tries + 3 ==> replies(i) != Programmed
    ensures var (m', o) := Acted(replies, done, m, DispatchGoal(true));
            o == Succeeded && m'.failures == 0 && m'.at.tries == m.at.tries + 4
  {
    var p := m.at.(polls := m.at.polls + 1);
    AttemptedStep(replies, done, p, 0, 3);
    AttemptedStep(replies, done, Position(p.tries + 1, p.polls + 2), 1, 3);
    AttemptedStep(replies, done, Position(p.tries + 2, p.polls + 4), 2, 3);
    AttemptedStep(replies, done, Position(p.tries + 3, p.polls + 6), 3, 3);
    hide Attempted;
  }

  /** And one that fails a fourth time fails, and is asked no fifth time. */
  lemma FourFailuresFail(replies: nat -> Reply, done: nat -> bool, m: Mirror)
    requires forall k :: !done(k)
    requires m.failures < 5 && forall i :: m.at.tries <= i < m.at.tries + 4 ==> replies(i) != Programmed
    ensures var (m', o) := Acted(replies, done, m, DispatchGoal(true));
            o == Failed && m'.failures == m.failures + 1 && m'.at.tries == m.at.tries + 4
  {
    var p := m.at.(polls := m.at.polls + 1);
    AttemptedStep(replies, done, p, 0, 3);
    AttemptedStep(replies, done, Position(p.tries + 1, p.polls + 2), 1, 3);
    AttemptedStep(replies, done, Position(p.tries + 2, p.polls + 4), 2, 3);
    AttemptedStep(replies, done, Position(p.tries + 3, p.polls + 6), 3, 3);
    hide Attempted;
  }

  /** The vendor's failures are those of the actual outcomes, in their order. */
  lemma {:induction false} FailuresAreTheRun(replies: nat -> Reply, done: nat -> bool, start: Position, script: seq<Action>)
    ensures var r := ReferenceRun(replies, done, start, script);
            r.0.failures == AtMostThreshold(FailedRun(r.1)) && |r.1| == |script|
    decreases |script|
  {
    if script != [] {
      var init, a := script[..|script| - 1], script[|script| - 1];
      FailuresAreTheRun(replies, done, start, init);
      var r := ReferenceRun(replies, done, start, init);
      ConsLog(Acted(replies, done, r.0, a).1, r.1);
    }
  }

  /** A success needs a plugin that is still tried: none comes right after five failures in a row. */
  lemma NoSuccessWhenOpen(replies: nat -> Reply, done: nat -> bool, start: Position, script: seq<Action>, a: Action)
    requires FailedRun(ReferenceRun(replies, done, start, script).1) >= FAILURE_THRESHOLD
    ensures var m := ReferenceRun(replies, done, start, script).0;
            Acted(replies, done, m, a).1 != Succeeded && Acted(replies, done, m, a).0.at.tries == m.at.tries
  {
    FailuresAreTheRun(replies, done, start, script);
  }

  /** The tries paid for: a full allowance for each success and each reset of the vendor. */
  function Paid(log: seq<Outcome>): (n: nat) {
    if log == [] then 0 else Paid(log[1..]) + if log[0].Succeeded? || log[0].CustomReset? then WORK else 0
  }

  lemma {:induction false} PaidCounts(log: seq<Outcome>)
    ensures Paid(log) == WORK * (Count(log, Succeeded) + Count(log, CustomReset))
  {
    if log != [] {
      PaidCounts(log[1..]);
      OneMore(WORK, Count(log[1..], Succeeded) + Count(log[1..], CustomReset));
      hide Paid;
    }
  }

  /** The tries not accounted for by the failures in a row. */
  function Unexplained(m: Mirror): (n: int) {
    m.at.tries - (MAX_RETRIES + 1) * m.failures
  }

  lemma ActedWork(replies: nat -> Reply, done: nat -> bool, m: Mirror, a: Action, log: seq<Outcome>)
    requires m.failures <= FAILURE_THRESHOLD
    ensures var (m', o) := Acted(replies, done, m, a);
            && m'.failures <= FAILURE_THRESHOLD
            && Unexplained(m') <= Unexplained(m) + Paid([o] + log) - Paid(log)
  {
    AttemptedWithin(replies, done, m.at.(polls := m.at.polls + 1), 0, MAX_RETRIES);
    hide Attempted;
    var o := Acted(replies, done, m, a).1;
    assert ([o] + log)[1..] == log;
  }

  lemma {:induction false} UnexplainedArePaid(replies: nat -> Reply, done: nat -> bool, start: Position, script: seq<Action>)
    ensures var (m, log) := ReferenceRun(replies, done, start, script);
            m.failures <= FAILURE_THRESHOLD && Unexplained(m) - start.tries <= Paid(log)
    decreases |script|
  {
    if script != [] {
      var init, a := script[..|script| - 1], script[|script| - 1];
      UnexplainedArePaid(replies, done, start, init);
      var r := ReferenceRun(replies, done, start, init);
      ActedWork(replies, done, r.0, a, r.1);
      hide Acted, Unexplained, Paid;
    }
  }

  /**
    The work bound: at most twenty plugin tries for each success and each reset
    of the vendor, and four more for each failure since the last of them.
   */
  lemma WorkWithin(replies: nat -> Reply, done: nat -> bool, start: Position, script: seq<Action>)
    ensures var (m, log) := ReferenceRun(replies, done, start, script);
            && m.failures <= FAILURE_THRESHOLD
            && m.at.tries - start.tries
               <= WORK * (Count(log, Succeeded) + Count(log, CustomReset)) + (MAX_RETRIES + 1) * m.failures
  {
    UnexplainedArePaid(replies, done, start, script);
    PaidCounts(ReferenceRun(replies, done, start, script).1);
    hide ReferenceRun, Paid, Count;
  }
}
