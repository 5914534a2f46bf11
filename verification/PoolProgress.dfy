/**
  What the worker pool can still do: from any state a run can reach before a
  context is done, every caller that has not returned can be given the
  dispatcher's answer. The runs are constructed step by step.
 */
module PoolProgress {
  import opened Tallies
  import opened WorkerPool

  /** Before any context is done nothing is closed and no worker has left. */
  ghost predicate Live(s: State) {
    !s.poolDone ==>
      && s.stop.NotStopping? && !s.managerDone
      && (forall w :: 0 <= w < |s.workers| ==> !s.workers[w].Drained? && !s.workers[w].Quit?)
      && (forall j :: 0 <= j < |s.jobs| ==> s.jobs[j].closes == 0)
  }

  lemma LiveKept(s: State, step: Step)
    requires Live(s) && Enabled(s, step)
    ensures Live(Apply(s, step)) && |Apply(s, step).workers| == |s.workers|
  {
  }

  lemma {:induction false} LiveAlways(s: State, steps: seq<Step>)
    requires Live(s) && Runs(s, steps)
    ensures Live(Final(s, steps)) && |Final(s, steps).workers| == |s.workers|
    decreases |steps|
  {
    hide Live, Apply, Enabled;
    if steps != [] {
      LiveKept(s, steps[0]);
      LiveAlways(Apply(s, steps[0]), steps[1..]);
    }
  }

  /** A pool at work: an invariant state before any context is done. */
  ghost predicate AtWork(s: State) {
    Inv(s) && Live(s) && !s.poolDone && !s.panicked && s.workers != []
  }

  lemma AtWorkKept(s: State, step: Step)
    requires AtWork(s) && Enabled(s, step) && (step.ByCaller? || step.ByWorker?)
    ensures AtWork(Apply(s, step))
  {
    InvKept(s, step);
    LiveKept(s, step);
    PanicsOnlyAtEnqueue(s, step);
    SameFlags(s, step);
    hide Inv, Apply, Enabled;
  }

  lemma SameFlags(s: State, step: Step)
    requires Enabled(s, step) && (step.ByCaller? || step.ByWorker?)
    ensures var t := Apply(s, step); t.poolDone == s.poolDone && t.stop == s.stop && t.managerDone == s.managerDone
  {
  }

  lemma RunsCons(s: State, step: Step, steps: seq<Step>)
    requires Enabled(s, step) && Runs(Apply(s, step), steps)
    ensures Runs(s, [step] + steps) && Final(s, [step] + steps) == Final(Apply(s, step), steps)
  {
    assert ([step] + steps)[1..] == steps;
  }

  /** The result that comes of a goal whose Dispatch ends with `o`. */
  predicate ComesOf(goal: Goal, o: Outcome, r: Result) {
    match o
    case Ok(result) => r == result
    case Err(message) => r == Result(goal.eni, false, message)
  }

  /** Caller `c` has returned the answer of outcome `o`, and that is counted. */
  ghost predicate Delivered(s: State, t: State, c: nat, o: Outcome) {
    && c < |s.callers| && c < |t.callers| && t.callers[c].goal == s.callers[c].goal
    && t.callers[c].phase.Answered?
    && var r := t.callers[c].phase.result;
       && ComesOf(s.callers[c].goal, o, r)
       && t.stats.succeeded == s.stats.succeeded + (if r.success then 1 else 0)
       && t.stats.failed == s.stats.failed + (if r.success then 0 else 1)
  }

  /** Nothing that `Delivered` compares has changed. */
  predicate SameSide(s: State, t: State, c: nat) {
    && c < |s.callers| && c < |t.callers| && t.callers[c].goal == s.callers[c].goal
    && t.stats.succeeded == s.stats.succeeded && t.stats.failed == s.stats.failed
  }

  lemma DeliveredFrom(s: State, t: State, u: State, c: nat, o: Outcome)
    requires SameSide(s, t, c) && Delivered(t, u, c, o)
    ensures Delivered(s, u, c, o)
  {
  }

  /** The last step: the value is in the channel. */
  lemma Collect(s: State, c: nat, o: Outcome) returns (steps: seq<Step>)
    requires AtWork(s) && c < |s.callers| && s.callers[c].phase.Waiting?
    requires var j := s.callers[c].phase.job;
             j < |s.jobs| && |s.jobs[j].sends| == 1 && ComesOf(s.callers[c].goal, o, s.jobs[j].sends[0])
    ensures Runs(s, steps) && Delivered(s, Final(s, steps), c, o)
  {
    hide Inv;
    var step := ByCaller(c, Receive);
    assert Runs(Apply(s, step), []);
    RunsCons(s, step, []);
    steps := [step] + [];
  }

  /** A worker has the result: it replies, and the caller collects. */
  lemma FromComputed(s: State, c: nat, w: nat, o: Outcome) returns (steps: seq<Step>)
    requires AtWork(s) && c < |s.callers| && s.callers[c].phase.Waiting? && w < |s.workers|
    requires s.workers[w].Computed? && s.workers[w].job == s.callers[c].phase.job
    requires ComesOf(s.callers[c].goal, o, s.workers[w].result)
    ensures Runs(s, steps) && Delivered(s, Final(s, steps), c, o)
  {
    var j, step := s.workers[w].job, ByWorker(w, Reply);
    assert WorkerIn(s.workers[w], |s.jobs|) && Places(s, j) == 1;
    OnlyWithWorker(s, w, j);
    AtWorkKept(s, step);
    var t := Apply(s, step);
    assert t.jobs[j].sends == [s.workers[w].result];
    steps := Collect(t, c, o);
    hide Delivered, Runs, Final, Inv, AtWork;
    RunsCons(s, step, steps);
    DeliveredFrom(s, t, Final(t, steps), c, o);
    steps := [step] + steps;
  }

  /** A worker holds the job: Dispatch may end with any outcome. */
  lemma FromHolding(s: State, c: nat, w: nat, o: Outcome) returns (steps: seq<Step>)
    requires AtWork(s) && c < |s.callers| && s.callers[c].phase.Waiting? && w < |s.workers|
    requires s.workers[w] == Holding(s.callers[c].phase.job)
    ensures Runs(s, steps) && Delivered(s, Final(s, steps), c, o)
  {
    var j, step := s.workers[w].job, ByWorker(w, Dispatch(o));
    assert WorkerIn(s.workers[w], |s.jobs|) && CallerHonest(s.jobs, s.callers[c]);
    AtWorkKept(s, step);
    var t := Apply(s, step);
    steps := FromComputed(t, c, w, o);
    hide Delivered, Runs, Final, Inv, AtWork;
    RunsCons(s, step, steps);
    DeliveredFrom(s, t, Final(t, steps), c, o);
    steps := [step] + steps;
  }

  /** What brings a worker on: take a job, dispatch it, reply. */
  function Onward(k: Worker): (b: WorkerAct) {
    match k
    case Idle => TakeJob
    case Holding(_) => Dispatch(Err(""))
    case _ => Reply
  }

  /** How many steps until the worker is free. */
  function StepsToFree(k: Worker): (n: nat) {
    match k
    case Holding(_) => 2
    case Computed(_, _) => 1
    case _ => 0
  }

  lemma OnwardStep(s: State, c: nat)
    requires AtWork(s) && c < |s.callers| && (s.workers[0].Idle? ==> s.queue != [])
    ensures var b := Onward(s.workers[0]);
            && Enabled(s, ByWorker(0, b))
            && var t := ApplyWorker(s, 0, b);
               && AtWork(t) && t.callers == s.callers && t.stats == s.stats && SameSide(s, t, c)
               && |t.workers| == |s.workers| && |t.jobs| == |s.jobs|
               && (if s.workers[0].Idle? then t.queue == s.queue[1..] && t.workers[0] == Holding(s.queue[0])
                   else t.queue == s.queue && StepsToFree(t.workers[0]) == StepsToFree(s.workers[0]) - 1)
               && (t.workers[0].Idle? ==> StepsToFree(t.workers[0]) == 0)
  {
    var b := Onward(s.workers[0]);
    assert WorkerIn(s.workers[0], |s.jobs|);
    assert !s.workers[0].Drained? && !s.workers[0].Quit?;
    assert Enabled(s, ByWorker(0, b));
    AtWorkKept(s, ByWorker(0, b));
    hide Inv, AtWork;
  }

  /** The job is in the queue: the first worker comes to it. */
  lemma {:induction false} FromQueue(s: State, c: nat, i: nat, o: Outcome) returns (steps: seq<Step>)
    requires AtWork(s) && c < |s.callers| && s.callers[c].phase.Waiting?
    requires i < |s.queue| && s.queue[i] == s.callers[c].phase.job
    ensures Runs(s, steps) && Delivered(s, Final(s, steps), c, o)
    decreases i, StepsToFree(s.workers[0])
  {
    OnwardStep(s, c);
    var step := ByWorker(0, Onward(s.workers[0]));
    var t := Apply(s, step);
    hide Delivered, Runs, Final, AtWork, ApplyWorker, Enabled;
    if s.workers[0].Idle? && i == 0 {
      steps := FromHolding(t, c, 0, o);
    } else if s.workers[0].Idle? {
      steps := FromQueue(t, c, i - 1, o);
    } else {
      steps := FromQueue(t, c, i, o);
    }
    RunsCons(s, step, steps);
    DeliveredFrom(s, t, Final(t, steps), c, o);
    steps := [step] + steps;
  }

  /** The caller is at the enqueueing select: once the queue has room, its job goes in. */
  lemma {:induction false} FromSelect(s: State, c: nat, o: Outcome) returns (steps: seq<Step>)
    requires AtWork(s) && c < |s.callers| && s.callers[c].phase.Sending?
    ensures Runs(s, steps) && Delivered(s, Final(s, steps), c, o)
    decreases |s.queue|, StepsToFree(s.workers[0])
  {
    var step;
    if |s.queue| < 2 * |s.workers| {
      step := ByCaller(c, Enqueue);
      AtWorkKept(s, step);
      var t := Apply(s, step);
      assert t.queue[|s.queue|] == t.callers[c].phase.job;
      steps := FromQueue(t, c, |s.queue|, o);
    } else {
      assert |s.workers| > 0 && |s.queue| > 0;
      OnwardStep(s, c);
      step := ByWorker(0, Onward(s.workers[0]));
      hide Delivered, Runs, Final, AtWork, ApplyWorker, Enabled;
      steps := FromSelect(Apply(s, step), c, o);
    }
    hide Delivered, Runs, Final, AtWork;
    RunsCons(s, step, steps);
    DeliveredFrom(s, Apply(s, step), Final(Apply(s, step), steps), c, o);
    steps := [step] + steps;
  }

  /** The caller has not come to the select yet. */
  function Inward(p: Phase): (a: CallerAct) {
    match p
    case Outside => Enter
    case Entered => CountIn
    case _ => MakeJob
  }

  function StepsToSelect(p: Phase): (n: nat) {
    match p
    case Outside => 3
    case Entered => 2
    case Counted => 1
    case _ => 0
  }

  lemma {:induction false} FromOutside(s: State, c: nat, o: Outcome) returns (steps: seq<Step>)
    requires AtWork(s) && c < |s.callers|
    requires s.callers[c].phase.Outside? || s.callers[c].phase.Entered? || s.callers[c].phase.Counted?
    ensures Runs(s, steps) && Delivered(s, Final(s, steps), c, o)
    decreases StepsToSelect(s.callers[c].phase)
  {
    var step := ByCaller(c, Inward(s.callers[c].phase));
    assert Enabled(s, step);
    AtWorkKept(s, step);
    var t := Apply(s, step);
    assert SameSide(s, t, c);
    hide Delivered, Runs, Final, AtWork;
    if s.callers[c].phase.Counted? {
      steps := FromSelect(t, c, o);
    } else {
      steps := FromOutside(t, c, o);
    }
    RunsCons(s, step, steps);
    DeliveredFrom(s, t, Final(t, steps), c, o);
    steps := [step] + steps;
  }

  /** Where a waiting caller's job is while nothing is closed. */
  lemma WaitingJob(s: State, j: nat) returns (i: nat, w: nat)
    requires AtWork(s) && j < |s.jobs| && s.jobs[j].sends == []
    requires forall c :: 0 <= c < |s.callers| ==> s.callers[c].phase != Sending(j)
    ensures (i < |s.queue| && s.queue[i] == j) || (w < |s.workers| && WorksOn(j)(s.workers[w]) == 1)
  {
    assert Places(s, j) == 1;
    TallyZero(s.callers, SendsJob(j));
    i, w := 0, 0;
    if k :| 0 <= k < |s.queue| && s.queue[k] == j {
      i := k;
    } else {
      TallyZero(s.queue, IsJob(j));
      if v :| 0 <= v < |s.workers| && WorksOn(j)(s.workers[v]) == 1 {
        w := v;
      } else {
        TallyZero(s.workers, WorksOn(j));
      }
    }
  }

  predicate HasOwnJob(p: Phase) {
    p.Sending? || p.Waiting? || p.Answered? || p.GotNil?
  }

  /** Every job has one caller only. */
  ghost predicate OwnJobs(s: State) {
    && (forall c :: 0 <= c < |s.callers| && HasOwnJob(s.callers[c].phase) ==> s.callers[c].phase.job < |s.jobs|)
    && (forall c, d :: 0 <= c < d < |s.callers| && HasOwnJob(s.callers[c].phase) && HasOwnJob(s.callers[d].phase) ==>
          s.callers[c].phase.job != s.callers[d].phase.job)
  }

  /** A caller keeps its job, or gets a new one. */
  lemma JobKeptOrNew(s: State, c: nat, a: CallerAct)
    requires CallerEnabled(s, c, a)
    ensures var t := ApplyCaller(s, c, a);
            var p, q := s.callers[c].phase, t.callers[c].phase;
            && (HasOwnJob(q) ==> q.job < |t.jobs| || (HasOwnJob(p) && q.job == p.job))
            && (HasOwnJob(q) ==> (HasOwnJob(p) && q.job == p.job) || q.job == |s.jobs|)
  {
  }

  lemma OwnJobsKept(s: State, step: Step)
    requires OwnJobs(s) && Enabled(s, step)
    ensures OwnJobs(Apply(s, step))
  {
    match step
    case ByCaller(c, a) =>
      OnePhaseMoved(s, c, a);
      JobKeptOrNew(s, c, a);
      hide ApplyCaller, CallerEnabled;
    case ByWorker(w, b) =>
      SameCallers(s, w, b);
      hide ApplyWorker, WorkerEnabled;
    case _ =>
  }

  lemma SameCallers(s: State, w: nat, b: WorkerAct)
    requires WorkerEnabled(s, w, b)
    ensures ApplyWorker(s, w, b).callers == s.callers && |ApplyWorker(s, w, b).jobs| == |s.jobs|
  {
  }

  lemma {:induction false} OwnJobsAlways(s: State, steps: seq<Step>)
    requires OwnJobs(s) && Runs(s, steps)
    ensures OwnJobs(Final(s, steps))
    decreases |steps|
  {
    hide OwnJobs, Apply, Enabled;
    if steps != [] {
      OwnJobsKept(s, steps[0]);
      OwnJobsAlways(Apply(s, steps[0]), steps[1..]);
    }
  }

  /** Any state a run reaches before a context is done. */
  lemma ReachedAtWork(goals: seq<Goal>, requested: int, steps: seq<Step>)
    requires Runs(Started(goals, requested), steps) && !Final(Started(goals, requested), steps).poolDone
    ensures AtWork(Final(Started(goals, requested), steps)) && OwnJobs(Final(Started(goals, requested), steps))
  {
    var s0 := Started(goals, requested);
    InvStarted(goals, requested);
    InvAlways(s0, steps);
    LiveAlways(s0, steps);
    OwnJobsAlways(s0, steps);
    var s := Final(s0, steps);
    assert !QueueIsClosed(s);
    UnclosedRunsAreClean(s0, steps);
    TidyAlways(s0, steps);
    hide Inv, Runs, Final, CleanRun, OwnJobs;
  }

  /** The dispatcher has not been asked for the job, or answered with `o`. */
  predicate MayEndWith(job: Job, o: Outcome) {
    job.calls == [] || (|job.calls| == 1 && job.calls[0].outcome == o)
  }

  lemma FromWaiting(s: State, c: nat, o: Outcome) returns (steps: seq<Step>)
    requires AtWork(s) && OwnJobs(s) && c < |s.callers| && s.callers[c].phase.Waiting?
    requires s.callers[c].phase.job < |s.jobs| && MayEndWith(s.jobs[s.callers[c].phase.job], o)
    ensures Runs(s, steps) && Delivered(s, Final(s, steps), c, o)
  {
    var j := s.callers[c].phase.job;
    assert CallerHonest(s.jobs, s.callers[c]) && JobHonest(s.jobs[j]) && Places(s, j) == 1;
    if s.jobs[j].sends != [] {
      steps := Collect(s, c, o);
    } else {
      forall d | 0 <= d < |s.callers| ensures s.callers[d].phase != Sending(j) {
        assert d == c || d < c || c < d;
      }
      var i, w := WaitingJob(s, j);
      if i < |s.queue| && s.queue[i] == j {
        steps := FromQueue(s, c, i, o);
      } else {
        assert WorkerHonest(s.jobs, s.workers[w]);
        if s.workers[w].Holding? {
          steps := FromHolding(s, c, w, o);
        } else {
          steps := FromComputed(s, c, w, o);
        }
      }
    }
    hide AtWork, Delivered, Runs, Final, Tally;
  }

  /**
    Main theorem: from every state a run reaches before a context is done, a
    caller that has not returned can be answered with whatever the dispatcher
    may still answer: some continuation ends with the caller returning the
    result of outcome `o`, counted as a success exactly if it is one.
   */
  lemma AnswerReachable(goals: seq<Goal>, requested: int, steps: seq<Step>, c: nat, o: Outcome) returns (more: seq<Step>)
    requires Runs(Started(goals, requested), steps)
    requires var s := Final(Started(goals, requested), steps);
             && !s.poolDone && c < |s.callers|
             && var p := s.callers[c].phase;
                || p.Outside? || p.Entered? || p.Counted? || p.Sending?
                || (p.Waiting? && p.job < |s.jobs| && MayEndWith(s.jobs[p.job], o))
    ensures var s := Final(Started(goals, requested), steps);
            Runs(s, more) && Delivered(s, Final(s, more), c, o)
  {
    ReachedAtWork(goals, requested, steps);
    var s := Final(Started(goals, requested), steps);
    hide AtWork, OwnJobs, Delivered, Runs, Final, Started;
    if s.callers[c].phase.Waiting? {
      more := FromWaiting(s, c, o);
    } else if s.callers[c].phase.Sending? {
      more := FromSelect(s, c, o);
    } else {
      more := FromOutside(s, c, o);
    }
  }

  /** The queue's bound is attained: that many callers can all have their jobs queued. */
  lemma {:induction false} QueueFills(goals: seq<Goal>, requested: int, n: nat) returns (steps: seq<Step>)
    requires n <= |goals| && n <= 2 * WorkerCount(requested)
    ensures Runs(Started(goals, requested), steps)
    ensures var s := Final(Started(goals, requested), steps);
            && |s.queue| == n && |s.workers| == WorkerCount(requested) && |s.callers| == |goals|
            && s.stop == NotStopping && !s.managerDone && !s.poolDone && !s.panicked
            && (forall c :: n <= c < |goals| ==> s.callers[c].phase == Outside)
  {
    var s0 := Started(goals, requested);
    if n == 0 {
      steps := [];
      return;
    }
    steps := QueueFills(goals, requested, n - 1);
    hide Runs, Final, Started;
    steps := ReachesSelect(s0, steps, n - 1);
    RunsSnoc(s0, steps, ByCaller(n - 1, Enqueue));
    steps := steps + [ByCaller(n - 1, Enqueue)];
  }
}
