/**
  The DPU worker pool and its manager (dal/pool.go, dal/manager.go) as a step
  system. A state holds every goroutine's position: callers of Program, the
  workers, and the one goroutine running Stop. A run is any sequence of
  enabled steps, so a theorem about runs covers every interleaving.
 */
module WorkerPool {
  import opened Tallies

  datatype Goal = Goal(eni: string, spec: string)

  datatype Result = Result(eni: string, success: bool, error: string)

  /** What Dispatch returned: a result, or an error. */
  datatype Outcome = Ok(result: Result) | Err(message: string)

  datatype Call = Call(goal: Goal, outcome: Outcome)

  /**
    A submitted job with its one-shot result channel: `sends` are the values
    ever sent on the channel and `closes` counts how often it was closed.
    `calls` logs the Dispatch calls made for the job.
   */
  datatype Job = Job(goal: Goal, calls: seq<Call>, sends: seq<Result>, closes: nat)

  /** A caller inside Program. `Sending` holds a job it is still trying to enqueue. */
  datatype Phase =
    | Outside                             // not called yet
    | Entered                             // passed the running and context checks
    | Counted                             // ProgramsSubmitted incremented
    | Sending(job: nat)                   // inside Submit, at the enqueueing select
    | Waiting(job: nat)                   // Submit returned the job's result channel
    | WaitingClosed                       // Submit returned an already closed channel
    | Answered(job: nat, result: Result)  // returned the received result
    | GotNil(job: nat)                    // received from its job's closed channel
    | GotClosed                           // received from the already closed channel
    | Abandoned                           // gave up waiting: a context was done
    | Refused                             // returned before being counted

  datatype Caller = Caller(goal: Goal, phase: Phase)

  /** `Drained` left because the closed queue was empty, `Quit` through the cancelled context. */
  datatype Worker = Idle | Holding(job: nat) | Computed(job: nat, result: Result) | Drained | Quit

  /** Stop: pool context cancelled, then queue closed, then pool not running, then done. */
  datatype Stopping = NotStopping | PoolCancelled | QueueClosed | PoolStopped | Stopped

  datatype Stats = Stats(submitted: nat, succeeded: nat, failed: nat)

  datatype State = State(
    callers: seq<Caller>,
    workers: seq<Worker>,
    queue: seq<nat>,
    jobs: seq<Job>,
    stop: Stopping,
    poolDone: bool,     // the pool's context is done
    managerDone: bool,  // the manager's context is done
    stats: Stats,
    panicked: bool)

  predicate QueueIsClosed(s: State) {
    s.stop.QueueClosed? || s.stop.PoolStopped? || s.stop.Stopped?
  }

  /** Stop holds the manager's mutex from its first step to its last. */
  predicate LockFree(s: State) {
    s.stop.NotStopping? || s.stop.Stopped?
  }

  /** NewPluginPool: fewer than one worker means four. */
  function WorkerCount(requested: int): (n: nat)
    ensures requested >= 1 ==> n == requested
    ensures requested < 1 ==> n == 4
  {
    if requested < 1 then 4 else requested
  }

  /** The state right after Start, with callers that have not called yet. */
  function Started(goals: seq<Goal>, requested: int): (s: State) {
    State(seq(|goals|, i requires 0 <= i < |goals| => Caller(goals[i], Outside)),
          seq(WorkerCount(requested), _ => Idle), [], [], NotStopping, false, false,
          Stats(0, 0, 0), false)
  }

  datatype CallerAct =
    | Refuse        // a check failed before counting
    | Enter         // Program's running and context checks passed
    | CountIn       // ProgramsSubmitted incremented
    | MakeJob       // Submit's checks passed; job and result channel created
    | ReturnClosed  // a check in Submit failed
    | Enqueue       // the enqueueing select takes the queue
    | CloseUnsent   // the enqueueing select takes the pool's context
    | Receive       // Program's select takes the result channel
    | GiveUp        // Program's select takes a context

  datatype WorkerAct =
    | TakeJob
    | Dispatch(outcome: Outcome)
    | Reply         // the replying select takes the result channel
    | CloseAndQuit  // the replying select takes the pool's context
    | Drain         // the closed queue is empty

  datatype Step = ByCaller(c: nat, a: CallerAct) | ByWorker(w: nat, b: WorkerAct) | ParentCancelled | StopStep

  /** The result a worker sends: Dispatch's own, or one built from the job's goal. */
  function Render(goal: Goal, outcome: Outcome): (r: Result) {
    match outcome
    case Ok(result) => result
    case Err(message) => Result(goal.eni, false, message)
  }

  predicate HasJob(s: State, j: nat) {
    j < |s.jobs|
  }

  /** The result channel is ready to receive from. */
  predicate HasReply(job: Job) {
    job.sends != [] || job.closes > 0
  }

  predicate CallerEnabled(s: State, c: nat, a: CallerAct) {
    && c < |s.callers|
    && var p := s.callers[c].phase;
       match a
       case Refuse => p.Outside? || p.Entered?
       case Enter => p.Outside? && s.stop.NotStopping? && !s.managerDone
       case CountIn => p.Entered? && LockFree(s)
       case MakeJob => p.Counted? && s.stop.NotStopping? && !s.poolDone
       case ReturnClosed => p.Counted?
       case Enqueue => p.Sending? && (QueueIsClosed(s) || |s.queue| < 2 * |s.workers|)
       case CloseUnsent => p.Sending? && s.poolDone && HasJob(s, p.job)
       case Receive => LockFree(s) && (p.WaitingClosed? || (p.Waiting? && HasJob(s, p.job) && HasReply(s.jobs[p.job])))
       case GiveUp => p.Waiting? || p.WaitingClosed?
  }

  predicate WorkerEnabled(s: State, w: nat, b: WorkerAct) {
    && w < |s.workers|
    && var k := s.workers[w];
       match b
       case TakeJob => k.Idle? && s.queue != []
       case Dispatch(_) => k.Holding? && HasJob(s, k.job)
       case Reply => k.Computed? && HasJob(s, k.job)
       case CloseAndQuit => k.Computed? && s.poolDone && HasJob(s, k.job)
       case Drain => k.Idle? && s.queue == [] && QueueIsClosed(s)
  }

  /** A panic ends the program; a select may take any ready branch. */
  predicate Enabled(s: State, step: Step) {
    && !s.panicked
    && match step
       case ByCaller(c, a) => CallerEnabled(s, c, a)
       case ByWorker(w, b) => WorkerEnabled(s, w, b)
       case ParentCancelled => true
       case StopStep => !s.stop.Stopped?
  }

  function MoveCaller(s: State, c: nat, p: Phase): (t: State)
    requires c < |s.callers|
  {
    s.(callers := s.callers[c := s.callers[c].(phase := p)])
  }

  function SetJob(s: State, j: nat, job: Job): (t: State)
    requires j < |s.jobs|
  {
    s.(jobs := s.jobs[j := job])
  }

  /** Closing a channel; closing it again panics. */
  function CloseJob(s: State, j: nat): (t: State)
    requires j < |s.jobs|
  {
    SetJob(s, j, s.jobs[j].(closes := s.jobs[j].closes + 1)).(panicked := s.jobs[j].closes > 0)
  }

  /** Sending on a channel; sending on a closed channel panics. */
  function SendJob(s: State, j: nat, r: Result): (t: State)
    requires j < |s.jobs|
  {
    SetJob(s, j, s.jobs[j].(sends := s.jobs[j].sends + [r])).(panicked := s.jobs[j].closes > 0)
  }

  /** Program's bookkeeping for a received result; a closed channel yields none. */
  function CountResult(s: State, success: bool): (t: State) {
    s.(stats := if success then s.stats.(succeeded := s.stats.succeeded + 1)
                else s.stats.(failed := s.stats.failed + 1))
  }

  function ApplyCaller(s: State, c: nat, a: CallerAct): (t: State)
    requires CallerEnabled(s, c, a)
  {
    var p := s.callers[c].phase;
    match a
    case Refuse => MoveCaller(s, c, Refused)
    case Enter => MoveCaller(s, c, Entered)
    case CountIn => MoveCaller(s.(stats := s.stats.(submitted := s.stats.submitted + 1)), c, Counted)
    case MakeJob =>
      MoveCaller(s.(jobs := s.jobs + [Job(s.callers[c].goal, [], [], 0)]), c, Sending(|s.jobs|))
    case ReturnClosed => MoveCaller(s, c, WaitingClosed)
    case Enqueue =>
      if QueueIsClosed(s) then s.(panicked := true)
      else MoveCaller(s.(queue := s.queue + [p.job]), c, Waiting(p.job))
    case CloseUnsent => MoveCaller(CloseJob(s, p.job), c, Waiting(p.job))
    case Receive =>
      if p.Waiting? && s.jobs[p.job].sends != [] then
        var r := s.jobs[p.job].sends[0];
        MoveCaller(CountResult(s, r.success), c, Answered(p.job, r))
      else MoveCaller(CountResult(s, false), c, if p.Waiting? then GotNil(p.job) else GotClosed)
    case GiveUp => MoveCaller(s, c, Abandoned)
  }

  function ApplyWorker(s: State, w: nat, b: WorkerAct): (t: State)
    requires WorkerEnabled(s, w, b)
  {
    var k := s.workers[w];
    match b
    case TakeJob => s.(workers := s.workers[w := Holding(s.queue[0])], queue := s.queue[1..])
    case Dispatch(outcome) =>
      var job := s.jobs[k.job];
      SetJob(s, k.job, job.(calls := job.calls + [Call(job.goal, outcome)]))
      .(workers := s.workers[w := Computed(k.job, Render(job.goal, outcome))])
    case Reply => SendJob(s, k.job, k.result).(workers := s.workers[w := Idle])
    case CloseAndQuit => CloseJob(s, k.job).(workers := s.workers[w := Quit])
    case Drain => s.(workers := s.workers[w := Drained])
  }

  /** The effect of an enabled step. */
  function Apply(s: State, step: Step): (t: State)
    requires Enabled(s, step)
  {
    match step
    case ByCaller(c, a) => ApplyCaller(s, c, a)
    case ByWorker(w, b) => ApplyWorker(s, w, b)
    case ParentCancelled => s.(managerDone := true, poolDone := true)
    case StopStep =>
      match s.stop
      case NotStopping => s.(stop := PoolCancelled, poolDone := true)
      case PoolCancelled => s.(stop := QueueClosed)
      case QueueClosed => s.(stop := PoolStopped)
      case PoolStopped => s.(stop := Stopped, managerDone := true)
      case Stopped => s
  }

  predicate NoSender(s: State) {
    forall c :: 0 <= c < |s.callers| ==> !s.callers[c].phase.Sending?
  }

  /** A step that does not close the queue while a caller is at the enqueueing select. */
  predicate Clean(s: State, step: Step) {
    step.StopStep? && s.stop.PoolCancelled? ==> NoSender(s)
  }

  // ---- runs -----------------------------------------------------------------

  /** `steps` can be taken one after the other from `s`. */
  predicate Runs(s: State, steps: seq<Step>)
    decreases |steps|
  {
    steps == [] || (Enabled(s, steps[0]) && Runs(Apply(s, steps[0]), steps[1..]))
  }

  /** The state after a run. */
  function Final(s: State, steps: seq<Step>): (t: State)
    requires Runs(s, steps)
    decreases |steps|
  {
    if steps == [] then s else Final(Apply(s, steps[0]), steps[1..])
  }

  /** No step of the run closes the queue under a caller that is about to send. */
  predicate CleanRun(s: State, steps: seq<Step>)
    requires Runs(s, steps)
    decreases |steps|
  {
    steps == [] || (Clean(s, steps[0]) && CleanRun(Apply(s, steps[0]), steps[1..]))
  }

  // ---- where a job is --------------------------------------------------------

  function SendsJob(j: nat): Caller -> nat {
    (c: Caller) => if c.phase == Sending(j) then 1 else 0
  }

  function WorksOn(j: nat): Worker -> nat {
    (w: Worker) => if (w.Holding? || w.Computed?) && w.job == j then 1 else 0
  }

  function IsJob(j: nat): nat -> nat {
    (k: nat) => if k == j then 1 else 0
  }

  /** In how many places job `j` is: with its sender, queued, with a worker, answered, closed. */
  function Places(s: State, j: nat): (n: nat)
    requires j < |s.jobs|
  {
    Tally(s.callers, SendsJob(j)) + Tally(s.queue, IsJob(j)) + Tally(s.workers, WorksOn(j))
    + |s.jobs[j].sends| + s.jobs[j].closes
  }

  predicate PhaseIn(p: Phase, n: nat) {
    p.Sending? || p.Waiting? || p.Answered? ==> p.job < n
  }

  predicate WorkerIn(k: Worker, n: nat) {
    k.Holding? || k.Computed? ==> k.job < n
  }

  /** Every job a caller, the queue or a worker refers to exists, and the queue fits. */
  ghost predicate InRange(s: State) {
    && (forall i :: 0 <= i < |s.queue| ==> s.queue[i] < |s.jobs|)
    && (forall w :: 0 <= w < |s.workers| ==> WorkerIn(s.workers[w], |s.jobs|))
    && (forall c :: 0 <= c < |s.callers| ==> PhaseIn(s.callers[c].phase, |s.jobs|))
    && |s.queue| <= 2 * |s.workers|
  }

  lemma OnePhaseMoved(s: State, c: nat, a: CallerAct)
    requires CallerEnabled(s, c, a)
    ensures var t := ApplyCaller(s, c, a);
            |t.callers| == |s.callers| && t.callers == s.callers[c := t.callers[c]] && |t.jobs| >= |s.jobs|
  {
  }

  lemma PhaseStaysIn(s: State, c: nat, a: CallerAct)
    requires CallerEnabled(s, c, a) && PhaseIn(s.callers[c].phase, |s.jobs|)
    ensures var t := ApplyCaller(s, c, a); PhaseIn(t.callers[c].phase, |t.jobs|)
  {
  }

  lemma CallerQueueIn(s: State, c: nat, a: CallerAct)
    requires InRange(s) && CallerEnabled(s, c, a)
    ensures var t := ApplyCaller(s, c, a);
            && t.workers == s.workers && |t.queue| <= 2 * |t.workers|
            && (forall i :: 0 <= i < |t.queue| ==> t.queue[i] < |t.jobs|)
  {
    assert PhaseIn(s.callers[c].phase, |s.jobs|);
  }

  lemma CallerInRange(s: State, c: nat, a: CallerAct)
    requires InRange(s) && CallerEnabled(s, c, a)
    ensures InRange(ApplyCaller(s, c, a))
  {
    OnePhaseMoved(s, c, a);
    CallerQueueIn(s, c, a);
    assert PhaseIn(s.callers[c].phase, |s.jobs|);
    PhaseStaysIn(s, c, a);
    hide ApplyCaller, CallerEnabled;
  }

  lemma WorkerInRange(s: State, w: nat, b: WorkerAct)
    requires InRange(s) && WorkerEnabled(s, w, b)
    ensures InRange(ApplyWorker(s, w, b))
  {
  }

  lemma WorkerPlacesKept(s: State, w: nat, b: WorkerAct, j: nat)
    requires WorkerEnabled(s, w, b) && j < |s.jobs|
    ensures var t := ApplyWorker(s, w, b); |t.jobs| == |s.jobs| && Places(t, j) == Places(s, j)
  {
    hide Tally;
    TallyUpdate(s.workers, w, ApplyWorker(s, w, b).workers[w], WorksOn(j));
    if b.TakeJob? {
      TallyHead(s.queue, IsJob(j));
    }
  }

  /** Enqueueing moves the job from its sender to the queue. */
  lemma EnqueuePlacesKept(s: State, c: nat, j: nat)
    requires CallerEnabled(s, c, Enqueue) && j < |s.jobs|
    ensures var t := ApplyCaller(s, c, Enqueue); t.jobs == s.jobs && Places(t, j) == Places(s, j)
  {
    hide Tally;
    var t := ApplyCaller(s, c, Enqueue);
    if !QueueIsClosed(s) {
      TallyUpdate(s.callers, c, t.callers[c], SendsJob(j));
      TallySnoc(s.queue, s.callers[c].phase.job, IsJob(j));
    }
  }

  /** Closing the channel moves the job from its sender to the closed ones. */
  lemma ClosePlacesKept(s: State, c: nat, j: nat)
    requires CallerEnabled(s, c, CloseUnsent) && j < |s.jobs|
    ensures var t := ApplyCaller(s, c, CloseUnsent); |t.jobs| == |s.jobs| && Places(t, j) == Places(s, j)
  {
    hide Tally;
    TallyUpdate(s.callers, c, ApplyCaller(s, c, CloseUnsent).callers[c], SendsJob(j));
  }

  lemma CallerPlacesKept(s: State, c: nat, a: CallerAct, j: nat)
    requires CallerEnabled(s, c, a) && j < |s.jobs|
    ensures var t := ApplyCaller(s, c, a); |t.jobs| >= |s.jobs| && Places(t, j) == Places(s, j)
  {
    hide Tally;
    if a.Enqueue? {
      EnqueuePlacesKept(s, c, j);
      hide Places;
    } else if a.CloseUnsent? {
      ClosePlacesKept(s, c, j);
      hide Places;
    } else {
      TallyUpdate(s.callers, c, ApplyCaller(s, c, a).callers[c], SendsJob(j));
    }
  }

  /** Conservation: no step loses, duplicates or moves out of sight an existing job. */
  lemma PlacesKept(s: State, step: Step, j: nat)
    requires Enabled(s, step) && j < |s.jobs|
    ensures var t := Apply(s, step); |t.jobs| >= |s.jobs| && Places(t, j) == Places(s, j)
  {
    hide Places, ApplyCaller, ApplyWorker;
    match step
    case ByCaller(c, a) => CallerPlacesKept(s, c, a, j);
    case ByWorker(w, b) => WorkerPlacesKept(s, w, b, j);
    case _ => SamePlaces(s, Apply(s, step), j);
  }

  lemma SamePlaces(s: State, t: State, j: nat)
    requires j < |s.jobs| && s.callers == t.callers && s.workers == t.workers
    requires s.queue == t.queue && s.jobs == t.jobs
    ensures Places(t, j) == Places(s, j)
  {
  }

  ghost predicate OnePlace(s: State) {
    forall j :: 0 <= j < |s.jobs| ==> Places(s, j) == 1
  }

  /** A new job starts in exactly one place: with its sender. */
  lemma NewJobPlaced(s: State, c: nat)
    requires InRange(s) && CallerEnabled(s, c, MakeJob)
    ensures Places(ApplyCaller(s, c, MakeJob), |s.jobs|) == 1
  {
    var j, t := |s.jobs|, ApplyCaller(s, c, MakeJob);
    TallyZero(s.callers, SendsJob(j));
    TallyUpdate(s.callers, c, t.callers[c], SendsJob(j));
    TallyZero(s.queue, IsJob(j));
    TallyZero(s.workers, WorksOn(j));
  }

  lemma JobsGrow(s: State, step: Step)
    requires Enabled(s, step)
    ensures |Apply(s, step).jobs| == if step.ByCaller? && step.a.MakeJob? then |s.jobs| + 1 else |s.jobs|
  {
  }

  lemma OnePlaceKept(s: State, step: Step)
    requires InRange(s) && OnePlace(s) && Enabled(s, step)
    ensures OnePlace(Apply(s, step))
  {
    var t := Apply(s, step);
    JobsGrow(s, step);
    hide Places, ApplyCaller, ApplyWorker;
    forall j | 0 <= j < |t.jobs| ensures Places(t, j) == 1 {
      if j < |s.jobs| {
        PlacesKept(s, step, j);
      } else {
        NewJobPlaced(s, step.c);
      }
    }
  }

  /** Job `j` is with worker `w`, hence nowhere else. */
  lemma OnlyWithWorker(s: State, w: nat, j: nat)
    requires j < |s.jobs| && Places(s, j) == 1
    requires w < |s.workers| && WorksOn(j)(s.workers[w]) == 1
    ensures s.jobs[j].sends == [] && s.jobs[j].closes == 0
    ensures forall i :: 0 <= i < |s.queue| ==> s.queue[i] != j
    ensures forall c :: 0 <= c < |s.callers| ==> s.callers[c].phase != Sending(j)
    ensures forall v :: 0 <= v < |s.workers| && v != w ==> WorksOn(j)(s.workers[v]) == 0
  {
    TallyAtLeast(s.workers, w, WorksOn(j));
    forall i | 0 <= i < |s.queue| ensures s.queue[i] != j {
      TallyAtLeast(s.queue, i, IsJob(j));
    }
    forall c | 0 <= c < |s.callers| ensures s.callers[c].phase != Sending(j) {
      TallyAtLeast(s.callers, c, SendsJob(j));
    }
    forall v | 0 <= v < |s.workers| && v != w ensures WorksOn(j)(s.workers[v]) == 0 {
      if v < w {
        TallyTwo(s.workers, v, w, WorksOn(j));
      } else {
        TallyTwo(s.workers, w, v, WorksOn(j));
      }
    }
  }

  lemma OnlyWithSender(s: State, c: nat, j: nat)
    requires j < |s.jobs| && Places(s, j) == 1
    requires c < |s.callers| && s.callers[c].phase == Sending(j)
    ensures s.jobs[j].sends == [] && s.jobs[j].closes == 0
  {
    TallyAtLeast(s.callers, c, SendsJob(j));
  }

  // ---- whose answer a caller gets ----------------------------------------------

  /** The dispatcher was called once for the job, with the job's own goal, and gave `r`. */
  predicate AnswerOf(job: Job, r: Result) {
    && |job.calls| == 1
    && job.calls[0].goal == job.goal
    && match job.calls[0].outcome
       case Ok(result) => r == result
       case Err(message) => r == Result(job.goal.eni, false, message)
  }

  /** Nobody has dispatched the job yet. */
  predicate Untouched(jobs: seq<Job>, j: nat) {
    j < |jobs| && jobs[j].calls == []
  }

  /** A worker's result is the dispatcher's answer to its job's goal. */
  predicate WorkerHonest(jobs: seq<Job>, k: Worker) {
    match k
    case Holding(j) => Untouched(jobs, j)
    case Computed(j, r) => j < |jobs| && AnswerOf(jobs[j], r)
    case _ => true
  }

  /** And so is the first value sent on a job's channel. */
  predicate JobHonest(job: Job) {
    |job.calls| <= 1 && (job.sends != [] ==> AnswerOf(job, job.sends[0]))
  }

  ghost predicate WorkersHonest(s: State) {
    && (forall i :: 0 <= i < |s.queue| ==> Untouched(s.jobs, s.queue[i]))
    && (forall w :: 0 <= w < |s.workers| ==> WorkerHonest(s.jobs, s.workers[w]))
    && (forall j :: 0 <= j < |s.jobs| ==> JobHonest(s.jobs[j]))
  }

  /** A caller's job carries the caller's goal, and its answer is the job's first reply. */
  predicate CallerHonest(jobs: seq<Job>, x: Caller) {
    match x.phase
    case Sending(j) => j < |jobs| && jobs[j].calls == [] && jobs[j].goal == x.goal
    case Waiting(j) => j < |jobs| && jobs[j].goal == x.goal
    case Answered(j, r) => j < |jobs| && jobs[j].goal == x.goal && jobs[j].sends != [] && r == jobs[j].sends[0]
    case GotNil(j) => j < |jobs| && jobs[j].goal == x.goal && jobs[j].closes > 0
    case _ => true
  }

  ghost predicate CallersHonest(s: State) {
    forall c :: 0 <= c < |s.callers| ==> CallerHonest(s.jobs, s.callers[c])
  }

  /** A caller's step changes no job but by closing its channel, and adds untouched ones. */
  lemma CallerTouchesNoJob(s: State, c: nat, a: CallerAct, j: nat)
    requires CallerEnabled(s, c, a) && j < |s.jobs|
    ensures var t := ApplyCaller(s, c, a);
            j < |t.jobs| && t.jobs[j] == s.jobs[j].(closes := t.jobs[j].closes) && t.jobs[j].closes >= s.jobs[j].closes
  {
  }

  lemma OthersStayHonest(s: State, c: nat, a: CallerAct, d: nat)
    requires CallersHonest(s) && CallerEnabled(s, c, a) && d < |s.callers| && d != c
    ensures var t := ApplyCaller(s, c, a); d < |t.callers| && CallerHonest(t.jobs, t.callers[d])
  {
    OnePhaseMoved(s, c, a);
    var p := s.callers[d].phase;
    assert CallerHonest(s.jobs, s.callers[d]);
    if p.Sending? || p.Waiting? || p.Answered? || p.GotNil? {
      CallerTouchesNoJob(s, c, a, p.job);
    }
    hide ApplyCaller, CallerEnabled;
  }

  /** A caller's own step keeps it honest, and leaves every other caller so. */
  lemma CallerStaysHonest(s: State, c: nat, a: CallerAct, d: nat)
    requires CallersHonest(s) && CallerEnabled(s, c, a) && d < |s.callers|
    ensures var t := ApplyCaller(s, c, a); d < |t.callers| && CallerHonest(t.jobs, t.callers[d])
  {
    if d == c {
      assert CallerHonest(s.jobs, s.callers[c]);
    } else {
      OthersStayHonest(s, c, a, d);
      hide ApplyCaller, CallerEnabled;
    }
  }

  lemma CallerAddsFreshOnly(s: State, c: nat, a: CallerAct)
    requires CallerEnabled(s, c, a) && CallersHonest(s)
    ensures var t := ApplyCaller(s, c, a);
            && t.workers == s.workers
            && (forall j :: |s.jobs| <= j < |t.jobs| ==> t.jobs[j].calls == [] && t.jobs[j].sends == [])
            && (t.queue == s.queue || (s.callers[c].phase.Sending? && t.queue == s.queue + [s.callers[c].phase.job]))
  {
  }

  lemma CallerKeepsWorkersHonest(s: State, c: nat, a: CallerAct)
    requires WorkersHonest(s) && CallersHonest(s) && CallerEnabled(s, c, a)
    ensures WorkersHonest(ApplyCaller(s, c, a))
  {
    CallerAddsFreshOnly(s, c, a);
    var t := ApplyCaller(s, c, a);
    assert CallerHonest(s.jobs, s.callers[c]);
    hide ApplyCaller, CallerEnabled, CallersHonest;
    forall i | 0 <= i < |t.queue| ensures Untouched(t.jobs, t.queue[i]) {
      assert Untouched(s.jobs, t.queue[i]);
      CallerTouchesNoJob(s, c, a, t.queue[i]);
    }
    forall w | 0 <= w < |t.workers| ensures WorkerHonest(t.jobs, t.workers[w]) {
      assert WorkerHonest(s.jobs, s.workers[w]);
      if s.workers[w].Holding? || s.workers[w].Computed? {
        CallerTouchesNoJob(s, c, a, s.workers[w].job);
      }
    }
    forall j | 0 <= j < |t.jobs| ensures JobHonest(t.jobs[j]) {
      if j < |s.jobs| {
        CallerTouchesNoJob(s, c, a, j);
      }
    }
  }

  lemma CallerKeepsCallersHonest(s: State, c: nat, a: CallerAct)
    requires CallersHonest(s) && CallerEnabled(s, c, a)
    ensures CallersHonest(ApplyCaller(s, c, a))
  {
    var t := ApplyCaller(s, c, a);
    assert |t.callers| == |s.callers|;
    hide ApplyCaller, CallerEnabled, CallerHonest;
    forall d | 0 <= d < |t.callers| ensures CallerHonest(t.jobs, t.callers[d]) {
      CallerStaysHonest(s, c, a, d);
    }
  }

  /** A worker's step leaves every job alone but the one it works on. */
  lemma WorkerTouchesOneJob(s: State, w: nat, b: WorkerAct, j: nat)
    requires WorkerEnabled(s, w, b) && j < |s.jobs| && WorksOn(j)(s.workers[w]) == 0
    ensures var t := ApplyWorker(s, w, b); |t.jobs| == |s.jobs| && t.jobs[j] == s.jobs[j]
  {
  }

  lemma QueueStaysHonest(s: State, w: nat, b: WorkerAct, i: nat)
    requires InRange(s) && OnePlace(s) && WorkersHonest(s) && WorkerEnabled(s, w, b) && i < |ApplyWorker(s, w, b).queue|
    ensures var t := ApplyWorker(s, w, b); Untouched(t.jobs, t.queue[i])
  {
    var k := if b.TakeJob? then i + 1 else i;
    assert ApplyWorker(s, w, b).queue[i] == s.queue[k];
    assert Untouched(s.jobs, s.queue[k]);
    assert WorksOn(s.queue[k])(s.workers[w]) == 0 by {
      if WorksOn(s.queue[k])(s.workers[w]) == 1 {
        OnlyWithWorker(s, w, s.queue[k]);
      }
    }
    WorkerTouchesOneJob(s, w, b, s.queue[k]);
    hide ApplyWorker, WorkerEnabled, Places;
  }

  lemma WorkersStayHonest(s: State, w: nat, b: WorkerAct, v: nat)
    requires InRange(s) && OnePlace(s) && WorkersHonest(s) && WorkerEnabled(s, w, b) && v < |s.workers|
    ensures var t := ApplyWorker(s, w, b); v < |t.workers| && WorkerHonest(t.jobs, t.workers[v])
  {
    assert WorkerHonest(s.jobs, s.workers[v]) && WorkerHonest(s.jobs, s.workers[w]);
    if v == w {
      if b.TakeJob? {
        assert Untouched(s.jobs, s.queue[0]);
      }
    } else {
      assert ApplyWorker(s, w, b).workers[v] == s.workers[v];
      if s.workers[v].Holding? || s.workers[v].Computed? {
        var j := s.workers[v].job;
        OnlyWithWorker(s, v, j);
        WorkerTouchesOneJob(s, w, b, j);
      }
      hide ApplyWorker, Places;
    }
  }

  lemma JobsStayHonest(s: State, w: nat, b: WorkerAct, j: nat)
    requires InRange(s) && OnePlace(s) && WorkersHonest(s) && WorkerEnabled(s, w, b) && j < |s.jobs|
    ensures var t := ApplyWorker(s, w, b); j < |t.jobs| && JobHonest(t.jobs[j])
  {
    assert JobHonest(s.jobs[j]) && WorkerHonest(s.jobs, s.workers[w]);
    if WorksOn(j)(s.workers[w]) == 1 {
      OnlyWithWorker(s, w, j);
      hide Places;
    } else {
      WorkerTouchesOneJob(s, w, b, j);
      hide ApplyWorker;
    }
  }

  lemma WorkerKeepsWorkersHonest(s: State, w: nat, b: WorkerAct)
    requires InRange(s) && OnePlace(s) && WorkersHonest(s) && WorkerEnabled(s, w, b)
    ensures WorkersHonest(ApplyWorker(s, w, b))
  {
    var t := ApplyWorker(s, w, b);
    assert |t.workers| == |s.workers| && |t.jobs| == |s.jobs|;
    hide ApplyWorker, WorkerEnabled, OnePlace, InRange, Untouched, WorkerHonest, JobHonest;
    forall i | 0 <= i < |t.queue| ensures Untouched(t.jobs, t.queue[i]) {
      QueueStaysHonest(s, w, b, i);
    }
    forall v | 0 <= v < |t.workers| ensures WorkerHonest(t.jobs, t.workers[v]) {
      WorkersStayHonest(s, w, b, v);
    }
    forall j | 0 <= j < |t.jobs| ensures JobHonest(t.jobs[j]) {
      JobsStayHonest(s, w, b, j);
    }
  }

  lemma WorkerKeepsCallersHonest(s: State, w: nat, b: WorkerAct)
    requires InRange(s) && OnePlace(s) && CallersHonest(s) && WorkerEnabled(s, w, b)
    ensures CallersHonest(ApplyWorker(s, w, b))
  {
    WorkerInRange(s, w, b);
    if !b.TakeJob? && !b.Drain? {
      OnlyWithWorker(s, w, s.workers[w].job);
    }
    hide Places;
  }

  // ---- the manager's counters -----------------------------------------------------

  datatype Kind = Uncounted | Pending | Success | Failure | GaveUp

  function KindOf(p: Phase): (k: Kind) {
    match p
    case Outside => Uncounted
    case Entered => Uncounted
    case Refused => Uncounted
    case Counted => Pending
    case Sending(_) => Pending
    case Waiting(_) => Pending
    case WaitingClosed => Pending
    case Answered(_, r) => if r.success then Success else Failure
    case GotNil(_) => Failure
    case GotClosed => Failure
    case Abandoned => GaveUp
  }

  function OfKind(k: Kind): Caller -> nat {
    (c: Caller) => if KindOf(c.phase) == k then 1 else 0
  }

  /** How many callers are of kind `k`. */
  function NumberOf(callers: seq<Caller>, k: Kind): (n: nat) {
    Tally(callers, OfKind(k))
  }

  /** submitted = succeeded + failed + pending + abandoned. */
  ghost predicate StatsExact(s: State) {
    && s.stats.succeeded == NumberOf(s.callers, Success)
    && s.stats.failed == NumberOf(s.callers, Failure)
    && s.stats.submitted == s.stats.succeeded + s.stats.failed
                            + NumberOf(s.callers, Pending) + NumberOf(s.callers, GaveUp)
  }

  lemma NumberOfMoved(callers: seq<Caller>, c: nat, x: Caller, k: Kind)
    requires c < |callers|
    ensures NumberOf(callers[c := x], k) == NumberOf(callers, k)
            - (if KindOf(callers[c].phase) == k then 1 else 0) + if KindOf(x.phase) == k then 1 else 0
  {
    TallyUpdate(callers, c, x, OfKind(k));
  }

  /** A caller's step moves the counters as the old and new kind of its phase say. */
  lemma KindMoved(s: State, c: nat, a: CallerAct)
    requires CallerEnabled(s, c, a)
    ensures var t := ApplyCaller(s, c, a);
            var k, l := KindOf(s.callers[c].phase), KindOf(t.callers[c].phase);
            && (k == l || (k == Uncounted && l == Pending) || (k == Pending && l != Uncounted))
            && t.stats.submitted == s.stats.submitted + (if k == Uncounted && l == Pending then 1 else 0)
  {
  }

  lemma ReceiveCounted(s: State, c: nat)
    requires CallerEnabled(s, c, Receive)
    ensures var t := ApplyCaller(s, c, Receive);
            var l := KindOf(t.callers[c].phase);
            && KindOf(s.callers[c].phase) == Pending && (l == Success || l == Failure)
            && t.stats.succeeded == s.stats.succeeded + (if l == Success then 1 else 0)
            && t.stats.failed == s.stats.failed + (if l == Failure then 1 else 0)
  {
  }

  lemma OthersUncounted(s: State, c: nat, a: CallerAct)
    requires CallerEnabled(s, c, a) && !a.Receive?
    ensures var t := ApplyCaller(s, c, a);
            var k, l := KindOf(s.callers[c].phase), KindOf(t.callers[c].phase);
            && (k == l || (l != Success && l != Failure))
            && t.stats.succeeded == s.stats.succeeded && t.stats.failed == s.stats.failed
  {
  }

  lemma ResultCounted(s: State, c: nat, a: CallerAct)
    requires CallerEnabled(s, c, a)
    ensures var t := ApplyCaller(s, c, a);
            var k, l := KindOf(s.callers[c].phase), KindOf(t.callers[c].phase);
            && t.stats.succeeded == s.stats.succeeded + (if k != l && l == Success then 1 else 0)
            && t.stats.failed == s.stats.failed + (if k != l && l == Failure then 1 else 0)
  {
    if a.Receive? {
      ReceiveCounted(s, c);
    } else {
      OthersUncounted(s, c, a);
    }
    hide ApplyCaller, CallerEnabled, KindOf;
  }

  lemma StatsExactKept(s: State, c: nat, a: CallerAct)
    requires StatsExact(s) && CallerEnabled(s, c, a)
    ensures StatsExact(ApplyCaller(s, c, a))
  {
    OnePhaseMoved(s, c, a);
    KindMoved(s, c, a);
    ResultCounted(s, c, a);
    var t := ApplyCaller(s, c, a);
    hide NumberOf, ApplyCaller, CallerEnabled, KindOf;
    NumberOfMoved(s.callers, c, t.callers[c], Success);
    NumberOfMoved(s.callers, c, t.callers[c], Failure);
    NumberOfMoved(s.callers, c, t.callers[c], Pending);
    NumberOfMoved(s.callers, c, t.callers[c], GaveUp);
  }

  // ---- the invariant of every run -----------------------------------------------

  ghost predicate Inv(s: State) {
    && InRange(s) && OnePlace(s)
    && WorkersHonest(s) && CallersHonest(s)
    && StatsExact(s)
    && (!s.stop.NotStopping? ==> s.poolDone)
  }

  lemma InvStarted(goals: seq<Goal>, requested: int)
    ensures Inv(Started(goals, requested))
  {
    var s := Started(goals, requested);
    TallyZero(s.callers, OfKind(Success));
    TallyZero(s.callers, OfKind(Failure));
    TallyZero(s.callers, OfKind(Pending));
    TallyZero(s.callers, OfKind(GaveUp));
  }

  lemma CallerKeepsInv(s: State, c: nat, a: CallerAct)
    requires Inv(s) && Enabled(s, ByCaller(c, a))
    ensures Inv(ApplyCaller(s, c, a))
  {
    OnePlaceKept(s, ByCaller(c, a));
    CallerInRange(s, c, a);
    CallerKeepsWorkersHonest(s, c, a);
    CallerKeepsCallersHonest(s, c, a);
    StatsExactKept(s, c, a);
    FlagsKept(s, ByCaller(c, a));
    hide InRange, OnePlace, WorkersHonest, CallersHonest, StatsExact, ApplyCaller, CallerEnabled;
  }

  lemma WorkerKeepsInv(s: State, w: nat, b: WorkerAct)
    requires Inv(s) && Enabled(s, ByWorker(w, b))
    ensures Inv(ApplyWorker(s, w, b))
  {
    OnePlaceKept(s, ByWorker(w, b));
    WorkerInRange(s, w, b);
    WorkerKeepsWorkersHonest(s, w, b);
    WorkerKeepsCallersHonest(s, w, b);
    FlagsKept(s, ByWorker(w, b));
    WorkerKeepsStats(s, w, b);
    hide InRange, OnePlace, WorkersHonest, CallersHonest, StatsExact, ApplyWorker, WorkerEnabled;
  }

  lemma WorkerKeepsStats(s: State, w: nat, b: WorkerAct)
    requires StatsExact(s) && WorkerEnabled(s, w, b)
    ensures StatsExact(ApplyWorker(s, w, b))
  {
    hide NumberOf;
  }

  /** A step of Stop or of the parent context touches flags only. */
  lemma OtherKeepsInv(s: State, step: Step)
    requires Inv(s) && Enabled(s, step) && (step.ParentCancelled? || step.StopStep?)
    ensures Inv(Apply(s, step))
  {
    var t := Apply(s, step);
    OnePlaceKept(s, step);
    FlagsKept(s, step);
    SameStats(s, t);
    assert t.callers == s.callers && t.workers == s.workers && t.queue == s.queue && t.jobs == s.jobs;
    hide OnePlace, StatsExact, Apply, AnswerOf, CallerHonest;
  }

  lemma InvKept(s: State, step: Step)
    requires Inv(s) && Enabled(s, step)
    ensures Inv(Apply(s, step))
  {
    hide Inv, ApplyCaller, ApplyWorker, CallerEnabled, WorkerEnabled;
    match step
    case ByCaller(c, a) => CallerKeepsInv(s, c, a);
    case ByWorker(w, b) => WorkerKeepsInv(s, w, b);
    case _ => OtherKeepsInv(s, step);
  }

  lemma FlagsKept(s: State, step: Step)
    requires Enabled(s, step) && (!s.stop.NotStopping? ==> s.poolDone)
    ensures var t := Apply(s, step); !t.stop.NotStopping? ==> t.poolDone
  {
  }

  lemma SameStats(s: State, t: State)
    requires StatsExact(s) && t.callers == s.callers && t.stats == s.stats
    ensures StatsExact(t)
  {
  }

  lemma {:induction false} InvAlways(s: State, steps: seq<Step>)
    requires Inv(s) && Runs(s, steps)
    ensures Inv(Final(s, steps))
    decreases |steps|
  {
    hide Inv, Apply, Enabled;
    if steps != [] {
      InvKept(s, steps[0]);
      InvAlways(Apply(s, steps[0]), steps[1..]);
    }
  }

  /** The callers that returned a successful result. */
  function Succeeded(): Caller -> nat {
    (c: Caller) => if c.phase.Answered? && c.phase.result.success then 1 else 0
  }

  /** The callers that returned an unsuccessful result, or none from a closed channel. */
  function Failed(): Caller -> nat {
    (c: Caller) => if (c.phase.Answered? && !c.phase.result.success) || c.phase.GotNil? || c.phase.GotClosed? then 1 else 0
  }

  /** The callers that are counted in and have not returned. */
  function StillInside(): Caller -> nat {
    (c: Caller) =>
      if c.phase.Counted? || c.phase.Sending? || c.phase.Waiting? || c.phase.WaitingClosed? then 1 else 0
  }

  function LeftEarly(): Caller -> nat {
    (c: Caller) => if c.phase.Abandoned? then 1 else 0
  }

  lemma CountersMeaning(s: State)
    requires StatsExact(s)
    ensures s.stats.succeeded == Tally(s.callers, Succeeded()) && s.stats.failed == Tally(s.callers, Failed())
    ensures s.stats.submitted == Tally(s.callers, Succeeded()) + Tally(s.callers, Failed())
                                 + Tally(s.callers, StillInside()) + Tally(s.callers, LeftEarly())
  {
    hide Tally;
    TallySame(s.callers, OfKind(Success), Succeeded());
    TallySame(s.callers, OfKind(Failure), Failed());
    TallySame(s.callers, OfKind(Pending), StillInside());
    TallySame(s.callers, OfKind(GaveUp), LeftEarly());
  }

  /** A caller's job is its own, and it returns what was sent on the job's channel, or nothing if that was closed. */
  ghost predicate Served(s: State, c: nat)
    requires c < |s.callers|
  {
    match s.callers[c].phase
    case Waiting(j) => j < |s.jobs| && s.jobs[j].goal == s.callers[c].goal
    case Answered(j, r) =>
      j < |s.jobs| && s.jobs[j].goal == s.callers[c].goal && s.jobs[j].sends == [r] && AnswerOf(s.jobs[j], r)
    case GotNil(j) =>
      j < |s.jobs| && s.jobs[j].goal == s.callers[c].goal && s.jobs[j].sends == [] && s.jobs[j].closes == 1
    case _ => true
  }

  lemma ServedAlways(s: State, c: nat)
    requires Inv(s) && c < |s.callers|
    ensures Served(s, c)
  {
    assert CallerHonest(s.jobs, s.callers[c]);
    var p := s.callers[c].phase;
    if p.Answered? || p.GotNil? {
      assert JobHonest(s.jobs[p.job]) && Places(s, p.job) == 1;
    }
    hide Tally, StatsExact;
  }

  /**
    Main theorem. In every interleaving: each job is in exactly one place; its
    channel got at most one value or one close, never both; Dispatch ran at
    most once for it; the queue is within twice the worker count; a caller
    returns the value sent for its own goal, which is what Dispatch returned for
    it, and returns without one only if the channel was closed instead; and the
    counters count exactly the successful, the failed and all counted callers.
   */
  lemma EveryRun(goals: seq<Goal>, requested: int, steps: seq<Step>)
    requires Runs(Started(goals, requested), steps)
    ensures var s := Final(Started(goals, requested), steps);
            && (forall j :: 0 <= j < |s.jobs| ==>
                  Places(s, j) == 1 && |s.jobs[j].sends| + s.jobs[j].closes <= 1 && |s.jobs[j].calls| <= 1)
            && |s.queue| <= 2 * |s.workers|
            && (forall c :: 0 <= c < |s.callers| ==> Served(s, c))
            && s.stats.succeeded == Tally(s.callers, Succeeded()) && s.stats.failed == Tally(s.callers, Failed())
            && s.stats.submitted == s.stats.succeeded + s.stats.failed
                                    + Tally(s.callers, StillInside()) + Tally(s.callers, LeftEarly())
  {
    InvStarted(goals, requested);
    InvAlways(Started(goals, requested), steps);
    hide Runs, Final, Started, NumberOf, Tally;
    var s := Final(Started(goals, requested), steps);
    CountersMeaning(s);
    forall j | 0 <= j < |s.jobs|
      ensures Places(s, j) == 1 && |s.jobs[j].sends| + s.jobs[j].closes <= 1 && |s.jobs[j].calls| <= 1
    {
      assert Places(s, j) == 1 && JobHonest(s.jobs[j]);
    }
    forall c | 0 <= c < |s.callers| ensures Served(s, c) {
      ServedAlways(s, c);
    }
  }

  // ---- flags and order ------------------------------------------------------------------

  /** The manager's context is never done without the pool's, and both are by the end of Stop. */
  ghost predicate FlagsAgree(s: State) {
    && (s.managerDone ==> s.poolDone)
    && (s.stop.NotStopping? ==> s.managerDone == s.poolDone)
    && (!s.stop.NotStopping? ==> s.poolDone)
    && (s.stop.Stopped? ==> s.managerDone)
  }

  lemma {:induction false} FlagsAlways(s: State, steps: seq<Step>)
    requires FlagsAgree(s) && Runs(s, steps)
    ensures FlagsAgree(Final(s, steps))
    decreases |steps|
  {
    if steps != [] {
      assert FlagsAgree(Apply(s, steps[0]));
      FlagsAlways(Apply(s, steps[0]), steps[1..]);
    }
  }

  /**
    Stop at work: while it holds the manager's lock no counter moves; from its
    first step on nobody enters and no job is made; and neither after the
    manager's context is done.
   */
  lemma StopShutsTheDoor(s: State, step: Step, c: nat)
    requires Enabled(s, step) && c < |s.callers|
    ensures var t := Apply(s, step);
            && (!s.stop.NotStopping? && !s.stop.Stopped? ==> t.stats == s.stats)
            && (!s.stop.NotStopping? ==> |t.jobs| == |s.jobs|)
            && (!s.stop.NotStopping? || s.managerDone ==>
                  c < |t.callers| && (s.callers[c].phase.Outside? ==> !t.callers[c].phase.Entered?))
  {
    if step.ByCaller? {
      OnePhaseMoved(s, step.c, step.a);
    }
  }

  /** What one step does to the queue: nothing, a job at the back, or the front job to the worker that took it. */
  lemma QueueStep(s: State, step: Step)
    requires Enabled(s, step)
    ensures var t := Apply(s, step);
            || t.queue == s.queue
            || (exists j :: t.queue == s.queue + [j])
            || (s.queue != [] && t.queue == s.queue[1..] && step.ByWorker? && step.w < |t.workers|
                && t.workers[step.w] == Holding(s.queue[0]))
  {
    if step.ByCaller? && step.a.Enqueue? && !QueueIsClosed(s) {
      assert Apply(s, step).queue == s.queue + [s.callers[step.c].phase.job];
    }
  }

  /** First in, first out: over any run the queue loses jobs at the front and gains them at the back only. */
  lemma {:induction false} FirstInFirstOut(s: State, steps: seq<Step>) returns (taken: nat, more: seq<nat>)
    requires Runs(s, steps)
    ensures taken <= |s.queue| + |more| && Final(s, steps).queue == (s.queue + more)[taken..]
    decreases |steps|
  {
    if steps == [] {
      taken, more := 0, [];
      assert (s.queue + [])[0..] == s.queue;
      return;
    }
    QueueStep(s, steps[0]);
    var t := Apply(s, steps[0]);
    hide Apply, Enabled;
    taken, more := FirstInFirstOut(t, steps[1..]);
    if t.queue == s.queue {
    } else if j :| t.queue == s.queue + [j] {
      assert s.queue + ([j] + more) == t.queue + more;
      more := [j] + more;
    } else {
      assert (s.queue + more)[taken + 1..] == (t.queue + more)[taken..];
      taken := taken + 1;
    }
  }

  // ---- panics ------------------------------------------------------------------------

  /** The only panicking step of any run is an enqueue on the closed queue. */
  lemma PanicsOnlyAtEnqueue(s: State, step: Step)
    requires Inv(s) && Enabled(s, step)
    ensures Apply(s, step).panicked <==>
            step.ByCaller? && step.a.Enqueue? && QueueIsClosed(s)
  {
    if step.ByWorker? && (step.b.Reply? || step.b.CloseAndQuit?) {
      OnlyWithWorker(s, step.w, s.workers[step.w].job);
    } else if step.ByCaller? && step.a.CloseUnsent? {
      OnlyWithSender(s, step.c, s.callers[step.c].phase.job);
    }
    hide WorkersHonest, CallersHonest, StatsExact, Places;
  }

  /** A closed queue has no sender left, and a drained worker proves the queue is empty for good. */
  ghost predicate Tidy(s: State) {
    && !s.panicked
    && (!s.stop.NotStopping? ==> s.poolDone)
    && (QueueIsClosed(s) ==> NoSender(s))
    && (forall w :: 0 <= w < |s.workers| && s.workers[w].Drained? ==> QueueIsClosed(s) && s.queue == [])
  }

  lemma TidyCaller(s: State, c: nat, a: CallerAct)
    requires Tidy(s) && CallerEnabled(s, c, a) && !ApplyCaller(s, c, a).panicked
    ensures Tidy(ApplyCaller(s, c, a))
  {
  }

  lemma TidyWorker(s: State, w: nat, b: WorkerAct)
    requires Tidy(s) && WorkerEnabled(s, w, b) && !ApplyWorker(s, w, b).panicked
    ensures Tidy(ApplyWorker(s, w, b))
  {
  }

  lemma TidyKept(s: State, step: Step)
    requires Inv(s) && Tidy(s) && Enabled(s, step) && Clean(s, step)
    ensures Tidy(Apply(s, step))
  {
    PanicsOnlyAtEnqueue(s, step);
    hide Inv, ApplyCaller, ApplyWorker, WorkerEnabled;
    match step
    case ByCaller(c, a) => TidyCaller(s, c, a);
    case ByWorker(w, b) => TidyWorker(s, w, b);
    case _ =>
  }

  lemma {:induction false} TidyAlways(s: State, steps: seq<Step>)
    requires Inv(s) && Tidy(s) && Runs(s, steps) && CleanRun(s, steps)
    ensures Tidy(Final(s, steps))
    decreases |steps|
  {
    hide Inv, Apply, Enabled, Tidy, Clean;
    if steps != [] {
      InvKept(s, steps[0]);
      TidyKept(s, steps[0]);
      TidyAlways(Apply(s, steps[0]), steps[1..]);
    }
  }

  /** With no caller at the enqueueing select when the queue closes, no run panics. */
  lemma CleanRunsNeverPanic(goals: seq<Goal>, requested: int, steps: seq<Step>)
    requires Runs(Started(goals, requested), steps) && CleanRun(Started(goals, requested), steps)
    ensures !Final(Started(goals, requested), steps).panicked
  {
    InvStarted(goals, requested);
    TidyAlways(Started(goals, requested), steps);
  }

  lemma ClosedStays(s: State, step: Step)
    requires QueueIsClosed(s) && Enabled(s, step)
    ensures QueueIsClosed(Apply(s, step))
  {
  }

  /** After the queue closed, a run has no further chance to be unclean. */
  lemma {:induction false} ClosedRunsAreClean(s: State, steps: seq<Step>)
    requires QueueIsClosed(s) && Runs(s, steps)
    ensures CleanRun(s, steps) && QueueIsClosed(Final(s, steps))
    decreases |steps|
  {
    if steps != [] {
      ClosedStays(s, steps[0]);
      ClosedRunsAreClean(Apply(s, steps[0]), steps[1..]);
    }
  }

  /** And a run that has not closed the queue had no chance yet. */
  lemma {:induction false} UnclosedRunsAreClean(s: State, steps: seq<Step>)
    requires Runs(s, steps) && !QueueIsClosed(Final(s, steps))
    ensures CleanRun(s, steps)
    decreases |steps|
  {
    if steps != [] {
      var t := Apply(s, steps[0]);
      if QueueIsClosed(t) {
        ClosedRunsAreClean(t, steps[1..]);
      } else {
        UnclosedRunsAreClean(t, steps[1..]);
      }
    }
  }

  /** Some continuation panics. */
  ghost predicate CanPanic(t: State) {
    exists steps :: Runs(t, steps) && Final(t, steps).panicked
  }

  lemma SenderCanPanic(t: State, c: nat)
    requires QueueIsClosed(t) && !t.panicked && c < |t.callers| && t.callers[c].phase.Sending?
    ensures CanPanic(t)
  {
    var step := ByCaller(c, Enqueue);
    assert Runs(Apply(t, step), []) && Final(Apply(t, step), []).panicked;
    assert [step][1..] == [];
    assert Runs(t, [step]) && Final(t, [step]).panicked;
  }

  lemma PanicExactlyAt(s: State)
    requires Inv(s) && Tidy(s) && s.stop == PoolCancelled
    ensures CanPanic(Apply(s, StopStep)) <==> !NoSender(s)
  {
    var t := Apply(s, StopStep);
    if NoSender(s) {
      InvKept(s, StopStep);
      forall steps | Runs(t, steps) ensures !Final(t, steps).panicked {
        ClosedRunsAreClean(t, steps);
        TidyAlways(t, steps);
      }
    } else {
      var c :| 0 <= c < |s.callers| && s.callers[c].phase.Sending?;
      SenderCanPanic(t, c);
    }
  }

  /**
    Exactly when closing the queue is dangerous: after any run that has come
    to the close, some continuation panics if and only if a caller is at the
    enqueueing select at that moment.
   */
  lemma PanicExactlyWithSender(goals: seq<Goal>, requested: int, steps: seq<Step>)
    requires Runs(Started(goals, requested), steps)
    requires Final(Started(goals, requested), steps).stop == PoolCancelled
    ensures var s := Final(Started(goals, requested), steps);
            !s.panicked && (CanPanic(Apply(s, StopStep)) <==> !NoSender(s))
  {
    var s0 := Started(goals, requested);
    InvStarted(goals, requested);
    InvAlways(s0, steps);
    UnclosedRunsAreClean(s0, steps);
    TidyAlways(s0, steps);
    hide Inv, Runs, CleanRun, Final, Started;
    PanicExactlyAt(Final(s0, steps));
  }

  /** One more step at the end of a run. */
  lemma {:induction false} RunsSnoc(s: State, steps: seq<Step>, step: Step)
    requires Runs(s, steps) && Enabled(Final(s, steps), step)
    ensures Runs(s, steps + [step]) && Final(s, steps + [step]) == Apply(Final(s, steps), step)
    decreases |steps|
  {
    hide Apply, Enabled;
    if steps == [] {
      assert [step][1..] == [];
    } else {
      assert (steps + [step])[1..] == steps[1..] + [step];
      RunsSnoc(Apply(s, steps[0]), steps[1..], step);
    }
  }

  /** Caller `c`, still outside, comes to the enqueueing select with job `j`. */
  lemma ReachesSelect(s: State, steps: seq<Step>, c: nat) returns (more: seq<Step>)
    requires Runs(s, steps)
    requires var t := Final(s, steps);
             && !t.panicked && t.stop == NotStopping && !t.managerDone && !t.poolDone
             && c < |t.callers| && t.callers[c].phase == Outside
    ensures Runs(s, more)
    ensures var t, u := Final(s, steps), Final(s, more);
            u == t.(callers := t.callers[c := t.callers[c].(phase := Sending(|t.jobs|))],
                    jobs := t.jobs + [Job(t.callers[c].goal, [], [], 0)],
                    stats := t.stats.(submitted := t.stats.submitted + 1))
  {
    hide Runs, Final;
    var t := Final(s, steps);
    RunsSnoc(s, steps, ByCaller(c, Enter));
    var a := steps + [ByCaller(c, Enter)];
    RunsSnoc(s, a, ByCaller(c, CountIn));
    var b := a + [ByCaller(c, CountIn)];
    RunsSnoc(s, b, ByCaller(c, MakeJob));
    more := b + [ByCaller(c, MakeJob)];
    assert Final(s, more).callers == t.callers[c := t.callers[c].(phase := Sending(|t.jobs|))];
  }

  /** Such a run exists: one caller, one worker, Stop, and the send on the closed queue panics. */
  lemma PanicRun(g: Goal) returns (steps: seq<Step>)
    ensures Runs(Started([g], 1), steps) && Final(Started([g], 1), steps).panicked
  {
    var s := Started([g], 1);
    assert Runs(s, []) && Final(s, []) == s;
    steps := ReachesSelect(s, [], 0);
    hide Runs, Final;
    RunsSnoc(s, steps, StopStep);
    steps := steps + [StopStep];
    RunsSnoc(s, steps, StopStep);
    steps := steps + [StopStep];
    RunsSnoc(s, steps, ByCaller(0, Enqueue));
    steps := steps + [ByCaller(0, Enqueue)];
  }

  // ---- what shutdown leaves behind -----------------------------------------------------

  predicate AllExited(s: State) {
    forall w :: 0 <= w < |s.workers| ==> s.workers[w].Drained? || s.workers[w].Quit?
  }

  lemma NothingStrandedAt(s: State, j: nat)
    requires Inv(s) && Tidy(s) && AllExited(s) && j < |s.jobs|
    requires exists w :: 0 <= w < |s.workers| && s.workers[w].Drained?
    ensures |s.jobs[j].sends| + s.jobs[j].closes == 1
  {
    assert Places(s, j) == 1;
    TallyZero(s.callers, SendsJob(j));
    TallyZero(s.workers, WorksOn(j));
  }

  /**
    After any clean run to the exit of all workers, at least one of which left by
    draining the queue, every job has its reply: one value or one close.
   */
  lemma NothingStranded(goals: seq<Goal>, requested: int, steps: seq<Step>, j: nat)
    requires Runs(Started(goals, requested), steps) && CleanRun(Started(goals, requested), steps)
    requires var s := Final(Started(goals, requested), steps);
             && AllExited(s) && j < |s.jobs|
             && exists w :: 0 <= w < |s.workers| && s.workers[w].Drained?
    ensures var job := Final(Started(goals, requested), steps).jobs[j]; |job.sends| + job.closes == 1
  {
    var s0 := Started(goals, requested);
    InvStarted(goals, requested);
    InvAlways(s0, steps);
    TidyAlways(s0, steps);
    hide Inv, Tidy, AllExited, Runs, CleanRun, Final, Started;
    NothingStrandedAt(Final(s0, steps), j);
  }

  /** Idle workers: each of them must still take a job before it can leave a non-empty queue. */
  function IsIdle(): Worker -> nat {
    (w: Worker) => if w.Idle? then 1 else 0
  }

  function Idles(s: State): (n: nat) {
    Tally(s.workers, IsIdle())
  }

  /** Some continuation ends with every worker gone and a job still queued. */
  ghost predicate CanStrand(t: State) {
    exists steps :: Runs(t, steps) && AllExited(Final(t, steps)) && Final(t, steps).queue != []
  }

  /** With an idle worker for every queued job it stays so: nothing can be stranded. */
  lemma EnoughKept(s: State, step: Step)
    requires QueueIsClosed(s) && Enabled(s, step) && |s.queue| <= Idles(s)
    ensures |Apply(s, step).queue| <= Idles(Apply(s, step))
  {
    match step
    case ByCaller(c, a) =>
      ClosedQueueKept(s, c, a);
      hide ApplyCaller, CallerEnabled, Idles;
    case ByWorker(w, b) =>
      EnoughAfterWorker(s, w, b);
      hide ApplyWorker, WorkerEnabled, Idles;
    case _ =>
      hide Tally;
  }

  lemma EnoughAfterWorker(s: State, w: nat, b: WorkerAct)
    requires WorkerEnabled(s, w, b) && |s.queue| <= Idles(s)
    ensures |ApplyWorker(s, w, b).queue| <= Idles(ApplyWorker(s, w, b))
  {
    TallyUpdate(s.workers, w, ApplyWorker(s, w, b).workers[w], IsIdle());
    hide Tally;
  }

  lemma ClosedQueueKept(s: State, c: nat, a: CallerAct)
    requires QueueIsClosed(s) && CallerEnabled(s, c, a)
    ensures ApplyCaller(s, c, a).queue == s.queue && Idles(ApplyCaller(s, c, a)) == Idles(s)
  {
    hide Tally;
  }

  lemma {:induction false} EnoughAlways(s: State, steps: seq<Step>)
    requires QueueIsClosed(s) && Runs(s, steps) && |s.queue| <= Idles(s)
    ensures |Final(s, steps).queue| <= Idles(Final(s, steps))
    decreases |steps|
  {
    if steps != [] {
      EnoughKept(s, steps[0]);
      ClosedStays(s, steps[0]);
      hide Apply, Enabled, Idles, QueueIsClosed;
      EnoughAlways(Apply(s, steps[0]), steps[1..]);
    }
  }

  /** How many steps a worker still needs to quit with one more job at most. */
  function StepsLeft(): Worker -> nat {
    (w: Worker) => match w
                   case Idle => 3
                   case Holding(_) => 2
                   case Computed(_, _) => 1
                   case _ => 0
  }

  /** The step that brings worker `w` closer to quitting. */
  function Leaving(s: State, w: nat): (step: Step)
    requires w < |s.workers|
  {
    ByWorker(w, match s.workers[w]
                case Idle => TakeJob
                case Holding(_) => Dispatch(Err(""))
                case _ => CloseAndQuit)
  }

  lemma LeavingStep(s: State, w: nat)
    requires Inv(s) && QueueIsClosed(s) && !s.panicked && |s.queue| > Idles(s)
    requires w < |s.workers| && !s.workers[w].Drained? && !s.workers[w].Quit?
    ensures Enabled(s, Leaving(s, w))
    ensures var t := Apply(s, Leaving(s, w));
            && Inv(t) && QueueIsClosed(t) && !t.panicked && |t.queue| > Idles(t)
            && Tally(t.workers, StepsLeft()) == Tally(s.workers, StepsLeft()) - 1
  {
    var step := Leaving(s, w);
    assert Enabled(s, step);
    InvKept(s, step);
    PanicsOnlyAtEnqueue(s, step);
    var t := Apply(s, step);
    TallyUpdate(s.workers, w, t.workers[w], IsIdle());
    TallyUpdate(s.workers, w, t.workers[w], StepsLeft());
    hide Inv, Tally, Places;
  }

  /** With more jobs than idle workers, all workers can leave before the queue is empty. */
  lemma {:induction false} StrandingRun(s: State) returns (steps: seq<Step>)
    requires Inv(s) && QueueIsClosed(s) && !s.panicked && |s.queue| > Idles(s)
    ensures Runs(s, steps) && AllExited(Final(s, steps)) && Final(s, steps).queue != []
    decreases Tally(s.workers, StepsLeft())
  {
    if AllExited(s) {
      return [];
    }
    var w :| 0 <= w < |s.workers| && !s.workers[w].Drained? && !s.workers[w].Quit?;
    LeavingStep(s, w);
    hide Inv, Idles, Tally, Leaving, Apply, Enabled, QueueIsClosed, AllExited;
    var rest := StrandingRun(Apply(s, Leaving(s, w)));
    steps := [Leaving(s, w)] + rest;
    assert steps[1..] == rest;
  }

  /**
    Exactly when a shutdown can strand a job: after any run that closed the
    queue, some continuation ends with all workers gone and a job still queued
    if and only if the queue holds more jobs than there are idle workers.
   */
  lemma StrandedExactly(goals: seq<Goal>, requested: int, steps: seq<Step>)
    requires Runs(Started(goals, requested), steps)
    requires var s := Final(Started(goals, requested), steps); QueueIsClosed(s) && !s.panicked
    ensures var s := Final(Started(goals, requested), steps); CanStrand(s) <==> |s.queue| > Idles(s)
  {
    InvStarted(goals, requested);
    InvAlways(Started(goals, requested), steps);
    var s := Final(Started(goals, requested), steps);
    hide Inv, Started, Idles, QueueIsClosed;
    if |s.queue| > Idles(s) {
      var more := StrandingRun(s);
    } else {
      forall more | Runs(s, more) && AllExited(Final(s, more)) ensures Final(s, more).queue == [] {
        EnoughAlways(s, more);
        NoIdles(Final(s, more));
      }
    }
  }

  lemma NoIdles(s: State)
    requires AllExited(s)
    ensures Idles(s) == 0
  {
    TallyZero(s.workers, IsIdle());
  }

  /** Two programs come to wait in the queue of one worker. */
  lemma TwoQueued(g: Goal, h: Goal) returns (steps: seq<Step>)
    ensures Runs(Started([g, h], 1), steps)
    ensures var t := Final(Started([g, h], 1), steps);
            && t.queue == [0, 1] && t.workers == [Idle] && t.stop == NotStopping && !t.panicked
            && |t.callers| == 2 && t.callers[0].phase == Waiting(0) && t.callers[1].phase == Waiting(1)
  {
    var s := Started([g, h], 1);
    assert Runs(s, []) && Final(s, []) == s;
    steps := ReachesSelect(s, [], 0);
    hide Runs, Final;
    RunsSnoc(s, steps, ByCaller(0, Enqueue));
    steps := steps + [ByCaller(0, Enqueue)];
    steps := ReachesSelect(s, steps, 1);
    RunsSnoc(s, steps, ByCaller(1, Enqueue));
    steps := steps + [ByCaller(1, Enqueue)];
  }

  /** Such a run exists: with two programs queued for one worker, the queue closes. */
  lemma StrandRun(g: Goal, h: Goal) returns (steps: seq<Step>)
    ensures Runs(Started([g, h], 1), steps) && CleanRun(Started([g, h], 1), steps)
    ensures CanStrand(Final(Started([g, h], 1), steps))
  {
    hide Runs, Final, CleanRun, Started, CanStrand, Idles;
    var s := Started([g, h], 1);
    steps := TwoQueued(g, h);
    RunsSnoc(s, steps, StopStep);
    steps := steps + [StopStep];
    UnclosedRunsAreClean(s, steps);
    CleanSnoc(s, steps, StopStep);
    RunsSnoc(s, steps, StopStep);
    steps := steps + [StopStep];
    OneIdle(Final(s, steps));
    StrandedExactly([g, h], 1, steps);
  }

  lemma OneIdle(s: State)
    requires s.workers == [Idle]
    ensures Idles(s) == 1
  {
    TallySnoc([], Idle, IsIdle());
    assert [] + [Idle] == s.workers;
  }

  lemma {:induction false} CleanSnoc(s: State, steps: seq<Step>, step: Step)
    requires Runs(s, steps) && CleanRun(s, steps) && Enabled(Final(s, steps), step) && Clean(Final(s, steps), step)
    ensures Runs(s, steps + [step]) && CleanRun(s, steps + [step])
    decreases |steps|
  {
    hide Apply, Enabled, Clean;
    RunsSnoc(s, steps, step);
    if steps == [] {
      assert [step][1..] == [];
    } else {
      assert (steps + [step])[1..] == steps[1..] + [step];
      CleanSnoc(Apply(s, steps[0]), steps[1..], step);
    }
  }
}
