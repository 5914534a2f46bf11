/**
  The event pipeline of the configuration manager (cm/pipeline.go): receive,
  deduplicate, validate, forward. The scheduler and the validator are inputs:
  each turn says what the loop's select statements saw.
 */
module PipelineSpec {
  import opened Common
  import opened LruSpec

  datatype Event = Event(id: string, fingerprint: Fingerprint)

  /**
    One round of the event loop. `Receive` is a round whose outer select took
    an event; `valid` is the validator's verdict and `sent` says whether the
    forwarding select took the output channel (rather than stop or
    cancellation). `Quit` is a round whose outer select saw the input closed,
    the stop signal or the cancelled context.
   */
  datatype Turn = Receive(event: Event, valid: bool, sent: bool) | Quit

  datatype Verdict = Duplicate | Invalid | Forwarded | StoppedAtForward

  /** The first `n` turns all delivered an event. */
  ghost predicate Received(turns: seq<Turn>, n: nat) {
    n <= |turns| && forall k :: 0 <= k < n ==> turns[k].Receive?
  }

  lemma ReceivedNext(turns: seq<Turn>, n: nat)
    requires Received(turns, n) && n < |turns| && turns[n].Receive?
    ensures Received(turns, n + 1)
  {
  }

  /** The cache history, newest first, after `n` events on top of history `h`. */
  function Seen(h: seq<Fingerprint>, turns: seq<Turn>, n: nat): (r: seq<Fingerprint>)
    requires Received(turns, n)
  {
    if n == 0 then h else [turns[n - 1].event.fingerprint] + Seen(h, turns, n - 1)
  }

  /** What the loop does with a turn that finds the cache at history `seen`. */
  function Judge(seen: seq<Fingerprint>, turn: Turn, cap: nat): (v: Verdict)
    requires turn.Receive?
  {
    if Remembered(seen, turn.event.fingerprint, cap) then Duplicate
    else if !turn.valid then Invalid
    else if turn.sent then Forwarded
    else StoppedAtForward
  }

  /** The verdicts on the first `n` events, starting at cache history `h`. */
  function Verdicts(h: seq<Fingerprint>, turns: seq<Turn>, cap: nat, n: nat): (vs: seq<Verdict>)
    requires Received(turns, n)
    ensures |vs| == n
  {
    if n == 0 then []
    else Verdicts(h, turns, cap, n - 1) + [Judge(Seen(h, turns, n - 1), turns[n - 1], cap)]
  }

  lemma {:induction false} VerdictAt(h: seq<Fingerprint>, turns: seq<Turn>, cap: nat, n: nat, i: nat)
    requires Received(turns, n) && i < n
    ensures Verdicts(h, turns, cap, n)[i] == Judge(Seen(h, turns, i), turns[i], cap)
  {
    if i < n - 1 {
      VerdictAt(h, turns, cap, n - 1, i);
    }
  }

  /** How many of the first `n` verdicts are `v`. */
  function Count(vs: seq<Verdict>, n: nat, v: Verdict): (c: nat)
    requires n <= |vs|
  {
    if n == 0 then 0 else Count(vs, n - 1, v) + if vs[n - 1] == v then 1 else 0
  }

  /** The positions of the forwarded events among the first `n`. */
  function Positions(vs: seq<Verdict>, n: nat): (ps: seq<nat>)
    requires n <= |vs|
    ensures forall k :: 0 <= k < |ps| ==> ps[k] < n
  {
    if n == 0 then []
    else if vs[n - 1] == Forwarded then Positions(vs, n - 1) + [n - 1]
    else Positions(vs, n - 1)
  }

  /** The counters, and everything sent on the output channel. */
  datatype Progress = Progress(received: nat, duplicated: nat, validated: nat, forwarded: nat,
                               validationErrors: nat, sent: seq<Event>)

  const START := Progress(0, 0, 0, 0, 0, [])

  function Record(p: Progress, e: Event, v: Verdict): (r: Progress) {
    var q := p.(received := p.received + 1);
    match v
    case Duplicate => q.(duplicated := p.duplicated + 1)
    case Invalid => q.(validationErrors := p.validationErrors + 1)
    case Forwarded => q.(validated := p.validated + 1, forwarded := p.forwarded + 1, sent := p.sent + [e])
    case StoppedAtForward => q.(validated := p.validated + 1)
  }

  /** Progress after `n` events with the given verdicts. */
  function After(turns: seq<Turn>, vs: seq<Verdict>, n: nat): (r: Progress)
    requires Received(turns, n) && n <= |vs|
  {
    if n == 0 then START else Record(After(turns, vs, n - 1), turns[n - 1].event, vs[n - 1])
  }

  /** The counters mean what their names say, and they balance at every loop head. */
  lemma {:induction false} CountersMeaning(turns: seq<Turn>, vs: seq<Verdict>, n: nat)
    requires Received(turns, n) && n <= |vs|
    ensures var p := After(turns, vs, n);
            && p.received == n == p.duplicated + p.validationErrors + p.validated
            && p.duplicated == Count(vs, n, Duplicate)
            && p.validationErrors == Count(vs, n, Invalid)
            && p.forwarded == Count(vs, n, Forwarded)
            && p.validated == p.forwarded + Count(vs, n, StoppedAtForward)
  {
    if n > 0 {
      CountersMeaning(turns, vs, n - 1);
    }
  }

  /** The output is an in-order subsequence of the input: the forwarded events. */
  lemma {:induction false} OutputInOrder(turns: seq<Turn>, vs: seq<Verdict>, n: nat)
    requires Received(turns, n) && n <= |vs|
    ensures var ps, out := Positions(vs, n), After(turns, vs, n).sent;
            && |out| == |ps|
            && (forall k :: 0 <= k < |ps| ==> out[k] == turns[ps[k]].event)
            && (forall a, b :: 0 <= a < b < |ps| ==> ps[a] < ps[b])
            && (forall i :: 0 <= i < n ==> (i in ps <==> vs[i] == Forwarded))
  {
    if n > 0 {
      OutputInOrder(turns, vs, n - 1);
    }
  }

  /**
    Between loop rounds every validated event was forwarded; a loop stopped at
    its forwarding select has exactly one validated event outstanding.
   */
  lemma {:induction false} OutstandingEvents(turns: seq<Turn>, vs: seq<Verdict>, n: nat)
    requires Received(turns, n) && n <= |vs|
    requires forall i :: 0 <= i < n - 1 ==> vs[i] != StoppedAtForward
    ensures var p := After(turns, vs, n);
            p.validated - p.forwarded == if n > 0 && vs[n - 1] == StoppedAtForward then 1 else 0
  {
    if n > 0 {
      OutstandingEvents(turns, vs, n - 1);
    }
  }

  /** The fingerprints received strictly between positions `i` and `j`. */
  function Between(turns: seq<Turn>, i: nat, j: nat): (r: set<Fingerprint>)
    requires Received(turns, j)
  {
    set k | i < k < j :: turns[k].event.fingerprint
  }

  /** Everything seen since the last `f` lies between position `i`, where `f` is, and `j`. */
  lemma {:induction false} SinceIsBetween(h: seq<Fingerprint>, turns: seq<Turn>, i: nat, j: nat, f: Fingerprint)
    requires i < j && Received(turns, j) && turns[i].event.fingerprint == f
    ensures f in Seen(h, turns, j)
    ensures Since(Seen(h, turns, j), f) <= Between(turns, i, j) - {f}
  {
    hide Since, Seen, Between;
    var g := turns[j - 1].event.fingerprint;
    SeenNext(h, turns, j, f);
    if g != f {
      BetweenNext(turns, i, j);
      SinceIsBetween(h, turns, i, j - 1, f);
      MoreInBetween(Since(Seen(h, turns, j - 1), f), Between(turns, i, j - 1), f, g);
    }
  }

  lemma SeenNext(h: seq<Fingerprint>, turns: seq<Turn>, j: nat, f: Fingerprint)
    requires j > 0 && Received(turns, j)
    ensures var g := turns[j - 1].event.fingerprint;
            && (g == f ==> f in Seen(h, turns, j) && Since(Seen(h, turns, j), f) == {})
            && (g != f && f in Seen(h, turns, j - 1) ==>
                  f in Seen(h, turns, j) && Since(Seen(h, turns, j), f) == Since(Seen(h, turns, j - 1), f) + {g})
  {
    hide Since;
    SinceCons(turns[j - 1].event.fingerprint, Seen(h, turns, j - 1), f);
  }

  lemma MoreInBetween(a: set<Fingerprint>, b: set<Fingerprint>, f: Fingerprint, g: Fingerprint)
    requires a <= b - {f} && g != f
    ensures a + {g} <= b + {g} - {f}
  {
  }

  lemma BetweenNext(turns: seq<Turn>, i: nat, j: nat)
    requires i < j - 1 && Received(turns, j)
    ensures Between(turns, i, j) == Between(turns, i, j - 1) + {turns[j - 1].event.fingerprint}
  {
  }

  /** Since, one access later. */
  lemma SinceCons(g: Fingerprint, s: seq<Fingerprint>, f: Fingerprint)
    ensures g == f ==> f in [g] + s && Since([g] + s, f) == {}
    ensures g != f && f in s ==> f in [g] + s && Since([g] + s, f) == Since(s, f) + {g}
  {
    ConsFacts(g, s);
    if g != f && f in s {
      ConsFacts(g, Ahead(s, f));
    }
  }

  lemma {:induction false} SubsetSize<T>(a: set<T>, b: set<T>)
    requires a <= b
    ensures |a| <= |b|
  {
    if a != {} {
      var x :| x in a;
      SubsetSize(a - {x}, b - {x});
    }
  }

  /**
    Main theorem: whatever the cache held at the start, an event is forwarded
    only if at least `cap` distinct other fingerprints were received since any
    earlier event with the same fingerprint.
   */
  lemma ForwardedApart(h: seq<Fingerprint>, turns: seq<Turn>, cap: nat, n: nat, i: nat, j: nat)
    requires Received(turns, n) && i < j < n
    requires turns[i].event.fingerprint == turns[j].event.fingerprint
    requires Verdicts(h, turns, cap, n)[j] == Forwarded
    ensures |Between(turns, i, j) - {turns[j].event.fingerprint}| >= cap
  {
    var f := turns[j].event.fingerprint;
    VerdictAt(h, turns, cap, n, j);
    SinceIsBetween(h, turns, i, j, f);
    SubsetSize(Since(Seen(h, turns, j), f), Between(turns, i, j) - {f});
  }

  lemma {:induction false} SeenIsReceived(turns: seq<Turn>, n: nat, f: Fingerprint)
    requires Received(turns, n)
    ensures f in Seen([], turns, n) <==> exists k :: 0 <= k < n && turns[k].event.fingerprint == f
  {
    if n > 0 {
      SeenIsReceived(turns, n - 1, f);
    }
  }

  /**
    Exactness within capacity: if a whole stream has at most `cap` distinct
    fingerprints, a fresh pipeline drops as duplicates precisely the repeats.
   */
  lemma ExactWithinCapacity(turns: seq<Turn>, cap: nat, n: nat, i: nat)
    requires Received(turns, n) && i < n
    requires |set k | 0 <= k < n :: turns[k].event.fingerprint| <= cap
    ensures Verdicts([], turns, cap, n)[i] == Duplicate <==>
            exists k :: 0 <= k < i && turns[k].event.fingerprint == turns[i].event.fingerprint
  {
    var f := turns[i].event.fingerprint;
    var all := set k | 0 <= k < n :: turns[k].event.fingerprint;
    VerdictAt([], turns, cap, n, i);
    SeenIsReceived(turns, i, f);
    if k :| 0 <= k < i && turns[k].event.fingerprint == f {
      SinceIsBetween([], turns, k, i, f);
      assert f in all;
      SubsetSize(Since(Seen([], turns, i), f), all - {f});
    }
  }

  // ---- what comes out, without verdicts ------------------------------------------

  /** Event `i` is news to the cache when it arrives. */
  predicate IsNews(h: seq<Fingerprint>, turns: seq<Turn>, cap: nat, i: nat)
    requires Received(turns, i + 1)
  {
    !Remembered(Seen(h, turns, i), turns[i].event.fingerprint, cap)
  }

  /** The events that are news, that the validator accepts and whose sending was not stopped, in order. */
  function Output(h: seq<Fingerprint>, turns: seq<Turn>, cap: nat, n: nat): (out: seq<Event>)
    requires Received(turns, n)
  {
    if n == 0 then []
    else if IsNews(h, turns, cap, n - 1) && turns[n - 1].valid && turns[n - 1].sent then
      Output(h, turns, cap, n - 1) + [turns[n - 1].event]
    else Output(h, turns, cap, n - 1)
  }

  /** How many events are news and refused by the validator. */
  function Rejected(h: seq<Fingerprint>, turns: seq<Turn>, cap: nat, n: nat): (c: nat)
    requires Received(turns, n)
  {
    if n == 0 then 0
    else Rejected(h, turns, cap, n - 1) + if IsNews(h, turns, cap, n - 1) && !turns[n - 1].valid then 1 else 0
  }

  /** How many events are no news. */
  function Repeated(h: seq<Fingerprint>, turns: seq<Turn>, cap: nat, n: nat): (c: nat)
    requires Received(turns, n)
  {
    if n == 0 then 0
    else Repeated(h, turns, cap, n - 1) + if IsNews(h, turns, cap, n - 1) then 0 else 1
  }

  /** What happens to event `i`, from its turn and the cache alone. */
  lemma VerdictExactly(h: seq<Fingerprint>, turns: seq<Turn>, cap: nat, n: nat, i: nat)
    requires Received(turns, n) && i < n
    ensures var v, turn := Verdicts(h, turns, cap, n)[i], turns[i];
            && (v == Duplicate <==> !IsNews(h, turns, cap, i))
            && (v == Invalid <==> IsNews(h, turns, cap, i) && !turn.valid)
            && (v == Forwarded <==> IsNews(h, turns, cap, i) && turn.valid && turn.sent)
            && (v == StoppedAtForward <==> IsNews(h, turns, cap, i) && turn.valid && !turn.sent)
  {
    VerdictAt(h, turns, cap, n, i);
    hide Remembered, Verdicts, Seen;
  }

  lemma {:induction false} AfterPrefix(turns: seq<Turn>, vs: seq<Verdict>, v: Verdict, n: nat)
    requires Received(turns, n) && n <= |vs|
    ensures After(turns, vs + [v], n) == After(turns, vs, n)
  {
    if n > 0 {
      AfterPrefix(turns, vs, v, n - 1);
    }
  }

  lemma AfterNext(turns: seq<Turn>, vs: seq<Verdict>, v: Verdict, n: nat)
    requires Received(turns, n) && n > 0 && |vs| == n - 1
    ensures After(turns, vs + [v], n) == Record(After(turns, vs, n - 1), turns[n - 1].event, v)
  {
    AfterPrefix(turns, vs, v, n - 1);
  }

  /** Progress that has put out `out` and counted so many refused and repeated of `n` events. */
  predicate Tells(p: Progress, n: nat, out: seq<Event>, rejected: nat, repeated: nat) {
    && p.sent == out && p.forwarded == |out| && p.validationErrors == rejected && p.duplicated == repeated
    && p.received == n && p.validated == n - rejected - repeated
  }

  lemma TellsNext(p: Progress, n: nat, out: seq<Event>, rejected: nat, repeated: nat, e: Event, v: Verdict)
    requires Tells(p, n, out, rejected, repeated)
    ensures Tells(Record(p, e, v), n + 1, if v == Forwarded then out + [e] else out,
                  rejected + (if v == Invalid then 1 else 0), repeated + (if v == Duplicate then 1 else 0))
  {
  }

  /**
    Main theorem: the output is exactly the events that are news, valid and
    sent, in order; the counters count exactly the repeats, the refused and the
    accepted ones.
   */
  lemma {:induction false} ProgressExactly(h: seq<Fingerprint>, turns: seq<Turn>, cap: nat, n: nat)
    requires Received(turns, n)
    ensures Tells(After(turns, Verdicts(h, turns, cap, n), n), n, Output(h, turns, cap, n),
                  Rejected(h, turns, cap, n), Repeated(h, turns, cap, n))
  {
    if n > 0 {
      ProgressExactly(h, turns, cap, n - 1);
      var vs := Verdicts(h, turns, cap, n - 1);
      var v := Judge(Seen(h, turns, n - 1), turns[n - 1], cap);
      VerdictExactly(h, turns, cap, n, n - 1);
      assert Verdicts(h, turns, cap, n) == vs + [v];
      AfterNext(turns, vs, v, n);
      hide Tells, Judge, IsNews, Verdicts, After, Record;
      TellsNext(After(turns, vs, n - 1), n - 1, Output(h, turns, cap, n - 1), Rejected(h, turns, cap, n - 1),
                Repeated(h, turns, cap, n - 1), turns[n - 1].event, v);
    }
  }

  /** The first occurrences that are valid and sent. */
  function Firsts(turns: seq<Turn>, n: nat): (out: seq<Event>)
    requires Received(turns, n)
  {
    if n == 0 then []
    else if (forall k :: 0 <= k < n - 1 ==> turns[k].event.fingerprint != turns[n - 1].event.fingerprint)
            && turns[n - 1].valid && turns[n - 1].sent then
      Firsts(turns, n - 1) + [turns[n - 1].event]
    else Firsts(turns, n - 1)
  }

  /** Within capacity a fresh pipeline puts out exactly the first occurrences that are valid and sent. */
  lemma {:induction false} FirstsWithinCapacity(turns: seq<Turn>, cap: nat, n: nat, all: nat)
    requires n <= all && Received(turns, all) && Received(turns, n)
    requires |set k | 0 <= k < all :: turns[k].event.fingerprint| <= cap
    ensures Output([], turns, cap, n) == Firsts(turns, n)
  {
    if n > 0 {
      FirstsWithinCapacity(turns, cap, n - 1, all);
      ExactWithinCapacity(turns, cap, all, n - 1);
      VerdictExactly([], turns, cap, all, n - 1);
      hide IsNews, Verdicts;
    }
  }
}

/** The pipeline object and its event loop. */
module PipelineLoop {
  import opened LruSpec
  import opened LruCache
  import opened PipelineSpec

  /**
    After `n` received events on top of cache history `h`: the cache saw them
    all, progress is that of their verdicts, and only the last may have been
    stopped at the forwarding select.
   */
  ghost predicate Handled(h: seq<Fingerprint>, turns: seq<Turn>, cap: nat, n: nat, seen: seq<Fingerprint>, p: Progress) {
    && Received(turns, n)
    && seen == Seen(h, turns, n)
    && p == After(turns, Verdicts(h, turns, cap, n), n)
    && forall i :: 0 <= i < n - 1 ==> Verdicts(h, turns, cap, n)[i] != StoppedAtForward
  }

  /** The last of the `n` events was stopped at the forwarding select. */
  ghost predicate Stopped(h: seq<Fingerprint>, turns: seq<Turn>, cap: nat, n: nat) {
    Received(turns, n) && n > 0 && Verdicts(h, turns, cap, n)[n - 1] == StoppedAtForward
  }

  /** One more round of the loop. */
  lemma HandledNext(h: seq<Fingerprint>, turns: seq<Turn>, cap: nat, n: nat, seen: seq<Fingerprint>, p: Progress)
    requires Handled(h, turns, cap, n, seen, p) && !Stopped(h, turns, cap, n)
    requires n < |turns| && turns[n].Receive?
    ensures var v := Judge(seen, turns[n], cap);
            && Handled(h, turns, cap, n + 1, [turns[n].event.fingerprint] + seen, Record(p, turns[n].event, v))
            && (Stopped(h, turns, cap, n + 1) <==> v == StoppedAtForward)
  {
    ReceivedNext(turns, n);
    var v := Judge(seen, turns[n], cap);
    hide Judge;
    AfterPrefix(turns, Verdicts(h, turns, cap, n), v, n);
  }

  class Pipeline {
    const cache: Cache
    var progress: Progress

    constructor (cache: Cache)
      ensures this.cache == cache && progress == START
    {
      this.cache := cache;
      progress := START;
    }

    /** One received event: deduplicate, validate, forward. */
    method Process(turn: Turn) returns (stop: bool)
      requires cache.Valid() && turn.Receive?
      modifies this, cache
      ensures cache.Valid() && cache.history == [turn.event.fingerprint] + old(cache.history)
      ensures var v := Judge(old(cache.history), turn, cache.maxSize);
              progress == Record(old(progress), turn.event, v) && (stop <==> v == StoppedAtForward)
    {
      hide Remembered, Linked, Accounts;
      progress := progress.(received := progress.received + 1);
      var duplicate := cache.CheckAndStore(turn.event.fingerprint, 0);
      if duplicate {
        progress := progress.(duplicated := progress.duplicated + 1);
        return false;
      }
      if !turn.valid {
        progress := progress.(validationErrors := progress.validationErrors + 1);
        return false;
      }
      progress := progress.(validated := progress.validated + 1);
      if !turn.sent {
        return true;
      }
      progress := progress.(sent := progress.sent + [turn.event]);
      progress := progress.(forwarded := progress.forwarded + 1);
      return false;
    }

    /**
      The event loop. It returns the number of events received; it stops when
      the turns end, at a Quit turn, or when stopped while forwarding.
     */
    method HandleEventLoop(turns: seq<Turn>) returns (n: nat)
      requires cache.Valid() && progress == START
      modifies this, cache
      ensures cache.Valid()
      ensures Handled(old(cache.history), turns, cache.maxSize, n, cache.history, progress)
      ensures n == |turns| || turns[n].Quit? || Stopped(old(cache.history), turns, cache.maxSize, n)
      ensures Received(turns, n) && progress.sent == Output(old(cache.history), turns, cache.maxSize, n)
      ensures progress.validationErrors == Rejected(old(cache.history), turns, cache.maxSize, n)
      ensures progress.duplicated == Repeated(old(cache.history), turns, cache.maxSize, n)
    {
      hide Linked, Accounts, Remembered;
      ghost var h := cache.history;
      n := 0;
      while n < |turns| && turns[n].Receive?
        invariant cache.Valid() && n <= |turns|
        invariant Handled(h, turns, cache.maxSize, n, cache.history, progress)
        invariant !Stopped(h, turns, cache.maxSize, n)
      {
        hide Handled, Stopped, Judge, Record, Linked, Accounts;
        HandledNext(h, turns, cache.maxSize, n, cache.history, progress);
        var stop := Process(turns[n]);
        n := n + 1;
        if stop {
          break;
        }
      }
      ProgressExactly(h, turns, cache.maxSize, n);
      hide Verdicts, Seen, After, Output, Rejected, Repeated;
    }
  }
}

/**
  The end of a pipeline: Stop closes the stop signal and then the output
  channel, from another goroutine and without waiting for the loop. The input,
  the consumer, the cache and the validator are arbitrary here.
 */
module PipelineShutdown {

  /** Where the event loop is: at its outer select, with an event, at the forwarding select, or returned. */
  datatype Loop = Selecting | Handling | Forwarding | Returned

  datatype Stopping = Running | SignalClosed | OutputClosed

  datatype State = State(loop: Loop, stop: Stopping, cancelled: bool, panicked: bool)

  datatype Step =
    | Take        // the outer select takes an event
    | Skip        // duplicate or invalid
    | Offer       // validated; comes to the forwarding select
    | Send        // the forwarding select takes the output channel
    | Leave       // a select takes the stop signal, the cancelled context or the closed input
    | Cancel      // the context is cancelled
    | StopStep

  predicate Enabled(s: State, step: Step) {
    && !s.panicked
    && match step
       case Take => s.loop.Selecting?
       case Skip => s.loop.Handling?
       case Offer => s.loop.Handling?
       case Send => s.loop.Forwarding?
       case Leave => s.loop.Selecting? || (s.loop.Forwarding? && (s.cancelled || !s.stop.Running?))
       case Cancel => true
       case StopStep => !s.stop.OutputClosed?
  }

  /** Sending on the closed output channel panics. */
  function Apply(s: State, step: Step): (t: State)
    requires Enabled(s, step)
  {
    match step
    case Take => s.(loop := Handling)
    case Skip => s.(loop := Selecting)
    case Offer => s.(loop := Forwarding)
    case Send => if s.stop.OutputClosed? then s.(panicked := true) else s.(loop := Selecting)
    case Leave => s.(loop := Returned)
    case Cancel => s.(cancelled := true)
    case StopStep => s.(stop := if s.stop.Running? then SignalClosed else OutputClosed)
  }

  predicate Runs(s: State, steps: seq<Step>)
    decreases |steps|
  {
    steps == [] || (Enabled(s, steps[0]) && Runs(Apply(s, steps[0]), steps[1..]))
  }

  function Final(s: State, steps: seq<Step>): (t: State)
    requires Runs(s, steps)
    decreases |steps|
  {
    if steps == [] then s else Final(Apply(s, steps[0]), steps[1..])
  }

  ghost predicate CanPanic(s: State) {
    exists steps :: Runs(s, steps) && Final(s, steps).panicked
  }

  lemma {:induction false} ReturnedNeverPanics(s: State, steps: seq<Step>)
    requires s.loop.Returned? && !s.panicked && Runs(s, steps)
    ensures !Final(s, steps).panicked
    decreases |steps|
  {
    if steps != [] {
      ReturnedNeverPanics(Apply(s, steps[0]), steps[1..]);
    }
  }

  lemma OneStep(s: State, step: Step)
    requires Enabled(s, step) && CanPanic(Apply(s, step))
    ensures CanPanic(s)
  {
    var steps :| Runs(Apply(s, step), steps) && Final(Apply(s, step), steps).panicked;
    assert ([step] + steps)[1..] == steps && ([step] + steps)[0] == step;
    assert Runs(s, [step] + steps) && Final(s, [step] + steps).panicked;
  }

  /** With the output closed, a loop that has not returned may still come to send on it. */
  lemma MayStillSend(s: State)
    requires !s.panicked && s.stop.OutputClosed? && !s.loop.Returned?
    ensures CanPanic(s)
    decreases if s.loop.Selecting? then 2 else if s.loop.Handling? then 1 else 0
  {
    hide CanPanic;
    match s.loop
    case Selecting =>
      MayStillSend(Apply(s, Take));
      OneStep(s, Take);
    case Handling =>
      MayStillSend(Apply(s, Offer));
      OneStep(s, Offer);
    case Forwarding =>
      PanickedAlready(Apply(s, Send));
      OneStep(s, Send);
  }

  lemma PanickedAlready(s: State)
    requires s.panicked
    ensures CanPanic(s)
  {
    assert Runs(s, []) && Final(s, []).panicked;
  }

  lemma {:induction false} OpenNeverPanics(s: State, steps: seq<Step>)
    requires Runs(s, steps) && !s.panicked && !Final(s, steps).stop.OutputClosed?
    ensures !Final(s, steps).panicked
    decreases |steps|
  {
    if steps != [] {
      if s.stop.OutputClosed? {
        ClosedStays(s, steps);
      } else {
        OpenNeverPanics(Apply(s, steps[0]), steps[1..]);
      }
    }
  }

  lemma {:induction false} ClosedStays(s: State, steps: seq<Step>)
    requires Runs(s, steps) && s.stop.OutputClosed?
    ensures Final(s, steps).stop.OutputClosed?
    decreases |steps|
  {
    if steps != [] {
      ClosedStays(Apply(s, steps[0]), steps[1..]);
    }
  }

  const START := State(Selecting, Running, false, false)

  /**
    Exactly when Stop is safe: no run panics before it closes the output
    channel, and after that some continuation panics if and only if the event
    loop has not returned by then.
   */
  lemma StopPanicsExactly(steps: seq<Step>)
    requires Runs(START, steps) && Final(START, steps).stop == SignalClosed
    ensures var s := Final(START, steps);
            !s.panicked && (CanPanic(Apply(s, StopStep)) <==> !s.loop.Returned?)
  {
    OpenNeverPanics(START, steps);
    var t := Apply(Final(START, steps), StopStep);
    if t.loop.Returned? {
      forall more | Runs(t, more) ensures !Final(t, more).panicked {
        ReturnedNeverPanics(t, more);
      }
    } else {
      MayStillSend(t);
    }
  }

  /** Such a run exists: an event is at the forwarding select when the output closes. */
  lemma PanicRun()
    ensures var steps := [Take, Offer, StopStep, StopStep, Send];
            Runs(START, steps) && Final(START, steps).panicked
  {
    var a := Apply(START, Take);
    var b := Apply(a, Offer);
    var c := Apply(b, StopStep);
    var d := Apply(c, StopStep);
    var e := Apply(d, Send);
    assert Runs(e, []) && Final(e, []).panicked;
    RunsCons(d, Send, []);
    RunsCons(c, StopStep, [Send]);
    RunsCons(b, StopStep, [StopStep, Send]);
    RunsCons(a, Offer, [StopStep, StopStep, Send]);
    RunsCons(START, Take, [Offer, StopStep, StopStep, Send]);
  }

  lemma RunsCons(s: State, step: Step, steps: seq<Step>)
    requires Enabled(s, step) && Runs(Apply(s, step), steps)
    ensures [step] + steps != [] && Runs(s, [step] + steps) && Final(s, [step] + steps) == Final(Apply(s, step), steps)
  {
    assert ([step] + steps)[1..] == steps;
  }
}
