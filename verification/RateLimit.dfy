/**
  The token bucket and the multi-dimensional limiter of the Weaver gateway
  (ratelimit/limiter.go). Amounts and times in seconds are exact reals.
 */
module TokenBucket {

  datatype Bucket = Bucket(capacity: real, tokens: real, rate: real, last: real)

  /** The clock readings of one Allow: time.Since reads `seen`, time.Now reads `stored`. */
  datatype Clock = Clock(seen: real, stored: real)

  datatype Request = Request(amount: real, clock: Clock)

  function Min(a: real, b: real): (r: real) {
    if a < b then a else b
  }

  /** What `seconds` of refill add. */
  function Gain(seconds: real, rate: real): (g: real) {
    seconds * rate
  }

  lemma GainLinear(x: real, y: real, rate: real)
    ensures Gain(x, rate) + Gain(y, rate) == Gain(x + y, rate)
    ensures rate >= 0.0 && x <= y ==> Gain(x, rate) <= Gain(y, rate)
    ensures Gain(0.0, rate) == 0.0
  {
  }

  function New(capacity: real, rate: real, now: real): (b: Bucket) {
    Bucket(capacity, capacity, rate, now)
  }

  function Refilled(b: Bucket, clock: Clock): (c: Bucket) {
    b.(tokens := Min(b.capacity, b.tokens + Gain(clock.seen - b.last, b.rate)), last := clock.stored)
  }

  predicate Grants(b: Bucket, q: Request) {
    Refilled(b, q.clock).tokens >= q.amount
  }

  function Allow(b: Bucket, q: Request): (c: Bucket) {
    var r := Refilled(b, q.clock);
    if Grants(b, q) then r.(tokens := r.tokens - q.amount) else r
  }

  function Run(b: Bucket, qs: seq<Request>): (c: Bucket)
    decreases |qs|
  {
    if qs == [] then b else Run(Allow(b, qs[0]), qs[1..])
  }

  /** The sum of the amounts granted. */
  function Granted(b: Bucket, qs: seq<Request>): (sum: real)
    decreases |qs|
  {
    if qs == [] then 0.0
    else (if Grants(b, qs[0]) then qs[0].amount else 0.0) + Granted(Allow(b, qs[0]), qs[1..])
  }

  /** The bucket was last touched by time `t`, and its fill is sound. */
  predicate Sound(b: Bucket, t: real) {
    0.0 <= b.tokens <= b.capacity && b.rate >= 0.0 && b.last <= t
  }

  /** Clock readings never go back: every call reads from `t` on, up to `end`. */
  predicate Timely(t: real, qs: seq<Request>, end: real)
    decreases |qs|
  {
    if qs == [] then t <= end
    else t <= qs[0].clock.seen <= qs[0].clock.stored && Timely(qs[0].clock.stored, qs[1..], end)
  }

  predicate NonNegative(qs: seq<Request>) {
    forall i :: 0 <= i < |qs| ==> qs[i].amount >= 0.0
  }

  /**
    What the bucket can still grant by `end`, for a window that began at
    `start`: no more than its fill plus refill, and no more than its capacity
    plus the refill of the window.
   */
  function Credit(b: Bucket, start: real, end: real): (c: real) {
    Min(b.tokens + Gain(end - b.last, b.rate), b.capacity + Gain(end - start, b.rate))
  }

  lemma CreditNotNegative(b: Bucket, start: real, end: real)
    requires Sound(b, end) && start <= end
    ensures 0.0 <= Credit(b, start, end) <= b.capacity + Gain(end - start, b.rate)
  {
    hide Gain;
    GainLinear(0.0, end - b.last, b.rate);
    GainLinear(0.0, end - start, b.rate);
  }

  /** The step: a call spends what it grants from the credit, although time between its two clock readings is lost. */
  lemma CallSpendsCredit(b: Bucket, q: Request, start: real, end: real)
    requires Sound(b, q.clock.seen) && q.amount >= 0.0
    requires start <= q.clock.seen <= q.clock.stored <= end
    ensures Sound(Allow(b, q), q.clock.stored)
    ensures Credit(Allow(b, q), start, end) <= Credit(b, start, end) - if Grants(b, q) then q.amount else 0.0
  {
    hide Gain;
    var s, t := q.clock.seen, q.clock.stored;
    GainLinear(0.0, s - b.last, b.rate);
    GainLinear(s - b.last, end - s, b.rate);
    GainLinear(end - t, end - s, b.rate);
    GainLinear(end - s, end - start, b.rate);
    assert (s - b.last) + (end - s) == end - b.last;
  }

  /**
    Main theorem: from any sound state, the tokens granted over any window of
    calls are at most the capacity plus the rate times the window.
   */
  lemma {:induction false} WindowBound(b: Bucket, qs: seq<Request>, start: real, end: real)
    requires Sound(b, start) && Timely(start, qs, end) && NonNegative(qs)
    ensures Granted(b, qs) <= b.capacity + Gain(end - start, b.rate)
  {
    SpendAll(b, qs, start, start, end);
    TimelyOrdered(start, qs, end);
    CreditNotNegative(b, start, end);
    RunSound(b, qs, start, end);
    var c := Run(b, qs);
    CreditNotNegative(c, start, end);
  }

  lemma {:induction false} TimelyOrdered(t: real, qs: seq<Request>, end: real)
    requires Timely(t, qs, end)
    ensures t <= end
    decreases |qs|
  {
    if qs != [] {
      TimelyOrdered(qs[0].clock.stored, qs[1..], end);
    }
  }

  lemma {:induction false} RunSound(b: Bucket, qs: seq<Request>, t: real, end: real)
    requires Sound(b, t) && Timely(t, qs, end) && NonNegative(qs)
    ensures Sound(Run(b, qs), end)
    ensures Run(b, qs).capacity == b.capacity && Run(b, qs).rate == b.rate
    decreases |qs|
  {
    if qs != [] {
      TimelyOrdered(qs[0].clock.stored, qs[1..], end);
      CallSpendsCredit(b, qs[0], t, end);
      RunSound(Allow(b, qs[0]), qs[1..], qs[0].clock.stored, end);
    }
  }

  lemma {:induction false} SpendAll(b: Bucket, qs: seq<Request>, t: real, start: real, end: real)
    requires Sound(b, t) && start <= t && Timely(t, qs, end) && NonNegative(qs)
    ensures Granted(b, qs) <= Credit(b, start, end) - Credit(Run(b, qs), start, end)
    decreases |qs|
  {
    if qs != [] {
      TimelyOrdered(qs[0].clock.stored, qs[1..], end);
      CallSpendsCredit(b, qs[0], start, end);
      SpendAll(Allow(b, qs[0]), qs[1..], qs[0].clock.stored, start, end);
    }
  }

  /** In particular over any window inside a run from creation. */
  lemma WindowOfRunBound(capacity: real, rate: real, made: real, before: seq<Request>, window: seq<Request>,
                         start: real, end: real)
    requires capacity >= 0.0 && rate >= 0.0
    requires Timely(made, before, start) && Timely(start, window, end)
    requires NonNegative(before) && NonNegative(window)
    ensures Granted(Run(New(capacity, rate, made), before), window) <= capacity + Gain(end - start, rate)
  {
    var b := New(capacity, rate, made);
    RunSound(b, before, made, start);
    WindowBound(Run(b, before), window, start, end);
  }

  /** And idling long enough restores the full burst: any request within capacity is granted. */
  lemma IdleRestoresBurst(b: Bucket, q: Request)
    requires Sound(b, q.clock.seen) && q.amount <= b.capacity
    requires Gain(q.clock.seen - b.last, b.rate) >= b.capacity
    ensures Grants(b, q)
  {
  }

  // ---- the exact fill --------------------------------------------------------------

  /** What is there to be granted at time `t`. */
  function FillAt(b: Bucket, t: real): (x: real) {
    Min(b.capacity, b.tokens + Gain(t - b.last, b.rate))
  }

  /** The seconds credited from `from` to `t`: all but those between the two clock readings of a call. */
  function Credited(from: real, qs: seq<Request>, t: real): (seconds: real)
    decreases |qs|
  {
    if qs == [] then t - from
    else (qs[0].clock.seen - from) + Credited(qs[0].clock.stored, qs[1..], t)
  }

  /** With one clock reading per call no time is lost. */
  lemma {:induction false} NoTimeLost(from: real, qs: seq<Request>, t: real)
    requires forall i :: 0 <= i < |qs| ==> qs[i].clock.seen == qs[i].clock.stored
    ensures Credited(from, qs, t) == t - from
    decreases |qs|
  {
    if qs != [] {
      NoTimeLost(qs[0].clock.stored, qs[1..], t);
    }
  }

  /** The sum of the amounts granted from call `k` on. */
  function GrantedFrom(b: Bucket, qs: seq<Request>, k: nat): (sum: real)
    requires k <= |qs|
    decreases k
  {
    if k == 0 then Granted(b, qs) else GrantedFrom(Allow(b, qs[0]), qs[1..], k - 1)
  }

  /** The least that a bucket full at one of the calls, or now, can have left. */
  function Ceiling(b: Bucket, qs: seq<Request>, t: real): (x: real)
    decreases |qs|
  {
    if qs == [] then b.capacity
    else Min(b.capacity + Gain(Credited(qs[0].clock.stored, qs[1..], t), b.rate) - Granted(b, qs),
             Ceiling(Allow(b, qs[0]), qs[1..], t))
  }

  /** The fill after any run is the least of what the initial fill and a full bucket at any call leave. */
  lemma {:induction false} FillExactly(b: Bucket, qs: seq<Request>, t: real)
    ensures FillAt(Run(b, qs), t)
            == Min(b.tokens + Gain(Credited(b.last, qs, t), b.rate) - Granted(b, qs), Ceiling(b, qs, t))
    decreases |qs|
  {
    if qs != [] {
      var q, rest := qs[0], qs[1..];
      FillExactly(Allow(b, q), rest, t);
      var seconds := Credited(q.clock.stored, rest, t);
      GainLinear(q.clock.seen - b.last, seconds, b.rate);
      hide Gain, Ceiling, Granted, Credited, Run;
      FillStep(b, q, seconds, Granted(Allow(b, q), rest), Ceiling(Allow(b, q), rest, t));
      assert Granted(b, qs) == (if Grants(b, q) then q.amount else 0.0) + Granted(Allow(b, q), rest) by {
        GrantedNext(b, qs);
      }
      CeilingNext(b, qs, t);
      RunNext(b, qs);
      CreditedNext(b.last, qs, t);
    } else {
      hide Gain;
    }
  }

  lemma GrantedNext(b: Bucket, qs: seq<Request>)
    requires qs != []
    ensures Granted(b, qs) == (if Grants(b, qs[0]) then qs[0].amount else 0.0) + Granted(Allow(b, qs[0]), qs[1..])
  {
  }

  lemma CeilingNext(b: Bucket, qs: seq<Request>, t: real)
    requires qs != []
    ensures Ceiling(b, qs, t)
            == Min(b.capacity + Gain(Credited(qs[0].clock.stored, qs[1..], t), b.rate) - Granted(b, qs),
                   Ceiling(Allow(b, qs[0]), qs[1..], t))
  {
  }

  lemma RunNext(b: Bucket, qs: seq<Request>)
    requires qs != []
    ensures Run(b, qs) == Run(Allow(b, qs[0]), qs[1..])
  {
  }

  lemma CreditedNext(from: real, qs: seq<Request>, t: real)
    requires qs != []
    ensures Credited(from, qs, t) == (qs[0].clock.seen - from) + Credited(qs[0].clock.stored, qs[1..], t)
  {
  }

  /** One call, on the two terms of the minimum. */
  lemma FillStep(b: Bucket, q: Request, seconds: real, later: real, ceiling: real)
    ensures var c, g := Allow(b, q), if Grants(b, q) then q.amount else 0.0;
            Min(c.tokens + Gain(seconds, b.rate) - later, ceiling)
            == Min(b.tokens + (Gain(q.clock.seen - b.last, b.rate) + Gain(seconds, b.rate)) - (g + later),
                   Min(b.capacity + Gain(seconds, b.rate) - (g + later), ceiling))
  {
    hide Gain;
  }

  /** A full bucket at call `k` leaves room for `x` more. */
  predicate RoomSince(b: Bucket, qs: seq<Request>, t: real, x: real, k: nat)
    requires k < |qs|
  {
    x + GrantedFrom(b, qs, k) <= b.capacity + Gain(Credited(qs[k].clock.stored, qs[k + 1..], t), b.rate)
  }

  ghost predicate RoomSinceAny(b: Bucket, qs: seq<Request>, t: real, x: real) {
    forall k :: 0 <= k < |qs| ==> RoomSince(b, qs, t, x, k)
  }

  lemma RoomShift(b: Bucket, qs: seq<Request>, t: real, x: real, k: nat)
    requires qs != [] && k < |qs| - 1
    ensures RoomSince(Allow(b, qs[0]), qs[1..], t, x, k) <==> RoomSince(b, qs, t, x, k + 1)
  {
    assert qs[1..][k + 1..] == qs[k + 2..];
    hide Gain;
  }

  lemma RoomSinceNext(b: Bucket, qs: seq<Request>, t: real, x: real)
    requires qs != []
    ensures RoomSinceAny(b, qs, t, x) <==> RoomSince(b, qs, t, x, 0) && RoomSinceAny(Allow(b, qs[0]), qs[1..], t, x)
  {
    hide RoomSince;
    forall k | 0 <= k < |qs| - 1
      ensures RoomSince(Allow(b, qs[0]), qs[1..], t, x, k) <==> RoomSince(b, qs, t, x, k + 1)
    {
      RoomShift(b, qs, t, x, k);
    }
    if RoomSince(b, qs, t, x, 0) && RoomSinceAny(Allow(b, qs[0]), qs[1..], t, x) {
      forall k | 0 < k < |qs| ensures RoomSince(b, qs, t, x, k) {
        RoomShift(b, qs, t, x, k - 1);
      }
    }
  }

  lemma {:induction false} CeilingAtLeast(b: Bucket, qs: seq<Request>, t: real, x: real)
    ensures x <= Ceiling(b, qs, t) <==> x <= b.capacity && RoomSinceAny(b, qs, t, x)
    decreases |qs|
  {
    if qs != [] {
      CeilingAtLeast(Allow(b, qs[0]), qs[1..], t, x);
      RoomSinceNext(b, qs, t, x);
      CeilingNext(b, qs, t);
      assert qs[0 + 1..] == qs[1..];
      hide RoomSinceAny, Ceiling, Gain, Granted, Credited;
    }
  }

  lemma GrantsByFill(b: Bucket, q: Request)
    ensures Grants(b, q) <==> q.amount <= FillAt(b, q.clock.seen)
  {
    hide Gain;
  }

  /**
    Main theorem, both halves: after any run from any bucket, a request is
    granted if and only if it fits the capacity and, from the start and from
    every call of the run, what was granted since plus what is asked is within
    the fill then, at most the capacity, plus the rate times the seconds credited since.
   */
  lemma GrantedExactly(b: Bucket, qs: seq<Request>, q: Request)
    ensures Grants(Run(b, qs), q) <==>
            && q.amount <= b.capacity
            && q.amount + Granted(b, qs) <= b.tokens + Gain(Credited(b.last, qs, q.clock.seen), b.rate)
            && forall k :: 0 <= k < |qs| ==> RoomSince(b, qs, q.clock.seen, q.amount, k)
  {
    hide FillAt, Gain, RoomSince, Ceiling, Granted, Credited, Run, Grants;
    FillExactly(b, qs, q.clock.seen);
    CeilingAtLeast(b, qs, q.clock.seen, q.amount);
    GrantsByFill(Run(b, qs), q);
  }

  /** A new bucket is full: it grants any request within its capacity at once. */
  lemma NewBucketGrants(capacity: real, rate: real, made: real, q: Request)
    requires rate >= 0.0 && made <= q.clock.seen
    ensures Grants(New(capacity, rate, made), q) <==> q.amount <= capacity
  {
    GainLinear(0.0, q.clock.seen - made, rate);
    hide Gain;
  }

  /** A bucket refills while it is asked: capacity 60, a token a second, empty at 0, grants 30 at time 30. */
  lemma RefillsInPart()
    ensures Grants(Bucket(60.0, 0.0, 1.0, 0.0), Request(30.0, Clock(30.0, 30.0)))
    ensures !Grants(Bucket(60.0, 0.0, 1.0, 0.0), Request(31.0, Clock(30.0, 30.0)))
  {
  }
}

/** The token bucket as an object with its own fields. */
module TokenBucketObject {
  import opened TokenBucket

  class BucketCell {
    const capacity: real
    const rate: real
    var tokens: real
    var last: real

    function View(): (b: Bucket)
      reads this
    {
      Bucket(capacity, tokens, rate, last)
    }

    constructor (capacity: real, rate: real, now: real)
      ensures View() == New(capacity, rate, now)
    {
      this.capacity, this.rate := capacity, rate;
      tokens, last := capacity, now;
    }

    method Allow(amount: real, clock: Clock) returns (ok: bool)
      modifies this
      ensures View() == TokenBucket.Allow(old(View()), Request(amount, clock))
      ensures ok == Grants(old(View()), Request(amount, clock))
    {
      var elapsed := clock.seen - last;
      tokens := Min(capacity, tokens + Gain(elapsed, rate));
      last := clock.stored;
      if tokens >= amount {
        tokens := tokens - amount;
        return true;
      }
      return false;
    }
  }
}

/** The limiter: one bucket per dimension and identifier, found by a composite key. */
module Limiter {
  import opened TokenBucket
  import opened Splitting
  import opened Tallies

  /** The four known dimensions; the request carries no identifier for any other. */
  datatype Dimension = Global | PerClient | PerIP | PerTenant | Unknown(name: string)

  function Name(d: Dimension): (s: string) {
    match d
    case Global => "global"
    case PerClient => "per_client"
    case PerIP => "per_ip"
    case PerTenant => "per_tenant"
    case Unknown(name) => name
  }

  datatype Key = Key(text: string)

  function KeyOf(d: Dimension, id: string): (k: Key) {
    Key(Name(d) + ":" + id)
  }

  /** The composite key is injective on the known dimensions, whatever the identifiers contain. */
  lemma KeyInjective(d: Dimension, id: string, d': Dimension, id': string)
    requires !d.Unknown? && !d'.Unknown?
    ensures KeyOf(d, id) == KeyOf(d', id') ==> d == d' && id == id'
  {
    assert ':' !in Name(d) && ':' !in Name(d');
    SplitFinds(Name(d), ':', id);
    SplitFinds(Name(d'), ':', id');
  }

  datatype Ask = Ask(client: string, ip: string, tenant: string)

  function IdOf(ask: Ask, d: Dimension): (id: string) {
    match d
    case Global => "global"
    case PerClient => ask.client
    case PerIP => ask.ip
    case PerTenant => ask.tenant
    case Unknown(_) => ""
  }

  /** The clock during one bucket visit: at creation, if any, and in Allow. */
  datatype Moment = Moment(made: real, clock: Clock)

  type Buckets = map<Key, Bucket>

  type Config = map<Dimension, real>

  function RateFor(cfg: Config, d: Dimension): (r: real) {
    if d in cfg then cfg[d] else 1000.0
  }

  function BucketFor(bs: Buckets, cfg: Config, d: Dimension, id: string, made: real): (b: Bucket) {
    var k := KeyOf(d, id);
    if k in bs then bs[k] else TokenBucket.New(RateFor(cfg, d), RateFor(cfg, d) / 60.0, made)
  }

  predicate Passes(bs: Buckets, cfg: Config, d: Dimension, id: string, m: Moment) {
    id == "" || Grants(BucketFor(bs, cfg, d, id, m.made), Request(1.0, m.clock))
  }

  /** allowForDimension: the buckets after one visit. */
  function Visited(bs: Buckets, cfg: Config, d: Dimension, id: string, m: Moment): (bs': Buckets) {
    if id == "" then bs
    else bs[KeyOf(d, id) := Allow(BucketFor(bs, cfg, d, id, m.made), Request(1.0, m.clock))]
  }

  /** Allow over the dimensions from `i` on, stopping at the first that refuses. */
  function Through(bs: Buckets, cfg: Config, dims: seq<Dimension>, ask: Ask, ms: seq<Moment>, i: nat): (r: (Buckets, bool))
    requires i <= |dims| <= |ms|
    decreases |dims| - i
  {
    if i == |dims| then (bs, true)
    else
      var bs' := Visited(bs, cfg, dims[i], IdOf(ask, dims[i]), ms[i]);
      if Passes(bs, cfg, dims[i], IdOf(ask, dims[i]), ms[i]) then Through(bs', cfg, dims, ask, ms, i + 1)
      else (bs', false)
  }

  /** The bucket of (d, id), if it exists, is sound and has its dimension's capacity and rate. */
  predicate SoundAt(bs: Buckets, cfg: Config, d: Dimension, id: string, t: real) {
    KeyOf(d, id) in bs ==>
      var b := bs[KeyOf(d, id)];
      Sound(b, t) && b.capacity == RateFor(cfg, d) && b.rate == RateFor(cfg, d) / 60.0
  }

  /** What requests for (d, id) can still be granted by `end` in a window from `start`. */
  function CreditOf(bs: Buckets, cfg: Config, d: Dimension, id: string, start: real, end: real): (c: real) {
    if KeyOf(d, id) in bs then Credit(bs[KeyOf(d, id)], start, end)
    else RateFor(cfg, d) + Gain(end - start, RateFor(cfg, d) / 60.0)
  }

  /** A visit for another dimension or identifier does not touch the bucket of (d, id). */
  lemma VisitElsewhere(bs: Buckets, cfg: Config, d0: Dimension, id0: string, m: Moment, d: Dimension, id: string)
    requires !d.Unknown? && (d0.Unknown? ==> id0 == "") && (d0 != d || id0 != id)
    ensures var bs', k := Visited(bs, cfg, d0, id0, m), KeyOf(d, id);
            (k in bs' <==> k in bs) && (k in bs ==> bs'[k] == bs[k])
  {
    hide KeyOf;
    if id0 != "" {
      KeyInjective(d0, id0, d, id);
    }
  }

  /** A visit for (d, id) spends a token of its credit if it passes. */
  lemma VisitSpends(bs: Buckets, cfg: Config, m: Moment, d: Dimension, id: string, start: real, end: real)
    requires id != "" && RateFor(cfg, d) >= 0.0 && SoundAt(bs, cfg, d, id, m.made)
    requires start <= m.made <= m.clock.seen <= m.clock.stored <= end
    ensures var bs' := Visited(bs, cfg, d, id, m);
            && SoundAt(bs', cfg, d, id, m.clock.stored)
            && CreditOf(bs', cfg, d, id, start, end)
               <= CreditOf(bs, cfg, d, id, start, end) - if Passes(bs, cfg, d, id, m) then 1.0 else 0.0
  {
    hide KeyOf, Gain;
    var b, q := BucketFor(bs, cfg, d, id, m.made), Request(1.0, m.clock);
    CallSpendsCredit(b, q, start, end);
  }

  lemma SoundLater(bs: Buckets, cfg: Config, d: Dimension, id: string, t: real, t': real)
    requires SoundAt(bs, cfg, d, id, t) && t <= t'
    ensures SoundAt(bs, cfg, d, id, t')
  {
  }

  lemma CreditOfNotNegative(bs: Buckets, cfg: Config, d: Dimension, id: string, t: real, start: real, end: real)
    requires RateFor(cfg, d) >= 0.0 && SoundAt(bs, cfg, d, id, t) && start <= t <= end
    ensures 0.0 <= CreditOf(bs, cfg, d, id, start, end) <= RateFor(cfg, d) + Gain(end - start, RateFor(cfg, d) / 60.0)
  {
    GainLinear(0.0, end - start, RateFor(cfg, d) / 60.0);
    if KeyOf(d, id) in bs {
      CreditNotNegative(bs[KeyOf(d, id)], start, end);
    }
  }

  // ---- concurrent requests -----------------------------------------------------

  /**
    A request inside Allow: `At(i)` is about to visit dimension `i`, and past
    the last one it is admitted. Allow itself takes no lock; each visit does.
   */
  datatype Where = At(i: nat) | Refused

  datatype Arrival = Arrival(ask: Ask, where: Where)

  /** The limiter and every request there ever is; those still at the start may arrive at any time. */
  datatype State = State(buckets: Buckets, requests: seq<Arrival>)

  /** Request `r` makes its next visit. */
  datatype Turn = Turn(r: nat, m: Moment)

  predicate Visiting(s: State, dims: seq<Dimension>, t: Turn) {
    && t.r < |s.requests|
    && s.requests[t.r].where.At? && s.requests[t.r].where.i < |dims|
  }

  /** The visit the turn makes, and whether it passes. */
  function DimOf(s: State, dims: seq<Dimension>, t: Turn): (d: Dimension)
    requires Visiting(s, dims, t)
  {
    dims[s.requests[t.r].where.i]
  }

  predicate TurnPasses(s: State, cfg: Config, dims: seq<Dimension>, t: Turn)
    requires Visiting(s, dims, t)
  {
    Passes(s.buckets, cfg, DimOf(s, dims, t), IdOf(s.requests[t.r].ask, DimOf(s, dims, t)), t.m)
  }

  /** One turn; a request that has already been answered makes none. */
  function Step(s: State, cfg: Config, dims: seq<Dimension>, t: Turn): (u: State) {
    if !Visiting(s, dims, t) then s
    else
      var q, d := s.requests[t.r], DimOf(s, dims, t);
      var where := if TurnPasses(s, cfg, dims, t) then At(q.where.i + 1) else Refused;
      State(Visited(s.buckets, cfg, d, IdOf(q.ask, d), t.m), s.requests[t.r := q.(where := where)])
  }

  /** Any interleaving of the requests' visits. */
  function After(s: State, cfg: Config, dims: seq<Dimension>, ts: seq<Turn>): (u: State)
    decreases |ts|
  {
    if ts == [] then s else After(Step(s, cfg, dims, ts[0]), cfg, dims, ts[1..])
  }

  /** Visits hold the lock, so their clock readings are in order, from `t` to `end`. */
  predicate InOrder(t: real, ts: seq<Turn>, end: real)
    decreases |ts|
  {
    if ts == [] then t <= end
    else
      var m := ts[0].m;
      t <= m.made <= m.clock.seen <= m.clock.stored && InOrder(m.clock.stored, ts[1..], end)
  }

  lemma {:induction false} InOrderEnds(t: real, ts: seq<Turn>, end: real)
    requires InOrder(t, ts, end)
    ensures t <= end
    decreases |ts|
  {
    if ts != [] {
      InOrderEnds(ts[0].m.clock.stored, ts[1..], end);
    }
  }

  /** The turn is a passing visit to the bucket of (d, id). */
  predicate Spends(s: State, cfg: Config, dims: seq<Dimension>, t: Turn, d: Dimension, id: string) {
    && Visiting(s, dims, t)
    && DimOf(s, dims, t) == d && IdOf(s.requests[t.r].ask, d) == id
    && TurnPasses(s, cfg, dims, t)
  }

  /** How many turns of the run are passing visits to the bucket of (d, id). */
  function Spent(s: State, cfg: Config, dims: seq<Dimension>, ts: seq<Turn>, d: Dimension, id: string): (n: nat)
    decreases |ts|
  {
    if ts == [] then 0
    else (if Spends(s, cfg, dims, ts[0], d, id) then 1 else 0)
         + Spent(Step(s, cfg, dims, ts[0]), cfg, dims, ts[1..], d, id)
  }

  /** One turn of anyone: it spends a token of (d, id)'s credit if it is a passing visit to it. */
  lemma TurnSpends(s: State, cfg: Config, dims: seq<Dimension>, t: Turn, d: Dimension, id: string, start: real, end: real)
    requires !d.Unknown? && id != "" && RateFor(cfg, d) >= 0.0 && SoundAt(s.buckets, cfg, d, id, t.m.made)
    requires start <= t.m.made <= t.m.clock.seen <= t.m.clock.stored <= end
    ensures var u := Step(s, cfg, dims, t);
            && SoundAt(u.buckets, cfg, d, id, t.m.clock.stored)
            && CreditOf(u.buckets, cfg, d, id, start, end)
               <= CreditOf(s.buckets, cfg, d, id, start, end) - if Spends(s, cfg, dims, t, d, id) then 1.0 else 0.0
  {
    SoundLater(s.buckets, cfg, d, id, t.m.made, t.m.clock.stored);
    if Visiting(s, dims, t) {
      var d0 := DimOf(s, dims, t);
      var id0 := IdOf(s.requests[t.r].ask, d0);
      if d0 == d && id0 == id {
        VisitSpends(s.buckets, cfg, t.m, d, id, start, end);
      } else {
        VisitElsewhere(s.buckets, cfg, d0, id0, t.m, d, id);
        SoundLater(Visited(s.buckets, cfg, d0, id0, t.m), cfg, d, id, t.m.made, t.m.clock.stored);
      }
      hide Visited, Credit, Gain, KeyOf, Passes;
    }
  }

  lemma {:induction false} SpentWithinCredit(s: State, cfg: Config, dims: seq<Dimension>, ts: seq<Turn>,
                                             d: Dimension, id: string, t: real, start: real, end: real)
    requires !d.Unknown? && id != "" && RateFor(cfg, d) >= 0.0
    requires start <= t && SoundAt(s.buckets, cfg, d, id, t) && InOrder(t, ts, end)
    ensures Spent(s, cfg, dims, ts, d, id) as real <= CreditOf(s.buckets, cfg, d, id, start, end)
    decreases |ts|
  {
    hide CreditOf, SoundAt, Step, Spends;
    InOrderEnds(t, ts, end);
    if ts == [] {
      CreditOfNotNegative(s.buckets, cfg, d, id, t, start, end);
    } else {
      InOrderEnds(ts[0].m.clock.stored, ts[1..], end);
      SoundLater(s.buckets, cfg, d, id, t, ts[0].m.made);
      TurnSpends(s, cfg, dims, ts[0], d, id, start, end);
      SpentWithinCredit(Step(s, cfg, dims, ts[0]), cfg, dims, ts[1..], d, id, ts[0].m.clock.stored, start, end);
    }
  }

  /** The first place of `d` among the dimensions. */
  function First(dims: seq<Dimension>, d: Dimension): (i: nat)
    requires d in dims
    ensures i < |dims| && dims[i] == d
  {
    if dims[0] == d then 0 else First(dims[1..], d) + 1
  }

  /** A request that carries `id` and has passed dimension `d`. */
  function HasPassed(dims: seq<Dimension>, d: Dimension, id: string): Arrival -> nat
    requires d in dims
  {
    (q: Arrival) => if IdOf(q.ask, d) == id && q.where.At? && q.where.i > First(dims, d) then 1 else 0
  }

  /** A request that carries `id` and was admitted. */
  function IsAdmitted(dims: seq<Dimension>, d: Dimension, id: string): Arrival -> nat {
    (q: Arrival) => if IdOf(q.ask, d) == id && q.where.At? && q.where.i >= |dims| then 1 else 0
  }

  lemma {:induction false} AdmittedHavePassed(dims: seq<Dimension>, d: Dimension, id: string, qs: seq<Arrival>)
    requires d in dims
    ensures Tally(qs, IsAdmitted(dims, d, id)) <= Tally(qs, HasPassed(dims, d, id))
  {
    if qs != [] {
      AdmittedHavePassed(dims, d, id, qs[1..]);
    }
  }

  lemma PassingIsSpending(s: State, cfg: Config, dims: seq<Dimension>, t: Turn, d: Dimension, id: string)
    requires d in dims
    ensures Tally(Step(s, cfg, dims, t).requests, HasPassed(dims, d, id))
            <= Tally(s.requests, HasPassed(dims, d, id)) + if Spends(s, cfg, dims, t, d, id) then 1 else 0
  {
    if Visiting(s, dims, t) {
      TallyUpdate(s.requests, t.r, Step(s, cfg, dims, t).requests[t.r], HasPassed(dims, d, id));
    }
    hide Passes, Visited, Tally;
  }

  /** No request gets past dimension `d` without spending a token of its own identifier. */
  lemma {:induction false} PassedHaveSpent(s: State, cfg: Config, dims: seq<Dimension>, ts: seq<Turn>, d: Dimension, id: string)
    requires d in dims
    ensures Tally(After(s, cfg, dims, ts).requests, HasPassed(dims, d, id))
            <= Tally(s.requests, HasPassed(dims, d, id)) + Spent(s, cfg, dims, ts, d, id)
    decreases |ts|
  {
    hide Tally, Step, Spends;
    if ts != [] {
      PassingIsSpending(s, cfg, dims, ts[0], d, id);
      PassedHaveSpent(Step(s, cfg, dims, ts[0]), cfg, dims, ts[1..], d, id);
    }
  }

  /**
    Main theorem: in any interleaving of any number of requests, those admitted
    with identifier `id` of a configured dimension `d`, other than those already
    past it when the window began, are at most the dimension's capacity plus its
    rate (a sixtieth of it per second) times the window.
   */
  lemma AdmittedBound(s: State, cfg: Config, dims: seq<Dimension>, ts: seq<Turn>,
                      d: Dimension, id: string, start: real, end: real)
    requires !d.Unknown? && d in dims && id != "" && RateFor(cfg, d) >= 0.0
    requires SoundAt(s.buckets, cfg, d, id, start) && InOrder(start, ts, end)
    ensures (Tally(After(s, cfg, dims, ts).requests, IsAdmitted(dims, d, id))
             - Tally(s.requests, HasPassed(dims, d, id))) as real
            <= RateFor(cfg, d) + Gain(end - start, RateFor(cfg, d) / 60.0)
  {
    InOrderEnds(start, ts, end);
    SpentWithinCredit(s, cfg, dims, ts, d, id, start, start, end);
    CreditOfNotNegative(s.buckets, cfg, d, id, start, start, end);
    PassedHaveSpent(s, cfg, dims, ts, d, id);
    AdmittedHavePassed(dims, d, id, After(s, cfg, dims, ts).requests);
  }

  /** Soundness needed at the start of a window holds after any run before it, from an empty limiter on. */
  lemma {:induction false} RunsStaySound(s: State, cfg: Config, dims: seq<Dimension>, ts: seq<Turn>,
                                         d: Dimension, id: string, t: real, end: real)
    requires !d.Unknown? && id != "" && RateFor(cfg, d) >= 0.0
    requires SoundAt(s.buckets, cfg, d, id, t) && InOrder(t, ts, end)
    ensures SoundAt(After(s, cfg, dims, ts).buckets, cfg, d, id, end)
    decreases |ts|
  {
    hide SoundAt, Step;
    InOrderEnds(t, ts, end);
    SoundLater(s.buckets, cfg, d, id, t, end);
    if ts != [] {
      InOrderEnds(ts[0].m.clock.stored, ts[1..], end);
      SoundLater(s.buckets, cfg, d, id, t, ts[0].m.made);
      TurnSpends(s, cfg, dims, ts[0], d, id, t, end);
      RunsStaySound(Step(s, cfg, dims, ts[0]), cfg, dims, ts[1..], d, id, ts[0].m.clock.stored, end);
    }
  }

  /** Non-interference: traffic with other identifiers, however interleaved, leaves the bucket of (d, id) alone. */
  lemma {:induction false} OtherTrafficInvisible(s: State, cfg: Config, dims: seq<Dimension>, ts: seq<Turn>,
                                                 d: Dimension, id: string)
    requires !d.Unknown?
    requires forall i :: 0 <= i < |ts| && ts[i].r < |s.requests| ==> IdOf(s.requests[ts[i].r].ask, d) != id
    ensures var bs, k := After(s, cfg, dims, ts).buckets, KeyOf(d, id);
            (k in bs <==> k in s.buckets) && (k in bs ==> bs[k] == s.buckets[k])
    decreases |ts|
  {
    if ts != [] {
      var t := ts[0];
      if Visiting(s, dims, t) {
        var d0 := DimOf(s, dims, t);
        VisitElsewhere(s.buckets, cfg, d0, IdOf(s.requests[t.r].ask, d0), t.m, d, id);
      }
      hide Visited, Passes, KeyOf, IdOf;
      OtherTrafficInvisible(Step(s, cfg, dims, t), cfg, dims, ts[1..], d, id);
    }
  }

  /** The turns of a request that is alone. */
  function Alone(ms: seq<Moment>, i: nat): (ts: seq<Turn>)
    requires i <= |ms|
    decreases |ms| - i
  {
    if i == |ms| then [] else [Turn(0, ms[i])] + Alone(ms, i + 1)
  }

  lemma {:induction false} RefusedStays(s: State, cfg: Config, dims: seq<Dimension>, ms: seq<Moment>, i: nat)
    requires i <= |ms| && |s.requests| == 1 && s.requests[0].where.Refused?
    ensures After(s, cfg, dims, Alone(ms, i)) == s
    decreases |ms| - i
  {
    if i < |ms| {
      assert Alone(ms, i)[1..] == Alone(ms, i + 1);
      RefusedStays(s, cfg, dims, ms, i + 1);
    }
  }

  /** The loop of Allow is such a request whose visits nobody interrupts. */
  lemma {:induction false} AloneIsThrough(bs: Buckets, cfg: Config, dims: seq<Dimension>, ask: Ask, ms: seq<Moment>, i: nat)
    requires i <= |dims| == |ms|
    ensures var s, r := After(State(bs, [Arrival(ask, At(i))]), cfg, dims, Alone(ms, i)), Through(bs, cfg, dims, ask, ms, i);
            s == State(r.0, [Arrival(ask, if r.1 then At(|dims|) else Refused)])
    decreases |dims| - i
  {
    if i < |dims| {
      var s := State(bs, [Arrival(ask, At(i))]);
      var ts, id := Alone(ms, i), IdOf(ask, dims[i]);
      assert ts[1..] == Alone(ms, i + 1) && ts[0] == Turn(0, ms[i]);
      var bs' := Visited(bs, cfg, dims[i], id, ms[i]);
      hide Visited, Passes, IdOf;
      if Passes(bs, cfg, dims[i], id, ms[i]) {
        assert Step(s, cfg, dims, ts[0]) == State(bs', [Arrival(ask, At(i + 1))]);
        AloneIsThrough(bs', cfg, dims, ask, ms, i + 1);
      } else {
        assert Step(s, cfg, dims, ts[0]) == State(bs', [Arrival(ask, Refused)]);
        RefusedStays(State(bs', [Arrival(ask, Refused)]), cfg, dims, ms, i + 1);
      }
    }
  }

  /** What the configuration says of a dimension: its own figure, or a thousand. */
  predicate Configured(cfg: Config, d: Dimension, rate: real) {
    if d in cfg then rate == cfg[d] else rate == 1000.0
  }

  /** Requests that all arrive in the window, none of them past any dimension when it begins. */
  ghost predicate AllNew(s: State) {
    forall i :: 0 <= i < |s.requests| ==> s.requests[i].where == At(0)
  }

  lemma NewBound(s: State, cfg: Config, dims: seq<Dimension>, ts: seq<Turn>,
                 d: Dimension, id: string, rate: real, start: real, end: real)
    requires !d.Unknown? && d in dims && id != "" && rate >= 0.0 && Configured(cfg, d, rate)
    requires SoundAt(s.buckets, cfg, d, id, start) && InOrder(start, ts, end) && AllNew(s)
    ensures Tally(After(s, cfg, dims, ts).requests, IsAdmitted(dims, d, id)) as real <= rate + Gain(end - start, rate / 60.0)
  {
    TallyZero(s.requests, HasPassed(dims, d, id));
    AdmittedBound(s, cfg, dims, ts, d, id, start, end);
  }

  function AdmittedClient(n: nat, id: string): Arrival -> nat {
    (q: Arrival) => if q.ask.client == id && q.where.At? && q.where.i >= n then 1 else 0
  }

  function AdmittedIP(n: nat, id: string): Arrival -> nat {
    (q: Arrival) => if q.ask.ip == id && q.where.At? && q.where.i >= n then 1 else 0
  }

  function AdmittedTenant(n: nat, id: string): Arrival -> nat {
    (q: Arrival) => if q.ask.tenant == id && q.where.At? && q.where.i >= n then 1 else 0
  }

  function AdmittedAtAll(n: nat): Arrival -> nat {
    (q: Arrival) => if q.where.At? && q.where.i >= n then 1 else 0
  }

  /**
    The bound in the request's own terms: with a limit per client, per IP, per
    tenant or globally, the requests of one client, one IP, one tenant or all of
    them that are admitted in a window are at most the configured figure plus a
    sixtieth of it per second.
   */
  lemma BoundPerClient(s: State, cfg: Config, dims: seq<Dimension>, ts: seq<Turn>, id: string, rate: real, start: real, end: real)
    requires PerClient in dims && id != "" && rate >= 0.0 && Configured(cfg, PerClient, rate)
    requires SoundAt(s.buckets, cfg, PerClient, id, start) && InOrder(start, ts, end) && AllNew(s)
    ensures Tally(After(s, cfg, dims, ts).requests, AdmittedClient(|dims|, id)) as real <= rate + Gain(end - start, rate / 60.0)
  {
    NewBound(s, cfg, dims, ts, PerClient, id, rate, start, end);
    TallySame(After(s, cfg, dims, ts).requests, IsAdmitted(dims, PerClient, id), AdmittedClient(|dims|, id));
  }

  lemma BoundPerIP(s: State, cfg: Config, dims: seq<Dimension>, ts: seq<Turn>, id: string, rate: real, start: real, end: real)
    requires PerIP in dims && id != "" && rate >= 0.0 && Configured(cfg, PerIP, rate)
    requires SoundAt(s.buckets, cfg, PerIP, id, start) && InOrder(start, ts, end) && AllNew(s)
    ensures Tally(After(s, cfg, dims, ts).requests, AdmittedIP(|dims|, id)) as real <= rate + Gain(end - start, rate / 60.0)
  {
    NewBound(s, cfg, dims, ts, PerIP, id, rate, start, end);
    TallySame(After(s, cfg, dims, ts).requests, IsAdmitted(dims, PerIP, id), AdmittedIP(|dims|, id));
  }

  lemma BoundPerTenant(s: State, cfg: Config, dims: seq<Dimension>, ts: seq<Turn>, id: string, rate: real, start: real, end: real)
    requires PerTenant in dims && id != "" && rate >= 0.0 && Configured(cfg, PerTenant, rate)
    requires SoundAt(s.buckets, cfg, PerTenant, id, start) && InOrder(start, ts, end) && AllNew(s)
    ensures Tally(After(s, cfg, dims, ts).requests, AdmittedTenant(|dims|, id)) as real <= rate + Gain(end - start, rate / 60.0)
  {
    NewBound(s, cfg, dims, ts, PerTenant, id, rate, start, end);
    TallySame(After(s, cfg, dims, ts).requests, IsAdmitted(dims, PerTenant, id), AdmittedTenant(|dims|, id));
  }

  lemma BoundGlobal(s: State, cfg: Config, dims: seq<Dimension>, ts: seq<Turn>, rate: real, start: real, end: real)
    requires Global in dims && rate >= 0.0 && Configured(cfg, Global, rate)
    requires SoundAt(s.buckets, cfg, Global, "global", start) && InOrder(start, ts, end) && AllNew(s)
    ensures Tally(After(s, cfg, dims, ts).requests, AdmittedAtAll(|dims|)) as real <= rate + Gain(end - start, rate / 60.0)
  {
    NewBound(s, cfg, dims, ts, Global, "global", rate, start, end);
    TallySame(After(s, cfg, dims, ts).requests, IsAdmitted(dims, Global, "global"), AdmittedAtAll(|dims|));
  }

  // ---- when a request is admitted -------------------------------------------------

  /** What the bucket of (d, id) has to give at the visit: a missing one is made full. */
  function Available(bs: Buckets, cfg: Config, d: Dimension, id: string, m: Moment): (x: real) {
    var rate := if d in cfg then cfg[d] else 1000.0;
    if KeyOf(d, id) in bs then FillAt(bs[KeyOf(d, id)], m.clock.seen)
    else FillAt(Bucket(rate, rate, rate / 60.0, m.made), m.clock.seen)
  }

  predicate Pays(bs: Buckets, cfg: Config, d: Dimension, ask: Ask, m: Moment) {
    match d
    case Global => Available(bs, cfg, d, "global", m) >= 1.0
    case PerClient => ask.client == "" || Available(bs, cfg, d, ask.client, m) >= 1.0
    case PerIP => ask.ip == "" || Available(bs, cfg, d, ask.ip, m) >= 1.0
    case PerTenant => ask.tenant == "" || Available(bs, cfg, d, ask.tenant, m) >= 1.0
    case Unknown(_) => true
  }

  lemma PassesWhenItPays(bs: Buckets, cfg: Config, d: Dimension, ask: Ask, m: Moment)
    ensures Passes(bs, cfg, d, IdOf(ask, d), m) <==> Pays(bs, cfg, d, ask, m)
  {
    hide Gain;
    GrantsByFill(BucketFor(bs, cfg, d, IdOf(ask, d), m.made), TokenBucket.Request(1.0, m.clock));
  }

  lemma PaysAsBefore(bs: Buckets, cfg: Config, d0: Dimension, m0: Moment, d: Dimension, ask: Ask, m: Moment)
    requires d0 != d
    ensures Pays(Visited(bs, cfg, d0, IdOf(ask, d0), m0), cfg, d, ask, m) <==> Pays(bs, cfg, d, ask, m)
  {
    if !d.Unknown? {
      VisitElsewhere(bs, cfg, d0, IdOf(ask, d0), m0, d, IdOf(ask, d));
      hide KeyOf, Visited, Gain;
    }
  }

  lemma {:induction false} ThroughExactly(bs: Buckets, cfg: Config, dims: seq<Dimension>, ask: Ask, ms: seq<Moment>, i: nat)
    requires i <= |dims| <= |ms| && forall j, k :: 0 <= j < k < |dims| ==> dims[j] != dims[k]
    ensures Through(bs, cfg, dims, ask, ms, i).1 <==> forall k :: i <= k < |dims| ==> Pays(bs, cfg, dims[k], ask, ms[k])
    decreases |dims| - i
  {
    if i < |dims| {
      var bs' := Visited(bs, cfg, dims[i], IdOf(ask, dims[i]), ms[i]);
      PassesWhenItPays(bs, cfg, dims[i], ask, ms[i]);
      ThroughExactly(bs', cfg, dims, ask, ms, i + 1);
      forall k | i < k < |dims| ensures Pays(bs', cfg, dims[k], ask, ms[k]) <==> Pays(bs, cfg, dims[k], ask, ms[k]) {
        PaysAsBefore(bs, cfg, dims[i], ms[i], dims[k], ask, ms[k]);
      }
      hide Visited, Passes, Pays, IdOf;
    }
  }

  /**
    Both directions: an uninterrupted request is admitted if and only if the
    bucket of every dimension for which it carries an identifier has a token.
   */
  lemma AdmittedExactly(bs: Buckets, cfg: Config, dims: seq<Dimension>, ask: Ask, ms: seq<Moment>)
    requires |dims| == |ms| && forall j, k :: 0 <= j < k < |dims| ==> dims[j] != dims[k]
    ensures Through(bs, cfg, dims, ask, ms, 0).1 <==> forall k :: 0 <= k < |dims| ==> Pays(bs, cfg, dims[k], ask, ms[k])
  {
    ThroughExactly(bs, cfg, dims, ask, ms, 0);
  }

  /** The limiter object. */
  class MultiDimensionalLimiter {
    var limiters: Buckets
    const dimensions: seq<Dimension>
    const config: Config

    constructor (config: Config, dimensions: seq<Dimension>)
      ensures limiters == map[] && this.config == config && this.dimensions == dimensions
    {
      this.config, this.dimensions := config, dimensions;
      limiters := map[];
    }

    method AllowForDimension(d: Dimension, id: string, m: Moment) returns (ok: bool)
      modifies this`limiters
      ensures limiters == Visited(old(limiters), config, d, id, m)
      ensures ok == Passes(old(limiters), config, d, id, m)
    {
      if id == "" {
        return true;
      }
      var key := KeyOf(d, id);
      if key !in limiters {
        var rate := if d in config then config[d] else 1000.0;
        limiters := limiters[key := TokenBucket.New(rate, rate / 60.0, m.made)];
      }
      var q := Request(1.0, m.clock);
      ok := Grants(limiters[key], q);
      limiters := limiters[key := TokenBucket.Allow(limiters[key], q)];
    }

    method Allow(ask: Ask, ms: seq<Moment>) returns (ok: bool)
      requires |ms| == |dimensions|
      modifies this`limiters
      ensures (limiters, ok) == Through(old(limiters), config, dimensions, ask, ms, 0)
    {
      var i := 0;
      while i < |dimensions|
        invariant 0 <= i <= |dimensions|
        invariant Through(limiters, config, dimensions, ask, ms, i)
                  == Through(old(limiters), config, dimensions, ask, ms, 0)
      {
        hide Visited, Passes;
        ok := AllowForDimension(dimensions[i], IdOf(ask, dimensions[i]), ms[i]);
        if !ok {
          return;
        }
        i := i + 1;
      }
      return true;
    }

    method Reset()
      modifies this`limiters
      ensures limiters == map[]
    {
      limiters := map[];
    }
  }
}
