/**
  The reference-counted registry shared by every object registry of the
  Fabric Manager (registry/semantics.go, registry/refcount.go).

  RegistrySpec describes the registry over operation histories, newest
  operation first, for arbitrary and possibly misbehaving clients. A ready
  channel is a number; `closed` records which channels were closed.
 */
module RegistrySpec {
  import opened Common
  import opened Tallies

  /** `value` is None until the first Add (hasValue == false). */
  datatype Entry<+V> = Entry(value: Option<V>, refs: nat, ready: nat)

  /** The entries, and for every channel ever made whether it is closed. */
  datatype State<K, V> = State(entries: map<K, Entry<V>>, closed: seq<bool>)

  datatype Op<K, V> =
    | Acquire(client: nat, key: K)
    | Release(client: nat, key: K)
    | Add(key: K, value: V)

  function Empty<K, V>(): (s: State<K, V>) {
    State(map[], [])
  }

  /** The state with an entry for `k`, made on demand with a new open channel. */
  function Ensured<K, V>(s: State<K, V>, k: K): (t: State<K, V>) {
    if k in s.entries then s
    else State(s.entries[k := Entry(None, 0, |s.closed|)], s.closed + [false])
  }

  function DoAcquire<K, V>(s: State<K, V>, k: K): (t: State<K, V>) {
    var t := Ensured(s, k);
    var e := t.entries[k];
    t.(entries := t.entries[k := e.(refs := e.refs + 1)])
  }

  /** Release fails on a missing entry and on an entry without holders. */
  predicate CanRelease<K, V>(s: State<K, V>, k: K) {
    k in s.entries && s.entries[k].refs > 0
  }

  function DoRelease<K, V>(s: State<K, V>, k: K): (t: State<K, V>) {
    if !CanRelease(s, k) then s
    else
      var e := s.entries[k];
      if e.refs == 1 then s.(entries := s.entries - {k})
      else s.(entries := s.entries[k := e.(refs := e.refs - 1)])
  }

  /** Closes the channel of an entry on its first value only. */
  function DoAdd<K, V>(s: State<K, V>, k: K, v: V): (t: State<K, V>) {
    var t := Ensured(s, k);
    var e := t.entries[k];
    State(t.entries[k := e.(value := Some(v))],
          if e.value.None? && e.ready < |t.closed| then t.closed[e.ready := true] else t.closed)
  }

  function Do<K, V>(s: State<K, V>, op: Op<K, V>): (t: State<K, V>) {
    match op
    case Acquire(_, k) => DoAcquire(s, k)
    case Release(_, k) => DoRelease(s, k)
    case Add(k, v) => DoAdd(s, k, v)
  }

  /** The registry after a history, newest operation first. */
  function After<K, V>(h: seq<Op<K, V>>): (s: State<K, V>) {
    if h == [] then Empty() else Do(After(h[1..]), h[0])
  }

  function Refcount<K, V>(s: State<K, V>, k: K): (n: nat) {
    if k in s.entries then s.entries[k].refs else 0
  }

  function Get<K, V>(s: State<K, V>, k: K): (r: Option<V>) {
    if k in s.entries then s.entries[k].value else None
  }

  // ---- reference semantics: no entries, no channels ------------------------

  /** Acquires minus successful releases; a release succeeds when the difference is positive. */
  function Net<K(==), V>(h: seq<Op<K, V>>, k: K): (n: nat) {
    if h == [] then 0
    else
      var n := Net(h[1..], k);
      match h[0]
      case Acquire(_, k') => if k' == k then n + 1 else n
      case Release(_, k') => if k' == k && n > 0 then n - 1 else n
      case Add(_, _) => n
  }

  /** The last value added since the key last lost its last holder. */
  function LastAdded<K(==), V>(h: seq<Op<K, V>>, k: K): (r: Option<V>) {
    if h == [] then None
    else
      match h[0]
      case Acquire(_, _) => LastAdded(h[1..], k)
      case Release(_, k') => if k' == k && Net(h[1..], k) == 1 then None else LastAdded(h[1..], k)
      case Add(k', v) => if k' == k then Some(v) else LastAdded(h[1..], k)
  }

  /**
    For arbitrary clients: the reference count is acquires minus successful
    releases over the whole run, and Get sees the last value added since the
    last eviction.
   */
  lemma {:induction false} ObservedExactly<K, V>(h: seq<Op<K, V>>, k: K)
    ensures Refcount(After(h), k) == Net(h, k)
    ensures Get(After(h), k) == LastAdded(h, k)
  {
    if h != [] {
      ObservedExactly(h[1..], k);
    }
  }

  /** Release fails exactly when that difference is zero, and then changes nothing. */
  lemma ReleaseFailsExactlyAtZero<K, V>(h: seq<Op<K, V>>, client: nat, k: K)
    ensures CanRelease(After(h), k) <==> Net(h, k) > 0
    ensures Net(h, k) == 0 ==> After([Release(client, k)] + h) == After(h)
    ensures Net(h, k) > 0 ==> Net([Release(client, k)] + h, k) == Net(h, k) - 1
  {
    ObservedExactly(h, k);
    var h' := [Release(client, k)] + h;
    assert h'[0] == Release(client, k) && h'[1..] == h;
  }

  /** How each operation moves the reference counts. */
  lemma AcquireRefs<K, V>(s: State<K, V>, k: K, x: K)
    ensures Refcount(DoAcquire(s, k), x) == Refcount(s, x) + if x == k then 1 else 0
  {
  }

  lemma ReleaseRefs<K, V>(s: State<K, V>, k: K, x: K)
    ensures Refcount(DoRelease(s, k), x) == Refcount(s, x) - if x == k && Refcount(s, x) > 0 then 1 else 0
  {
  }

  lemma AddRefs<K, V>(s: State<K, V>, k: K, v: V, x: K)
    ensures Refcount(DoAdd(s, k, v), x) == Refcount(s, x)
  {
  }

  // ---- channels ---------------------------------------------------------------

  /**
    The channel invariant: channels exist and belong to one entry each, and one
    is closed exactly when its entry has a value.
   */
  ghost predicate Wired<K, V>(s: State<K, V>) {
    && (forall k :: k in s.entries ==>
          && s.entries[k].ready < |s.closed|
          && (s.closed[s.entries[k].ready] <==> s.entries[k].value.Some?))
    && (forall k, k' :: k in s.entries && k' in s.entries && s.entries[k].ready == s.entries[k'].ready ==> k == k')
  }

  /** Every entry has a holder or a value. */
  ghost predicate Occupied<K, V>(s: State<K, V>) {
    forall k :: k in s.entries ==> s.entries[k].refs > 0 || s.entries[k].value.Some?
  }

  lemma EnsuredWired<K, V>(s: State<K, V>, k: K)
    requires Wired(s)
    ensures Wired(Ensured(s, k))
  {
  }

  lemma AddWired<K, V>(s: State<K, V>, k: K, v: V)
    requires Wired(s)
    ensures Wired(DoAdd(s, k, v))
  {
    EnsuredWired(s, k);
    var t, u := Ensured(s, k), DoAdd(s, k, v);
    forall x | x in u.entries
      ensures u.entries[x].ready < |u.closed| && (u.closed[u.entries[x].ready] <==> u.entries[x].value.Some?)
    {
      assert x in t.entries && u.entries[x].ready == t.entries[x].ready;
      assert k in t.entries && (x != k ==> t.entries[x].ready != t.entries[k].ready);
    }
  }

  lemma AcquireWired<K, V>(s: State<K, V>, k: K)
    requires Wired(s)
    ensures Wired(DoAcquire(s, k))
  {
    EnsuredWired(s, k);
    hide Ensured;
  }

  lemma ReleaseWired<K, V>(s: State<K, V>, k: K)
    requires Wired(s)
    ensures Wired(DoRelease(s, k))
  {
  }

  lemma DoWired<K, V>(s: State<K, V>, op: Op<K, V>)
    requires Wired(s)
    ensures Wired(Do(s, op))
  {
    hide Wired, DoAcquire, DoRelease, DoAdd;
    match op
    case Acquire(_, k) =>
      AcquireWired(s, k);
    case Release(_, k) =>
      ReleaseWired(s, k);
    case Add(k, v) =>
      AddWired(s, k, v);
  }

  lemma {:induction false} AlwaysOccupied<K, V>(h: seq<Op<K, V>>)
    ensures Occupied(After(h))
  {
    if h != [] {
      AlwaysOccupied(h[1..]);
    }
  }

  lemma {:induction false} AlwaysWired<K, V>(h: seq<Op<K, V>>)
    ensures Wired(After(h))
  {
    if h != [] {
      AlwaysWired(h[1..]);
      DoWired(After(h[1..]), h[0]);
    }
  }

  /** The channel an Acquire returns after history `h`. */
  function Returned<K(==), V>(h: seq<Op<K, V>>, k: K): (c: nat) {
    Ensured(After(h), k).entries[k].ready
  }

  /** The net count of `k` stayed positive through all of `later`. */
  predicate StaysHeld<K(==), V>(later: seq<Op<K, V>>, h: seq<Op<K, V>>, k: K) {
    later == [] || (Net(later + h, k) > 0 && StaysHeld(later[1..], h, k))
  }

  /** Channel numbers only grow, and no later entry reuses an old number. */
  ghost predicate Retired<K, V>(s: State<K, V>, k: K, c: nat) {
    c < |s.closed| && (k in s.entries ==> s.entries[k].ready > c)
  }

  lemma {:induction false} RetiredStays<K, V>(s: State<K, V>, op: Op<K, V>, k: K, c: nat)
    requires Retired(s, k, c)
    ensures Retired(Do(s, op), k, c)
  {
  }

  /** A held entry keeps its channel while it stays held, and is retired when it does not. */
  lemma HeldStep<K, V>(s: State<K, V>, op: Op<K, V>, k: K)
    requires Wired(s) && k in s.entries
    ensures var t := Do(s, op);
            && (Refcount(t, k) > 0 ==> k in t.entries && t.entries[k].ready == s.entries[k].ready)
            && (Refcount(s, k) > 0 && Refcount(t, k) == 0 ==> Retired(t, k, s.entries[k].ready))
  {
  }

  /** Current, or retired for good. */
  lemma {:induction false} CurrentOrRetired<K, V>(later: seq<Op<K, V>>, h: seq<Op<K, V>>, client: nat, k: K)
    ensures var g := [Acquire(client, k)] + h;
            var s, c := After(later + g), Returned(h, k);
            && (StaysHeld(later, g, k) ==> k in s.entries && s.entries[k].ready == c)
            && (!StaysHeld(later, g, k) ==> Retired(s, k, c))
  {
    var g := [Acquire(client, k)] + h;
    assert g[1..] == h;
    AlwaysWired(h);
    if later == [] {
      assert later + g == g;
    } else {
      var rest, op := later[1..], later[0];
      CurrentOrRetired(rest, h, client, k);
      assert (later + g)[1..] == rest + g && (later + g)[0] == op;
      var s := After(rest + g);
      assert After(later + g) == Do(s, op);
      ObservedExactly(rest + g, k);
      ObservedExactly(later + g, k);
      AlwaysWired(rest + g);
      if !StaysHeld(rest, g, k) {
        RetiredStays(s, op, k, Returned(h, k));
        hide Do, Net, Retired;
      } else {
        HeldStep(s, op, k);
        hide Do, Net, After;
      }
    }
  }

  /**
    Exactly when a holder's channel is the channel of the current entry: as
    long as the count of its key never returned to zero since the Acquire.
   */
  lemma ChannelCurrentExactly<K, V>(later: seq<Op<K, V>>, h: seq<Op<K, V>>, client: nat, k: K)
    ensures var g := [Acquire(client, k)] + h;
            var s := After(later + g);
            (k in s.entries && s.entries[k].ready == Returned(h, k)) <==> StaysHeld(later, g, k)
  {
    CurrentOrRetired(later, h, client, k);
  }

  /** An open channel that no entry owns. */
  ghost predicate Orphaned<K, V>(s: State<K, V>, c: nat) {
    c < |s.closed| && !s.closed[c] && forall k :: k in s.entries ==> s.entries[k].ready != c
  }

  lemma OrphanStays<K, V>(s: State<K, V>, op: Op<K, V>, c: nat)
    requires Orphaned(s, c)
    ensures Orphaned(Do(s, op), c)
  {
  }

  /** Nothing will ever close an orphaned channel. */
  lemma {:induction false} OrphanedForGood<K, V>(later: seq<Op<K, V>>, h: seq<Op<K, V>>, c: nat)
    requires Orphaned(After(h), c)
    ensures Orphaned(After(later + h), c)
  {
    if later == [] {
      assert later + h == h;
    } else {
      OrphanedForGood(later[1..], h, c);
      assert (later + h)[1..] == later[1..] + h && (later + h)[0] == later[0];
      hide Do, Orphaned;
      OrphanStays(After(later[1..] + h), later[0], c);
    }
  }

  /**
    A client releasing what it never acquired breaks this: client 0 acquires,
    client 1 releases, a value is added, and client 0 waits on a channel that
    no later operation closes, although the key has a value.
   */
  lemma StrayReleaseStrandsHolder<K, V>(k: K, v: V)
    ensures var h := [Add(k, v), Release(1, k), Acquire(0, k)];
            && Returned<K, V>([], k) == 0 && Get(After(h), k) == Some(v)
            && (forall later: seq<Op<K, V>> ::
                  0 < |After(later + h).closed| && !After(later + h).closed[0])
  {
    var a: seq<Op<K, V>> := [Acquire(0, k)];
    var r: seq<Op<K, V>> := [Release(1, k), Acquire(0, k)];
    var h: seq<Op<K, V>> := [Add(k, v), Release(1, k), Acquire(0, k)];
    assert a[1..] == [] && r[1..] == a && h[1..] == r;
    assert After(a) == State(map[k := Entry(None, 1, 0)], [false]);
    assert After(r) == State(map[], [false]);
    assert After(h) == State(map[k := Entry(Some(v), 0, 1)], [false, true]);
    assert Orphaned(After(h), 0);
    forall later: seq<Op<K, V>>
      ensures 0 < |After(later + h).closed| && !After(later + h).closed[0]
    {
      hide After;
      OrphanedForGood(later, h, 0);
    }
  }

  // ---- clients that release only what they hold ---------------------------------

  /** One outstanding Acquire: who, which key, and the channel it was given. */
  datatype Hold<K> = Hold(client: nat, key: K, channel: nat)

  /** The outstanding holds with the first one of `client` on `k` taken out. */
  function Dropped<K(==)>(hs: seq<Hold<K>>, client: nat, k: K): (r: seq<Hold<K>>) {
    if hs == [] then []
    else if hs[0].client == client && hs[0].key == k then hs[1..]
    else [hs[0]] + Dropped(hs[1..], client, k)
  }

  predicate Holding<K(==)>(hs: seq<Hold<K>>, client: nat, k: K) {
    exists i :: 0 <= i < |hs| && hs[i].client == client && hs[i].key == k
  }

  function Holders<K(==), V>(h: seq<Op<K, V>>): (hs: seq<Hold<K>>) {
    if h == [] then []
    else
      match h[0]
      case Acquire(client, k) => [Hold(client, k, Returned(h[1..], k))] + Holders(h[1..])
      case Release(client, k) => Dropped(Holders(h[1..]), client, k)
      case Add(_, _) => Holders(h[1..])
  }

  /** Every release is by a client that holds the key at that moment. */
  predicate WellBehaved<K(==), V>(h: seq<Op<K, V>>) {
    h == [] || (WellBehaved(h[1..])
                && (h[0].Release? ==> Holding(Holders(h[1..]), h[0].client, h[0].key)))
  }

  function OnKey<K(==)>(k: K): Hold<K> -> nat {
    (x: Hold<K>) => if x.key == k then 1 else 0
  }

  lemma {:induction false} DroppedTally<K>(hs: seq<Hold<K>>, client: nat, k: K, k': K)
    ensures Tally(Dropped(hs, client, k), OnKey(k'))
            == Tally(hs, OnKey(k')) - if Holding(hs, client, k) && k == k' then 1 else 0
    ensures forall x :: x in Dropped(hs, client, k) ==> x in hs
  {
    if hs != [] {
      DroppedTally(hs[1..], client, k, k');
      if !(hs[0].client == client && hs[0].key == k) {
        HoldingTail(hs, client, k);
        assert Dropped(hs, client, k)[1..] == Dropped(hs[1..], client, k);
      } else {
        assert Holding(hs, client, k);
      }
    }
  }

  lemma HoldingTail<K>(hs: seq<Hold<K>>, client: nat, k: K)
    requires hs != [] && !(hs[0].client == client && hs[0].key == k)
    ensures Holding(hs, client, k) <==> Holding(hs[1..], client, k)
  {
    if Holding(hs, client, k) {
      var i :| 0 <= i < |hs| && hs[i].client == client && hs[i].key == k;
      assert hs[1..][i - 1] == hs[i];
    }
    if Holding(hs[1..], client, k) {
      var i :| 0 <= i < |hs[1..]| && hs[1..][i].client == client && hs[1..][i].key == k;
      assert hs[i + 1] == hs[1..][i];
    }
  }

  /** The reference count is the number of outstanding holds. */
  lemma {:induction false} RefsAreHolders<K, V>(h: seq<Op<K, V>>, k: K)
    requires WellBehaved(h)
    ensures Refcount(After(h), k) == Tally(Holders(h), OnKey(k))
  {
    if h != [] {
      RefsAreHolders(h[1..], k);
      var hs := Holders(h[1..]);
      match h[0]
      case Acquire(client, k') =>
        assert Holders(h)[1..] == hs;
      case Release(client, k') =>
        DroppedTally(hs, client, k', k);
        RefsAreHolders(h[1..], k');
        var i :| 0 <= i < |hs| && hs[i].client == client && hs[i].key == k';
        TallyAtLeast(hs, i, OnKey(k'));
      case Add(_, _) =>
    }
  }

  lemma {:induction false} HoldersCurrent<K, V>(h: seq<Op<K, V>>, x: Hold<K>)
    requires WellBehaved(h) && x in Holders(h)
    ensures var s := After(h); x.key in s.entries && s.entries[x.key].ready == x.channel
  {
    var g, s := h[1..], After(h[1..]);
    match h[0]
    case Acquire(client, k) =>
      if x in Holders(g) {
        HoldersCurrent(g, x);
      }
    case Release(client, k) =>
      DroppedTally(Holders(g), client, k, k);
      HoldersCurrent(g, x);
      RefsAreHolders(h, x.key);
      var i :| 0 <= i < |Holders(h)| && Holders(h)[i] == x;
      TallyAtLeast(Holders(h), i, OnKey(x.key));
      hide Holders, Tally, After;
    case Add(k, v) =>
      HoldersCurrent(g, x);
  }

  /**
    Main theorem for well-behaved clients: every holder's channel is the one of
    the current entry, it is closed exactly when the key has a value, and so the
    next Add of the key wakes every holder that is still waiting.
   */
  lemma NextAddWakesEveryHolder<K, V>(h: seq<Op<K, V>>, x: Hold<K>, v: V)
    requires WellBehaved(h) && x in Holders(h)
    ensures x.key in After(h).entries && After(h).entries[x.key].ready == x.channel
    ensures x.channel < |After(h).closed|
    ensures After(h).closed[x.channel] <==> Get(After(h), x.key).Some?
    ensures x.channel < |DoAdd(After(h), x.key, v).closed| && DoAdd(After(h), x.key, v).closed[x.channel]
  {
    HoldersCurrent(h, x);
    AlwaysWired(h);
    hide Holders, After;
  }
}

/** The registry object. Each method is one critical section of its mutex. */
module RegistryObject {
  import opened Common
  import opened RegistrySpec

  /** Recording an operation keeps state, history and channels in step. */
  lemma Recorded<K, V>(h: seq<Op<K, V>>, s: State<K, V>, op: Op<K, V>)
    requires s == After(h) && Wired(s)
    ensures After([op] + h) == Do(s, op) && Wired(Do(s, op))
  {
    assert ([op] + h)[0] == op && ([op] + h)[1..] == h;
    DoWired(s, op);
  }

  /** The channel of an entry without a value is there to be closed. */
  lemma FirstValueOpen<K, V>(s: State<K, V>, k: K)
    requires Wired(s)
    ensures var t := Ensured(s, k);
            var e := t.entries[k];
            e.ready < |t.closed| && (e.value.None? ==> !t.closed[e.ready])
  {
    EnsuredWired(s, k);
  }

  lemma NothingReleased<K, V>(s: State<K, V>, k: K)
    requires !CanRelease(s, k)
    ensures DoRelease(s, k) == s
  {
  }

  lemma UpdatedRemoved<A, B>(m: map<A, B>, k: A, x: B)
    ensures m[k := x] - {k} == m - {k}
  {
  }

  class Registry<K(==), V> {
    const name: string
    var entries: map<K, Entry<V>>
    var closed: seq<bool>
    ghost var history: seq<Op<K, V>>  // every operation so far, newest first

    ghost predicate Valid()
      reads this
    {
      State(entries, closed) == After(history) && Wired(State(entries, closed))
    }

    constructor (name: string)
      ensures Valid() && history == [] && this.name == name
    {
      this.name := name;
      entries, closed, history := map[], [], [];
    }

    /** newEntry: a record with a fresh open channel. */
    method Ensure(key: K)
      modifies this`entries, this`closed
      ensures State(entries, closed) == Ensured(old(State(entries, closed)), key)
    {
      if key !in entries {
        entries := entries[key := Entry(None, 0, |closed|)];
        closed := closed + [false];
      }
    }

    /** Go's close: closing a closed channel would panic. */
    method Close(c: nat)
      requires c < |closed| && !closed[c]
      modifies this`closed
      ensures closed == old(closed)[c := true]
    {
      closed := closed[c := true];
    }

    method Acquire(client: nat, key: K) returns (ready: nat)
      requires Valid()
      modifies this
      ensures Valid() && history == [RegistrySpec.Acquire(client, key)] + old(history)
      ensures State(entries, closed) == DoAcquire(old(State(entries, closed)), key)
      ensures ready == Returned(old(history), key) && key in entries && entries[key].ready == ready
    {
      ghost var op := RegistrySpec.Op.Acquire(client, key);
      Recorded(history, State(entries, closed), op);
      hide After, Wired, Ensured;
      Ensure(key);
      var e := entries[key];
      entries := entries[key := e.(refs := e.refs + 1)];
      assert State(entries, closed) == DoAcquire(old(State(entries, closed)), key);
      assert Returned(old(history), key) == e.ready;
      hide DoAcquire, Returned;
      history := [op] + history;
      ready := e.ready;
    }

    /** Fails, changing nothing, exactly when acquires and successful releases balance. */
    method Release(client: nat, key: K) returns (ok: bool)
      requires Valid()
      modifies this
      ensures Valid() && history == [RegistrySpec.Release(client, key)] + old(history)
      ensures State(entries, closed) == DoRelease(old(State(entries, closed)), key)
      ensures ok <==> Net(old(history), key) > 0
      ensures !ok ==> entries == old(entries) && closed == old(closed)
    {
      ghost var op := RegistrySpec.Op.Release(client, key);
      Recorded(history, State(entries, closed), op);
      ReleaseFailsExactlyAtZero(history, client, key);
      hide After, Wired, Net, DoRelease;
      ok := key in entries && entries[key].refs > 0;
      if ok {
        Decrement(key);
      } else {
        NothingReleased(State(entries, closed), key);
      }
      history := [op] + history;
    }

    /** One holder less; the last one takes the entry with it. */
    method Decrement(key: K)
      requires key in entries && entries[key].refs > 0
      modifies this`entries
      ensures State(entries, closed) == DoRelease(old(State(entries, closed)), key)
    {
      var e := entries[key];
      UpdatedRemoved(entries, key, e.(refs := e.refs - 1));
      entries := entries[key := e.(refs := e.refs - 1)];
      if e.refs - 1 == 0 {
        entries := entries - {key};
      }
    }

    /** Stores the value; the call of Close is reached only with an open channel. */
    method Add(key: K, value: V)
      requires Valid()
      modifies this
      ensures Valid() && history == [RegistrySpec.Add(key, value)] + old(history)
      ensures State(entries, closed) == DoAdd(old(State(entries, closed)), key, value)
    {
      ghost var op := RegistrySpec.Op.Add(key, value);
      Recorded(history, State(entries, closed), op);
      FirstValueOpen(State(entries, closed), key);
      hide After, Wired, Ensured;
      Ensure(key);
      var e := entries[key];
      entries := entries[key := e.(value := Some(value))];
      if e.value.None? {
        Close(e.ready);
      }
      history := [op] + history;
    }

    method Get(key: K) returns (value: Option<V>)
      requires Valid()
      ensures value == LastAdded(history, key) == RegistrySpec.Get(State(entries, closed), key)
    {
      ObservedExactly(history, key);
      if key !in entries || entries[key].value.None? {
        return None;
      }
      return entries[key].value;
    }

    method Ready(key: K) returns (r: bool)
      requires Valid()
      ensures r <==> LastAdded(history, key).Some?
    {
      ObservedExactly(history, key);
      r := key in entries && entries[key].value.Some?;
    }

    method Refcount(key: K) returns (n: nat)
      requires Valid()
      ensures n == Net(history, key)
    {
      ObservedExactly(history, key);
      if key !in entries {
        return 0;
      }
      return entries[key].refs;
    }

    /** A copy of the key-to-value map, agreeing with Get on every key. */
    method Snapshot() returns (out: map<K, V>)
      requires Valid()
      ensures forall k :: k in out <==> LastAdded(history, k).Some?
      ensures forall k :: k in out ==> LastAdded(history, k) == Some(out[k])
    {
      out := map[];
      var rest := entries.Keys;
      while rest != {}
        invariant rest <= entries.Keys
        invariant forall k :: k in out <==> k in entries && k !in rest && entries[k].value.Some?
        invariant forall k :: k in out ==> entries[k].value == Some(out[k])
        decreases |rest|
      {
        var k :| k in rest;
        if entries[k].value.Some? {
          out := out[k := entries[k].value.value];
        }
        rest := rest - {k};
      }
      forall k ensures LastAdded(history, k) == RegistrySpec.Get(After(history), k) {
        ObservedExactly(history, k);
      }
    }
  }
}
