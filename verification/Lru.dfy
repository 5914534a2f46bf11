/**
  The deduplication cache of the configuration manager (cm/cache.go).

  LruSpec says what the cache remembers without mentioning the cache: a
  fingerprint is remembered when fewer than `cap` distinct other fingerprints
  were seen since its last occurrence. LruCache is the map-plus-linked-list
  implementation, proved to answer exactly that question.
 */
module LruSpec {
  import opened Common

  /** The hexadecimal digest of an event payload; only compared, never inspected. */
  datatype Fingerprint = Fingerprint(hex: string)

  predicate Distinct<T(==)>(s: seq<T>) {
    s == [] || (s[0] !in s[1..] && Distinct(s[1..]))
  }

  lemma ConsFacts<T>(a: T, t: seq<T>)
    ensures ([a] + t)[0] == a && ([a] + t)[1..] == t
    ensures forall y :: y in [a] + t <==> y == a || y in t
    ensures Elems([a] + t) == {a} + Elems(t)
  {
  }

  /** The sequence with the first occurrence of `x`, if any, taken out. */
  function Without<T(==)>(s: seq<T>, x: T): (r: seq<T>) {
    if s == [] then [] else if s[0] == x then s[1..] else [s[0]] + Without(s[1..], x)
  }

  /** The elements that stand before the first occurrence of `x`. */
  function Ahead<T(==)>(s: seq<T>, x: T): (r: seq<T>)
    requires x in s
    ensures forall y :: y in r ==> y in s && y != x
  {
    if s[0] == x then [] else [s[0]] + Ahead(s[1..], x)
  }

  function Take<T>(s: seq<T>, n: nat): (r: seq<T>) {
    if |s| <= n then s else s[..n]
  }

  /** The fingerprints seen since the last occurrence of `f`. */
  function Since(h: seq<Fingerprint>, f: Fingerprint): (r: set<Fingerprint>)
    requires f in h
  {
    Elems(Ahead(h, f))
  }

  /**
    The reference definition, over the access history alone (newest first):
    `f` occurred, and fewer than `cap` distinct other fingerprints were
    accessed since its last occurrence.
   */
  predicate Remembered(h: seq<Fingerprint>, f: Fingerprint, cap: nat) {
    f in h && |Since(h, f)| < cap
  }

  /** Every fingerprint of the history once, most recently used first. */
  function Recency(h: seq<Fingerprint>): (r: seq<Fingerprint>) {
    if h == [] then [] else [h[0]] + Without(Recency(h[1..]), h[0])
  }

  /** One access to a cache whose list, front first, is `order`. */
  function Touch(order: seq<Fingerprint>, f: Fingerprint, cap: nat): (r: seq<Fingerprint>) {
    if f in order then [f] + Without(order, f)
    else
      var pushed := [f] + order;
      if |pushed| > cap then pushed[..|pushed| - 1] else pushed
  }

  /** The cache list after a whole history, starting empty. */
  function Cached(h: seq<Fingerprint>, cap: nat): (r: seq<Fingerprint>) {
    if h == [] then [] else Touch(Cached(h[1..], cap), h[0], cap)
  }

  /** How many accesses of the history are answered as duplicates. */
  function Hits(h: seq<Fingerprint>, cap: nat): (n: nat) {
    if h == [] then 0
    else Hits(h[1..], cap) + if h[0] in Cached(h[1..], cap) then 1 else 0
  }

  lemma {:induction false} WithoutDistinct<T>(s: seq<T>, x: T)
    requires Distinct(s)
    ensures Distinct(Without(s, x))
    ensures forall y :: y in Without(s, x) <==> y in s && y != x
  {
    if s != [] {
      WithoutDistinct(s[1..], x);
      ConsFacts(s[0], s[1..]);
      assert s == [s[0]] + s[1..];
      ConsFacts(s[0], Without(s[1..], x));
    }
  }

  lemma {:induction false} RecencyDistinct(h: seq<Fingerprint>)
    ensures Distinct(Recency(h))
    ensures forall f :: f in Recency(h) <==> f in h
  {
    if h != [] {
      RecencyDistinct(h[1..]);
      WithoutDistinct(Recency(h[1..]), h[0]);
      ConsFacts(h[0], Without(Recency(h[1..]), h[0]));
      assert h == [h[0]] + h[1..];
    }
  }

  lemma {:induction false} DistinctElems<T>(s: seq<T>)
    requires Distinct(s)
    ensures |Elems(s)| == |s|
  {
    if s != [] {
      DistinctElems(s[1..]);
      assert Elems(s) == {s[0]} + Elems(s[1..]);
    }
  }

  lemma TakeCons<T>(a: T, t: seq<T>, n: nat)
    requires n > 0
    ensures Take([a] + t, n) == [a] + Take(t, n - 1)
    ensures Take([a] + t, n)[1..] == Take(t, n - 1)
  {
  }

  /** Taking `f` out of a truncation, or out of what the truncation left off. */
  lemma {:induction false} TakeWithout(r: seq<Fingerprint>, f: Fingerprint, cap: nat)
    requires cap > 0
    ensures f in Take(r, cap) ==> Without(Take(r, cap), f) == Take(Without(r, f), cap - 1)
    ensures f !in Take(r, cap) ==> Take(Without(r, f), cap - 1) == Take(r, cap - 1)
  {
    if r != [] {
      var a, t := r[0], r[1..];
      assert r == [a] + t;
      TakeCons(a, t, cap);
      if a != f && cap > 1 {
        TakeWithout(t, f, cap - 1);
        ConsFacts(a, Take(t, cap - 1));
        TakeCons(a, t, cap - 1);
        TakeCons(a, Without(t, f), cap - 1);
      }
    }
  }

  /** One step of the stack property: truncation commutes with an access. */
  lemma {:induction false} TouchTakes(r: seq<Fingerprint>, f: Fingerprint, cap: nat)
    requires cap > 0
    ensures Touch(Take(r, cap), f, cap) == Take([f] + Without(r, f), cap)
  {
    TakeWithout(r, f, cap);
    assert Take([f] + Without(r, f), cap) == [f] + Take(Without(r, f), cap - 1);
    if f !in Take(r, cap) && |Take(r, cap)| == cap {
      assert Take(r, cap)[..cap - 1] == Take(r, cap - 1);
      assert ([f] + Take(r, cap))[..cap] == [f] + Take(r, cap)[..cap - 1];
    }
  }

  /**
    The stack property: a cache of any capacity is a prefix of the one
    recency list that does not depend on the capacity.
   */
  lemma {:induction false} CachedIsRecentPrefix(h: seq<Fingerprint>, cap: nat)
    requires cap > 0
    ensures Cached(h, cap) == Take(Recency(h), cap)
  {
    if h != [] {
      CachedIsRecentPrefix(h[1..], cap);
      TouchTakes(Recency(h[1..]), h[0], cap);
    }
  }

  lemma {:induction false} AheadOfWithout(r: seq<Fingerprint>, g: Fingerprint, f: Fingerprint)
    requires Distinct(r) && f in r && g != f
    ensures f in Without(r, g)
    ensures Elems(Ahead(Without(r, g), f)) == Elems(Ahead(r, f)) - {g}
  {
    var a, t := r[0], r[1..];
    assert r == [a] + t;
    if a == f {
      ConsFacts(f, Without(t, g));
    } else {
      ConsFacts(a, Ahead(t, f));
      if a != g {
        AheadOfWithout(t, g, f);
        ConsFacts(a, Without(t, g));
        ConsFacts(a, Ahead(Without(t, g), f));
      }
    }
  }

  /** What stands before `f` in the recency list is what came after `f`. */
  lemma {:induction false} AheadIsSince(h: seq<Fingerprint>, f: Fingerprint)
    requires f in h
    ensures f in Recency(h) && Elems(Ahead(Recency(h), f)) == Since(h, f)
  {
    RecencyDistinct(h);
    if h[0] != f {
      var r := Recency(h[1..]);
      RecencyDistinct(h[1..]);
      AheadIsSince(h[1..], f);
      AheadOfWithout(r, h[0], f);
      ConsFacts(h[0], Without(r, h[0]));
      ConsFacts(h[0], Ahead(Without(r, h[0]), f));
      ConsFacts(h[0], Ahead(h[1..], f));
    }
  }

  lemma {:induction false} InTakeByAhead(r: seq<Fingerprint>, f: Fingerprint, cap: nat)
    requires Distinct(r) && f in r
    ensures f in Take(r, cap) <==> |Ahead(r, f)| < cap
    ensures Distinct(Ahead(r, f))
  {
    if r[0] != f {
      InTakeByAhead(r[1..], f, if cap == 0 then 0 else cap - 1);
      ConsFacts(r[0], Ahead(r[1..], f));
      if cap > 0 {
        assert Take(r, cap) == [r[0]] + Take(r[1..], cap - 1);
      }
    }
  }

  /**
    Main theorem: the cache list holds `f` exactly when the access history
    says `f` is remembered.
   */
  lemma HitExactlyWhenRemembered(h: seq<Fingerprint>, f: Fingerprint, cap: nat)
    requires cap > 0
    ensures f in Cached(h, cap) <==> Remembered(h, f, cap)
  {
    CachedIsRecentPrefix(h, cap);
    RecencyDistinct(h);
    if f in h {
      AheadIsSince(h, f);
      InTakeByAhead(Recency(h), f, cap);
      DistinctElems(Ahead(Recency(h), f));
    }
  }

  /** Inclusion: a larger cache holds, in the same order, all a smaller one holds. */
  lemma LargerCacheExtendsSmaller(h: seq<Fingerprint>, cap: nat, cap': nat)
    requires 0 < cap <= cap'
    ensures Cached(h, cap) <= Cached(h, cap')
  {
    CachedIsRecentPrefix(h, cap);
    CachedIsRecentPrefix(h, cap');
  }

  /** So on one history no capacity increase can lose a hit. */
  lemma {:induction false} HitsGrowWithCapacity(h: seq<Fingerprint>, cap: nat, cap': nat)
    requires 0 < cap <= cap'
    ensures Hits(h, cap) <= Hits(h, cap')
  {
    if h != [] {
      HitsGrowWithCapacity(h[1..], cap, cap');
      LargerCacheExtendsSmaller(h[1..], cap, cap');
    }
  }
}

/** The LRU cache object: a map of entries and a linked list, kept in step. */
module LruCache {
  import opened Common
  import opened LruSpec

  /** An element of container/list; identity matters, so it is an object. */
  class Element {
    const value: Fingerprint

    constructor (value: Fingerprint)
      ensures this.value == value
    {
      this.value := value;
    }
  }

  datatype Entry = Entry(fingerprint: Fingerprint, timestamp: int, element: Element)

  datatype CacheStats = CacheStats(size: nat, capacity: nat, hits: nat, misses: nat, evictions: nat, hitRate: real)

  /** Stats' hit rate: the share of hits, and zero before any access. */
  function HitRate(hits: nat, total: nat): (r: real)
    requires hits <= total
    ensures 0.0 <= r <= 1.0 && r * total as real == hits as real
    ensures total == 0 ==> r == 0.0
  {
    if total > 0 then hits as real / total as real else 0.0
  }

  /** The strings stored in a list, front first. */
  function Values(list: seq<Element>): (r: seq<Fingerprint>)
    ensures |r| == |list| && forall i :: 0 <= i < |r| ==> r[i] == list[i].value
  {
    seq(|list|, i requires 0 <= i < |list| => list[i].value)
  }

  /** The map and the list describe the same entries, by identity. */
  ghost predicate Linked(data: map<Fingerprint, Entry>, lru: seq<Element>) {
    Distinct(Values(lru)) && Paired(data, lru)
  }

  /** Every entry's element is in the list under the entry's key, and the other way round. */
  ghost predicate Paired(data: map<Fingerprint, Entry>, lru: seq<Element>) {
    && (forall f :: f in data ==> data[f].element in lru && data[f].element.value == f)
    && (forall e :: e in lru ==> e.value in data && data[e.value].element == e)
  }

  lemma LinkedKeys(data: map<Fingerprint, Entry>, lru: seq<Element>)
    requires Linked(data, lru)
    ensures forall f :: f in data <==> f in Values(lru)
    ensures |data| == |lru|
  {
    forall e | e in lru ensures e.value in Values(lru) {
      var i :| 0 <= i < |lru| && lru[i] == e;
      assert Values(lru)[i] == e.value;
    }
    DistinctElems(Values(lru));
    assert data.Keys == Elems(Values(lru));
  }

  /** A fingerprint has an entry exactly if it is in the list, at the entry's element. */
  lemma Lookup(data: map<Fingerprint, Entry>, lru: seq<Element>, f: Fingerprint)
    requires Linked(data, lru)
    ensures f in data <==> f in Values(lru)
    ensures f in data ==> data[f].element in lru && data[f].element.value == f
  {
    LinkedKeys(data, lru);
  }

  /** The list and the counters are those of the history. */
  ghost predicate Accounts(h: seq<Fingerprint>, cap: nat, order: seq<Fingerprint>,
                           hits: nat, misses: nat, evictions: nat)
  {
    && order == Cached(h, cap)
    && hits == Hits(h, cap)
    && hits + misses == |h|
    && misses == evictions + |order|
    && |order| <= cap
  }

  lemma AccountsOrder(h: seq<Fingerprint>, cap: nat, order: seq<Fingerprint>, hits: nat, misses: nat, evictions: nat)
    requires Accounts(h, cap, order, hits, misses, evictions)
    ensures order == Cached(h, cap) && |order| <= cap
  {
  }

  /** One access moves the counters so. */
  lemma AccountsTouch(h: seq<Fingerprint>, f: Fingerprint, cap: nat, order: seq<Fingerprint>,
                      hits: nat, misses: nat, evictions: nat)
    requires Accounts(h, cap, order, hits, misses, evictions) && cap > 0
    ensures f in order ==> Accounts([f] + h, cap, Touch(order, f, cap), hits + 1, misses, evictions)
    ensures f !in order ==>
              Accounts([f] + h, cap, Touch(order, f, cap), hits, misses + 1, evictions + if |order| < cap then 0 else 1)
  {
    ConsFacts(f, h);
    WithoutLength(order, f);
  }

  lemma {:induction false} WithoutLength<T>(s: seq<T>, x: T)
    ensures |Without(s, x)| == if x in s then |s| - 1 else |s|
  {
    if s != [] && s[0] != x {
      WithoutLength(s[1..], x);
    }
  }

  /** The list after MoveToFront of its element at `i`. */
  function Moved(lru: seq<Element>, i: nat): (r: seq<Element>)
    requires i < |lru|
    ensures |r| == |lru|
  {
    [lru[i]] + (lru[..i] + lru[i + 1..])
  }

  lemma {:induction false} WithoutAt<T>(s: seq<T>, i: nat)
    requires Distinct(s) && i < |s|
    ensures Without(s, s[i]) == s[..i] + s[i + 1..]
  {
    if i > 0 {
      WithoutAt(s[1..], i - 1);
    }
  }

  lemma ValuesMoved(lru: seq<Element>, i: nat)
    requires i < |lru|
    ensures var v := Values(lru); Values(Moved(lru, i)) == [v[i]] + (v[..i] + v[i + 1..])
  {
  }

  lemma MovedValues(lru: seq<Element>, i: nat)
    requires i < |lru| && Distinct(Values(lru))
    ensures Values(Moved(lru, i)) == [lru[i].value] + Without(Values(lru), lru[i].value)
    ensures Distinct(Values(Moved(lru, i)))
  {
    var v := Values(lru);
    ValuesMoved(lru, i);
    hide Values, Moved;
    WithoutAt(v, i);
    WithoutDistinct(v, v[i]);
    ConsFacts(v[i], Without(v, v[i]));
  }

  lemma MovedLinked(data: map<Fingerprint, Entry>, lru: seq<Element>, i: nat)
    requires Linked(data, lru) && i < |lru|
    ensures Linked(data, Moved(lru, i))
  {
    MovedValues(lru, i);
    assert lru == lru[..i] + [lru[i]] + lru[i + 1..];
    assert forall x :: x in Moved(lru, i) <==> x in lru;
  }

  lemma PushedPaired(data: map<Fingerprint, Entry>, lru: seq<Element>, entry: Entry)
    requires Paired(data, lru) && entry.element.value !in data
    ensures Paired(data[entry.element.value := entry], [entry.element] + lru)
  {
    var data', lru' := data[entry.element.value := entry], [entry.element] + lru;
    assert forall e :: e in lru' <==> e == entry.element || e in lru;
    assert entry.element !in lru;
  }

  lemma PushedValues(lru: seq<Element>, e: Element)
    requires Distinct(Values(lru)) && e.value !in Values(lru)
    ensures Values([e] + lru) == [e.value] + Values(lru) && Distinct(Values([e] + lru))
  {
    assert Values([e] + lru) == [e.value] + Values(lru);
    ConsFacts(e.value, Values(lru));
  }

  lemma PushedLinked(data: map<Fingerprint, Entry>, lru: seq<Element>, entry: Entry)
    requires Linked(data, lru) && entry.element.value !in data
    ensures Linked(data[entry.element.value := entry], [entry.element] + lru)
    ensures Values([entry.element] + lru) == [entry.element.value] + Values(lru)
  {
    LinkedKeys(data, lru);
    hide Paired, Distinct;
    PushedPaired(data, lru, entry);
    PushedValues(lru, entry.element);
  }

  lemma {:induction false} DistinctInit<T>(s: seq<T>)
    requires Distinct(s) && s != []
    ensures Distinct(s[..|s| - 1]) && s[|s| - 1] !in s[..|s| - 1]
  {
    if |s| > 1 {
      DistinctInit(s[1..]);
      assert s[..|s| - 1] == [s[0]] + s[1..][..|s| - 2];
    }
  }

  lemma EvictedPaired(data: map<Fingerprint, Entry>, init: seq<Element>, back: Element)
    requires Paired(data, init + [back]) && forall e :: e in init ==> e.value != back.value
    ensures Paired(data - {back.value}, init)
  {
    assert forall e :: e in init + [back] <==> e in init || e == back;
  }

  lemma EvictedValues(lru: seq<Element>)
    requires Distinct(Values(lru)) && lru != []
    ensures var n := |lru| - 1;
            && Values(lru[..n]) == Values(lru)[..n] && Distinct(Values(lru[..n]))
            && forall e :: e in lru[..n] ==> e.value != lru[n].value
  {
    var n := |lru| - 1;
    DistinctInit(Values(lru));
    assert Values(lru[..n]) == Values(lru)[..n];
    forall e | e in lru[..n] ensures e.value != lru[n].value {
      var k :| 0 <= k < n && lru[k] == e;
      assert Values(lru)[..n][k] == e.value;
    }
  }

  lemma EvictedLinked(data: map<Fingerprint, Entry>, lru: seq<Element>)
    requires Linked(data, lru) && lru != []
    ensures Linked(data - {lru[|lru| - 1].value}, lru[..|lru| - 1])
    ensures Values(lru[..|lru| - 1]) == Values(lru)[..|lru| - 1]
  {
    hide Paired, Distinct, Values;
    var n := |lru| - 1;
    EvictedValues(lru);
    assert lru == lru[..n] + [lru[n]];
    EvictedPaired(data, lru[..n], lru[n]);
  }

  class Cache {
    const maxSize: nat
    var data: map<Fingerprint, Entry>
    var lru: seq<Element>
    var hits: nat
    var misses: nat
    var evictions: nat
    ghost var history: seq<Fingerprint>  // accesses since creation or Clear, newest first

    ghost predicate Valid()
      reads this
    {
      && maxSize > 0
      && Linked(data, lru)
      && Accounts(history, maxSize, Values(lru), hits, misses, evictions)
    }

    constructor (maxSize: int)
      ensures Valid() && history == []
      ensures this.maxSize == if maxSize <= 0 then 10000 else maxSize
      ensures hits == misses == evictions == 0
    {
      this.maxSize := if maxSize <= 0 then 10000 else maxSize;
      data, lru := map[], [];
      hits, misses, evictions := 0, 0, 0;
      history := [];
    }

    /**
      Answers whether the fingerprint is a duplicate, and stores it. The
      answer is the history-based definition, not a statement about fields.
     */
    method CheckAndStore(fingerprint: Fingerprint, now: int) returns (duplicate: bool)
      requires Valid()
      modifies this
      ensures Valid()
      ensures history == [fingerprint] + old(history)
      ensures duplicate <==> Remembered(old(history), fingerprint, maxSize)
    {
      HitExactlyWhenRemembered(history, fingerprint, maxSize);
      Lookup(data, lru, fingerprint);
      AccountsOrder(history, maxSize, Values(lru), hits, misses, evictions);
      hide Valid, Linked, Accounts, Remembered, Cached, Values;
      if fingerprint in data {
        Renew(fingerprint);
        return true;
      }
      Insert(fingerprint, now);
      return false;
    }

    /** The hit branch. */
    method Renew(fingerprint: Fingerprint)
      requires Valid() && fingerprint in data
      modifies this
      ensures Valid() && history == [fingerprint] + old(history)
    {
      hide Linked, Accounts, Without, Values, Touch;
      Lookup(data, lru, fingerprint);
      AccountsTouch(history, fingerprint, maxSize, Values(lru), hits, misses, evictions);
      history := [fingerprint] + history;
      hits := hits + 1;
      MoveToFront(data[fingerprint].element);
    }

    /** The miss branch. */
    method Insert(fingerprint: Fingerprint, now: int)
      requires Valid() && fingerprint !in data
      modifies this
      ensures Valid() && history == [fingerprint] + old(history)
    {
      hide Linked, Accounts, Values, Touch;
      Lookup(data, lru, fingerprint);
      AccountsOrder(history, maxSize, Values(lru), hits, misses, evictions);
      AccountsTouch(history, fingerprint, maxSize, Values(lru), hits, misses, evictions);
      history := [fingerprint] + history;
      misses := misses + 1;
      Store(fingerprint, now);
    }

    /** Pushes a new fingerprint and keeps the list within bounds. */
    method Store(fingerprint: Fingerprint, now: int)
      requires Linked(data, lru) && fingerprint !in data && |lru| <= maxSize
      modifies this`lru, this`data, this`evictions
      ensures Linked(data, lru)
      ensures Values(lru) == Touch(old(Values(lru)), fingerprint, maxSize)
      ensures evictions == old(evictions) + if |old(Values(lru))| < maxSize then 0 else 1
    {
      Lookup(data, lru, fingerprint);
      hide Linked, Distinct;
      PushFront(fingerprint, now);
      if |lru| > maxSize {
        EvictLRU();
      }
    }

    /** container/list MoveToFront, by element identity. */
    method MoveToFront(e: Element)
      requires Linked(data, lru) && e in lru
      modifies this`lru
      ensures Linked(data, lru) && |lru| == |old(lru)|
      ensures Values(lru) == [e.value] + Without(old(Values(lru)), e.value)
      ensures Values(lru) == Touch(old(Values(lru)), e.value, maxSize)
    {
      assert e.value in Values(lru) by {
        LinkedKeys(data, lru);
      }
      var i :| 0 <= i < |lru| && lru[i] == e;
      MovedValues(lru, i);
      MovedLinked(data, lru, i);
      lru := Moved(lru, i);
    }

    /** Stores a new fingerprint at the front. */
    method PushFront(fingerprint: Fingerprint, now: int)
      requires Linked(data, lru) && fingerprint !in data
      modifies this`lru, this`data
      ensures Linked(data, lru)
      ensures Values(lru) == [fingerprint] + old(Values(lru))
    {
      var elem := new Element(fingerprint);
      var entry := Entry(fingerprint, now, elem);
      PushedLinked(data, lru, entry);
      lru := [elem] + lru;
      data := data[fingerprint := entry];
    }

    /** Drops the back element and its map entry. */
    method EvictLRU()
      requires Linked(data, lru) && lru != []
      modifies this`lru, this`data, this`evictions
      ensures Linked(data, lru)
      ensures lru == old(lru)[..|old(lru)| - 1]
      ensures Values(lru) == old(Values(lru))[..|old(lru)| - 1]
      ensures evictions == old(evictions) + 1
    {
      var n := |lru| - 1;
      var back := lru[n];
      EvictedLinked(data, lru);
      lru := lru[..n];
      data := data - {back.value};
      evictions := evictions + 1;
    }

    /** Size, capacity and counters; the balance holds at every call. */
    method Stats() returns (s: CacheStats)
      requires Valid()
      ensures s.size == |data| == |Cached(history, maxSize)|
      ensures s.misses - s.evictions == s.size <= s.capacity == maxSize
      ensures s.hits + s.misses == |history| && s.hits == Hits(history, maxSize)
      ensures s.hitRate == HitRate(s.hits, |history|) && (history == [] ==> s.hitRate == 0.0)
    {
      LinkedKeys(data, lru);
      var total := hits + misses;
      var hitRate := HitRate(hits, total);
      s := CacheStats(|data|, maxSize, hits, misses, evictions, hitRate);
    }

    method Clear()
      requires Valid()
      modifies this
      ensures Valid() && history == [] && data == map[] && lru == []
      ensures hits == misses == evictions == 0
    {
      data, lru := map[], [];
      hits, misses, evictions := 0, 0, 0;
      history := [];
    }
  }
}
