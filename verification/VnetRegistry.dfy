/**
  In-place normalisation of an identifier list (sortDedupPeers and
  sortDedupAclGroups): sort, then collapse runs with a write pointer.
 */
module SortDedup {
  import opened Common
  import opened Ordering

  /** sort.Slice with the string order, by its specification. */
  method SortSlice(a: array<Text>)
    modifies a
    ensures a[..] == Sort(old(a[..]))
  {
    var s := Sort(a[..]);
    SortSorts(a[..]);
    forall i | 0 <= i < a.Length {
      a[i] := s[i];
    }
  }

  lemma SortedStep(s: seq<Text>, i: nat)
    requires Sorted(s) && 0 < i < |s|
    ensures Elems(s[..i + 1]) == Elems(s[..i]) + {s[i]}
    ensures forall x :: x in s[..i] ==> Le(x, s[i - 1])
    ensures Le(s[i - 1], s[i])
    ensures s[i] != s[i - 1] ==> s[i] !in s[..i]
  {
    OrderFacts();
    hide Le;
    assert s[..i + 1] == s[..i] + [s[i]];
  }

  /** Appending a new greatest element keeps a list strictly increasing. */
  lemma StrictSnoc(s: seq<Text>, x: Text)
    requires Strict(s) && (forall y :: y in s ==> Le(y, x) && y != x)
    ensures Strict(s + [x]) && Elems(s + [x]) == Elems(s) + {x}
  {
  }

  /** One round of the loop, on the kept prefix. */
  lemma KeptStep(kept: seq<Text>, s: seq<Text>, i: nat)
    requires Sorted(s) && 0 < i < |s| && Strict(kept) && Elems(kept) == Elems(s[..i])
    ensures if s[i] != s[i - 1]
            then Strict(kept + [s[i]]) && Elems(kept + [s[i]]) == Elems(s[..i + 1])
            else Elems(kept) == Elems(s[..i + 1])
  {
    SortedStep(s, i);
    if s[i] != s[i - 1] {
      OrderFacts();
      hide Le;
      forall y | y in kept ensures Le(y, s[i]) && y != s[i] {
        assert y in Elems(s[..i]);
      }
      StrictSnoc(kept, s[i]);
    } else {
      assert s[i - 1] in s[..i] by {
        assert s[..i][i - 1] == s[i - 1];
      }
    }
  }

  /**
    The write-pointer loop. It compares against cells it may already have
    overwritten; the invariant is that the cells it still compares are intact.
   */
  method DedupSorted(a: array<Text>) returns (w: nat)
    requires a.Length > 1 && Sorted(a[..])
    modifies a
    ensures w <= a.Length
    ensures Strict(a[..w]) && Elems(a[..w]) == Elems(old(a[..]))
  {
    ghost var s := a[..];
    w := 1;
    var i := 1;
    assert s[..1] == [s[0]] && a[..1] == [s[0]];
    while i < a.Length
      invariant 1 <= w <= i <= a.Length
      invariant forall k :: i - 1 <= k < a.Length ==> a[k] == s[k]
      invariant Strict(a[..w]) && Elems(a[..w]) == Elems(s[..i])
    {
      hide Strict, Elems, Sorted;
      KeptStep(a[..w], s, i);
      if a[i] != a[i - 1] {
        ghost var kept := a[..w];
        a[w] := a[i];
        assert a[..w + 1] == kept + [s[i]];
        w := w + 1;
      }
      i := i + 1;
    }
    assert s[..i] == s;
  }

  /**
    The whole routine: the kept prefix is strictly increasing and has exactly
    the elements of the input.
   */
  method Normalise(a: array<Text>) returns (w: nat)
    modifies a
    ensures w <= a.Length
    ensures Strict(a[..w]) && Elems(a[..w]) == Elems(old(a[..]))
  {
    if a.Length <= 1 {
      assert a[..a.Length] == a[..];
      return a.Length;
    }
    SortSorts(a[..]);
    SortSlice(a);
    SameElems(a[..], old(a[..]));
    w := DedupSorted(a);
  }

  lemma SameElems(s: seq<Text>, t: seq<Text>)
    requires multiset(s) == multiset(t)
    ensures Elems(s) == Elems(t)
  {
    forall x ensures x in s <==> x in t {
      assert x in s <==> x in multiset(s);
      assert x in t <==> x in multiset(t);
    }
  }

  /**
    The normal form is canonical: what Normalise may leave for one input it
    must leave for every input with the same elements, itself included.
   */
  lemma NormalFormCanonical(p: seq<Text>, q: seq<Text>)
    requires Strict(p) && Strict(q) && Elems(p) == Elems(q)
    ensures p == q
  {
    forall x ensures x in p <==> x in q {
      assert x in p <==> x in Elems(p);
      assert x in q <==> x in Elems(q);
    }
    StrictUnique(p, q);
  }

  /** The normal form as a function: the elements inserted in order, each once. */
  function NormalList(s: seq<Text>): (r: seq<Text>) {
    if s == [] then []
    else if s[0] in NormalList(s[1..]) then NormalList(s[1..])
    else Insert(s[0], NormalList(s[1..]))
  }

  lemma {:induction false} NormalListNormal(s: seq<Text>)
    ensures Strict(NormalList(s)) && Elems(NormalList(s)) == Elems(s)
  {
    if s != [] {
      NormalListNormal(s[1..]);
      assert Elems(s) == {s[0]} + Elems(s[1..]);
      var r := NormalList(s[1..]);
      if s[0] in r {
        assert s[0] in Elems(r);
      } else {
        InsertStrict(s[0], r);
      }
    }
  }

  lemma {:induction false} InsertStrict(x: Text, s: seq<Text>)
    requires Strict(s) && x !in s
    ensures Strict(Insert(x, s)) && Elems(Insert(x, s)) == Elems(s) + {x}
  {
    OrderFacts();
    hide Le;
    if s != [] && !Le(x, s[0]) {
      InsertStrict(x, s[1..]);
      var r := Insert(x, s[1..]);
      assert Elems(s) == {s[0]} + Elems(s[1..]);
      assert Elems([s[0]] + r) == {s[0]} + Elems(r);
      forall j | 0 <= j < |r| ensures Le(s[0], r[j]) && s[0] != r[j] {
        assert r[j] in Elems(r);
        assert r[j] == x || r[j] in s[1..];
      }
    } else {
      assert Elems([x] + s) == {x} + Elems(s);
    }
  }
}

/**
  The typed VNET registry (registry/vnet/vnet.go) on the heap. It stores
  private copies, so the question is ownership: `repr` are the objects its
  stored states consist of. They are allocated by the registry, and no call
  takes one in from a caller or hands one out.
 */
module VnetRegistry {
  import opened Common
  import opened Ordering
  import opened RegistrySpec
  import opened RegistryObject
  import opened SortDedup

  /** The value of a VnetState object; `peers` is None for a nil slice. */
  datatype Vnet = Vnet(id: Text, vni: nat, peers: Option<seq<Text>>, revision: int, updated: int)

  /** types.ValidateID: 1 to 256 characters, no white space or NUL. */
  predicate ValidID(t: Text) {
    && 0 < |t.s| <= 256
    && forall i :: 0 <= i < |t.s| ==> t.s[i] !in [' ', '\t', '\n', '\r', '\0']
  }

  /** ValidateID, check by check; the result is spelled out in the string's own terms. */
  method ValidateID(t: Text) returns (ok: bool)
    ensures ok == ValidID(t)
    ensures ok <==> 1 <= |t.s| <= 256 && ' ' !in t.s && '\t' !in t.s && '\n' !in t.s && '\r' !in t.s && '\0' !in t.s
  {
    if |t.s| == 0 {
      return false;
    }
    if |t.s| > 256 {
      return false;
    }
    for i := 0 to |t.s|
      invariant forall k :: 0 <= k < i ==> t.s[k] !in [' ', '\t', '\n', '\r', '\0']
    {
      if t.s[i] == ' ' || t.s[i] == '\t' || t.s[i] == '\n' || t.s[i] == '\r' || t.s[i] == '\0' {
        return false;
      }
    }
    return true;
  }

  predicate ValidPeer(id: Text, p: Text) {
    ValidID(p) && p != id
  }

  predicate ValidVnet(v: Vnet) {
    && ValidID(v.id) && v.vni != 0
    && (v.peers.Some? ==> forall i :: 0 <= i < |v.peers.value| ==> ValidPeer(v.id, v.peers.value[i]))
  }

  /** Canonical list form: strictly increasing peers. */
  ghost predicate Canonical(v: Vnet) {
    v.peers.Some? ==> Strict(v.peers.value)
  }

  /** `n` is `v` with its peers in canonical form. */
  ghost predicate Normalises(v: Vnet, n: Vnet) {
    && n == v.(peers := n.peers) && Canonical(n)
    && (v.peers.Some? <==> n.peers.Some?)
    && (v.peers.Some? ==> Elems(v.peers.value) == Elems(n.peers.value))
  }

  /** What is stored depends on the peers only as a set, and normalising again changes nothing. */
  lemma StoredFormUnique(v: Vnet, v': Vnet, n: Vnet, n': Vnet)
    requires Normalises(v, n) && Normalises(v', n')
    requires v'.(peers := None) == v.(peers := None) && (v.peers.Some? <==> v'.peers.Some?)
    requires v.peers.Some? ==> Elems(v.peers.value) == Elems(v'.peers.value)
    ensures n == n' && Normalises(n, n)
  {
    if n.peers.Some? {
      NormalFormCanonical(n.peers.value, n'.peers.value);
    }
  }

  /** The form a state is stored in. */
  function NormalForm(v: Vnet): (n: Vnet) {
    v.(peers := if v.peers.None? then None else Some(NormalList(v.peers.value)))
  }

  /** It is the only normalised form there is. */
  lemma NormalFormOnly(v: Vnet, n: Vnet)
    ensures Normalises(v, n) <==> n == NormalForm(v)
  {
    if v.peers.Some? {
      NormalListNormal(v.peers.value);
      if Normalises(v, n) {
        NormalFormCanonical(n.peers.value, NormalList(v.peers.value));
      }
    }
  }

  lemma NormalisedValid(v: Vnet, n: Vnet)
    requires ValidVnet(v) && Normalises(v, n)
    ensures ValidVnet(n)
  {
    hide ValidID;
    if n.peers.Some? {
      var p, q := v.peers.value, n.peers.value;
      forall i | 0 <= i < |q| ensures ValidPeer(n.id, q[i]) {
        assert q[i] in Elems(q);
        assert q[i] in p;
      }
    }
  }

  /** A VnetState object: a record holding a slice (array and length). */
  class VnetState {
    var id: Text
    var vni: nat
    var peers: array?<Text>
    var len: nat
    var revision: int
    var updated: int

    constructor (id: Text, vni: nat, peers: array?<Text>, len: nat, revision: int, updated: int)
      requires if peers == null then len == 0 else len <= peers.Length
      ensures this.id == id && this.vni == vni && this.peers == peers && this.len == len
      ensures this.revision == revision && this.updated == updated
    {
      this.id, this.vni, this.peers, this.len := id, vni, peers, len;
      this.revision, this.updated := revision, updated;
    }

    ghost predicate WellFormed()
      reads this
    {
      if peers == null then len == 0 else len <= peers.Length
    }

    ghost function Value(): (v: Vnet)
      requires WellFormed()
      reads this, peers
    {
      Vnet(id, vni, if peers == null then None else Some(peers[..len]), revision, updated)
    }

    /** The objects the state consists of. */
    ghost function Parts(): (r: set<object>)
      reads this
    {
      {this} + if peers == null then {} else {peers}
    }

    /** A deep copy: equal value, nothing in common. */
    method Clone() returns (out: VnetState)
      requires WellFormed()
      ensures out.WellFormed() && out.Value() == Value()
      ensures fresh(out.Parts())
      ensures out.peers != null ==> out.len == out.peers.Length
    {
      var copy: array?<Text> := null;
      if peers != null {
        copy := new Text[len](i requires 0 <= i < len && peers != null && len <= peers.Length reads this, peers => peers[i]);
        assert copy[..len] == peers[..len];
      }
      out := new VnetState(id, vni, copy, len, revision, updated);
    }

    /** validate, in the order of the source's checks. */
    method Validate() returns (ok: bool)
      requires WellFormed()
      ensures ok <==> ValidVnet(Value())
      ensures ok <==> ValidID(id) && vni != 0
                      && (peers != null ==> forall i :: 0 <= i < len ==> ValidID(peers[i]) && peers[i] != id)
    {
      hide ValidID;
      var valid := ValidateID(id);
      if !valid || vni == 0 {
        return false;
      }
      if peers != null {
        var i := 0;
        while i < len
          invariant 0 <= i <= len
          invariant forall k :: 0 <= k < i ==> ValidPeer(id, peers[k])
        {
          valid := ValidateID(peers[i]);
          if !valid || peers[i] == id {
            assert !ValidPeer(id, Value().peers.value[i]);
            return false;
          }
          i := i + 1;
        }
      }
      return true;
    }
  }

  /** sortDedupPeers on a state whose slice is its whole array. */
  method SortDedupPeers(s: VnetState)
    requires s.WellFormed() && (s.peers != null ==> s.len == s.peers.Length)
    modifies s`len, s.peers
    ensures s.WellFormed() && s.peers == old(s.peers)
    ensures Normalises(old(s.Value()), s.Value())
  {
    if s.peers != null {
      assert s.peers[..s.len] == s.peers[..];
      s.len := Normalise(s.peers);
    }
  }

  /** The object has value `v`, in a list without spare room. */
  ghost predicate IsCopy(s: VnetState, v: Vnet)
    reads s, s.peers
  {
    s.WellFormed() && s.Value() == v && (s.peers != null ==> s.len == s.peers.Length)
  }

  /** A stored state is filed under its own identifier, valid and canonical. */
  ghost predicate Stored(k: Text, v: VnetState)
    reads v, v.peers
  {
    && v.WellFormed()
    && v.Value().id == k && ValidVnet(v.Value()) && Canonical(v.Value())
  }

  lemma StoredAlone(v: VnetState)
    requires v.WellFormed() && ValidVnet(v.Value()) && Canonical(v.Value())
    ensures Stored(v.id, v)
  {
  }

  /** The states that entries with a value hold. */
  ghost function Present(entries: map<Text, Entry<VnetState>>): (m: map<Text, VnetState>) {
    map k | k in entries && entries[k].value.Some? :: entries[k].value.value
  }

  lemma PresentAdd(s: State<Text, VnetState>, k: Text, v: VnetState)
    ensures Present(DoAdd(s, k, v).entries) == Present(s.entries)[k := v]
  {
  }

  lemma PresentAcquire(s: State<Text, VnetState>, k: Text)
    ensures Present(DoAcquire(s, k).entries) == Present(s.entries)
  {
  }

  lemma PresentRelease(s: State<Text, VnetState>, k: Text)
    ensures Present(DoRelease(s, k).entries)
            == Present(s.entries) - if RegistrySpec.Refcount(s, k) == 1 then {k} else {}
  {
  }

  /** Every state is owned, filed correctly, valid and canonical. */
  ghost predicate AllStored(m: map<Text, VnetState>, repr: set<object>)
    reads repr
  {
    forall k :: k in m ==>
      m[k] in repr && (m[k].peers != null ==> m[k].peers in repr) && Stored(k, m[k])
  }

  ghost function ValuesOf(m: map<Text, VnetState>, repr: set<object>): (vs: map<Text, Vnet>)
    requires AllStored(m, repr)
    reads repr
  {
    map k | k in m :: m[k].Value()
  }

  lemma OneMoreStored(m: map<Text, VnetState>, repr: set<object>, v: VnetState)
    requires AllStored(m, repr) && v.WellFormed() && Stored(v.id, v)
    ensures AllStored(m[v.id := v], repr + v.Parts())
    ensures ValuesOf(m[v.id := v], repr + v.Parts()) == ValuesOf(m, repr)[v.id := v.Value()]
  {
    hide Stored;
  }

  lemma FewerStored(m: map<Text, VnetState>, repr: set<object>, gone: set<Text>)
    requires AllStored(m, repr)
    ensures AllStored(m - gone, repr) && ValuesOf(m - gone, repr) == ValuesOf(m, repr) - gone
  {
    hide Stored;
  }

  class Vnets {
    const inner: Registry<Text, VnetState>
    ghost var repr: set<object>  // everything the stored states consist of

    ghost predicate Valid()
      reads this, inner, repr
    {
      inner.Valid() && inner !in repr && this !in repr && AllStored(Present(inner.entries), repr)
    }

    /** What Get returns, for every key. */
    ghost function Contents(): (m: map<Text, Vnet>)
      requires Valid()
      reads this, inner, repr
    {
      ValuesOf(Present(inner.entries), repr)
    }

    constructor ()
      ensures Valid() && fresh(inner) && repr == {} && Contents() == map[]
      ensures forall v :: RefsOf(v) == 0
    {
      inner := new Registry<Text, VnetState>("vnet");
      repr := {};
    }

    /**
      Stores a normalised private copy, or fails on an invalid state and stores
      nothing. What becomes owned is newly allocated, so no object the caller
      passed in, now or earlier, is ever owned.
     */
    method Add(state: VnetState?) returns (ok: bool)
      requires Valid()
      requires state != null ==> state.WellFormed()
      modifies this`repr, inner
      ensures Valid() && old(repr) <= repr && fresh(repr - old(repr))
      ensures ok <==> state != null && ValidVnet(state.Value())
      ensures !ok ==> repr == old(repr) && Contents() == old(Contents())
      ensures ok ==> Contents() == old(Contents())[state.id := NormalForm(state.Value())]
      ensures forall v :: RefsOf(v) == old(RefsOf(v))
    {
      hide NormalForm, Stored, ValidVnet, Canonical, Strict, Elems, Wired, After, AllStored, ValuesOf, Present;
      if state == null {
        return false;
      }
      ok := state.Validate();
      if !ok {
        return;
      }
      var stored := state.Clone();
      SortDedupPeers(stored);
      NormalisedValid(state.Value(), stored.Value());
      NormalFormOnly(state.Value(), stored.Value());
      StoredAlone(stored);
      assert Contents() == old(Contents());
      ghost var n := stored.Value();
      Put(stored);
      assert Contents() == old(Contents())[state.id := n];
    }

    /** Files an owned state under its identifier. */
    method Put(stored: VnetState)
      requires Valid() && stored.Parts() !! repr
      requires stored.WellFormed() && Stored(stored.id, stored)
      modifies this`repr, inner
      ensures Valid() && repr == old(repr) + stored.Parts()
      ensures Contents() == old(Contents())[stored.id := stored.Value()]
      ensures forall v :: RefsOf(v) == old(RefsOf(v))
    {
      hide Wired, After, Stored, AllStored, ValuesOf, Present, DoAdd, RegistrySpec.Refcount;
      ghost var was, m := State(inner.entries, inner.closed), Present(inner.entries);
      PresentAdd(was, stored.id, stored);
      OneMoreStored(m, repr, stored);
      inner.Add(stored.id, stored);
      repr := repr + stored.Parts();
      forall v ensures RefsOf(v) == RegistrySpec.Refcount(was, v) {
        AddRefs(was, stored.id, stored, v);
      }
    }

    /** A fresh copy of what is stored; nothing owned is handed out. */
    method Get(vid: Text) returns (r: VnetState?)
      requires Valid()
      ensures r != null <==> vid in Contents()
      ensures r != null ==> fresh(r.Parts()) && r.Parts() !! repr
      ensures r != null ==> IsCopy(r, Contents()[vid])
    {
      hide Wired, After, LastAdded, ValidVnet, Canonical;
      var v := inner.Get(vid);
      if v.None? {
        return null;
      }
      assert vid in Present(inner.entries) && Present(inner.entries)[vid] == v.value;
      r := v.value.Clone();
    }

    /** Fresh copies of everything that is stored, no two of them sharing anything. */
    method Snapshot() returns (out: map<Text, VnetState>)
      requires Valid()
      ensures out.Keys == Contents().Keys
      ensures forall k :: k in out ==> fresh(out[k].Parts())
      ensures forall k :: k in out ==> IsCopy(out[k], Contents()[k])
      ensures forall k, k' :: k in out && k' in out && k != k' ==> out[k].Parts() !! out[k'].Parts()
    {
      hide Contents, Valid, IsCopy;
      out := map[];
      ghost var c, made: set<object> := Contents(), {};
      var rest := Keys();
      while rest != {}
        invariant Valid() && Contents() == c && fresh(made)
        invariant rest <= c.Keys && out.Keys == c.Keys - rest
        invariant forall k :: k in out ==> IsCopy(out[k], c[k]) && out[k].Parts() <= made
        invariant forall k, k' :: k in out && k' in out && k != k' ==> out[k].Parts() !! out[k'].Parts()
        modifies {}
        decreases rest
      {
        var k :| k in rest;
        var copy := CloneAt(k);
        assert copy.Parts() !! made;
        made := made + copy.Parts();
        out := out[k := copy];
        rest := rest - {k};
      }
    }

    method Keys() returns (ks: set<Text>)
      requires Valid()
      ensures ks == Contents().Keys
    {
      ks := set k | k in inner.entries && inner.entries[k].value.Some?;
    }

    method CloneAt(k: Text) returns (copy: VnetState)
      requires Valid() && k in Contents()
      ensures fresh(copy.Parts()) && IsCopy(copy, Contents()[k])
    {
      hide Wired, After, ValidVnet, Canonical;
      copy := inner.entries[k].value.value.Clone();
    }

    /** Acquire and Release pass through; a release may evict, never alter, a state. */
    method Acquire(client: nat, vid: Text) returns (ready: nat)
      requires Valid()
      modifies inner
      ensures Valid() && Contents() == old(Contents())
      ensures inner.history == [RegistrySpec.Acquire(client, vid)] + old(inner.history)
      ensures ready == Returned(old(inner.history), vid)
      ensures forall v :: RefsOf(v) == old(RefsOf(v)) + if v == vid then 1 else 0
    {
      hide Wired, After, AllStored, ValuesOf, Present, DoAcquire, RegistrySpec.Refcount, Returned;
      ghost var was := State(inner.entries, inner.closed);
      PresentAcquire(was, vid);
      ready := inner.Acquire(client, vid);
      forall v ensures RefsOf(v) == RegistrySpec.Refcount(was, v) + if v == vid then 1 else 0 {
        AcquireRefs(was, vid, v);
      }
    }

    method Release(client: nat, vid: Text) returns (ok: bool)
      requires Valid()
      modifies inner
      ensures Valid() && (ok <==> Net(old(inner.history), vid) > 0)
      ensures inner.history == [RegistrySpec.Release(client, vid)] + old(inner.history)
      ensures Contents() == old(Contents()) - if old(RefsOf(vid)) == 1 then {vid} else {}
      ensures forall v :: RefsOf(v) == old(RefsOf(v)) - if v == vid && ok then 1 else 0
      ensures ok <==> old(RefsOf(vid)) > 0
    {
      hide Wired, After, Net, LastAdded, AllStored, ValuesOf, Present, DoRelease, RegistrySpec.Refcount;
      ghost var was, m := State(inner.entries, inner.closed), Present(inner.entries);
      ObservedExactly(inner.history, vid);
      PresentRelease(was, vid);
      FewerStored(m, repr, if RefsOf(vid) == 1 then {vid} else {});
      ok := inner.Release(client, vid);
      forall v ensures RefsOf(v) == RegistrySpec.Refcount(was, v) - if v == vid && ok then 1 else 0 {
        ReleaseRefs(was, vid, v);
      }
    }

    ghost function RefsOf(vid: Text): (n: nat)
      reads inner
    {
      RegistrySpec.Refcount(State(inner.entries, inner.closed), vid)
    }
  }
}
