/**
  A hostile client of the VNET registry, in values only. The client keeps every
  state object it ever made or got back; between calls it overwrites fields and
  list cells and makes objects share lists as it pleases. Here objects, lists
  and the registry's contents are plain values, so nothing a client does to its
  objects can touch the contents: this is what the registry is to look like.
 */
module HostileSpec {
  import opened Common
  import opened Ordering
  import opened VnetRegistry

  datatype Action =
    | Make(id: Text, vni: nat, peers: seq<Text>)
    | Rewrite(i: nat, id: Text, vni: nat, revision: int, updated: int)
    | Poke(i: nat, cell: nat, peer: Text)
    | Reslice(i: nat, len: nat)
    | Share(i: nat, j: nat)
    | DropList(i: nat)
    | AddState(i: nat)
    | GetState(vid: Text)
    | KeepSnapshot(keep: seq<Text>)
    | AcquireState(client: nat, vid: Text)
    | ReleaseState(client: nat, vid: Text)

  /** A client's object; its list, if any, is named by a number, so that objects can share one. */
  datatype Obj = Obj(id: Text, vni: nat, list: Option<nat>, len: nat, revision: int, updated: int)

  datatype Client = Client(objs: seq<Obj>, lists: seq<seq<Text>>)

  datatype World = World(client: Client, contents: map<Text, Vnet>, held: map<Text, nat>)

  const START := World(Client([], []), map[], map[])

  predicate SaneObj(o: Obj, lists: seq<seq<Text>>) {
    if o.list.None? then o.len == 0 else o.list.value < |lists| && o.len <= |lists[o.list.value]|
  }

  /** Every object's list exists and is long enough. */
  ghost predicate Sane(c: Client) {
    forall i :: 0 <= i < |c.objs| ==> SaneObj(c.objs[i], c.lists)
  }

  function ValueOf(o: Obj, lists: seq<seq<Text>>): (v: Vnet)
    requires SaneObj(o, lists)
  {
    Vnet(o.id, o.vni, if o.list.None? then None else Some(lists[o.list.value][..o.len]), o.revision, o.updated)
  }

  /** The client with a new object of value `v`, with a list of its own. */
  function Given(c: Client, v: Vnet): (d: Client)
    requires Sane(c)
    ensures Sane(d)
  {
    if v.peers.None? then c.(objs := c.objs + [Obj(v.id, v.vni, None, 0, v.revision, v.updated)])
    else
      Client(c.objs + [Obj(v.id, v.vni, Some(|c.lists|), |v.peers.value|, v.revision, v.updated)],
             c.lists + [v.peers.value])
  }

  /** The client with the wanted part of the contents, each state once. */
  function GivenAll(c: Client, contents: map<Text, Vnet>, keep: seq<Text>): (d: Client)
    requires Sane(c)
    ensures Sane(d)
    decreases |keep|
  {
    if keep == [] then c
    else if keep[0] !in contents then GivenAll(c, contents, keep[1..])
    else GivenAll(Given(c, contents[keep[0]]), contents - {keep[0]}, keep[1..])
  }

  /** What the client does to its own objects. */
  function Scribbled(c: Client, a: Action): (d: Client)
    requires Sane(c)
    ensures Sane(d)
  {
    match a
    case Make(id, vni, peers) => Given(c, Vnet(id, vni, Some(peers), 0, 0))
    case Rewrite(i, id, vni, revision, updated) =>
      if i >= |c.objs| then c
      else c.(objs := c.objs[i := c.objs[i].(id := id, vni := vni, revision := revision, updated := updated)])
    case Poke(i, cell, peer) =>
      if i >= |c.objs| || c.objs[i].list.None? || cell >= |c.lists[c.objs[i].list.value]| then c
      else
        var k := c.objs[i].list.value;
        c.(lists := c.lists[k := c.lists[k][cell := peer]])
    case Reslice(i, len) =>
      if i >= |c.objs| || c.objs[i].list.None? || len > |c.lists[c.objs[i].list.value]| then c
      else c.(objs := c.objs[i := c.objs[i].(len := len)])
    case Share(i, j) =>
      if i >= |c.objs| || j >= |c.objs| then c
      else c.(objs := c.objs[i := c.objs[i].(list := c.objs[j].list, len := c.objs[j].len)])
    case DropList(i) =>
      if i >= |c.objs| then c
      else c.(objs := c.objs[i := c.objs[i].(list := None, len := 0)])
    case _ => c
  }

  function Held(held: map<Text, nat>, vid: Text): (n: nat) {
    if vid in held then held[vid] else 0
  }

  /** One call or write. Only Add and Release change the contents. */
  function Step(w: World, a: Action): (u: World)
    requires Sane(w.client)
    ensures Sane(u.client)
  {
    match a
    case AddState(i) =>
      if i >= |w.client.objs| then w
      else
        var v := ValueOf(w.client.objs[i], w.client.lists);
        if ValidVnet(v) then w.(contents := w.contents[v.id := NormalForm(v)]) else w
    case GetState(vid) =>
      if vid in w.contents then w.(client := Given(w.client, w.contents[vid])) else w
    case KeepSnapshot(keep) => w.(client := GivenAll(w.client, w.contents, keep))
    case AcquireState(_, vid) => w.(held := w.held[vid := Held(w.held, vid) + 1])
    case ReleaseState(_, vid) =>
      if Held(w.held, vid) == 0 then w
      else
        w.(held := w.held[vid := Held(w.held, vid) - 1],
           contents := if Held(w.held, vid) == 1 then w.contents - {vid} else w.contents)
    case _ => w.(client := Scribbled(w.client, a))
  }

  /** The whole script, from nothing. */
  function ReferenceRun(script: seq<Action>): (w: World)
    ensures Sane(w.client)
  {
    if script == [] then START else Step(ReferenceRun(script[..|script| - 1]), script[|script| - 1])
  }
}

/** The same client on the heap, against the real registry. */
module Ownership {
  import opened Common
  import opened Ordering
  import opened RegistrySpec
  import opened VnetRegistry
  import opened HostileSpec

  /** The object is as described; its list is the array of that number. */
  ghost predicate Alike(o: Obj, s: VnetState, arrays: seq<array<Text>>)
    reads s
  {
    && s.id == o.id && s.vni == o.vni && s.len == o.len && s.revision == o.revision && s.updated == o.updated
    && (o.list.None? ==> s.peers == null)
    && (o.list.Some? ==> o.list.value < |arrays| && s.peers == arrays[o.list.value])
  }

  ghost predicate ObjsAlike(objs: seq<Obj>, known: seq<VnetState>, arrays: seq<array<Text>>)
    reads known
  {
    && |objs| == |known|
    && (forall i, j :: 0 <= i < j < |known| ==> known[i] != known[j])
    && (forall i :: 0 <= i < |known| ==> Alike(objs[i], known[i], arrays))
  }

  ghost predicate ListsAlike(lists: seq<seq<Text>>, arrays: seq<array<Text>>)
    reads arrays
  {
    && |lists| == |arrays|
    && (forall i, j :: 0 <= i < j < |arrays| ==> arrays[i] != arrays[j])
    && (forall i :: 0 <= i < |arrays| ==> arrays[i][..] == lists[i])
  }

  /** The client's objects are as the reference says, sharing included. */
  ghost predicate Mirrors(c: Client, known: seq<VnetState>, arrays: seq<array<Text>>)
    reads known, arrays
  {
    Sane(c) && ObjsAlike(c.objs, known, arrays) && ListsAlike(c.lists, arrays)
  }

  /** Everything the client ever had. */
  ghost function Reach(known: seq<VnetState>, arrays: seq<array<Text>>): (r: set<object>) {
    (set s | s in known) + (set a | a in arrays)
  }

  /** The client reaches nothing the registry owns. */
  ghost predicate Outside(reg: Vnets, known: seq<VnetState>, arrays: seq<array<Text>>)
    reads reg
  {
    Reach(known, arrays) !! reg.repr + {reg, reg.inner}
  }

  /** The registry's contents and counts are as the reference says. */
  ghost predicate Agrees(reg: Vnets, contents: map<Text, Vnet>, held: map<Text, nat>)
    reads reg, reg.inner, reg.repr
  {
    reg.Valid() && reg.Contents() == contents && forall v :: reg.RefsOf(v) == Held(held, v)
  }

  lemma InReach(known: seq<VnetState>, arrays: seq<array<Text>>)
    ensures forall i :: 0 <= i < |known| ==> known[i] in Reach(known, arrays)
    ensures forall i :: 0 <= i < |arrays| ==> arrays[i] in Reach(known, arrays)
  {
  }

  /** No object or list the client ever had is the registry's. */
  lemma OutsideApart(reg: Vnets, known: seq<VnetState>, arrays: seq<array<Text>>)
    requires Outside(reg, known, arrays)
    ensures forall i :: 0 <= i < |known| ==> known[i] !in reg.repr && known[i] as object != reg && known[i] as object != reg.inner
    ensures forall k :: 0 <= k < |arrays| ==> arrays[k] !in reg.repr
  {
    InReach(known, arrays);
  }

  lemma MirroredValue(c: Client, known: seq<VnetState>, arrays: seq<array<Text>>, i: nat)
    requires Mirrors(c, known, arrays) && i < |known|
    ensures known[i].WellFormed() && known[i].Value() == ValueOf(c.objs[i], c.lists)
  {
    assert SaneObj(c.objs[i], c.lists) && Alike(c.objs[i], known[i], arrays);
  }

  // ---- writes ------------------------------------------------------------------

  /** A write to the fields of one object, making it like `o`. */
  method WriteObj(reg: Vnets, ghost w: World, known: seq<VnetState>, ghost arrays: seq<array<Text>>, i: nat, ghost o: Obj,
                  id: Text, vni: nat, peers: array?<Text>, len: nat, revision: int, updated: int)
    requires Mirrors(w.client, known, arrays) && i < |known| && SaneObj(o, w.client.lists)
    requires o == Obj(id, vni, o.list, len, revision, updated)
    requires peers == if o.list.None? then null else arrays[o.list.value]
    requires Outside(reg, known, arrays) && Agrees(reg, w.contents, w.held)
    modifies known[i]
    ensures Mirrors(w.client.(objs := w.client.objs[i := o]), known, arrays) && Agrees(reg, w.contents, w.held)
  {
    hide Agrees;
    OutsideApart(reg, known, arrays);
    hide Outside;
    var s := known[i];
    s.id, s.vni, s.peers, s.len := id, vni, peers, len;
    s.revision, s.updated := revision, updated;
  }

  /** A write to one cell of a list, seen through every object that shares it. */
  method WriteCell(reg: Vnets, ghost w: World, ghost known: seq<VnetState>, ghost arrays: seq<array<Text>>, ghost k: nat,
                   list: array<Text>, cell: nat, peer: Text)
    requires Mirrors(w.client, known, arrays) && k < |w.client.lists| && list == arrays[k] && cell < list.Length
    requires Outside(reg, known, arrays) && Agrees(reg, w.contents, w.held)
    modifies list
    ensures Mirrors(w.client.(lists := w.client.lists[k := w.client.lists[k][cell := peer]]), known, arrays)
    ensures Agrees(reg, w.contents, w.held)
  {
    hide Agrees;
    OutsideApart(reg, known, arrays);
    hide Outside;
    ghost var c := w.client;
    assert arrays[k][..] == c.lists[k];
    list[cell] := peer;
    assert arrays[k][..] == c.lists[k][cell := peer];
  }

  /** Any single write the client can do: it changes the client's objects only. */
  method Scribble(reg: Vnets, known: seq<VnetState>, arrays: seq<array<Text>>, ghost w: World, a: Action)
    requires Mirrors(w.client, known, arrays) && Outside(reg, known, arrays) && Agrees(reg, w.contents, w.held)
    requires !a.Make?
    modifies known, arrays
    ensures Mirrors(Scribbled(w.client, a), known, arrays) && Agrees(reg, w.contents, w.held)
  {
    hide Agrees, Mirrors, Outside;
    ghost var c := w.client;
    Facts(c, known, arrays);
    match a
    case Rewrite(i, id, vni, revision, updated) =>
      if i < |known| {
        var s := known[i];
        WriteObj(reg, w, known, arrays, i, c.objs[i].(id := id, vni := vni, revision := revision, updated := updated),
                 id, vni, s.peers, s.len, revision, updated);
      }
    case Poke(i, cell, peer) =>
      if i < |known| && known[i].peers != null && cell < known[i].peers.Length {
        WriteCell(reg, w, known, arrays, c.objs[i].list.value, known[i].peers, cell, peer);
      }
    case Reslice(i, len) =>
      if i < |known| && known[i].peers != null && len <= known[i].peers.Length {
        var s := known[i];
        WriteObj(reg, w, known, arrays, i, c.objs[i].(len := len), s.id, s.vni, s.peers, len, s.revision, s.updated);
      }
    case Share(i, j) =>
      if i < |known| && j < |known| {
        var s, t := known[i], known[j];
        WriteObj(reg, w, known, arrays, i, c.objs[i].(list := c.objs[j].list, len := c.objs[j].len),
                 s.id, s.vni, t.peers, t.len, s.revision, s.updated);
      }
    case DropList(i) =>
      if i < |known| {
        var s := known[i];
        WriteObj(reg, w, known, arrays, i, c.objs[i].(list := None, len := 0), s.id, s.vni, null, 0, s.revision, s.updated);
      }
    case _ =>
  }

  /** What Mirrors says about one object at a time. */
  lemma Facts(c: Client, known: seq<VnetState>, arrays: seq<array<Text>>)
    requires Mirrors(c, known, arrays)
    ensures Sane(c) && |known| == |c.objs| && |arrays| == |c.lists|
    ensures forall i :: 0 <= i < |known| ==> Alike(c.objs[i], known[i], arrays) && SaneObj(c.objs[i], c.lists)
    ensures forall k :: 0 <= k < |arrays| ==> arrays[k].Length == |c.lists[k]|
  {
    forall k | 0 <= k < |arrays| ensures arrays[k].Length == |c.lists[k]| {
      assert arrays[k][..] == c.lists[k];
    }
  }

  // ---- what the client gets ------------------------------------------------------

  /** The list of an object that comes with one of its own. */
  function Own(s: VnetState): (r: seq<array<Text>>)
    reads s
  {
    if s.peers == null then [] else [s.peers]
  }

  /** An object the client did not have, with nothing it had. */
  lemma Received(c: Client, known: seq<VnetState>, arrays: seq<array<Text>>, s: VnetState, v: Vnet)
    requires Mirrors(c, known, arrays) && IsCopy(s, v)
    requires s.Parts() !! Reach(known, arrays)
    ensures Mirrors(Given(c, v), known + [s], arrays + Own(s))
    ensures Reach(known + [s], arrays + Own(s)) == Reach(known, arrays) + s.Parts()
  {
    InReach(known, arrays);
    assert s in s.Parts() && (s.peers != null ==> s.peers in s.Parts());
    var d, known', arrays' := Given(c, v), known + [s], arrays + Own(s);
    forall i | 0 <= i < |known'| ensures Alike(d.objs[i], known'[i], arrays') {
      if i < |known| {
        assert Alike(c.objs[i], known[i], arrays);
      }
    }
    forall k | 0 <= k < |arrays'| ensures arrays'[k][..] == d.lists[k] {
      if k < |arrays| {
        assert arrays[k][..] == c.lists[k];
      } else {
        assert s.peers[..s.len] == s.peers[..];
      }
    }
  }

  method MakeState(reg: Vnets, known: seq<VnetState>, arrays: seq<array<Text>>, ghost c: Client,
                   id: Text, vni: nat, peers: seq<Text>)
    returns (known': seq<VnetState>, arrays': seq<array<Text>>)
    requires Mirrors(c, known, arrays) && Outside(reg, known, arrays)
    ensures Mirrors(Given(c, Vnet(id, vni, Some(peers), 0, 0)), known', arrays') && Outside(reg, known', arrays')
    ensures fresh(Reach(known', arrays') - Reach(known, arrays))
  {
    hide Mirrors;
    var list := new Text[|peers|](i requires 0 <= i < |peers| => peers[i]);
    var s := new VnetState(id, vni, list, |peers|, 0, 0);
    assert list[..|peers|] == peers;
    Received(c, known, arrays, s, Vnet(id, vni, Some(peers), 0, 0));
    known', arrays' := known + [s], arrays + [list];
  }

  method CallGet(reg: Vnets, known: seq<VnetState>, arrays: seq<array<Text>>, ghost w: World, vid: Text)
    returns (known': seq<VnetState>, arrays': seq<array<Text>>)
    requires Mirrors(w.client, known, arrays) && Outside(reg, known, arrays) && Agrees(reg, w.contents, w.held)
    ensures Mirrors(Step(w, GetState(vid)).client, known', arrays') && Outside(reg, known', arrays')
    ensures fresh(Reach(known', arrays') - Reach(known, arrays))
  {
    hide Mirrors, Vnets.Valid, Vnets.Contents, Vnets.RefsOf, IsCopy;
    var r := reg.Get(vid);
    if r == null {
      return known, arrays;
    }
    Received(w.client, known, arrays, r, w.contents[vid]);
    known', arrays' := known + [r], arrays + Own(r);
  }

  /** The states of a snapshot that the client has not looked at yet. */
  ghost predicate Waiting(left: map<Text, VnetState>, contents: map<Text, Vnet>, reach: set<object>)
    reads left.Values, set s | s in left.Values :: s.peers
  {
    && left.Keys == contents.Keys
    && (forall k :: k in left ==> IsCopy(left[k], contents[k]) && left[k].Parts() !! reach)
    && (forall k, k' :: k in left && k' in left && k != k' ==> left[k].Parts() !! left[k'].Parts())
  }

  lemma OneFewer(left: map<Text, VnetState>, contents: map<Text, Vnet>, reach: set<object>, k: Text)
    requires Waiting(left, contents, reach) && k in left
    ensures Waiting(left - {k}, contents - {k}, reach + left[k].Parts())
  {
    hide IsCopy;
  }

  method FetchAll(reg: Vnets, known: seq<VnetState>, arrays: seq<array<Text>>, ghost w: World)
    returns (left: map<Text, VnetState>)
    requires Agrees(reg, w.contents, w.held)
    ensures Waiting(left, w.contents, Reach(known, arrays) + (reg.repr + {reg, reg.inner}))
    ensures forall k :: k in left ==> fresh(left[k].Parts())
  {
    hide Vnets.Valid, Vnets.Contents, Vnets.RefsOf, IsCopy;
    left := reg.Snapshot();
    assert forall o :: o in Reach(known, arrays) + (reg.repr + {reg, reg.inner}) ==> !fresh(o);
  }

  method CallSnapshot(reg: Vnets, known: seq<VnetState>, arrays: seq<array<Text>>, ghost w: World, keep: seq<Text>)
    returns (known': seq<VnetState>, arrays': seq<array<Text>>)
    requires Mirrors(w.client, known, arrays) && Outside(reg, known, arrays) && Agrees(reg, w.contents, w.held)
    ensures Mirrors(GivenAll(w.client, w.contents, keep), known', arrays') && Outside(reg, known', arrays')
    ensures fresh(Reach(known', arrays') - Reach(known, arrays))
  {
    hide Mirrors, Vnets.Valid, Vnets.Contents, Vnets.RefsOf, IsCopy, Reach;
    Facts(w.client, known, arrays);
    var left := FetchAll(reg, known, arrays, w);
    known', arrays' := known, arrays;
    ghost var c, contents := w.client, w.contents;
    ghost var owned := reg.repr + {reg, reg.inner};
    var n := 0;
    assert keep[0..] == keep;
    while n < |keep|
      invariant 0 <= n <= |keep| && Mirrors(c, known', arrays') && Sane(c)
      invariant GivenAll(c, contents, keep[n..]) == GivenAll(w.client, w.contents, keep)
      invariant Waiting(left, contents, Reach(known', arrays') + owned)
      invariant Outside(reg, known', arrays') && fresh(Reach(known', arrays') - Reach(known, arrays))
      invariant forall k :: k in left ==> fresh(left[k].Parts())
      modifies {}
    {
      var k := keep[n];
      assert keep[n..][1..] == keep[n + 1..];
      if k in left {
        Received(c, known', arrays', left[k], contents[k]);
        OneFewer(left, contents, Reach(known', arrays') + owned, k);
        c, contents := Given(c, contents[k]), contents - {k};
        known', arrays' := known' + [left[k]], arrays' + Own(left[k]);
        left := left - {k};
      }
      n := n + 1;
    }
  }

  // ---- calls that change the registry ---------------------------------------------

  /** The contents after an Add of a state with value `v`. */
  function Added(contents: map<Text, Vnet>, v: Vnet): (m: map<Text, Vnet>) {
    if ValidVnet(v) then contents[v.id := NormalForm(v)] else contents
  }

  method AddOne(reg: Vnets, ghost w: World, s: VnetState)
    requires Agrees(reg, w.contents, w.held) && s.WellFormed()
    modifies reg`repr, reg.inner
    ensures Agrees(reg, Added(w.contents, s.Value()), w.held)
    ensures old(reg.repr) <= reg.repr && fresh(reg.repr - old(reg.repr))
  {
    hide Vnets.Valid, Vnets.Contents, Vnets.RefsOf, ValidVnet, NormalForm;
    var ok := reg.Add(s);
  }

  /** Add stores the normal form of the object's value at the call, exactly if that is valid. */
  method CallAdd(reg: Vnets, known: seq<VnetState>, arrays: seq<array<Text>>, ghost w: World, i: nat)
    requires Mirrors(w.client, known, arrays) && Outside(reg, known, arrays) && Agrees(reg, w.contents, w.held)
    requires i < |known|
    modifies reg`repr, reg.inner
    ensures Mirrors(w.client, known, arrays) && Outside(reg, known, arrays)
    ensures Sane(w.client) && Agrees(reg, Step(w, AddState(i)).contents, w.held)
  {
    Facts(w.client, known, arrays);
    MirroredValue(w.client, known, arrays, i);
    InReach(known, arrays);
    assert Step(w, AddState(i)).contents == Added(w.contents, known[i].Value());
    hide Mirrors, Agrees, Added, Step;
    AddOne(reg, w, known[i]);
  }

  method CallAcquire(reg: Vnets, ghost w: World, client: nat, vid: Text)
    requires Sane(w.client) && Agrees(reg, w.contents, w.held)
    modifies reg.inner
    ensures var u := Step(w, AcquireState(client, vid)); Agrees(reg, u.contents, u.held)
  {
    hide Vnets.Valid, Vnets.Contents, Vnets.RefsOf, Returned;
    var ready := reg.Acquire(client, vid);
  }

  /** Release evicts exactly on the last reference. */
  method CallRelease(reg: Vnets, ghost w: World, client: nat, vid: Text)
    requires Sane(w.client) && Agrees(reg, w.contents, w.held)
    modifies reg.inner
    ensures var u := Step(w, ReleaseState(client, vid)); Agrees(reg, u.contents, u.held)
  {
    hide Vnets.Valid, Vnets.Contents, Vnets.RefsOf, Net;
    var ok := reg.Release(client, vid);
    ghost var u := Step(w, ReleaseState(client, vid));
    assert reg.Contents() == u.contents;
  }

  /** The action is a call that may change the registry. */
  predicate Changes(a: Action) {
    a.AddState? || a.AcquireState? || a.ReleaseState?
  }

  method ChangeRegistry(reg: Vnets, known: seq<VnetState>, arrays: seq<array<Text>>, ghost w: World, a: Action)
    requires Mirrors(w.client, known, arrays) && Outside(reg, known, arrays) && Agrees(reg, w.contents, w.held)
    requires Changes(a)
    modifies reg`repr, reg.inner
    ensures Sane(w.client) && Step(w, a).client == w.client
    ensures Mirrors(w.client, known, arrays) && Outside(reg, known, arrays)
    ensures Agrees(reg, Step(w, a).contents, Step(w, a).held)
  {
    Facts(w.client, known, arrays);
    InReach(known, arrays);
    hide Mirrors, Agrees, ValueOf, NormalForm, Reach;
    match a
    case AddState(i) =>
      if i < |known| {
        CallAdd(reg, known, arrays, w, i);
      }
    case AcquireState(client, vid) =>
      CallAcquire(reg, w, client, vid);
    case ReleaseState(client, vid) =>
      CallRelease(reg, w, client, vid);
  }

  /** What the client gets from making, getting or taking a snapshot. */
  method Receive(reg: Vnets, known: seq<VnetState>, arrays: seq<array<Text>>, ghost w: World, a: Action)
    returns (known': seq<VnetState>, arrays': seq<array<Text>>)
    requires Mirrors(w.client, known, arrays) && Outside(reg, known, arrays) && Agrees(reg, w.contents, w.held)
    requires a.Make? || a.GetState? || a.KeepSnapshot?
    ensures Sane(w.client) && Mirrors(Step(w, a).client, known', arrays') && Outside(reg, known', arrays')
    ensures Step(w, a).contents == w.contents && Step(w, a).held == w.held
    ensures fresh(Reach(known', arrays') - Reach(known, arrays))
  {
    Facts(w.client, known, arrays);
    hide Mirrors, Agrees, Outside, GivenAll, Given, Reach;
    match a
    case Make(id, vni, peers) =>
      known', arrays' := MakeState(reg, known, arrays, w.client, id, vni, peers);
    case GetState(vid) =>
      known', arrays' := CallGet(reg, known, arrays, w, vid);
    case KeepSnapshot(keep) =>
      known', arrays' := CallSnapshot(reg, known, arrays, w, keep);
  }

  lemma ScribbleStep(w: World, a: Action)
    requires Sane(w.client) && !Changes(a) && !a.Make? && !a.GetState? && !a.KeepSnapshot?
    ensures Step(w, a) == w.(client := Scribbled(w.client, a))
  {
  }

  method ChangeClient(reg: Vnets, known: seq<VnetState>, arrays: seq<array<Text>>, ghost w: World, a: Action)
    returns (known': seq<VnetState>, arrays': seq<array<Text>>)
    requires Mirrors(w.client, known, arrays) && Outside(reg, known, arrays) && Agrees(reg, w.contents, w.held)
    requires !Changes(a)
    modifies known, arrays
    ensures Sane(w.client) && Step(w, a).contents == w.contents && Step(w, a).held == w.held
    ensures Mirrors(Step(w, a).client, known', arrays') && Outside(reg, known', arrays')
    ensures Agrees(reg, w.contents, w.held)
    ensures fresh(Reach(known', arrays') - Reach(known, arrays))
  {
    Facts(w.client, known, arrays);
    OutsideApart(reg, known, arrays);
    hide Mirrors, Agrees, Outside, Reach, Step, Scribbled;
    if a.Make? || a.GetState? || a.KeepSnapshot? {
      known', arrays' := Receive(reg, known, arrays, w, a);
    } else {
      ScribbleStep(w, a);
      Scribble(reg, known, arrays, w, a);
      known', arrays' := known, arrays;
    }
  }

  /** One action: heap and reference take the same step, and stay apart. */
  method Act(reg: Vnets, known: seq<VnetState>, arrays: seq<array<Text>>, ghost w: World, a: Action)
    returns (known': seq<VnetState>, arrays': seq<array<Text>>)
    requires Mirrors(w.client, known, arrays) && Outside(reg, known, arrays) && Agrees(reg, w.contents, w.held)
    modifies reg`repr, reg.inner, known, arrays
    ensures Sane(w.client) && Mirrors(Step(w, a).client, known', arrays') && Outside(reg, known', arrays')
    ensures Agrees(reg, Step(w, a).contents, Step(w, a).held)
    ensures fresh(Reach(known', arrays') - Reach(known, arrays))
  {
    hide Mirrors, Agrees, Outside, Reach, Step, Sane;
    if Changes(a) {
      ChangeRegistry(reg, known, arrays, w, a);
      return known, arrays;
    }
    known', arrays' := ChangeClient(reg, known, arrays, w, a);
  }

  /**
    Main theorem: after any script of calls and writes from a new registry, the
    registry's contents and counts, and every object the client has, are those
    of the reference run, in which the contents are values out of the client's
    reach. So what Add stores is fixed at the call, valid states are always
    stored, and no write to anything passed in or got back ever shows.
   */
  method HostileRun(script: seq<Action>) returns (reg: Vnets, known: seq<VnetState>)
    ensures fresh(reg) && reg.Valid() && reg.Contents() == ReferenceRun(script).contents
    ensures forall v :: reg.RefsOf(v) == Held(ReferenceRun(script).held, v)
    ensures var c := ReferenceRun(script).client;
            && |known| == |c.objs|
            && (forall i :: 0 <= i < |known| ==>
                  known[i].WellFormed() && known[i].Value() == ValueOf(c.objs[i], c.lists))
  {
    reg := new Vnets();
    known := [];
    var arrays: seq<array<Text>> := [];
    assert Mirrors(START.client, known, arrays) && Reach(known, arrays) == {};
    assert Agrees(reg, START.contents, START.held);
    assert script[..0] == [];
    ghost var w := START;
    var n := 0;
    while n < |script|
      invariant 0 <= n <= |script| && w == ReferenceRun(script[..n])
      invariant fresh(reg) && fresh(reg.inner) && fresh(Reach(known, arrays))
      invariant Mirrors(w.client, known, arrays) && Outside(reg, known, arrays) && Agrees(reg, w.contents, w.held)
    {
      hide Mirrors, Agrees, Outside, Step;
      InReach(known, arrays);
      assert script[..n + 1][..n] == script[..n];
      known, arrays := Act(reg, known, arrays, w, script[n]);
      w := Step(w, script[n]);
      n := n + 1;
    }
    assert script[..n] == script;
    forall i | 0 <= i < |known|
      ensures known[i].WellFormed() && known[i].Value() == ValueOf(w.client.objs[i], w.client.lists)
    {
      MirroredValue(w.client, known, arrays, i);
    }
  }
}
