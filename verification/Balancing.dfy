/**
  The load-balancing strategies of the Weaver gateway
  (loadbalancer/strategies.go). A selection is the index of the chosen replica.
 */
module Rotation {
  import opened Common

  lemma AtLeastOnce(k: int, n: int)
    requires k >= 1 && n >= 0
    ensures k * n >= n
  {
    assert k * n == n + (k - 1) * n;
    assert (k - 1) * n >= 0;
  }

  /** Quotient and remainder are determined by their defining equation. */
  lemma DivModUnique(x: nat, n: nat, q: nat, r: nat)
    requires n > 0 && r < n && x == q * n + r
    ensures x / n == q && x % n == r
  {
    var q', r' := x / n, x % n;
    assert x == q' * n + r';
    assert (q - q') * n == q * n - q' * n;
    assert (q' - q) * n == q' * n - q * n;
    if q > q' {
      AtLeastOnce(q - q', n);
    } else if q' > q {
      AtLeastOnce(q' - q, n);
    }
  }

  /** How many of the `m` numbers from `c` on have a remainder in [lo, hi) modulo `n`. */
  function Hits(c: nat, m: nat, n: nat, lo: nat, hi: nat): (h: nat)
    requires n > 0
  {
    if m == 0 then 0
    else Hits(c, m - 1, n, lo, hi) + if lo <= (c + m - 1) % n < hi then 1 else 0
  }

  lemma {:induction false} HitsSplit(c: nat, m: nat, m': nat, n: nat, lo: nat, hi: nat)
    requires n > 0
    ensures Hits(c, m + m', n, lo, hi) == Hits(c, m, n, lo, hi) + Hits(c + m, m', n, lo, hi)
  {
    if m' > 0 {
      HitsSplit(c, m, m' - 1, n, lo, hi);
    }
  }

  lemma {:induction false} HitsFromZero(m: nat, n: nat, lo: nat, hi: nat)
    requires n > 0 && m <= n && lo <= hi <= n
    ensures Hits(0, m, n, lo, hi) == if m <= lo then 0 else if m <= hi then m - lo else hi - lo
  {
    if m > 0 {
      HitsFromZero(m - 1, n, lo, hi);
      DivModUnique(m - 1, n, 0, m - 1);
    }
  }

  lemma SameRemainder(c: nat, n: nat)
    requires n > 0
    ensures (c + n) % n == c % n
  {
    assert (c / n + 1) * n == c / n * n + n;
    DivModUnique(c + n, n, c / n + 1, c % n);
  }

  /** Any `n` numbers in a row meet every remainder once. */
  lemma {:induction false} FullTurn(c: nat, n: nat, lo: nat, hi: nat)
    requires n > 0 && lo <= hi <= n
    ensures Hits(c, n, n, lo, hi) == hi - lo
  {
    if c == 0 {
      HitsFromZero(n, n, lo, hi);
    } else {
      FullTurn(c - 1, n, lo, hi);
      HitsSplit(c - 1, 1, n - 1, n, lo, hi);
      HitsSplit(c, n - 1, 1, n, lo, hi);
      SameRemainder(c - 1, n);
      assert Hits(c - 1, 1, n, lo, hi) == Hits(c - 1 + n, 1, n, lo, hi);
    }
  }

  lemma {:induction false} PartTurn(c: nat, m: nat, n: nat, i: nat)
    requires i < n && m <= n
    ensures Hits(c, m, n, i, i + 1) <= 1
  {
    FullTurn(c, n, i, i + 1);
    HitsSplit(c, m, n - m, n, i, i + 1);
  }

  lemma {:induction false} NearlyEven(c: nat, m: nat, n: nat, i: nat)
    requires i < n
    ensures m - n < Hits(c, m, n, i, i + 1) * n < m + n
    decreases m
  {
    if m == 0 {
      assert Hits(c, m, n, i, i + 1) == 0;
    } else if m < n {
      hide Hits;
      PartTurn(c, m, n, i);
      OneMore(n, 0);
    } else {
      hide Hits;
      FullTurn(c, n, i, i + 1);
      HitsSplit(c, n, m - n, n, i, i + 1);
      NearlyEven(c + n, m - n, n, i);
      OneMore(n, Hits(c + n, m - n, n, i, i + 1));
    }
  }

  /**
    Round robin: after any `m` selections starting at any counter, every one of
    the `n` replicas was picked m/n times, rounded down, or once more when
    `m` is not a multiple of `n`.
   */
  lemma RoundRobinFair(c: nat, m: nat, n: nat, i: nat)
    requires i < n
    ensures Hits(c, m, n, i, i + 1) == m / n || (Hits(c, m, n, i, i + 1) == m / n + 1 && m % n != 0)
  {
    var h := Hits(c, m, n, i, i + 1);
    NearlyEven(c, m, n, i);
    if h * n <= m {
      DivModUnique(m, n, h, m - h * n);
    } else {
      assert h >= 1 by {
        assert h == 0 ==> h * n == 0;
      }
      assert (h - 1) * n == h * n - n;
      DivModUnique(m, n, h - 1, m - (h - 1) * n);
    }
  }
}

module Balancing {
  import opened Common
  import opened Rotation

  /** Go's remainder, which takes the sign of the dividend. */
  function GoMod(a: int, n: int): (r: int)
    requires n != 0
  {
    var m := if n < 0 then -n else n;
    if a >= 0 then a % m else -((-a) % m)
  }

  class RoundRobin {
    var counter: nat

    constructor ()
      ensures counter == 0
    {
      counter := 0;
    }

    /** The pick is the counter modulo the number of replicas; see RoundRobinFair. */
    method Select(n: nat) returns (pick: Option<nat>)
      modifies this
      ensures n == 0 ==> pick == None && counter == old(counter)
      ensures n > 0 ==> pick == Some(old(counter) % n) && counter == old(counter) + 1
    {
      if n == 0 {
        return None;
      }
      pick := Some(counter % n);
      counter := counter + 1;
    }
  }

  /** Any `m` selections in a row give every replica its fair share of picks. */
  method CountRotation(rr: RoundRobin, n: nat, m: nat) returns (counts: seq<nat>)
    requires n > 0
    modifies rr
    ensures |counts| == n && rr.counter == old(rr.counter) + m
    ensures forall i :: 0 <= i < n ==> counts[i] == m / n || (counts[i] == m / n + 1 && m % n != 0)
  {
    counts := seq(n, _ => 0);
    for k := 0 to m
      invariant |counts| == n && rr.counter == old(rr.counter) + k
      invariant forall i :: 0 <= i < n ==> counts[i] == Hits(old(rr.counter), k, n, i, i + 1)
    {
      var pick := rr.Select(n);
      counts := counts[pick.value := counts[pick.value] + 1];
    }
    forall i | 0 <= i < n
      ensures counts[i] == m / n || (counts[i] == m / n + 1 && m % n != 0)
    {
      RoundRobinFair(old(rr.counter), m, n, i);
    }
  }

  // ---- weighted ------------------------------------------------------------

  datatype Name = Name(text: string)

  /** A configured weight; absent and zero both count as one. */
  function WeightOf(weights: map<Name, int>, name: Name): (w: int)
    ensures (name in weights ==> weights[name] >= 0) ==> w >= 1
  {
    if name in weights && weights[name] != 0 then weights[name] else 1
  }

  /** `w` is the weight configured for the name: the map's figure if there is one and it is not zero, else one. */
  predicate IsWeight(weights: map<Name, int>, name: Name, w: int) {
    && (name in weights && weights[name] != 0 ==> w == weights[name])
    && (name !in weights || weights[name] == 0 ==> w == 1)
  }

  lemma WeightOfIsWeight(weights: map<Name, int>, name: Name)
    ensures IsWeight(weights, name, WeightOf(weights, name))
  {
  }

  /** The total weight of the first `i` replicas. */
  function Prefix(weights: map<Name, int>, names: seq<Name>, i: nat): (p: int)
    requires i <= |names|
  {
    if i == 0 then 0 else Prefix(weights, names, i - 1) + WeightOf(weights, names[i - 1])
  }

  predicate NonNegative(weights: map<Name, int>) {
    forall k :: k in weights ==> weights[k] >= 0
  }

  lemma {:induction false} PrefixGrows(weights: map<Name, int>, names: seq<Name>, i: nat, j: nat)
    requires NonNegative(weights) && i <= j <= |names|
    ensures i <= Prefix(weights, names, i) <= Prefix(weights, names, j)
    ensures i < j ==> Prefix(weights, names, i) < Prefix(weights, names, j)
    decreases j
  {
    if i < j {
      PrefixGrows(weights, names, i, j - 1);
    } else if i > 0 {
      PrefixGrows(weights, names, i - 1, i - 1);
    }
  }

  class Weighted {
    const weights: map<Name, int>
    var counter: nat

    constructor (weights: map<Name, int>)
      ensures this.weights == weights && counter == 0
    {
      this.weights := weights;
      counter := 0;
    }

    /**
      The pick is the position whose slice of the total weight holds the
      counter's remainder, so for non-negative weights the final fallback is
      never what decides.
     */
    method Select(names: seq<Name>) returns (pick: Option<nat>)
      modifies this`counter
      ensures names == [] ==> pick == None && counter == old(counter)
      ensures names != [] ==> pick.Some? && pick.value < |names|
      ensures NonNegative(weights) && names != [] ==>
                var total := Prefix(weights, names, |names|);
                && total > 0 && counter == old(counter) + 1
                && Prefix(weights, names, pick.value) <= counter % total < Prefix(weights, names, pick.value + 1)
    {
      if names == [] {
        return None;
      }
      var total := 0;
      var i := 0;
      while i < |names|
        invariant 0 <= i <= |names| && total == Prefix(weights, names, i)
      {
        total := total + WeightOf(weights, names[i]);
        i := i + 1;
      }
      if NonNegative(weights) {
        PrefixGrows(weights, names, 0, |names|);
      }
      if total == 0 {
        return Some(0);
      }
      counter := counter + 1;
      var target := GoMod(counter, total);
      var current := 0;
      i := 0;
      while i < |names|
        invariant 0 <= i <= |names| && current == Prefix(weights, names, i)
        invariant NonNegative(weights) ==> current <= target
      {
        var weight := WeightOf(weights, names[i]);
        if target < current + weight {
          return Some(i);
        }
        current := current + weight;
        i := i + 1;
      }
      return Some(|names| - 1);
    }
  }

  /** How many of the `m` selections after counter `c` pick position `i`. */
  function Picks(weights: map<Name, int>, names: seq<Name>, c: nat, m: nat, i: nat): (n: nat)
    requires NonNegative(weights) && i < |names| && Prefix(weights, names, |names|) > 0
  {
    if m == 0 then 0
    else Picks(weights, names, c, m - 1, i)
         + if Prefix(weights, names, i) <= (c + m) % Prefix(weights, names, |names|) < Prefix(weights, names, i + 1) then 1 else 0
  }

  /** One counter value picks one position only. */
  lemma PickUnique(weights: map<Name, int>, names: seq<Name>, t: int, i: nat, j: nat)
    requires NonNegative(weights) && i < |names| && j < |names|
    requires Prefix(weights, names, i) <= t < Prefix(weights, names, i + 1)
    requires Prefix(weights, names, j) <= t < Prefix(weights, names, j + 1)
    ensures i == j
  {
    if i < j {
      PrefixGrows(weights, names, i + 1, j);
    } else if j < i {
      PrefixGrows(weights, names, j + 1, i);
    }
  }

  lemma {:induction false} PicksAreHits(weights: map<Name, int>, names: seq<Name>, c: nat, m: nat, i: nat)
    requires NonNegative(weights) && i < |names| && Prefix(weights, names, |names|) > 0
    requires 0 <= Prefix(weights, names, i) <= Prefix(weights, names, i + 1)
    ensures Picks(weights, names, c, m, i)
            == Hits(c + 1, m, Prefix(weights, names, |names|), Prefix(weights, names, i), Prefix(weights, names, i + 1))
  {
    hide Prefix;
    if m > 0 {
      PicksAreHits(weights, names, c, m - 1, i);
      assert c + 1 + m - 1 == c + m;
    }
  }

  /**
    Main theorem: any total-weight many selections in a row, wherever the
    counter stands, pick every position exactly its weight many times.
   */
  lemma WeightedExact(weights: map<Name, int>, names: seq<Name>, c: nat, i: nat)
    requires NonNegative(weights) && i < |names|
    ensures Prefix(weights, names, |names|) > 0
    ensures Picks(weights, names, c, Prefix(weights, names, |names|), i) == WeightOf(weights, names[i])
    ensures IsWeight(weights, names[i], Picks(weights, names, c, Prefix(weights, names, |names|), i))
  {
    WeightOfIsWeight(weights, names[i]);
    PrefixGrows(weights, names, 0, |names|);
    PrefixGrows(weights, names, 0, i);
    PrefixGrows(weights, names, i, i + 1);
    PrefixGrows(weights, names, i + 1, |names|);
    PicksAreHits(weights, names, c, Prefix(weights, names, |names|), i);
    FullTurn(c + 1, Prefix(weights, names, |names|), Prefix(weights, names, i), Prefix(weights, names, i + 1));
  }

  /** A full turn of selections picks every position exactly its weight many times. */
  method CountFullTurn(w: Weighted, names: seq<Name>) returns (counts: seq<nat>)
    requires NonNegative(w.weights) && names != []
    modifies w`counter
    ensures |counts| == |names| && w.counter == old(w.counter) + Sum(counts)
    ensures forall i :: 0 <= i < |names| ==> IsWeight(w.weights, names[i], counts[i])
  {
    hide Prefix, NonNegative;
    counts := seq(|names|, _ => 0);
    WeightedExact(w.weights, names, w.counter, 0);
    var n := Prefix(w.weights, names, |names|);
    for k := 0 to n
      invariant |counts| == |names| && w.counter == old(w.counter) + k
      invariant forall i :: 0 <= i < |names| ==> counts[i] == Picks(w.weights, names, old(w.counter), k, i)
    {
      var pick := w.Select(names);
      PickedOnly(w.weights, names, old(w.counter), k, pick.value);
      counts := counts[pick.value := counts[pick.value] + 1];
    }
    forall i | 0 <= i < |names|
      ensures counts[i] == WeightOf(w.weights, names[i]) && IsWeight(w.weights, names[i], counts[i])
    {
      WeightedExact(w.weights, names, old(w.counter), i);
    }
    PrefixIsSum(w.weights, names, counts, |names|);
    assert counts[..|names|] == counts;
  }

  function Sum(counts: seq<nat>): (n: nat) {
    if counts == [] then 0 else Sum(counts[..|counts| - 1]) + counts[|counts| - 1]
  }

  lemma {:induction false} PrefixIsSum(weights: map<Name, int>, names: seq<Name>, counts: seq<nat>, i: nat)
    requires |counts| == |names| && i <= |names|
    requires forall k :: 0 <= k < |names| ==> counts[k] == WeightOf(weights, names[k])
    ensures Prefix(weights, names, i) == Sum(counts[..i])
  {
    if i > 0 {
      PrefixIsSum(weights, names, counts, i - 1);
      assert counts[..i][..i - 1] == counts[..i - 1];
    }
  }

  /** One more selection adds one to the picks of the position it picked, and to no other. */
  lemma PickedOnly(weights: map<Name, int>, names: seq<Name>, c: nat, k: nat, p: nat)
    requires NonNegative(weights) && p < |names| && Prefix(weights, names, |names|) > 0
    requires Prefix(weights, names, p) <= (c + k + 1) % Prefix(weights, names, |names|) < Prefix(weights, names, p + 1)
    ensures forall i :: 0 <= i < |names| ==>
              Picks(weights, names, c, k + 1, i) == Picks(weights, names, c, k, i) + if i == p then 1 else 0
  {
    var t := (c + k + 1) % Prefix(weights, names, |names|);
    assert c + (k + 1) == c + k + 1;
    forall i | 0 <= i < |names|
      ensures Picks(weights, names, c, k + 1, i) == Picks(weights, names, c, k, i) + if i == p then 1 else 0
    {
      hide Prefix;
      if i != p && Prefix(weights, names, i) <= t < Prefix(weights, names, i + 1) {
        PickUnique(weights, names, t, i, p);
      }
    }
  }
}

/** LeastConnections and ResourceAware, and what repeated selection does to the loads. */
module LeastLoaded {
  import opened Common
  import opened Tallies
  import opened Balancing

  class Replica {
    const name: Name
    var active: int

    constructor (name: Name)
      ensures this.name == name && active == 0
    {
      this.name := name;
      active := 0;
    }
  }

  function Loads(rs: seq<Replica>): (ls: seq<int>)
    reads rs
    ensures |ls| == |rs| && forall i :: 0 <= i < |rs| ==> ls[i] == rs[i].active
  {
    seq(|rs|, i requires 0 <= i < |rs| reads rs => rs[i].active)
  }

  /** `i` is the first position with the least load. */
  predicate FirstLeast(loads: seq<int>, i: nat) {
    && i < |loads|
    && (forall k :: 0 <= k < |loads| ==> loads[i] <= loads[k])
    && (forall k :: 0 <= k < i ==> loads[i] < loads[k])
  }

  function Least(loads: seq<int>): (i: nat)
    requires loads != []
    ensures FirstLeast(loads, i)
  {
    var n := |loads| - 1;
    if n == 0 then 0
    else
      var j := Least(loads[..n]);
      assert forall k :: 0 <= k < n ==> loads[..n][k] == loads[k];
      if loads[n] < loads[j] then n else j
  }

  /** Both strategies choose the same replica: the first least loaded one. */
  lemma ChoiceUnique(loads: seq<int>, i: nat, j: nat)
    requires FirstLeast(loads, i) && FirstLeast(loads, j)
    ensures i == j
  {
    assert loads[i] <= loads[j] <= loads[i];
  }

  method SelectLeastConnections(rs: seq<Replica>) returns (pick: Option<nat>)
    ensures rs == [] <==> pick == None
    ensures rs != [] ==> pick.value < |rs| && FirstLeast(Loads(rs), pick.value)
    ensures rs != [] ==> forall k :: 0 <= k < |rs| ==> rs[pick.value].active <= rs[k].active
    ensures rs != [] ==> forall k :: 0 <= k < pick.value ==> rs[pick.value].active < rs[k].active
  {
    if rs == [] {
      return None;
    }
    var selected, least := 0, rs[0].active;
    for i := 1 to |rs|
      invariant 0 <= selected < i && least == rs[selected].active
      invariant forall k :: 0 <= k < i ==> least <= rs[k].active
      invariant forall k :: 0 <= k < selected ==> least < rs[k].active
    {
      var load := rs[i].active;
      if load < least {
        least := load;
        selected := i;
      }
    }
    return Some(selected);
  }

  method SelectResourceAware(rs: seq<Replica>) returns (pick: Option<nat>)
    ensures rs == [] <==> pick == None
    ensures rs != [] ==> pick.value < |rs| && FirstLeast(Loads(rs), pick.value)
    ensures rs != [] ==> forall k :: 0 <= k < |rs| ==> rs[pick.value].active <= rs[k].active
    ensures rs != [] ==> forall k :: 0 <= k < pick.value ==> rs[pick.value].active < rs[k].active
  {
    if rs == [] {
      return None;
    }
    var selected, least := 0, rs[0].active;
    var rest := rs[1..];
    for i := 0 to |rest|
      invariant 0 <= selected <= i && least == rs[selected].active
      invariant forall k :: 0 <= k <= i ==> least <= rs[k].active
      invariant forall k :: 0 <= k < selected ==> least < rs[k].active
    {
      var connections := rest[i].active;
      if connections < least {
        selected := i + 1;
        least := connections;
      }
    }
    return Some(selected);
  }

  method UpdateLoad(r: Replica?, delta: int)
    modifies r
    ensures r != null ==> r.active == old(r.active) + delta
  {
    if r != null {
      r.active := r.active + delta;
    }
  }

  /** The loads after one round of select and add one. */
  function ServedOnce(loads: seq<int>): (ls: seq<int>)
    requires loads != []
    ensures |ls| == |loads|
  {
    loads[Least(loads) := loads[Least(loads)] + 1]
  }

  function Served(loads: seq<int>, n: nat): (ls: seq<int>)
    requires loads != []
    ensures |ls| == |loads|
  {
    if n == 0 then loads else ServedOnce(Served(loads, n - 1))
  }

  method ServeOne(rs: seq<Replica>)
    requires rs != [] && forall i, j :: 0 <= i < j < |rs| ==> rs[i] != rs[j]
    modifies rs
    ensures Loads(rs) == ServedOnce(old(Loads(rs)))
  {
    hide Loads, Least, FirstLeast;
    ghost var before := Loads(rs);
    var pick := SelectLeastConnections(rs);
    ChoiceUnique(before, pick.value, Least(before));
    UpdateLoad(rs[pick.value], 1);
    assert Loads(rs) == before[pick.value := before[pick.value] + 1];
  }

  /** The loop of selections the gateway runs. */
  method ServeMany(rs: seq<Replica>, n: nat)
    requires rs != [] && forall i, j :: 0 <= i < j < |rs| ==> rs[i] != rs[j]
    modifies rs
    ensures Loads(rs) == Served(old(Loads(rs)), n)
  {
    hide ServedOnce;
    for k := 0 to n
      invariant Loads(rs) == Served(old(Loads(rs)), k)
    {
      ServeOne(rs);
    }
  }

  /** No two loads differ by more than `d`. */
  predicate Within(loads: seq<int>, d: int) {
    forall a, b :: 0 <= a < |loads| && 0 <= b < |loads| ==> loads[a] - loads[b] <= d
  }

  /** The spread never grows beyond the larger of one and what it was. */
  lemma {:induction false} SpreadBounded(loads: seq<int>, n: nat, d: int)
    requires loads != [] && d >= 1 && Within(loads, d)
    ensures Within(Served(loads, n), d)
  {
    if n > 0 {
      SpreadBounded(loads, n - 1, d);
    }
  }

  /** How far a load is below the level `top`. */
  function Below(top: int): int -> nat {
    (x: int) => if x <= top then top - x else 0
  }

  lemma {:induction false} GapShrinks(loads: seq<int>, n: nat, top: int)
    requires loads != [] && forall i :: 0 <= i < |loads| ==> loads[i] <= top
    requires n <= Tally(loads, Below(top))
    ensures Tally(Served(loads, n), Below(top)) == Tally(loads, Below(top)) - n
    ensures forall i :: 0 <= i < |loads| ==> Served(loads, n)[i] <= top
  {
    hide Least, Tally;
    if n > 0 {
      GapShrinks(loads, n - 1, top);
      var ls := Served(loads, n - 1);
      var i := Least(ls);
      assert ls[i] < top by {
        if ls[i] == top {
          TallyZero(ls, Below(top));
        }
      }
      TallyUpdate(ls, i, ls[i] + 1, Below(top));
    }
  }

  lemma {:induction false} ServedMore(loads: seq<int>, n: nat, m: nat)
    requires loads != []
    ensures Served(loads, n + m) == Served(Served(loads, n), m)
  {
    hide ServedOnce;
    if m > 0 {
      ServedMore(loads, n, m - 1);
    }
  }

  /**
    And it levels out: once as many requests were served as the loads were
    short of any common ceiling, loads differ by at most one from then on.
   */
  lemma LevelsOut(loads: seq<int>, n: nat, top: int)
    requires loads != [] && forall i :: 0 <= i < |loads| ==> loads[i] <= top
    requires n >= Tally(loads, Below(top))
    ensures Within(Served(loads, n), 1)
  {
    var g := Tally(loads, Below(top));
    GapShrinks(loads, g, top);
    var level := Served(loads, g);
    forall i | 0 <= i < |level| ensures level[i] == top {
      TallyAtLeast(level, i, Below(top));
    }
    ServedMore(loads, g, n - g);
    SpreadBounded(level, n - g, 1);
  }
}

/** Sticky selection: a 64-bit hash chooses once, an affinity map remembers. */
module StickySelection {
  import opened Common
  import opened Balancing

  const TWO63: int := 0x8000_0000_0000_0000
  const TWO64: int := 0x1_0000_0000_0000_0000

  /** ((hash << 5) + hash) + ch in uint64. */
  function Mix(h: int, c: char): (r: int)
    ensures 0 <= r < TWO64
  {
    ((h * 32) % TWO64 + h + c as int) % TWO64
  }

  lemma MixSmall(h: int, c: char)
    requires 0 <= h && c < 128 as char && h * 33 + 127 < TWO64
    ensures Mix(h, c) == h * 33 + c as int
  {
  }

  /** hashClient over the client's characters, with uint64 wrap-around. */
  function HashFrom(h: int, s: string): (r: int)
    requires 0 <= h < TWO64
    ensures 0 <= r < TWO64
    decreases |s|
  {
    if s == [] then h
    else HashFrom(Mix(h, s[0]), s[1..])
  }

  function Hash(client: string): (r: int)
    ensures 0 <= r < TWO64
  {
    HashFrom(5381, client)
  }

  /** The conversion of a uint64 to Go's 64-bit int. */
  function AsInt(h: int): (r: int) {
    if h >= TWO63 then h - TWO64 else h
  }

  /** The replica index Sticky computes for a new client. */
  function Index(client: string, n: nat): (i: int)
    requires n > 0
  {
    GoMod(AsInt(Hash(client)), n)
  }

  /** Exactly when the index is in range: the hash fits an int, or its shortfall divides evenly. */
  lemma IndexInRangeExactly(client: string, n: nat)
    requires n > 0
    ensures 0 <= Index(client, n) < n <==> Hash(client) < TWO63 || (TWO64 - Hash(client)) % n == 0
  {
  }

  /** A bound on the hash before wrap-around, after `k` ASCII characters. */
  function Ceiling(h: int, k: nat): (c: int)
    decreases k
  {
    if k == 0 then h else Ceiling(h * 33 + 127, k - 1)
  }

  lemma {:induction false} HashBelowCeiling(h: int, s: string)
    requires 0 <= h && Ceiling(h, |s|) < TWO63
    requires forall i :: 0 <= i < |s| ==> s[i] < 128 as char
    ensures h < TWO64 && HashFrom(h, s) <= Ceiling(h, |s|)
    decreases |s|
  {
    hide Mix;
    CeilingGrows(h, h, |s|);
    if s != [] {
      CeilingGrows(h * 33 + s[0] as int, h * 33 + 127, |s| - 1);
      CeilingGrows(h * 33 + 127, h * 33 + 127, |s| - 1);
      MixSmall(h, s[0]);
      HashBelowCeiling(h * 33 + s[0] as int, s[1..]);
    }
  }

  lemma {:induction false} CeilingGrows(h: int, h': int, k: nat)
    requires 0 <= h <= h'
    ensures h' <= Ceiling(h', k) && Ceiling(h, k) <= Ceiling(h', k)
    decreases k
  {
    if k > 0 {
      CeilingGrows(h * 33 + 127, h' * 33 + 127, k - 1);
    }
  }

  lemma CeilingOfTen(k: nat)
    requires k <= 10
    ensures Ceiling(5381, k) < TWO63
  {
    assert Ceiling(5381, 10) == 8247504973805768347;
    CeilingLonger(5381, k, 10);
  }

  lemma {:induction false} CeilingLonger(h: int, k: nat, m: nat)
    requires 0 <= h && k <= m
    ensures Ceiling(h, k) <= Ceiling(h, m)
    decreases k
  {
    if k == 0 {
      CeilingGrows(h, h, m);
    } else {
      CeilingLonger(h * 33 + 127, k - 1, m - 1);
    }
  }

  /** Short ASCII client IDs never index out of range. */
  lemma ShortClientsSafe(client: string, n: nat)
    requires n > 0 && |client| <= 10 && forall i :: 0 <= i < |client| ==> client[i] < 128 as char
    ensures Hash(client) < TWO63 && 0 <= Index(client, n) < n
  {
    CeilingOfTen(|client|);
    HashBelowCeiling(5381, client);
  }

  lemma HashStep(h: int, c: char, s: string, t: string)
    requires 0 <= h < TWO64 && t == [c] + s
    ensures HashFrom(h, t) == HashFrom(Mix(h, c), s)
  {
    assert t[1..] == s;
  }

  lemma HashEnd(h: int)
    requires 0 <= h < TWO64
    ensures HashFrom(h, "") == h
  {
  }

  lemma HashFirstHalf()
    ensures HashFrom(5381, "client-1234") == HashFrom(210708954896, "t-1234")
  {
    hide HashFrom;
    HashStep(5381, 'c', "lient-1234", "client-1234");
    HashStep(177672, 'l', "ient-1234", "lient-1234");
    HashStep(5863284, 'i', "ent-1234", "ient-1234");
    HashStep(193488477, 'e', "nt-1234", "ent-1234");
    HashStep(6385119842, 'n', "t-1234", "nt-1234");
  }

  lemma HashSecondHalf()
    ensures HashFrom(210708954896, "t-1234") == 13869449002310892731
  {
    hide HashFrom;
    HashStep(210708954896, 't', "-1234", "t-1234");
    HashStep(6953395511684, '-', "1234", "-1234");
    HashStep(229462051885617, '1', "234", "1234");
    HashStep(7572247712225410, '2', "34", "234");
    HashStep(249884174503438580, '3', "4", "34");
    HashStep(8246177758613473191, '4', "", "4");
    HashEnd(13869449002310892731);
  }

  /** Longer ones may: this client makes Sticky index replica -2 of three. */
  lemma LongClientFails()
    ensures Hash("client-1234") == 13869449002310892731
    ensures Index("client-1234", 3) == -2
  {
    hide HashFrom;
    HashFirstHalf();
    HashSecondHalf();
  }

  datatype Outcome = NoReplicas | Picked(index: nat) | OutOfRange

  datatype Client = Client(id: string)

  /** Indexing the replicas; a negative index panics. */
  function At(i: int, n: nat): (o: Outcome) {
    if 0 <= i < n then Picked(i) else OutOfRange
  }

  function Found(affinity: map<Client, int>, client: Client, n: nat): (i: Option<int>) {
    if client in affinity && affinity[client] < n then Some(affinity[client]) else None
  }

  /** The affinity after a Select by `client` among `n` replicas. */
  function Remembered(affinity: map<Client, int>, client: Client, n: nat): (a: map<Client, int>) {
    if n == 0 || (client in affinity && affinity[client] < n) then affinity
    else affinity[client := Index(client.id, n)]
  }

  /** What that Select yields. */
  function Outcomes(affinity: map<Client, int>, client: Client, n: nat): (o: Outcome) {
    if n == 0 then NoReplicas
    else
      At(Remembered(affinity, client, n)[client], n)
  }

  function RememberedAll(affinity: map<Client, int>, clients: seq<Client>, n: nat): (a: map<Client, int>)
    decreases |clients|
  {
    if clients == [] then affinity else RememberedAll(Remembered(affinity, clients[0], n), clients[1..], n)
  }

  /**
    Affinity: after a client's first Select, any traffic by any clients over an
    unchanged replica list leaves its choice the same until Rebalance.
   */
  lemma {:induction false} StaysWithReplica(affinity: map<Client, int>, client: Client, others: seq<Client>, n: nat)
    requires n > 0
    ensures var first := Remembered(affinity, client, n);
            Outcomes(RememberedAll(first, others, n), client, n) == Outcomes(affinity, client, n)
    decreases |others|
  {
    var first := Remembered(affinity, client, n);
    KeptByAll(first, client, others, n);
  }

  lemma {:induction false} KeptByAll(a: map<Client, int>, client: Client, others: seq<Client>, n: nat)
    requires n > 0 && client in a && a[client] < n
    ensures client in RememberedAll(a, others, n) && RememberedAll(a, others, n)[client] == a[client]
    decreases |others|
  {
    if others != [] {
      KeptByAll(Remembered(a, others[0], n), client, others[1..], n);
    }
  }

  /**
    What Select picks: the remembered replica while its index is in range; for a
    client not remembered, the replica at its hash modulo their number, as long
    as the hash fits an int; and no replica, no pick.
   */
  lemma SelectPicks(affinity: map<Client, int>, client: Client, n: nat)
    ensures n == 0 ==> Outcomes(affinity, client, n) == NoReplicas
    ensures client in affinity && 0 <= affinity[client] < n ==> Outcomes(affinity, client, n) == Picked(affinity[client])
    ensures n > 0 && client !in affinity && Hash(client.id) < TWO63 ==>
              Outcomes(affinity, client, n) == Picked(Hash(client.id) % n)
  {
    hide Hash;
  }

  /** A call that nobody interrupts: a lookup, and a store if it missed, answer it. */
  lemma LoneRun(s: State, c: nat, n: nat) returns (steps: seq<Step>)
    requires n > 0 && c < |s.callers| && s.callers[c].phase.Outside?
    ensures Runs(s, steps, n)
    ensures var t := Final(s, steps, n);
            c < |t.callers| && t.callers[c].phase == Answered(Outcomes(s.affinity, s.callers[c].client, n))
  {
    hide Index, At;
    var t := Apply(s, Look(c), n);
    if t.callers[c].phase.Answered? {
      steps := [Look(c)];
      assert steps[1..] == [] && Runs(t, [], n);
    } else {
      var u := Apply(t, Put(c), n);
      steps := [Look(c), Put(c)];
      assert steps[1..] == [Put(c)] && [Put(c)][1..] == [] && Runs(u, [], n);
      assert Runs(t, [Put(c)], n) && Final(t, [Put(c)], n) == u;
    }
  }

  // ---- concurrent selections -----------------------------------------------------

  /** A call of Select: before its lookup, between lookup and store, or answered. */
  datatype Phase = Outside | Missed | Answered(outcome: Outcome)

  datatype Caller = Caller(client: Client, phase: Phase)

  datatype State = State(affinity: map<Client, int>, callers: seq<Caller>)

  datatype Step = Look(c: nat) | Put(c: nat)

  predicate Enabled(s: State, step: Step) {
    && step.c < |s.callers|
    && if step.Look? then s.callers[step.c].phase.Outside? else s.callers[step.c].phase.Missed?
  }

  /** The two locked sections, each one step. */
  function Apply(s: State, step: Step, n: nat): (t: State)
    requires n > 0 && Enabled(s, step)
  {
    var x := s.callers[step.c];
    if step.Look? then
      var found := Found(s.affinity, x.client, n);
      s.(callers := s.callers[step.c := x.(phase := if found.Some? then Answered(At(found.value, n)) else Missed)])
    else
      var i := Index(x.client.id, n);
      State(s.affinity[x.client := i], s.callers[step.c := x.(phase := Answered(At(i, n)))])
  }

  predicate Runs(s: State, steps: seq<Step>, n: nat)
    requires n > 0
    decreases |steps|
  {
    steps == [] || (Enabled(s, steps[0]) && Runs(Apply(s, steps[0], n), steps[1..], n))
  }

  function Final(s: State, steps: seq<Step>, n: nat): (t: State)
    requires n > 0 && Runs(s, steps, n)
    decreases |steps|
  {
    if steps == [] then s else Final(Apply(s, steps[0], n), steps[1..], n)
  }

  /** The index a client is to get for as long as the replicas stay the same. */
  function Expected(before: map<Client, int>, client: Client, n: nat): (i: int)
    requires n > 0
  {
    if Found(before, client, n).Some? then before[client] else Index(client.id, n)
  }

  predicate CallerAgrees(before: map<Client, int>, x: Caller, n: nat)
    requires n > 0
  {
    && (x.phase.Missed? ==> Found(before, x.client, n).None?)
    && (x.phase.Answered? ==> x.phase.outcome == At(Expected(before, x.client, n), n))
  }

  /** Nothing but expected indices was found or stored since the affinity was `before`. */
  ghost predicate Agrees(before: map<Client, int>, s: State, n: nat)
    requires n > 0
  {
    && (forall k :: Found(before, k, n).Some? ==> Found(s.affinity, k, n).Some?)
    && (forall k :: Found(s.affinity, k, n).Some? ==> s.affinity[k] == Expected(before, k, n))
    && (forall c :: 0 <= c < |s.callers| ==> CallerAgrees(before, s.callers[c], n))
  }

  lemma AgreesKept(before: map<Client, int>, s: State, step: Step, n: nat)
    requires n > 0 && Agrees(before, s, n) && Enabled(s, step)
    ensures Agrees(before, Apply(s, step, n), n)
  {
    hide Index, At;
    assert CallerAgrees(before, s.callers[step.c], n);
    IndexBelow(s.callers[step.c].client, n);
  }

  lemma IndexBelow(client: Client, n: nat)
    requires n > 0
    ensures Index(client.id, n) < n
  {
    hide Hash;
  }

  lemma {:induction false} AgreesAlways(before: map<Client, int>, s: State, steps: seq<Step>, n: nat)
    requires n > 0 && Agrees(before, s, n) && Runs(s, steps, n)
    ensures Agrees(before, Final(s, steps, n), n)
    decreases |steps|
  {
    hide Agrees, Apply, Enabled;
    if steps != [] {
      AgreesKept(before, s, steps[0], n);
      AgreesAlways(before, Apply(s, steps[0], n), steps[1..], n);
    }
  }

  /**
    Affinity among concurrent calls: over an unchanged replica list and without
    Rebalance, in every interleaving of the locked sections of any calls, every
    answer to a client is what a lone Select would have answered at the start.
   */
  lemma AnswersAgree(s: State, steps: seq<Step>, n: nat, c: nat)
    requires n > 0 && Runs(s, steps, n) && forall i :: 0 <= i < |s.callers| ==> s.callers[i].phase.Outside?
    requires var t := Final(s, steps, n); c < |t.callers| && t.callers[c].phase.Answered?
    ensures var x := Final(s, steps, n).callers[c];
            x.phase.outcome == Outcomes(s.affinity, x.client, n)
  {
    AgreesAlways(s.affinity, s, steps, n);
    hide Runs, Final, Index;
    assert CallerAgrees(s.affinity, Final(s, steps, n).callers[c], n);
  }

  class Sticky {
    var affinity: map<Client, int>

    constructor ()
      ensures affinity == map[]
    {
      affinity := map[];
    }

    /** hashClient: the loop over the characters. */
    static method HashClient(client: string) returns (h: int)
      ensures h == Hash(client)
    {
      h := 5381;
      var i := 0;
      assert client[0..] == client;
      while i < |client|
        invariant 0 <= i <= |client| && 0 <= h < TWO64
        invariant HashFrom(h, client[i..]) == Hash(client)
      {
        assert client[i..][1..] == client[i + 1..];
        h := Mix(h, client[i]);
        i := i + 1;
      }
    }

    /** The section under the read lock: a remembered index that is still below the count. */
    method Lookup(client: Client, n: nat) returns (index: Option<int>)
      ensures index == Found(affinity, client, n)
    {
      if client in affinity && affinity[client] < n {
        return Some(affinity[client]);
      }
      return None;
    }

    /** The section under the write lock. */
    method Store(client: Client, index: int)
      modifies this
      ensures affinity == old(affinity)[client := index]
    {
      affinity := affinity[client := index];
    }

    /** A Select that nobody interrupts between its two sections. */
    method Select(client: Client, n: nat) returns (o: Outcome)
      modifies this
      ensures affinity == Remembered(old(affinity), client, n)
      ensures o == Outcomes(old(affinity), client, n)
    {
      hide Hash, Mix;
      if n == 0 {
        return NoReplicas;
      }
      var index := Lookup(client, n);
      if index.Some? {
        return At(index.value, n);
      }
      var h := HashClient(client.id);
      var i := GoMod(AsInt(h), n);
      Store(client, i);
      return At(i, n);
    }

    method Rebalance()
      modifies this
      ensures affinity == map[]
    {
      affinity := map[];
    }
  }
}
