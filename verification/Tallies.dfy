/** Counting over a sequence, and how one update changes a count. */
module Tallies {

  function Tally<T>(s: seq<T>, f: T -> nat): (n: nat) {
    if s == [] then 0 else f(s[0]) + Tally(s[1..], f)
  }

  lemma {:induction false} TallySame<T>(s: seq<T>, f: T -> nat, g: T -> nat)
    requires forall i :: 0 <= i < |s| ==> f(s[i]) == g(s[i])
    ensures Tally(s, f) == Tally(s, g)
  {
    if s != [] {
      TallySame(s[1..], f, g);
    }
  }

  lemma TallyHead<T>(s: seq<T>, f: T -> nat)
    requires s != []
    ensures Tally(s, f) == f(s[0]) + Tally(s[1..], f)
  {
  }

  lemma {:induction false} TallyUpdate<T>(s: seq<T>, i: nat, x: T, f: T -> nat)
    requires i < |s|
    ensures Tally(s[i := x], f) == Tally(s, f) - f(s[i]) + f(x)
  {
    if i == 0 {
      assert s[0 := x][1..] == s[1..];
    } else {
      TallyUpdate(s[1..], i - 1, x, f);
      assert s[i := x][1..] == s[1..][i - 1 := x];
    }
  }

  lemma {:induction false} TallySnoc<T>(s: seq<T>, x: T, f: T -> nat)
    ensures Tally(s + [x], f) == Tally(s, f) + f(x)
  {
    if s == [] {
      assert [] + [x] == [x];
    } else {
      TallySnoc(s[1..], x, f);
      assert (s + [x])[1..] == s[1..] + [x];
    }
  }

  lemma {:induction false} TallyAtLeast<T>(s: seq<T>, i: nat, f: T -> nat)
    requires i < |s|
    ensures Tally(s, f) >= f(s[i])
  {
    if i > 0 {
      TallyAtLeast(s[1..], i - 1, f);
    }
  }

  lemma {:induction false} TallyTwo<T>(s: seq<T>, i: nat, k: nat, f: T -> nat)
    requires i < k < |s|
    ensures Tally(s, f) >= f(s[i]) + f(s[k])
  {
    if i == 0 {
      TallyAtLeast(s[1..], k - 1, f);
    } else {
      TallyTwo(s[1..], i - 1, k - 1, f);
    }
  }

  lemma {:induction false} TallyZero<T>(s: seq<T>, f: T -> nat)
    requires forall i :: 0 <= i < |s| ==> f(s[i]) == 0
    ensures Tally(s, f) == 0
  {
    if s != [] {
      TallyZero(s[1..], f);
    }
  }
}
