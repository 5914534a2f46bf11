/**
  Go's byte-wise string order, and sorting by it. Elements are wrapped so that
  lists of strings are lists of opaque values to most proofs.
 */
module Ordering {

  datatype Text = Text(s: string)

  /** a <= b in Go's string order. */
  predicate Below(a: string, b: string) {
    a == [] || (b != [] && (a[0] < b[0] || (a[0] == b[0] && Below(a[1..], b[1..]))))
  }

  lemma {:induction false} BelowTotal(a: string, b: string)
    ensures Below(a, b) || Below(b, a)
  {
    if a != [] && b != [] {
      BelowTotal(a[1..], b[1..]);
    }
  }

  lemma {:induction false} BelowAntisymmetric(a: string, b: string)
    requires Below(a, b) && Below(b, a)
    ensures a == b
  {
    if a != [] && b != [] {
      BelowAntisymmetric(a[1..], b[1..]);
      assert a == [a[0]] + a[1..] && b == [b[0]] + b[1..];
    }
  }

  lemma {:induction false} BelowTransitive(a: string, b: string, c: string)
    requires Below(a, b) && Below(b, c)
    ensures Below(a, c)
  {
    if a != [] && b != [] && c != [] && a[0] == b[0] == c[0] {
      BelowTransitive(a[1..], b[1..], c[1..]);
    }
  }

  predicate Le(x: Text, y: Text) {
    Below(x.s, y.s)
  }

  /** Le is a total order; used where the definition of Below does not matter. */
  lemma OrderFacts()
    ensures forall x, y :: Le(x, y) || Le(y, x)
    ensures forall x, y :: Le(x, y) && Le(y, x) ==> x == y
    ensures forall x, y, z :: Le(x, y) && Le(y, z) ==> Le(x, z)
  {
    forall x: Text, y: Text ensures Le(x, y) || Le(y, x) {
      BelowTotal(x.s, y.s);
    }
    forall x, y | Le(x, y) && Le(y, x) ensures x == y {
      BelowAntisymmetric(x.s, y.s);
    }
    forall x, y, z | Le(x, y) && Le(y, z) ensures Le(x, z) {
      BelowTransitive(x.s, y.s, z.s);
    }
  }

  ghost predicate Sorted(s: seq<Text>) {
    forall i, j :: 0 <= i < j < |s| ==> Le(s[i], s[j])
  }

  /** Strictly increasing: sorted, without repetitions. */
  ghost predicate Strict(s: seq<Text>) {
    forall i, j :: 0 <= i < j < |s| ==> Le(s[i], s[j]) && s[i] != s[j]
  }

  function Insert(x: Text, s: seq<Text>): (r: seq<Text>) {
    if s == [] || Le(x, s[0]) then [x] + s else [s[0]] + Insert(x, s[1..])
  }

  /** The sorted list of the elements of `s`. */
  function Sort(s: seq<Text>): (r: seq<Text>) {
    if s == [] then [] else Insert(s[0], Sort(s[1..]))
  }

  lemma {:induction false} InsertSorted(x: Text, s: seq<Text>)
    requires Sorted(s)
    ensures Sorted(Insert(x, s))
    ensures multiset(Insert(x, s)) == multiset(s) + multiset{x}
  {
    OrderFacts();
    hide Le;
    if s != [] && !Le(x, s[0]) {
      InsertSorted(x, s[1..]);
      var r := Insert(x, s[1..]);
      assert s == [s[0]] + s[1..];
      forall j | 0 <= j < |r| ensures Le(s[0], r[j]) {
        assert r[j] in multiset(r);
        assert r[j] == x || r[j] in s[1..];
      }
    }
  }

  lemma {:induction false} SortSorts(s: seq<Text>)
    ensures Sorted(Sort(s)) && multiset(Sort(s)) == multiset(s)
    ensures |Sort(s)| == |s|
  {
    if s != [] {
      SortSorts(s[1..]);
      InsertSorted(s[0], Sort(s[1..]));
      assert s == [s[0]] + s[1..];
    }
    assert |multiset(Sort(s))| == |multiset(s)|;
  }

  /** A strictly increasing list is determined by its set of elements. */
  lemma {:induction false} StrictUnique(a: seq<Text>, b: seq<Text>)
    requires Strict(a) && Strict(b)
    requires forall x :: x in a <==> x in b
    ensures a == b
  {
    assert b != [] ==> b[0] in b;
    if a != [] {
      assert a[0] in a;
      OrderFacts();
      hide Le;
      assert a[0] == b[0] by {
        var i :| 0 <= i < |b| && b[i] == a[0];
        var j :| 0 <= j < |a| && a[j] == b[0];
      }
      var a', b' := a[1..], b[1..];
      forall x ensures x in a' <==> x in b' {
        if x in a' {
          var i :| 0 <= i < |a'| && a'[i] == x;
          assert a[i + 1] == x && x in a;
        }
        if x in b' {
          var i :| 0 <= i < |b'| && b'[i] == x;
          assert b[i + 1] == x && x in b;
        }
      }
      StrictUnique(a', b');
      assert a == [a[0]] + a' && b == [b[0]] + b';
    }
  }
}
