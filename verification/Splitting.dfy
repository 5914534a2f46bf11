/** Cutting a string at a separator. */
module Splitting {
  import opened Common

  /** Splits at the first `c`. */
  function Split(t: string, c: char): (r: Option<(string, string)>)
    ensures r.Some? ==> c !in r.value.0 && |r.value.1| < |t|
  {
    if t == [] then None
    else if t[0] == c then Some(("", t[1..]))
    else
      match Split(t[1..], c)
      case None => None
      case Some((a, b)) => Some(([t[0]] + a, b))
  }

  lemma {:induction false} SplitFinds(a: string, c: char, b: string)
    requires c !in a
    ensures Split(a + [c] + b, c) == Some((a, b))
  {
    var t := a + [c] + b;
    if a != [] {
      assert t[1..] == a[1..] + [c] + b;
      SplitFinds(a[1..], c, b);
      assert [a[0]] + a[1..] == a;
    } else {
      assert t[1..] == b;
    }
  }
}
