/** What several models share. */
module Common {

  datatype Option<+T> = None | Some(value: T)

  /** The set of elements of a sequence. */
  function Elems<T>(s: seq<T>): (r: set<T>) {
    set x | x in s
  }

  lemma OneMore(f: nat, t: nat)
    ensures f * (t + 1) == f * t + f
    ensures (t + 1) * f == t * f + f
  {
  }
}
