/** What may be absent, and a fact about finite sets. */
module Wrappers {
  datatype Option<+T> = None | Some(value: T)

  /** A part of a finite set has no more elements than the set. */
  lemma {:induction false} SubsetSize<T>(a: set<T>, b: set<T>)
    requires a <= b
    ensures |a| <= |b|
  {
    if a != {} {
      var x :| x in a;
      SubsetSize(a - {x}, b - {x});
    }
  }
}
