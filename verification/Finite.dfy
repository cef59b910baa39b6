/** The elements of a sequence as a set, and sizes of sets. */
module Finite {

  function Elements<T(==)>(s: seq<T>): set<T> {
    set x | x in s
  }

  lemma SubsetSize<T>(a: set<T>, b: set<T>)
    requires a <= b
    ensures |a| <= |b| && (|a| == |b| ==> a == b)
  {
    assert b == a + (b - a);
    assert |b| == |a| + |b - a|;
  }
}
