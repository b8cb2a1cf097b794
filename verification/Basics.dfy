/** Small facts about numbers and lists of them that several modules need. */
module Basics {
  /** No number occurs twice. */
  ghost predicate Distinct(ns: seq<nat>)
  {
    forall i, j :: 0 <= i < j < |ns| ==> ns[i] != ns[j]
  }

  function Elements(ns: seq<nat>): set<nat>
  {
    set n | n in ns
  }

  lemma {:induction false} DistinctSize(ns: seq<nat>)
    requires Distinct(ns)
    ensures |Elements(ns)| == |ns|
  {
    if ns != [] {
      var front, last := ns[..|ns| - 1], ns[|ns| - 1];
      DistinctSize(front);
      assert Elements(ns) == Elements(front) + {last};
    }
  }

  lemma {:induction false} ProductGrows(c: nat, x: nat, y: nat)
    requires x <= y
    ensures 0 <= c * x <= c * y
  {
    assert c * y == c * x + c * (y - x);
  }
}
