/** Sequences that stand for lists of names. */
module Sequences {
  predicate Distinct<T(==)>(list: seq<T>) { forall i, j :: 0 <= i < j < |list| ==> list[i] != list[j] }

  function Elements<T(==)>(list: seq<T>): set<T> { set x | x in list }

  /** LIMIT n, or slice(0, n) */
  function Take<T>(list: seq<T>, n: nat): seq<T> { if |list| <= n then list else list[..n] }

  lemma ElementsMore<T>(list: seq<T>, x: T)
    ensures Elements(list + [x]) == Elements(list) + {x}
  {
  }

  lemma {:induction false} DistinctCount<T>(list: seq<T>)
    requires Distinct(list)
    ensures |Elements(list)| == |list|
  {
    if list != [] {
      var init, last := list[..|list| - 1], list[|list| - 1];
      assert list == init + [last];
      DistinctCount(init);
      ElementsMore(init, last);
    }
  }
}
