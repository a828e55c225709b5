/** Counting the distinct elements of a list. */
module Lists {
  type Positive = n: int | n >= 1 witness 1

  function SetOf<T(==)>(xs: seq<T>): set<T> {
    set x | x in xs
  }

  ghost predicate Distinct<T>(xs: seq<T>) {
    forall i, j :: 0 <= i < j < |xs| ==> xs[i] != xs[j]
  }

  lemma {:induction false} DistinctCount<T>(xs: seq<T>)
    ensures |SetOf(xs)| <= |xs|
    ensures Distinct(xs) ==> |SetOf(xs)| == |xs|
  {
    if xs != [] {
      var rest := xs[..|xs| - 1];
      DistinctCount(rest);
      assert SetOf(xs) == SetOf(rest) + {xs[|xs| - 1]};
    }
  }

  lemma SubsetCount<T>(a: set<T>, b: set<T>)
    requires a <= b
    ensures |a| <= |b|
  {
    assert b == a + (b - a);
  }
}
