/** Enumerations of finite sets, as the iteration over hash-map keys produces them. */
module Sets {

  predicate Distinct<T(==)>(ks: seq<T>) {
    forall i, j :: 0 <= i < j < |ks| ==> ks[i] != ks[j]
  }

  /** A sequence without repetitions that enumerates `s` is as long as `s` is large. */
  lemma {:induction false} EnumerationSize<T>(ks: seq<T>, s: set<T>)
    requires Distinct(ks)
    requires forall i :: 0 <= i < |ks| ==> ks[i] in s
    requires forall x :: x in s ==> x in ks
    ensures |ks| == |s|
  {
    if ks == [] {
      assert (forall x :: x !in s) ==> s == {};
    } else {
      var rest := s - {ks[0]};
      forall x | x in rest ensures x in ks[1..] {
        var i :| 0 <= i < |ks| && ks[i] == x;
        assert i != 0;
        assert ks[1..][i - 1] == x;
      }
      EnumerationSize(ks[1..], rest);
    }
  }

  /** A set of integers drawn from `[lo, hi)` has at most `hi - lo` members. */
  lemma {:induction false} SubsetOfRangeSize(s: set<int>, lo: int, hi: int)
    requires lo <= hi
    requires forall x :: x in s ==> lo <= x < hi
    ensures |s| <= hi - lo
    decreases hi - lo
  {
    if hi == lo {
      assert (forall x :: x !in s) ==> s == {};
    } else {
      var rest := s - {hi - 1};
      SubsetOfRangeSize(rest, lo, hi - 1);
      assert s <= rest + {hi - 1};
    }
  }
}
