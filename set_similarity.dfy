/** `jaccard_similarity`: the size of the intersection over the size of the
    union of the two element sets, 0 when the union is empty. In both
    families the arguments are turned into sets with Python's `set(...)`, so
    the measure is written once over sets; `JaccardLists` is the form the
    callers use. */
module SetSimilarity {
  import opened Seqs

  /** A subset is no larger than its superset, and equally large only when equal. */
  lemma SubsetCardinality<T>(x: set<T>, y: set<T>)
    requires x <= y
    ensures |x| <= |y|
    ensures |x| == |y| ==> x == y
  {
    assert y == x + (y - x);
    assert x * (y - x) == {};
    if |x| == |y| {
      assert |y - x| == 0;
      assert y - x == {};
    }
  }

  function Jaccard<T>(a: set<T>, b: set<T>): (r: real)
    ensures 0.0 <= r <= 1.0
    ensures r == 0.0 <==> a * b == {}
    ensures r == 1.0 <==> a == b && a != {}
  {
    SubsetCardinality(a * b, a + b);
    var union := |a + b|;
    if union == 0 then 0.0
    else
      RatioBounds(|a * b|, union);
      assert a * b == a + b ==> a == b;
      (|a * b| as real) / (union as real)
  }

  /** A fraction `n / d` with `n <= d` lies in [0, 1], is 0 only for `n == 0`
      and 1 only for `n == d`. */
  lemma RatioBounds(n: nat, d: nat)
    requires 0 < d && n <= d
    ensures 0.0 <= (n as real) / (d as real) <= 1.0
    ensures (n as real) / (d as real) == 0.0 <==> n == 0
    ensures (n as real) / (d as real) == 1.0 <==> n == d
  {
    var r := (n as real) / (d as real);
    assert r * (d as real) == n as real;
  }

  /** `jaccard_similarity(list1, list2)` on two lists. */
  function JaccardLists<T(==)>(list1: seq<T>, list2: seq<T>): (r: real)
    ensures 0.0 <= r <= 1.0
  {
    Jaccard(Elems(list1), Elems(list2))
  }

  /** The measure is the size of the intersection over the size of the
      union, whenever the union is not empty. */
  lemma JaccardRatio<T>(a: set<T>, b: set<T>, shared: nat, total: nat)
    requires |a * b| == shared && |a + b| == total && total > 0
    ensures Jaccard(a, b) == (shared as real) / (total as real)
  {
  }

  /** The measure does not depend on the order of its arguments. */
  lemma JaccardSymmetric<T>(a: set<T>, b: set<T>)
    ensures Jaccard(a, b) == Jaccard(b, a)
  {
    assert a * b == b * a;
    assert a + b == b + a;
  }

  /** Lists with the same non-empty element set are fully similar, whatever
      their order and repetitions. */
  lemma JaccardSameElements<T>(list1: seq<T>, list2: seq<T>)
    requires Elems(list1) == Elems(list2) && list1 != []
    ensures JaccardLists(list1, list2) == 1.0
  {
    assert list1[0] in Elems(list1);
  }
}
