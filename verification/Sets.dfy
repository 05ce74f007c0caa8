/** Sizes of finite sets. */
module Sets {
  lemma SubsetSize<T>(a: set<T>, b: set<T>)
    requires a <= b
    ensures |a| <= |b|
  {
    assert b == a + (b - a);
  }

  lemma FewerThan<T>(some: set<T>, all: set<T>, x: T)
    requires some <= all && x in all && x !in some
    ensures |some| < |all|
  {
    SubsetSize(some, all - {x});
  }

  lemma UnionSize<T>(a: set<T>, b: set<T>)
    requires a !! b
    ensures |a + b| == |a| + |b|
  {
  }
}
