/** Sizes of finite sets. */
module Sets {

  lemma {:induction false} Included<T>(a: set<T>, b: set<T>)
    requires a <= b
    ensures |a| <= |b|
  {
    assert b == a + (b - a);
  }
}
