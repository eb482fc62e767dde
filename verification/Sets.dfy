/** Cardinalities of finite sets. */
module Sets {
  lemma {:induction false} SubsetSize<T>(a: set<T>, b: set<T>)
    requires a <= b
    ensures |a| <= |b|
    ensures a != b ==> |a| < |b|
    decreases a
  {
    if a != {} {
      var x :| x in a;
      SubsetSize(a - {x}, b - {x});
      if a != b {
        assert a - {x} != b - {x} by {
          var y :| y in b && y !in a;
          assert y in b - {x};
        }
      }
    } else if b != {} {
      assert |b| > 0;
    }
  }
}
