/** Cardinality of finite sets. */
module Sets {
  lemma {:induction false} Fewer<T(!new)>(a: set<T>, b: set<T>)
    requires forall x :: x in a ==> x in b
    ensures |a| <= |b|
  {
    if a != {} {
      var x :| x in a;
      Fewer(a - {x}, b - {x});
    }
  }
}
