// What the modules share: the result type that stands for Go's (value, error) pairs,
// and counting.
module Wrappers {
  datatype Option<+T> = None | Some(value: T)

  lemma {:induction false} Fewer<T>(a: set<T>, b: set<T>)
    requires a <= b
    ensures |a| <= |b|
  {
    if a != {} {
      var x :| x in a;
      Fewer(a - {x}, b - {x});
    }
  }
}
