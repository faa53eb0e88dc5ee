/** A finite multiset has a first member under any total order. */
module Extremes {
  ghost predicate TotalOrder<T(!new)>(le: (T, T) -> bool) {
    && (forall x, y :: le(x, y) || le(y, x))
    && (forall x, y, z :: le(x, y) && le(y, z) ==> le(x, z))
  }

  ghost predicate First<T(!new)>(q: multiset<T>, le: (T, T) -> bool, c: T) {
    c in q && forall x :: x in q ==> le(c, x)
  }

  lemma {:induction false} FirstExists<T(!new)>(q: multiset<T>, le: (T, T) -> bool) returns (c: T)
    requires |q| > 0 && TotalOrder(le)
    ensures First(q, le, c)
    decreases |q|
  {
    var x :| x in q;
    var rest := q - multiset{x};
    assert q == multiset{x} + rest;
    assert forall y :: y in q ==> y == x || y in rest;
    if |rest| == 0 {
      c := x;
    } else {
      c := FirstExists(rest, le);
      if le(x, c) {
        c := x;
      }
    }
  }
}
