/** The order on names: strings compare lexicographically. */
module Keys {

  type Key = string

  predicate Less(a: Key, b: Key)
  {
    |b| > 0 && (|a| == 0 || a[0] < b[0] || (a[0] == b[0] && Less(a[1..], b[1..])))
  }

  lemma {:induction false} Trichotomy(a: Key, b: Key)
    ensures Less(a, b) || Less(b, a) || a == b
    ensures !(Less(a, b) && Less(b, a))
    ensures Less(a, b) ==> a != b
    decreases |a|
  {
    if |a| > 0 && |b| > 0 {
      Trichotomy(a[1..], b[1..]);
      if a[0] == b[0] && a[1..] == b[1..] {
        assert a == [a[0]] + a[1..] && b == [b[0]] + b[1..];
      }
    }
  }

  lemma {:induction false} Transitive(a: Key, b: Key, c: Key)
    requires Less(a, b) && Less(b, c)
    ensures Less(a, c)
    decreases |a|
  {
    if |a| > 0 && a[0] == b[0] == c[0] {
      Transitive(a[1..], b[1..], c[1..]);
    }
  }

  /** Every key of `s` is below `k`. */
  ghost predicate AllBelow(s: set<Key>, k: Key) {
    forall x :: x in s ==> Less(x, k)
  }

  /** Every key of `s` is above `k`. */
  ghost predicate AllAbove(s: set<Key>, k: Key) {
    forall x :: x in s ==> Less(k, x)
  }

  lemma BelowBelow(s: set<Key>, a: Key, b: Key)
    requires AllBelow(s, a) && Less(a, b)
    ensures AllBelow(s, b)
  {
    forall x | x in s
      ensures Less(x, b)
    {
      Transitive(x, a, b);
    }
  }

  lemma AboveAbove(s: set<Key>, a: Key, b: Key)
    requires AllAbove(s, b) && Less(a, b)
    ensures AllAbove(s, a)
  {
    forall x | x in s
      ensures Less(a, x)
    {
      Transitive(a, b, x);
    }
  }

  /** A key that is not below is not among keys that are all below. */
  lemma NotAmong(s: set<Key>, k: Key, x: Key)
    ensures AllBelow(s, k) && !Less(x, k) ==> x !in s
    ensures AllAbove(s, k) && !Less(k, x) ==> x !in s
  {
  }
}
