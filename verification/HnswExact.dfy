/** When the outcome of a search and of a pick is determined. */
module HnswExact {
  import opened Basics
  import opened HnswSelect
  import opened HnswGraph
  import opened HnswSearch
  import opened HnswLinks
  import opened HnswJoin

  lemma {:induction false} QueueWithin(q: Queue, ids: set<nat>)
    requires OneEach(q) && forall x :: x in q ==> x.id in ids
    ensures |q| <= |ids|
    decreases |q|
  {
    if |q| > 0 {
      var c :| c in q;
      var rest := q - multiset{c};
      assert q == rest + multiset{c};
      assert q[c] == 1;
      forall x | x in rest
        ensures x.id in ids - {c.id}
      {
        assert x in q;
      }
      PartOf(q, rest);
      QueueWithin(rest, ids - {c.id});
    }
  }

  /** `ids` are the elements within reach of `from`. */
  ghost predicate Within(g: Links, level: nat, from: nat, ids: set<nat>) {
    from in ids && Closed(g, level, ids, ids) && forall x :: x in ids ==> Reach(g, level, from, x)
  }

  /** `q` holds exactly the elements `ids` with their distances. */
  ghost predicate Lists(k: Linking, q: Queue, ids: set<nat>) {
    OneEach(q) && forall x :: x in q <==> x.id in ids && x == Cand(k.space.From(k.query, x.id), x.id)
  }

  /** Without marks, and with fewer elements in reach than `ef`, a search lists all of them. */
  lemma SearchListsAll(k: Linking, s: Scan, top: Queue, seen: set<nat>, ids: set<nat>)
    requires Searched(s, top, seen) && s.deleted == {} && |ids| < s.ef && Within(s.links, s.layer, s.start, ids)
    requires s.space == k.space && s.query == k.query
    ensures Lists(k, top, ids)
  {
    forall v | v in seen
      ensures v in ids
    {
      ReachStaysIn(s.links, s.layer, s.start, v, ids);
    }
    QueueWithin(top, ids);
    forall v | v in ids
      ensures s.CandOf(v) in top
    {
      assert v in seen;
    }
  }

  /** The same for the candidates of a new element. */
  lemma FoundAll(k: Linking, g: Links, level: nat, from: nat, q: Queue, ids: set<nat>)
    requires Found(k, g, level, from, q) && k.deleted == {} && |ids| < k.ef && k.c !in ids
    requires Within(g, level, from, ids)
    ensures Lists(k, q, ids)
  {
    var top, seen, rest :| FoundBy(k, g, level, from, q, top, seen, rest);
    SearchListsAll(k, ScanOf(k, g, level, from), top, seen, ids);
    assert rest == top by {
      forall x: Cand
        ensures rest[x] == top[x]
      {
        assert x in top ==> x.id in ids;
      }
    }
  }

  lemma TwoMembers(q: Queue, x: Cand, y: Cand)
    requires x in q && y in q && x != y
    ensures |q| >= 2
  {
    assert q == multiset{x, y} + (q - multiset{x, y});
  }

  /** A nearest candidate that hides all others is the only one picked. */
  lemma PickNearest(space: Metric, q: Queue, m: nat, l: seq<nat>, c: Cand)
    requires OneEach(q) && Picked(space, q, m, l) && |q| >= m >= 1 && Nearest(q, c)
    requires forall x :: x in q && x != c ==> Hides(space, c, x)
    ensures l == [c.id]
  {
    var s: seq<Cand> :| PickedAs(space, q, m, l, s);
    assert Selected(space, q, m, multiset(s)) by {
      assert Unfold(0);
    }
    OnlyNearest(space, q, m, c);
    SelectionIsUnique(space, q, m, multiset(s), multiset{c});
    OneItem(s, c);
  }

  lemma OnlyNearest(space: Metric, q: Queue, m: nat, c: Cand)
    requires m >= 1 && Nearest(q, c) && forall x :: x in q && x != c ==> Hides(space, c, x)
    ensures Selected(space, q, m, multiset{c})
  {
    var r := multiset{c};
    forall x | x in q && x != c
      ensures Shadowed(space, r, x)
    {
      assert c in r && Before(c, x) && Hides(space, c, x);
    }
    assert !Shadowed(space, r, c);
  }

  lemma OneItem(s: seq<Cand>, c: Cand)
    requires multiset(s) == multiset{c}
    ensures s == [c]
  {
    assert |multiset(s)| == |s| == 1;
    assert s[0] in multiset(s);
  }

  /** A single candidate is picked as it is. */
  lemma PickOnly(space: Metric, q: Queue, m: nat, l: seq<nat>, c: Cand)
    requires Picked(space, q, m, l) && q == multiset{c} && m > 1
    ensures l == [c.id]
  {
    var s: seq<Cand> :| PickedAs(space, q, m, l, s);
    assert multiset(s) == q by {
      assert Unfold(0);
    }
    OneItem(s, c);
  }

  /** A candidate that comes after `size` others, none of which hides another, is not picked. */
  lemma PickWithout(space: Metric, q: Queue, size: nat, l: seq<nat>, z: Cand)
    requires OneEach(q) && Picked(space, q, size, l) && z in q && |q| > size
    requires forall x :: x in q && x != z ==> Before(x, z)
    requires forall x, y :: x in q && y in q && y != z && Before(x, y) ==> !Hides(space, x, y)
    ensures z.id !in l
  {
    var s: seq<Cand> :| PickedAs(space, q, size, l, s);
    var r := multiset(s);
    assert Selected(space, q, size, r) by {
      assert Unfold(0);
    }
    SomeLeftOut(q, r, size);
    var y :| y in q && y !in r;
    if y != z {
      assert !Shadowed(space, r, y);
      assert Full(r, size, y) && Before(y, z);
    }
    forall i | 0 <= i < |s|
      ensures s[i].id != z.id
    {
      assert s[i] in r;
    }
  }

  lemma SomeLeftOut(q: Queue, r: Queue, size: nat)
    requires OneEach(q) && r <= q && |r| <= size < |q|
    ensures exists y :: y in q && y !in r
  {
    if forall y :: y in q ==> y in r {
      Included(q, r, q);
    }
  }
}
