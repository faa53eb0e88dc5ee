/**
 The exact k-nearest scan: a bounded queue of (distance, label) pairs, compared as pairs.  The result
 is what sorting everything and taking the first K would give.
 */
module BruteForce {
  import opened Basics
  import opened Extremes

  type Point = seq<real>

  datatype Element = Element(point: Point, tag: nat)
  datatype Hit = Hit(dist: real, tag: nat)

  type Hits = multiset<Hit>

  /** The order of `std::pair`: distance first, then label. */
  predicate Le(x: Hit, y: Hit) {
    x.dist < y.dist || (x.dist == y.dist && x.tag <= y.tag)
  }

  // ---- the top of the queue ----

  predicate Largest(q: Hits, c: Hit) {
    c in q && forall x :: x in q ==> Le(x, c)
  }

  lemma LargestExists(q: Hits)
    requires |q| > 0
    ensures exists c :: Largest(q, c)
  {
    var c := FirstExists(q, (a: Hit, b: Hit) => Le(b, a));
    assert Largest(q, c);
  }

  method Top(q: Hits) returns (c: Hit)
    requires |q| > 0
    ensures Largest(q, c)
  {
    LargestExists(q);
    c :| Largest(q, c);
  }

  // ---- the specification ----

  function HitOf(e: Element, query: Point, distance: (Point, Point) -> real): (h: Hit)
  {
    Hit(distance(query, e.point), e.tag)
  }

  /** Every element as a hit. */
  function AllHits(data: seq<Element>, query: Point, distance: (Point, Point) -> real): (q: Hits)
    ensures |q| == |data|
  {
    if |data| == 0 then
      multiset{}
    else
      AllHits(data[..|data| - 1], query, distance) + multiset{HitOf(data[|data| - 1], query, distance)}
  }

  /** Everything in `q` is at most everything in `rest`. */
  ghost predicate Below(q: Hits, rest: Hits) {
    forall x, y :: x in q && y in rest ==> Le(x, y)
  }

  /** `q` is the part of `all` with the `k` smallest hits. */
  ghost predicate Smallest(all: Hits, k: nat, q: Hits) {
    q <= all && |q| == k && Below(q, all - q)
  }

  // ---- the scan ----

  /** A hit farther than the largest kept one changes nothing. */
  lemma Skip(all: Hits, k: nat, q: Hits, h: Hit, top: Hit)
    requires Smallest(all, k, q) && Largest(q, top) && h.dist > top.dist
    ensures Smallest(all + multiset{h}, k, q)
  {
    assert all + multiset{h} - q == all - q + multiset{h};
    assert forall y :: y in all - q + multiset{h} ==> y == h || y in all - q;
  }

  /** Otherwise it is put in and the largest taken out. */
  lemma Exchange(all: Hits, k: nat, q: Hits, h: Hit, top: Hit)
    requires Smallest(all, k, q) && Largest(q + multiset{h}, top)
    ensures Smallest(all + multiset{h}, k, q + multiset{h} - multiset{top})
  {
    var r := q + multiset{h} - multiset{top};
    assert all + multiset{h} - r == all - q + multiset{top};
    forall x, y | x in r && y in all - q + multiset{top}
      ensures Le(x, y)
    {
      assert x in q + multiset{h};
      if y != top {
        assert y in all - q;
        if x !in q {
          assert x == h && h != top;
          assert top in q;
          assert Le(top, y);
        }
      }
    }
  }

  /** `last` is the distance of the largest kept hit, when there is one. */
  ghost predicate LastIs(q: Hits, last: real) {
    |q| > 0 ==> exists top :: Largest(q, top) && top.dist == last
  }

  /** The state of the scan after the elements `all`. */
  ghost function Scanned(all: Hits, k: nat, q: Hits, last: real): (v: Verdict)
  {
    if forall x {:trigger Unfold(x)} :: Unfold(x) ==> Smallest(all, k, q) && LastIs(q, last) then Holds else Fails
  }

  lemma Opened(all: Hits, k: nat, q: Hits, last: real)
    requires Scanned(all, k, q, last).Holds?
    ensures Smallest(all, k, q) && LastIs(q, last)
  {
    assert Unfold(0);
  }

  lemma Packed(all: Hits, k: nat, q: Hits, last: real)
    requires Smallest(all, k, q) && LastIs(q, last)
    ensures Scanned(all, k, q, last).Holds?
  {
  }

  lemma HitsMore(data: seq<Element>, i: nat, query: Point, distance: (Point, Point) -> real)
    requires i < |data|
    ensures AllHits(data[..i + 1], query, distance) == AllHits(data[..i], query, distance) + multiset{HitOf(data[i], query, distance)}
  {
    assert data[..i + 1][..i] == data[..i];
  }

  /** The first `k` elements are taken as they come. */
  method TakeFirst(data: seq<Element>, query: Point, distance: (Point, Point) -> real, k: nat) returns (q: Hits)
    requires k <= |data|
    ensures q == AllHits(data[..k], query, distance)
  {
    q := multiset{};
    for i := 0 to k
      invariant q == AllHits(data[..i], query, distance)
    {
      HitsMore(data, i, query, distance);
      q := q + multiset{HitOf(data[i], query, distance)};
    }
  }

  /** The scan of the first `k`, and the distance that later ones are held against. */
  method Begin(data: seq<Element>, query: Point, distance: (Point, Point) -> real, k: nat, farAway: real) returns (q: Hits, last: real)
    requires k <= |data|
    ensures q == AllHits(data[..k], query, distance) && Scanned(q, k, q, last).Holds?
  {
    q := TakeFirst(data, query, distance, k);
    last := farAway;
    if |q| > 0 {
      var top := Top(q);
      last := top.dist;
    }
    assert q - q == multiset{};
    Packed(q, k, q, last);
  }

  /** `SearchKNN` without a filter. */
  method SearchKNN(data: seq<Element>, query: Point, distance: (Point, Point) -> real, k: nat, farAway: real) returns (q: Hits)
    requires k <= |data|
    ensures Smallest(AllHits(data, query, distance), k, q)
  {
    if |data| == 0 {
      return multiset{};
    }
    var last;
    q, last := Begin(data, query, distance, k, farAway);
    ghost var all := q;
    for i := k to |data|
      invariant all == AllHits(data[..i], query, distance)
      invariant Scanned(all, k, q, last).Holds?
    {
      HitsMore(data, i, query, distance);
      var h := HitOf(data[i], query, distance);
      q, last := Offer(all, k, q, last, h);
      all := all + multiset{h};
    }
    assert data[..|data|] == data;
    Opened(all, k, q, last);
  }

  /** One element past the first `k`. */
  method Offer(ghost all: Hits, k: nat, q0: Hits, last0: real, h: Hit) returns (q: Hits, last: real)
    requires Scanned(all, k, q0, last0).Holds?
    ensures Scanned(all + multiset{h}, k, q, last).Holds?
  {
    Opened(all, k, q0, last0);
    q, last := q0, last0;
    if h.dist <= last {
      q := q + multiset{h};
      if |q| > k {
        var top := Top(q);
        Exchange(all, k, q0, h, top);
        q := q - multiset{top};
      }
      if |q| > 0 {
        var top := Top(q);
        last := top.dist;
      }
    } else if k > 0 {
      ghost var top :| Largest(q, top) && top.dist == last;
      Skip(all, k, q, h, top);
    } else {
      assert q == multiset{};
    }
    Packed(all + multiset{h}, k, q, last);
  }

  // ---- closer first ----

  ghost predicate Ascending(s: seq<Hit>) {
    forall i, j :: 0 <= i < j < |s| ==> Le(s[i], s[j])
  }

  /** The list is filled from the back: `tail` is done, `heap` still queued. */
  ghost predicate Emptying(q: Hits, heap: Hits, tail: seq<Hit>) {
    heap + multiset(tail) == q && Ascending(tail) && Below(heap, multiset(tail))
  }

  ghost function Emptied(q: Hits, heap: Hits, tail: seq<Hit>): (v: Verdict)
  {
    if forall x {:trigger Unfold(x)} :: Unfold(x) ==> Emptying(q, heap, tail) then Holds else Fails
  }

  lemma EmptyOne(q: Hits, heap: Hits, tail: seq<Hit>, top: Hit)
    requires Emptied(q, heap, tail).Holds? && Largest(heap, top)
    ensures Emptied(q, heap - multiset{top}, [top] + tail).Holds?
  {
    assert Emptying(q, heap, tail) by {
      assert Unfold(0);
    }
    var t := [top] + tail;
    assert multiset(t) == multiset{top} + multiset(tail);
    assert heap - multiset{top} + multiset(t) == heap + multiset(tail);
    forall i, j | 0 <= i < j < |t|
      ensures Le(t[i], t[j])
    {
      assert t[j] in multiset(tail);
    }
    assert Emptying(q, heap - multiset{top}, t);
  }

  lemma EmptiedAll(q: Hits, heap: Hits, result: seq<Hit>)
    requires Emptied(q, heap, result).Holds? && |heap| == 0
    ensures Ascending(result) && multiset(result) == q
  {
    assert Unfold(0);
    assert heap == multiset{};
  }

  /** `SearchKNNCloserFirst`: fills the list from the back while emptying the queue. */
  method CloserFirst(data: seq<Element>, query: Point, distance: (Point, Point) -> real, k: nat, farAway: real) returns (result: seq<Hit>)
    requires k <= |data|
    ensures Ascending(result) && Smallest(AllHits(data, query, distance), k, multiset(result))
  {
    var heap := SearchKNN(data, query, distance, k, farAway);
    result := ListUp(heap);
  }

  method ListUp(q: Hits) returns (result: seq<Hit>)
    ensures Ascending(result) && multiset(result) == q
  {
    var heap := q;
    result := seq(|heap|, _ => Hit(0.0, 0));
    var i := |heap|;
    while i > 0
      invariant i <= |result| && |heap| == i && Emptied(q, heap, result[i..]).Holds?
    {
      var top := Top(heap);
      EmptyOne(q, heap, result[i..], top);
      ghost var tail := result[i..];
      result := result[i - 1 := top];
      assert result[i - 1..] == [top] + tail;
      heap := heap - multiset{top};
      i := i - 1;
    }
    assert result[0..] == result;
    EmptiedAll(q, heap, result);
  }

  // ---- the reference: sort everything, take the first k ----

  /** An ascending list is determined by its members. */
  lemma {:induction false} AscendingIsUnique(s: seq<Hit>, t: seq<Hit>)
    requires Ascending(s) && Ascending(t) && multiset(s) == multiset(t)
    ensures s == t
  {
    if |s| == 0 {
      assert |multiset(t)| == 0;
    } else {
      assert |multiset(s)| == |s| && |multiset(t)| == |t|;
      assert s[0] in multiset(t) && t[0] in multiset(s);
      assert Le(s[0], t[0]) && Le(t[0], s[0]);
      assert s == [s[0]] + s[1..] && t == [t[0]] + t[1..];
      assert multiset(s[1..]) == multiset(s) - multiset{s[0]};
      assert multiset(t[1..]) == multiset(t) - multiset{t[0]};
      AscendingIsUnique(s[1..], t[1..]);
    }
  }

  /** The `k` smallest are determined: the first `k` of the ascending list of all. */
  lemma {:induction false} SmallestIsPrefix(all: seq<Hit>, k: nat, s: seq<Hit>)
    requires Ascending(all) && Ascending(s) && Smallest(multiset(all), k, multiset(s))
    ensures k <= |all| && s == all[..k]
  {
    var rest := multiset(all) - multiset(s);
    assert multiset(all) == multiset(s) + rest;
    var t := Sorted(rest);
    JoinAscending(s, t);
    assert multiset(s + t) == multiset(s) + multiset(t);
    AscendingIsUnique(all, s + t);
    assert |multiset(s)| == |s|;
  }

  lemma JoinAscending(s: seq<Hit>, t: seq<Hit>)
    requires Ascending(s) && Ascending(t) && Below(multiset(s), multiset(t))
    ensures Ascending(s + t)
  {
    forall i, j | 0 <= i < j < |s + t|
      ensures Le((s + t)[i], (s + t)[j])
    {
      assert i < |s| ==> (s + t)[i] in multiset(s);
      assert j >= |s| ==> (s + t)[j] in multiset(t);
    }
  }

  /** Some ascending list of the members. */
  ghost function Sorted(q: Hits): (s: seq<Hit>)
    ensures Ascending(s) && multiset(s) == q
    decreases |q|
  {
    if |q| == 0 then
      assert q == multiset{};
      []
    else
      LargestExists(q);
      var top :| Largest(q, top);
      var init := Sorted(q - multiset{top});
      SortedAppend(q, top, init);
      init + [top]
  }

  lemma SortedAppend(q: Hits, top: Hit, init: seq<Hit>)
    requires Largest(q, top) && Ascending(init) && multiset(init) == q - multiset{top}
    ensures Ascending(init + [top]) && multiset(init + [top]) == q
  {
    forall i | 0 <= i < |init|
      ensures Le(init[i], top)
    {
      assert init[i] in multiset(init);
    }
  }

  /** Both searches against the reference, for every data set, query and `k`. */
  lemma ExactNearest(data: seq<Element>, query: Point, distance: (Point, Point) -> real, k: nat, result: seq<Hit>)
    requires k <= |data|
    ensures Ascending(result) && Smallest(AllHits(data, query, distance), k, multiset(result))
      <==> result == Sorted(AllHits(data, query, distance))[..k]
  {
    var all := AllHits(data, query, distance);
    var s := Sorted(all);
    assert |multiset(s)| == |s|;
    if Ascending(result) && Smallest(all, k, multiset(result)) {
      SmallestIsPrefix(s, k, result);
    }
    PrefixIsSmallest(s, k);
  }

  lemma SplitItems(s: seq<Hit>, k: nat)
    requires k <= |s|
    ensures multiset(s[..k]) <= multiset(s) && multiset(s) - multiset(s[..k]) == multiset(s[k..]) && |multiset(s[..k])| == k
  {
    assert s == s[..k] + s[k..];
    assert multiset(s) == multiset(s[..k]) + multiset(s[k..]);
    assert |multiset(s[..k])| == |s[..k]|;
  }

  lemma PrefixBelow(s: seq<Hit>, k: nat)
    requires Ascending(s) && k <= |s|
    ensures Below(multiset(s[..k]), multiset(s[k..]))
  {
    var a, b := s[..k], s[k..];
    forall x, y | x in multiset(a) && y in multiset(b)
      ensures Le(x, y)
    {
      var i :| 0 <= i < |a| && a[i] == x;
      var j :| 0 <= j < |b| && b[j] == y;
      assert s[i] == x && s[k + j] == y;
    }
  }

  lemma PrefixAscends(s: seq<Hit>, k: nat)
    requires Ascending(s) && k <= |s|
    ensures Ascending(s[..k])
  {
  }

  lemma PrefixIsSmallest(s: seq<Hit>, k: nat)
    requires Ascending(s) && k <= |s|
    ensures Ascending(s[..k]) && Smallest(multiset(s), k, multiset(s[..k]))
  {
    PrefixAscends(s, k);
    SplitItems(s, k);
    PrefixBelow(s, k);
  }
}
