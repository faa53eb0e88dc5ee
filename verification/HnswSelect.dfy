/**
 Candidate queues and the neighbour-selection heuristic of the HNSW index.  A queue ordered by
 distance alone is a multiset whose `top` is any one of its farthest members; distances are reals.
 */
module HnswSelect {
  import opened Extremes

  type Point = seq<real>

  /** The stored vectors and the distance function. */
  datatype Metric = Metric(points: seq<Point>, distance: (Point, Point) -> real) {
    /** The vector of an element; ids that name no element have none. */
    function At(a: nat): (p: Point)
    {
      if a < |points| then points[a] else []
    }

    function Between(a: nat, b: nat): (d: real)
    {
      distance(At(a), At(b))
    }

    function From(query: Point, a: nat): (d: real)
    {
      distance(query, At(a))
    }
  }

  datatype Cand = Cand(dist: real, id: nat)

  type Queue = multiset<Cand>

  /** No id occurs twice. */
  ghost predicate OneEach(q: Queue) {
    forall x, y :: x in q && y in q && x.id == y.id ==> x == y && q[x] == 1
  }

  ghost predicate HasId(q: Queue, id: nat) {
    exists x :: x in q && x.id == id
  }

  /** Adding an id that is not there keeps ids distinct. */
  lemma OneMore(q: Queue, c: Cand)
    requires OneEach(q) && !HasId(q, c.id)
    ensures OneEach(q + multiset{c})
  {
    forall x, y | x in q + multiset{c} && y in q + multiset{c} && x.id == y.id
      ensures x == y && (q + multiset{c})[x] == 1
    {
      assert x in q ==> HasId(q, x.id);
      assert y in q ==> HasId(q, y.id);
    }
  }

  // ---- the top of a queue ordered by distance ----

  predicate Farthest(q: Queue, c: Cand) {
    c in q && forall x :: x in q ==> x.dist <= c.dist
  }

  lemma FarthestExists(q: Queue)
    requires |q| > 0
    ensures exists c :: Farthest(q, c)
  {
    var c := FirstExists(q, (a: Cand, b: Cand) => b.dist <= a.dist);
    assert Farthest(q, c);
  }

  method Top(q: Queue) returns (c: Cand)
    requires |q| > 0
    ensures Farthest(q, c)
  {
    FarthestExists(q);
    c :| Farthest(q, c);
  }

  // ---- the top of the queue of negated distances, which compares whole pairs ----

  /** `x` leaves the queue of negated distances before `y`: nearer, or equally near with a larger id. */
  predicate Before(x: Cand, y: Cand) {
    x.dist < y.dist || (x.dist == y.dist && x.id > y.id)
  }

  predicate Nearest(q: Queue, c: Cand) {
    c in q && forall x :: x in q && x != c ==> Before(c, x)
  }

  lemma NearestExists(q: Queue)
    requires |q| > 0
    ensures exists c :: Nearest(q, c)
  {
    var c := FirstExists(q, (a: Cand, b: Cand) => a == b || Before(a, b));
    assert Nearest(q, c);
  }

  method Closest(q: Queue) returns (c: Cand)
    requires |q| > 0
    ensures Nearest(q, c)
  {
    NearestExists(q);
    c :| Nearest(q, c);
  }

  // ---- what the heuristic selects ----

  /** `x` is nearer to `c` than the query is. */
  ghost predicate Hides(m: Metric, x: Cand, c: Cand) {
    m.Between(x.id, c.id) < c.dist
  }

  /** Some member of `r` that comes before `c` is nearer to `c` than the query is. */
  ghost predicate Shadowed(m: Metric, r: Queue, c: Cand) {
    exists x :: x in r && Before(x, c) && Hides(m, x, c)
  }

  /** No member of `r` is nearer to an earlier one than to the query. */
  ghost predicate Apart(m: Metric, r: Queue) {
    forall y :: y in r ==> !Shadowed(m, r, y)
  }

  /** `r` has no room and everything in it comes before `c`. */
  ghost predicate Full(r: Queue, size: nat, c: Cand) {
    |r| == size && forall x :: x in r ==> Before(x, c)
  }

  /** `r` is the diverse selection of at most `size` candidates from `q`. */
  ghost predicate Selected(m: Metric, q: Queue, size: nat, r: Queue) {
    r <= q && |r| <= size && Apart(m, r) &&
    forall c :: c in q ==> c in r || Shadowed(m, r, c) || Full(r, size, c)
  }

  /** The selection is unique. */
  lemma SelectionIsUnique(m: Metric, q: Queue, size: nat, r: Queue, s: Queue)
    requires OneEach(q) && Selected(m, q, size, r) && Selected(m, q, size, s)
    ensures r == s
  {
    if r != s {
      var diff := (r - s) + (s - r);
      SameMembers(r, s);
      NearestExists(diff);
      var c :| Nearest(diff, c);
      assert (s - r) + (r - s) == diff;
      assert c in q;
      FirstDifference(m, q, size, r, s, c);
      FirstDifference(m, q, size, s, r, c);
    }
  }

  lemma SameMembers(r: Queue, s: Queue)
    requires r != s
    ensures |(r - s) + (s - r)| > 0
  {
    var x :| r[x] != s[x];
    assert x in (r - s) + (s - r);
  }

  /** Under distinct ids, inclusion of members is inclusion. */
  lemma Included(q: Queue, r: Queue, s: Queue)
    requires OneEach(q) && r <= q && s <= q && forall x :: x in s ==> x in r
    ensures s <= r && |s| <= |r|
  {
    forall x
      ensures s[x] <= r[x]
    {
      assert x in s ==> q[x] == 1;
    }
    assert r == s + (r - s);
  }

  lemma SharedBefore(r: Queue, s: Queue, c: Cand, x: Cand)
    requires Nearest((r - s) + (s - r), c) && x in s && Before(x, c)
    ensures x in r
  {
    assert x !in r ==> x in s - r;
    assert x !in r ==> x in (r - s) + (s - r);
  }

  /** A selection that stopped for lack of room before `c` cannot be part of a larger one. */
  lemma NoRoomTwice(q: Queue, size: nat, r: Queue, s: Queue, c: Cand)
    requires OneEach(q) && r <= q && s <= q && c in r && c !in s && |s| == size
    requires forall x :: x in s ==> x in r
    ensures |r| > size
  {
    var t := s + multiset{c};
    assert forall x :: x in t ==> x in r;
    forall x
      ensures t[x] <= q[x]
    {
      assert c in q;
    }
    Included(q, r, t);
  }

  /** What one selection left out, another with the same earlier members leaves out too. */
  lemma SameVerdict(m: Metric, q: Queue, size: nat, r: Queue, s: Queue, c: Cand)
    requires OneEach(q) && Selected(m, q, size, r) && Selected(m, q, size, s)
    requires c in q && c !in s && forall x :: x in s && Before(x, c) ==> x in r
    ensures c !in r
  {
    if Shadowed(m, s, c) {
      assert Shadowed(m, r, c);
    } else if c in r {
      NoRoomTwice(q, size, r, s, c);
    }
  }

  /** The first candidate on which two selections differ is in neither more than in the other. */
  lemma FirstDifference(m: Metric, q: Queue, size: nat, r: Queue, s: Queue, c: Cand)
    requires OneEach(q) && Selected(m, q, size, r) && Selected(m, q, size, s)
    requires c in q && Nearest((r - s) + (s - r), c)
    ensures c !in r - s
  {
    assert r[c] <= q[c] == 1;
    forall x | x in s && Before(x, c)
      ensures x in r
    {
      SharedBefore(r, s, c, x);
    }
    if c !in s {
      SameVerdict(m, q, size, r, s, c);
    }
  }

  /** The inner loop: is `c` at least as far from everything kept as from the query? */
  method FarFromAll(m: Metric, kept: seq<Cand>, c: Cand) returns (far: bool)
    ensures far <==> forall i :: 0 <= i < |kept| ==> !Hides(m, kept[i], c)
  {
    for i := 0 to |kept|
      invariant forall j :: 0 <= j < i ==> !Hides(m, kept[j], c)
    {
      if m.Between(kept[i].id, c.id) < c.dist {
        assert Hides(m, kept[i], c);
        return false;
      }
    }
    return true;
  }

  // ---- the rounds of the heuristic: `kept` chosen, `rest` still to look at ----

  /** `kept` is in the order of the queue, and no member is nearer to an earlier one than to the query. */
  ghost predicate Spread(m: Metric, kept: seq<Cand>) {
    forall i, j :: 0 <= i < j < |kept| ==> !Before(kept[j], kept[i]) && !Hides(m, kept[i], kept[j])
  }

  /** `x` does not come before any of `kept`. */
  ghost predicate NotBefore(kept: seq<Cand>, x: Cand) {
    forall i :: 0 <= i < |kept| ==> !Before(x, kept[i])
  }

  /** Some member of `kept` that `x` does not come before is nearer to `x` than the query is. */
  ghost predicate HiddenBy(m: Metric, kept: seq<Cand>, x: Cand) {
    exists i :: 0 <= i < |kept| && !Before(x, kept[i]) && Hides(m, kept[i], x)
  }

  ghost predicate Choosing(m: Metric, q: Queue, kept: seq<Cand>, rest: Queue) {
    multiset(kept) + rest <= q && Spread(m, kept) && (forall y :: y in rest ==> NotBefore(kept, y)) &&
    forall x :: x in q - (multiset(kept) + rest) ==> HiddenBy(m, kept, x)
  }

  /** What the heuristic makes of any queue: `kept` is spread out, and whatever was left out is hidden by
      a kept one or comes after `size` kept ones. */
  ghost predicate Greedy(m: Metric, q: Queue, size: nat, kept: seq<Cand>) {
    multiset(kept) <= q && |kept| <= size && Spread(m, kept) &&
    forall x :: x in q - multiset(kept) ==> HiddenBy(m, kept, x) || (|kept| == size && NotBefore(kept, x))
  }

  lemma DropOne(m: Metric, q: Queue, kept: seq<Cand>, rest: Queue, c: Cand)
    requires Choosing(m, q, kept, rest) && Nearest(rest, c) && HiddenBy(m, kept, c)
    ensures Choosing(m, q, kept, rest - multiset{c})
  {
    assert q - (multiset(kept) + (rest - multiset{c})) == q - (multiset(kept) + rest) + multiset{c};
  }

  lemma KeepOne(m: Metric, q: Queue, kept: seq<Cand>, rest: Queue, c: Cand)
    requires Choosing(m, q, kept, rest) && Nearest(rest, c)
    requires forall i :: 0 <= i < |kept| ==> !Hides(m, kept[i], c)
    ensures Choosing(m, q, kept + [c], rest - multiset{c})
  {
    var kept' := kept + [c];
    assert multiset(kept') + (rest - multiset{c}) == multiset(kept) + rest;
    assert NotBefore(kept, c);
    forall y | y in rest - multiset{c}
      ensures NotBefore(kept', y)
    {
      assert y in rest && NotBefore(kept, y);
    }
    forall x | x in q - (multiset(kept) + rest)
      ensures HiddenBy(m, kept', x)
    {
      var i :| 0 <= i < |kept| && !Before(x, kept[i]) && Hides(m, kept[i], x);
      assert kept'[i] == kept[i];
    }
  }

  /** When nothing is left to look at, or there is no room, the rounds are over. */
  lemma RoundsOver(m: Metric, q: Queue, size: nat, kept: seq<Cand>, rest: Queue)
    requires Choosing(m, q, kept, rest) && |kept| <= size && (|rest| == 0 || |kept| == size)
    ensures Greedy(m, q, size, kept)
  {
    forall x | x in q - multiset(kept)
      ensures HiddenBy(m, kept, x) || (|kept| == size && NotBefore(kept, x))
    {
      assert x !in rest ==> x in q - (multiset(kept) + rest);
    }
    assert |rest| == 0 ==> rest == multiset{};
  }

  method Choose(m: Metric, q: Queue, size: nat) returns (kept: seq<Cand>)
    ensures Greedy(m, q, size, kept)
    ensures |q| > 0 && size > 0 ==> |kept| > 0
  {
    var rest := q;
    kept := [];
    while |rest| > 0
      invariant Choosing(m, q, kept, rest) && |kept| <= size
      invariant kept == [] ==> rest == q
      decreases |rest|
    {
      if |kept| >= size {
        break;
      }
      var c := Closest(rest);
      var far := FarFromAll(m, kept, c);
      if far {
        KeepOne(m, q, kept, rest, c);
        kept := kept + [c];
      } else {
        assert NotBefore(kept, c);
        DropOne(m, q, kept, rest, c);
      }
      rest := rest - multiset{c};
    }
    RoundsOver(m, q, size, kept, rest);
  }

  /** For a queue that names no element twice this is the diverse selection. */
  lemma GreedyIsSelected(m: Metric, q: Queue, size: nat, kept: seq<Cand>)
    requires OneEach(q) && Greedy(m, q, size, kept)
    ensures Selected(m, q, size, multiset(kept))
  {
    var r := multiset(kept);
    forall y | y in r
      ensures !Shadowed(m, r, y)
    {
      KeptNotShadowed(m, kept, y);
    }
    forall c | c in q && c !in r
      ensures Shadowed(m, r, c) || Full(r, size, c)
    {
      assert c in q - r;
      LeftOut(m, q, size, kept, c);
    }
  }

  lemma KeptNotShadowed(m: Metric, kept: seq<Cand>, y: Cand)
    requires Spread(m, kept) && y in kept
    ensures !Shadowed(m, multiset(kept), y)
  {
    var j :| 0 <= j < |kept| && kept[j] == y;
    forall x | x in multiset(kept) && Before(x, y)
      ensures !Hides(m, x, y)
    {
      var i :| 0 <= i < |kept| && kept[i] == x;
      assert i != j;
    }
  }

  lemma LeftOut(m: Metric, q: Queue, size: nat, kept: seq<Cand>, c: Cand)
    requires OneEach(q) && multiset(kept) <= q && c in q && c !in multiset(kept)
    requires HiddenBy(m, kept, c) || (|kept| == size && NotBefore(kept, c))
    ensures Shadowed(m, multiset(kept), c) || Full(multiset(kept), size, c)
  {
    forall i | 0 <= i < |kept|
      ensures kept[i] in multiset(kept) && (!Before(c, kept[i]) ==> Before(kept[i], c))
    {
      assert kept[i] in multiset(kept) && kept[i] in q;
    }
    if HiddenBy(m, kept, c) {
      var i :| 0 <= i < |kept| && !Before(c, kept[i]) && Hides(m, kept[i], c);
      assert Before(kept[i], c);
    } else {
      assert |multiset(kept)| == |kept|;
    }
  }

  /** `r` consists of what the heuristic keeps of `q`. */
  ghost predicate Kept(m: Metric, q: Queue, size: nat, r: Queue) {
    exists kept :: Greedy(m, q, size, kept) && multiset(kept) == r
  }

  /**
   `getNeighborsByHeuristic2`: fewer candidates than `size` are left alone; otherwise what the rounds
   keep, which is the diverse selection when no element is named twice.
   */
  method SelectNeighbors(m: Metric, q: Queue, size: nat) returns (r: Queue)
    ensures |q| < size ==> r == q
    ensures |q| >= size ==> Kept(m, q, size, r)
    ensures |r| <= size && r <= q
    ensures |q| > 0 && size > 0 ==> |r| > 0
    ensures OneEach(q) ==> OneEach(r) && (|q| >= size ==> Selected(m, q, size, r))
  {
    if |q| < size {
      return q;
    }
    var topK := q;
    var closest: Queue := multiset{};
    while |topK| > 0
      invariant topK + closest == q
      decreases |topK|
    {
      var c := Top(topK);
      closest := closest + multiset{c};
      topK := topK - multiset{c};
    }
    assert closest == q;
    var kept := Choose(m, closest, size);
    r := multiset(kept);
    if OneEach(q) {
      GreedyIsSelected(m, q, size, kept);
      PartOf(q, r);
    }
  }

  lemma PartOf(q: Queue, r: Queue)
    requires OneEach(q) && r <= q
    ensures OneEach(r)
  {
  }

  // ---- emptying a queue ----

  function Ids(s: seq<Cand>): (r: seq<nat>)
    ensures |r| == |s| && forall i :: 0 <= i < |s| ==> r[i] == s[i].id
  {
    seq(|s|, i requires 0 <= i < |s| => s[i].id)
  }

  ghost predicate Falling(s: seq<Cand>) {
    forall i, j :: 0 <= i < j < |s| ==> s[i].dist >= s[j].dist
  }

  ghost predicate Beyond(s: seq<Cand>, rest: Queue) {
    forall i, x :: 0 <= i < |s| && x in rest ==> s[i].dist >= x.dist
  }

  lemma ListOne(s: seq<Cand>, rest: Queue, c: Cand)
    requires Falling(s) && Beyond(s, rest) && Farthest(rest, c)
    ensures Falling(s + [c]) && Beyond(s + [c], rest - multiset{c})
  {
  }

  /** `s` lists the queue from the farthest to the nearest. */
  ghost predicate Listing(q: Queue, s: seq<Cand>) {
    multiset(s) == q && Falling(s)
  }

  method Drain(q: Queue) returns (s: seq<Cand>)
    ensures Listing(q, s) && |s| == |q|
  {
    s := [];
    var rest := q;
    while |rest| > 0
      invariant multiset(s) + rest == q && Falling(s) && Beyond(s, rest)
      decreases |rest|
    {
      var c := Top(rest);
      ListOne(s, rest, c);
      s := s + [c];
      rest := rest - multiset{c};
    }
  }

  lemma ListingIsDistinct(q: Queue, s: seq<Cand>)
    requires OneEach(q) && Listing(q, s)
    ensures forall i, j :: 0 <= i < j < |s| ==> s[i].id != s[j].id
  {
    forall i, j | 0 <= i < j < |s|
      ensures s[i].id != s[j].id
    {
      assert s == s[..j] + [s[j]] + s[j + 1..];
      assert multiset(s)[s[j]] >= multiset(s[..j])[s[j]] + 1;
      assert s[i] == s[..j][i] && s[i] in multiset(s[..j]);
      assert s[i] in q && s[j] in q;
    }
  }
}
