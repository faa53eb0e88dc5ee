/**
 A run after which an addition finds nothing to link to.  Element 0 is the entry point and element 1
 its neighbour; elements 2 to 5 gather around element 1 until its list is full and no longer names
 element 0.  With elements 1 to 5 marked deleted, a new vector near element 1 makes the descent arrive
 there, and from there only marked elements can be reached.
 */
module HnswStarved {
  import opened HnswSelect
  import opened HnswGraph
  import opened HnswLinks
  import opened HnswJoin
  import opened HnswExact
  import opened HnswIndex

  function Sq(x: real): (r: real)
  {
    x * x
  }

  /** Squared distance in space. */
  function Square(p: Point, q: Point): (d: real)
  {
    if |p| != 3 || |q| != 3 then 0.0 else Sq(p[0] - q[0]) + Sq(p[1] - q[1]) + Sq(p[2] - q[2])
  }

  const Vectors: seq<Point> :=
    [[0.0, 0.0, 0.0], [10.0, 0.0, 0.0], [10.0, 1.0, 0.0], [10.0, 0.0, 2.0], [10.0, -3.0, 0.0], [10.0, 0.0, -4.0], [9.0, 0.0, 0.0]]

  /** The distance between two of them. */
  function D(a: nat, b: nat): (d: real)
    requires a < 7 && b < 7
  {
    Square(Vectors[a], Vectors[b])
  }

  lemma FromHub()
    ensures D(0, 1) == D(1, 0) == 100.0 && D(2, 1) == D(1, 2) == 1.0 && D(3, 1) == D(1, 3) == 4.0
    ensures D(4, 1) == D(1, 4) == 9.0 && D(5, 1) == D(1, 5) == 16.0 && D(6, 1) == D(1, 6) == 1.0
  {
  }

  lemma FromFirst()
    ensures D(2, 0) == 101.0 && D(3, 0) == 104.0 && D(4, 0) == 109.0 && D(5, 0) == 116.0 && D(6, 0) == 81.0
  {
  }

  lemma Among()
    ensures D(2, 3) == D(3, 2) == 5.0 && D(2, 4) == D(4, 2) == 16.0 && D(3, 4) == D(4, 3) == 13.0
    ensures D(2, 5) == D(5, 2) == 17.0 && D(3, 5) == D(5, 3) == 36.0 && D(4, 5) == D(5, 4) == 25.0
  {
  }

  /** The index's vectors when `n` elements are stored. */
  function Space(n: nat): (s: Metric)
    requires n <= 7
  {
    Metric(Vectors[..n], Square)
  }

  lemma SpaceIs(n: nat, a: nat, b: nat)
    requires a < n <= 7 && b < n
    ensures Space(n).Between(a, b) == D(a, b) && Space(n).From(Vectors[b], a) == D(b, a)
  {
  }

  // ---- the graph while elements gather around element 1 ----

  /** Elements 0 and 1 name each other on level 1; on level 0 element 1 lists `hub`, all others name it. */
  ghost predicate Star(g: Links, n: nat, hub: seq<nat>) {
    |g| == n >= 2 && g[0] == [[1], [1]] && g[1] == [hub, [0]] && forall x: nat :: 2 <= x < n ==> g[x] == [[1]]
  }

  /** `hub` names elements below `n` other than 1, element 0 among them. */
  ghost predicate HubOk(hub: seq<nat>, n: nat) {
    |hub| <= 4 && 0 in hub && 1 !in hub && forall x :: x in hub ==> x < n
  }

  lemma {:induction false} SetOfSize(l: seq<nat>)
    ensures |SetOf(l)| <= |l|
  {
    if |l| > 0 {
      SetOfSize(l[1..]);
      assert SetOf(l) == {l[0]} + SetOf(l[1..]);
    }
  }

  lemma GrownStar(before: Links, n: nat, hub: seq<nat>)
    requires Star(before, n, hub)
    ensures var g := Grow(before, 0);
            |g| == n + 1 && g[n] == [[]] && g[0] == [[1], [1]] && g[1] == [hub, [0]] &&
            forall x: nat :: 2 <= x < n ==> g[x] == [[1]]
  {
  }

  /** From element 1, it and its neighbours can be reached. */
  lemma StarWithin(g: Links, n: nat, hub: seq<nat>)
    requires n <= |g| && n >= 2 && g[0] == [[1], [1]] && g[1] == [hub, [0]] && HubOk(hub, n)
    requires forall x: nat :: 2 <= x < n ==> g[x] == [[1]]
    ensures Within(g, 0, 1, {1} + SetOf(hub))
  {
    var ids := {1} + SetOf(hub);
    ReachSelf(g, 0, 1);
    forall x | x in ids
      ensures Reach(g, 0, 1, x)
    {
      if x != 1 {
        assert Linked(g, 0, 1, x);
        ReachFurther(g, 0, 1, 1, x);
      }
    }
    forall a, b | a in ids && Linked(g, 0, a, b)
      ensures b in ids
    {
      assert a == 1 || g[a][0] == [1];
    }
  }

  /** Linking a new element with 10 candidates kept, lists of 2 and 4, and no marks. */
  ghost predicate Small(k: Linking, n: nat) {
    k.m == 2 && k.ef == 10 && k.deleted == {} && k.c == n && !k.update
  }

  /** Element 1 is nearer to the query than all of `hub`, and nearer to them than the query is. */
  ghost predicate HidesAll(k: Linking, hub: seq<nat>) {
    forall x :: x in hub ==>
      k.space.From(k.query, 1) < k.space.From(k.query, x) && k.space.Between(1, x) < k.space.From(k.query, x)
  }

  /** Only element 1 is chosen. */
  lemma ChoosesHub(k: Linking, n: nat, hub: seq<nat>, q: Queue, chosen: seq<nat>)
    requires Small(k, n) && HubOk(hub, n) && HidesAll(k, hub)
    requires Lists(k, q, {1} + SetOf(hub)) && Picked(k.space, q, 2, chosen)
    ensures chosen == [1]
  {
    var c, z := Cand(k.space.From(k.query, 1), 1), Cand(k.space.From(k.query, 0), 0);
    TwoMembers(q, c, z);
    assert Nearest(q, c);
    PickNearest(k.space, q, 2, chosen, c);
  }

  lemma HubFound(k: Linking, before: Links, n: nat, hub: seq<nat>, q: Queue)
    requires Small(k, n) && Star(before, n, hub) && HubOk(hub, n) && Found(k, Grow(before, 0), 0, 1, q)
    ensures Lists(k, q, {1} + SetOf(hub))
  {
    var g0 := Grow(before, 0);
    GrownStar(before, n, hub);
    StarWithin(g0, n, hub);
    SetOfSize(hub);
    FoundAll(k, g0, 0, 1, q, {1} + SetOf(hub));
  }

  /** A new element is linked on every level that is done. */
  lemma LevelJoined(k: Linking, g0: Links, g: Links, level: nat, levels: nat, starts: seq<nat>, from: nat) returns (q: Queue, chosen: seq<nat>)
    requires DoneFrom(k, g0, g, 0, levels, starts) && level < levels && !k.update && from == starts[level + 1]
    ensures Found(k, g0, level, from, q) && Picked(k.space, q, k.m, chosen)
    ensures LinkedAs(k, g0, g, level, chosen) && EndsAt(g, k.c, level, starts[level])
  {
    assert DoneAt(k, g0, g, level, starts);
    DoneHolds(k, g0, g, level, starts);
    q, chosen :| JoinedWith(k, g0, g, level, from, q, chosen);
  }

  lemma HubChosen(k: Linking, before: Links, n: nat, hub: seq<nat>, q: Queue, chosen: seq<nat>)
    requires Small(k, n) && Star(before, n, hub) && HubOk(hub, n) && HidesAll(k, hub)
    requires Found(k, Grow(before, 0), 0, 1, q) && Picked(k.space, q, 2, chosen)
    ensures chosen == [1]
  {
    HubFound(k, before, n, hub, q);
    ChoosesHub(k, n, hub, q, chosen);
  }

  /** One more element around element 1. */
  lemma HubInsert(k: Linking, before: Links, g: Links, n: nat, hub: seq<nat>, starts: seq<nat>)
    requires Small(k, n) && Star(before, n, hub) && HubOk(hub, n) && HidesAll(k, hub)
    requires DoneFrom(k, Grow(before, 0), g, 0, 1, starts) && starts[1] == 1
    ensures |g| > 1 && |g[1]| > 0 && Star(g, n + 1, g[1][0]) && LinkedBack(k.space, 4, n, 1, hub, g[1][0])
  {
    var g0 := Grow(before, 0);
    var q, chosen := LevelJoined(k, g0, g, 0, 1, starts, 1);
    HubChosen(k, before, n, hub, q, chosen);
    GrownStar(before, n, hub);
    assert SameAt(g0, g, 1);
    assert BackAt(k.space, k.m, g0, g, n, 0, chosen, 0);
    StarAgain(g0, g, n, hub);
  }

  lemma StarAgain(g0: Links, g: Links, n: nat, hub: seq<nat>)
    requires |g0| == n + 1 > 2 && g0[0] == [[1], [1]] && g0[1] == [hub, [0]] && g0[n] == [[]]
    requires forall x: nat :: 2 <= x < n ==> g0[x] == [[1]]
    requires SameAt(g0, g, 1) && KeptAt(g0, g, 0, {n} + SetOf([1])) && On(g, n, 0) && g[n][0] == [1]
    ensures On(g, 1, 0) && Star(g, n + 1, g[1][0])
  {
    forall x: nat | x < n + 1
      ensures g[x] == if x == 0 then [[1], [1]] else if x == 1 then [g[1][0], [0]] else [[1]]
    {
      assert On(g0, x, 0) && On(g, x, 0);
      assert On(g0, 0, 1) && On(g0, 1, 1);
      assert x != 1 && x != n ==> x !in {n} + SetOf([1]);
    }
  }

  // ---- the first two elements ----

  const One: Links := [[[], []]]

  lemma PairGrown()
    ensures Grow(One, 1) == [[[], []], [[], []]]
  {
    var g := Grow(One, 1);
    assert |g| == 2 && g[0] == [[], []] && |g[1]| == 2 && g[1][0] == [] && g[1][1] == [];
    assert g[1] == [[], []];
  }

  lemma PairFound(k: Linking, g0: Links, level: nat, q: Queue)
    requires Small(k, 1) && g0 == [[[], []], [[], []]] && level < 2 && Found(k, g0, level, 0, q)
    ensures q == multiset{Cand(k.space.From(k.query, 0), 0)}
  {
    ReachSelf(g0, level, 0);
    assert Within(g0, level, 0, {0});
    FoundAll(k, g0, level, 0, q, {0});
    var c := Cand(k.space.From(k.query, 0), 0);
    assert c in q && forall x :: x in q ==> x == c;
    assert q[c] == 1;
  }

  lemma PairLevel(k: Linking, g: Links, starts: seq<nat>, level: nat)
    requires Small(k, 1) && DoneFrom(k, Grow(One, 1), g, 0, 2, starts) && level < 2 && starts[level + 1] == 0
    ensures LinkedAs(k, Grow(One, 1), g, level, [0]) && starts[level] == 0
  {
    var q, chosen := LevelJoined(k, Grow(One, 1), g, level, 2, starts, 0);
    PairGrown();
    PairFound(k, Grow(One, 1), level, q);
    PickOnly(k.space, q, 2, chosen, Cand(k.space.From(k.query, 0), 0));
  }

  lemma PairInsert(k: Linking, g: Links, starts: seq<nat>)
    requires Small(k, 1) && DoneFrom(k, Grow(One, 1), g, 0, 2, starts) && starts[2] == 0
    ensures Star(g, 2, [0])
  {
    var g0 := Grow(One, 1);
    PairGrown();
    PairLevel(k, g, starts, 1);
    PairLevel(k, g, starts, 0);
    assert BackAt(k.space, k.m, g0, g, 1, 0, [0], 0) && BackAt(k.space, k.m, g0, g, 1, 1, [0], 0);
    assert SameAt(g0, g, 2);
    assert |g| == 2 && |g[0]| == |g0[0]| == 2 && |g[1]| == |g0[1]| == 2;
    assert g[0][0] == [1] && g[0][1] == [1] && g[1][0] == [0] && g[1][1] == [0];
  }

  // ---- where the descent arrives ----

  lemma StarDescent(space: Metric, g: Links, query: Point)
    requires |g| >= 2 && |space.points| >= 2 && g[0] == [[1], [1]] && |g[1]| == 2 && g[1][1] == [0]
    requires space.From(query, 1) < space.From(query, 0)
    ensures Descent(space, g, query, 1, 0, 0) == 1
  {
    assert Swept(space, query, [1], 0) == 1;
    assert Swept(space, query, [0], 1) == 1;
    assert Walk(space, g, query, 1, 1) == 1;
    assert Walk(space, g, query, 1, 0) == 1;
  }

  // ---- the full list ----

  /** The distances around element 1: elements 2 to 5 are nearer to it than to each other, and element 0
      is farther than all of them. */
  ghost predicate Gathered(space: Metric) {
    && space.Between(0, 1) == 100.0 && space.Between(2, 1) == 1.0 && space.Between(3, 1) == 4.0
    && space.Between(4, 1) == 9.0 && space.Between(5, 1) == 16.0
    && space.Between(2, 3) == 5.0 && space.Between(2, 4) == 16.0 && space.Between(3, 4) == 13.0
    && space.Between(2, 5) == 17.0 && space.Between(3, 5) == 36.0 && space.Between(4, 5) == 25.0
  }

  /** The candidates for the list of element 1 when element 5 asks. */
  const Five: seq<Cand> := [Cand(16.0, 5), Cand(100.0, 0), Cand(1.0, 2), Cand(4.0, 3), Cand(9.0, 4)]

  lemma FiveAround(space: Metric, x: Cand)
    requires Gathered(space) && x in Around(space, 1, [5, 0, 2, 3, 4])
    ensures x in Five
  {
    AroundDistances(space, 1, [5, 0, 2, 3, 4]);
    assert x.id == 5 || x.id == 0 || x.id == 2 || x.id == 3 || x.id == 4;
    assert Five[0] in Five && Five[1] in Five && Five[2] in Five && Five[3] in Five && Five[4] in Five;
  }

  lemma NoneHides(space: Metric, x: Cand, y: Cand)
    requires Gathered(space) && x in Around(space, 1, [5, 0, 2, 3, 4]) && y in Around(space, 1, [5, 0, 2, 3, 4])
    requires y != Cand(100.0, 0) && Before(x, y)
    ensures !Hides(space, x, y)
  {
    FiveAround(space, x);
    FiveAround(space, y);
  }

  lemma FirstIsLast(space: Metric, x: Cand)
    requires Gathered(space) && x in Around(space, 1, [5, 0, 2, 3, 4]) && x != Cand(100.0, 0)
    ensures Before(x, Cand(100.0, 0))
  {
    FiveAround(space, x);
  }

  lemma FirstIsThere(space: Metric)
    requires Gathered(space)
    ensures Cand(100.0, 0) in Around(space, 1, [5, 0, 2, 3, 4])
  {
    AroundDistances(space, 1, [5, 0, 2, 3, 4]);
    assert [5, 0, 2, 3, 4][1] == 0;
  }

  /** The fifth neighbour takes the place of element 0 in the list of element 1. */
  lemma FirstIsPruned(space: Metric, now: seq<nat>)
    requires Gathered(space) && Picked(space, Around(space, 1, [5, 0, 2, 3, 4]), 4, now)
    ensures 0 !in now && forall x :: x in now ==> x in {2, 3, 4, 5}
  {
    var q, z := Around(space, 1, [5, 0, 2, 3, 4]), Cand(100.0, 0);
    AroundOk(space, 1, [5, 0, 2, 3, 4]);
    FirstIsThere(space);
    forall x | x in q && x != z
      ensures Before(x, z)
    {
      FirstIsLast(space, x);
    }
    forall x, y | x in q && y in q && y != z && Before(x, y)
      ensures !Hides(space, x, y)
    {
      NoneHides(space, x, y);
    }
    PickWithout(space, q, 4, now, z);
    AmongFive(space, now);
  }

  lemma AmongFive(space: Metric, now: seq<nat>)
    requires Picked(space, Around(space, 1, [5, 0, 2, 3, 4]), 4, now)
    ensures forall x :: x in now ==> x in {0, 2, 3, 4, 5}
  {
    var q := Around(space, 1, [5, 0, 2, 3, 4]);
    AroundOk(space, 1, [5, 0, 2, 3, 4]);
    PickedOk(space, q, 4, now);
    forall x | x in now
      ensures x in {0, 2, 3, 4, 5}
    {
      assert HasId(q, x);
    }
  }

  lemma {:induction false} AroundDistances(space: Metric, s: nat, ids: seq<nat>)
    ensures forall x :: x in Around(space, s, ids) <==> x.id in ids && x == Cand(space.Between(x.id, s), x.id)
  {
    if |ids| > 0 {
      var init, last := ids[..|ids| - 1], ids[|ids| - 1];
      AroundDistances(space, s, init);
      assert ids == init + [last];
    }
  }

  // ---- the end state ----

  ghost predicate Ready(g: Links) {
    exists hub :: Star(g, 6, hub) && forall x :: x in hub ==> x in {2, 3, 4, 5}
  }

  const Marked: set<nat> := {1, 2, 3, 4, 5}

  lemma OnlyMarkedReached(g: Links)
    requires Ready(g)
    ensures AllMarked(Grow(g, 0), Marked, 0, 1)
  {
    var hub :| Star(g, 6, hub) && forall x :: x in hub ==> x in {2, 3, 4, 5};
    var h := Grow(g, 0);
    GrownStar(g, 6, hub);
    forall a, b | a in Marked && Linked(h, 0, a, b)
      ensures b in Marked
    {
      assert a == 1 || h[a][0] == [1];
    }
    forall x | Reach(h, 0, 1, x)
      ensures x in Marked
    {
      ReachStaysIn(h, 0, 1, x, Marked);
    }
  }

  /** After the run, an addition near element 1 is starved. */
  lemma EndStarves(space: Metric, g: Links, query: Point)
    requires Ready(g) && |space.points| >= 2 && space.From(query, 1) < space.From(query, 0)
    ensures Starved(space, Grow(g, 0), Marked, query, 1, 0, 0)
  {
    var hub :| Star(g, 6, hub) && forall x :: x in hub ==> x in {2, 3, 4, 5};
    GrownStar(g, 6, hub);
    StarDescent(space, Grow(g, 0), query);
    OnlyMarkedReached(g);
  }

  // ---- the run ----

  /** Adding under a new label to an index without marks always succeeds. */
  method AddUnmarked(index: Index, point: Point, key: nat, level: nat) returns (ghost starts: seq<nat>)
    requires index.Valid() && index.deleted == {} && key !in index.labels && |index.links| < index.capacity
    requires index.entry >= 0 && level <= index.maxLevel
    modifies index
    ensures index.Valid() && index.deleted == {} && index.labels == old(index.labels)[key := |old(index.links)|]
    ensures index.entry == old(index.entry) && index.maxLevel == old(index.maxLevel)
    ensures index.space == Metric(old(index.space).points + [point], old(index.space).distance)
    ensures |index.links| == |old(index.links)| + 1
    ensures index.InsertedFrom(Grow(old(index.links), level), point, |old(index.links)|, level, index.entry, index.maxLevel, starts)
  {
    ghost var g, top, e := Grow(index.links, level), index.maxLevel, index.entry;
    var r, _ := index.AddPoint(point, key, level);
    if r == Failed(NoCandidates) {
      StarvedNeedsMarks(index.space, g, index.deleted, point, top, level, e);
    }
    starts :| index.InsertedFrom(g, point, |old(index.links)|, level, e, top, starts);
  }

  /** The index after the first `n` vectors were added under the labels `0..n`, without marks. */
  ghost predicate Stage(index: Index, n: nat)
    requires n <= 7
    reads index
  {
    && index.Valid() && index.m == 2 && index.ef == 10 && index.capacity == 10
    && index.space == Space(n) && index.deleted == {} && index.entry == 0 && index.maxLevel == 1
    && |index.links| == n && index.labels == Labels(n)
  }

  lemma SpaceNext(n: nat)
    requires n < 7
    ensures Metric(Space(n).points + [Vectors[n]], Square) == Space(n + 1)
  {
  }

  /** Label `i` names element `i`. */
  ghost function Labels(n: nat): (m: map<nat, nat>)
    ensures forall i: nat :: i in m <==> i < n
    ensures forall i: nat :: i in m ==> m[i] == i
  {
    if n == 0 then map[] else Labels(n - 1)[n - 1 := n - 1]
  }

  method AddStage(index: Index, n: nat) returns (ghost starts: seq<nat>)
    requires 2 <= n <= 5 && Stage(index, n)
    modifies index
    ensures Stage(index, n + 1)
    ensures index.InsertedFrom(Grow(old(index.links), 0), Vectors[n], n, 0, 0, 1, starts)
  {
    SpaceNext(n);
    assert Labels(n + 1) == Labels(n)[n := n];
    starts := AddUnmarked(index, Vectors[n], n, 0);
  }

  /** What linking element `n` depends on. */
  ghost function LinkingAt(n: nat): (k: Linking)
    requires n <= 6
  {
    Linking(Space(n + 1), 2, 10, {}, 0, Vectors[n], n, false)
  }

  lemma HidesAt(n: nat, x: nat)
    requires 2 <= n <= 5 && x < n && x != 1
    ensures D(n, 1) < D(n, x) && D(1, x) < D(n, x)
  {
    FromHub();
    FromFirst();
    Among();
  }

  lemma HubHides(n: nat, hub: seq<nat>)
    requires 2 <= n <= 5 && HubOk(hub, n)
    ensures HidesAll(LinkingAt(n), hub) && LinkingAt(n).space.From(Vectors[n], 1) < LinkingAt(n).space.From(Vectors[n], 0)
  {
    forall x | x in hub
      ensures D(n, 1) < D(n, x) && D(1, x) < D(n, x)
      ensures Space(n + 1).From(Vectors[n], x) == D(n, x) && Space(n + 1).Between(1, x) == D(1, x)
    {
      HidesAt(n, x);
      SpaceIs(n + 1, x, n);
      SpaceIs(n + 1, 1, x);
    }
    SpaceIs(n + 1, 1, n);
  }

  lemma HubInserted(g: Links, h: Links, n: nat, hub: seq<nat>, starts: seq<nat>)
    requires 2 <= n <= 5 && Star(g, n, hub) && HubOk(hub, n)
    requires DoneFrom(LinkingAt(n), Grow(g, 0), h, 0, 1, starts)
    requires starts[1] == Descent(LinkingAt(n).space, Grow(g, 0), Vectors[n], 1, 0, 0)
    ensures |h| > 1 && |h[1]| > 0 && Star(h, n + 1, h[1][0]) && LinkedBack(Space(n + 1), 4, n, 1, hub, h[1][0])
  {
    HubHides(n, hub);
    GrownStar(g, n, hub);
    StarDescent(LinkingAt(n).space, Grow(g, 0), Vectors[n]);
    HubInsert(LinkingAt(n), g, h, n, hub, starts);
  }

  /** Element `n` joins the star. */
  method AddOne(index: Index, n: nat, ghost hub: seq<nat>)
    requires 2 <= n <= 5 && Stage(index, n) && Star(index.links, n, hub) && HubOk(hub, n)
    modifies index
    ensures Stage(index, n + 1) && |index.links[1]| > 0
    ensures Star(index.links, n + 1, index.links[1][0]) && LinkedBack(Space(n + 1), 4, n, 1, hub, index.links[1][0])
  {
    ghost var g := index.links;
    ghost var starts := AddStage(index, n);
    assert index.LinkingOf(Vectors[n], n, 0, false) == LinkingAt(n);
    HubInserted(g, index.links, n, hub, starts);
  }

  /** The first element, on levels 0 and 1. */
  method AddFirst() returns (index: Index)
    ensures fresh(index) && Stage(index, 1) && index.links == One
  {
    index := new Index(2, 10, 10, false, Square, 1000000.0);
    SpaceNext(0);
    assert Labels(1) == Labels(0)[0 := 0];
    FirstGrown();
    var r, _ := index.AddPoint(Vectors[0], 0, 1);
  }

  lemma FirstGrown()
    ensures Grow([], 1) == One
  {
    var g := Grow([], 1);
    assert |g| == 1 && |g[0]| == 2 && g[0][0] == [] && g[0][1] == [];
    assert g[0] == [[], []];
  }

  /** The second element, on levels 0 and 1. */
  method AddSecond(index: Index)
    requires Stage(index, 1) && index.links == One
    modifies index
    ensures Stage(index, 2) && Star(index.links, 2, [0])
  {
    SpaceNext(1);
    assert Labels(2) == Labels(1)[1 := 1];
    ghost var starts := AddUnmarked(index, Vectors[1], 1, 1);
    assert index.LinkingOf(Vectors[1], 1, 0, false) == LinkingAt(1);
    PairInsert(LinkingAt(1), index.links, starts);
  }

  lemma IsGathered()
    ensures Gathered(Space(6))
  {
    FromHub();
    Among();
    SpaceIs(6, 0, 1);
    SpaceIs(6, 2, 1);
    SpaceIs(6, 3, 1);
    SpaceIs(6, 4, 1);
    SpaceIs(6, 5, 1);
    SpaceIs(6, 2, 3);
    SpaceIs(6, 2, 4);
    SpaceIs(6, 3, 4);
    SpaceIs(6, 2, 5);
    SpaceIs(6, 3, 5);
    SpaceIs(6, 4, 5);
  }

  lemma LastAsks(now: seq<nat>)
    requires LinkedBack(Space(6), 4, 5, 1, [0, 2, 3, 4], now)
    ensures forall x :: x in now ==> x in {2, 3, 4, 5}
  {
    IsGathered();
    assert [5] + [0, 2, 3, 4] == [5, 0, 2, 3, 4];
    FirstIsPruned(Space(6), now);
  }

  /** The six elements. */
  method AddSix() returns (index: Index)
    ensures fresh(index) && Stage(index, 6) && Ready(index.links)
  {
    index := AddFirst();
    AddSecond(index);
    AddOne(index, 2, [0]);
    assert [0] + [2] == [0, 2];
    AddOne(index, 3, [0, 2]);
    assert [0, 2] + [3] == [0, 2, 3];
    AddOne(index, 4, [0, 2, 3]);
    assert [0, 2, 3] + [4] == [0, 2, 3, 4];
    AddOne(index, 5, [0, 2, 3, 4]);
    LastAsks(index.links[1][0]);
    assert Star(index.links, 6, index.links[1][0]);
  }

  /** Marks the elements 1 to 5. */
  method MarkFive(index: Index)
    requires Stage(index, 6)
    modifies index`deleted
    ensures index.Valid() && index.deleted == Marked
  {
    for i := 1 to 6
      invariant index.Valid() && index.deleted == set j: nat | j in Marked && j < i
    {
      var ok := index.MarkDelete(i);
    }
  }

  /** Adding a new element under the starvation condition. */
  method AddStarved(index: Index, point: Point, key: nat, level: nat) returns (r: Outcome)
    requires index.Valid() && key !in index.labels && |index.links| < index.capacity
    requires index.entry >= 0 && level <= index.maxLevel
    requires Starved(Metric(index.space.points + [point], index.space.distance), Grow(index.links, level), index.deleted,
                     point, index.maxLevel, level, index.entry)
    modifies index
    ensures r == Failed(NoCandidates) && index.entry == old(index.entry) && index.deleted == old(index.deleted)
  {
    ghost var rewritten;
    r, rewritten := index.AddPoint(point, key, level);
  }

  method FailToAdd(index: Index) returns (r: Outcome)
    requires index.Valid() && index.space == Space(6) && index.deleted == Marked && index.labels == Labels(6)
    requires index.entry == 0 && index.maxLevel == 1 && index.capacity == 10 && |index.links| == 6 && Ready(index.links)
    modifies index
    ensures r == Failed(NoCandidates) && index.entry == 0 && index.deleted == Marked
  {
    SpaceNext(6);
    NewIsNearHub();
    EndStarves(Space(7), index.links, Vectors[6]);
    r := AddStarved(index, Vectors[6], 6, 0);
  }

  /** From an empty index: six additions, five marks, and an addition that finds nothing to link to
      although the entry point is not marked. */
  method StarvedRun() returns (index: Index, r: Outcome)
    ensures r == Failed(NoCandidates) && index.entry == 0 && index.deleted == Marked
  {
    index := AddSix();
    MarkFive(index);
    r := FailToAdd(index);
  }

  lemma NewIsNearHub()
    ensures Space(7).From(Vectors[6], 1) < Space(7).From(Vectors[6], 0)
  {
    FromHub();
    FromFirst();
    SpaceIs(7, 1, 6);
    SpaceIs(7, 0, 6);
  }
}
