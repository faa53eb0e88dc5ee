/** The HNSW index: insertion and update of elements, and the deleted marks. */
module HnswIndex {
  import opened HnswSelect
  import opened HnswGraph
  import opened HnswSearch
  import opened HnswLinks
  import opened HnswJoin

  /** Why `addPoint` gives up: two exceptions, and a layer search that found nothing to link to. */
  datatype Failure = LabelDeleted | IndexFull | NoCandidates
  datatype Outcome = Stored(id: nat) | Failed(why: Failure)

  ghost predicate NoNearerNeighbor(space: Metric, g: Links, query: Point, level: nat, cur: nat) {
    On(g, cur, level) && forall x :: x in g[cur][level] ==> space.From(query, cur) <= space.From(query, x)
  }

  /** The elements nearer to the query than `d`. */
  ghost function Nearer(space: Metric, query: Point, d: real): (r: set<nat>)
  {
    set i: nat | i < |space.points| && space.From(query, i) < d
  }

  // ---- the greedy descent as a function ----

  /** The best of `best` and a list, looked at in order; only a strictly nearer element replaces it. */
  ghost function Swept(space: Metric, query: Point, list: seq<nat>, best: nat): (r: nat)
    ensures r == best || (r in list && space.From(query, r) < space.From(query, best))
    ensures forall x :: x in list ==> space.From(query, r) <= space.From(query, x)
  {
    if list == [] then best
    else Swept(space, query, list[1..], if space.From(query, list[0]) < space.From(query, best) then list[0] else best)
  }

  /** Where repeated sweeps end on one level. */
  ghost function Walk(space: Metric, g: Links, query: Point, level: nat, cur: nat): (r: nat)
    decreases Nearer(space, query, space.From(query, cur))
  {
    if !On(g, cur, level) then cur
    else
      var next := Swept(space, query, g[cur][level], cur);
      if next == cur || next >= |space.points| then cur
      else
        NearerShrinks(space, query, next, cur);
        Walk(space, g, query, level, next)
  }

  lemma NearerShrinks(space: Metric, query: Point, a: nat, b: nat)
    requires a < |space.points| && space.From(query, a) < space.From(query, b)
    ensures Nearer(space, query, space.From(query, a)) < Nearer(space, query, space.From(query, b))
  {
    assert a in Nearer(space, query, space.From(query, b));
    assert a !in Nearer(space, query, space.From(query, a));
  }

  /** Where the descent from level `top` arrives at `level`. */
  ghost function Descent(space: Metric, g: Links, query: Point, top: nat, level: nat, cur: nat): (r: nat)
    requires level <= top
  {
    if top == level then cur else Descent(space, g, query, top - 1, level, Walk(space, g, query, top, cur))
  }

  /** `to` is reached from `from` along the lists of a level, is no farther, and has no nearer neighbour there. */
  ghost predicate LevelWalked(space: Metric, g: Links, query: Point, level: nat, from: nat, to: nat) {
    && Reach(g, level, from, to) && space.From(query, to) <= space.From(query, from)
    && NoNearerNeighbor(space, g, query, level, to)
  }

  lemma {:induction false} WalkIsLocal(space: Metric, g: Links, m: nat, query: Point, level: nat, from: nat, cur: nat)
    requires GraphOk(g, m) && |space.points| == |g| && On(g, cur, level)
    requires Reach(g, level, from, cur) && space.From(query, cur) <= space.From(query, from)
    ensures LevelWalked(space, g, query, level, from, Walk(space, g, query, level, cur))
    decreases Nearer(space, query, space.From(query, cur))
  {
    assert ListOk(g, m, cur, level, g[cur][level]);
    var next := Swept(space, query, g[cur][level], cur);
    if next != cur {
      NearerShrinks(space, query, next, cur);
      assert Linked(g, level, cur, next);
      ReachFurther(g, level, from, cur, next);
      WalkIsLocal(space, g, m, query, level, from, next);
    }
  }

  /** The descent arrives at a level from where it arrived at the level above. */
  lemma {:induction false} DescentStep(space: Metric, g: Links, query: Point, top: nat, level: nat, cur: nat)
    requires level < top
    ensures Descent(space, g, query, top, level, cur) ==
              Walk(space, g, query, level + 1, Descent(space, g, query, top, level + 1, cur))
    decreases top
  {
    if level + 1 < top {
      DescentStep(space, g, query, top - 1, level, Walk(space, g, query, top, cur));
    }
  }

  /** The descent walked on level `l + 1` from where it was to an element without a nearer neighbour there. */
  ghost predicate WalkedDown(space: Metric, g: Links, query: Point, top: nat, l: nat, start: nat) {
    && l < top
    && LevelWalked(space, g, query, l + 1, Descent(space, g, query, top, l + 1, start), Descent(space, g, query, top, l, start))
  }

  /** It did so on every level from the top to the one above the target. */
  lemma {:induction false} DescentIsLocal(space: Metric, g: Links, m: nat, query: Point, top: nat, level: nat, start: nat)
    requires GraphOk(g, m) && |space.points| == |g| && On(g, start, top) && level <= top
    ensures On(g, Descent(space, g, query, top, level, start), level)
    ensures space.From(query, Descent(space, g, query, top, level, start)) <= space.From(query, start)
    ensures forall l: nat :: level <= l < top ==> WalkedDown(space, g, query, top, l, start)
    decreases top - level
  {
    if level < top {
      DescentIsLocal(space, g, m, query, top, level + 1, start);
      OneLevelDown(space, g, m, query, top, level, start);
    }
  }

  lemma OneLevelDown(space: Metric, g: Links, m: nat, query: Point, top: nat, level: nat, start: nat)
    requires GraphOk(g, m) && |space.points| == |g| && level < top
    requires On(g, Descent(space, g, query, top, level + 1, start), level + 1)
    ensures WalkedDown(space, g, query, top, level, start)
  {
    var at := Descent(space, g, query, top, level + 1, start);
    DescentStep(space, g, query, top, level, start);
    ReachSelf(g, level + 1, at);
    WalkIsLocal(space, g, m, query, level + 1, at, at);
  }

  /** The exact condition under which an insertion finds nothing to link to: the entry point `e` is not
      marked, and from where the descent arrives only marked elements can be reached. */
  ghost predicate Starved(space: Metric, g: Links, deleted: set<nat>, query: Point, top: nat, level: nat, e: nat)
    requires level <= top
  {
    e !in deleted && AllMarked(g, deleted, level, Descent(space, g, query, top, level, e))
  }

  /** Nobody names `c`. */
  ghost predicate Nowhere(g: Links, c: nat) {
    forall level: nat :: Unlinked(g, c, level)
  }

  /** The descent never arrives at an element that nobody names. */
  lemma {:induction false} DescentAvoids(space: Metric, g: Links, m: nat, query: Point, top: nat, level: nat, start: nat)
    requires GraphOk(g, m) && |space.points| == |g| && On(g, start, top) && level <= top
    ensures forall c: nat :: start != c && Nowhere(g, c) ==> Descent(space, g, query, top, level, start) != c
    decreases top - level
  {
    if level < top {
      var at := Descent(space, g, query, top, level + 1, start);
      DescentAvoids(space, g, m, query, top, level + 1, start);
      DescentIsLocal(space, g, m, query, top, level + 1, start);
      OneLevelDown(space, g, m, query, top, level, start);
      forall c: nat | start != c && Nowhere(g, c)
        ensures Descent(space, g, query, top, level, start) != c
      {
        NewIsNotReached(g, m, level + 1, at, Descent(space, g, query, top, level, start), c);
      }
    }
  }

  /** What a search lists is fit for linking, except for elements it passed through. */
  lemma ListedFit(k: Scan, seen: set<nat>, top: Queue, c: nat)
    requires Sound(k, seen, multiset{}) && BestOf(k, seen, top) && c !in seen
    ensures Fit(k.links, top, c, k.layer)
  {
  }

  lemma UnmarkedOnly(k: Scan, seen: set<nat>, top: Queue, e: nat)
    requires BestOf(k, seen, top) && e in k.deleted
    ensures !HasId(top, e)
  {
  }

  /** The candidates of a new element, which no search reaches. */
  lemma FoundNew(k: Linking, g: Links, level: nat, from: nat, q: Queue, top: Queue, seen: set<nat>)
    requires Searched(ScanOf(k, g, level, from), top, seen) && !k.update && Fit(g, top, k.c, level) && Offered(k, top, q)
    ensures Found(k, g, level, from, q)
  {
    assert WithoutId(top, k.c, top);
    assert FoundBy(k, g, level, from, q, top, seen, top);
  }

  lemma LeftAlone(k: Linking, g: Links, level: nat, cur: nat)
    requires k.update && Found(k, g, level, cur, multiset{})
    ensures LevelDone(k, g, g, level, cur, cur) && OnlyLevel(g, g, level)
  {
  }

  /** A new element is still unlinked on the other levels. */
  lemma StillBlank(g: Links, h: Links, level: nat, c: nat, l: nat)
    requires OnlyLevel(g, h, level) && l != level && On(g, c, l) && Unlinked(g, c, l) && g[c][l] == []
    ensures On(h, c, l) && Unlinked(h, c, l) && h[c][l] == []
  {
    forall id: nat | On(h, id, l)
      ensures c !in h[id][l]
    {
      assert On(g, id, l);
    }
  }

  lemma StillBlankBelow(g: Links, h: Links, level: nat, c: nat)
    requires OnlyLevel(g, h, level) && BlankBelow(g, c, level + 1)
    ensures BlankBelow(h, c, level)
  {
    forall l: nat | l < level
      ensures Unlinked(h, c, l) && On(h, c, l) && h[c][l] == []
    {
      StillBlank(g, h, level, c, l);
    }
  }

  /** `c` is not linked on the levels below `levels`. */
  ghost predicate BlankBelow(g: Links, c: nat, levels: nat) {
    forall l: nat :: l < levels ==> Unlinked(g, c, l) && On(g, c, l) && g[c][l] == []
  }

  /** Everything reachable from `start` on the layer is marked deleted. */
  ghost predicate AllMarked(g: Links, deleted: set<nat>, layer: nat, start: nat) {
    forall x :: Reach(g, layer, start, x) ==> x in deleted
  }

  /** With update probability 1 every neighbour is drawn. */
  predicate EveryDraw(layer: nat, x: nat) {
    true
  }

  class Index {
    const m: nat
    const ef: nat
    const capacity: nat
    const reuse: bool
    const farAway: real
    var space: Metric
    var links: Links
    var deleted: set<nat>
    var labels: map<nat, nat>
    var entry: int
    var maxLevel: int

    /** The links are in order and there is a vector for every element. */
    ghost predicate Linkable()
      reads this
    {
      0 < m <= ef && GraphOk(links, m) && |space.points| == |links| <= capacity
    }

    /** The entry point is an element of the highest level. */
    ghost predicate Entered()
      reads this
    {
      if |links| == 0 then entry == -1 && maxLevel == -1
      else 0 <= entry < |links| && |links[entry]| == maxLevel + 1
    }

    /** Everything but the labels is in order. */
    ghost predicate InOrder()
      reads this
    {
      Linkable() && Entered() &&
      (forall id: nat :: id < |links| ==> 0 < |links[id]| <= maxLevel + 1) &&
      (forall id :: id in deleted ==> id < |links|)
    }

    ghost predicate Valid()
      reads this
    {
      InOrder() && forall l :: l in labels ==> labels[l] < |links|
    }

    constructor (m: nat, efConstruction: nat, capacity: nat, reuse: bool, distance: (Point, Point) -> real, farAway: real)
      requires m > 0
      ensures Valid() && links == [] && labels == map[] && deleted == {}
      ensures this.m == (if m <= 10000 then m else 10000) && this.ef == (if efConstruction < this.m then this.m else efConstruction)
      ensures this.capacity == capacity && this.reuse == reuse && space == Metric([], distance)
    {
      var links_per_node := if m <= 10000 then m else 10000;
      this.m := links_per_node;
      this.ef := if efConstruction < links_per_node then links_per_node else efConstruction;
      this.capacity, this.reuse, this.farAway := capacity, reuse, farAway;
      space, links, deleted, labels := Metric([], distance), [], {}, map[];
      entry, maxLevel := -1, -1;
    }

    // ---- connecting ----

    /**
     `mutuallyConnectNewElement`.  The source's checks (a blank list for a new element, no link to
     itself, no link to an absent level, no over-long list) never fire.
     */
    method MutuallyConnect(c: nat, q: Queue, level: nat, update: bool) returns (next: nat, ghost chosen: seq<nat>)
      requires Linkable() && On(links, c, level) && Fit(links, q, c, level) && |q| > 0
      requires !update ==> Unlinked(links, c, level) && links[c][level] == []
      modifies this`links
      ensures Picked(space, q, m, chosen) && EndsNearest(q, chosen) && next == chosen[|chosen| - 1]
      ensures Joined(space, m, old(links), links, c, level, chosen, |chosen|)
      ensures On(links, next, level) && next != c
    {
      var selected := Pick(space, q, m);
      JoinStart(space, m, links, q, c, level, selected);
      chosen := selected;
      next := selected[|selected| - 1];
      links := SetList(links, c, level, selected);
      for i := 0 to |selected|
        invariant Joined(space, m, old(links), links, c, level, selected, i)
      {
        NotAsked(space, m, old(links), links, c, level, selected, i);
        var s := selected[i];
        var list := LinkBack(space, Cap(m, level), c, s, links[s][level], update);
        JoinStep(space, m, old(links), links, c, level, selected, i, list);
        links := SetList(links, s, level, list);
      }
      assert AllOn(old(links), selected, level);
      assert On(old(links), next, level);
    }

    // ---- greedy descent ----

    /** One pass over the neighbours of `node`. */
    method Sweep(query: Point, node: nat, level: nat) returns (cur: nat, changed: bool)
      requires Linkable() && On(links, node, level)
      ensures cur == Swept(space, query, links[node][level], node) && (changed <==> cur != node)
      ensures On(links, cur, level)
    {
      cur, changed := node, false;
      var dist := space.From(query, cur);
      var list := links[node][level];
      assert ListOk(links, m, node, level, list);
      for i := 0 to |list|
        invariant dist == space.From(query, cur) && (cur == node || cur in list)
        invariant Swept(space, query, list[i..], cur) == Swept(space, query, list, node)
        invariant changed <==> dist < space.From(query, node)
        invariant !changed ==> cur == node
      {
        assert list[i..][0] == list[i] && list[i..][1..] == list[i + 1..];
        var d := space.From(query, list[i]);
        if d < dist {
          dist, cur, changed := d, list[i], true;
        }
      }
    }

    /** The search for a local minimum on one level. */
    method DescendOne(query: Point, start: nat, level: nat) returns (cur: nat)
      requires Linkable() && On(links, start, level)
      ensures cur == Walk(space, links, query, level, start)
      ensures NoNearerNeighbor(space, links, query, level, cur)
      ensures space.From(query, cur) <= space.From(query, start)
      ensures forall c: nat :: start != c && Unlinked(links, c, level) ==> cur != c
    {
      cur := start;
      var changed := true;
      while changed
        invariant On(links, cur, level) && space.From(query, cur) <= space.From(query, start)
        invariant if changed then Walk(space, links, query, level, cur) == Walk(space, links, query, level, start)
                  else cur == Walk(space, links, query, level, start)
        invariant !changed ==> NoNearerNeighbor(space, links, query, level, cur)
        invariant forall c: nat :: start != c && Unlinked(links, c, level) ==> cur != c
        decreases Nearer(space, query, space.From(query, cur)), if changed then 1 else 0
      {
        ghost var before := cur;
        cur, changed := Sweep(query, cur, level);
        if changed {
          NearerShrinks(space, query, cur, before);
        }
      }
    }

    /** From the highest level down to the one above `level`. */
    method DescendLevels(query: Point, top: nat, level: nat, start: nat) returns (cur: nat)
      requires Linkable() && level <= top && On(links, start, top)
      ensures cur == Descent(space, links, query, top, level, start)
    {
      cur := start;
      var at := top;
      while at > level
        invariant level <= at <= top && On(links, cur, at)
        invariant cur == Descent(space, links, query, top, at, start)
      {
        DescentStep(space, links, query, top, at - 1, start);
        cur := DescendOne(query, cur, at);
        at := at - 1;
      }
    }

    /** The same, with what it achieves on each level. */
    method Descend(query: Point, top: nat, level: nat, start: nat) returns (cur: nat)
      requires Linkable() && level <= top && On(links, start, top)
      ensures cur == Descent(space, links, query, top, level, start) && On(links, cur, level)
      ensures space.From(query, cur) <= space.From(query, start)
      ensures forall l: nat :: level <= l < top ==> WalkedDown(space, links, query, top, l, start)
      ensures forall c: nat :: start != c && Nowhere(links, c) ==> cur != c
    {
      cur := DescendLevels(query, top, level, start);
      DescentIsLocal(space, links, m, query, top, level, start);
      DescentAvoids(space, links, m, query, top, level, start);
    }

    // ---- inserting ----

    /** A deleted entry point is offered too, and the queue cut back to `ef`. */
    method OfferEntry(query: Point, e: nat, q: Queue, ghost c: nat, ghost level: nat) returns (r: Queue)
      requires ef > 0 && Fit(links, q, c, level) && |q| <= ef && On(links, e, level) && e != c && !HasId(q, e)
      ensures Fit(links, r, c, level) && |r| > 0
      ensures Trimmed(q + multiset{Cand(space.From(query, e), e)}, ef, r)
    {
      OneMore(q, Cand(space.From(query, e), e));
      r := q + multiset{Cand(space.From(query, e), e)};
      if |r| > ef {
        var out := Top(r);
        PartOf(r, r - multiset{out});
        r := r - multiset{out};
      }
    }

    /** What an insertion or an update of `c` is about. */
    ghost function LinkingOf(query: Point, c: nat, e: nat, update: bool): (k: Linking)
      reads this
    {
      Linking(space, m, ef, deleted, e, query, c, update)
    }

    /** The candidates for a new element at one level. */
    method FindCandidates(c: nat, query: Point, cur: nat, level: nat, e: nat) returns (q: Queue)
      requires Linkable() && On(links, cur, level) && cur != c && Unlinked(links, c, level)
      requires On(links, e, level) && e != c
      ensures Found(LinkingOf(query, c, e, false), links, level, cur, q) && Fit(links, q, c, level)
      ensures |q| == 0 <==> e !in deleted && AllMarked(links, deleted, level, cur)
    {
      var k := Scan(links, space, deleted, ef, cur, query, level);
      var top, seen := SearchLayer(k, m, farAway);
      q := top;
      if c in seen {
        NewIsNotReached(links, m, level, cur, c, c);
      }
      ListedFit(k, seen, q, c);
      if e in deleted {
        UnmarkedOnly(k, seen, q, e);
        q := OfferEntry(query, e, q, c, level);
      } else {
        EmptySearch(k, seen, q);
      }
      FoundNew(LinkingOf(query, c, e, false), links, level, cur, q, top, seen);
    }

    /** An insertion at `level` into the graph `g` finds nothing to link to. */
    ghost predicate StarvedAt(g: Links, point: Point, level: nat, e: int, top: int)
      reads this
    {
      0 <= e && 0 <= top && Starved(space, g, deleted, point, top, if level < top then level else top, e)
    }

    /** Links a new element at the levels below `levels`, from the top.  Only the first search can come
        back empty: a neighbour it chose is unmarked, and the next search finds at least that one. */
    method LinkNew(c: nat, query: Point, start: nat, levels: nat, e: nat) returns (ok: bool, ghost starts: seq<nat>)
      requires Linkable() && levels > 0 && On(links, start, levels - 1) && start != c
      requires On(links, e, levels - 1) && e != c && On(links, c, levels - 1)
      requires BlankBelow(links, c, levels)
      modifies this`links
      ensures Linkable() && SameShape(old(links), links)
      ensures !ok <==> e !in deleted && AllMarked(old(links), deleted, levels - 1, start)
      ensures ok ==> DoneFrom(LinkingOf(query, c, e, false), old(links), links, 0, levels, starts) && starts[levels] == start
    {
      ghost var k := LinkingOf(query, c, e, false);
      starts := seq(levels + 1, _ => start);
      ghost var starved := e !in deleted && AllMarked(links, deleted, levels - 1, start);
      var cur, at := start, levels;
      ok := true;
      while at > 0
        invariant 0 <= at <= levels && Linkable() && SameShape(old(links), links)
        invariant at > 0 ==> On(links, cur, at - 1) && cur != c && On(links, e, at - 1)
        invariant BlankBelow(links, c, at) && DoneFrom(k, old(links), links, at, levels, starts)
        invariant starts[levels] == start && starts[at] == cur
        invariant if at == levels then cur == start && links == old(links) else !starved && (cur !in deleted || e in deleted)
      {
        var level := at - 1;
        ghost var stuck := e !in deleted && AllMarked(links, deleted, level, cur);
        assert at == levels ==> stuck == starved;
        cur, ok := LinkNext(k, old(links), levels, starts, c, query, cur, level, e);
        assert !ok <==> stuck;
        if !ok {
          return;
        }
        starts := starts[level := cur];
        at := level;
      }
    }

    method LinkNext(ghost k: Linking, ghost g0: Links, ghost levels: nat, ghost starts: seq<nat>,
                    c: nat, query: Point, cur: nat, level: nat, e: nat)
      returns (next: nat, ok: bool)
      requires Linkable() && level < levels && On(links, cur, level) && cur != c && On(links, e, level) && e != c
      requires BlankBelow(links, c, level + 1) && k == LinkingOf(query, c, e, false)
      requires SameShape(g0, links) && DoneFrom(k, g0, links, level + 1, levels, starts) && starts[level + 1] == cur
      modifies this`links
      ensures Linkable() && SameShape(g0, links)
      ensures !ok <==> e !in deleted && AllMarked(old(links), deleted, level, cur)
      ensures cur !in deleted || e in deleted ==> ok
      ensures ok ==> DoneFrom(k, g0, links, level, levels, starts[level := next]) && BlankBelow(links, c, level)
      ensures ok ==> On(links, next, level) && next != c && (next !in deleted || e in deleted)
    {
      ReachSelf(links, level, cur);
      var q := FindCandidates(c, query, cur, level, e);
      if |q| == 0 {
        return cur, false;
      }
      next := LinkLevel(k, g0, levels, starts, c, q, level, false);
      ok := true;
    }

    /** Connects `c` at one level and accounts for it. */
    method LinkLevel(ghost k: Linking, ghost g0: Links, ghost levels: nat, ghost starts: seq<nat>,
                     c: nat, q: Queue, level: nat, update: bool) returns (next: nat)
      requires Linkable() && On(links, c, level) && Fit(links, q, c, level) && |q| > 0 && level < levels
      requires !update ==> BlankBelow(links, c, level + 1)
      requires SameShape(g0, links) && DoneFrom(k, g0, links, level + 1, levels, starts)
      requires k == LinkingOf(k.query, c, k.entry, update) && Found(k, links, level, starts[level + 1], q)
      modifies this`links
      ensures Linkable() && SameShape(g0, links) && DoneFrom(k, g0, links, level, levels, starts[level := next])
      ensures On(links, next, level) && next != c && (next in deleted ==> next == k.entry)
      ensures !update ==> BlankBelow(links, c, level)
    {
      ghost var chosen, before := [], links;
      FoundIsReal(k, links, level, starts[level + 1], q);
      next, chosen := MutuallyConnect(c, q, level, update);
      JoinedIsJoinedAt(k, before, links, level, starts[level + 1], q, chosen);
      DoneNext(k, g0, before, links, level, levels, starts, next);
      SameShapeChain(g0, before, links);
      if !update {
        StillBlankBelow(before, links, level, c);
      }
    }

    /** Descends from the entry point and links the new element on the levels it shares with it. */
    method LinkFromEntry(c: nat, point: Point, level: nat, e: nat, top: nat) returns (ok: bool)
      requires Linkable() && On(links, e, top) && e != c && BlankBelow(links, c, level + 1) && Nowhere(links, c)
      modifies this`links
      ensures Linkable() && SameShape(old(links), links)
      ensures !ok <==> StarvedAt(old(links), point, level, e, top)
      ensures ok ==> Inserted(old(links), point, c, level, e, top)
    {
      var low: nat := if level < top then level else top;
      ghost var starved := StarvedAt(links, point, level, e, top);
      var cur := StartOf(c, point, low, e, top);
      ghost var g, starts := links, [];
      ok, starts := LinkNew(c, point, cur, low + 1, e);
      assert !ok <==> starved;
      assert ok ==> InsertedFrom(g, point, c, low, e, top, starts);
    }

    /** Where the linking of a new element starts. */
    method StartOf(c: nat, point: Point, low: nat, e: nat, top: nat) returns (cur: nat)
      requires Linkable() && On(links, e, top) && e != c && Nowhere(links, c) && low <= top
      ensures On(links, cur, low) && cur != c && cur == Descent(space, links, point, top, low, e)
      ensures Starved(space, links, deleted, point, top, low, e) <==> e !in deleted && AllMarked(links, deleted, low, cur)
    {
      cur := Descend(point, top, low, e);
    }

    /**
     The part of `addPoint` that stores and links a new element.  It fails only where the source
     reads the last of no selected neighbours.
     */
    method Insert(point: Point, level: nat) returns (c: nat, ok: bool)
      requires InOrder() && |links| < capacity
      modifies this`links, this`space, this`entry, this`maxLevel
      ensures c == |old(links)| && Linkable()
      ensures SameShape(Grow(old(links), level), links)
      ensures space == Metric(old(space).points + [point], old(space).distance)
      ensures ok ==> InOrder()
      ensures ok ==> Inserted(Grow(old(links), level), point, c, level, old(entry), old(maxLevel))
      ensures !ok <==> old(entry) >= 0 && StarvedAt(Grow(old(links), level), point, level, old(entry), old(maxLevel))
      ensures if ok && (old(entry) < 0 || level > old(maxLevel)) then entry == c && maxLevel == level
              else entry == old(entry) && maxLevel == old(maxLevel)
    {
      c := |links|;
      GrowOk(links, m, level);
      ghost var grown := Grow(links, level);
      space := Metric(space.points + [point], space.distance);
      links := Grow(links, level);
      ok := true;
      if entry != -1 {
        ok := LinkFromEntry(c, point, level, entry, maxLevel);
      }
      if ok && (entry == -1 || level > maxLevel) {
        entry, maxLevel := c, level;
      }
    }

    // ---- updating ----

    method InsertAll(s: set<nat>, hops: seq<nat>) returns (r: set<nat>)
      ensures r == s + SetOf(hops)
    {
      r := s;
      for j := 0 to |hops|
        invariant r == s + SetOf(hops[..j])
      {
        r := r + {hops[j]};
        assert hops[..j + 1] == hops[..j] + [hops[j]];
      }
      assert hops[..|hops|] == hops;
    }

    /** The one-hop and two-hop candidates, and the neighbours drawn for rewriting. */
    method GatherHops(id: nat, layer: nat, drawn: (nat, nat) -> bool) returns (candidates: set<nat>, neighbors: set<nat>)
      requires Linkable() && On(links, id, layer)
      ensures candidates == {id} + SetOf(links[id][layer]) + TwoHops(links, layer, neighbors)
      ensures neighbors == DrawnFrom(links[id][layer], layer, drawn)
    {
      var list := links[id][layer];
      assert ListOk(links, m, id, layer, list);
      candidates, neighbors := {id}, {};
      for i := 0 to |list|
        invariant candidates == {id} + SetOf(list[..i]) + TwoHops(links, layer, neighbors)
        invariant neighbors == DrawnFrom(list[..i], layer, drawn)
      {
        candidates, neighbors := GatherFrom(id, list, i, layer, drawn, candidates, neighbors);
      }
      assert list[..|list|] == list;
    }

    method GatherFrom(ghost id: nat, list: seq<nat>, i: nat, layer: nat, drawn: (nat, nat) -> bool, candidates0: set<nat>, neighbors0: set<nat>)
      returns (candidates: set<nat>, neighbors: set<nat>)
      requires i < |list| && On(links, list[i], layer) && neighbors0 == DrawnFrom(list[..i], layer, drawn)
      requires candidates0 == {id} + SetOf(list[..i]) + TwoHops(links, layer, neighbors0)
      ensures candidates == {id} + SetOf(list[..i + 1]) + TwoHops(links, layer, neighbors)
      ensures neighbors == DrawnFrom(list[..i + 1], layer, drawn)
    {
      var x := list[i];
      assert list[..i + 1] == list[..i] + [x];
      candidates, neighbors := candidates0 + {x}, neighbors0;
      if drawn(layer, x) {
        neighbors := neighbors + {x};
        TwoHopsMore(links, layer, neighbors0, x);
        candidates := InsertAll(candidates, links[x][layer]);
      }
    }

    /** Gives one neighbour the heuristic's choice among the candidates nearest to it. */
    method RewriteOne(n: nat, layer: nat, candidates: set<nat>)
      requires Linkable() && On(links, n, layer) && candidates - {n} != {}
      requires forall x :: x in candidates ==> On(links, x, layer)
      modifies this`links
      ensures Linkable() && Untouched(old(links), links, {n}, layer)
      ensures RewrittenAt(space, ef, Cap(m, layer), n, candidates, links[n][layer])
    {
      var q := NearestCandidates(space, ef, n, candidates);
      var list := Pick(space, q, Cap(m, layer));
      RewrittenOk(links, m, space, Keep(ef, n, candidates), n, layer, candidates, q, list);
      SetListOk(links, m, n, layer, list);
      assert RewrittenWith(space, ef, Cap(m, layer), n, candidates, list, q);
      links := SetList(links, n, layer, list);
    }

    method RewriteNext(ghost g: Links, ghost done: set<nat>, n: nat, layer: nat, ghost id: nat, candidates: set<nat>)
      requires Linkable() && Untouched(g, links, done, layer) && AllThere(g, layer, candidates)
      requires n !in done && n in candidates && id in candidates && id != n
      requires AllRewritten(space, ef, m, links, layer, candidates, done)
      modifies this`links
      ensures Linkable() && Untouched(g, links, done + {n}, layer)
      ensures AllRewritten(space, ef, m, links, layer, candidates, done + {n})
    {
      ghost var before := links;
      assert forall x :: x in candidates ==> On(g, x, layer);
      assert id in candidates - {n};
      RewriteOne(n, layer, candidates);
      UntouchedChain(g, before, links, done, {n}, layer);
      AllRewrittenMore(space, ef, m, before, links, layer, candidates, done, n);
    }

    /** Rewrites a set of neighbours, in any order. */
    method RewriteAll(neighbors: set<nat>, layer: nat, ghost id: nat, candidates: set<nat>)
      requires Linkable() && AllThere(links, layer, candidates)
      requires neighbors <= candidates && id in candidates && id !in neighbors
      modifies this`links
      ensures Linkable() && Untouched(old(links), links, neighbors, layer)
      ensures AllRewritten(space, ef, m, links, layer, candidates, neighbors)
    {
      var todo := neighbors;
      ghost var done := {};
      while todo != {}
        invariant todo <= neighbors && done == neighbors - todo
        invariant Linkable() && Untouched(old(links), links, done, layer)
        invariant AllRewritten(space, ef, m, links, layer, candidates, done)
        decreases todo
      {
        var n :| n in todo;
        RewriteNext(old(links), done, n, layer, id, candidates);
        done := done + {n};
        todo := todo - {n};
      }
      assert done == neighbors;
    }

    /** Rewrites the drawn neighbours of `id` on one layer. */
    method RewriteNeighbors(id: nat, layer: nat, drawn: (nat, nat) -> bool)
      requires Linkable() && On(links, id, layer)
      modifies this`links
      ensures Linkable() && OnlyLevel(old(links), links, layer)
      ensures LayerRewritten(space, ef, m, old(links), links, id, layer, drawn)
    {
      var candidates, neighbors := GatherHops(id, layer, drawn);
      ghost var g := links;
      if |links[id][layer]| > 0 {
        HopsOnLayer(links, m, id, layer, neighbors);
        RewriteAll(neighbors, layer, id, candidates);
      }
      LayerIsRewritten(space, ef, m, g, links, id, layer, drawn, candidates, neighbors);
    }

    /** Moves everything but `id` to the filtered queue. */
    method DropId(q: Queue, id: nat) returns (r: Queue)
      ensures WithoutId(q, id, r)
    {
      r := multiset{};
      var rest := q;
      while |rest| > 0
        invariant forall x :: r[x] + (if x.id == id then 0 else rest[x]) == if x.id == id then 0 else q[x]
        decreases |rest|
      {
        var c := Top(rest);
        if c.id != id {
          r := r + multiset{c};
        }
        rest := rest - multiset{c};
      }
    }

    /** The candidates for relinking `id` at one level; none means the level is left alone. */
    method RelinkCandidates(id: nat, query: Point, cur: nat, level: nat, e: nat) returns (q: Queue)
      requires Linkable() && On(links, cur, level) && On(links, e, level) && id !in deleted
      ensures Found(LinkingOf(query, id, e, true), links, level, cur, q) && Fit(links, q, id, level)
    {
      var k := Scan(links, space, deleted, ef, cur, query, level);
      ghost var l := LinkingOf(query, id, e, true);
      var top, seen := SearchLayer(k, m, farAway);
      q := DropId(top, id);
      ghost var rest := q;
      RelinkFit(k, seen, top, q, id);
      if |q| > 0 && e in deleted {
        assert !HasId(q, e);
        q := OfferEntry(query, e, q, id, level);
      }
      assert FoundBy(l, links, level, cur, q, top, seen, rest);
    }

    /** `repairConnectionsForUpdate`: links `id` again on each of its levels, from the top. */
    method RepairConnections(id: nat, query: Point) returns (ghost starts: seq<nat>)
      requires InOrder() && id < |links| && id !in deleted
      modifies this`links
      ensures Linkable() && SameShape(old(links), links)
      ensures RepairedFrom(old(links), query, id, starts)
    {
      var e: nat := entry;
      var at: nat := |links[id]|;
      ghost var k, levels := LinkingOf(query, id, e, true), at;
      var cur := Descend(query, maxLevel, at - 1, e);
      ghost var start := cur;
      starts := seq(levels + 1, _ => cur);
      while at > 0
        invariant Linkable() && SameShape(old(links), links)
        invariant at <= levels == |links[id]|
        invariant at > 0 ==> On(links, cur, at - 1) && On(links, e, at - 1)
        invariant DoneFrom(k, old(links), links, at, levels, starts)
        invariant starts[levels] == start && starts[at] == cur
      {
        var level: nat := at - 1;
        cur := RepairLevel(k, old(links), levels, starts, id, query, cur, level, e);
        starts := starts[level := cur];
        at := level;
      }
    }

    method RepairLevel(ghost k: Linking, ghost g0: Links, ghost levels: nat, ghost starts: seq<nat>,
                       id: nat, query: Point, cur: nat, level: nat, e: nat) returns (next: nat)
      requires Linkable() && level < levels && On(links, cur, level) && On(links, e, level) && On(links, id, level)
      requires id !in deleted && k == LinkingOf(query, id, e, true)
      requires SameShape(g0, links) && DoneFrom(k, g0, links, level + 1, levels, starts) && starts[level + 1] == cur
      modifies this`links
      ensures Linkable() && SameShape(g0, links) && On(links, next, level)
      ensures DoneFrom(k, g0, links, level, levels, starts[level := next])
    {
      var q := RelinkCandidates(id, query, cur, level, e);
      next := cur;
      if |q| > 0 {
        next := LinkLevel(k, g0, levels, starts, id, q, level, true);
      } else {
        assert q == multiset{};
        LeftAlone(k, links, level, cur);
        DoneNext(k, g0, links, links, level, levels, starts, cur);
      }
    }

    /** Every level linked again from a search, the highest from where the descent arrives. */
    ghost predicate RepairedFrom(g: Links, query: Point, id: nat, starts: seq<nat>)
      reads this
    {
      0 <= entry && id < |links| && 0 < |links[id]| <= maxLevel + 1 &&
      DoneFrom(LinkingOf(query, id, entry, true), g, links, 0, |links[id]|, starts) &&
      starts[|links[id]|] == Descent(space, g, query, maxLevel, |links[id]| - 1, entry)
    }

    /** Nothing for a single element; otherwise its neighbours are rewritten and it is linked again. */
    ghost predicate Updated(g: Links, rewritten: Links, point: Point, id: nat, drawn: (nat, nat) -> bool)
      requires id < |links| && entry >= 0
      reads this
    {
      if entry == id && |links| == 1 then links == g
      else (
        RewrittenBelow(space, ef, m, g, rewritten, id, drawn, |links[id]|) &&
        exists starts :: RepairedFrom(rewritten, point, id, starts)
      )
    }

    /** Blank lists for the first element; otherwise linked on the levels it shares with the entry point. */
    ghost predicate Inserted(g: Links, point: Point, c: nat, level: nat, e: int, top: int)
      reads this
    {
      if e < 0 || top < 0 then links == g
      else
        var low: nat := if level < top then level else top;
        exists starts :: InsertedFrom(g, point, c, low, e, top, starts)
    }

    /** Linked on the levels up to `low`, the highest of them searched from where the descent arrives. */
    ghost predicate InsertedFrom(g: Links, point: Point, c: nat, low: nat, e: nat, top: nat, starts: seq<nat>)
      requires low <= top
      reads this
    {
      DoneFrom(LinkingOf(point, c, e, false), g, links, 0, low + 1, starts) &&
      starts[low + 1] == Descent(space, g, point, top, low, e)
    }

    /** `updatePoint`; `drawn` stands for the random draws of neighbours to rewrite. */
    method UpdatePoint(point: Point, id: nat, drawn: (nat, nat) -> bool) returns (ghost rewritten: Links)
      requires InOrder() && id < |links| && id !in deleted
      modifies this`links, this`space
      ensures InOrder() && SameShape(old(links), links)
      ensures space == Metric(old(space).points[id := point], old(space).distance)
      ensures Updated(old(links), rewritten, point, id, drawn)
    {
      space := Metric(space.points[id := point], space.distance);
      rewritten := links;
      if entry == id && |links| == 1 {
        return;
      }
      var levels := |links[id]|;
      for layer := 0 to levels
        invariant Linkable() && SameShape(old(links), links)
        invariant space == Metric(old(space).points[id := point], old(space).distance)
        invariant RewrittenBelow(space, ef, m, old(links), links, id, drawn, layer)
      {
        ghost var before := links;
        RewriteNeighbors(id, layer, drawn);
        RewrittenMore(space, ef, m, old(links), before, links, id, drawn, layer);
      }
      assert InOrder();
      rewritten := links;
      ghost var starts := RepairConnections(id, point);
      SameShapeChain(old(links), rewritten, links);
    }

    // ---- the operations by label ----

    /** `addPoint`: updates the element stored under the label, or inserts one with the drawn level. */
    method AddPoint(point: Point, key: nat, level: nat) returns (r: Outcome, ghost rewritten: Links)
      requires Valid()
      modifies this
      ensures Linkable() && (r != Failed(NoCandidates) ==> Valid())
      ensures r == Failed(LabelDeleted) <==> reuse && key in old(labels) && old(labels)[key] in old(deleted)
      ensures r == Failed(IndexFull) <==> key !in old(labels) && |old(links)| >= capacity
      ensures r == Failed(NoCandidates) <==>
        (key !in old(labels) && |old(links)| < capacity &&
         StarvedAt(Grow(old(links), level), point, level, old(entry), old(maxLevel)))
      ensures r.Failed? && r.why != NoCandidates ==> links == old(links) && space == old(space)
      ensures r.Failed? && r.why != NoCandidates ==> labels == old(labels)
      ensures r.Failed? ==> deleted == old(deleted)
      ensures if r.Stored? && key !in old(labels) && (old(entry) < 0 || level > old(maxLevel)) then entry == r.id && maxLevel == level
              else entry == old(entry) && maxLevel == old(maxLevel)
      ensures r.Stored? ==> labels == old(labels)[key := r.id] && deleted == old(deleted) - {r.id}
      ensures r.Stored? && key in old(labels) ==> SameShape(old(links), links) && r.id < |old(links)|
      ensures r.Stored? && key in old(labels) ==> space == Metric(old(space).points[r.id := point], old(space).distance)
      ensures r.Stored? && key !in old(labels) ==> SameShape(Grow(old(links), level), links) && r.id == |old(links)|
      ensures r.Stored? && key in old(labels) ==> Updated(old(links), rewritten, point, r.id, EveryDraw)
      ensures r.Stored? && key !in old(labels) ==>
        Inserted(Grow(old(links), level), point, r.id, level, old(entry), old(maxLevel))
      ensures r.Stored? && key !in old(labels) ==> space == Metric(old(space).points + [point], old(space).distance)
    {
      rewritten := links;
      if key in labels {
        var id := labels[key];
        if reuse && id in deleted {
          return Failed(LabelDeleted), links;
        }
        deleted := deleted - {id};
        rewritten := UpdatePoint(point, id, EveryDraw);
        assert labels == labels[key := id];
        return Stored(id), rewritten;
      }
      if |links| >= capacity {
        return Failed(IndexFull), links;
      }
      labels := labels[key := |links|];
      assert |links| !in deleted;
      var c, ok := Insert(point, level);
      r := if ok then Stored(c) else Failed(NoCandidates);
    }

    /** `markDelete`: false when the label is unknown or its element is marked already. */
    method MarkDelete(key: nat) returns (ok: bool)
      requires Valid()
      modifies this`deleted
      ensures Valid()
      ensures ok <==> key in labels && labels[key] !in old(deleted)
      ensures deleted == if ok then old(deleted) + {labels[key]} else old(deleted)
    {
      if key !in labels || labels[key] in deleted {
        return false;
      }
      deleted := deleted + {labels[key]};
      ok := true;
    }
  }

  // ---- runs ----

  datatype Op = Add(point: Point, key: nat, level: nat) | Mark(key: nat)

  /** Any sequence of additions and deletion marks.  It is cut short only when an addition finds no
      candidates, which cannot happen in a run without marks. */
  method Replay(index: Index, ops: seq<Op>) returns (done: nat)
    requires index.Valid()
    modifies index
    ensures GraphOk(index.links, index.m) && done <= |ops|
    ensures done == |ops| ==> index.Valid()
    ensures old(index.deleted) == {} && (forall i :: 0 <= i < |ops| ==> ops[i].Add?) ==> done == |ops|
  {
    done := 0;
    while done < |ops|
      invariant 0 <= done <= |ops| && index.Valid()
      invariant old(index.deleted) == {} && (forall i :: 0 <= i < |ops| ==> ops[i].Add?) ==> index.deleted == {}
    {
      match ops[done] {
        case Add(point, key, level) =>
          ghost var g, top, e := Grow(index.links, level), index.maxLevel, index.entry;
          var r, _ := index.AddPoint(point, key, level);
          if r == Failed(NoCandidates) {
            StarvedNeedsMarks(index.space, g, index.deleted, point, top, if level < top then level else top, e);
            return;
          }
        case Mark(key) =>
          var _ := index.MarkDelete(key);
      }
      done := done + 1;
    }
  }

  /** Only marks can starve an insertion. */
  lemma StarvedNeedsMarks(space: Metric, g: Links, deleted: set<nat>, query: Point, top: nat, level: nat, e: nat)
    requires level <= top && Starved(space, g, deleted, query, top, level, e)
    ensures deleted != {}
  {
    var cur := Descent(space, g, query, top, level, e);
    ReachSelf(g, level, cur);
    assert cur in deleted;
  }

  lemma SameShapeChain(g: Links, h: Links, k: Links)
    requires SameShape(g, h) && SameShape(h, k)
    ensures SameShape(g, k)
  {
    assert forall id: nat :: id < |g| ==> |g[id]| == |h[id]|;
  }

  lemma RelinkFit(k: Scan, seen: set<nat>, top: Queue, q: Queue, id: nat)
    requires Searched(k, top, seen) && WithoutId(top, id, q)
    ensures Fit(k.links, q, id, k.layer) && q <= top && |q| <= k.ef
    ensures forall x :: x in q ==> x == k.CandOf(x.id) && x.id !in k.deleted
  {
    assert q <= top;
    assert top == q + (top - q);
    PartOf(top, q);
    assert forall x :: x in q ==> x in top && x.id != id;
  }

  ghost predicate AllThere(g: Links, layer: nat, ids: set<nat>) {
    forall x :: x in ids ==> On(g, x, layer)
  }

  /** Everything the elements of `ids` list on the layer. */
  ghost function TwoHops(g: Links, layer: nat, ids: set<nat>): (r: set<nat>)
  {
    set x, y | x in ids && On(g, x, layer) && y in g[x][layer] :: y
  }

  lemma TwoHopsMore(g: Links, layer: nat, ids: set<nat>, x: nat)
    requires On(g, x, layer)
    ensures TwoHops(g, layer, ids + {x}) == TwoHops(g, layer, ids) + SetOf(g[x][layer])
  {
  }

  /** All hops are on the layer, and a neighbour is not the element itself. */
  lemma HopsOnLayer(g: Links, m: nat, id: nat, layer: nat, neighbors: set<nat>)
    requires GraphOk(g, m) && On(g, id, layer) && neighbors <= SetOf(g[id][layer])
    ensures AllThere(g, layer, {id} + SetOf(g[id][layer]) + TwoHops(g, layer, neighbors))
    ensures id !in neighbors && neighbors <= {id} + SetOf(g[id][layer]) + TwoHops(g, layer, neighbors)
  {
    assert ListOk(g, m, id, layer, g[id][layer]);
    forall x | x in TwoHops(g, layer, neighbors)
      ensures On(g, x, layer)
    {
      var y :| y in neighbors && On(g, y, layer) && x in g[y][layer];
      assert ListOk(g, m, y, layer, g[y][layer]);
    }
  }

  lemma RewrittenOk(g: Links, m: nat, space: Metric, keep: nat, n: nat, layer: nat, candidates: set<nat>, q: Queue, list: seq<nat>)
    requires forall x :: x in candidates ==> On(g, x, layer)
    requires BestOf(Nearby(space, keep, n), candidates - {n}, q) && Picked(space, q, Cap(m, layer), list)
    ensures ListOk(g, m, n, layer, list)
  {
    PickedOk(space, q, Cap(m, layer), list);
    forall x | x in list
      ensures x in candidates - {n}
    {
      assert HasId(q, x);
    }
  }

  // ---- what an update does to the neighbours of the element ----

  function DrawnFrom(list: seq<nat>, layer: nat, drawn: (nat, nat) -> bool): (r: set<nat>)
  {
    set x | x in list && drawn(layer, x)
  }

  ghost predicate RewrittenWith(space: Metric, ef: nat, cap: nat, n: nat, candidates: set<nat>, list: seq<nat>, near: Queue) {
    BestOf(Nearby(space, Keep(ef, n, candidates), n), candidates - {n}, near) && Picked(space, near, cap, list)
  }

  /** `list` is the heuristic's choice among the candidates nearest to `n`. */
  ghost predicate RewrittenAt(space: Metric, ef: nat, cap: nat, n: nat, candidates: set<nat>, list: seq<nat>) {
    exists near :: RewrittenWith(space, ef, cap, n, candidates, list, near)
  }

  ghost predicate AllRewritten(space: Metric, ef: nat, m: nat, g: Links, layer: nat, candidates: set<nat>, done: set<nat>) {
    forall x :: x in done ==> On(g, x, layer) && RewrittenAt(space, ef, Cap(m, layer), x, candidates, g[x][layer])
  }

  lemma AllRewrittenMore(space: Metric, ef: nat, m: nat, g: Links, h: Links, layer: nat, candidates: set<nat>, done: set<nat>, n: nat)
    requires AllRewritten(space, ef, m, g, layer, candidates, done) && Untouched(g, h, {n}, layer) && n !in done
    requires On(h, n, layer) && RewrittenAt(space, ef, Cap(m, layer), n, candidates, h[n][layer])
    ensures AllRewritten(space, ef, m, h, layer, candidates, done + {n})
  {
    forall x | x in done + {n}
      ensures On(h, x, layer) && RewrittenAt(space, ef, Cap(m, layer), x, candidates, h[x][layer])
    {
      assert x in done ==> On(g, x, layer);
    }
  }

  /** On one layer the drawn neighbours of `id` are rewritten from the hops, and nothing else changes. */
  ghost predicate LayerRewritten(space: Metric, ef: nat, m: nat, g0: Links, g: Links, id: nat, layer: nat, drawn: (nat, nat) -> bool) {
    On(g0, id, layer) &&
    var neighbors := DrawnFrom(g0[id][layer], layer, drawn);
    KeptAt(g0, g, layer, neighbors) &&
    AllRewritten(space, ef, m, g, layer, {id} + SetOf(g0[id][layer]) + TwoHops(g0, layer, neighbors), neighbors)
  }

  lemma LayerIsRewritten(space: Metric, ef: nat, m: nat, g0: Links, g: Links, id: nat, layer: nat, drawn: (nat, nat) -> bool,
                         candidates: set<nat>, neighbors: set<nat>)
    requires On(g0, id, layer) && Untouched(g0, g, neighbors, layer) && neighbors == DrawnFrom(g0[id][layer], layer, drawn)
    requires candidates == {id} + SetOf(g0[id][layer]) + TwoHops(g0, layer, neighbors)
    requires AllRewritten(space, ef, m, g, layer, candidates, neighbors)
    ensures OnlyLevel(g0, g, layer) && LayerRewritten(space, ef, m, g0, g, id, layer, drawn)
  {
  }

  /** The layers below `layers` are rewritten, the others as they were. */
  ghost predicate RewrittenBelow(space: Metric, ef: nat, m: nat, g0: Links, g: Links, id: nat, drawn: (nat, nat) -> bool, layers: nat) {
    (forall l: nat :: l < layers ==> LayerRewritten(space, ef, m, g0, g, id, l, drawn)) &&
    forall l: nat :: l >= layers ==> SameAt(g0, g, l)
  }

  lemma RewrittenMore(space: Metric, ef: nat, m: nat, g0: Links, g: Links, h: Links, id: nat, drawn: (nat, nat) -> bool, layer: nat)
    requires RewrittenBelow(space, ef, m, g0, g, id, drawn, layer) && OnlyLevel(g, h, layer)
    requires LayerRewritten(space, ef, m, g, h, id, layer, drawn)
    ensures RewrittenBelow(space, ef, m, g0, h, id, drawn, layer + 1)
  {
    forall l: nat | l != layer
      ensures SameAt(g, h, l)
    {
    }
    forall l: nat | l < layer
      ensures LayerRewritten(space, ef, m, g0, h, id, l, drawn)
    {
      LayerMoves(space, ef, m, g0, g, h, id, l, drawn);
    }
    forall l: nat | l > layer
      ensures SameAt(g0, h, l)
    {
      SameAtChain(g0, g, h, l);
    }
    LayerMovesBack(space, ef, m, g0, g, h, id, layer, drawn);
  }

  lemma LayerMoves(space: Metric, ef: nat, m: nat, g0: Links, g: Links, h: Links, id: nat, layer: nat, drawn: (nat, nat) -> bool)
    requires LayerRewritten(space, ef, m, g0, g, id, layer, drawn) && SameAt(g, h, layer)
    ensures LayerRewritten(space, ef, m, g0, h, id, layer, drawn)
  {
    assert forall x: nat :: On(g, x, layer) ==> On(h, x, layer);
  }

  lemma LayerMovesBack(space: Metric, ef: nat, m: nat, g0: Links, g: Links, h: Links, id: nat, layer: nat, drawn: (nat, nat) -> bool)
    requires LayerRewritten(space, ef, m, g, h, id, layer, drawn) && SameAt(g0, g, layer)
    ensures LayerRewritten(space, ef, m, g0, h, id, layer, drawn)
  {
    SameAtBack(g0, g, layer);
    assert On(g0, id, layer);
    var neighbors := DrawnFrom(g0[id][layer], layer, drawn);
    assert forall x: nat :: On(g0, x, layer) ==> On(g, x, layer);
    assert TwoHops(g0, layer, neighbors) == TwoHops(g, layer, neighbors);
  }
}
