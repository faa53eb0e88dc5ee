/** The best-first search of one layer. */
module HnswSearch {
  import opened Basics
  import opened HnswSelect
  import opened HnswGraph

  /** What a layer search is given: the graph, the vectors, the deleted marks and the query. */
  datatype Scan = Scan(links: Links, space: Metric, deleted: set<nat>, ef: nat, start: nat, query: Point, layer: nat) {
    function CandOf(x: nat): (c: Cand)
    {
      Cand(space.From(query, x), x)
    }

    ghost predicate Ready(m: nat) {
      GraphOk(links, m) && On(links, start, layer) && ef > 0
    }
  }

  /** Everything visited is on the layer and reachable, and the frontier holds visited ids only. */
  ghost predicate Sound(k: Scan, seen: set<nat>, frontier: Queue) {
    k.start in seen &&
    (forall v :: v in seen ==> On(k.links, v, k.layer) && Reach(k.links, k.layer, k.start, v)) &&
    forall c :: c in frontier ==> c.id in seen
  }

  /** A visited element that is not listed is marked, or is no nearer than any of `ef` listed ones. */
  ghost predicate Beaten(k: Scan, top: Queue, v: nat) {
    v in k.deleted || (|top| == k.ef && forall c :: c in top ==> c.dist <= k.CandOf(v).dist)
  }

  /** `top` holds the best unmarked elements of `seen`. */
  ghost predicate BestOf(k: Scan, seen: set<nat>, top: Queue) {
    OneEach(top) && |top| <= k.ef &&
    (forall c :: c in top ==> c.id in seen && c.id !in k.deleted && c == k.CandOf(c.id)) &&
    forall v :: v in seen ==> k.CandOf(v) in top || Beaten(k, top, v)
  }

  /** `lower` is the distance of the farthest listed element. */
  ghost predicate Bound(top: Queue, lower: real) {
    |top| > 0 ==> exists c :: Farthest(top, c) && c.dist == lower
  }

  /** `v` matters to the result: there is room, or it is listed, or it is nearer than a listed element. */
  ghost predicate Near(k: Scan, top: Queue, v: nat) {
    |top| < k.ef || k.CandOf(v) in top || exists c :: c in top && k.CandOf(v).dist < c.dist
  }

  /** `v` has been expanded or waits in the frontier with its negated distance; a marked start, which is
      queued under another key, only waits until the first expansion. */
  ghost predicate Waits(k: Scan, frontier: Queue, open: set<nat>, v: nat) {
    v in open || Cand(-k.CandOf(v).dist, v) in frontier || (v == k.start && v in k.deleted && open == {})
  }

  /** Every visited element that matters has been expanded or is waiting. */
  ghost predicate Pending(k: Scan, seen: set<nat>, frontier: Queue, top: Queue, open: set<nat>) {
    forall v :: v in seen && Near(k, top, v) ==> Waits(k, frontier, open, v)
  }

  /** Every visited element that matters has all its neighbours visited. */
  ghost predicate Expanded(k: Scan, seen: set<nat>, top: Queue) {
    forall v, y :: v in seen && Near(k, top, v) && Linked(k.links, k.layer, v, y) ==> y in seen
  }

  /** Nothing becomes near by listing a nearer element in place of a farthest one. */
  lemma NearBefore(k: Scan, top: Queue, top': Queue, lower: real, x: nat, v: nat)
    requires Bound(top, lower) && Near(k, top', v) && v != x && |top| <= |top'|
    requires forall c :: c in top' ==> c in top || (c == k.CandOf(x) && (|top| < k.ef || c.dist < lower))
    requires k.ef > 0
    ensures Near(k, top, v)
  {
    if |top| >= k.ef {
      var f :| Farthest(top, f) && f.dist == lower;
      assert f in top;
    }
  }

  /** Listing one more unmarked element when there is room. */
  lemma ListMore(k: Scan, seen: set<nat>, top: Queue, x: nat)
    requires BestOf(k, seen, top) && x !in seen && x !in k.deleted && |top| < k.ef
    ensures BestOf(k, seen + {x}, top + multiset{k.CandOf(x)})
  {
    assert !HasId(top, x);
    OneMore(top, k.CandOf(x));
  }

  /** Passing over an element, because it is marked or too far. */
  lemma PassOver(k: Scan, seen: set<nat>, top: Queue, x: nat)
    requires BestOf(k, seen, top) && x !in seen && Beaten(k, top, x)
    ensures BestOf(k, seen + {x}, top)
  {
  }

  /** Adding one and taking a farthest one out leaves the size and everything but that one. */
  lemma ReplaceFarthest(top: Queue, c: Cand, out: Cand)
    requires OneEach(top) && !HasId(top, c.id) && out in top + multiset{c}
    ensures OneEach(top + multiset{c} - multiset{out}) && |top + multiset{c} - multiset{out}| == |top|
    ensures forall y :: y in top + multiset{c} - multiset{out} <==> (y in top || y == c) && y != out
  {
    OneMore(top, c);
    var all := top + multiset{c};
    assert all[out] == 1;
    PartOf(all, all - multiset{out});
  }

  /** What stays listed when a farthest element `out` gives way to `c`. */
  ghost predicate Replaced(top: Queue, c: Cand, out: Cand, r: Queue) {
    forall y :: y in r <==> (y in top || y == c) && y != out
  }

  lemma StillBeaten(k: Scan, seen: set<nat>, top: Queue, f: Cand, x: nat, out: Cand, r: Queue, v: nat)
    requires BestOf(k, seen, top) && Farthest(top, f) && |r| == k.ef
    requires k.CandOf(x).dist < f.dist == out.dist && Replaced(top, k.CandOf(x), out, r)
    requires v in seen + {x} && k.CandOf(v) !in r
    ensures Beaten(k, r, v)
  {
    assert forall y :: y in r ==> y.dist <= f.dist;
    if k.CandOf(v) != out {
      assert Beaten(k, top, v);
    }
  }

  /** Listing a nearer element in place of a farthest one. */
  lemma ListInstead(k: Scan, seen: set<nat>, top: Queue, lower: real, x: nat, out: Cand)
    requires BestOf(k, seen, top) && Bound(top, lower) && |top| == k.ef > 0
    requires x !in seen && x !in k.deleted && k.CandOf(x).dist < lower
    requires Farthest(top + multiset{k.CandOf(x)}, out)
    ensures BestOf(k, seen + {x}, top + multiset{k.CandOf(x)} - multiset{out})
  {
    var c := k.CandOf(x);
    var r := top + multiset{c} - multiset{out};
    assert !HasId(top, x);
    ReplaceFarthest(top, c, out);
    var f :| Farthest(top, f) && f.dist == lower;
    assert out.dist == f.dist by {
      assert f in top + multiset{c};
    }
    forall v | v in seen + {x} && k.CandOf(v) !in r
      ensures Beaten(k, r, v)
    {
      StillBeaten(k, seen, top, f, x, out, r, v);
    }
  }

  /** One newly visited element: `lower_bound > dist || size < ef` decides whether it is listed. */
  method Visit(k: Scan, ghost seen: set<nat>, x: nat, frontier: Queue, top: Queue, lower: real)
    returns (frontier': Queue, top': Queue, lower': real)
    requires k.ef > 0 && BestOf(k, seen, top) && Bound(top, lower) && x !in seen
    ensures BestOf(k, seen + {x}, top') && Bound(top', lower')
    ensures frontier' == frontier || frontier' == frontier + multiset{Cand(-k.CandOf(x).dist, x)}
    ensures |top'| >= |top| && (Near(k, top', x) ==> Cand(-k.CandOf(x).dist, x) in frontier')
    ensures forall c :: c in top' ==> c in top || (c == k.CandOf(x) && (|top| < k.ef || c.dist < lower))
    ensures x !in k.deleted ==> |top'| > 0
  {
    frontier', top', lower' := frontier, top, lower;
    var c := k.CandOf(x);
    if |top| < k.ef || lower > c.dist {
      frontier' := frontier + multiset{Cand(-c.dist, x)};
      assert Cand(-c.dist, x) in frontier';
      if x !in k.deleted {
        top' := top + multiset{c};
      }
      if |top'| > k.ef {
        var out := Top(top');
        ListInstead(k, seen, top, lower, x, out);
        top' := top' - multiset{out};
      } else if x !in k.deleted {
        ListMore(k, seen, top, x);
      } else {
        PassOver(k, seen, top, x);
      }
      if |top'| > 0 {
        var f := Top(top');
        lower' := f.dist;
      }
    } else {
      PassOver(k, seen, top, x);
    }
  }

  /** The elements of a layer. */
  ghost function Layer(g: Links, layer: nat): (r: set<nat>)
  {
    set i: nat | i < |g| && On(g, i, layer)
  }

  lemma SeenOneMore(k: Scan, m: nat, seen: set<nat>, frontier: Queue, frontier': Queue, node: nat, x: nat, d: real)
    requires k.Ready(m) && Sound(k, seen, frontier) && node in seen && x in k.links[node][k.layer]
    requires frontier' == frontier || frontier' == frontier + multiset{Cand(d, x)}
    ensures Sound(k, seen + {x}, frontier')
  {
    assert ListOk(k.links, m, node, k.layer, k.links[node][k.layer]);
    ReachFurther(k.links, k.layer, k.start, node, x);
  }

  lemma PendingOneMore(k: Scan, seen: set<nat>, frontier: Queue, frontier': Queue, top: Queue, top': Queue, lower: real, open: set<nat>, x: nat)
    requires k.ef > 0 && Pending(k, seen, frontier, top, open) && Bound(top, lower) && |top| <= |top'| && frontier <= frontier'
    requires x !in seen && (Near(k, top', x) ==> Cand(-k.CandOf(x).dist, x) in frontier')
    requires forall c :: c in top' ==> c in top || (c == k.CandOf(x) && (|top| < k.ef || c.dist < lower))
    ensures Pending(k, seen + {x}, frontier', top', open)
  {
    forall v | v in seen + {x} && Near(k, top', v)
      ensures Waits(k, frontier', open, v)
    {
      if v != x {
        NearBefore(k, top, top', lower, x, v);
        assert Waits(k, frontier, open, v);
      }
    }
  }

  /** The state of the search; `open` holds what has been, or is being, expanded. */
  ghost function Status(k: Scan, seen: set<nat>, frontier: Queue, top: Queue, lower: real, open: set<nat>): (v: Verdict) {
    if forall x {:trigger Unfold(x)} :: Unfold(x) ==>
      Sound(k, seen, frontier) && BestOf(k, seen, top) && Bound(top, lower) && Pending(k, seen, frontier, top, open)
    then Holds else Fails
  }

  ghost predicate Searching(k: Scan, seen: set<nat>, frontier: Queue, top: Queue, lower: real, open: set<nat>) {
    Status(k, seen, frontier, top, lower, open).Holds?
  }

  /** The listed elements are the best of those seen. */
  lemma ListedAreBest(k: Scan, seen: set<nat>, frontier: Queue, top: Queue, lower: real, open: set<nat>)
    requires Searching(k, seen, frontier, top, lower, open)
    ensures BestOf(k, seen, top) && Bound(top, lower)
  {
    assert Unfold(0);
  }

  lemma FrontierOneMore(k: Scan, m: nat, node: nat, x: nat, seen: set<nat>,
                        frontier: Queue, frontier': Queue, top: Queue, top': Queue, lower: real, open: set<nat>)
    requires k.Ready(m) && Searching(k, seen, frontier, top, lower, open)
    requires node in seen && On(k.links, node, k.layer) && x in k.links[node][k.layer] && |top| <= |top'|
    requires frontier' == frontier || frontier' == frontier + multiset{Cand(-k.CandOf(x).dist, x)}
    requires x !in seen && (Near(k, top', x) ==> Cand(-k.CandOf(x).dist, x) in frontier')
    requires forall c :: c in top' ==> c in top || (c == k.CandOf(x) && (|top| < k.ef || c.dist < lower))
    ensures Sound(k, seen + {x}, frontier') && Pending(k, seen + {x}, frontier', top', open)
  {
    assert Sound(k, seen, frontier) && Bound(top, lower) && Pending(k, seen, frontier, top, open) by {
      assert Unfold(0);
    }
    SeenOneMore(k, m, seen, frontier, frontier', node, x, -k.CandOf(x).dist);
    PendingOneMore(k, seen, frontier, frontier', top, top', lower, open, x);
  }

  method VisitNeighbor(k: Scan, ghost m: nat, ghost node: nat, x: nat, seen: set<nat>, frontier0: Queue, top0: Queue, lower0: real, ghost open: set<nat>)
    returns (frontier: Queue, top: Queue, lower: real)
    requires k.Ready(m) && Searching(k, seen, frontier0, top0, lower0, open)
    requires node in seen && On(k.links, node, k.layer) && x in k.links[node][k.layer] && x !in seen
    ensures Searching(k, seen + {x}, frontier, top, lower, open) && |top0| <= |top|
  {
    ListedAreBest(k, seen, frontier0, top0, lower0, open);
    frontier, top, lower := Visit(k, seen, x, frontier0, top0, lower0);
    FrontierOneMore(k, m, node, x, seen, frontier0, frontier, top0, top, lower0, open);
  }

  /** The inner loop: visits the neighbours of `node` that were not visited yet. */
  method Expand(k: Scan, ghost m: nat, node: nat, seen0: set<nat>, frontier0: Queue, top0: Queue, lower0: real, ghost open: set<nat>)
    returns (seen: set<nat>, frontier: Queue, top: Queue, lower: real)
    requires k.Ready(m) && Searching(k, seen0, frontier0, top0, lower0, open)
    requires node in seen0 && On(k.links, node, k.layer)
    ensures Searching(k, seen, frontier, top, lower, open)
    ensures seen0 <= seen && |top0| <= |top| && (seen == seen0 ==> frontier == frontier0)
    ensures forall x :: x in k.links[node][k.layer] ==> x in seen
  {
    seen, frontier, top, lower := seen0, frontier0, top0, lower0;
    var list := k.links[node][k.layer];
    for j := 0 to |list|
      invariant Searching(k, seen, frontier, top, lower, open)
      invariant seen0 <= seen && |top0| <= |top| && (seen == seen0 ==> frontier == frontier0)
      invariant forall i :: 0 <= i < j ==> list[i] in seen
    {
      var x := list[j];
      if x !in seen {
        frontier, top, lower := VisitNeighbor(k, m, node, x, seen, frontier, top, lower, open);
        seen := seen + {x};
      }
    }
  }

  /** Everything the search visited is accounted for when it ends short of `ef` results. */
  ghost predicate Exhaustive(k: Scan, seen: set<nat>, top: Queue) {
    |top| < k.ef ==> forall x :: Reach(k.links, k.layer, k.start, x) ==> x in seen
  }

  /** The loop is over: the frontier is empty, or `ef` are listed and all that waits is farther. */
  ghost predicate Finished(k: Scan, frontier: Queue, top: Queue, lower: real) {
    |frontier| == 0 || (|top| == k.ef && exists f :: Farthest(frontier, f) && -f.dist > lower)
  }

  lemma NoneWaits(k: Scan, frontier: Queue, top: Queue, lower: real, open: set<nat>, v: nat)
    requires k.ef > 0 && Bound(top, lower) && Finished(k, frontier, top, lower) && Near(k, top, v)
    requires Waits(k, frontier, open, v) && open != {}
    ensures v in open
  {
    if |frontier| == 0 {
      assert frontier == multiset{};
    } else {
      var f :| Farthest(frontier, f) && -f.dist > lower;
      var t :| Farthest(top, t) && t.dist == lower;
    }
  }

  lemma SearchedAll(k: Scan, m: nat, seen: set<nat>, frontier: Queue, top: Queue, lower: real, done: set<nat>)
    requires k.Ready(m) && Searching(k, seen, frontier, top, lower, done) && done != {}
    requires done <= seen && Closed(k.links, k.layer, done, seen) && Finished(k, frontier, top, lower)
    ensures Sound(k, seen, multiset{}) && BestOf(k, seen, top) && Exhaustive(k, seen, top) && Expanded(k, seen, top)
  {
    assert Sound(k, seen, frontier) && BestOf(k, seen, top) && Bound(top, lower) && Pending(k, seen, frontier, top, done) by {
      assert Unfold(0);
    }
    forall v | v in seen && Near(k, top, v)
      ensures v in done
    {
      NoneWaits(k, frontier, top, lower, done, v);
    }
    if |top| < k.ef {
      assert seen == done;
      forall x | Reach(k.links, k.layer, k.start, x)
        ensures x in seen
      {
        ReachStaysIn(k.links, k.layer, k.start, x, seen);
      }
    }
  }

  /** What the first visit, to the start itself, leaves. */
  method Begin(k: Scan, ghost m: nat, farAway: real) returns (frontier: Queue, top: Queue, lower: real)
    requires k.Ready(m)
    ensures Searching(k, {k.start}, frontier, top, lower, {})
    ensures if k.start in k.deleted then |top| == 0 else |top| > 0
    ensures frontier == multiset{Cand(if k.start in k.deleted then farAway else -lower, k.start)}
  {
    assert Unfold(0);
    ReachSelf(k.links, k.layer, k.start);
    var c := k.CandOf(k.start);
    if k.start !in k.deleted {
      top := multiset{c};
      lower := c.dist;
      frontier := multiset{Cand(-c.dist, k.start)};
      assert Farthest(top, c);
      assert Cand(-c.dist, k.start) in frontier;
    } else {
      top := multiset{};
      lower := farAway;
      frontier := multiset{Cand(farAway, k.start)};
      assert Cand(farAway, k.start) in frontier;
    }
  }

  /** After a round, the expanded node is done. */
  lemma RoundDone(k: Scan, seen0: set<nat>, seen: set<nat>, done: set<nat>, node: nat)
    requires Closed(k.links, k.layer, done, seen0) && seen0 <= seen
    requires On(k.links, node, k.layer) && forall x :: x in k.links[node][k.layer] ==> x in seen
    ensures Closed(k.links, k.layer, done + {node}, seen)
  {
  }

  /** Taking one entry off the frontier; the first one taken is the start's. */
  lemma PendingPop(k: Scan, seen: set<nat>, frontier: Queue, top: Queue, lower: real, done: set<nat>, c: Cand)
    requires Searching(k, seen, frontier, top, lower, done) && c in frontier && (done == {} ==> c.id == k.start)
    ensures Searching(k, seen, frontier - multiset{c}, top, lower, done + {c.id})
    ensures c.id in seen && On(k.links, c.id, k.layer)
  {
    assert Unfold(0);
    forall v | v in seen && Near(k, top, v)
      ensures Waits(k, frontier - multiset{c}, done + {c.id}, v)
    {
      assert Waits(k, frontier, done, v);
      var d := Cand(-k.CandOf(v).dist, v);
      assert d in frontier && d != c ==> d in frontier - multiset{c};
    }
  }

  lemma SeenOnLayer(k: Scan, seen: set<nat>, frontier: Queue, top: Queue, lower: real, open: set<nat>)
    requires Searching(k, seen, frontier, top, lower, open)
    ensures k.start in seen && seen <= Layer(k.links, k.layer)
  {
    assert Unfold(0);
  }

  /** One round of the outer loop. */
  method Round(k: Scan, ghost m: nat, c: Cand, seen0: set<nat>, frontier0: Queue, top0: Queue, lower0: real, ghost done: set<nat>)
    returns (seen: set<nat>, frontier: Queue, top: Queue, lower: real)
    requires k.Ready(m) && Searching(k, seen0, frontier0, top0, lower0, done) && c in frontier0 && (done == {} ==> c.id == k.start)
    requires done <= seen0 && Closed(k.links, k.layer, done, seen0)
    ensures Searching(k, seen, frontier, top, lower, done + {c.id})
    ensures done + {c.id} <= seen && Closed(k.links, k.layer, done + {c.id}, seen)
    ensures seen0 <= seen <= Layer(k.links, k.layer) && |top0| <= |top|
    ensures seen == seen0 ==> |frontier| < |frontier0|
  {
    PendingPop(k, seen0, frontier0, top0, lower0, done, c);
    seen, frontier, top, lower := Expand(k, m, c.id, seen0, frontier0 - multiset{c}, top0, lower0, done + {c.id});
    RoundDone(k, seen0, seen, done, c.id);
    SeenOnLayer(k, seen, frontier, top, lower, done + {c.id});
  }

  /**
   `searchBaseLayer`: the best `ef` unmarked elements among those it visited, all reachable from the
   start; every listed element, and every visited one nearer than a listed one, has had its neighbours
   visited; when there are fewer than `ef`, every reachable element was visited.
   */
  method SearchLayer(k: Scan, ghost m: nat, farAway: real) returns (top: Queue, ghost seen: set<nat>)
    requires k.Ready(m)
    ensures Sound(k, seen, multiset{}) && BestOf(k, seen, top) && Exhaustive(k, seen, top) && Expanded(k, seen, top)
    ensures k.start !in k.deleted ==> |top| > 0
  {
    var frontier, lower;
    frontier, top, lower := Begin(k, m, farAway);
    var visited := {k.start};
    ghost var done: set<nat> := {};
    while |frontier| > 0
      invariant Searching(k, visited, frontier, top, lower, done)
      invariant done <= visited && Closed(k.links, k.layer, done, visited)
      invariant k.start !in k.deleted ==> |top| > 0
      invariant done == {} ==> FirstRound(k, frontier, top, lower)
      decreases Layer(k.links, k.layer) - visited, |frontier|
    {
      var c := Top(frontier);
      if -c.dist > lower && |top| == k.ef {
        break;
      }
      visited, frontier, top, lower := Round(k, m, c, visited, frontier, top, lower, done);
      done := done + {c.id};
    }
    seen := visited;
    SearchedAll(k, m, visited, frontier, top, lower, done);
  }

  /** Before the first round only the start is queued, and it is taken. */
  ghost predicate FirstRound(k: Scan, frontier: Queue, top: Queue, lower: real) {
    |frontier| > 0 && (forall c :: c in frontier ==> c.id == k.start && (-c.dist > lower ==> |top| == 0))
  }

  /** The search comes back empty exactly when everything reachable is marked deleted. */
  lemma EmptySearch(k: Scan, seen: set<nat>, top: Queue)
    requires k.ef > 0 && Sound(k, seen, multiset{}) && BestOf(k, seen, top) && Exhaustive(k, seen, top)
    ensures |top| == 0 <==> forall x :: Reach(k.links, k.layer, k.start, x) ==> x in k.deleted
  {
    if |top| == 0 {
      forall x | Reach(k.links, k.layer, k.start, x)
        ensures x in k.deleted
      {
        assert x in seen;
        assert k.CandOf(x) !in top;
      }
    } else {
      var c :| c in top;
      assert Reach(k.links, k.layer, k.start, c.id);
    }
  }
}
