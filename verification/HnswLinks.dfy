/** Choosing neighbour lists: the heuristic applied to a queue, to a full list and to a candidate set. */
module HnswLinks {
  import opened Basics
  import opened HnswSelect
  import opened HnswGraph
  import opened HnswSearch

  /** `l` lists, farthest first, what the heuristic makes of `q`. */
  ghost predicate Picked(space: Metric, q: Queue, size: nat, l: seq<nat>) {
    PickVerdict(space, q, size, l).Holds?
  }

  ghost function PickVerdict(space: Metric, q: Queue, size: nat, l: seq<nat>): (v: Verdict)
  {
    if exists s :: PickedAs(space, q, size, l, s) then Holds else Fails
  }

  ghost predicate PickedAs(space: Metric, q: Queue, size: nat, l: seq<nat>, s: seq<Cand>) {
    Falling(s) && l == Ids(s) && Choice(space, q, size, multiset(s)).Holds?
  }

  /** Whether `r` is what the heuristic leaves of `q`. */
  ghost function Choice(space: Metric, q: Queue, size: nat, r: Queue): (v: Verdict)
  {
    if forall x {:trigger Unfold(x)} :: Unfold(x) ==> if |q| < size then r == q else Selected(space, q, size, r)
    then Holds else Fails
  }

  method Pick(space: Metric, q: Queue, size: nat) returns (l: seq<nat>)
    requires OneEach(q)
    ensures Picked(space, q, size, l)
  {
    var r := SelectNeighbors(space, q, size);
    assert Choice(space, q, size, r).Holds?;
    var s := Drain(r);
    l := Ids(s);
    assert PickedAs(space, q, size, l, s);
  }

  lemma PickedPart(space: Metric, q: Queue, size: nat, l: seq<nat>, s: seq<Cand>)
    requires OneEach(q) && PickedAs(space, q, size, l, s)
    ensures multiset(s) <= q && OneEach(multiset(s)) && |s| == |l| <= size
    ensures Distinct(l) && forall x :: x in l ==> HasId(q, x)
  {
    assert multiset(s) <= q && |s| <= size by {
      assert Unfold(0);
      assert |multiset(s)| == |s|;
    }
    PartOf(q, multiset(s));
    ListingIsDistinct(multiset(s), s);
    forall x | x in l
      ensures HasId(q, x)
    {
      var i :| 0 <= i < |l| && l[i] == x;
      assert s[i] in multiset(s);
    }
  }

  /** The nearest candidate is never left out. */
  lemma NearestIsPicked(space: Metric, q: Queue, size: nat, l: seq<nat>, s: seq<Cand>, c: Cand)
    requires PickedAs(space, q, size, l, s) && size > 0 && Nearest(q, c)
    ensures c in s
  {
    assert Unfold(0);
    if |q| >= size {
      var r := multiset(s);
      if |r| > 0 {
        var x :| x in r;
        assert !Before(x, c);
      }
      assert !Shadowed(space, r, c) && !Full(r, size, c);
    }
    assert c in multiset(s);
  }

  /** The last of `l` is a candidate no farther than any other. */
  ghost predicate EndsNearest(q: Queue, l: seq<nat>) {
    |l| > 0 && exists c :: c in q && c.id == l[|l| - 1] && NoFarther(c, q)
  }

  ghost predicate NoFarther(c: Cand, q: Queue) {
    forall x :: x in q ==> c.dist <= x.dist
  }

  lemma EndsWithNearest(q: Queue, s: seq<Cand>, c: Cand)
    requires Falling(s) && c in s && multiset(s) <= q && NoFarther(c, q)
    ensures EndsNearest(q, Ids(s))
  {
    var i :| 0 <= i < |s| && s[i] == c;
    var last := s[|s| - 1];
    assert last in multiset(s) && last.dist <= c.dist;
    assert NoFarther(last, q);
    assert Ids(s)[|s| - 1] == last.id;
  }

  /** A picked list is short, has no repetitions, names candidates only, and ends with the nearest one. */
  lemma PickedOk(space: Metric, q: Queue, size: nat, l: seq<nat>)
    requires OneEach(q) && Picked(space, q, size, l)
    ensures |l| <= size && Distinct(l) && forall x :: x in l ==> HasId(q, x)
    ensures |q| > 0 && size > 0 ==> EndsNearest(q, l)
  {
    var s: seq<Cand> :| PickedAs(space, q, size, l, s);
    PickedPart(space, q, size, l, s);
    if |q| > 0 && size > 0 {
      NearestExists(q);
      var c :| Nearest(q, c);
      NearestIsPicked(space, q, size, l, s, c);
      EndsWithNearest(q, s, c);
    }
  }

  // ---- pruning a full list ----

  /** The elements `ids` queued by their distance to `s`. */
  function Around(space: Metric, s: nat, ids: seq<nat>): (q: Queue)
    ensures |q| == |ids|
  {
    if |ids| == 0 then
      multiset{}
    else
      var last := ids[|ids| - 1];
      Around(space, s, ids[..|ids| - 1]) + multiset{Cand(space.Between(last, s), last)}
  }

  lemma {:induction false} AroundOk(space: Metric, s: nat, ids: seq<nat>)
    requires Distinct(ids)
    ensures OneEach(Around(space, s, ids))
    ensures forall x :: x in Around(space, s, ids) ==> x.id in ids
  {
    if |ids| > 0 {
      var init, last := ids[..|ids| - 1], ids[|ids| - 1];
      AroundOk(space, s, init);
      assert !HasId(Around(space, s, init), last);
      OneMore(Around(space, s, init), Cand(space.Between(last, s), last));
    }
  }

  /** The list of `s` after `c` asked to be linked back. */
  ghost predicate LinkedBack(space: Metric, cap: nat, c: nat, s: nat, was: seq<nat>, now: seq<nat>) {
    if c in was then now == was
    else if |was| < cap then now == was + [c]
    else Picked(space, Around(space, s, [c] + was), cap, now)
  }

  method QueueAround(space: Metric, c: nat, s: nat, list: seq<nat>) returns (q: Queue)
    ensures q == Around(space, s, [c] + list)
  {
    q := multiset{Cand(space.Between(c, s), c)};
    assert [c][..0] == [] && q == Around(space, s, [c]);
    for j := 0 to |list|
      invariant q == Around(space, s, [c] + list[..j])
    {
      q := q + multiset{Cand(space.Between(list[j], s), list[j])};
      ghost var ids := [c] + list[..j + 1];
      assert ids[..|ids| - 1] == [c] + list[..j];
    }
    assert list[..|list|] == list;
  }

  method LinkBack(space: Metric, cap: nat, c: nat, s: nat, list: seq<nat>, update: bool) returns (l: seq<nat>)
    requires Distinct(list) && |list| <= cap && (!update ==> c !in list)
    ensures LinkedBack(space, cap, c, s, list, l)
  {
    var present := false;
    if update {
      for j := 0 to |list|
        invariant !present && c !in list[..j]
      {
        if list[j] == c {
          present := true;
          break;
        }
      }
    }
    if present {
      return list;
    }
    if |list| < cap {
      return list + [c];
    }
    var q := QueueAround(space, c, s, list);
    AroundOk(space, s, [c] + list);
    l := Pick(space, q, cap);
  }

  lemma LinkedBackOk(g: Links, space: Metric, m: nat, c: nat, s: nat, level: nat, now: seq<nat>)
    requires GraphOk(g, m) && On(g, s, level) && On(g, c, level) && s != c
    requires LinkedBack(space, Cap(m, level), c, s, g[s][level], now)
    ensures ListOk(g, m, s, level, now)
    ensures forall x :: x in now ==> x == c || x in g[s][level]
  {
    var was := g[s][level];
    assert ListOk(g, m, s, level, was);
    if c !in was && |was| >= Cap(m, level) {
      var q := Around(space, s, [c] + was);
      AroundOk(space, s, [c] + was);
      PickedOk(space, q, Cap(m, level), now);
      forall x | x in now
        ensures x == c || x in was
      {
        assert HasId(q, x);
      }
    }
  }

  // ---- the nearest of a candidate set ----

  /** Ranking by the distance to `n`; no graph and no marks are involved. */
  function Nearby(space: Metric, keep: nat, n: nat): (k: Scan)
  {
    Scan([], space, {}, keep, n, space.At(n), 0)
  }

  /** The pop-then-emplace step on a full queue. */
  lemma SwapIn(k: Scan, done: set<nat>, q: Queue, x: nat, out: Cand)
    requires BestOf(k, done, q) && |q| == k.ef > 0 && x !in done && x !in k.deleted
    requires Farthest(q, out) && k.CandOf(x).dist < out.dist
    ensures BestOf(k, done + {x}, q - multiset{out} + multiset{k.CandOf(x)})
  {
    var c := k.CandOf(x);
    assert Farthest(q + multiset{c}, out);
    assert Bound(q, out.dist);
    ListInstead(k, done, q, out.dist, x, out);
    assert q + multiset{c} - multiset{out} == q - multiset{out} + multiset{c};
  }

  ghost function NearbyVerdict(k: Scan, done: set<nat>, q: Queue): (v: Verdict)
  {
    if forall x {:trigger Unfold(x)} :: Unfold(x) ==> BestOf(k, done, q) then Holds else Fails
  }

  lemma NearbyIsBest(k: Scan, done: set<nat>, q: Queue)
    requires NearbyVerdict(k, done, q).Holds?
    ensures BestOf(k, done, q)
  {
    assert Unfold(0);
  }

  method AddNearby(k: Scan, ghost done: set<nat>, x: nat, q0: Queue) returns (q: Queue)
    requires k.ef > 0 && k.deleted == {} && NearbyVerdict(k, done, q0).Holds? && x !in done
    ensures NearbyVerdict(k, done + {x}, q).Holds? && |q| > 0
  {
    NearbyIsBest(k, done, q0);
    q := q0;
    var c := k.CandOf(x);
    if |q| < k.ef {
      ListMore(k, done, q, x);
      q := q + multiset{c};
    } else {
      var out := Top(q);
      if c.dist < out.dist {
        SwapIn(k, done, q, x, out);
        q := q - multiset{out};
        q := q + multiset{c};
      } else {
        PassOver(k, done, q, x);
      }
    }
  }

  /** `elements_to_keep`. */
  function Keep(ef: nat, n: nat, candidates: set<nat>): (keep: nat)
  {
    if ef < |candidates - {n}| then ef else |candidates - {n}|
  }

  /** The `min(ef, size)` nearest to `n` among the candidates other than `n`. */
  method NearestCandidates(space: Metric, ef: nat, n: nat, candidates: set<nat>) returns (q: Queue)
    requires ef > 0 && candidates - {n} != {}
    ensures BestOf(Nearby(space, Keep(ef, n, candidates), n), candidates - {n}, q) && |q| > 0
  {
    var k := Nearby(space, Keep(ef, n, candidates), n);
    q := multiset{};
    var todo := candidates;
    while todo != {}
      invariant todo <= candidates
      invariant NearbyVerdict(k, candidates - {n} - todo, q).Holds?
      invariant candidates - {n} - todo != {} ==> |q| > 0
      decreases todo
    {
      var x :| x in todo;
      if x != n {
        q := AddNearby(k, candidates - {n} - todo, x, q);
        assert candidates - {n} - todo + {x} == candidates - {n} - (todo - {x});
      } else {
        assert candidates - {n} - todo == candidates - {n} - (todo - {x});
      }
      todo := todo - {x};
    }
    assert candidates - {n} - todo == candidates - {n};
    NearbyIsBest(k, candidates - {n}, q);
  }
}
