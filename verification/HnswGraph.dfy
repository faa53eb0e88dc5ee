/** The layered link lists of the HNSW index as a value, and reachability along one layer. */
module HnswGraph {
  /** `links[id][level]` is the neighbour list of `id` at `level`; an element has levels `0..|links[id]|`. */
  type Links = seq<seq<seq<nat>>>

  predicate On(g: Links, id: nat, level: nat) {
    id < |g| && level < |g[id]|
  }

  /** `max_M0_` at level 0, `max_M_` above. */
  function Cap(m: nat, level: nat): (cap: nat)
  {
    if level == 0 then 2 * m else m
  }

  ghost predicate Distinct(l: seq<nat>) {
    forall i, j :: 0 <= i < j < |l| ==> l[i] != l[j]
  }

  /** A proper neighbour list for `id` at `level`. */
  ghost predicate ListOk(g: Links, m: nat, id: nat, level: nat, l: seq<nat>) {
    |l| <= Cap(m, level) && Distinct(l) && id !in l && forall x :: x in l ==> On(g, x, level)
  }

  ghost predicate GraphOk(g: Links, m: nat) {
    forall id: nat, level: nat :: On(g, id, level) ==> ListOk(g, m, id, level, g[id][level])
  }

  ghost predicate SameShape(g: Links, h: Links) {
    |g| == |h| && forall id: nat :: id < |g| ==> |g[id]| == |h[id]|
  }

  /** The two graphs differ at most in the lists of `ids` at `level`. */
  ghost predicate Untouched(g: Links, h: Links, ids: set<nat>, level: nat) {
    SameShape(g, h) &&
    forall id: nat, l: nat :: On(g, id, l) && !(l == level && id in ids) ==> h[id][l] == g[id][l]
  }

  /** No list at `level` names `c`. */
  ghost predicate Unlinked(g: Links, c: nat, level: nat) {
    forall id: nat :: On(g, id, level) ==> c !in g[id][level]
  }

  function SetList(g: Links, id: nat, level: nat, l: seq<nat>): (h: Links)
    requires On(g, id, level)
  {
    g[id := g[id][level := l]]
  }

  lemma SetListOk(g: Links, m: nat, id: nat, level: nat, l: seq<nat>)
    requires On(g, id, level) && GraphOk(g, m) && ListOk(g, m, id, level, l)
    ensures GraphOk(SetList(g, id, level, l), m)
    ensures Untouched(g, SetList(g, id, level, l), {id}, level)
    ensures SetList(g, id, level, l)[id][level] == l
  {
    var h := SetList(g, id, level, l);
    forall i: nat, k: nat | On(h, i, k)
      ensures ListOk(h, m, i, k, h[i][k])
    {
      assert On(g, i, k);
      assert ListOk(g, m, i, k, h[i][k]);
      assert forall x :: x in h[i][k] ==> On(g, x, k);
    }
  }

  /** A new element with blank lists on levels `0..level`. */
  function Grow(g: Links, level: nat): (h: Links)
  {
    g + [seq(level + 1, _ => [])]
  }

  lemma GrowOk(g: Links, m: nat, level: nat)
    requires GraphOk(g, m)
    ensures GraphOk(Grow(g, level), m)
    ensures forall l: nat :: Unlinked(Grow(g, level), |g|, l)
    ensures forall l: nat :: l <= level ==> On(Grow(g, level), |g|, l) && Grow(g, level)[|g|][l] == []
    ensures forall id: nat, l: nat :: On(g, id, l) ==> On(Grow(g, level), id, l) && Grow(g, level)[id][l] == g[id][l]
  {
    var h := Grow(g, level);
    assert forall id: nat, l: nat :: On(g, id, l) ==> On(h, id, l) && h[id][l] == g[id][l];
    forall id: nat, l: nat | On(h, id, l)
      ensures ListOk(h, m, id, l, h[id][l]) && |g| !in h[id][l]
    {
      if id < |g| {
        assert On(g, id, l);
        assert ListOk(g, m, id, l, g[id][l]);
        assert forall x :: x in g[id][l] ==> On(g, x, l);
      }
    }
  }

  lemma UntouchedChain(g: Links, h: Links, k: Links, ids: set<nat>, more: set<nat>, level: nat)
    requires Untouched(g, h, ids, level) && Untouched(h, k, more, level)
    ensures Untouched(g, k, ids + more, level)
  {
    forall id: nat, l: nat | On(g, id, l) && !(l == level && id in ids + more)
      ensures k[id][l] == g[id][l]
    {
      assert On(h, id, l);
    }
  }

  // ---- reachability ----

  ghost predicate Linked(g: Links, level: nat, a: nat, b: nat) {
    On(g, a, level) && b in g[a][level]
  }

  ghost predicate Step(g: Links, level: nat, p: seq<nat>, i: nat)
    requires 0 < i < |p|
  {
    Linked(g, level, p[i - 1], p[i])
  }

  /** A walk along the lists of one level. */
  ghost predicate Path(g: Links, level: nat, p: seq<nat>) {
    |p| > 0 && forall i: nat :: 0 < i < |p| ==> Step(g, level, p, i)
  }

  ghost predicate Reach(g: Links, level: nat, a: nat, b: nat) {
    exists p :: Path(g, level, p) && p[0] == a && p[|p| - 1] == b
  }

  lemma ReachSelf(g: Links, level: nat, a: nat)
    ensures Reach(g, level, a, a)
  {
    assert Path(g, level, [a]);
  }

  lemma ReachFurther(g: Links, level: nat, a: nat, b: nat, c: nat)
    requires Reach(g, level, a, b) && Linked(g, level, b, c)
    ensures Reach(g, level, a, c)
  {
    var p :| Path(g, level, p) && p[0] == a && p[|p| - 1] == b;
    var r := p + [c];
    forall i: nat | 0 < i < |r|
      ensures Step(g, level, r, i)
    {
      assert i < |p| ==> Step(g, level, p, i);
    }
    assert Path(g, level, r);
  }

  ghost predicate Closed(g: Links, level: nat, done: set<nat>, seen: set<nat>) {
    forall a, b :: a in done && Linked(g, level, a, b) ==> b in seen
  }

  lemma {:induction false} PathStaysIn(g: Links, level: nat, p: seq<nat>, seen: set<nat>)
    requires Path(g, level, p) && p[0] in seen && Closed(g, level, seen, seen)
    ensures p[|p| - 1] in seen
  {
    if |p| > 1 {
      assert Step(g, level, p, 1);
      var q := p[1..];
      forall i: nat | 0 < i < |q|
        ensures Step(g, level, q, i)
      {
        assert Step(g, level, p, i + 1);
      }
      PathStaysIn(g, level, q, seen);
    }
  }

  /** A set closed under the links of a level holds everything reachable from it. */
  lemma ReachStaysIn(g: Links, level: nat, a: nat, b: nat, seen: set<nat>)
    requires a in seen && Closed(g, level, seen, seen) && Reach(g, level, a, b)
    ensures b in seen
  {
    var p :| Path(g, level, p) && p[0] == a && p[|p| - 1] == b;
    PathStaysIn(g, level, p, seen);
  }
}
