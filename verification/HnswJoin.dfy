/** What connecting an element at one level does to the graph. */
module HnswJoin {
  import opened Basics
  import opened HnswSelect
  import opened HnswGraph
  import opened HnswSearch
  import opened HnswLinks

  ghost function SetOf(l: seq<nat>): (r: set<nat>)
  {
    set x | x in l
  }

  /** Candidates for linking `c` at `level`: distinct, on that level, and not `c`. */
  ghost predicate Fit(g: Links, q: Queue, c: nat, level: nat) {
    OneEach(q) && forall x :: x in q ==> On(g, x.id, level) && x.id != c
  }

  ghost predicate AllOn(g: Links, l: seq<nat>, level: nat) {
    forall i: nat :: i < |l| ==> On(g, l[i], level)
  }

  ghost predicate BackAt(space: Metric, m: nat, g0: Links, g: Links, c: nat, level: nat, chosen: seq<nat>, i: nat)
    requires i < |chosen| && On(g0, chosen[i], level) && On(g, chosen[i], level)
  {
    LinkedBack(space, Cap(m, level), c, chosen[i], g0[chosen[i]][level], g[chosen[i]][level])
  }

  /** `c` lists `chosen` at `level`, the first `n` of those have answered, and nothing else changed. */
  ghost predicate Joined(space: Metric, m: nat, g0: Links, g: Links, c: nat, level: nat, chosen: seq<nat>, n: nat)
  {
    n <= |chosen| && On(g, c, level) && AllOn(g0, chosen, level) &&
    GraphOk(g, m) && Untouched(g0, g, {c} + SetOf(chosen[..n]), level) && g[c][level] == chosen &&
    forall i: nat :: i < n ==> BackAt(space, m, g0, g, c, level, chosen, i)
  }

  lemma JoinStart(space: Metric, m: nat, g: Links, q: Queue, c: nat, level: nat, chosen: seq<nat>)
    requires GraphOk(g, m) && On(g, c, level) && Fit(g, q, c, level) && Picked(space, q, m, chosen)
    ensures Joined(space, m, g, SetList(g, c, level, chosen), c, level, chosen, 0)
    ensures Distinct(chosen) && c !in chosen && |chosen| <= m
    ensures m > 0 && |q| > 0 ==> EndsNearest(q, chosen)
  {
    PickedOk(space, q, m, chosen);
    assert forall x :: x in chosen ==> HasId(q, x);
    assert ListOk(g, m, c, level, chosen);
    SetListOk(g, m, c, level, chosen);
  }

  /** One more of the chosen answers. */
  lemma JoinStep(space: Metric, m: nat, g0: Links, g: Links, c: nat, level: nat, chosen: seq<nat>, n: nat, now: seq<nat>)
    requires Joined(space, m, g0, g, c, level, chosen, n) && n < |chosen| && Distinct(chosen) && c !in chosen
    requires On(g, chosen[n], level) && LinkedBack(space, Cap(m, level), c, chosen[n], g[chosen[n]][level], now)
    ensures Joined(space, m, g0, SetList(g, chosen[n], level, now), c, level, chosen, n + 1)
  {
    var s := chosen[n];
    var h := SetList(g, s, level, now);
    LinkedBackOk(g, space, m, c, s, level, now);
    SetListOk(g, m, s, level, now);
    UntouchedChain(g0, g, h, {c} + SetOf(chosen[..n]), {s}, level);
    assert chosen[..n + 1] == chosen[..n] + [s];
    assert {c} + SetOf(chosen[..n]) + {s} == {c} + SetOf(chosen[..n + 1]);
    assert g[s][level] == g0[s][level] by {
      NotYet(chosen, n);
      assert On(g0, s, level);
    }
    forall i: nat | i < n + 1
      ensures BackAt(space, m, g0, h, c, level, chosen, i)
    {
      assert i < n ==> BackAt(space, m, g0, g, c, level, chosen, i) && On(g, chosen[i], level);
    }
  }

  lemma NotYet(l: seq<nat>, n: nat)
    requires Distinct(l) && n < |l|
    ensures l[n] !in SetOf(l[..n])
  {
  }

  /** A list that has not been asked yet is the one it was. */
  lemma NotAsked(space: Metric, m: nat, g0: Links, g: Links, c: nat, level: nat, chosen: seq<nat>, n: nat)
    requires Joined(space, m, g0, g, c, level, chosen, n) && n < |chosen| && Distinct(chosen) && c !in chosen
    ensures On(g0, chosen[n], level) && On(g, chosen[n], level)
    ensures g[chosen[n]][level] == g0[chosen[n]][level] && Distinct(g[chosen[n]][level])
    ensures |g[chosen[n]][level]| <= Cap(m, level)
  {
    NotYet(chosen, n);
    assert On(g0, chosen[n], level);
    assert On(g, chosen[n], level);
    assert ListOk(g, m, chosen[n], level, g[chosen[n]][level]);
  }

  /** An element nobody names is not reached from another one. */
  lemma NewIsNotReached(g: Links, m: nat, level: nat, a: nat, b: nat, c: nat)
    requires GraphOk(g, m) && On(g, a, level) && Unlinked(g, c, level) && a != c && Reach(g, level, a, b)
    ensures b != c
  {
    var others := Layer(g, level) - {c};
    forall x, y | x in others && Linked(g, level, x, y)
      ensures y in others
    {
      assert ListOk(g, m, x, level, g[x][level]);
    }
    ReachStaysIn(g, level, a, b, others);
  }

  // ---- one level of an insertion or a repair, seen on the graphs before and after ----

  ghost predicate SameAt(g: Links, h: Links, level: nat) {
    SameShape(g, h) && forall id: nat :: On(g, id, level) ==> h[id][level] == g[id][level]
  }

  /** Only lists at `level` may differ. */
  ghost predicate OnlyLevel(g: Links, h: Links, level: nat) {
    SameShape(g, h) && forall id: nat, l: nat :: On(g, id, l) && l != level ==> h[id][l] == g[id][l]
  }

  /** What linking `c` depends on: the vectors, the marks, the entry point and the query. */
  datatype Linking = Linking(space: Metric, m: nat, ef: nat, deleted: set<nat>, entry: nat, query: Point, c: nat, update: bool)

  /** Candidates carry their distance to the query, and are unmarked unless they are the entry point. */
  ghost predicate Real(k: Linking, q: Queue) {
    forall x :: x in q ==> x == Cand(k.space.From(k.query, x.id), x.id) && (x.id in k.deleted ==> x.id == k.entry)
  }

  ghost predicate KeptAt(g0: Links, g: Links, level: nat, ids: set<nat>) {
    forall id: nat :: On(g0, id, level) && id !in ids ==> On(g, id, level) && g[id][level] == g0[id][level]
  }

  // ---- where the candidates come from ----

  /** What a layer search returns. */
  ghost predicate Searched(k: Scan, top: Queue, seen: set<nat>) {
    Sound(k, seen, multiset{}) && BestOf(k, seen, top) && Exhaustive(k, seen, top) && Expanded(k, seen, top)
  }

  /** `r` is `all`, without a farthest member when there are more than `ef`. */
  ghost predicate Trimmed(all: Queue, ef: nat, r: Queue) {
    if |all| <= ef then r == all else exists out :: Farthest(all, out) && r == all - multiset{out}
  }

  /** `r` is `q` without its members named `id`. */
  ghost predicate WithoutId(q: Queue, id: nat, r: Queue) {
    forall x :: r[x] == if x.id == id then 0 else q[x]
  }

  /** A deleted entry point joins `rest`, which for an update must not be empty. */
  ghost predicate Offered(k: Linking, rest: Queue, q: Queue) {
    if k.entry in k.deleted && (k.update ==> |rest| > 0)
    then Trimmed(rest + multiset{Cand(k.space.From(k.query, k.entry), k.entry)}, k.ef, q)
    else q == rest
  }

  /** The search of `level` from `from`. */
  ghost function ScanOf(k: Linking, g: Links, level: nat, from: nat): (s: Scan)
  {
    Scan(g, k.space, k.deleted, k.ef, from, k.query, level)
  }

  ghost predicate FoundBy(k: Linking, g: Links, level: nat, from: nat, q: Queue, top: Queue, seen: set<nat>, rest: Queue) {
    Searched(ScanOf(k, g, level, from), top, seen) && WithoutId(top, k.c, rest) && Offered(k, rest, q)
  }

  /** `q` is what the search of `level` from `from` finds, other than `c`, with a deleted entry point offered. */
  ghost predicate Found(k: Linking, g: Links, level: nat, from: nat, q: Queue) {
    FoundVerdict(k, g, level, from, q).Holds?
  }

  ghost function FoundVerdict(k: Linking, g: Links, level: nat, from: nat, q: Queue): (v: Verdict)
  {
    if exists top, seen, rest :: FoundBy(k, g, level, from, q, top, seen, rest) then Holds else Fails
  }

  /** Such candidates carry their distances and are unmarked unless they are the entry point. */
  lemma FoundIsReal(k: Linking, g: Links, level: nat, from: nat, q: Queue)
    requires Found(k, g, level, from, q)
    ensures Real(k, q)
  {
    var top, seen, rest :| FoundBy(k, g, level, from, q, top, seen, rest);
    RestIsReal(k, ScanOf(k, g, level, from), top, seen, rest);
    OfferedAreReal(k, rest, q);
  }

  lemma RestIsReal(k: Linking, s: Scan, top: Queue, seen: set<nat>, rest: Queue)
    requires BestOf(s, seen, top) && WithoutId(top, k.c, rest)
    requires s.space == k.space && s.query == k.query && s.deleted == k.deleted
    ensures Real(k, rest)
  {
    assert forall x :: x in rest ==> x in top;
  }

  lemma OfferedAreReal(k: Linking, rest: Queue, q: Queue)
    requires Real(k, rest) && Offered(k, rest, q)
    ensures Real(k, q)
  {
  }

  /** A search for an update that finds nothing has only marked elements and `c` within reach. */
  lemma FoundNothing(k: Linking, g: Links, level: nat, from: nat)
    requires Found(k, g, level, from, multiset{}) && k.update && k.ef > 1
    ensures ReachesNothing(k, g, level, from)
  {
    var top, seen, rest :| FoundBy(k, g, level, from, multiset{}, top, seen, rest);
    OfferedNothing(k, rest);
    NothingElse(ScanOf(k, g, level, from), seen, top, rest, k.c);
  }

  lemma OfferedNothing(k: Linking, rest: Queue)
    requires Offered(k, rest, multiset{}) && k.update && k.ef > 0
    ensures |rest| == 0
  {
    var all := rest + multiset{Cand(k.space.From(k.query, k.entry), k.entry)};
    assert |all| == |rest| + 1;
  }

  ghost predicate ReachesNothing(k: Linking, g: Links, level: nat, cur: nat) {
    forall x :: Reach(g, level, cur, x) ==> x in k.deleted || x == k.c
  }

  lemma NothingElse(k: Scan, seen: set<nat>, top: Queue, q: Queue, id: nat)
    requires k.ef > 1 && BestOf(k, seen, top) && Exhaustive(k, seen, top) && |q| == 0 && WithoutId(top, id, q)
    ensures forall x :: Reach(k.links, k.layer, k.start, x) ==> x in k.deleted || x == id
  {
    assert q == multiset{};
    forall x | x in top
      ensures x.id == id
    {
      assert q[x] == 0;
    }
    OnlyOne(top, id);
    forall x | Reach(k.links, k.layer, k.start, x) && x != id
      ensures x in k.deleted
    {
      assert k.CandOf(x) !in top;
      assert x in seen;
    }
  }

  /** A queue that can only hold `id` holds it once. */
  lemma OnlyOne(top: Queue, id: nat)
    requires OneEach(top) && forall x :: x in top ==> x.id == id
    ensures |top| <= 1
  {
    if |top| > 0 {
      var c :| c in top;
      assert top == multiset{c};
    }
  }

  /** Only the layer searched matters. */
  lemma FoundMoves(k: Linking, g: Links, h: Links, level: nat, from: nat, q: Queue)
    requires Found(k, g, level, from, q) && SameAt(g, h, level)
    ensures Found(k, h, level, from, q)
  {
    var top, seen, rest :| FoundBy(k, g, level, from, q, top, seen, rest);
    SearchedMoves(ScanOf(k, g, level, from), h, top, seen);
    assert FoundBy(k, h, level, from, q, top, seen, rest);
  }

  lemma SearchedMoves(s: Scan, h: Links, top: Queue, seen: set<nat>)
    requires Searched(s, top, seen) && SameAt(s.links, h, s.layer)
    ensures Searched(s.(links := h), top, seen)
  {
    SameAtBack(s.links, h, s.layer);
    forall v | v in seen
      ensures On(h, v, s.layer) && Reach(h, s.layer, s.start, v)
    {
      ReachSame(s.links, h, s.layer, s.start, v);
    }
    if |top| < s.ef {
      forall x | Reach(h, s.layer, s.start, x)
        ensures x in seen
      {
        ReachSame(h, s.links, s.layer, s.start, x);
      }
    }
    SameBest(s, h, seen, top);
    SameExpanded(s, h, seen, top);
  }

  lemma SameExpanded(s: Scan, h: Links, seen: set<nat>, top: Queue)
    requires Expanded(s, seen, top) && SameAt(s.links, h, s.layer)
    ensures Expanded(s.(links := h), seen, top)
  {
    var t := s.(links := h);
    assert forall v :: t.CandOf(v) == s.CandOf(v);
    forall v, y | v in seen && Near(t, top, v) && Linked(h, s.layer, v, y)
      ensures y in seen
    {
      assert On(s.links, v, s.layer);
      assert Linked(s.links, s.layer, v, y);
      assert Near(s, top, v);
    }
  }

  lemma SameBest(s: Scan, h: Links, seen: set<nat>, top: Queue)
    requires BestOf(s, seen, top)
    ensures BestOf(s.(links := h), seen, top)
  {
    var t := s.(links := h);
    assert forall v :: t.CandOf(v) == s.CandOf(v);
    forall v | v in seen
      ensures t.CandOf(v) in top || Beaten(t, top, v)
    {
      assert s.CandOf(v) in top || Beaten(s, top, v);
    }
  }

  // ---- what a linked level looks like ----

  /** At `level`, `c` lists what the heuristic picked from the candidates `q` found from `from`, those
      answered, and the rest is kept. */
  ghost predicate JoinedWith(k: Linking, g0: Links, g: Links, level: nat, from: nat, q: Queue, chosen: seq<nat>) {
    Found(k, g0, level, from, q) && Picked(k.space, q, k.m, chosen) && EndsNearest(q, chosen) &&
    LinkedAs(k, g0, g, level, chosen)
  }

  ghost predicate LinkedAs(k: Linking, g0: Links, g: Links, level: nat, chosen: seq<nat>) {
    On(g, k.c, level) && g[k.c][level] == chosen && AllOn(g0, chosen, level) && AllOn(g, chosen, level) &&
    Answered(k, g0, g, level, chosen) && KeptAt(g0, g, level, {k.c} + SetOf(chosen))
  }

  /** Each chosen neighbour has the list that linking back gives it. */
  ghost predicate Answered(k: Linking, g0: Links, g: Links, level: nat, chosen: seq<nat>)
    requires AllOn(g0, chosen, level) && AllOn(g, chosen, level)
  {
    forall i: nat :: i < |chosen| ==> BackAt(k.space, k.m, g0, g, k.c, level, chosen, i)
  }

  ghost predicate JoinedAt(k: Linking, g0: Links, g: Links, level: nat, from: nat) {
    JoinedVerdict(k, g0, g, level, from).Holds?
  }

  ghost function JoinedVerdict(k: Linking, g0: Links, g: Links, level: nat, from: nat): (v: Verdict)
  {
    if exists q, chosen :: JoinedWith(k, g0, g, level, from, q, chosen) then Holds else Fails
  }

  /** The last neighbour listed, from which the level below is searched. */
  ghost predicate EndsAt(g: Links, c: nat, level: nat, next: nat) {
    On(g, c, level) && |g[c][level]| > 0 && next == g[c][level][|g[c][level]| - 1]
  }

  /** The level, searched from `from`, is linked and the next one is searched from the nearest chosen
      element; an update leaves the level as it was when the search finds nothing. */
  ghost predicate LevelDone(k: Linking, g0: Links, g: Links, level: nat, from: nat, next: nat) {
    (JoinedAt(k, g0, g, level, from) && EndsAt(g, k.c, level, next)) ||
    (k.update && SameAt(g0, g, level) && Found(k, g0, level, from, multiset{}) && next == from)
  }

  lemma JoinedIsJoinedAt(k: Linking, g0: Links, g: Links, level: nat, from: nat, q: Queue, chosen: seq<nat>)
    requires Joined(k.space, k.m, g0, g, k.c, level, chosen, |chosen|) && Found(k, g0, level, from, q)
    requires Picked(k.space, q, k.m, chosen) && EndsNearest(q, chosen)
    ensures LevelDone(k, g0, g, level, from, chosen[|chosen| - 1]) && OnlyLevel(g0, g, level)
  {
    assert chosen[..|chosen|] == chosen;
    forall i: nat | i < |chosen|
      ensures On(g, chosen[i], level)
    {
      assert On(g0, chosen[i], level);
    }
    assert JoinedWith(k, g0, g, level, from, q, chosen);
  }

  lemma PathSame(g: Links, h: Links, level: nat, p: seq<nat>)
    requires SameAt(g, h, level) && Path(g, level, p)
    ensures Path(h, level, p)
  {
    forall i: nat | 0 < i < |p|
      ensures Step(h, level, p, i)
    {
      assert Step(g, level, p, i);
    }
  }

  lemma SameAtBack(g: Links, h: Links, level: nat)
    requires SameAt(g, h, level)
    ensures SameAt(h, g, level)
  {
    assert forall id: nat :: On(h, id, level) ==> On(g, id, level);
  }

  lemma ReachSame(g: Links, h: Links, level: nat, a: nat, b: nat)
    requires SameAt(g, h, level) && Reach(g, level, a, b)
    ensures Reach(h, level, a, b)
  {
    var p :| Path(g, level, p) && p[0] == a && p[|p| - 1] == b;
    PathSame(g, h, level, p);
  }

  /** Changes at other levels, before and after, do not matter. */
  lemma JoinedMoves(k: Linking, g0: Links, g: Links, h0: Links, h: Links, level: nat, from: nat)
    requires JoinedAt(k, g0, g, level, from) && SameAt(g0, h0, level) && SameAt(g, h, level)
    ensures JoinedAt(k, h0, h, level, from)
  {
    var q, chosen :| JoinedWith(k, g0, g, level, from, q, chosen);
    FoundMoves(k, g0, h0, level, from, q);
    LinkedMoves(k, g0, g, h0, h, level, chosen);
    assert JoinedWith(k, h0, h, level, from, q, chosen);
  }

  lemma LinkedMoves(k: Linking, g0: Links, g: Links, h0: Links, h: Links, level: nat, chosen: seq<nat>)
    requires LinkedAs(k, g0, g, level, chosen) && SameAt(g0, h0, level) && SameAt(g, h, level)
    ensures LinkedAs(k, h0, h, level, chosen)
  {
    AllOnMoves(g0, h0, chosen, level);
    AllOnMoves(g, h, chosen, level);
    AnsweredMoves(k, g0, g, h0, h, level, chosen);
    KeptMoves(g0, g, h0, h, level, {k.c} + SetOf(chosen));
  }

  lemma AnsweredMoves(k: Linking, g0: Links, g: Links, h0: Links, h: Links, level: nat, chosen: seq<nat>)
    requires AllOn(g0, chosen, level) && AllOn(g, chosen, level) && AllOn(h0, chosen, level) && AllOn(h, chosen, level)
    requires Answered(k, g0, g, level, chosen) && SameAt(g0, h0, level) && SameAt(g, h, level)
    ensures Answered(k, h0, h, level, chosen)
  {
    forall i: nat | i < |chosen|
      ensures BackAt(k.space, k.m, h0, h, k.c, level, chosen, i)
    {
      assert On(g0, chosen[i], level) && On(g, chosen[i], level);
      assert BackAt(k.space, k.m, g0, g, k.c, level, chosen, i);
    }
  }

  lemma AllOnMoves(g: Links, h: Links, l: seq<nat>, level: nat)
    requires AllOn(g, l, level) && SameAt(g, h, level)
    ensures AllOn(h, l, level)
  {
  }

  lemma KeptMoves(g0: Links, g: Links, h0: Links, h: Links, level: nat, ids: set<nat>)
    requires KeptAt(g0, g, level, ids) && SameAt(g0, h0, level) && SameAt(g, h, level)
    ensures KeptAt(h0, h, level, ids)
  {
    forall id: nat | On(h0, id, level) && id !in ids
      ensures On(h, id, level) && h[id][level] == h0[id][level]
    {
      assert On(g0, id, level);
    }
  }

  lemma LevelMoves(k: Linking, g0: Links, g: Links, h0: Links, h: Links, level: nat, from: nat, next: nat)
    requires LevelDone(k, g0, g, level, from, next) && SameAt(g0, h0, level) && SameAt(g, h, level)
    ensures LevelDone(k, h0, h, level, from, next)
  {
    if JoinedAt(k, g0, g, level, from) && EndsAt(g, k.c, level, next) {
      JoinedMoves(k, g0, g, h0, h, level, from);
    } else {
      FoundMoves(k, g0, h0, level, from, multiset{});
      SameAtBack(g0, h0, level);
      SameAtChain(h0, g0, g, level);
      SameAtChain(h0, g, h, level);
    }
  }

  lemma SameAtChain(f: Links, g: Links, h: Links, level: nat)
    requires SameAt(f, g, level) && SameAt(g, h, level)
    ensures SameAt(f, h, level)
  {
    assert forall id: nat :: On(f, id, level) ==> On(g, id, level);
  }

  /** Level `l` is done from `starts[l + 1]`, and the next one starts at `starts[l]`. */
  ghost predicate DoneAt(k: Linking, g0: Links, g: Links, l: nat, starts: seq<nat>)
    requires l + 1 < |starts|
  {
    DoneVerdict(k, g0, g, l, starts).Holds?
  }

  ghost function DoneVerdict(k: Linking, g0: Links, g: Links, l: nat, starts: seq<nat>): (v: Verdict)
    requires l + 1 < |starts|
  {
    if forall x {:trigger Unfold(x)} :: Unfold(x) ==> LevelDone(k, g0, g, l, starts[l + 1], starts[l]) then Holds else Fails
  }

  lemma DoneHolds(k: Linking, g0: Links, g: Links, l: nat, starts: seq<nat>)
    requires l + 1 < |starts|
    ensures DoneAt(k, g0, g, l, starts) <==> LevelDone(k, g0, g, l, starts[l + 1], starts[l])
  {
    assert Unfold(0);
  }

  /** Levels `at..levels` are done, from the top, and all others are as they were. */
  ghost predicate DoneFrom(k: Linking, g0: Links, g: Links, at: nat, levels: nat, starts: seq<nat>) {
    |starts| == levels + 1 && AllDone(k, g0, g, at, levels, starts) && Outside(g0, g, at, levels)
  }

  ghost predicate AllDone(k: Linking, g0: Links, g: Links, at: nat, levels: nat, starts: seq<nat>)
    requires levels < |starts|
  {
    forall l: nat :: at <= l < levels ==> DoneAt(k, g0, g, l, starts)
  }

  ghost predicate Outside(g0: Links, g: Links, at: nat, levels: nat) {
    forall l: nat :: l < at || l >= levels ==> SameAt(g0, g, l)
  }

  lemma OtherLevel(g: Links, h: Links, level: nat, l: nat)
    requires OnlyLevel(g, h, level) && l != level
    ensures SameAt(g, h, l)
  {
  }

  lemma StaysDone(k: Linking, g0: Links, g: Links, h: Links, level: nat, l: nat, starts: seq<nat>, next: nat)
    requires level < l && l + 1 < |starts| && DoneAt(k, g0, g, l, starts) && OnlyLevel(g, h, level)
    ensures DoneAt(k, g0, h, l, starts[level := next])
  {
    DoneHolds(k, g0, g, l, starts);
    OtherLevel(g, h, level, l);
    SameAtSelf(g0, l);
    LevelMoves(k, g0, g, g0, h, l, starts[l + 1], starts[l]);
    DoneHolds(k, g0, h, l, starts[level := next]);
  }

  /** One more level. */
  lemma DoneNext(k: Linking, g0: Links, g: Links, h: Links, level: nat, levels: nat, starts: seq<nat>, next: nat)
    requires DoneFrom(k, g0, g, level + 1, levels, starts) && level < levels
    requires OnlyLevel(g, h, level) && LevelDone(k, g, h, level, starts[level + 1], next)
    ensures DoneFrom(k, g0, h, level, levels, starts[level := next])
  {
    LevelBack(k, g0, g, h, level, levels, starts, next);
    AllDoneNext(k, g0, g, h, level, levels, starts, next);
    OutsideNext(g0, g, h, level, levels);
  }

  lemma AllDoneNext(k: Linking, g0: Links, g: Links, h: Links, level: nat, levels: nat, starts: seq<nat>, next: nat)
    requires level < levels < |starts| && AllDone(k, g0, g, level + 1, levels, starts) && OnlyLevel(g, h, level)
    requires DoneAt(k, g0, h, level, starts[level := next])
    ensures AllDone(k, g0, h, level, levels, starts[level := next])
  {
    var starts' := starts[level := next];
    forall l: nat | level < l < levels
      ensures DoneAt(k, g0, h, l, starts')
    {
      assert DoneAt(k, g0, g, l, starts);
      StaysDone(k, g0, g, h, level, l, starts, next);
    }
  }

  lemma LevelBack(k: Linking, g0: Links, g: Links, h: Links, level: nat, levels: nat, starts: seq<nat>, next: nat)
    requires Outside(g0, g, level + 1, levels) && level + 1 < |starts| && LevelDone(k, g, h, level, starts[level + 1], next)
    ensures DoneAt(k, g0, h, level, starts[level := next])
  {
    SameAtBack(g0, g, level);
    SameAtSelf(h, level);
    LevelMoves(k, g, h, g0, h, level, starts[level + 1], next);
    DoneHolds(k, g0, h, level, starts[level := next]);
  }

  lemma OutsideNext(g0: Links, g: Links, h: Links, level: nat, levels: nat)
    requires OnlyLevel(g, h, level) && Outside(g0, g, level + 1, levels) && level < levels
    ensures Outside(g0, h, level, levels)
  {
    forall l: nat | l < level || l >= levels
      ensures SameAt(g0, h, l)
    {
      OtherLevel(g, h, level, l);
      SameAtChain(g0, g, h, l);
    }
  }

  lemma SameAtSelf(g: Links, level: nat)
    ensures SameAt(g, g, level)
  {
  }
}
