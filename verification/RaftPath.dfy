/**
 Continuations of a run: what some more events lead to from a state, whether any of them cuts what was
 acknowledged, and how continuations compose.
 */
module RaftPath {
  import opened Basics
  import opened RaftCluster
  import opened RaftSafety
  import opened RaftCut
  import opened RaftNetwork

  /** The cluster after some more events. */
  function Follow(c: Cluster, events: seq<Event>): (c': Cluster)
  {
    if events == [] then c else Step(Follow(c, events[..|events| - 1]), events[|events| - 1])
  }

  ghost function FollowHistory(c: Cluster, h: History, events: seq<Event>): (h': History)
  {
    if events == [] then h
    else
      var before := events[..|events| - 1];
      TrackStep(Follow(c, before), FollowHistory(c, h, before), events[|events| - 1])
  }

  ghost predicate CutFree(c: Cluster, events: seq<Event>) {
    events == [] ||
    (CutFree(c, events[..|events| - 1]) && !CutsAcked(Follow(c, events[..|events| - 1]), events[|events| - 1]))
  }

  /** The events lead from `(c, h)` to `(c', h')` and cut nothing acknowledged. */
  ghost function Path(c: Cluster, h: History, events: seq<Event>, c': Cluster, h': History): (v: Verdict)
  {
    if forall x {:trigger Unfold(x)} :: Unfold(x) ==>
         c' == Follow(c, events) && h' == FollowHistory(c, h, events) && CutFree(c, events)
    then Holds else Fails
  }

  /** The cluster invariant, carried as a whole. */
  ghost function Sound(n: nat, c: Cluster, h: History): (v: Verdict)
  {
    if forall x {:trigger Unfold(x)} :: Unfold(x) ==> Inv(n, c, h) then Holds else Fails
  }

  lemma PathNone(c: Cluster, h: History)
    ensures Path(c, h, [], c, h) == Holds
  {
  }

  lemma PathOne(c: Cluster, h: History, e: Event)
    requires !CutsAcked(c, e)
    ensures Path(c, h, [e], Step(c, e), TrackStep(c, h, e)) == Holds
  {
    var events := [e];
    var before := events[..|events| - 1];
    assert before == [];
    assert Follow(c, before) == c && FollowHistory(c, h, before) == h && CutFree(c, before);
    assert Follow(c, events) == Step(c, e);
    assert FollowHistory(c, h, events) == TrackStep(c, h, e);
    assert CutFree(c, events);
  }

  /** One event that is not a cut. */
  lemma SoundStep(n: nat, c: Cluster, h: History, e: Event) returns (c': Cluster, h': History)
    requires Sound(n, c, h) == Holds && !CutsAcked(c, e)
    ensures c' == Step(c, e) && h' == TrackStep(c, h, e)
    ensures Path(c, h, [e], c', h') == Holds && Sound(n, c', h') == Holds
  {
    assert Unfold(0);
    c', h' := Step(c, e), TrackStep(c, h, e);
    StepKeepsInv(n, c, h, e);
    PathOne(c, h, e);
  }

  lemma {:induction false} FollowMore(c: Cluster, h: History, a: seq<Event>, b: seq<Event>)
    ensures Follow(c, a + b) == Follow(Follow(c, a), b)
    ensures FollowHistory(c, h, a + b) == FollowHistory(Follow(c, a), FollowHistory(c, h, a), b)
    ensures CutFree(c, a) && CutFree(Follow(c, a), b) ==> CutFree(c, a + b)
  {
    if b == [] {
      assert a + b == a;
    } else {
      var b' := b[..|b| - 1];
      assert (a + b)[..|a + b| - 1] == a + b';
      FollowMore(c, h, a, b');
    }
  }

  lemma PathMore(c: Cluster, h: History, a: seq<Event>, c1: Cluster, h1: History, b: seq<Event>, c2: Cluster, h2: History)
    requires Path(c, h, a, c1, h1) == Holds && Path(c1, h1, b, c2, h2) == Holds
    ensures Path(c, h, a + b, c2, h2) == Holds
  {
    assert Unfold(0);
    FollowMore(c, h, a, b);
  }

  lemma {:induction false} RunFollow(n: nat, a: seq<Event>, b: seq<Event>)
    ensures Run(n, a + b) == Follow(Run(n, a), b)
    ensures RunHistory(n, a + b) == FollowHistory(Run(n, a), RunHistory(n, a), b)
    ensures NoCuts(n, a) && CutFree(Run(n, a), b) ==> NoCuts(n, a + b)
  {
    if b == [] {
      assert a + b == a;
    } else {
      var b' := b[..|b| - 1];
      assert (a + b)[..|a + b| - 1] == a + b';
      RunFollow(n, a, b');
    }
  }

  /** A path from the end of a run continues the run. */
  lemma PathRun(n: nat, events: seq<Event>, more: seq<Event>, c: Cluster, h: History)
    requires Path(Run(n, events), RunHistory(n, events), more, c, h) == Holds
    ensures c == Run(n, events + more) && h == RunHistory(n, events + more)
    ensures NoCuts(n, events) ==> NoCuts(n, events + more)
  {
    assert Unfold(0);
    RunFollow(n, events, more);
  }
}
