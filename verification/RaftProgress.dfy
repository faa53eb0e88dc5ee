/**
 Replication makes progress.  From every state of a run without cuts: a follower whose term is no later
 than the leader's agrees with the leader's whole log after finitely many exchanges between the two; and an
 entry handed to a leader that reaches a majority can be brought to be applied by all of them.
 */
module RaftProgress {
  import opened Basics
  import opened RaftTypes
  import opened RaftOps
  import opened RaftNode
  import opened RaftCluster
  import opened RaftReplication
  import opened RaftSafety
  import opened RaftCommit
  import opened RaftCut
  import opened RaftNetwork
  import opened RaftEffects
  import opened RaftPath
  import opened RaftPace
  import opened RaftCampaign

  /** The state is safe and paced, carried as a whole. */
  ghost function Good(n: nat, c: Cluster, h: History): (v: Verdict)
  {
    if forall x {:trigger Unfold(x)} :: Unfold(x) ==> Safe(n, c, h) && Paced(c, h) then Holds else Fails
  }

  /** One event that is not a cut: nobody stops, and only the server concerned changes. */
  lemma GoodStep(n: nat, c: Cluster, h: History, e: Event) returns (c': Cluster, h': History)
    requires Good(n, c, h) == Holds && Enabled(c, e) && !CutsAcked(c, e)
    ensures Good(n, c', h') == Holds && Path(c, h, [e], c', h') == Holds
    ensures Handle(c.nodes[e.node], e.input).Ok?
    ensures c'.nodes == c.nodes[e.node := Handle(c.nodes[e.node], e.input).s]
    ensures c.sent <= c'.sent && forall p :: p in Handle(c.nodes[e.node], e.input).out ==> p in c'.sent
  {
    assert Unfold(0);
    c', h' := Step(c, e), TrackStep(c, h, e);
    SafeExactly(n, c, h, e);
    StepKeepsPaced(n, c, h, e);
    PathOne(c, h, e);
    assert e.node !in c'.down;
  }

  /** Server `i` leads, and `j` is another server that has not passed its term. */
  ghost predicate Pair(n: nat, c: Cluster, i: nat, j: nat) {
    && i < n == |c.nodes| && j < n && i != j
    && c.nodes[i].role == Leader && c.nodes[i].id == i && |c.nodes[i].peers| == n
    && c.nodes[j].term <= c.nodes[i].term
  }

  /** The append that the leader would send to `j` now is on its way. */
  ghost predicate Offered(n: nat, c: Cluster, i: nat, j: nat) {
    Pair(n, c, i, j) && Packet(i, j, AppendFor(c.nodes[i], j)) in c.sent
  }

  /** The facts about a leader and its append that the invariants give. */
  ghost predicate OfferFacts(n: nat, c: Cluster, h: History, i: nat, j: nat) {
    && Pair(n, c, i, j)
    && var s := c.nodes[i];
    var m := AppendFor(s, j);
    && s.term in h.reigns && h.reigns[s.term].log == s.log
    && s.peers[j].next <= |s.log| + 1 && s.commit <= |s.log|
    && m.prevIdx == s.peers[j].next - 1 && m.prevIdx + |m.entries| == |s.log| && m.commit == s.commit
  }

  lemma OfferIs(n: nat, c: Cluster, h: History, i: nat, j: nat)
    requires Good(n, c, h) == Holds && Pair(n, c, i, j)
    ensures OfferFacts(n, c, h, i, j)
  {
    assert Unfold(0);
    assert NodeInv(n, c.sent, h, i, c.nodes[i]);
  }

  /** It takes back nothing: it reaches the end of the leader's log, and no reply reaches further. */
  lemma OfferIsNoCut(n: nat, c: Cluster, h: History, i: nat, j: nat)
    requires Good(n, c, h) == Holds && Offered(n, c, i, j)
    ensures !CutsAcked(c, Event(j, FromPeer(i, AppendFor(c.nodes[i], j))))
  {
    OfferIs(n, c, h, i, j);
    assert Unfold(0);
    var m := AppendFor(c.nodes[i], j);
    if RepliedUpTo(c.sent, j, m.term, m.prevIdx + 1) {
      RepliesEnd(n, c, h, j, m.term, m.prevIdx + 1);
    }
  }

  /** No reply reaches beyond the end of the leader's log. */
  lemma RepliesEnd(n: nat, c: Cluster, h: History, v: nat, t: nat, k: int)
    requires Inv(n, c, h) && RepliedUpTo(c.sent, v, t, k)
    ensures t in h.reigns && k <= |h.reigns[t].log|
  {
    var p :| p in c.sent && p.src == v && p.msg.AppendReply? && p.msg.success && p.msg.term == t && k <= p.msg.currentIdx;
    assert PacketInv(n, c.nodes, h, p);
  }

  /** A follower known to hold something holds it, so that an append from there is accepted. */
  lemma KnownIsHeld(n: nat, c: Cluster, h: History, i: nat, j: nat)
    requires Good(n, c, h) == Holds && Pair(n, c, i, j) && 0 < c.nodes[i].peers[j].matchIdx
    ensures c.nodes[j].term == c.nodes[i].term && c.nodes[i].peers[j].matchIdx <= |c.nodes[i].log|
    ensures Has(c.nodes[j].log, c.nodes[i].log, c.nodes[i].peers[j].matchIdx)
    ensures c.nodes[i].peers[j].next <= c.nodes[i].peers[j].matchIdx + 1
  {
    assert Unfold(0);
    var s := c.nodes[i];
    var k := s.peers[j].matchIdx;
    assert NodeInv(n, c.sent, h, i, s) && NodePace(s);
    assert Replied(c.sent, j, i, s.term, k);
    var p :| p in c.sent && p.src == j && p.dst == i && p.msg.AppendReply?
             && p.msg.success && p.msg.term == s.term && p.msg.currentIdx == k;
    assert PacketInv(n, c.nodes, h, p);
    assert RepliedUpTo(c.sent, j, s.term, k) && RepliedUpTo(c.sent, j, s.term, 0);
    assert BaseHeld(c.sent, h, j, c.nodes[j]);
    assert ReignInv(n, c.nodes, c.sent, h, s.term);
    if |h.reigns[s.term].base| < k {
      AckedIsHeld(n, c, h, j, k);
    } else {
      HasShorter(c.nodes[j].log, s.log, k, |h.reigns[s.term].base|);
    }
  }

  lemma HeldPrefix(log: Log, ref: Log, k: nat, s: Server, m: Msg)
    requires Has(log, ref, k) && m.Append? && 0 <= m.prevIdx <= k && m.prevTerm == TermAt(ref, m.prevIdx) && s.log == log
    ensures PreviousHeld(s, m)
  {
    if 0 < m.prevIdx {
      assert log[..k][m.prevIdx - 1] == ref[..k][m.prevIdx - 1];
    }
  }

  /** An append is refused only where nothing is known and something precedes it. */
  lemma RefusedWhen(n: nat, c: Cluster, h: History, i: nat, j: nat)
    requires Good(n, c, h) == Holds && Pair(n, c, i, j)
    ensures c.nodes[i].peers[j].matchIdx <= 0 || PreviousHeld(c.nodes[j], AppendFor(c.nodes[i], j))
    ensures 1 < c.nodes[i].peers[j].next || PreviousHeld(c.nodes[j], AppendFor(c.nodes[i], j))
  {
    OfferIs(n, c, h, i, j);
    var s := c.nodes[i];
    if 0 < s.peers[j].matchIdx {
      KnownIsHeld(n, c, h, i, j);
      HeldPrefix(c.nodes[j].log, s.log, s.peers[j].matchIdx, c.nodes[j], AppendFor(s, j));
    }
  }

  // ---- one exchange ----

  /** The follower's state `f` and its reply, after an append of the leader `s` that reaches the end. */
  ghost predicate Answered(s: Server, held: bool, f: Server, reply: Msg) {
    && f.term == s.term && reply.AppendReply? && reply.term == s.term && reply.success == held
    && if held then
         reply.currentIdx == |s.log| && Has(f.log, s.log, |s.log|) && s.commit <= f.commit
       else 0 <= reply.currentIdx
  }

  /** The outcome of an append that reaches the end of the leader's log. */
  lemma DoneIsAnswered(s: Server, f: Server, m: Msg, f': Server, reply: Msg)
    requires m.Append? && 0 <= m.prevIdx && m.prevIdx + |m.entries| == |s.log| && m.commit == s.commit <= |s.log|
    requires AppendDone(s.log, f, m, f', reply) && f.term == f'.term == s.term
    ensures Answered(s, PreviousHeld(f, m), f', reply)
  {
    if PreviousHeld(f, m) {
      assert s.log[..|s.log|] == s.log;
    }
  }

  /** The append reaches the follower. */
  lemma Delivered(n: nat, c: Cluster, h: History, i: nat, j: nat)
    returns (c': Cluster, h': History, reply: Msg)
    requires Good(n, c, h) == Holds && Offered(n, c, i, j)
    ensures Path(c, h, [Event(j, FromPeer(i, AppendFor(c.nodes[i], j)))], c', h') == Holds && Good(n, c', h') == Holds
    ensures |c'.nodes| == n && c'.nodes == c.nodes[j := c'.nodes[j]] && c.sent <= c'.sent && Packet(j, i, reply) in c'.sent
    ensures Answered(c.nodes[i], PreviousHeld(c.nodes[j], AppendFor(c.nodes[i], j)), c'.nodes[j], reply)
  {
    var m := AppendFor(c.nodes[i], j);
    OfferIs(n, c, h, i, j);
    OfferIsNoCut(n, c, h, i, j);
    assert Enabled(c, Event(j, FromPeer(i, m))) by { Working(n, c, h, j); }
    c', h' := GoodStep(n, c, h, Event(j, FromPeer(i, m)));
    var q := RecvAppend(c.nodes[j], i, m);
    DeliveredTo(n, c, h, i, j, m);
    reply := q.out[0].msg;
    DoneIsAnswered(c.nodes[i], Adopt(c.nodes[j], m.term), m, q.s, reply);
    assert q.out[0] == Packet(j, i, reply);
  }

  lemma Working(n: nat, c: Cluster, h: History, v: nat)
    requires Good(n, c, h) == Holds && v < n
    ensures |c.nodes| == n && v !in c.down && c.nodes[v].id == v && |c.nodes[v].peers| == n && ServerOk(c.nodes[v])
  {
    assert Unfold(0);
    assert NodeInv(n, c.sent, h, v, c.nodes[v]);
  }

  lemma DeliveredTo(n: nat, c: Cluster, h: History, i: nat, j: nat, m: Msg)
    requires Good(n, c, h) == Holds && Offered(n, c, i, j) && m == AppendFor(c.nodes[i], j)
    requires OfferFacts(n, c, h, i, j) && RecvAppend(c.nodes[j], i, m).Ok?
    ensures var q := RecvAppend(c.nodes[j], i, m);
            && |q.out| == 1 && q.out[0].src == j && q.out[0].dst == i && q.s.term == m.term
            && AppendDone(c.nodes[i].log, Adopt(c.nodes[j], m.term), m, q.s, q.out[0].msg)
            && Adopt(c.nodes[j], m.term).term == m.term
            && PreviousHeld(Adopt(c.nodes[j], m.term), m) == PreviousHeld(c.nodes[j], m)
  {
    assert Unfold(0);
    AppendExactly(n, c, h, j, i, m);
    AdoptFollows(n, c, h, j, i, m);
  }

  /** The leader as it was, but for the record of `j` and the commit index. */
  ghost predicate SameLeader(s: Server, s': Server, j: nat) {
    && s'.role == s.role == Leader && s'.term == s.term && s'.log == s.log && s'.id == s.id && s.commit <= s'.commit
    && |s'.peers| == |s.peers| && forall x: nat :: x < |s.peers| && x != j ==> s'.peers[x] == s.peers[x]
  }

  /** The leader learns that the follower holds its whole log. */
  lemma Accepted(n: nat, c: Cluster, h: History, i: nat, j: nat, reply: Msg) returns (c': Cluster, h': History)
    requires Good(n, c, h) == Holds && Pair(n, c, i, j) && Packet(j, i, reply) in c.sent
    requires reply.AppendReply? && reply.term == c.nodes[i].term && reply.success && reply.currentIdx == |c.nodes[i].log|
    ensures Path(c, h, [Event(i, FromPeer(j, reply))], c', h') == Holds && Good(n, c', h') == Holds
    ensures |c'.nodes| == n && c'.nodes == c.nodes[i := c'.nodes[i]] && c.sent <= c'.sent
    ensures SameLeader(c.nodes[i], c'.nodes[i], j) && c'.nodes[i].peers[j].matchIdx == |c.nodes[i].log|
  {
    var s := c.nodes[i];
    Working(n, c, h, i);
    c', h' := GoodStep(n, c, h, Event(i, FromPeer(j, reply)));
    if reply.currentIdx == 0 || s.peers[j].matchIdx < reply.currentIdx {
      AcknowledgedExactly(s, j, reply);
    } else {
      KnownIsHeld(n, c, h, i, j);
    }
  }

  /** The leader learns that it must go back, and offers more. */
  lemma Refused(n: nat, c: Cluster, h: History, i: nat, j: nat, reply: Msg) returns (c': Cluster, h': History)
    requires Good(n, c, h) == Holds && Pair(n, c, i, j) && Packet(j, i, reply) in c.sent
    requires reply.AppendReply? && reply.term == c.nodes[i].term && !reply.success && 0 <= reply.currentIdx
    requires c.nodes[i].peers[j].matchIdx <= 0 && 1 < c.nodes[i].peers[j].next
    ensures Path(c, h, [Event(i, FromPeer(j, reply))], c', h') == Holds && Good(n, c', h') == Holds
    ensures |c'.nodes| == n && c'.nodes == c.nodes[i := c'.nodes[i]] && c.sent <= c'.sent
    ensures SameLeader(c.nodes[i], c'.nodes[i], j) && c'.nodes[i].peers[j].next < c.nodes[i].peers[j].next
    ensures Offered(n, c', i, j)
  {
    Working(n, c, h, i);
    OfferIs(n, c, h, i, j);
    GoesBack(c.nodes[i], j, reply);
    c', h' := GoodStep(n, c, h, Event(i, FromPeer(j, reply)));
  }

  lemma GoesBack(s: Server, j: nat, reply: Msg)
    requires reply.AppendReply? && reply.term == s.term && !reply.success && 0 <= reply.currentIdx
    requires s.role == Leader && j < |s.peers| && s.peers[j].matchIdx <= 0 && 1 < s.peers[j].next <= |s.log| + 1
    ensures var r := RecvAppendReply(s, j, reply);
            && r.Ok? && SameLeader(s, r.s, j) && r.s.peers[j].next < s.peers[j].next
            && Packet(s.id, j, AppendFor(r.s, j)) in r.out
  {
    RejectedExactly(s, j, reply);
  }

  // ---- catching up ----

  /** An append from `i` reaches `j`, or a reply to one from `j` reaches `i`. */
  ghost predicate Exchange(i: nat, j: nat, e: Event) {
    && e.input.FromPeer?
    && ((e.node == j && e.input.src == i && e.input.msg.Append?) || (e.node == i && e.input.src == j && e.input.msg.AppendReply?))
  }

  /** The follower agrees with the whole log of the leader, has committed what the leader had, and the
      leader knows; no other server was involved. */
  ghost predicate CaughtUp(c: Cluster, c': Cluster, i: nat, j: nat)
    requires i < |c.nodes| && j < |c.nodes|
  {
    && |c'.nodes| == |c.nodes| && (forall x: nat :: x < |c.nodes| && x != i && x != j ==> c'.nodes[x] == c.nodes[x])
    && SameLeader(c.nodes[i], c'.nodes[i], j) && j < |c'.nodes[i].peers| && c'.nodes[i].peers[j].matchIdx == |c.nodes[i].log|
    && c'.nodes[j].term == c.nodes[i].term && Has(c'.nodes[j].log, c.nodes[i].log, |c.nodes[i].log|)
    && c.nodes[i].commit <= c'.nodes[j].commit
  }

  /** An append to the follower and its reply. */
  ghost function Round(i: nat, j: nat, m: Msg, reply: Msg): (events: seq<Event>)
  {
    [Event(j, FromPeer(i, m))] + [Event(i, FromPeer(j, reply))]
  }

  lemma {:induction false} Exchanges(n: nat, c: Cluster, h: History, i: nat, j: nat)
    returns (more: seq<Event>, c': Cluster, h': History)
    requires Good(n, c, h) == Holds && Offered(n, c, i, j)
    ensures Path(c, h, more, c', h') == Holds && Good(n, c', h') == Holds && CaughtUp(c, c', i, j)
    ensures |more| <= 2 * c.nodes[i].peers[j].next && forall e :: e in more ==> Exchange(i, j, e)
    decreases c.nodes[i].peers[j].next
  {
    var m := AppendFor(c.nodes[i], j);
    var c1, h1, reply := Delivered(n, c, h, i, j);
    if reply.success {
      c', h' := Accepted(n, c1, h1, i, j, reply);
      more := Round(i, j, m, reply);
      PathMore(c, h, [Event(j, FromPeer(i, m))], c1, h1, [Event(i, FromPeer(j, reply))], c', h');
    } else {
      RefusedWhen(n, c, h, i, j);
      var c2, h2 := Refused(n, c1, h1, i, j, reply);
      PathMore(c, h, [Event(j, FromPeer(i, m))], c1, h1, [Event(i, FromPeer(j, reply))], c2, h2);
      var rest;
      rest, c', h' := Exchanges(n, c2, h2, i, j);
      more := Round(i, j, m, reply) + rest;
      PathMore(c, h, Round(i, j, m, reply), c2, h2, rest, c', h');
    }
  }

  /** The leader's timer runs out and it sends to everyone. */
  lemma Heartbeats(n: nat, c: Cluster, h: History, i: nat, j: nat) returns (c': Cluster, h': History)
    requires Good(n, c, h) == Holds && Pair(n, c, i, j)
    ensures Path(c, h, [Event(i, Periodic(true))], c', h') == Holds && Good(n, c', h') == Holds
    ensures |c'.nodes| == n && c'.nodes == c.nodes[i := c'.nodes[i]] && Offered(n, c', i, j)
    ensures SameLeader(c.nodes[i], c'.nodes[i], j) && c'.nodes[i].peers == c.nodes[i].peers
  {
    Working(n, c, h, i);
    LeaderTimeout(c.nodes[i], j);
    c', h' := GoodStep(n, c, h, Event(i, Periodic(true)));
  }

  lemma LeaderTimeout(s: Server, j: nat)
    requires ServerOk(s) && s.role == Leader && j < |s.peers| && j != s.id
    ensures var r := RunPeriodic(s, true);
            && r.s == s.(lastApplied := r.s.lastApplied, trace := r.s.trace)
            && Packet(s.id, j, AppendFor(r.s, j)) in r.out
  {
    TimeoutExactly(s, j);
    ApplyEntryOk(s);
    assert AppendFor(RunPeriodic(s, true).s, j) == AppendFor(s, j);
  }

  /** The timeout and the exchanges after it. */
  ghost predicate Dialogue(i: nat, j: nat, more: seq<Event>) {
    && 0 < |more| && more[0] == Event(i, Periodic(true))
    && forall e :: e in more[1..] ==> Exchange(i, j, e)
  }

  lemma CatchUp(n: nat, c: Cluster, h: History, i: nat, j: nat) returns (more: seq<Event>, c': Cluster, h': History)
    requires Good(n, c, h) == Holds && Pair(n, c, i, j)
    ensures Path(c, h, more, c', h') == Holds && Good(n, c', h') == Holds && CaughtUp(c, c', i, j)
    ensures Dialogue(i, j, more) && |more| <= 2 * |c.nodes[i].log| + 3
  {
    OfferIs(n, c, h, i, j);
    var c1, h1 := Heartbeats(n, c, h, i, j);
    var rest;
    rest, c', h' := Exchanges(n, c1, h1, i, j);
    more := [Event(i, Periodic(true))] + rest;
    assert more[1..] == rest;
    PathMore(c, h, [Event(i, Periodic(true))], c1, h1, rest, c', h');
  }

  lemma GoodRun(n: nat, events: seq<Event>)
    requires NoCuts(n, events)
    ensures Good(n, Run(n, events), RunHistory(n, events)) == Holds
  {
    SafeRuns(n, events);
    RunPaced(n, events);
  }

  /** In every run without cuts, a follower whose term is no later than a leader's is brought to agree
      with the whole log of the leader by the leader's timeout and at most one exchange more than there are
      entries, whatever it held before.  No cut is among them. */
  lemma FollowerCatchesUp(n: nat, events: seq<Event>, i: nat, j: nat) returns (more: seq<Event>)
    requires NoCuts(n, events) && i < |Run(n, events).nodes| && j < |Run(n, events).nodes| && i != j
    requires Run(n, events).nodes[i].role == Leader && Run(n, events).nodes[j].term <= Run(n, events).nodes[i].term
    ensures Dialogue(i, j, more) && |more| <= 2 * |Run(n, events).nodes[i].log| + 3
    ensures NoCuts(n, events + more) && CaughtUp(Run(n, events), Run(n, events + more), i, j)
  {
    GoodRun(n, events);
    RunInv(n, events);
    var c, h := Run(n, events), RunHistory(n, events);
    Working(n, c, h, i);
    var c', h';
    more, c', h' := CatchUp(n, c, h, i, j);
    PathRun(n, events, more, c', h');
  }

  // ---- bringing up a majority ----

  /** Servers other than the leader, each once, that have not passed its term. */
  ghost predicate Reachable(n: nat, c: Cluster, i: nat, vs: seq<nat>) {
    Distinct(vs) && i < n == |c.nodes| && forall v :: v in vs ==> Pair(n, c, i, v)
  }

  /** All of `vs` have caught up with the leader. */
  ghost predicate AllCaughtUp(c: Cluster, c': Cluster, i: nat, vs: seq<nat>)
    requires i < |c.nodes|
  {
    && |c'.nodes| == |c.nodes| && (forall x: nat :: x < |c.nodes| && x != i && x !in vs ==> c'.nodes[x] == c.nodes[x])
    && (forall v :: v in vs ==> Caught(c, c', i, v))
    && SameOffice(c, c', i) && forall x: nat :: x < |c.nodes[i].peers| && x !in vs ==> c'.nodes[i].peers[x] == c.nodes[i].peers[x]
  }

  ghost predicate SameOffice(c: Cluster, c': Cluster, i: nat)
    requires i < |c.nodes|
  {
    && i < |c'.nodes|
    && var s, s' := c.nodes[i], c'.nodes[i];
    && s'.role == s.role == Leader && s'.term == s.term && s'.log == s.log && s'.id == s.id && s.commit <= s'.commit
    && |s'.peers| == |s.peers|
  }

  ghost predicate Caught(c: Cluster, c': Cluster, i: nat, v: nat)
    requires i < |c.nodes|
  {
    && i < |c'.nodes| && v < |c'.nodes| && v < |c'.nodes[i].peers|
    && var s, f := c.nodes[i], c'.nodes[v];
    && c'.nodes[i].peers[v].matchIdx == |s.log|
    && f.term == s.term && Has(f.log, s.log, |s.log|) && s.commit <= f.commit
  }

  /** Events of a leader that brings others up: its own timeouts, and messages between it and them. */
  ghost predicate Routine(i: nat, e: Event) {
    e.input == ApplyCommitted || e == Event(i, Periodic(true)) || exists j :: Exchange(i, j, e)
  }

  ghost predicate AllRoutine(i: nat, more: seq<Event>) {
    forall e :: e in more ==> Routine(i, e)
  }

  lemma DialogueIsRoutine(i: nat, j: nat, more: seq<Event>)
    requires Dialogue(i, j, more)
    ensures AllRoutine(i, more)
  {
    assert more == [more[0]] + more[1..];
    forall e | e in more
      ensures Routine(i, e)
    {
      assert e == more[0] || e in more[1..];
    }
  }

  lemma RestReachable(n: nat, c: Cluster, c1: Cluster, i: nat, vs: seq<nat>)
    requires Reachable(n, c, i, vs) && vs != [] && vs[0] < |c.nodes| && CaughtUp(c, c1, i, vs[0])
    ensures Reachable(n, c1, i, vs[1..]) && vs[0] !in vs[1..]
  {
    forall v | v in vs[1..]
      ensures v != vs[0] && Pair(n, c1, i, v)
    {
      var k :| 0 <= k < |vs[1..]| && vs[1..][k] == v;
      assert vs[k + 1] == v;
      assert v in vs;
    }
  }

  lemma CaughtThenRest(c: Cluster, c1: Cluster, c': Cluster, i: nat, vs: seq<nat>)
    requires i < |c.nodes| && vs != [] && vs[0] < |c.nodes| && vs[0] != i && vs[0] !in vs[1..]
    requires i !in vs
    requires CaughtUp(c, c1, i, vs[0]) && AllCaughtUp(c1, c', i, vs[1..])
    ensures AllCaughtUp(c, c', i, vs)
  {
    assert vs == [vs[0]] + vs[1..];
    forall v | v in vs
      ensures Caught(c, c', i, v)
    {
      if v != vs[0] {
        assert v in vs[1..];
        assert Caught(c1, c', i, v);
      }
    }
  }

  lemma {:induction false} BringUp(n: nat, c: Cluster, h: History, i: nat, vs: seq<nat>)
    returns (more: seq<Event>, c': Cluster, h': History)
    requires Good(n, c, h) == Holds && Reachable(n, c, i, vs) && c.nodes[i].role == Leader
    ensures Path(c, h, more, c', h') == Holds && Good(n, c', h') == Holds
    ensures AllCaughtUp(c, c', i, vs) && AllRoutine(i, more)
    decreases |vs|
  {
    if vs == [] {
      more, c', h' := [], c, h;
      PathNone(c, h);
    } else {
      var v := vs[0];
      assert Pair(n, c, i, v) by { assert v in vs; }
      var first, c1, h1 := CatchUp(n, c, h, i, v);
      DialogueIsRoutine(i, v, first);
      RestReachable(n, c, c1, i, vs);
      var rest;
      rest, c', h' := BringUp(n, c1, h1, i, vs[1..]);
      more := first + rest;
      PathMore(c, h, first, c1, h1, rest, c', h');
      LeaderOutside(n, c, i, vs);
      CaughtThenRest(c, c1, c', i, vs);
    }
  }

  lemma LeaderOutside(n: nat, c: Cluster, i: nat, vs: seq<nat>)
    requires Reachable(n, c, i, vs)
    ensures i !in vs
  {
    assert i in vs ==> Pair(n, c, i, i);
  }

  // ---- committing and applying ----

  /** A leader that knows a majority to hold its last entry, of its own term, has committed it. */
  lemma KnownIsCommitted(n: nat, c: Cluster, h: History, i: nat, vs: seq<nat>)
    requires Good(n, c, h) == Holds && i < n == |c.nodes| && c.nodes[i].role == Leader
    requires c.nodes[i].log != [] && LastTerm(c.nodes[i].log) == c.nodes[i].term
    requires Distinct(vs) && i !in vs && n < 2 * (|vs| + 1) && |c.nodes[i].peers| == n
    requires forall v :: v in vs ==> v < n && c.nodes[i].peers[v].matchIdx == |c.nodes[i].log|
    ensures c.nodes[i].commit == |c.nodes[i].log|
  {
    Working(n, c, h, i);
    var s := c.nodes[i];
    assert Members(vs) <= Holders(s, |s.log|);
    LargerMajority(n, i, vs, Holders(s, |s.log|));
    assert NodePace(s) by { assert Unfold(0); }
  }

  /** A majority that is brought up to the leader's last entry, of its own term, makes it commit. */
  lemma BringUpCommits(n: nat, c: Cluster, h: History, i: nat, vs: seq<nat>)
    returns (more: seq<Event>, c': Cluster, h': History)
    requires Good(n, c, h) == Holds && Reachable(n, c, i, vs) && n < 2 * (|vs| + 1) && c.nodes[i].role == Leader
    requires c.nodes[i].log != [] && LastTerm(c.nodes[i].log) == c.nodes[i].term
    ensures Path(c, h, more, c', h') == Holds && Good(n, c', h') == Holds
    ensures AllCaughtUp(c, c', i, vs) && AllRoutine(i, more) && c'.nodes[i].commit == |c.nodes[i].log|
  {
    more, c', h' := BringUp(n, c, h, i, vs);
    Working(n, c, h, i);
    LeaderOutside(n, c, i, vs);
    forall v | v in vs
      ensures v < n && c'.nodes[i].peers[v].matchIdx == |c'.nodes[i].log|
    {
      assert Caught(c, c', i, v);
    }
    KnownIsCommitted(n, c', h', i, vs);
  }

  lemma StillReachable(n: nat, c: Cluster, c': Cluster, i: nat, vs: seq<nat>)
    requires Reachable(n, c, i, vs) && AllCaughtUp(c, c', i, vs)
    ensures Reachable(n, c', i, vs)
  {
    forall v | v in vs
      ensures Pair(n, c', i, v)
    {
      assert Pair(n, c, i, v) && Caught(c, c', i, v);
    }
  }

  /** Server `x` has all of `log`, committed. */
  ghost predicate Ready(c: Cluster, x: nat, log: Log) {
    x < |c.nodes| && Has(c.nodes[x].log, log, |log|) && |log| <= c.nodes[x].commit
  }

  ghost predicate Applied(c: Cluster, x: nat, log: Log) {
    x < |c.nodes| && log <= c.nodes[x].trace
  }

  lemma ApplyOne(n: nat, c: Cluster, h: History, x: nat, log: Log) returns (c': Cluster, h': History)
    requires Good(n, c, h) == Holds && Ready(c, x, log) && |c.nodes| == n
    ensures Path(c, h, [Event(x, ApplyCommitted)], c', h') == Holds && Good(n, c', h') == Holds
    ensures |c'.nodes| == n && c'.nodes == c.nodes[x := c'.nodes[x]] && Applied(c', x, log)
  {
    Working(n, c, h, x);
    var s := c.nodes[x];
    c', h' := GoodStep(n, c, h, Event(x, ApplyCommitted));
    ApplyAllOk(s);
    assert s.log[..s.commit] == s.trace + s.log[s.lastApplied..s.commit];
    assert s.log[..|log|] == log;
  }

  /** Each of the servers in turn applies what it has committed. */
  lemma {:induction false} ApplyEach(n: nat, c: Cluster, h: History, i: nat, vs: seq<nat>, log: Log)
    returns (more: seq<Event>, c': Cluster, h': History)
    requires Good(n, c, h) == Holds && |c.nodes| == n && Distinct(vs) && forall v :: v in vs ==> Ready(c, v, log)
    ensures Path(c, h, more, c', h') == Holds && Good(n, c', h') == Holds && AllRoutine(i, more) && |c'.nodes| == n
    ensures forall v :: v in vs ==> Applied(c', v, log)
    ensures forall x: nat :: x < n && x !in vs ==> c'.nodes[x] == c.nodes[x]
    decreases |vs|
  {
    if vs == [] {
      more, c', h' := [], c, h;
      PathNone(c, h);
    } else {
      assert vs[0] in vs;
      var c1, h1 := ApplyOne(n, c, h, vs[0], log);
      assert vs == [vs[0]] + vs[1..];
      assert forall k :: 0 <= k < |vs[1..]| ==> vs[1..][k] == vs[k + 1];
      assert vs[0] !in vs[1..];
      assert forall v :: v in vs[1..] ==> v in vs;
      var rest;
      rest, c', h' := ApplyEach(n, c1, h1, i, vs[1..], log);
      more := [Event(vs[0], ApplyCommitted)] + rest;
      PathMore(c, h, [Event(vs[0], ApplyCommitted)], c1, h1, rest, c', h');
      assert c'.nodes[vs[0]] == c1.nodes[vs[0]];
    }
  }

  /** The leader takes the entry. */
  lemma Proposed(n: nat, c: Cluster, h: History, i: nat, vs: seq<nat>, entryId: nat, data: int)
    returns (c': Cluster, h': History)
    requires Good(n, c, h) == Holds && Reachable(n, c, i, vs) && c.nodes[i].role == Leader && entryId != 0 && 1 < n
    ensures Path(c, h, [Event(i, ClientEntry(entryId, data))], c', h') == Holds && Good(n, c', h') == Holds
    ensures Reachable(n, c', i, vs) && c'.nodes[i].role == Leader && c'.nodes[i].term == c.nodes[i].term
    ensures c'.nodes[i].log == c.nodes[i].log + [Entry(c.nodes[i].term, entryId, data)]
  {
    Working(n, c, h, i);
    c', h' := GoodStep(n, c, h, Event(i, ClientEntry(entryId, data)));
    LeaderOutside(n, c, i, vs);
    forall v | v in vs
      ensures Pair(n, c', i, v)
    {
      assert Pair(n, c, i, v);
    }
  }

  /** The leader brings a majority up twice: first to hold its log, then to commit it; then all apply it. */
  lemma AllApply(n: nat, c: Cluster, h: History, i: nat, vs: seq<nat>)
    returns (more: seq<Event>, c': Cluster, h': History)
    requires Good(n, c, h) == Holds && Reachable(n, c, i, vs) && n < 2 * (|vs| + 1) && c.nodes[i].role == Leader
    requires c.nodes[i].log != [] && LastTerm(c.nodes[i].log) == c.nodes[i].term
    ensures Path(c, h, more, c', h') == Holds && AllRoutine(i, more)
    ensures Applied(c', i, c.nodes[i].log) && forall v :: v in vs ==> Applied(c', v, c.nodes[i].log)
  {
    var log := c.nodes[i].log;
    var a, c1, h1 := BringUpCommits(n, c, h, i, vs);
    StillReachable(n, c, c1, i, vs);
    var b, c2, h2 := BringUp(n, c1, h1, i, vs);
    PathMore(c, h, a, c1, h1, b, c2, h2);
    LeaderOutside(n, c, i, vs);
    AllReady(n, c1, c2, h2, i, vs);
    var d;
    d, c', h' := ApplyEach(n, c2, h2, i, [i] + vs, log);
    more := a + b + d;
    PathMore(c, h, a + b, c2, h2, d, c', h');
    assert i in [i] + vs && forall v :: v in vs ==> v in [i] + vs;
  }

  lemma AllReady(n: nat, c: Cluster, c': Cluster, h': History, i: nat, vs: seq<nat>)
    requires i < n == |c.nodes| && AllCaughtUp(c, c', i, vs) && c.nodes[i].commit == |c.nodes[i].log| && i !in vs && Distinct(vs)
    ensures forall v :: v in [i] + vs ==> Ready(c', v, c.nodes[i].log)
    ensures Distinct([i] + vs)
  {
    forall v | v in [i] + vs
      ensures Ready(c', v, c.nodes[i].log)
    {
      if v != i {
        assert v in vs;
        assert Caught(c, c', i, v);
      }
    }
  }

  /** In every run without cuts, an entry taken by a leader that with some others is a majority, none of
      which has passed its term, is brought by routine events to be applied by all of them, at the same place and
      after the same entries.  No cut is among the events. */
  lemma EntryIsApplied(n: nat, events: seq<Event>, i: nat, vs: seq<nat>, entryId: nat, data: int)
    returns (more: seq<Event>)
    requires NoCuts(n, events) && i < |Run(n, events).nodes| && Run(n, events).nodes[i].role == Leader && entryId != 0
    requires Distinct(vs) && n < 2 * (|vs| + 1)
    requires forall v :: v in vs ==>
               v < |Run(n, events).nodes| && v != i && Run(n, events).nodes[v].term <= Run(n, events).nodes[i].term
    ensures NoCuts(n, events + ([Event(i, ClientEntry(entryId, data))] + more)) && AllRoutine(i, more)
    ensures var s := Run(n, events).nodes[i];
            var c' := Run(n, events + ([Event(i, ClientEntry(entryId, data))] + more));
            var log := s.log + [Entry(s.term, entryId, data)];
            Applied(c', i, log) && forall v :: v in vs ==> Applied(c', v, log)
  {
    GoodRun(n, events);
    RunInv(n, events);
    var c, h := Run(n, events), RunHistory(n, events);
    var c', h';
    more, c', h' := EntryFrom(n, c, h, i, vs, entryId, data);
    PathRun(n, events, [Event(i, ClientEntry(entryId, data))] + more, c', h');
  }

  /** A cluster in which some server's log is no older than those of others that with it are a majority, and
      that can all still vote in its next term, can always go on: after the timeout of that server and the
      exchange of votes, an entry handed to it is brought to be applied by all of them. */
  lemma ClusterGoesOn(n: nat, events: seq<Event>, i: nat, vs: seq<nat>, entryId: nat, data: int)
    returns (election: seq<Event>, more: seq<Event>)
    requires NoCuts(n, events) && Electorate(Run(n, events), n, i, vs) && 1 < n < 2 * (|vs| + 1) && entryId != 0
    requires Run(n, events).nodes[i].role != Leader
    ensures |Run(n, events).nodes| == n
    ensures election == [Event(i, Periodic(true))] + Canvass(i, RequestOf(Run(n, events).nodes[i]), vs)
    ensures AllRoutine(i, more)
    ensures var all := events + election + ([Event(i, ClientEntry(entryId, data))] + more);
            var log := Run(n, events).nodes[i].log + [Entry(Run(n, events).nodes[i].term + 1, entryId, data)];
            NoCuts(n, all) && Applied(Run(n, all), i, log) && forall v :: v in vs ==> Applied(Run(n, all), v, log)
  {
    NoServerHalts(n, events);
    election := [Event(i, Periodic(true))] + Canvass(i, RequestOf(Run(n, events).nodes[i]), vs);
    ElectionSucceeds(n, events, i, vs);
    more := EntryIsApplied(n, events + election, i, vs, entryId, data);
  }

  lemma EntryFrom(n: nat, c: Cluster, h: History, i: nat, vs: seq<nat>, entryId: nat, data: int)
    returns (more: seq<Event>, c': Cluster, h': History)
    requires Good(n, c, h) == Holds && i < n == |c.nodes| && c.nodes[i].role == Leader && entryId != 0
    requires Distinct(vs) && n < 2 * (|vs| + 1)
    requires forall v :: v in vs ==> v < n && v != i && c.nodes[v].term <= c.nodes[i].term
    ensures Path(c, h, [Event(i, ClientEntry(entryId, data))] + more, c', h') == Holds && AllRoutine(i, more)
    ensures var log := c.nodes[i].log + [Entry(c.nodes[i].term, entryId, data)];
            Applied(c', i, log) && forall v :: v in vs ==> Applied(c', v, log)
  {
    Working(n, c, h, i);
    LeadersNeedOthers(n, c, h, i);
    var c1, h1 := Proposed(n, c, h, i, vs, entryId, data);
    more, c', h' := AllApply(n, c1, h1, i, vs);
    PathMore(c, h, [Event(i, ClientEntry(entryId, data))], c1, h1, more, c', h');
  }

  lemma LeadersNeedOthers(n: nat, c: Cluster, h: History, i: nat)
    requires Good(n, c, h) == Holds && i < n == |c.nodes| && c.nodes[i].role == Leader
    ensures 1 < n
  {
    assert Unfold(0);
    assert NodeInv(n, c.sent, h, i, c.nodes[i]);
  }
}
