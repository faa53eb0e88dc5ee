/**
 Three more invariants of every run on any network, on which progress rests: a leader that knows what a
 peer holds never sends from beyond it; a leader whose last entry a majority is known to hold has committed
 it; and a follower that acknowledged anything in its present term holds the log its leader was elected with.
 */
module RaftPace {
  import opened Basics
  import opened RaftTypes
  import opened RaftOps
  import opened RaftNode
  import opened RaftCluster
  import opened RaftReplication
  import opened RaftSafety
  import opened RaftCommit
  import opened RaftCompleteness
  import opened RaftEffects

  /** The next index of a peer is at most one more than a known match. */
  ghost predicate PeersPaced(s: Server) {
    s.role == Leader ==>
      forall j: nat :: j < |s.peers| && j != s.id && 0 < s.peers[j].matchIdx ==> s.peers[j].next <= s.peers[j].matchIdx + 1
  }

  /** A last entry that a majority is known to hold is committed. */
  ghost predicate EndCommitted(s: Server) {
    s.role == Leader && MajorityOf(|s.peers|, s.id, Holders(s, |s.log|)) ==> |s.log| <= s.commit
  }

  ghost predicate NodePace(s: Server) {
    PeersPaced(s) && EndCommitted(s)
  }

  /** A follower that acknowledged something in its present term holds the leader's first log. */
  ghost predicate BaseHeld(sent: set<Packet>, h: History, v: nat, s: Server) {
    s.term in h.reigns && RepliedUpTo(sent, v, s.term, 0) ==>
      Has(s.log, h.reigns[s.term].log, |h.reigns[s.term].base|)
  }

  ghost predicate Paced(c: Cluster, h: History) {
    forall v: nat :: v < |c.nodes| ==> NodePace(c.nodes[v]) && BaseHeld(c.sent, h, v, c.nodes[v])
  }

  // ---- the leader's records ----

  /** Where only the leader is known to hold the last entry there is no majority. */
  lemma AloneIsNoMajority(s: Server)
    requires 1 < |s.peers| && forall j: nat :: j < |s.peers| && j != s.id ==> s.peers[j].matchIdx < Max(1, |s.log|)
    ensures EndCommitted(s)
  {
    assert Holders(s, |s.log|) == {s.id};
  }

  lemma ReplyPace(s: Server, src: nat, m: Msg)
    requires m.AppendReply? && src < |s.peers| && s.id < |s.peers| && src != s.id && RecvAppendReply(s, src, m).Ok?
    requires NodePace(s) && (m.success ==> 0 <= m.currentIdx)
    requires s.role == Leader ==> s.peers[src].next <= |s.log| + 1
    ensures NodePace(RecvAppendReply(s, src, m).s)
  {
    if s.role == Leader && m.term == s.term && (m.currentIdx == 0 || s.peers[src].matchIdx < m.currentIdx) {
      if m.success {
        AcknowledgedPace(s, src, m);
      } else {
        RejectedPace(s, src, m);
      }
    }
  }

  lemma RejectedPace(s: Server, src: nat, m: Msg)
    requires m.AppendReply? && src < |s.peers| && s.role == Leader && m.term == s.term && !m.success && NodePace(s)
    requires m.currentIdx == 0 || s.peers[src].matchIdx < m.currentIdx
    requires s.peers[src].next <= |s.log| + 1
    ensures NodePace(RecvAppendReply(s, src, m).s)
  {
    RejectedExactly(s, src, m);
    var next := RecvAppendReply(s, src, m).s.peers[src].next;
    LowerPace(s, src, next);
  }

  lemma LowerPace(s: Server, src: nat, next: Index)
    requires src < |s.peers| && s.role == Leader && NodePace(s) && next <= s.peers[src].next
    ensures NodePace(s.(peers := s.peers[src := s.peers[src].(next := next)]))
  {
    var s' := s.(peers := s.peers[src := s.peers[src].(next := next)]);
    assert Holders(s', |s.log|) == Holders(s, |s.log|);
  }

  lemma AcknowledgedPace(s: Server, src: nat, m: Msg)
    requires m.AppendReply? && src < |s.peers| && s.id < |s.peers| && src != s.id && NodePace(s)
    requires s.role == Leader && m.term == s.term && m.success && RecvAppendReply(s, src, m).Ok?
    requires 0 <= m.currentIdx && (m.currentIdx == 0 || s.peers[src].matchIdx < m.currentIdx)
    ensures NodePace(RecvAppendReply(s, src, m).s)
  {
    AcknowledgedExactly(s, src, m);
    RecordedPace(s, src, m.currentIdx, RecvAppendReply(s, src, m).s);
  }

  lemma RecordedPace(s: Server, src: nat, idx: nat, s': Server)
    requires src < |s.peers| && s.id < |s.peers| && src != s.id && NodePace(s) && s.role == Leader
    requires idx <= |s.log| && s' == Recorded(s, src, idx).(commit := s'.commit)
    requires s'.commit == (if s.commit < idx && MajorityOf(|s.peers|, s.id, Holders(s', idx)) then idx else s.commit)
    ensures NodePace(s')
  {
    if idx < |s.log| {
      assert Holders(s', |s.log|) <= Holders(s, |s.log|);
      FewerIsNoMajority(|s.peers|, s.id, Holders(s', |s.log|), Holders(s, |s.log|));
    }
  }

  lemma FewerIsNoMajority(n: nat, i: nat, p: set<nat>, q: set<nat>)
    requires p <= q && (forall v :: v in q ==> v < n)
    ensures MajorityOf(n, i, p) ==> MajorityOf(n, i, q)
  {
    assert q == p + (q - p);
  }

  /** Nothing the leader records differs, or the server does not lead. */
  lemma SamePace(s: Server, s': Server)
    requires NodePace(s) && (s'.role == Leader ==> s' == s.(lastApplied := s'.lastApplied, trace := s'.trace))
    ensures NodePace(s')
  {
    if s'.role == Leader {
      assert Holders(s', |s.log|) == Holders(s, |s.log|);
    }
  }

  lemma OfficePace(s: Server, src: nat, m: Msg)
    requires m.VoteReply? && src < |s.peers| && 1 < |s.peers| && NodePace(s)
    ensures NodePace(RecvVoteReply(s, src, m).s)
  {
    var s' := RecvVoteReply(s, src, m).s;
    if s.role == Candidate && s'.role == Leader {
      AloneIsNoMajority(s');
    }
  }

  lemma EntryPace(n: nat, sent: set<Packet>, h: History, i: nat, s: Server, entryId: nat, data: int)
    requires NodeInv(n, sent, h, i, s) && NodePace(s)
    ensures NodePace(RecvEntry(s, entryId, data).s)
  {
    if s.role == Leader && entryId != 0 {
      AloneIsNoMajority(RecvEntry(s, entryId, data).s);
    }
  }

  lemma DeliveryPace(n: nat, c: Cluster, h: History, i: nat, src: nat, m: Msg)
    requires Inv(n, c, h) && Enabled(c, Event(i, FromPeer(src, m))) && NodePace(c.nodes[i])
    requires Handle(c.nodes[i], FromPeer(src, m)).Ok?
    ensures NodePace(Handle(c.nodes[i], FromPeer(src, m)).s)
  {
    var s := c.nodes[i];
    assert NodeInv(n, c.sent, h, i, s);
    assert PacketInv(n, c.nodes, h, Packet(src, i, m));
    if m.RequestVote? {
      SamePace(s, RecvRequestVote(s, src, m).s);
    } else if m.VoteReply? {
      OfficePace(s, src, m);
    } else if m.AppendReply? {
      ReplyPace(s, src, m);
    } else if s.term <= m.term {
      AppendEffect(n, c, h, i, src, m);
      AdoptFollows(n, c, h, i, src, m);
    }
  }

  lemma StepPace(n: nat, c: Cluster, h: History, e: Event)
    requires Inv(n, c, h) && Enabled(c, e) && Handle(c.nodes[e.node], e.input).Ok? && NodePace(c.nodes[e.node])
    ensures NodePace(Handle(c.nodes[e.node], e.input).s)
  {
    var s := c.nodes[e.node];
    assert NodeInv(n, c.sent, h, e.node, s);
    match e.input
    case FromPeer(src, m) => DeliveryPace(n, c, h, e.node, src, m);
    case ClientEntry(entryId, data) => EntryPace(n, c.sent, h, e.node, s, entryId, data);
    case Periodic(fired) => SamePace(s, RunPeriodic(s, fired).s);
    case ApplyCommitted =>
      ApplyAllOk(s);
      SamePace(s, ApplyAll(s));
  }

  // ---- what was acknowledged in the present term ----

  /** A server that did not move holds what it held. */
  lemma BaseHeldElsewhere(n: nat, c: Cluster, h: History, e: Event, v: nat)
    requires Inv(n, c, h) && Enabled(c, e) && Handle(c.nodes[e.node], e.input).Ok? && v < n && v != e.node
    requires BaseHeld(c.sent, h, v, c.nodes[v])
    ensures BaseHeld(Step(c, e).sent, TrackStep(c, h, e), v, c.nodes[v])
  {
    var c', h' := Step(c, e), TrackStep(c, h, e);
    var t := c.nodes[v].term;
    StepIsMove(n, c, h, e);
    if t in h'.reigns && RepliedUpTo(c'.sent, v, t, 0) {
      var p :| p in c'.sent && p.src == v && p.msg.AppendReply? && p.msg.success && p.msg.term == t && 0 <= p.msg.currentIdx;
      assert p in c.sent;
      assert PacketInv(n, c.nodes, h, p);
      assert RepliedUpTo(c.sent, v, t, 0) && ReignExtends(h.reigns[t], h'.reigns[t], e.node);
      HasOfLonger(c.nodes[v].log, h.reigns[t].log, h'.reigns[t].log, |h.reigns[t].base|);
    }
  }

  lemma HasOfLonger(log: Log, ref: Log, ref': Log, j: nat)
    requires Has(log, ref, j) && ref <= ref'
    ensures Has(log, ref', j)
  {
    assert ref'[..j] == ref[..j];
  }

  /** An accepted append of the present term brings the leader's first log, and a refused one keeps it. */
  lemma BaseHeldAppend(n: nat, c: Cluster, h: History, i: nat, src: nat, m: Msg)
    requires i < |c.nodes| == n && Inv(n, c, h) && m.Append? && Packet(src, i, m) in c.sent
    requires RecvAppend(c.nodes[i], src, m).Ok? && c.nodes[i].term <= m.term && BaseHeld(c.sent, h, i, c.nodes[i])
    ensures var r := RecvAppend(c.nodes[i], src, m);
            m.term in h.reigns && r.s.term == m.term && |r.out| == 1 && r.out[0].msg.AppendReply?
            && (r.out[0].msg.success || RepliedUpTo(c.sent, i, m.term, 0) ==>
                  Has(r.s.log, h.reigns[m.term].log, |h.reigns[m.term].base|))
  {
    AppendEffect(n, c, h, i, src, m);
    AdoptFollows(n, c, h, i, src, m);
    var q := RecvAppend(c.nodes[i], src, m);
    var base := |h.reigns[m.term].base|;
    assert base <= m.prevIdx + |m.entries| by {
      assert PacketInv(n, c.nodes, h, Packet(src, i, m));
    }
    if q.out[0].msg.success {
      AcceptedHas(h.reigns[m.term], Adopt(c.nodes[i], m.term), m, q.s, q.out[0].msg, base);
    } else if RepliedUpTo(c.sent, i, m.term, 0) {
      RepliedTerm(n, c, h, i, m.term);
      BaseHas(n, c, h, m.term);
      InheritedKept(n, c, h, i, src, m, m.term, base);
    }
  }

  lemma AcceptedHas(r: Reign, s: Server, m: Msg, s': Server, reply: Msg, j: nat)
    requires m.Append? && 0 <= m.prevIdx && AppendOutcome(r, s, m, s', reply) && reply.success && j <= m.prevIdx + |m.entries|
    ensures Has(s'.log, r.log, j)
  {
    HasShorter(s'.log, r.log, j, m.prevIdx + |m.entries|);
  }

  lemma BaseHas(n: nat, c: Cluster, h: History, t: nat)
    requires Inv(n, c, h) && t in h.reigns
    ensures Has(h.reigns[t].base, h.reigns[t].log, |h.reigns[t].base|)
  {
    assert ReignInv(n, c.nodes, c.sent, h, t);
  }

  lemma RepliedTerm(n: nat, c: Cluster, h: History, v: nat, t: nat)
    requires Inv(n, c, h) && v < n && RepliedUpTo(c.sent, v, t, 0)
    ensures t <= c.nodes[v].term && t in h.reigns
  {
    var p :| p in c.sent && p.src == v && p.msg.AppendReply? && p.msg.success && p.msg.term == t && 0 <= p.msg.currentIdx;
    assert PacketInv(n, c.nodes, h, p);
  }

  /** What was acknowledged after a step was acknowledged before, or in this step. */
  lemma RepliedBefore(sent: set<Packet>, out: seq<Packet>, v: nat, t: nat)
    requires RepliedUpTo(sent + (set p | p in out), v, t, 0)
    ensures RepliedUpTo(sent, v, t, 0) || exists p :: p in out && p.msg.AppendReply? && p.msg.success
  {
    var sent' := sent + (set p | p in out);
    var p :| p in sent' && p.src == v && p.msg.AppendReply? && p.msg.success && p.msg.term == t && 0 <= p.msg.currentIdx;
    assert p in sent || p in out;
  }

  lemma BaseHeldGrowing(n: nat, c: Cluster, h: History, e: Event)
    requires Inv(n, c, h) && Enabled(c, e) && Handle(c.nodes[e.node], e.input).Ok? && BaseHeld(c.sent, h, e.node, c.nodes[e.node])
    requires !(e.input.FromPeer? && e.input.msg.Append?)
    ensures BaseHeld(Step(c, e).sent, TrackStep(c, h, e), e.node, Handle(c.nodes[e.node], e.input).s)
  {
    var s, r, h' := c.nodes[e.node], Handle(c.nodes[e.node], e.input), TrackStep(c, h, e);
    var t := r.s.term;
    if t in h'.reigns && RepliedUpTo(Step(c, e).sent, e.node, t, 0) {
      RepliedBefore(c.sent, r.out, e.node, t);
      forall p | p in r.out
        ensures !p.msg.AppendReply?
      {
        OutKinds(s, e.input, p);
      }
      RepliedTerm(n, c, h, e.node, t);
      StepIsMove(n, c, h, e);
      LogGrows(s, e.input);
      assert ReignExtends(h.reigns[t], h'.reigns[t], e.node);
      HasLonger(s.log, r.s.log, h.reigns[t].log, |h.reigns[t].base|);
      HasOfLonger(r.s.log, h.reigns[t].log, h'.reigns[t].log, |h.reigns[t].base|);
    }
  }

  lemma BaseHeldFrom(sent: set<Packet>, h: History, v: nat, s: Server, p: Packet)
    requires p.msg.AppendReply?
    requires s.term in h.reigns && (p.msg.success || RepliedUpTo(sent, v, s.term, 0)) ==>
               Has(s.log, h.reigns[s.term].log, |h.reigns[s.term].base|)
    ensures BaseHeld(sent + (set q | q in [p]), h, v, s)
  {
    if RepliedUpTo(sent + (set q | q in [p]), v, s.term, 0) {
      RepliedBefore(sent, [p], v, s.term);
    }
  }

  lemma BaseHeldDelivered(n: nat, c: Cluster, h: History, i: nat, src: nat, m: Msg, s': Server, out: seq<Packet>)
    requires i < |c.nodes| == n && Inv(n, c, h) && m.Append? && Packet(src, i, m) in c.sent
    requires RecvAppend(c.nodes[i], src, m) == Ok(s', out) && BaseHeld(c.sent, h, i, c.nodes[i])
    ensures BaseHeld(c.sent + (set p | p in out), h, i, s')
  {
    if m.term < c.nodes[i].term {
      StaleAppend(c.nodes[i], src, m);
    } else {
      BaseHeldAppend(n, c, h, i, src, m);
    }
    BaseHeldFrom(c.sent, h, i, s', out[0]);
    assert out == [out[0]];
  }

  lemma BaseHeldAfter(n: nat, c: Cluster, h: History, e: Event)
    requires Inv(n, c, h) && Enabled(c, e) && Handle(c.nodes[e.node], e.input).Ok? && BaseHeld(c.sent, h, e.node, c.nodes[e.node])
    ensures BaseHeld(Step(c, e).sent, TrackStep(c, h, e), e.node, Handle(c.nodes[e.node], e.input).s)
  {
    if e.input.FromPeer? && e.input.msg.Append? {
      var r := Handle(c.nodes[e.node], e.input);
      AppendStep(n, c, h, e.node, e.input.src, e.input.msg);
      BaseHeldDelivered(n, c, h, e.node, e.input.src, e.input.msg, r.s, r.out);
    } else {
      BaseHeldGrowing(n, c, h, e);
    }
  }

  // ---- every run ----

  lemma StepKeepsPaced(n: nat, c: Cluster, h: History, e: Event)
    requires Inv(n, c, h) && Paced(c, h)
    ensures Paced(Step(c, e), TrackStep(c, h, e))
  {
    if Enabled(c, e) && Handle(c.nodes[e.node], e.input).Ok? {
      var c', h' := Step(c, e), TrackStep(c, h, e);
      forall v: nat | v < |c'.nodes|
        ensures NodePace(c'.nodes[v]) && BaseHeld(c'.sent, h', v, c'.nodes[v])
      {
        assert NodePace(c.nodes[v]) && BaseHeld(c.sent, h, v, c.nodes[v]);
        if v == e.node {
          StepPace(n, c, h, e);
          BaseHeldAfter(n, c, h, e);
        } else {
          BaseHeldElsewhere(n, c, h, e, v);
        }
      }
    }
  }

  /** The three invariants hold after every run on any network. */
  lemma {:induction false} RunPaced(n: nat, events: seq<Event>)
    ensures Paced(Run(n, events), RunHistory(n, events))
    decreases |events|
  {
    if events != [] {
      var before := events[..|events| - 1];
      RunPaced(n, before);
      RunInv(n, before);
      StepKeepsPaced(n, Run(n, before), RunHistory(n, before), events[|events| - 1]);
    }
  }
}
