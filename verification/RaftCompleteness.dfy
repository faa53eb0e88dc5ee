/**
 Every step that takes back no acknowledgement keeps the commitment invariants.  The vote check
 carries acknowledged entries into each new leader's log.
 */
module RaftCompleteness {
  import opened RaftTypes
  import opened RaftOps
  import opened RaftNode
  import opened RaftCluster
  import opened RaftFrame
  import opened RaftElection
  import opened RaftReplication
  import opened RaftSafety
  import opened RaftCommit
  import opened RaftCut

  // ---- what the messages of a step are ----

  lemma OutKinds(s: Server, i: Input, p: Packet)
    requires i.FromPeer? ==> i.src < |s.peers|
    requires Handle(s, i).Ok? && p in Handle(s, i).out && !(i.FromPeer? && i.msg.Append?)
    ensures !p.msg.AppendReply?
    ensures p.msg.VoteReply? && p.msg.granted ==> i.FromPeer? && i.msg.RequestVote?
  {
    match i
    case FromPeer(src, m) =>
      if m.VoteReply? {
        var s1 := s.(peers := s.peers[src := s.peers[src].(voted := true)]);
        if p in BecomeLeader(s1).out {
          SendWhereFacts(BecomeLeader(s1).s, 0, true, p);
        }
      }
    case ClientEntry(entryId, data) =>
      SendWhereFacts(if entryId == 0 then s else s.(log := s.log + [Entry(s.term, entryId, data)]), 0, false, p);
    case Periodic(fired) =>
      if s.role == Leader {
        SendWhereFacts(s, 0, true, p);
      } else {
        AskVotesFacts(BecomeCandidate(s).s, 0, p);
      }
    case ApplyCommitted =>
  }

  lemma StepReplies(n: nat, c: Cluster, h: History, e: Event)
    requires Inv(n, c, h) && Enabled(c, e) && Handle(c.nodes[e.node], e.input).Ok?
    ensures var r := Handle(c.nodes[e.node], e.input); RepliesTrue(Track(h, c.nodes[e.node], r.s), r.s, r.out)
  {
    var s := c.nodes[e.node];
    var r := Handle(s, e.input);
    if e.input.FromPeer? && e.input.msg.Append? {
      AppendReplies(n, c, h, e.node, e.input.src, e.input.msg);
    } else {
      forall p | p in r.out
        ensures !p.msg.AppendReply?
      {
        OutKinds(s, e.input, p);
      }
    }
  }

  lemma AppendReplies(n: nat, c: Cluster, h: History, i: nat, src: nat, m: Msg)
    requires i < |c.nodes| == n && Inv(n, c, h) && m.Append? && Packet(src, i, m) in c.sent
    requires RecvAppend(c.nodes[i], src, m).Ok?
    ensures var r := RecvAppend(c.nodes[i], src, m);
            Track(h, c.nodes[i], r.s) == h && RepliesTrue(h, r.s, r.out)
  {
    AppendStep(n, c, h, i, src, m);
    if c.nodes[i].term <= m.term {
      assert NodeInv(n, c.sent, h, i, c.nodes[i]);
      AdoptFollows(n, c, h, i, src, m);
      AppendEffect(n, c, h, i, src, m);
      var r := RecvAppend(c.nodes[i], src, m);
      OutcomeReplies(h, Adopt(c.nodes[i], m.term), m, r.s, r.out);
    }
  }

  lemma OutcomeReplies(h: History, s: Server, m: Msg, s': Server, out: seq<Packet>)
    requires m.Append? && 0 <= m.prevIdx && s.term == m.term && m.term in h.reigns
    requires |out| == 1 && out[0].src == s.id && AppendOutcome(h.reigns[m.term], s, m, s', out[0].msg)
    ensures RepliesTrue(h, s', out)
  {
  }

  lemma StepIsMove(n: nat, c: Cluster, h: History, e: Event)
    requires Inv(n, c, h) && Enabled(c, e) && Handle(c.nodes[e.node], e.input).Ok?
    ensures var r := Handle(c.nodes[e.node], e.input);
            && Move(n, c, h, e.node, r.s, r.out, TrackStep(c, h, e))
            && Step(c, e) == After(c, e.node, r.s, r.out)
            && Inv(n, Step(c, e), TrackStep(c, h, e))
  {
    StepKeepsTerm(n, c, h, e);
    StepExtends(n, c, h, e);
    StepReplies(n, c, h, e);
    StepKeepsInv(n, c, h, e);
  }

  // ---- logs keep what was acknowledged ----

  lemma AppendKeepsLog(n: nat, c: Cluster, h: History, i: nat, src: nat, m: Msg)
    requires i < |c.nodes| == n && Inv(n, c, h) && m.Append? && Packet(src, i, m) in c.sent
    requires RecvAppend(c.nodes[i], src, m).Ok? && !CutsAt(c.sent, i, c.nodes[i], m)
    ensures LogKept(c, h, i, RecvAppend(c.nodes[i], src, m).s)
  {
    var s' := RecvAppend(c.nodes[i], src, m).s;
    forall t: nat, j: nat | Acked(c.sent, h, i, t, j) && OwnTerm(h, t, j) && Has(c.nodes[i].log, h.reigns[t].log, j)
      ensures Kept(h, s'.log, t, j, s'.term)
    {
      if c.nodes[i].term <= m.term {
        AppendKeepsOne(n, c, h, i, src, m, t, j);
      }
    }
  }

  /** An acknowledged server has reached the term of the acknowledgement. */
  lemma AckedTerm(n: nat, c: Cluster, h: History, v: nat, t: nat, j: nat)
    requires Inv(n, c, h) && v < n && Acked(c.sent, h, v, t, j)
    ensures t <= c.nodes[v].term
  {
    assert ReignInv(n, c.nodes, c.sent, h, t);
    if v != h.reigns[t].leader {
      var p :| p in c.sent && p.src == v && p.msg.AppendReply? && p.msg.success
               && p.msg.term == t && j <= p.msg.currentIdx;
      assert PacketInv(n, c.nodes, h, p);
    }
  }

  lemma AppendKeepsOne(n: nat, c: Cluster, h: History, i: nat, src: nat, m: Msg, t: nat, j: nat)
    requires i < |c.nodes| == n && Inv(n, c, h) && m.Append? && Packet(src, i, m) in c.sent
    requires RecvAppend(c.nodes[i], src, m).Ok? && !CutsAt(c.sent, i, c.nodes[i], m) && c.nodes[i].term <= m.term
    requires Acked(c.sent, h, i, t, j) && OwnTerm(h, t, j) && Has(c.nodes[i].log, h.reigns[t].log, j)
    ensures Kept(h, RecvAppend(c.nodes[i], src, m).s.log, t, j, RecvAppend(c.nodes[i], src, m).s.term)
  {
    AckedTerm(n, c, h, i, t, j);
    AdoptFollows(n, c, h, i, src, m);
    AppendEffect(n, c, h, i, src, m);
    var w: nat := m.term;
    if t < w && Lacks(h, w, t, j) {
      assert Lost(h, t, j, w);
    } else if t < w {
      InheritedKept(n, c, h, i, src, m, t, j);
    } else {
      OwnKept(n, c, h, i, src, m, j);
    }
  }

  /** What the sender's log began with is no longer than any of its messages reaches. */
  lemma InheritedKept(n: nat, c: Cluster, h: History, i: nat, src: nat, m: Msg, t: nat, j: nat)
    requires i < |c.nodes| == n && Inv(n, c, h) && m.Append? && Packet(src, i, m) in c.sent
    requires RecvAppend(c.nodes[i], src, m).Ok? && c.nodes[i].term <= m.term
    requires t in h.reigns && m.term in h.reigns && Has(c.nodes[i].log, h.reigns[t].log, j)
    requires Has(h.reigns[m.term].base, h.reigns[t].log, j)
    ensures Has(RecvAppend(c.nodes[i], src, m).s.log, h.reigns[t].log, j)
  {
    var r, q := h.reigns[m.term], RecvAppend(c.nodes[i], src, m);
    assert PacketInv(n, c.nodes, h, Packet(src, i, m));
    assert ReignInv(n, c.nodes, c.sent, h, m.term);
    HasLonger(r.base, r.log, h.reigns[t].log, j);
    AppendEffect(n, c, h, i, src, m);
    OutcomeKeeps(r, Adopt(c.nodes[i], m.term), m, q.s, q.out[0].msg, h.reigns[t].log, j);
  }

  /** What was acknowledged to the sender itself is kept unless the message cuts it. */
  lemma OwnKept(n: nat, c: Cluster, h: History, i: nat, src: nat, m: Msg, j: nat)
    requires i < |c.nodes| == n && Inv(n, c, h) && m.Append? && Packet(src, i, m) in c.sent
    requires RecvAppend(c.nodes[i], src, m).Ok? && !CutsAt(c.sent, i, c.nodes[i], m) && c.nodes[i].term <= m.term
    requires m.term in h.reigns && Acked(c.sent, h, i, m.term, j) && Has(c.nodes[i].log, h.reigns[m.term].log, j)
    ensures Has(RecvAppend(c.nodes[i], src, m).s.log, h.reigns[m.term].log, j)
  {
    KeepsExactly(n, c, h, i, src, m, j);
    assert PacketInv(n, c.nodes, h, Packet(src, i, m));
    if m.prevIdx < j {
      RepliedLess(c.sent, i, m.term, m.prevIdx + 1, j);
    }
  }

  lemma RepliedLess(sent: set<Packet>, v: nat, t: nat, k: int, j: int)
    requires RepliedUpTo(sent, v, t, j) && k <= j
    ensures RepliedUpTo(sent, v, t, k)
  {
    var p :| p in sent && p.src == v && p.msg.AppendReply? && p.msg.success
             && p.msg.term == t && j <= p.msg.currentIdx;
  }

  lemma StepKeepsLog(n: nat, c: Cluster, h: History, e: Event)
    requires Inv(n, c, h) && Enabled(c, e) && Handle(c.nodes[e.node], e.input).Ok? && !CutsAcked(c, e)
    ensures LogKept(c, h, e.node, Handle(c.nodes[e.node], e.input).s)
  {
    var s := c.nodes[e.node];
    var s' := Handle(s, e.input).s;
    if e.input.FromPeer? && e.input.msg.Append? {
      AppendKeepsLog(n, c, h, e.node, e.input.src, e.input.msg);
    } else {
      assert NodeInv(n, c.sent, h, e.node, s);
      LogGrows(s, e.input);
      forall t: nat, j: nat | Acked(c.sent, h, e.node, t, j) && Has(s.log, h.reigns[t].log, j)
        ensures Kept(h, s'.log, t, j, s'.term)
      {
        HasLonger(s.log, s'.log, h.reigns[t].log, j);
      }
    }
  }

  // ---- votes carry acknowledged entries ----

  /** The up-to-date check: if the voter's log holds the first `j` entries of the leader of `t`, and
      the candidate's log passes the check, then the candidate holds them too, or some leader between
      `t` and the candidate's last term came without them. */
  lemma UpToDate(n: nat, c: Cluster, h: History, log: Log, cand: Log, t: nat, j: nat, u: int)
    requires Inv(n, c, h) && LogWf(h, log) && LogWf(h, cand) && TermsUpTo(cand, u - 1)
    requires OwnTerm(h, t, j) && Has(log, h.reigns[t].log, j)
    requires LastTerm(log) < LastTerm(cand) || (LastTerm(cand) == LastTerm(log) && |log| <= |cand|)
    ensures Kept(h, cand, t, j, u)
  {
    SortedFromReigns(n, c, h, log);
    assert log[..j][j - 1] == h.reigns[t].log[..j][j - 1];
    assert t <= LastTerm(log);
    var k := |cand| - 1;
    var t' := LastTerm(cand);
    assert Origin(h, cand, k);
    assert cand == h.reigns[t'].log[..k + 1];
    if t' == t {
      assert cand[..j] == h.reigns[t].log[..j];
    } else {
      LaterLeaderPrefix(n, c, h, cand, t, j, u);
    }
  }

  lemma LaterLeaderPrefix(n: nat, c: Cluster, h: History, cand: Log, t: nat, j: nat, u: int)
    requires Inv(n, c, h) && cand != [] && Origin(h, cand, |cand| - 1) && TermsUpTo(cand, u - 1)
    requires OwnTerm(h, t, j) && t < LastTerm(cand)
    ensures Kept(h, cand, t, j, u)
  {
    var t' := LastTerm(cand);
    var r := h.reigns[t'];
    assert ReignInv(n, c.nodes, c.sent, h, t');
    assert cand == r.log[..|cand|];
    assert r.log[|cand| - 1].term == t';
    assert r.base <= cand;
    if !Lacks(h, t', t, j) {
      HasLonger(r.base, cand, h.reigns[t].log, j);
    }
  }

  lemma StepGrants(n: nat, c: Cluster, h: History, e: Event)
    requires Inv(n, c, h) && CommitInv(n, c, h) && Enabled(c, e) && Handle(c.nodes[e.node], e.input).Ok?
    ensures var r := Handle(c.nodes[e.node], e.input); NewGrantsKeep(c.sent, h, r.s, r.out)
  {
    var s := c.nodes[e.node];
    var r := Handle(s, e.input);
    forall p, t: nat, j: nat | p in r.out && p.msg.VoteReply? && p.msg.granted && t < p.msg.term
      && Acked(c.sent, h, p.src, t, j) && OwnTerm(h, t, j)
      ensures NewGrantKeeps(h, r.s, p, t, j)
    {
      GrantKept(n, c, h, e, p, t, j);
    }
  }

  lemma GrantKept(n: nat, c: Cluster, h: History, e: Event, p: Packet, t: nat, j: nat)
    requires Inv(n, c, h) && CommitInv(n, c, h) && Enabled(c, e) && Handle(c.nodes[e.node], e.input).Ok?
    requires p in Handle(c.nodes[e.node], e.input).out && p.msg.VoteReply? && p.msg.granted
    requires Acked(c.sent, h, p.src, t, j) && OwnTerm(h, t, j)
    ensures NewGrantKeeps(h, Handle(c.nodes[e.node], e.input).s, p, t, j)
  {
    GrantSource(c.nodes[e.node], e.input, p);
    assert c.nodes[e.node].id == e.node by { assert NodeInv(n, c.sent, h, e.node, c.nodes[e.node]); }
    OneGrant(n, c, h, e.node, e.input.src, e.input.msg, t, j);
  }

  lemma GrantSource(s: Server, i: Input, p: Packet)
    requires (i.FromPeer? ==> i.src < |s.peers|) && Handle(s, i).Ok?
    requires p in Handle(s, i).out && p.msg.VoteReply? && p.msg.granted
    ensures i.FromPeer? && i.msg.RequestVote? && WouldGrant(s, i.msg)
    ensures p.src == s.id && p.dst == i.src && p.msg.term == i.msg.term == Handle(s, i).s.term
  {
    if i.FromPeer? && i.msg.Append? {
      AppendOutKind(s, i.src, i.msg, p);
    } else {
      OutKinds(s, i, p);
      GrantPacket(s, i.src, i.msg, p);
    }
  }

  lemma GrantPacket(s: Server, src: nat, m: Msg, p: Packet)
    requires m.RequestVote? && RecvRequestVote(s, src, m).Ok?
    requires p in RecvRequestVote(s, src, m).out && p.msg.VoteReply? && p.msg.granted
    ensures p.src == s.id && p.dst == src && p.msg.term == m.term == RecvRequestVote(s, src, m).s.term
    ensures WouldGrant(s, m)
  {
  }

  /** The vote request is granted, after the server has taken up the candidate's term. */
  ghost predicate WouldGrant(s: Server, m: Msg)
    requires m.RequestVote?
  {
    var s1 := if s.term < m.term then StepDown(s, m.term) else s;
    ShouldGrant(s1, m) && s1.term == m.term
  }

  lemma OneGrant(n: nat, c: Cluster, h: History, i: nat, src: nat, m: Msg, t: nat, j: nat)
    requires i < |c.nodes| == n && Inv(n, c, h) && CommitInv(n, c, h)
    requires m.RequestVote? && Packet(src, i, m) in c.sent
    requires WouldGrant(c.nodes[i], m)
    requires Acked(c.sent, h, i, t, j) && OwnTerm(h, t, j)
    ensures (m.term, src) in h.bids && Kept(h, h.bids[(m.term, src)], t, j, m.term)
  {
    var s := c.nodes[i];
    assert NodeInv(n, c.sent, h, i, s);
    assert PacketInv(n, c.nodes, h, Packet(src, i, m));
    assert BidInv(n, c.nodes, h, (m.term, src));
    assert Kept(h, s.log, t, j, s.term);
    if Has(s.log, h.reigns[t].log, j) {
      UpToDate(n, c, h, s.log, h.bids[(m.term, src)], t, j, m.term);
    } else {
      var w: nat :| t < w <= s.term && Lacks(h, w, t, j);
    }
  }

  // ---- new leaders ----

  /** A loss up to the term of a leader not yet in office happened before that term. */
  lemma LostBefore(h: History, log: Log, t: nat, j: nat, u: nat)
    requires Kept(h, log, t, j, u) && u !in h.reigns
    ensures Kept(h, log, t, j, u - 1)
  {
    if !Has(log, h.reigns[t].log, j) {
      var w: nat :| t < w <= u && Lacks(h, w, t, j);
    }
  }

  lemma StepReigns(n: nat, c: Cluster, h: History, e: Event)
    requires Inv(n, c, h) && CommitInv(n, c, h) && Enabled(c, e) && Handle(c.nodes[e.node], e.input).Ok?
    ensures NewReignPledged(c, h, TrackStep(c, h, e))
  {
    var s := c.nodes[e.node];
    var s' := Handle(s, e.input).s;
    if s'.role == Leader && s.role != Leader {
      TakesOffice(n, c, h, e);
      WinnerPledged(n, c, h, e);
    }
  }

  lemma WinnerPledged(n: nat, c: Cluster, h: History, e: Event)
    requires Inv(n, c, h) && CommitInv(n, c, h) && Enabled(c, e) && Handle(c.nodes[e.node], e.input).Ok?
    requires c.nodes[e.node].role != Leader && Handle(c.nodes[e.node], e.input).s.role == Leader
    requires Handle(c.nodes[e.node], e.input).s.term !in h.reigns
    ensures NewReignPledged(c, h, TrackStep(c, h, e))
  {
    var s := c.nodes[e.node];
    var s' := Handle(s, e.input).s;
    var h' := TrackStep(c, h, e);
    var u := s'.term;
    WinnerWasCandidate(n, c, h, e);
    forall v: nat, t: nat, j: nat | v in h'.reigns[u].quorum && t < u && Acked(c.sent, h, v, t, j) && OwnTerm(h, t, j)
      ensures Kept(h, s'.log, t, j, u - 1)
    {
      if v == e.node {
        assert Kept(h, s.log, t, j, s.term);
      } else {
        var p := Packet(v, e.node, VoteReply(u, true));
        assert p in c.sent && p.src == v && p.msg.granted && p.msg.term == u;
        assert GrantKeeps(h, p, t, j);
      }
      LostBefore(h, s'.log, t, j, u);
    }
  }

  lemma WinnerWasCandidate(n: nat, c: Cluster, h: History, e: Event)
    requires Inv(n, c, h) && Enabled(c, e) && Handle(c.nodes[e.node], e.input).Ok?
    requires c.nodes[e.node].role != Leader && Handle(c.nodes[e.node], e.input).s.role == Leader
    ensures var s, s' := c.nodes[e.node], Handle(c.nodes[e.node], e.input).s;
            && s'.id == e.node && s'.log == s.log && s'.term == s.term
            && (s.term, e.node) in h.bids && h.bids[(s.term, e.node)] == s.log
            && forall v :: v in Supporters(s') ==> v != e.node && Packet(v, e.node, VoteReply(s.term, true)) in c.sent
  {
    var s := c.nodes[e.node];
    assert NodeInv(n, c.sent, h, e.node, s);
    StepKeepsTerm(n, c, h, e);
    if e.input == ApplyCommitted {
      ApplyAllOk(s);
    } else if e.input.FromPeer? && e.input.msg.Append? && s.term <= e.input.msg.term {
      AdoptFollows(n, c, h, e.node, e.input.src, e.input.msg);
      AppendEffect(n, c, h, e.node, e.input.src, e.input.msg);
    }
  }

  // ---- one step ----

  lemma StepKeepsCommitInv(n: nat, c: Cluster, h: History, e: Event)
    requires Inv(n, c, h) && CommitInv(n, c, h) && !CutsAcked(c, e)
    ensures CommitInv(n, Step(c, e), TrackStep(c, h, e))
  {
    if Enabled(c, e) && Handle(c.nodes[e.node], e.input).Ok? {
      var r := Handle(c.nodes[e.node], e.input);
      var h' := TrackStep(c, h, e);
      StepIsMove(n, c, h, e);
      StepKeepsLog(n, c, h, e);
      StepGrants(n, c, h, e);
      StepReigns(n, c, h, e);
      KeepsStep(n, c, h, e.node, r.s, r.out, h');
      GrantsStep(n, c, h, e.node, r.s, r.out, h');
      PledgesStep(n, c, h, e.node, r.s, r.out, h');
    }
  }
}
