/**
 The election steps: standing for election, answering a vote request, counting votes and
 taking office.  A winner's term has no earlier leader, although a candidate that hears from
 a leader of its own term clears its vote and may then vote for someone else.
 */
module RaftElection {
  import opened RaftTypes
  import opened RaftOps
  import opened RaftNode
  import opened RaftCluster
  import opened RaftFrame

  // ---- steps that leave the history alone ----

  /** A step after which the server follows, or is what it was before. */
  ghost predicate Quiet(s: Server, s': Server) {
    s'.role == Follower || (s'.role == s.role && s'.term == s.term && s'.log == s.log)
  }

  lemma TrackQuiet(n: nat, sent: set<Packet>, h: History, i: nat, s: Server, s': Server)
    requires NodeElect(n, sent, h, i, s) && Quiet(s, s')
    ensures Track(h, s, s') == h
  {
    if s'.role == Leader {
      var r := h.reigns[s.term];
      assert r.(log := s'.log) == r;
      assert h.reigns[s.term := r] == h.reigns;
    }
  }

  lemma QuietStep(n: nat, c: Cluster, h: History, i: nat, s': Server, out: seq<Packet>)
    requires i < |c.nodes| == n && Inv(n, c, h)
    requires TermStep(c.nodes[i], s') && OutOk(n, h, c.nodes[i], s', out) && Quiet(c.nodes[i], s')
    requires NodeInv(n, After(c, i, s', out).sent, h, i, s')
    ensures Track(h, c.nodes[i], s') == h && Inv(n, After(c, i, s', out), h)
  {
    assert NodeInv(n, c.sent, h, i, c.nodes[i]);
    TrackQuiet(n, c.sent, h, i, c.nodes[i], s');
    Assemble(n, c, h, h, i, s', out);
  }

  /** Applying entries is invisible to the cluster. */
  lemma AppliedNode(n: nat, sent: set<Packet>, h: History, i: nat, s: Server, s': Server)
    requires NodeInv(n, sent, h, i, s) && ServerOk(s')
    requires s' == s.(lastApplied := s'.lastApplied, trace := s'.trace)
    ensures NodeInv(n, sent, h, i, s')
  {
  }

  lemma NoPackets(c: Cluster, i: nat, s': Server)
    requires i < |c.nodes|
    ensures After(c, i, s', []) == c.(nodes := c.nodes[i := s'])
  {
    var none: seq<Packet> := [];
    assert c.sent + (set p | p in none) == c.sent;
  }

  /** Raising the term and following. */
  lemma StepDownNode(n: nat, sent: set<Packet>, sent': set<Packet>, h: History, i: nat, s: Server, t: int)
    requires NodeInv(n, sent, h, i, s)
    ensures NodeInv(n, sent', h, i, StepDown(s, t))
    ensures s.term < t ==> TermStep(s, StepDown(s, t))
  {
  }

  // ---- answering a vote request ----

  /** A leader or candidate never reaches the granting branch: the assertion there holds. */
  lemma NeverGrantsInOffice(n: nat, sent: set<Packet>, h: History, s: Server, src: nat, m: Msg)
    requires NodeInv(n, sent, h, s.id, s) && m.RequestVote?
    ensures RecvRequestVote(s, src, m).Ok?
  {
  }

  lemma RequestVoteStep(n: nat, c: Cluster, h: History, i: nat, src: nat, m: Msg)
    requires i < |c.nodes| == n && Inv(n, c, h) && m.RequestVote? && Packet(src, i, m) in c.sent
    ensures RecvRequestVote(c.nodes[i], src, m).Ok?
    ensures var r := RecvRequestVote(c.nodes[i], src, m);
            Track(h, c.nodes[i], r.s) == h && Inv(n, After(c, i, r.s, r.out), h)
  {
    var s := c.nodes[i];
    assert NodeInv(n, c.sent, h, i, s);
    assert PacketInv(n, c.nodes, h, Packet(src, i, m));
    NeverGrantsInOffice(n, c.sent, h, s, src, m);
    var r := RecvRequestVote(s, src, m);
    VoteAnswerNode(n, c.sent, After(c, i, r.s, r.out).sent, h, i, s, src, m);
    QuietStep(n, c, h, i, r.s, r.out);
  }

  lemma VoteAnswerNode(n: nat, sent: set<Packet>, sent': set<Packet>, h: History, i: nat, s: Server, src: nat, m: Msg)
    requires NodeInv(n, sent, h, i, s) && sent <= sent' && m.RequestVote? && m.candidate == src != i && src < n
    requires RecvRequestVote(s, src, m).Ok?
    ensures var r := RecvRequestVote(s, src, m);
            NodeInv(n, sent', h, i, r.s) && TermStep(s, r.s) && Quiet(s, r.s) && OutOk(n, h, s, r.s, r.out)
  {
    StepDownNode(n, sent, sent', h, i, s, m.term);
    LeadMono(n, sent, sent', s);
  }

  // ---- standing for election ----

  lemma {:induction false} AskVotesFacts(s: Server, k: nat, p: Packet)
    requires p in AskVotes(s, k)
    ensures p.src == s.id && p.dst < |s.peers| && p.dst != s.id && p.msg == VoteRequest(s)
    decreases |s.peers| - k
  {
    if p in AskVotes(s, k + 1) {
      AskVotesFacts(s, k + 1, p);
    }
  }

  lemma CandidateStep(n: nat, c: Cluster, h: History, i: nat, s': Server)
    requires i < |c.nodes| == n && Inv(n, c, h)
    requires 1 < n && ServerOk(s') && var b := BecomeCandidate(c.nodes[i]).s;
             s' == b.(lastApplied := s'.lastApplied, trace := s'.trace)
    ensures Inv(n, After(c, i, s', BecomeCandidate(c.nodes[i]).out), Track(h, c.nodes[i], s'))
  {
    var s := c.nodes[i];
    var b := BecomeCandidate(s).s;
    var out := BecomeCandidate(s).out;
    var h' := Track(h, s, s');
    var c' := After(c, i, s', out);
    assert NodeInv(n, c.sent, h, i, s);
    assert (s'.term, i) in h.bids ==> BidInv(n, c.nodes, h, (s'.term, i));
    assert Extends(h, h', i);
    WfMono(h, h', i, s.log);
    forall p | p in out
      ensures p.src == s.id && p.dst < n && p.dst != p.src && p.msg == VoteRequest(b)
    {
      AskVotesFacts(b, 0, p);
    }
    Assemble(n, c, h, h', i, s', out);
  }

  // ---- counting votes ----

  lemma MajoritiesMeet(n: nat, a: set<nat>, b: set<nat>) returns (v: nat)
    requires (forall x :: x in a ==> x < n) && (forall x :: x in b ==> x < n)
    requires n < |a| + |b|
    ensures v in a && v in b
  {
    Below(n, a + b);
    if a * b == {} {
      assert false;
    }
    v :| v in a * b;
  }

  /** Distinct naturals below `n` number at most `n`. */
  lemma {:induction false} Below(n: nat, s: set<nat>)
    requires forall x :: x in s ==> x < n
    ensures |s| <= n
    decreases n
  {
    if n == 0 {
      assert s == {};
    } else {
      Below(n - 1, s - {n - 1});
      assert |s| <= |s - {n - 1}| + 1 by {
        if n - 1 in s {
          assert s == (s - {n - 1}) + {n - 1};
        } else {
          assert s == s - {n - 1};
        }
      }
    }
  }

  ghost predicate Elected(n: nat, sent: set<Packet>, s: Server, quorum: set<nat>) {
    && s.id in quorum && n < 2 * |quorum|
    && forall v :: v in quorum ==> v < n && (v != s.id ==> Packet(v, s.id, VoteReply(s.term, true)) in sent)
  }

  /** The heart of election safety: a candidate that has a majority of votes stands in a term
      that has no leader yet. */
  lemma WinnersTermIsFree(n: nat, c: Cluster, h: History, i: nat, quorum: set<nat>)
    requires i < |c.nodes| == n && Inv(n, c, h) && c.nodes[i].role == Candidate
    requires Elected(n, c.sent, c.nodes[i], quorum)
    ensures c.nodes[i].term !in h.reigns
  {
    var s := c.nodes[i];
    var t := s.term;
    assert NodeInv(n, c.sent, h, i, s);
    if t in h.reigns {
      var r := h.reigns[t];
      assert ReignInv(n, c.nodes, c.sent, h, t);
      var v := MajoritiesMeet(n, r.quorum, quorum);
      assert false;
    }
  }

  lemma SupportersElect(n: nat, sent: set<Packet>, h: History, i: nat, s: Server)
    requires i < n && NodeElect(n, sent, h, i, s) && s.role == Candidate && IsMajority(n, VoteCount(s))
    ensures Elected(n, sent, s, Supporters(s) + {i})
  {
    assert i !in Supporters(s);
    assert |Supporters(s) + {i}| == |Supporters(s)| + 1;
  }

  // ---- taking office ----

  lemma {:induction false} SendWhereFacts(s: Server, k: nat, all: bool, p: Packet)
    requires p in SendWhere(s, k, all)
    ensures p.src == s.id && p.dst < |s.peers| && p.dst != s.id && p.msg == AppendFor(s, p.dst)
    decreases |s.peers| - k
  {
    if k < |s.peers| {
      var here := if k != s.id && (all || s.peers[k].next == |s.log|) then [Packet(s.id, k, AppendFor(s, k))] else [];
      var rest := SendWhere(s, k + 1, all);
      assert SendWhere(s, k, all) == here + rest;
      if p in rest {
        SendWhereFacts(s, k + 1, all, p);
      } else {
        assert p in here;
      }
    }
  }

  /** What a leader sends always reaches to the end of its log. */
  lemma AppendForInv(r: Reign, s: Server, j: nat)
    requires j < |s.peers| && s.peers[j].next <= |s.log| + 1 && s.commit <= |s.log|
    requires s.log == r.log && r.base <= r.log
    ensures var m := AppendFor(s, j);
            && AppendInv(r, m.prevIdx, m.prevTerm, m.commit, m.entries)
            && m.prevIdx + |m.entries| == |s.log|
  {
  }

  lemma NewReign(n: nat, c: Cluster, h: History, i: nat, s1: Server)
    requires i < |c.nodes| == n && Inv(n, c, h) && s1.log == c.nodes[i].log && s1.term == c.nodes[i].term && s1.id == i
    requires c.nodes[i].role == Candidate && s1.term !in h.reigns
    requires Elected(n, c.sent, c.nodes[i], Supporters(s1) + {i})
    ensures var h' := h.(reigns := h.reigns[s1.term := Reign(i, s1.log, s1.log, Supporters(s1) + {i})]);
            && Extends(h, h', i)
            && ReignVotes(n, c.sent, h'.reigns[s1.term], s1.term)
            && ReignLog(h', h'.reigns[s1.term], s1.term)
            && LogWf(h', s1.log)
  {
    var r := Reign(i, s1.log, s1.log, Supporters(s1) + {i});
    NewReignVotes(n, c, h, i, r);
    NewReignLog(n, c, h, i, r);
  }

  /** A candidate votes for nobody else in its term. */
  lemma NewReignVotes(n: nat, c: Cluster, h: History, i: nat, r: Reign)
    requires i < |c.nodes| == n && Inv(n, c, h) && c.nodes[i].role == Candidate && r.leader == i
    requires Elected(n, c.sent, c.nodes[i], r.quorum)
    ensures ReignVotes(n, c.sent, r, c.nodes[i].term)
  {
    var t := c.nodes[i].term;
    assert NodeInv(n, c.sent, h, i, c.nodes[i]);
    forall d: nat
      ensures Packet(i, d, VoteReply(t, true)) !in c.sent
    {
      assert Packet(i, d, VoteReply(t, true)) in c.sent ==> PacketInv(n, c.nodes, h, Packet(i, d, VoteReply(t, true)));
    }
  }

  /** The log of a candidate holds entries of earlier terms only. */
  lemma NewReignLog(n: nat, c: Cluster, h: History, i: nat, r: Reign)
    requires i < |c.nodes| == n && Inv(n, c, h) && c.nodes[i].role == Candidate && c.nodes[i].term !in h.reigns
    requires r.base == r.log == c.nodes[i].log
    ensures var h' := h.(reigns := h.reigns[c.nodes[i].term := r]);
            Extends(h, h', i) && ReignLog(h', r, c.nodes[i].term) && LogWf(h', r.log)
  {
    var t := c.nodes[i].term;
    var h' := h.(reigns := h.reigns[t := r]);
    assert NodeInv(n, c.sent, h, i, c.nodes[i]);
    WfMono(h, h', i, r.log);
    forall k: nat | k < |r.log|
      ensures r.log[k].term < t
    {
      assert Origin(h, r.log, k);
    }
    SortedFromReigns(n, c, h, r.log);
  }

  /** A well-formed log is a prefix of the log of some leader, hence sorted by term. */
  lemma SortedFromReigns(n: nat, c: Cluster, h: History, log: Log)
    requires Inv(n, c, h) && LogWf(h, log)
    ensures Sorted(log)
  {
    if |log| > 0 {
      var k := |log| - 1;
      assert Origin(h, log, k);
      var t := log[k].term;
      assert ReignInv(n, c.nodes, c.sent, h, t);
      assert log == h.reigns[t].log[..k + 1];
    }
  }

  lemma LeaderNode(n: nat, sent: set<Packet>, h': History, s: Server)
    requires 1 < n && s.id < n == |s.peers| && ServerOk(s) && s.role == Candidate && s.vote == s.id
    requires s.term in h'.reigns && h'.reigns[s.term].leader == s.id && h'.reigns[s.term].log == s.log
    requires LogWf(h', s.log) && TermsUpTo(s.log, s.term)
    ensures NodeInv(n, sent, h', s.id, BecomeLeader(s).s)
    ensures TermStep(s, BecomeLeader(s).s) && Supporters(BecomeLeader(s).s) == Supporters(s)
  {
  }

  /** The messages a leader sends to the peers. */
  lemma LeaderOut(n: nat, h: History, s: Server, all: bool, s0: Server)
    requires s.id < n == |s.peers| && s.role == Leader && s0.id == s.id
    requires s.term in h.reigns && var r := h.reigns[s.term]; r.leader == s.id && r.log == s.log && r.base <= r.log
    requires s.commit <= |s.log| && forall j: nat :: j < n && j != s.id ==> s.peers[j].next <= |s.log| + 1
    ensures OutOk(n, h, s0, s, SendWhere(s, 0, all))
    ensures forall p :: p in SendWhere(s, 0, all) ==> p.msg.Append? && p.msg.prevIdx + |p.msg.entries| == |s.log|
  {
    forall p | p in SendWhere(s, 0, all)
      ensures p.src == s.id && p.dst < n && p.dst != p.src && p.msg.Append?
      ensures MsgInv(h, p.src, p.dst, s, p.msg) && p.msg.prevIdx + |p.msg.entries| == |s.log|
    {
      SendWhereFacts(s, 0, all, p);
      AppendForInv(h.reigns[s.term], s, p.dst);
    }
  }

  lemma LeaderStep(n: nat, c: Cluster, h: History, i: nat, s1: Server)
    requires i < |c.nodes| == n && Inv(n, c, h) && c.nodes[i].role == Candidate
    requires s1 == c.nodes[i].(peers := s1.peers) && |s1.peers| == n
    requires Elected(n, c.sent, c.nodes[i], Supporters(s1) + {i})
    ensures var r := BecomeLeader(s1);
            Inv(n, After(c, i, r.s, r.out), Track(h, c.nodes[i], r.s))
  {
    var s := c.nodes[i];
    var s', out := BecomeLeader(s1).s, BecomeLeader(s1).out;
    var t := s.term;
    var h' := h.(reigns := h.reigns[t := Reign(i, s1.log, s1.log, Supporters(s1) + {i})]);
    assert NodeInv(n, c.sent, h, i, s);
    WinnersTermIsFree(n, c, h, i, Supporters(s1) + {i});
    NewReign(n, c, h, i, s1);
    var sent' := After(c, i, s', out).sent;
    LeaderNode(n, sent', h', s1);
    LeaderOut(n, h', s', true, s);
    ReignVotesGrow(n, c.sent, out, h'.reigns[t], t);
    Assemble(n, c, h, h', i, s', out);
  }

  /** Sending append messages does not disturb the votes of a reign. */
  lemma ReignVotesGrow(n: nat, sent: set<Packet>, out: seq<Packet>, r: Reign, t: nat)
    requires ReignVotes(n, sent, r, t) && forall p :: p in out ==> p.msg.Append?
    ensures ReignVotes(n, sent + (set p | p in out), r, t)
  {
  }

  lemma VoteReplyStep(n: nat, c: Cluster, h: History, i: nat, src: nat, m: Msg)
    requires i < |c.nodes| == n && Inv(n, c, h) && m.VoteReply? && Packet(src, i, m) in c.sent
    requires src < |c.nodes[i].peers|
    ensures RecvVoteReply(c.nodes[i], src, m).Ok?
    ensures var r := RecvVoteReply(c.nodes[i], src, m);
            Inv(n, After(c, i, r.s, r.out), Track(h, c.nodes[i], r.s))
  {
    var s := c.nodes[i];
    assert NodeInv(n, c.sent, h, i, s);
    assert PacketInv(n, c.nodes, h, Packet(src, i, m));
    var r := RecvVoteReply(s, src, m);
    if s.role == Candidate && s.term == m.term && m.granted {
      var s1 := s.(peers := s.peers[src := s.peers[src].(voted := true)]);
      assert NodeElect(n, c.sent, h, i, s1);
      if IsMajority(n, VoteCount(s1)) {
        SupportersElect(n, c.sent, h, i, s1);
        LeaderStep(n, c, h, i, s1);
      } else {
        NoPackets(c, i, s1);
        QuietStep(n, c, h, i, s1, []);
      }
    } else {
      StepDownNode(n, c.sent, c.sent, h, i, s, m.term);
      NoPackets(c, i, r.s);
      QuietStep(n, c, h, i, r.s, []);
    }
  }
}
