/**
 How the cluster invariant survives the steps of other servers: every part of it is
 monotone in the packets sent, in the history, and in the terms of the servers.
 */
module RaftFrame {
  import opened RaftTypes
  import opened RaftCluster

  /** What every step of a server respects about its term, role and vote. */
  ghost predicate TermStep(s: Server, s': Server) {
    && s'.id == s.id && |s'.peers| == |s.peers|
    && s.term <= s'.term
    && (s.term == s'.term ==>
          && (s.role == Leader ==> s'.role == Leader)
          && (s.role == Follower ==> s'.role == Follower)
          && (s.role == Follower && s.vote != -1 ==> s'.vote == s.vote))
  }

  lemma WfMono(h: History, h': History, i: nat, log: Log)
    requires Extends(h, h', i) && LogWf(h, log)
    ensures LogWf(h', log)
  {
    forall k: nat | k < |log|
      ensures Origin(h', log, k)
    {
      assert Origin(h, log, k);
      var t := log[k].term;
      assert ReignExtends(h.reigns[t], h'.reigns[t], i);
      assert h'.reigns[t].log[..k + 1] == h.reigns[t].log[..k + 1];
    }
  }

  lemma WfPrefix(h: History, log: Log, m: nat)
    requires LogWf(h, log) && m <= |log|
    ensures LogWf(h, log[..m])
  {
    forall k: nat | k < m
      ensures Origin(h, log[..m], k)
    {
      assert Origin(h, log, k);
      assert log[..m][..k + 1] == log[..k + 1];
    }
  }

  /** Two well-formed logs that hold the same term at one place agree up to there. */
  lemma WfAgree(h: History, a: Log, b: Log, k: nat)
    requires LogWf(h, a) && LogWf(h, b) && k < |a| && k < |b| && a[k].term == b[k].term
    ensures a[..k + 1] == b[..k + 1]
  {
    assert Origin(h, a, k) && Origin(h, b, k);
  }

  lemma RepliedMono(sent: set<Packet>, sent': set<Packet>, j: nat, i: nat, t: nat, idx: int)
    requires sent <= sent' && Replied(sent, j, i, t, idx)
    ensures Replied(sent', j, i, t, idx)
  {
    var p :| p in sent && p.src == j && p.dst == i && p.msg.AppendReply?
             && p.msg.success && p.msg.term == t && p.msg.currentIdx == idx;
    assert p in sent';
  }

  lemma LeadMono(n: nat, sent: set<Packet>, sent': set<Packet>, s: Server)
    requires sent <= sent' && NodeLead(n, sent, s)
    ensures NodeLead(n, sent', s)
  {
    if s.role == Leader && |s.peers| == n {
      forall j: nat | j < n && j != s.id && 0 < s.peers[j].matchIdx
        ensures Replied(sent', j, s.id, s.term, s.peers[j].matchIdx)
      {
        RepliedMono(sent, sent', j, s.id, s.term, s.peers[j].matchIdx);
      }
    }
  }

  lemma NodeMono(n: nat, sent: set<Packet>, sent': set<Packet>, h: History, h': History, i: nat, j: nat, s: Server)
    requires j != i && sent <= sent' && Extends(h, h', i) && NodeInv(n, sent, h, j, s)
    ensures NodeInv(n, sent', h', j, s)
  {
    WfMono(h, h', i, s.log);
    LeadMono(n, sent, sent', s);
    if s.role == Leader {
      assert ReignExtends(h.reigns[s.term], h'.reigns[s.term], i);
    }
  }

  lemma MsgMono(h: History, h': History, i: nat, src: nat, dst: nat, s: Server, s': Server, m: Msg)
    requires MsgInv(h, src, dst, s, m) && Extends(h, h', i) && TermStep(s, s')
    ensures MsgInv(h', src, dst, s', m)
  {
    if m.Append? {
      var r, r' := h.reigns[m.term], h'.reigns[m.term];
      assert ReignExtends(r, r', i);
      AppendMono(r, r', i, m);
    } else if m.AppendReply? && m.success {
      assert ReignExtends(h.reigns[m.term], h'.reigns[m.term], i);
    }
  }

  lemma AppendMono(r: Reign, r': Reign, i: nat, m: Msg)
    requires m.Append? && ReignExtends(r, r', i) && AppendInv(r, m.prevIdx, m.prevTerm, m.commit, m.entries)
    ensures AppendInv(r', m.prevIdx, m.prevTerm, m.commit, m.entries)
  {
    assert r'.log[m.prevIdx..m.prevIdx + |m.entries|] == r.log[m.prevIdx..m.prevIdx + |m.entries|];
  }

  lemma ReignLogMono(h: History, h': History, i: nat, r: Reign, t: nat)
    requires ReignLog(h, r, t) && Extends(h, h', i)
    ensures ReignLog(h', r, t)
  {
    WfMono(h, h', i, r.log);
  }

  lemma BidMono(n: nat, nodes: seq<Server>, h: History, h': History, i: nat, s': Server, b: (nat, nat))
    requires b in h.bids && BidInv(n, nodes, h, b) && Extends(h, h', i)
    requires i < n && TermStep(nodes[i], s')
    ensures b in h'.bids && BidInv(n, nodes[i := s'], h', b)
  {
    WfMono(h, h', i, h.bids[b]);
  }

  /** The packets of one step: each is well-formed, and a granted vote is the first one this
      server gives in the term, to one server only. */
  ghost predicate OutOk(n: nat, h': History, s: Server, s': Server, out: seq<Packet>) {
    && (forall p :: p in out ==> p.src == s.id && p.dst < n && p.dst != p.src && MsgInv(h', p.src, p.dst, s', p.msg))
    && (forall p :: p in out && p.msg.VoteReply? && p.msg.granted ==>
          && p.msg.term == s'.term && s'.role == Follower
          && (s.term < s'.term || (s.vote == -1 && s.role == Follower)))
    && (forall p, q :: p in out && q in out && p.msg.VoteReply? && q.msg.VoteReply? && p.msg.granted && q.msg.granted ==> p.dst == q.dst)
  }

  function After(c: Cluster, i: nat, s': Server, out: seq<Packet>): (c': Cluster)
    requires i < |c.nodes|
  {
    c.(nodes := c.nodes[i := s'], sent := c.sent + set p | p in out)
  }

  lemma GrantsStayUnique(n: nat, c: Cluster, h: History, h': History, i: nat, s': Server, out: seq<Packet>)
    requires i < |c.nodes| == n && Inv(n, c, h) && OutOk(n, h', c.nodes[i], s', out)
    requires TermStep(c.nodes[i], s')
    ensures GrantsUnique(After(c, i, s', out).sent)
  {
    var sent' := After(c, i, s', out).sent;
    assert c.nodes[i].id == i by { assert NodeInv(n, c.sent, h, i, c.nodes[i]); }
    forall v: nat, t: int, a: nat, b: nat |
      Packet(v, a, VoteReply(t, true)) in sent' && Packet(v, b, VoteReply(t, true)) in sent'
      ensures a == b
    {
      var p, q := Packet(v, a, VoteReply(t, true)), Packet(v, b, VoteReply(t, true));
      if p in c.sent {
        NoOldGrant(n, c, h, h', i, s', out, p, q);
      }
      if q in c.sent {
        NoOldGrant(n, c, h, h', i, s', out, q, p);
      }
    }
  }

  lemma NoOldGrant(n: nat, c: Cluster, h: History, h': History, i: nat, s': Server, out: seq<Packet>, p: Packet, q: Packet)
    requires i < |c.nodes| == n && Inv(n, c, h) && OutOk(n, h', c.nodes[i], s', out)
    requires TermStep(c.nodes[i], s')
    requires p in c.sent && p.msg.VoteReply? && p.msg.granted
    requires q.src == p.src && q.msg == p.msg
    ensures q !in out
  {
    assert PacketInv(n, c.nodes, h, p);
    assert NodeInv(n, c.sent, h, i, c.nodes[i]);
    if q in out {
      assert false;
    }
  }

  /** A reign untouched by the step keeps its invariant. */
  lemma ReignFrame(n: nat, c: Cluster, h: History, h': History, i: nat, s': Server, out: seq<Packet>, t: nat)
    requires i < |c.nodes| == n && Inv(n, c, h) && OutOk(n, h', c.nodes[i], s', out)
    requires TermStep(c.nodes[i], s') && Extends(h, h', i)
    requires t in h.reigns && h'.reigns[t] == h.reigns[t]
    ensures ReignInv(n, After(c, i, s', out).nodes, After(c, i, s', out).sent, h', t)
  {
    var r := h.reigns[t];
    assert ReignInv(n, c.nodes, c.sent, h, t);
    ReignLogMono(h, h', i, r, t);
    ReignVotesFrame(n, c, h, h', i, s', out, t);
  }

  lemma ReignVotesFrame(n: nat, c: Cluster, h: History, h': History, i: nat, s': Server, out: seq<Packet>, t: nat)
    requires i < |c.nodes| == n && Inv(n, c, h) && OutOk(n, h', c.nodes[i], s', out)
    requires TermStep(c.nodes[i], s')
    requires t in h.reigns
    ensures ReignVotes(n, After(c, i, s', out).sent, h.reigns[t], t)
  {
    var r := h.reigns[t];
    var sent' := After(c, i, s', out).sent;
    assert ReignInv(n, c.nodes, c.sent, h, t);
    assert NodeInv(n, c.sent, h, i, c.nodes[i]);
    forall d: nat
      ensures Packet(r.leader, d, VoteReply(t, true)) !in sent'
    {
      var p := Packet(r.leader, d, VoteReply(t, true));
      if p in out {
        assert false;
      }
    }
  }

  /** One server moves from `c.nodes[i]` to `s'` and sends `out`.  If the new server state, the
      new packets and the reign or bid it touched are in order, the invariant holds again. */
  lemma Assemble(n: nat, c: Cluster, h: History, h': History, i: nat, s': Server, out: seq<Packet>)
    requires i < |c.nodes| == n && Inv(n, c, h)
    requires TermStep(c.nodes[i], s') && Extends(h, h', i)
    requires OutOk(n, h', c.nodes[i], s', out)
    requires NodeInv(n, After(c, i, s', out).sent, h', i, s')
    requires forall t :: t in h'.reigns && (t !in h.reigns || h'.reigns[t] != h.reigns[t]) ==>
               ReignInv(n, After(c, i, s', out).nodes, After(c, i, s', out).sent, h', t)
    requires forall b :: b in h'.bids && b !in h.bids ==> BidInv(n, After(c, i, s', out).nodes, h', b)
    ensures Inv(n, After(c, i, s', out), h')
  {
    var c' := After(c, i, s', out);
    assert c.nodes[i].id == i by { assert NodeInv(n, c.sent, h, i, c.nodes[i]); }
    forall j: nat | j < n
      ensures NodeInv(n, c'.sent, h', j, c'.nodes[j])
    {
      if j != i {
        NodeMono(n, c.sent, c'.sent, h, h', i, j, c.nodes[j]);
      }
    }
    forall p | p in c'.sent
      ensures PacketInv(n, c'.nodes, h', p)
    {
      PacketFrame(n, c, h, h', i, s', out, p);
    }
    forall t | t in h'.reigns
      ensures ReignInv(n, c'.nodes, c'.sent, h', t)
    {
      if t in h.reigns && h'.reigns[t] == h.reigns[t] {
        ReignFrame(n, c, h, h', i, s', out, t);
      }
    }
    forall b | b in h'.bids
      ensures BidInv(n, c'.nodes, h', b)
    {
      if b in h.bids {
        BidMono(n, c.nodes, h, h', i, s', b);
      }
    }
    GrantsStayUnique(n, c, h, h', i, s', out);
  }

  lemma PacketFrame(n: nat, c: Cluster, h: History, h': History, i: nat, s': Server, out: seq<Packet>, p: Packet)
    requires i < |c.nodes| == n && c.nodes[i].id == i
    requires p in c.sent ==> PacketInv(n, c.nodes, h, p)
    requires TermStep(c.nodes[i], s') && Extends(h, h', i)
    requires OutOk(n, h', c.nodes[i], s', out)
    requires p in After(c, i, s', out).sent
    ensures PacketInv(n, After(c, i, s', out).nodes, h', p)
  {
    if p in c.sent {
      var s2 := After(c, i, s', out).nodes[p.src];
      assert TermStep(c.nodes[p.src], s2);
      MsgMono(h, h', i, p.src, p.dst, c.nodes[p.src], s2, p.msg);
    } else {
      assert p in out;
    }
  }
}
