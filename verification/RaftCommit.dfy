/**
 Commitment.  An entry of a leader's own term that a majority acknowledged is in the log of
 every later leader (leader completeness), as long as no server loses what it acknowledged.
 */
module RaftCommit {
  import opened RaftTypes
  import opened RaftCluster
  import opened RaftFrame
  import opened RaftElection

  ghost predicate Has(log: Log, ref: Log, j: nat) {
    j <= |log| && j <= |ref| && log[..j] == ref[..j]
  }

  /** `v` acknowledged the log of term `t` up to `j` or further. */
  ghost predicate RepliedUpTo(sent: set<Packet>, v: nat, t: nat, j: int) {
    exists p :: p in sent && p.src == v && p.msg.AppendReply? && p.msg.success
                && p.msg.term == t && j <= p.msg.currentIdx
  }

  ghost predicate Acked(sent: set<Packet>, h: History, v: nat, t: nat, j: nat) {
    && t in h.reigns && 0 < j <= |h.reigns[t].log|
    && (v == h.reigns[t].leader || RepliedUpTo(sent, v, t, j))
  }

  /** Entry `j` of the leader of term `t` was written in that term. */
  ghost predicate OwnTerm(h: History, t: nat, j: nat) {
    t in h.reigns && 0 < j <= |h.reigns[t].log| && h.reigns[t].log[j - 1].term == t
  }

  /** The leader of term `w` was elected without the first `j` entries of the leader of `t`. */
  ghost predicate Lacks(h: History, w: nat, t: nat, j: nat) {
    w in h.reigns && t in h.reigns && j <= |h.reigns[t].log| && !Has(h.reigns[w].base, h.reigns[t].log, j)
  }

  ghost predicate Lost(h: History, t: nat, j: nat, hi: int) {
    exists w: nat :: t < w <= hi && Lacks(h, w, t, j)
  }

  /** `log` holds what was acknowledged, or a leader after `t` and up to `hi` came without it. */
  ghost predicate Kept(h: History, log: Log, t: nat, j: nat, hi: int) {
    t in h.reigns && (Has(log, h.reigns[t].log, j) || Lost(h, t, j, hi))
  }

  // ---- the commitment invariants ----

  ghost predicate Keeps(n: nat, c: Cluster, h: History)
    requires |c.nodes| == n
  {
    forall v: nat, t: nat, j: nat :: v < n && Acked(c.sent, h, v, t, j) && OwnTerm(h, t, j) ==>
      Kept(h, c.nodes[v].log, t, j, c.nodes[v].term)
  }

  /** A candidate that was granted a vote had, when it stood, what the voter had acknowledged. */
  ghost predicate GrantKeeps(h: History, p: Packet, t: nat, j: nat)
    requires p.msg.VoteReply?
  {
    0 <= p.msg.term && (p.msg.term, p.dst) in h.bids && Kept(h, h.bids[(p.msg.term, p.dst)], t, j, p.msg.term)
  }

  ghost predicate Grants(c: Cluster, h: History) {
    forall p, t: nat, j: nat ::
      (&& p in c.sent && p.msg.VoteReply? && p.msg.granted && t < p.msg.term
       && Acked(c.sent, h, p.src, t, j) && OwnTerm(h, t, j)) ==>
      GrantKeeps(h, p, t, j)
  }

  /** A leader was elected with what its electors had acknowledged before. */
  ghost predicate Pledges(c: Cluster, h: History) {
    forall u: nat, v: nat, t: nat, j: nat ::
      (&& u in h.reigns && v in h.reigns[u].quorum && t < u
       && Acked(c.sent, h, v, t, j) && OwnTerm(h, t, j)) ==>
      Kept(h, h.reigns[u].base, t, j, u - 1)
  }

  ghost predicate CommitInv(n: nat, c: Cluster, h: History) {
    |c.nodes| == n && Keeps(n, c, h) && Grants(c, h) && Pledges(c, h)
  }

  /** `j` entries of the leader of term `t` are committed: the last is of its own term, and a
      majority acknowledged them. */
  ghost predicate Committed(n: nat, sent: set<Packet>, h: History, t: nat, j: nat) {
    && OwnTerm(h, t, j)
    && exists q: set<nat> :: n < 2 * |q| && Quorum(n, sent, h, t, j, q)
  }

  ghost predicate Quorum(n: nat, sent: set<Packet>, h: History, t: nat, j: nat, q: set<nat>) {
    forall v :: v in q ==> v < n && Acked(sent, h, v, t, j)
  }

  /** Leader completeness: every later leader is elected with the committed entries. */
  lemma {:induction false} LeaderCompleteness(n: nat, c: Cluster, h: History, t: nat, j: nat, u: nat)
    requires Inv(n, c, h) && CommitInv(n, c, h) && Committed(n, c.sent, h, t, j)
    requires u in h.reigns && t < u
    ensures Has(h.reigns[u].base, h.reigns[t].log, j)
    decreases u
  {
    var q :| n < 2 * |q| && Quorum(n, c.sent, h, t, j, q);
    assert ReignInv(n, c.nodes, c.sent, h, u);
    var v := MajoritiesMeet(n, q, h.reigns[u].quorum);
    assert Acked(c.sent, h, v, t, j);
    assert Kept(h, h.reigns[u].base, t, j, u - 1);
    if !Has(h.reigns[u].base, h.reigns[t].log, j) {
      var w: nat :| t < w <= u - 1 && Lacks(h, w, t, j);
      LeaderCompleteness(n, c, h, t, j, w);
    }
  }

  // ---- frame ----

  lemma LacksMono(h: History, h': History, i: nat, w: nat, t: nat, j: nat)
    requires Extends(h, h', i) && Lacks(h, w, t, j)
    ensures Lacks(h', w, t, j)
  {
    assert ReignExtends(h.reigns[w], h'.reigns[w], i) && ReignExtends(h.reigns[t], h'.reigns[t], i);
    assert h'.reigns[t].log[..j] == h.reigns[t].log[..j];
  }

  lemma LostMono(h: History, h': History, i: nat, t: nat, j: nat, hi: int, hi': int)
    requires Extends(h, h', i) && Lost(h, t, j, hi) && hi <= hi'
    ensures Lost(h', t, j, hi')
  {
    var w: nat :| t < w <= hi && Lacks(h, w, t, j);
    LacksMono(h, h', i, w, t, j);
  }

  lemma KeptMono(h: History, h': History, i: nat, log: Log, t: nat, j: nat, hi: int, hi': int)
    requires Extends(h, h', i) && Kept(h, log, t, j, hi) && hi <= hi'
    ensures Kept(h', log, t, j, hi')
  {
    assert ReignExtends(h.reigns[t], h'.reigns[t], i);
    if Has(log, h.reigns[t].log, j) {
      assert h'.reigns[t].log[..j] == h.reigns[t].log[..j];
    } else {
      LostMono(h, h', i, t, j, hi, hi');
    }
  }

  lemma HasLonger(log: Log, log': Log, ref: Log, j: nat)
    requires Has(log, ref, j) && log <= log'
    ensures Has(log', ref, j)
  {
    assert log'[..j] == log[..j];
  }

  /** The replies a step sends: positive ones carry the sender's term and describe its log. */
  ghost predicate RepliesTrue(h': History, s': Server, out: seq<Packet>) {
    forall p :: p in out && p.msg.AppendReply? && p.msg.success ==>
      && p.src == s'.id && p.msg.term == s'.term && s'.term in h'.reigns
      && 0 <= p.msg.currentIdx && Has(s'.log, h'.reigns[s'.term].log, p.msg.currentIdx)
  }

  /** A step of server `i` from `(c, h)`, as the commitment invariants see it. */
  ghost predicate Move(n: nat, c: Cluster, h: History, i: nat, s': Server, out: seq<Packet>, h': History) {
    && Inv(n, c, h) && i < n
    && h' == Track(h, c.nodes[i], s') && TermStep(c.nodes[i], s') && Extends(h, h', i)
    && RepliesTrue(h', s', out)
  }

  /** The moving server led its present term, or acknowledged up to `j` in this step. */
  ghost predicate NewAck(h': History, s': Server, out: seq<Packet>, v: nat, t: nat, j: nat) {
    && v == s'.id && t == s'.term && t in h'.reigns && j <= |h'.reigns[t].log|
    && (v == h'.reigns[t].leader
        || exists p :: p in out && p.msg.AppendReply? && p.msg.success && j <= p.msg.currentIdx)
  }

  /** An acknowledgement that is there after a step was there before, or the moving server gave it
      in its present term. */
  lemma AckedBack(n: nat, c: Cluster, h: History, i: nat, s': Server, out: seq<Packet>, h': History, v: nat, t: nat, j: nat)
    requires Move(n, c, h, i, s', out, h') && Acked(After(c, i, s', out).sent, h', v, t, j)
    ensures Acked(c.sent, h, v, t, j) || NewAck(h', s', out, v, t, j)
  {
    assert NodeInv(n, c.sent, h, i, c.nodes[i]);
    if v == h'.reigns[t].leader {
      if t in h.reigns {
        assert ReignExtends(h.reigns[t], h'.reigns[t], i);
      }
    } else {
      var sent' := After(c, i, s', out).sent;
      var p :| p in sent' && p.src == v && p.msg.AppendReply? && p.msg.success
               && p.msg.term == t && j <= p.msg.currentIdx;
      if p in c.sent {
        assert PacketInv(n, c.nodes, h, p);
        assert RepliedUpTo(c.sent, v, t, j);
      } else {
        assert p in out;
      }
    }
  }

  lemma OwnTermBack(h: History, h': History, i: nat, t: nat, j: nat)
    requires Extends(h, h', i) && OwnTerm(h', t, j) && t in h.reigns && j <= |h.reigns[t].log|
    ensures OwnTerm(h, t, j)
  {
    assert ReignExtends(h.reigns[t], h'.reigns[t], i);
  }

  /** The moving server keeps what it acknowledged. */
  ghost predicate LogKept(c: Cluster, h: History, i: nat, s': Server)
    requires i < |c.nodes|
  {
    forall t: nat, j: nat :: Acked(c.sent, h, i, t, j) && OwnTerm(h, t, j) && Has(c.nodes[i].log, h.reigns[t].log, j) ==>
      Kept(h, s'.log, t, j, s'.term)
  }

  lemma KeepsStep(n: nat, c: Cluster, h: History, i: nat, s': Server, out: seq<Packet>, h': History)
    requires Move(n, c, h, i, s', out, h') && Inv(n, After(c, i, s', out), h')
    requires Keeps(n, c, h) && LogKept(c, h, i, s')
    ensures Keeps(n, After(c, i, s', out), h')
  {
    var c' := After(c, i, s', out);
    forall v: nat, t: nat, j: nat | v < n && Acked(c'.sent, h', v, t, j) && OwnTerm(h', t, j)
      ensures Kept(h', c'.nodes[v].log, t, j, c'.nodes[v].term)
    {
      AckedBack(n, c, h, i, s', out, h', v, t, j);
      if Acked(c.sent, h, v, t, j) {
        OwnTermBack(h, h', i, t, j);
        OldAckKept(n, c, h, i, s', v, t, j);
        KeptMono(h, h', i, c'.nodes[v].log, t, j, c'.nodes[v].term, c'.nodes[v].term);
      } else {
        NewAckKept(n, c, h, i, s', out, h', t, j);
      }
    }
  }

  lemma OldAckKept(n: nat, c: Cluster, h: History, i: nat, s': Server, v: nat, t: nat, j: nat)
    requires |c.nodes| == n && i < n && v < n && Keeps(n, c, h) && LogKept(c, h, i, s')
    requires Acked(c.sent, h, v, t, j) && OwnTerm(h, t, j) && c.nodes[i].term <= s'.term
    ensures Kept(h, c.nodes[i := s'][v].log, t, j, c.nodes[i := s'][v].term)
  {
    assert Kept(h, c.nodes[v].log, t, j, c.nodes[v].term);
    if v == i && !Has(c.nodes[v].log, h.reigns[t].log, j) {
      var w: nat :| t < w <= c.nodes[v].term && Lacks(h, w, t, j);
    }
  }

  lemma NewAckKept(n: nat, c: Cluster, h: History, i: nat, s': Server, out: seq<Packet>, h': History, t: nat, j: nat)
    requires Move(n, c, h, i, s', out, h') && Inv(n, After(c, i, s', out), h')
    requires NewAck(h', s', out, i, t, j)
    ensures Kept(h', s'.log, t, j, s'.term)
  {
    var c' := After(c, i, s', out);
    assert NodeInv(n, c'.sent, h', i, c'.nodes[i]);
    assert ReignInv(n, c'.nodes, c'.sent, h', t);
    if i != h'.reigns[t].leader {
      var p :| p in out && p.msg.AppendReply? && p.msg.success && j <= p.msg.currentIdx;
      HasShorter(s'.log, h'.reigns[t].log, j, p.msg.currentIdx);
    }
  }

  lemma HasShorter(log: Log, ref: Log, j: nat, k: nat)
    requires Has(log, ref, k) && j <= k
    ensures Has(log, ref, j)
  {
    assert log[..j] == log[..k][..j] && ref[..j] == ref[..k][..j];
  }

  ghost predicate NewGrantKeeps(h: History, s': Server, p: Packet, t: nat, j: nat) {
    p.msg.VoteReply? && p.msg.term <= s'.term && GrantKeeps(h, p, t, j)
  }

  ghost predicate NewGrantsKeep(sent: set<Packet>, h: History, s': Server, out: seq<Packet>) {
    forall p, t: nat, j: nat ::
      (&& p in out && p.msg.VoteReply? && p.msg.granted && t < p.msg.term
       && Acked(sent, h, p.src, t, j) && OwnTerm(h, t, j)) ==>
      NewGrantKeeps(h, s', p, t, j)
  }

  lemma GrantsStep(n: nat, c: Cluster, h: History, i: nat, s': Server, out: seq<Packet>, h': History)
    requires Move(n, c, h, i, s', out, h') && Inv(n, After(c, i, s', out), h')
    requires Grants(c, h) && NewGrantsKeep(c.sent, h, s', out)
    ensures Grants(After(c, i, s', out), h')
  {
    var c' := After(c, i, s', out);
    forall p, t: nat, j: nat | p in c'.sent && p.msg.VoteReply? && p.msg.granted && t < p.msg.term
      && Acked(c'.sent, h', p.src, t, j) && OwnTerm(h', t, j)
      ensures GrantKeeps(h', p, t, j)
    {
      assert PacketInv(n, c'.nodes, h', p);
      AckedBack(n, c, h, i, s', out, h', p.src, t, j);
      OwnTermBack(h, h', i, t, j);
      assert p in out ==> NewGrantKeeps(h, s', p, t, j);
      GrantMono(h, h', i, p, t, j);
    }
  }

  lemma GrantMono(h: History, h': History, i: nat, p: Packet, t: nat, j: nat)
    requires p.msg.VoteReply? && GrantKeeps(h, p, t, j) && Extends(h, h', i)
    ensures GrantKeeps(h', p, t, j)
  {
    KeptMono(h, h', i, h.bids[(p.msg.term, p.dst)], t, j, p.msg.term, p.msg.term);
  }

  ghost predicate NewReignPledged(c: Cluster, h: History, h': History) {
    forall u: nat, v: nat, t: nat, j: nat ::
      (&& u in h'.reigns && u !in h.reigns && v in h'.reigns[u].quorum && t < u
       && Acked(c.sent, h, v, t, j) && OwnTerm(h, t, j)) ==>
      Kept(h, h'.reigns[u].base, t, j, u - 1)
  }

  /** An elector has reached the term it voted in. */
  lemma ElectorTerm(n: nat, c: Cluster, h: History, u: nat, v: nat)
    requires Inv(n, c, h) && u in h.reigns && v in h.reigns[u].quorum
    ensures v < n && u <= c.nodes[v].term
  {
    assert ReignInv(n, c.nodes, c.sent, h, u);
    var p := Packet(v, h.reigns[u].leader, VoteReply(u, true));
    if v != h.reigns[u].leader {
      assert PacketInv(n, c.nodes, h, p);
    }
  }

  lemma PledgesStep(n: nat, c: Cluster, h: History, i: nat, s': Server, out: seq<Packet>, h': History)
    requires Move(n, c, h, i, s', out, h') && Inv(n, After(c, i, s', out), h')
    requires Pledges(c, h) && NewReignPledged(c, h, h')
    ensures Pledges(After(c, i, s', out), h')
  {
    var c' := After(c, i, s', out);
    forall u: nat, v: nat, t: nat, j: nat
      ensures Pledged(c'.sent, h', u, v, t, j)
    {
      if u in h'.reigns && v in h'.reigns[u].quorum && t < u && Acked(c'.sent, h', v, t, j) && OwnTerm(h', t, j) {
        ElectorTerm(n, c', h', u, v);
        AckedBack(n, c, h, i, s', out, h', v, t, j);
        OwnTermBack(h, h', i, t, j);
        PledgeKept(c, h, h', i, u, v, t, j);
      }
    }
    PledgesFrom(c', h');
  }

  /** The promise to the leader of term `u` about one acknowledgement of an elector. */
  ghost predicate Pledged(sent: set<Packet>, h: History, u: nat, v: nat, t: nat, j: nat) {
    (u in h.reigns && v in h.reigns[u].quorum && t < u && Acked(sent, h, v, t, j) && OwnTerm(h, t, j)) ==>
      Kept(h, h.reigns[u].base, t, j, u - 1)
  }

  lemma PledgesFrom(c: Cluster, h: History)
    requires forall u: nat, v: nat, t: nat, j: nat :: Pledged(c.sent, h, u, v, t, j)
    ensures Pledges(c, h)
  {
    forall u: nat, v: nat, t: nat, j: nat | u in h.reigns && v in h.reigns[u].quorum && t < u
      && Acked(c.sent, h, v, t, j) && OwnTerm(h, t, j)
      ensures Kept(h, h.reigns[u].base, t, j, u - 1)
    {
      assert Pledged(c.sent, h, u, v, t, j);
    }
  }

  /** What an elector acknowledged before, the leader was elected with, also in the longer history. */
  lemma PledgeKept(c: Cluster, h: History, h': History, i: nat, u: nat, v: nat, t: nat, j: nat)
    requires Pledges(c, h) && NewReignPledged(c, h, h') && Extends(h, h', i)
    requires u in h'.reigns && v in h'.reigns[u].quorum && t < u && Acked(c.sent, h, v, t, j) && OwnTerm(h, t, j)
    ensures Kept(h', h'.reigns[u].base, t, j, u - 1)
  {
    if u in h.reigns {
      assert ReignExtends(h.reigns[u], h'.reigns[u], i);
    }
    assert Kept(h, h'.reigns[u].base, t, j, u - 1);
    KeptMono(h, h', i, h'.reigns[u].base, t, j, u - 1, u - 1);
  }
}
