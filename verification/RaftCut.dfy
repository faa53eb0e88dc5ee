/**
 When an append message takes away something its receiver holds of the sender's log, and when it
 makes the receiver's assertion fail: exactly at the branch that deletes beyond an append without
 entries.  Appends with entries never do, however late they arrive.
 */
module RaftCut {
  import opened RaftTypes
  import opened RaftOps
  import opened RaftCluster
  import opened RaftReplication
  import opened RaftCommit

  /** The guard of the deleting branch. */
  predicate Deletes(s: Server, m: Msg)
    requires m.Append?
  {
    m.entries == [] && 0 < m.prevIdx && m.prevIdx + 1 < |s.log|
  }

  /** The message ends within the part of the log that agrees with the sender's. */
  ghost predicate Within(r: Reign, s: Server, m: Msg, j: nat)
    requires m.Append?
  {
    AppendInv(r, m.prevIdx, m.prevTerm, m.commit, m.entries) && Has(s.log, r.log, j) && m.prevIdx + |m.entries| <= j
  }

  lemma AllPresent(r: Reign, s: Server, m: Msg, j: nat)
    requires m.Append? && Within(r, s, m, j)
    ensures MatchLen(s.log, m.prevIdx, m.entries, 0) == |m.entries|
    ensures m.prevIdx > 0 ==> s.log[m.prevIdx - 1].term == m.prevTerm
  {
    assert forall x :: 0 <= x < j ==> s.log[x] == s.log[..j][x] == r.log[..j][x] == r.log[x];
    forall x: nat | x < |m.entries|
      ensures Present(s.log, m.prevIdx, m.entries, x)
    {
      assert m.entries[x] == r.log[m.prevIdx + x];
    }
    MatchLenFacts(s.log, m.prevIdx, m.entries, 0);
  }

  lemma MergeWithin(r: Reign, s: Server, src: nat, m: Msg, j: nat)
    requires m.Append? && Within(r, s, m, j)
    ensures MergeEntries(s, src, m) == AcceptCommit(s, src, m)
  {
    AllPresent(r, s, m, j);
    assert s.log + m.entries[|m.entries|..|m.entries|] == s.log;
  }

  lemma AcceptedWithin(r: Reign, s: Server, src: nat, m: Msg, j: nat)
    requires m.Append? && Within(r, s, m, j) && s.commit <= |s.log|
    ensures AcceptCommit(s, src, m).Ok? && AcceptCommit(s, src, m).s.log == s.log
  {
  }

  /** A message that ends within the agreed part either deletes, or leaves the log alone. */
  lemma CheckWithin(r: Reign, s: Server, src: nat, m: Msg, j: nat)
    requires m.Append? && Within(r, s, m, j) && s.commit <= |s.log|
    ensures var q := CheckPrevious(s, src, m);
            if Deletes(s, m) then
              (q.Halt? <==> m.prevIdx + 1 <= s.commit) && (q.Ok? ==> q.s.log == s.log[..m.prevIdx])
            else q.Ok? && q.s.log == s.log
  {
    AllPresent(r, s, m, j);
    if Deletes(s, m) {
      var s1 := s.(log := s.log[..m.prevIdx]);
      if m.prevIdx + 1 > s.commit {
        assert MergeEntries(s1, src, m) == AcceptCommit(s1, src, m);
        assert s1.commit <= |s1.log|;
      }
    } else {
      MergeWithin(r, s, src, m, j);
      AcceptedWithin(r, s, src, m, j);
    }
  }

  /** What the receiver holds of the sender's log survives the message if and only if the message does
      not delete before the end of it. */
  lemma KeepsExactly(n: nat, c: Cluster, h: History, i: nat, src: nat, m: Msg, j: nat)
    requires i < |c.nodes| == n && Inv(n, c, h) && m.Append? && Packet(src, i, m) in c.sent
    requires c.nodes[i].term <= m.term && RecvAppend(c.nodes[i], src, m).Ok?
    requires m.term in h.reigns && Has(c.nodes[i].log, h.reigns[m.term].log, j)
    ensures Has(RecvAppend(c.nodes[i], src, m).s.log, h.reigns[m.term].log, j) <==>
              !(Deletes(c.nodes[i], m) && m.prevIdx < j)
  {
    var r := h.reigns[m.term];
    var s := Adopt(c.nodes[i], m.term);
    var q := RecvAppend(c.nodes[i], src, m);
    assert NodeInv(n, c.sent, h, i, c.nodes[i]);
    assert PacketInv(n, c.nodes, h, Packet(src, i, m));
    if m.prevIdx + |m.entries| < j {
      CheckWithin(r, s, src, m, j);
    } else {
      AppendEffect(n, c, h, i, src, m);
      OutcomeKeeps(r, s, m, q.s, q.out[0].msg, r.log, j);
    }
  }

  /** An append message makes the assertion fail if and only if it would delete a committed entry. */
  lemma HaltsExactly(n: nat, c: Cluster, h: History, i: nat, src: nat, m: Msg)
    requires i < |c.nodes| == n && Inv(n, c, h) && m.Append? && Packet(src, i, m) in c.sent
    requires c.nodes[i].term <= m.term
    requires m.term in h.reigns && Has(c.nodes[i].log, h.reigns[m.term].log, c.nodes[i].commit)
    ensures RecvAppend(c.nodes[i], src, m).Halt? <==> Deletes(c.nodes[i], m) && m.prevIdx < c.nodes[i].commit
  {
    var r := h.reigns[m.term];
    var s := Adopt(c.nodes[i], m.term);
    assert NodeInv(n, c.sent, h, i, c.nodes[i]);
    assert PacketInv(n, c.nodes, h, Packet(src, i, m));
    if m.prevIdx + |m.entries| < s.commit {
      CheckWithin(r, s, src, m, s.commit);
    } else {
      AppendEffect(n, c, h, i, src, m);
      assert CommitCovered(r, s, m.prevIdx + |m.entries|);
    }
  }

  lemma OutcomeKeeps(r: Reign, s: Server, m: Msg, s': Server, reply: Msg, ref: Log, j: nat)
    requires m.Append? && 0 <= m.prevIdx && AppendOutcome(r, s, m, s', reply)
    requires Has(s.log, ref, j) && Has(r.log, ref, j) && j <= m.prevIdx + |m.entries|
    ensures Has(s'.log, ref, j)
  {
    var end := m.prevIdx + |m.entries|;
    if reply.success {
      assert s'.log[..j] == s'.log[..end][..j];
      assert r.log[..j] == r.log[..end][..j];
    } else if s'.log != s.log {
      forall x | 0 <= x < j
        ensures s.log[x] == r.log[x]
      {
        assert s.log[..j][x] == r.log[..j][x];
      }
      assert s'.log[..j] == s.log[..j];
    }
  }

  // ---- events that take back an acknowledgement ----

  /** Delivering `m` to `i` deletes something that `i` acknowledged to the sender in the same term. */
  ghost predicate CutsAt(sent: set<Packet>, i: nat, s: Server, m: Msg)
    requires m.Append?
  {
    Deletes(s, m) && s.term <= m.term && RepliedUpTo(sent, i, m.term, m.prevIdx + 1)
  }

  ghost predicate CutsAcked(c: Cluster, e: Event) {
    Enabled(c, e) && e.input.FromPeer? && e.input.msg.Append? && CutsAt(c.sent, e.node, c.nodes[e.node], e.input.msg)
  }
}
