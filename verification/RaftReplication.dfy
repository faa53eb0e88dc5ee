/**
 The replication steps: receiving append messages and their replies, taking client entries,
 and the periodic call.  Each keeps the cluster invariant on an arbitrary network.
 */
module RaftReplication {
  import opened Basics
  import opened RaftTypes
  import opened RaftOps
  import opened RaftNode
  import opened RaftCluster
  import opened RaftFrame
  import opened RaftElection

  // ---- the entry loops ----

  /** Entry `j` of the message is in the log with its term. */
  ghost predicate Present(log: Log, prev: nat, entries: seq<Entry>, j: nat) {
    j < |entries| && prev + j < |log| && log[prev + j].term == entries[j].term
  }

  /** `MatchLen` counts the leading entries that are present, and stops at the first missing or
      conflicting one. */
  lemma {:induction false} MatchLenFacts(log: Log, prev: nat, entries: seq<Entry>, i: nat)
    requires i <= |entries|
    ensures forall j: nat :: i <= j < MatchLen(log, prev, entries, i) ==> Present(log, prev, entries, j)
    ensures !Present(log, prev, entries, MatchLen(log, prev, entries, i))
    decreases |entries| - i
  {
    if Present(log, prev, entries, i) {
      MatchLenFacts(log, prev, entries, i + 1);
    }
  }

  lemma LastMatches(log: Log, prev: nat, entries: seq<Entry>, k: nat)
    requires k == MatchLen(log, prev, entries, 0)
    ensures k > 0 ==> Present(log, prev, entries, k - 1)
  {
    MatchLenFacts(log, prev, entries, 0);
  }

  lemma {:induction false} AppendableAll(entries: seq<Entry>, i: nat)
    requires i <= |entries| && forall j :: i <= j < |entries| ==> entries[j].id != 0
    ensures AppendableLen(entries, i) == |entries|
    decreases |entries| - i
  {
    if i < |entries| {
      AppendableAll(entries, i + 1);
    }
  }

  lemma PreviousAgrees(h: History, r: Reign, log: Log, m: Msg)
    requires m.Append? && AppendInv(r, m.prevIdx, m.prevTerm, m.commit, m.entries)
    requires LogWf(h, log) && LogWf(h, r.log) && m.prevIdx <= |log|
    requires m.prevIdx > 0 ==> log[m.prevIdx - 1].term == m.prevTerm
    ensures log[..m.prevIdx] == r.log[..m.prevIdx]
  {
    if m.prevIdx > 0 {
      WfAgree(h, log, r.log, m.prevIdx - 1);
    }
  }

  /** The log agrees with the leader's as far as entries of the message are present. */
  lemma PresentAgrees(h: History, r: Reign, log: Log, m: Msg, j: nat)
    requires m.Append? && AppendInv(r, m.prevIdx, m.prevTerm, m.commit, m.entries)
    requires LogWf(h, log) && LogWf(h, r.log) && Present(log, m.prevIdx, m.entries, j)
    ensures m.prevIdx + j < |log| && log[..m.prevIdx + j + 1] == r.log[..m.prevIdx + j + 1]
  {
    assert m.entries[j] == r.log[m.prevIdx + j];
    WfAgree(h, log, r.log, m.prevIdx + j);
  }

  lemma PrefixAgrees(h: History, r: Reign, log: Log, m: Msg, k: nat)
    requires m.Append? && AppendInv(r, m.prevIdx, m.prevTerm, m.commit, m.entries)
    requires LogWf(h, log) && LogWf(h, r.log) && m.prevIdx <= |log|
    requires m.prevIdx > 0 ==> log[m.prevIdx - 1].term == m.prevTerm
    requires k > 0 ==> Present(log, m.prevIdx, m.entries, k - 1)
    ensures m.prevIdx + k <= |log| && log[..m.prevIdx + k] == r.log[..m.prevIdx + k]
  {
    if k == 0 {
      PreviousAgrees(h, r, log, m);
    } else {
      PresentAgrees(h, r, log, m, k - 1);
    }
  }

  /** The log agrees with the leader's up to the previous entry and to all matching ones. */
  lemma MatchedPrefix(h: History, r: Reign, log: Log, m: Msg, k: nat)
    requires m.Append? && AppendInv(r, m.prevIdx, m.prevTerm, m.commit, m.entries)
    requires LogWf(h, log) && LogWf(h, r.log) && m.prevIdx <= |log|
    requires m.prevIdx > 0 ==> log[m.prevIdx - 1].term == m.prevTerm
    requires k == MatchLen(log, m.prevIdx, m.entries, 0)
    ensures m.prevIdx + k <= |log| && log[..m.prevIdx + k] == r.log[..m.prevIdx + k]
  {
    LastMatches(log, m.prevIdx, m.entries, k);
    PrefixAgrees(h, r, log, m, k);
  }

  /** The log after the entry loops. */
  function Merged(log: Log, m: Msg): (r: Log)
    requires m.Append? && 0 <= m.prevIdx <= |log|
  {
    var k := MatchLen(log, m.prevIdx, m.entries, 0);
    (if k < |m.entries| && m.prevIdx + k < |log| then log[..m.prevIdx + k] else log) + m.entries[k..]
  }

  lemma MergedIsLeaders(h: History, r: Reign, log: Log, m: Msg)
    requires m.Append? && AppendInv(r, m.prevIdx, m.prevTerm, m.commit, m.entries)
    requires LogWf(h, log) && LogWf(h, r.log) && m.prevIdx <= |log|
    requires m.prevIdx > 0 ==> log[m.prevIdx - 1].term == m.prevTerm
    ensures var end := m.prevIdx + |m.entries|;
            && end <= |Merged(log, m)| && Merged(log, m)[..end] == r.log[..end]
            && (Merged(log, m) == r.log[..end] || Merged(log, m) == log)
  {
    var k := MatchLen(log, m.prevIdx, m.entries, 0);
    var end := m.prevIdx + |m.entries|;
    MatchedPrefix(h, r, log, m, k);
    MatchLenFacts(log, m.prevIdx, m.entries, 0);
    if k < |m.entries| {
      assert log[..m.prevIdx + k] + m.entries[k..] == r.log[..end];
      if m.prevIdx + k >= |log| {
        assert log[..m.prevIdx + k] == log;
      }
    } else {
      assert Merged(log, m) == log;
    }
  }

  /** What `raft_recv_appendentries` does to the log and the commit index, given that the
      message is a stretch of the leader's log `r.log`. */
  ghost predicate AppendOutcome(r: Reign, s: Server, m: Msg, s': Server, reply: Msg)
    requires m.Append? && 0 <= m.prevIdx
  {
    var end := m.prevIdx + |m.entries|;
    && s'.role == s.role && s'.term == s.term && s'.vote == s.vote && s'.id == s.id && s'.peers == s.peers
    && reply.AppendReply? && reply.term == s.term
    && if reply.success then
         && reply.currentIdx == end <= |s'.log| && end <= |r.log| && s'.log[..end] == r.log[..end]
         && (s'.log == r.log[..end] || s'.log == s.log)
         && s'.commit == Max(s.commit, Min(|s'.log|, m.commit))
       else
         && s'.commit == s.commit
         && (s'.log == s.log
             || (0 < m.prevIdx <= |s.log| && m.prevIdx <= |r.log| && s'.log == s.log[..m.prevIdx - 1]
                 && s.log[m.prevIdx - 1].term != r.log[m.prevIdx - 1].term))
  }

  /** Committed entries that the leader also has, and that the message reaches, are safe. */
  ghost predicate CommitCovered(r: Reign, s: Server, end: int) {
    s.commit <= end && s.commit <= |s.log| && s.commit <= |r.log| && s.log[..s.commit] == r.log[..s.commit]
  }

  ghost predicate IdsOk(log: Log) {
    forall k: nat :: k < |log| ==> log[k].id != 0
  }

  ghost predicate AppendResultOk(r: Reign, s: Server, src: nat, m: Msg, q: Result)
    requires m.Append? && 0 <= m.prevIdx
  {
    && (q.Halt? ==> q.why == CommittedCut && !CommitCovered(r, s, m.prevIdx + |m.entries|))
    && (q.Ok? ==> |q.out| == 1 && q.out[0].src == s.id && q.out[0].dst == src
                  && AppendOutcome(r, s, m, q.s, q.out[0].msg))
  }

  lemma MergeStep(h: History, r: Reign, s: Server, src: nat, m: Msg)
    requires m.Append? && AppendInv(r, m.prevIdx, m.prevTerm, m.commit, m.entries) && ServerOk(s)
    requires LogWf(h, s.log) && LogWf(h, r.log) && IdsOk(r.log) && m.prevIdx <= |s.log|
    requires m.prevIdx > 0 ==> s.log[m.prevIdx - 1].term == m.prevTerm
    requires m.entries == [] ==> m.prevIdx == 0 || |s.log| <= m.prevIdx + 1
    ensures AppendResultOk(r, s, src, m, MergeEntries(s, src, m))
  {
    MergedIsLeaders(h, r, s.log, m);
    if m.entries != [] {
      var k := MatchLen(s.log, m.prevIdx, m.entries, 0);
      MergeUnfolds(r, s, src, m);
      MatchLenFacts(s.log, m.prevIdx, m.entries, 0);
      if k < |m.entries| && m.prevIdx + k < |s.log| && m.prevIdx + k < s.commit {
        ConflictNotCovered(r, s, m, k);
      } else {
        AcceptStep(r, s, s.(log := Merged(s.log, m)), src, m);
      }
    } else {
      assert Merged(s.log, m) == s.log;
      AcceptStep(r, s, s, src, m);
    }
  }

  lemma MergeUnfolds(r: Reign, s: Server, src: nat, m: Msg)
    requires m.Append? && AppendInv(r, m.prevIdx, m.prevTerm, m.commit, m.entries)
    requires IdsOk(r.log) && m.prevIdx <= |s.log| && m.entries != []
    ensures var k := MatchLen(s.log, m.prevIdx, m.entries, 0);
            MergeEntries(s, src, m) ==
              if k < |m.entries| && m.prevIdx + k < |s.log| && m.prevIdx + k < s.commit then Halt(CommittedCut)
              else AcceptCommit(s.(log := Merged(s.log, m)), src, m)
  {
    var k := MatchLen(s.log, m.prevIdx, m.entries, 0);
    AppendableAll(m.entries, k);
    assert m.entries[k..|m.entries|] == m.entries[k..];
  }

  lemma ConflictNotCovered(r: Reign, s: Server, m: Msg, k: nat)
    requires m.Append? && AppendInv(r, m.prevIdx, m.prevTerm, m.commit, m.entries)
    requires k < |m.entries| && m.prevIdx + k < |s.log| && m.prevIdx + k < s.commit
    requires !Present(s.log, m.prevIdx, m.entries, k)
    ensures !CommitCovered(r, s, m.prevIdx + |m.entries|)
  {
    assert m.entries[k] == r.log[m.prevIdx + k];
  }

  lemma AcceptStep(r: Reign, s: Server, s1: Server, src: nat, m: Msg)
    requires m.Append? && AppendInv(r, m.prevIdx, m.prevTerm, m.commit, m.entries) && s.commit <= |s1.log|
    requires s1 == s.(log := s1.log)
    requires var end := m.prevIdx + |m.entries|;
             && end <= |s1.log| && s1.log[..end] == r.log[..end]
             && (s1.log == r.log[..end] || s1.log == s.log)
    ensures var q := AcceptCommit(s1, src, m);
            q.Ok? && AppendResultOk(r, s, src, m, q)
  {
  }

  lemma HeartbeatStep(h: History, r: Reign, s: Server, src: nat, m: Msg)
    requires m.Append? && AppendInv(r, m.prevIdx, m.prevTerm, m.commit, m.entries) && ServerOk(s)
    requires LogWf(h, s.log) && LogWf(h, r.log) && IdsOk(r.log) && m.prevIdx <= |s.log|
    requires m.prevIdx > 0 ==> s.log[m.prevIdx - 1].term == m.prevTerm
    ensures AppendResultOk(r, s, src, m, Heartbeat(s, src, m))
  {
    if m.entries == [] && 0 < m.prevIdx && m.prevIdx + 1 < |s.log| {
      PreviousAgrees(h, r, s.log, m);
      if s.commit <= m.prevIdx {
        AcceptStep(r, s, s.(log := s.log[..m.prevIdx]), src, m);
      }
    } else {
      MergeStep(h, r, s, src, m);
    }
  }

  lemma CheckPreviousStep(h: History, r: Reign, s: Server, src: nat, m: Msg)
    requires m.Append? && AppendInv(r, m.prevIdx, m.prevTerm, m.commit, m.entries) && ServerOk(s)
    requires LogWf(h, s.log) && LogWf(h, r.log) && IdsOk(r.log)
    ensures AppendResultOk(r, s, src, m, CheckPrevious(s, src, m))
  {
    if m.prevIdx <= |s.log| {
      if 0 < m.prevIdx && s.log[m.prevIdx - 1].term != m.prevTerm {
        assert m.prevTerm == r.log[m.prevIdx - 1].term;
      } else {
        HeartbeatStep(h, r, s, src, m);
      }
    }
  }

  /** A server that takes an append message of its own or a later term follows from then on:
      a leader never receives one of its own term. */
  lemma AdoptFollows(n: nat, c: Cluster, h: History, i: nat, src: nat, m: Msg)
    requires i < |c.nodes| == n && Inv(n, c, h) && m.Append? && Packet(src, i, m) in c.sent
    requires c.nodes[i].term <= m.term
    ensures var s1 := Adopt(c.nodes[i], m.term);
            && s1.role == Follower && s1.term == m.term && TermStep(c.nodes[i], s1)
            && s1 == c.nodes[i].(role := Follower, term := m.term, vote := s1.vote)
            && (c.nodes[i].role == Follower && c.nodes[i].term == m.term ==> s1 == c.nodes[i])
  {
    assert NodeInv(n, c.sent, h, i, c.nodes[i]);
    assert PacketInv(n, c.nodes, h, Packet(src, i, m));
  }

  /** The full effect of an append message on the receiver. */
  lemma AppendEffect(n: nat, c: Cluster, h: History, i: nat, src: nat, m: Msg)
    requires i < |c.nodes| == n && Inv(n, c, h) && m.Append? && Packet(src, i, m) in c.sent
    requires c.nodes[i].term <= m.term
    ensures m.term in h.reigns && h.reigns[m.term].leader == src
    ensures 0 <= m.prevIdx
    ensures AppendResultOk(h.reigns[m.term], Adopt(c.nodes[i], m.term), src, m, RecvAppend(c.nodes[i], src, m))
  {
    assert NodeInv(n, c.sent, h, i, c.nodes[i]);
    assert PacketInv(n, c.nodes, h, Packet(src, i, m));
    assert ReignInv(n, c.nodes, c.sent, h, m.term);
    CheckPreviousStep(h, h.reigns[m.term], Adopt(c.nodes[i], m.term), src, m);
  }

  lemma OutcomeLogWf(h: History, r: Reign, s: Server, m: Msg, s': Server, reply: Msg)
    requires m.Append? && 0 <= m.prevIdx && AppendOutcome(r, s, m, s', reply)
    requires LogWf(h, s.log) && LogWf(h, r.log) && TermsUpTo(s.log, s.term) && TermsUpTo(r.log, s.term)
    ensures NodeLog(h, s')
  {
    if reply.success {
      WfPrefix(h, r.log, m.prevIdx + |m.entries|);
    } else if s'.log != s.log {
      WfPrefix(h, s.log, m.prevIdx - 1);
    }
  }

  lemma AcceptedNode(n: nat, sent: set<Packet>, h: History, i: nat, s: Server, src: nat, m: Msg, s': Server, out: seq<Packet>)
    requires m.Append? && 0 <= m.prevIdx && m.term in h.reigns && h.reigns[m.term].leader == src
    requires i < n && src < n && src != i
    requires s.id == i && |s.peers| == n && s.role == Follower && s.term == m.term
    requires NodeLog(h, s) && ReignLog(h, h.reigns[m.term], m.term)
    requires |out| == 1 && out[0].src == i && out[0].dst == src && ServerOk(s')
    requires AppendOutcome(h.reigns[m.term], s, m, s', out[0].msg)
    ensures NodeInv(n, sent, h, i, s') && OutOk(n, h, s, s', out) && TermStep(s, s')
  {
    OutcomeLogWf(h, h.reigns[m.term], s, m, s', out[0].msg);
  }

  lemma AppendStep(n: nat, c: Cluster, h: History, i: nat, src: nat, m: Msg)
    requires i < |c.nodes| == n && Inv(n, c, h) && m.Append? && Packet(src, i, m) in c.sent
    ensures var r := RecvAppend(c.nodes[i], src, m);
            && (r.Halt? ==> r.why == CommittedCut)
            && (r.Ok? ==> Track(h, c.nodes[i], r.s) == h && Inv(n, After(c, i, r.s, r.out), h))
  {
    var s := c.nodes[i];
    assert NodeInv(n, c.sent, h, i, s);
    assert PacketInv(n, c.nodes, h, Packet(src, i, m));
    var r := RecvAppend(s, src, m);
    if m.term < s.term {
      LeadMono(n, c.sent, After(c, i, r.s, r.out).sent, s);
      QuietStep(n, c, h, i, s, r.out);
    } else {
      AppendEffect(n, c, h, i, src, m);
      if r.Ok? {
        AdoptFollows(n, c, h, i, src, m);
        RecvAppendOk(s, src, m);
        AcceptedStep(n, c, h, i, src, m, Adopt(s, m.term), r.s, r.out);
      }
    }
  }

  lemma AcceptedStep(n: nat, c: Cluster, h: History, i: nat, src: nat, m: Msg, s1: Server, s': Server, out: seq<Packet>)
    requires i < |c.nodes| == n && Inv(n, c, h) && m.Append? && 0 <= m.prevIdx
    requires src < n && src != i && m.term in h.reigns && h.reigns[m.term].leader == src
    requires s1 == c.nodes[i].(role := Follower, term := m.term, vote := s1.vote)
    requires s1.term == m.term >= c.nodes[i].term && TermStep(c.nodes[i], s1)
    requires |out| == 1 && out[0].src == i && out[0].dst == src && ServerOk(s')
    requires AppendOutcome(h.reigns[m.term], s1, m, s', out[0].msg)
    ensures Track(h, c.nodes[i], s') == h && Inv(n, After(c, i, s', out), h)
  {
    assert NodeInv(n, c.sent, h, i, c.nodes[i]);
    assert ReignInv(n, c.nodes, c.sent, h, m.term);
    AcceptedNode(n, After(c, i, s', out).sent, h, i, s1, src, m, s', out);
    QuietStep(n, c, h, i, s', out);
  }

  // ---- replies ----

  /** A leader that changes only its record of peer `src` and its commit index. */
  lemma LeaderUpdate(n: nat, c: Cluster, h: History, i: nat, src: nat, p: Peer, s': Server, out: seq<Packet>)
    requires i < |c.nodes| == n && Inv(n, c, h) && src < n && src != i
    requires c.nodes[i].role == Leader && |c.nodes[i].peers| == n && ServerOk(s')
    requires s' == c.nodes[i].(peers := c.nodes[i].peers[src := p], commit := s'.commit)
    requires p.next <= |s'.log| + 1 && p.matchIdx <= |s'.log|
    requires 0 < p.matchIdx ==> Replied(c.sent, src, i, s'.term, p.matchIdx)
    requires out == [] || out == [Packet(i, src, AppendFor(s', src))]
    ensures Track(h, c.nodes[i], s') == h && Inv(n, After(c, i, s', out), h)
  {
    var s := c.nodes[i];
    assert NodeInv(n, c.sent, h, i, s);
    assert ReignInv(n, c.nodes, c.sent, h, s.term);
    AppendForInv(h.reigns[s.term], s', src);
    assert NodeLead(n, c.sent, s');
    LeadMono(n, c.sent, After(c, i, s', out).sent, s');
    QuietStep(n, c, h, i, s', out);
  }

  /** The two assertions on a positive reply hold on every network: nothing beyond the log is
      acknowledged and every match index names an entry. */
  lemma AppendReplyStep(n: nat, c: Cluster, h: History, i: nat, src: nat, m: Msg)
    requires i < |c.nodes| == n && Inv(n, c, h) && m.AppendReply? && Packet(src, i, m) in c.sent
    requires src < |c.nodes[i].peers|
    ensures var r := RecvAppendReply(c.nodes[i], src, m);
            r.Ok? && Track(h, c.nodes[i], r.s) == h && Inv(n, After(c, i, r.s, r.out), h)
  {
    var s := c.nodes[i];
    assert NodeInv(n, c.sent, h, i, s);
    assert PacketInv(n, c.nodes, h, Packet(src, i, m));
    var r := RecvAppendReply(s, src, m);
    if s.role != Leader || s.term != m.term || (m.currentIdx != 0 && m.currentIdx <= s.peers[src].matchIdx) {
      StepDownNode(n, c.sent, c.sent, h, i, s, m.term);
      NoPackets(c, i, r.s);
      QuietStep(n, c, h, i, r.s, []);
    } else {
      RecvReplyOk(s, src, m);
      if m.success {
        assert Replied(c.sent, src, i, s.term, m.currentIdx);
        PositiveReply(n, c, h, i, src, m);
      }
      LeaderUpdate(n, c, h, i, src, r.s.peers[src], r.s, r.out);
    }
  }

  lemma PositiveReply(n: nat, c: Cluster, h: History, i: nat, src: nat, m: Msg)
    requires i < |c.nodes| == n && Inv(n, c, h) && m.AppendReply? && Packet(src, i, m) in c.sent
    requires src < |c.nodes[i].peers| && c.nodes[i].role == Leader && m.term == c.nodes[i].term && m.success
    requires m.currentIdx == 0 || c.nodes[i].peers[src].matchIdx < m.currentIdx
    ensures 0 <= m.currentIdx <= |c.nodes[i].log| && RecvAppendReply(c.nodes[i], src, m).Ok?
  {
    assert NodeInv(n, c.sent, h, i, c.nodes[i]);
    assert PacketInv(n, c.nodes, h, Packet(src, i, m));
  }

  // ---- client entries, periodic work ----

  /** A leader extends its log by an entry of its own term. */
  lemma ExtendReign(n: nat, c: Cluster, h: History, i: nat, e: Entry)
    requires i < |c.nodes| == n && Inv(n, c, h) && c.nodes[i].role == Leader
    requires e.term == c.nodes[i].term && e.id != 0
    ensures var s := c.nodes[i];
            var log' := s.log + [e];
            s.term in h.reigns &&
            var r' := h.reigns[s.term].(log := log');
            var h' := h.(reigns := h.reigns[s.term := r']);
            && Extends(h, h', i) && LogWf(h', log') && TermsUpTo(log', s.term)
            && ReignLog(h', r', s.term)
  {
    var s := c.nodes[i];
    assert NodeInv(n, c.sent, h, i, s);
    assert ReignInv(n, c.nodes, c.sent, h, s.term);
    var log' := s.log + [e];
    var r' := h.reigns[s.term].(log := log');
    var h' := h.(reigns := h.reigns[s.term := r']);
    assert Extends(h, h', i);
    WfMono(h, h', i, s.log);
    AppendedWf(h', s.log, e);
    AppendedReignLog(h, h', h.reigns[s.term], s.term, e);
  }

  lemma AppendedReignLog(h: History, h': History, r: Reign, t: nat, e: Entry)
    requires ReignLog(h, r, t) && e.term == t && e.id != 0 && LogWf(h', r.log + [e])
    ensures ReignLog(h', r.(log := r.log + [e]), t)
  {
  }

  lemma AppendedWf(h: History, log: Log, e: Entry)
    requires LogWf(h, log) && e.term in h.reigns && h.reigns[e.term].log == log + [e]
    ensures LogWf(h, log + [e])
  {
    forall k: nat | k < |log + [e]|
      ensures Origin(h, log + [e], k)
    {
      if k < |log| {
        assert Origin(h, log, k);
        assert (log + [e])[..k + 1] == log[..k + 1];
      }
    }
  }

  lemma EntryStep(n: nat, c: Cluster, h: History, i: nat, entryId: nat, data: int)
    requires i < |c.nodes| == n && Inv(n, c, h)
    ensures var r := RecvEntry(c.nodes[i], entryId, data);
            r.Ok? && Inv(n, After(c, i, r.s, r.out), Track(h, c.nodes[i], r.s))
  {
    var s := c.nodes[i];
    assert NodeInv(n, c.sent, h, i, s);
    var r := RecvEntry(s, entryId, data);
    RecvEntryOk(s, entryId, data);
    if s.role != Leader {
      NoPackets(c, i, s);
      QuietStep(n, c, h, i, s, []);
    } else if entryId == 0 {
      assert ReignInv(n, c.nodes, c.sent, h, s.term);
      LeaderOut(n, h, s, false, s);
      LeadMono(n, c.sent, After(c, i, r.s, r.out).sent, s);
      QuietStep(n, c, h, i, r.s, r.out);
    } else {
      ExtendReign(n, c, h, i, Entry(s.term, entryId, data));
      var s1 := s.(log := s.log + [Entry(s.term, entryId, data)]);
      var h' := h.(reigns := h.reigns[s.term := h.reigns[s.term].(log := s1.log)]);
      LeaderOut(n, h', s1, false, s);
      ExtendedStep(n, c, h, h', i, s1, r.s, r.out);
    }
  }

  lemma ExtendedStep(n: nat, c: Cluster, h: History, h': History, i: nat, s1: Server, s': Server, out: seq<Packet>)
    requires i < |c.nodes| == n && Inv(n, c, h) && c.nodes[i].role == Leader && ServerOk(s')
    requires s1 == c.nodes[i].(log := s1.log) && s' == s1.(commit := s'.commit) && c.nodes[i].log <= s1.log
    requires s1.term in h.reigns && h' == h.(reigns := h.reigns[s1.term := h.reigns[s1.term].(log := s1.log)])
    requires Extends(h, h', i) && NodeLog(h', s1) && ReignLog(h', h'.reigns[s1.term], s1.term)
    requires OutOk(n, h', c.nodes[i], s1, out) && forall p :: p in out ==> p.msg.Append?
    ensures Inv(n, After(c, i, s', out), h')
  {
    var s := c.nodes[i];
    var c' := After(c, i, s', out);
    assert NodeInv(n, c.sent, h, i, s);
    assert ReignInv(n, c.nodes, c.sent, h, s.term);
    assert NodeLead(n, c.sent, s');
    LeadMono(n, c.sent, c'.sent, s');
    ReignVotesGrow(n, c.sent, out, h.reigns[s.term], s.term);
    assert ReignInv(n, c'.nodes, c'.sent, h', s.term);
    Assemble(n, c, h, h', i, s', out);
  }

  lemma PeriodicStep(n: nat, c: Cluster, h: History, i: nat, fired: bool)
    requires i < |c.nodes| == n && Inv(n, c, h)
    ensures var r := RunPeriodic(c.nodes[i], fired);
            r.Ok? && Inv(n, After(c, i, r.s, r.out), Track(h, c.nodes[i], r.s))
  {
    var s := c.nodes[i];
    var r := RunPeriodic(s, fired);
    assert NodeInv(n, c.sent, h, i, s);
    RunPeriodicOk(s, fired);
    if s.role != Leader && fired && 1 < n {
      CandidateStep(n, c, h, i, r.s);
    } else {
      if s.role == Leader {
        assert ReignInv(n, c.nodes, c.sent, h, s.term);
        LeaderOut(n, h, s, true, s);
      }
      LeadMono(n, c.sent, After(c, i, r.s, r.out).sent, s);
      AppliedNode(n, After(c, i, r.s, r.out).sent, h, i, s, r.s);
      QuietStep(n, c, h, i, r.s, r.out);
    }
  }

  lemma ApplyStep(n: nat, c: Cluster, h: History, i: nat)
    requires i < |c.nodes| == n && Inv(n, c, h)
    ensures var s' := ApplyAll(c.nodes[i]);
            Track(h, c.nodes[i], s') == h && Inv(n, After(c, i, s', []), h)
  {
    var s := c.nodes[i];
    assert NodeInv(n, c.sent, h, i, s);
    ApplyAllOk(s);
    NoPackets(c, i, ApplyAll(s));
    AppliedNode(n, c.sent, h, i, s, ApplyAll(s));
    QuietStep(n, c, h, i, ApplyAll(s), []);
  }
}
