/**
 The commit index.  A leader advances it only over entries that a majority holds under an entry
 of its own term; a follower only over entries a leader had already committed.  An assertion of
 the server fails exactly when a message cuts a committed entry that was acknowledged to its sender.
 */
module RaftCommitRule {
  import opened RaftTypes
  import opened RaftOps
  import opened RaftNode
  import opened RaftCluster
  import opened RaftFrame
  import opened RaftElection
  import opened RaftReplication
  import opened RaftSafety
  import opened RaftCommit
  import opened RaftCut
  import opened RaftCompleteness

  // ---- the leader's rule ----

  /** Some counted peer has the least match index. */
  lemma {:induction false} LeastMatch(peers: seq<Peer>, a: set<nat>) returns (least: nat)
    requires a != {} && forall i :: i in a ==> i < |peers|
    ensures least in a && forall i :: i in a ==> peers[least].matchIdx <= peers[i].matchIdx
    decreases |a|
  {
    least :| least in a;
    if a != {least} {
      var rest := a - {least};
      assert rest != {};
      var other := LeastMatch(peers, rest);
      if peers[other].matchIdx < peers[least].matchIdx {
        least := other;
      }
    }
  }

  /** The peers counted for `point` and the leader have all acknowledged some entry at or after
      `point` that the leader wrote in its own term: although the code looks at the term of each
      peer's last match, the least of those matches is the entry required. */
  lemma LeaderRule(n: nat, sent: set<Packet>, h: History, s: Server, point: int)
    returns (j: nat)
    requires s.role == Leader && 1 < n && NodeInv(n, sent, h, s.id, s) && s.id < n
    requires n / 2 < 1 + |Ackers(s, point)|
    ensures point <= j && Committed(n, sent, h, s.term, j)
    ensures Quorum(n, sent, h, s.term, j, Ackers(s, point) + {s.id}) && n < 2 * |Ackers(s, point) + {s.id}|
  {
    var a := Ackers(s, point);
    assert a != {};
    var least := LeastMatch(s.peers, a);
    j := s.peers[least].matchIdx;
    var q := a + {s.id};
    assert s.id !in a;
    assert |q| == |a| + 1;
    forall v | v in q
      ensures v < n && Acked(sent, h, v, s.term, j)
    {
      if v != s.id {
        AckerAcked(n, sent, h, s, v, j);
      }
    }
    assert Quorum(n, sent, h, s.term, j, q);
  }

  lemma AckerAcked(n: nat, sent: set<Packet>, h: History, s: Server, v: nat, j: nat)
    requires s.role == Leader && NodeInv(n, sent, h, s.id, s) && v < n && v != s.id
    requires 0 < j <= s.peers[v].matchIdx
    ensures Acked(sent, h, v, s.term, j)
  {
    var idx := s.peers[v].matchIdx;
    assert Replied(sent, v, s.id, s.term, idx);
    var p :| p in sent && p.src == v && p.dst == s.id && p.msg.AppendReply?
             && p.msg.success && p.msg.term == s.term && p.msg.currentIdx == idx;
    assert RepliedUpTo(sent, v, s.term, j);
  }

  /** When a reply raises the commit index, the new index is committed. */
  lemma ReplyCommits(n: nat, c: Cluster, h: History, i: nat, src: nat, m: Msg) returns (j: nat)
    requires i < |c.nodes| == n && Inv(n, c, h) && m.AppendReply? && Packet(src, i, m) in c.sent
    requires src < |c.nodes[i].peers| && RecvAppendReply(c.nodes[i], src, m).Ok?
    requires c.nodes[i].commit < RecvAppendReply(c.nodes[i], src, m).s.commit
    ensures var s' := RecvAppendReply(c.nodes[i], src, m).s;
            && s'.role == Leader && s'.commit <= j
            && Committed(n, After(c, i, s', RecvAppendReply(c.nodes[i], src, m).out).sent, h, s'.term, j)
            && Inv(n, After(c, i, s', RecvAppendReply(c.nodes[i], src, m).out), h)
  {
    var r := RecvAppendReply(c.nodes[i], src, m);
    AppendReplyStep(n, c, h, i, src, m);
    var c' := After(c, i, r.s, r.out);
    assert NodeInv(n, c'.sent, h, i, r.s);
    ReplyRaises(c.nodes[i], src, m);
    j := LeaderRule(n, c'.sent, h, r.s, r.s.commit);
  }

  lemma ReplyRaises(s: Server, src: nat, m: Msg)
    requires m.AppendReply? && src < |s.peers| && RecvAppendReply(s, src, m).Ok?
    requires s.commit < RecvAppendReply(s, src, m).s.commit
    ensures var s' := RecvAppendReply(s, src, m).s;
            s'.role == Leader && |s'.peers| / 2 < 1 + |Ackers(s', s'.commit)|
  {
    var s1 := s.(peers := s.peers[src := s.peers[src].(next := Clamp(m.currentIdx + 1), matchIdx := m.currentIdx)]);
    assert Ackers(s1, m.currentIdx) == Ackers(s1.(commit := m.currentIdx), m.currentIdx);
  }

  /** The leader's commit rule, on any network: whenever a reply moves a leader's commit index, some
      entry at or after it is of the leader's term and was acknowledged, in that term, by a majority
      that includes the leader. */
  lemma LeaderCommitRule(n: nat, events: seq<Event>, e: Event) returns (j: nat, q: set<nat>)
    requires Enabled(Run(n, events), e) && e.input.FromPeer? && e.input.msg.AppendReply?
    requires Handle(Run(n, events).nodes[e.node], e.input).Ok?
    requires Run(n, events).nodes[e.node].commit < Handle(Run(n, events).nodes[e.node], e.input).s.commit
    ensures var s' := Handle(Run(n, events).nodes[e.node], e.input).s;
            && s'.role == Leader && s'.commit <= j <= |s'.log| && s'.log[j - 1].term == s'.term
            && e.node in q && n < 2 * |q|
            && forall v :: v in q && v != e.node ==>
                 v < n && RepliedUpTo(Step(Run(n, events), e).sent, v, s'.term, j)
  {
    RunInv(n, events);
    j, q := CommitRuleAt(n, Run(n, events), RunHistory(n, events), e);
  }

  lemma CommitRuleAt(n: nat, c: Cluster, h: History, e: Event) returns (j: nat, q: set<nat>)
    requires Inv(n, c, h) && Enabled(c, e) && e.input.FromPeer? && e.input.msg.AppendReply?
    requires Handle(c.nodes[e.node], e.input).Ok?
    requires c.nodes[e.node].commit < Handle(c.nodes[e.node], e.input).s.commit
    ensures var s' := Handle(c.nodes[e.node], e.input).s;
            && s'.role == Leader && s'.commit <= j <= |s'.log| && s'.log[j - 1].term == s'.term
            && e.node in q && n < 2 * |q|
            && forall v :: v in q && v != e.node ==> v < n && RepliedUpTo(Step(c, e).sent, v, s'.term, j)
  {
    var r := RecvAppendReply(c.nodes[e.node], e.input.src, e.input.msg);
    AppendReplyStep(n, c, h, e.node, e.input.src, e.input.msg);
    var c' := After(c, e.node, r.s, r.out);
    assert NodeInv(n, c'.sent, h, e.node, r.s);
    ReplyRaises(c.nodes[e.node], e.input.src, e.input.msg);
    j := LeaderRule(n, c'.sent, h, r.s, r.s.commit);
    q := Ackers(r.s, r.s.commit) + {e.node};
    forall v | v in q && v != e.node
      ensures v < n && RepliedUpTo(c'.sent, v, r.s.term, j)
    {
      assert Acked(c'.sent, h, v, r.s.term, j);
    }
  }

  // ---- commit indices are backed by committed entries ----

  /** The first `k` entries of `log` are committed by a leader of term `t` at most `top`. */
  ghost predicate Backed(n: nat, sent: set<Packet>, h: History, log: Log, k: nat, t: nat, j: nat, top: int) {
    Committed(n, sent, h, t, j) && k <= j && t <= top && Has(log, h.reigns[t].log, k)
  }

  ghost predicate NodeCommit(n: nat, sent: set<Packet>, h: History, s: Server) {
    s.commit == 0
    || exists t: nat, j: nat ::
         Backed(n, sent, h, s.log, s.commit, t, j, s.term) && (t == s.term ==> Acked(sent, h, s.id, t, s.commit))
  }

  ghost predicate MsgCommit(n: nat, sent: set<Packet>, h: History, m: Msg)
    requires m.Append?
  {
    m.commit <= 0
    || (m.term in h.reigns
        && exists t: nat, j: nat :: Backed(n, sent, h, h.reigns[m.term].log, m.commit, t, j, m.term))
  }

  ghost predicate CommitsBacked(n: nat, c: Cluster, h: History) {
    && (forall v: nat :: v < n && v < |c.nodes| ==> NodeCommit(n, c.sent, h, c.nodes[v]))
    && (forall p :: p in c.sent && p.msg.Append? ==> MsgCommit(n, c.sent, h, p.msg))
  }

  lemma AckedMono(sent: set<Packet>, sent': set<Packet>, h: History, h': History, i: nat, v: nat, t: nat, j: nat)
    requires sent <= sent' && Extends(h, h', i) && Acked(sent, h, v, t, j)
    ensures Acked(sent', h', v, t, j)
  {
    assert ReignExtends(h.reigns[t], h'.reigns[t], i);
    if v != h.reigns[t].leader {
      var p :| p in sent && p.src == v && p.msg.AppendReply? && p.msg.success
               && p.msg.term == t && j <= p.msg.currentIdx;
      assert p in sent';
    }
  }

  lemma CommittedMono(n: nat, sent: set<Packet>, sent': set<Packet>, h: History, h': History, i: nat, t: nat, j: nat)
    requires sent <= sent' && Extends(h, h', i) && Committed(n, sent, h, t, j)
    ensures Committed(n, sent', h', t, j)
  {
    assert ReignExtends(h.reigns[t], h'.reigns[t], i);
    var q: set<nat> :| n < 2 * |q| && Quorum(n, sent, h, t, j, q);
    forall v | v in q
      ensures v < n && Acked(sent', h', v, t, j)
    {
      AckedMono(sent, sent', h, h', i, v, t, j);
    }
    assert Quorum(n, sent', h', t, j, q);
  }

  lemma BackedMono(n: nat, sent: set<Packet>, sent': set<Packet>, h: History, h': History, i: nat, log: Log, log': Log, k: nat, t: nat, j: nat, top: int, top': int)
    requires sent <= sent' && Extends(h, h', i) && Backed(n, sent, h, log, k, t, j, top)
    requires top <= top' && Has(log', log, k)
    ensures Backed(n, sent', h', log', k, t, j, top')
  {
    CommittedMono(n, sent, sent', h, h', i, t, j);
    assert ReignExtends(h.reigns[t], h'.reigns[t], i);
    assert h'.reigns[t].log[..k] == h.reigns[t].log[..k];
  }

  /** A server whose commit index did not move, in a state that keeps its committed prefix. */
  lemma NodeCommitMono(n: nat, sent: set<Packet>, sent': set<Packet>, h: History, h': History, i: nat, s: Server, s': Server)
    requires sent <= sent' && Extends(h, h', i) && NodeCommit(n, sent, h, s)
    requires s'.commit == s.commit && KeepsCommitted(s, s')
    ensures NodeCommit(n, sent', h', s')
  {
    if s.commit != 0 {
      var t: nat, j: nat :| Backed(n, sent, h, s.log, s.commit, t, j, s.term) && (t == s.term ==> Acked(sent, h, s.id, t, s.commit));
      BackedMono(n, sent, sent', h, h', i, s.log, s'.log, s.commit, t, j, s.term, s'.term);
      if t == s'.term {
        AckedMono(sent, sent', h, h', i, s.id, t, s.commit);
      }
    }
  }

  lemma MsgCommitMono(n: nat, sent: set<Packet>, sent': set<Packet>, h: History, h': History, i: nat, m: Msg)
    requires m.Append? && sent <= sent' && Extends(h, h', i) && MsgCommit(n, sent, h, m)
    ensures MsgCommit(n, sent', h', m)
  {
    if 0 < m.commit {
      var t: nat, j: nat :| Backed(n, sent, h, h.reigns[m.term].log, m.commit, t, j, m.term);
      var r, r' := h.reigns[m.term], h'.reigns[m.term];
      assert ReignExtends(r, r', i);
      assert r'.log[..m.commit] == r.log[..m.commit];
      BackedMono(n, sent, sent', h, h', i, r.log, r'.log, m.commit, t, j, m.term, m.term);
    }
  }

  // ---- one step ----

  /** Which inputs can move the commit index. */
  lemma CommitMoves(s: Server, i: Input)
    requires ServerOk(s) && (i.FromPeer? ==> i.src < |s.peers|) && Handle(s, i).Ok?
    requires Handle(s, i).s.commit != s.commit
    ensures (i.FromPeer? && (i.msg.Append? || i.msg.AppendReply?)) || (i.ClientEntry? && s.role == Leader && |s.peers| == 1)
  {
    if i == ApplyCommitted {
      ApplyAllOk(s);
    }
  }

  lemma StepNodeCommit(n: nat, c: Cluster, h: History, e: Event)
    requires Inv(n, c, h) && CommitsBacked(n, c, h) && Enabled(c, e) && Handle(c.nodes[e.node], e.input).Ok?
    requires Extends(h, TrackStep(c, h, e), e.node)
    ensures NodeCommit(n, Step(c, e).sent, TrackStep(c, h, e), Handle(c.nodes[e.node], e.input).s)
  {
    var s := c.nodes[e.node];
    var s' := Handle(s, e.input).s;
    assert NodeInv(n, c.sent, h, e.node, s);
    HandleOk(s, e.input);
    if s'.commit == s.commit {
      NodeCommitMono(n, c.sent, Step(c, e).sent, h, TrackStep(c, h, e), e.node, s, s');
    } else {
      CommitMoves(s, e.input);
      if e.input.msg.Append? {
        FollowerCommit(n, c, h, e.node, e.input.src, e.input.msg);
      } else {
        LeaderCommit(n, c, h, e.node, e.input.src, e.input.msg);
      }
    }
  }

  lemma LeaderCommit(n: nat, c: Cluster, h: History, i: nat, src: nat, m: Msg)
    requires i < |c.nodes| == n && Inv(n, c, h) && m.AppendReply? && Packet(src, i, m) in c.sent
    requires src < |c.nodes[i].peers| && RecvAppendReply(c.nodes[i], src, m).Ok?
    requires c.nodes[i].commit < RecvAppendReply(c.nodes[i], src, m).s.commit
    ensures var r := RecvAppendReply(c.nodes[i], src, m);
            Track(h, c.nodes[i], r.s) == h && NodeCommit(n, After(c, i, r.s, r.out).sent, h, r.s)
  {
    var r := RecvAppendReply(c.nodes[i], src, m);
    AppendReplyStep(n, c, h, i, src, m);
    var c' := After(c, i, r.s, r.out);
    var j := ReplyCommits(n, c, h, i, src, m);
    assert NodeInv(n, c'.sent, h, i, r.s);
    assert Backed(n, c'.sent, h, r.s.log, r.s.commit, r.s.term, j, r.s.term);
  }

  lemma FollowerCommit(n: nat, c: Cluster, h: History, i: nat, src: nat, m: Msg)
    requires i < |c.nodes| == n && Inv(n, c, h) && CommitsBacked(n, c, h) && m.Append? && Packet(src, i, m) in c.sent
    requires RecvAppend(c.nodes[i], src, m).Ok? && RecvAppend(c.nodes[i], src, m).s.commit != c.nodes[i].commit
    ensures var r := RecvAppend(c.nodes[i], src, m);
            Track(h, c.nodes[i], r.s) == h && NodeCommit(n, After(c, i, r.s, r.out).sent, h, r.s)
  {
    var r := RecvAppend(c.nodes[i], src, m);
    assert NodeInv(n, c.sent, h, i, c.nodes[i]);
    AppendStep(n, c, h, i, src, m);
    AdoptFollows(n, c, h, i, src, m);
    AppendEffect(n, c, h, i, src, m);
    RecvAppendOk(c.nodes[i], src, m);
    assert MsgCommit(n, c.sent, h, m);
    assert PacketInv(n, c.nodes, h, Packet(src, i, m));
    FollowerBacked(n, c.sent, After(c, i, r.s, r.out).sent, h, Adopt(c.nodes[i], m.term), m, r.s, r.out);
  }

  lemma FollowerBacked(n: nat, sent: set<Packet>, sent': set<Packet>, h: History, s: Server, m: Msg, s': Server, out: seq<Packet>)
    requires m.Append? && m.term in h.reigns && s.term == m.term && MsgCommit(n, sent, h, m)
    requires AppendInv(h.reigns[m.term], m.prevIdx, m.prevTerm, m.commit, m.entries)
    requires |out| == 1 && out[0].src == s.id && AppendOutcome(h.reigns[m.term], s, m, s', out[0].msg)
    requires s.commit < s'.commit && sent <= sent' && out[0] in sent'
    ensures NodeCommit(n, sent', h, s')
  {
    var r := h.reigns[m.term];
    var end := m.prevIdx + |m.entries|;
    var t: nat, j: nat :| Backed(n, sent, h, r.log, m.commit, t, j, m.term);
    HasShorter(r.log, h.reigns[t].log, s'.commit, m.commit);
    HasShorter(s'.log, r.log, s'.commit, end);
    BackedMono(n, sent, sent', h, h, s.id, r.log, s'.log, s'.commit, t, j, m.term, s'.term);
    assert RepliedUpTo(sent', s.id, m.term, s'.commit);
  }

  lemma StepMsgCommit(n: nat, c: Cluster, h: History, e: Event, p: Packet)
    requires Inv(n, c, h) && Enabled(c, e) && Handle(c.nodes[e.node], e.input).Ok?
    requires Inv(n, Step(c, e), TrackStep(c, h, e))
    requires p in Handle(c.nodes[e.node], e.input).out && p.msg.Append?
    requires NodeCommit(n, Step(c, e).sent, TrackStep(c, h, e), Handle(c.nodes[e.node], e.input).s)
    ensures MsgCommit(n, Step(c, e).sent, TrackStep(c, h, e), p.msg)
  {
    var s' := Handle(c.nodes[e.node], e.input).s;
    AppendsReachTheEnd(n, c, h, e.node, e.input);
    assert Step(c, e).nodes[e.node] == s';
    assert NodeInv(n, Step(c, e).sent, TrackStep(c, h, e), e.node, s');
    SentCommit(n, Step(c, e).sent, TrackStep(c, h, e), s', p.msg);
  }

  lemma SentCommit(n: nat, sent: set<Packet>, h: History, s: Server, m: Msg)
    requires NodeInv(n, sent, h, s.id, s) && s.role == Leader && NodeCommit(n, sent, h, s)
    requires m.Append? && m.term == s.term && m.commit <= s.commit
    ensures MsgCommit(n, sent, h, m)
  {
    if 0 < m.commit {
      var t: nat, j: nat :| Backed(n, sent, h, s.log, s.commit, t, j, s.term) && (t == s.term ==> Acked(sent, h, s.id, t, s.commit));
      HasShorter(s.log, h.reigns[t].log, m.commit, s.commit);
      assert Backed(n, sent, h, h.reigns[m.term].log, m.commit, t, j, m.term);
    }
  }

  lemma StepKeepsBacked(n: nat, c: Cluster, h: History, e: Event)
    requires Inv(n, c, h) && CommitsBacked(n, c, h)
    ensures CommitsBacked(n, Step(c, e), TrackStep(c, h, e))
  {
    if Enabled(c, e) && Handle(c.nodes[e.node], e.input).Ok? {
      var r := Handle(c.nodes[e.node], e.input);
      var c', h' := Step(c, e), TrackStep(c, h, e);
      StepIsMove(n, c, h, e);
      StepNodeCommit(n, c, h, e);
      forall v: nat | v < n && v != e.node
        ensures NodeCommit(n, c'.sent, h', c'.nodes[v])
      {
        assert NodeInv(n, c.sent, h, v, c.nodes[v]);
        NodeCommitMono(n, c.sent, c'.sent, h, h', e.node, c.nodes[v], c.nodes[v]);
      }
      forall p | p in c'.sent && p.msg.Append?
        ensures MsgCommit(n, c'.sent, h', p.msg)
      {
        if p in c.sent {
          MsgCommitMono(n, c.sent, c'.sent, h, h', e.node, p.msg);
        } else {
          StepMsgCommit(n, c, h, e, p);
        }
      }
    }
  }

  // ---- when an assertion fails ----

  /** What the receiver of an append has committed is in the sender's log; beyond the end of the
      message it was acknowledged to that sender. */
  ghost predicate CommitHeld(sent: set<Packet>, r: Reign, i: nat, s: Server, m: Msg)
    requires m.Append? && 0 <= m.term
  {
    Has(s.log, r.log, s.commit) && (m.prevIdx + |m.entries| < s.commit ==> RepliedUpTo(sent, i, m.term, s.commit))
  }

  lemma CommitIsHeld(n: nat, c: Cluster, h: History, i: nat, src: nat, m: Msg)
    requires i < |c.nodes| == n && Inv(n, c, h) && CommitInv(n, c, h) && CommitsBacked(n, c, h)
    requires m.Append? && Packet(src, i, m) in c.sent && c.nodes[i].term <= m.term
    ensures m.term in h.reigns && CommitHeld(c.sent, h.reigns[m.term], i, c.nodes[i], m)
  {
    var s := c.nodes[i];
    assert NodeInv(n, c.sent, h, i, s);
    assert PacketInv(n, c.nodes, h, Packet(src, i, m));
    if s.commit != 0 {
      assert NodeCommit(n, c.sent, h, s);
      var t: nat, j: nat :| Backed(n, c.sent, h, s.log, s.commit, t, j, s.term) && (t == s.term ==> Acked(c.sent, h, s.id, t, s.commit));
      HeldBy(n, c, h, i, src, m, t, j);
    }
  }

  lemma HeldBy(n: nat, c: Cluster, h: History, i: nat, src: nat, m: Msg, t: nat, j: nat)
    requires i < |c.nodes| == n && Inv(n, c, h) && CommitInv(n, c, h)
    requires m.Append? && Packet(src, i, m) in c.sent && c.nodes[i].term <= m.term
    requires m.term in h.reigns && h.reigns[m.term].leader == src != i
    requires AppendInv(h.reigns[m.term], m.prevIdx, m.prevTerm, m.commit, m.entries)
    requires Backed(n, c.sent, h, c.nodes[i].log, c.nodes[i].commit, t, j, c.nodes[i].term)
    requires t == c.nodes[i].term ==> Acked(c.sent, h, i, t, c.nodes[i].commit)
    ensures CommitHeld(c.sent, h.reigns[m.term], i, c.nodes[i], m)
  {
    var s, r := c.nodes[i], h.reigns[m.term];
    if t < m.term {
      LeaderHas(n, c, h, t, j, m.term, s.commit);
      HasBoth(s.log, r.log, h.reigns[t].log, s.commit);
    } else {
      assert RepliedUpTo(c.sent, i, m.term, s.commit);
    }
  }

  lemma HasBoth(a: Log, b: Log, ref: Log, k: nat)
    requires Has(a, ref, k) && Has(b, ref, k)
    ensures Has(a, b, k)
  {
  }

  /** A later leader was elected with, and so has, what was committed before. */
  lemma LeaderHas(n: nat, c: Cluster, h: History, t: nat, j: nat, u: nat, k: nat)
    requires Inv(n, c, h) && CommitInv(n, c, h) && Committed(n, c.sent, h, t, j) && u in h.reigns && t < u && k <= j
    ensures k <= |h.reigns[u].base| && Has(h.reigns[u].log, h.reigns[t].log, k)
  {
    var r := h.reigns[u];
    LeaderCompleteness(n, c, h, t, j, u);
    assert ReignInv(n, c.nodes, c.sent, h, u);
    HasLonger(r.base, r.log, h.reigns[t].log, j);
    HasShorter(r.log, h.reigns[t].log, k, j);
  }

  /** In a state that satisfies the invariants, an assertion fails if and only if the event cuts an
      acknowledged entry that the receiver has committed. */
  lemma HaltsOnCutsOnly(n: nat, c: Cluster, h: History, e: Event)
    requires Inv(n, c, h) && CommitInv(n, c, h) && CommitsBacked(n, c, h) && Enabled(c, e)
    ensures Handle(c.nodes[e.node], e.input).Halt? <==>
              CutsAcked(c, e) && e.input.msg.prevIdx < c.nodes[e.node].commit
  {
    match e.input
    case FromPeer(src, m) =>
      if m.Append? {
        if c.nodes[e.node].term <= m.term {
          AppendHalts(n, c, h, e.node, src, m);
        }
      } else if m.RequestVote? {
        RequestVoteStep(n, c, h, e.node, src, m);
      } else if m.AppendReply? {
        AppendReplyStep(n, c, h, e.node, src, m);
      }
    case _ =>
  }

  lemma AppendHalts(n: nat, c: Cluster, h: History, i: nat, src: nat, m: Msg)
    requires i < |c.nodes| == n && Inv(n, c, h) && CommitInv(n, c, h) && CommitsBacked(n, c, h)
    requires m.Append? && Packet(src, i, m) in c.sent && c.nodes[i].term <= m.term
    ensures RecvAppend(c.nodes[i], src, m).Halt? <==>
              CutsAt(c.sent, i, c.nodes[i], m) && m.prevIdx < c.nodes[i].commit
  {
    CommitIsHeld(n, c, h, i, src, m);
    HaltsExactly(n, c, h, i, src, m);
    if Deletes(c.nodes[i], m) && m.prevIdx < c.nodes[i].commit {
      assert PacketInv(n, c.nodes, h, Packet(src, i, m));
      RepliedLess(c.sent, i, m.term, m.prevIdx + 1, c.nodes[i].commit);
    }
  }

  /** Two servers agree on everything both have committed. */
  lemma CommitsAgree(n: nat, c: Cluster, h: History, a: nat, b: nat, k: nat)
    requires Inv(n, c, h) && CommitInv(n, c, h) && CommitsBacked(n, c, h) && a < n && b < n
    requires k < c.nodes[a].commit && k < c.nodes[b].commit
    ensures k < |c.nodes[a].log| && k < |c.nodes[b].log| && c.nodes[a].log[k] == c.nodes[b].log[k]
  {
    var x, y := c.nodes[a], c.nodes[b];
    assert NodeCommit(n, c.sent, h, x) && NodeCommit(n, c.sent, h, y);
    var t: nat, j: nat :| Backed(n, c.sent, h, x.log, x.commit, t, j, x.term) && (t == x.term ==> Acked(c.sent, h, x.id, t, x.commit));
    var u: nat, l: nat :| Backed(n, c.sent, h, y.log, y.commit, u, l, y.term) && (u == y.term ==> Acked(c.sent, h, y.id, u, y.commit));
    if t <= u {
      BackedAgree(n, c, h, x.log, x.commit, t, j, y.log, y.commit, u, l, k);
    } else {
      BackedAgree(n, c, h, y.log, y.commit, u, l, x.log, x.commit, t, j, k);
    }
  }

  lemma BackedAgree(n: nat, c: Cluster, h: History, a: Log, ka: nat, t: nat, j: nat, b: Log, kb: nat, u: nat, l: nat, k: nat)
    requires Inv(n, c, h) && CommitInv(n, c, h) && t <= u
    requires Committed(n, c.sent, h, t, j) && ka <= j && Has(a, h.reigns[t].log, ka)
    requires Committed(n, c.sent, h, u, l) && kb <= l && Has(b, h.reigns[u].log, kb)
    requires k < ka && k < kb
    ensures a[k] == b[k]
  {
    assert a[..ka][k] == h.reigns[t].log[..ka][k];
    assert b[..kb][k] == h.reigns[u].log[..kb][k];
    if t < u {
      LeaderCompleteness(n, c, h, t, j, u);
      assert ReignInv(n, c.nodes, c.sent, h, u);
      assert h.reigns[u].base[..j][k] == h.reigns[t].log[..j][k];
    }
  }
}
