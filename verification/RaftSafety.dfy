/**
 Safety of the cluster on an arbitrary network: election safety, log matching, leaders that
 only append, and the assertions of the server that can never fail.
 */
module RaftSafety {
  import opened RaftTypes
  import opened RaftOps
  import opened RaftNode
  import opened RaftCluster
  import opened RaftFrame
  import opened RaftElection
  import opened RaftReplication

  /** Every event keeps the invariant. */
  lemma StepKeepsInv(n: nat, c: Cluster, h: History, e: Event)
    requires Inv(n, c, h)
    ensures Inv(n, Step(c, e), TrackStep(c, h, e))
  {
    if Enabled(c, e) {
      match e.input
      case FromPeer(src, m) => DeliverKeepsInv(n, c, h, e);
      case ClientEntry(entryId, data) => EntryStep(n, c, h, e.node, entryId, data);
      case Periodic(fired) => PeriodicStep(n, c, h, e.node, fired);
      case ApplyCommitted => ApplyStep(n, c, h, e.node);
    }
  }

  lemma DeliverKeepsInv(n: nat, c: Cluster, h: History, e: Event)
    requires Inv(n, c, h) && Enabled(c, e) && e.input.FromPeer?
    ensures Inv(n, Step(c, e), TrackStep(c, h, e))
  {
    var src, m := e.input.src, e.input.msg;
    if m.RequestVote? {
      RequestVoteStep(n, c, h, e.node, src, m);
    } else if m.VoteReply? {
      VoteReplyStep(n, c, h, e.node, src, m);
    } else if m.Append? {
      AppendStep(n, c, h, e.node, src, m);
    } else {
      AppendReplyStep(n, c, h, e.node, src, m);
    }
  }

  lemma InitInv(n: nat)
    ensures Inv(n, Init(n), History(map[], map[]))
  {
  }

  /** The invariant holds after every run. */
  lemma {:induction false} RunInv(n: nat, events: seq<Event>)
    ensures Inv(n, Run(n, events), RunHistory(n, events))
    decreases |events|
  {
    if events == [] {
      InitInv(n);
    } else {
      var before := events[..|events| - 1];
      RunInv(n, before);
      StepKeepsInv(n, Run(n, before), RunHistory(n, before), events[|events| - 1]);
    }
  }

  // ---- history along a run ----

  /** The reigns recorded at some moment are there later, under the same leader, with a log that
      has at most grown. */
  ghost predicate Later(h: History, h': History) {
    forall t :: t in h.reigns ==>
      t in h'.reigns && h'.reigns[t].leader == h.reigns[t].leader && h.reigns[t].log <= h'.reigns[t].log
  }

  /** A step extends the history, and only where the moving server leads or stands. */
  lemma StepExtends(n: nat, c: Cluster, h: History, e: Event)
    requires Inv(n, c, h) && Enabled(c, e) && Handle(c.nodes[e.node], e.input).Ok?
    ensures Extends(h, Track(h, c.nodes[e.node], Handle(c.nodes[e.node], e.input).s), e.node)
  {
    var s := c.nodes[e.node];
    var s' := Handle(s, e.input).s;
    assert NodeInv(n, c.sent, h, e.node, s);
    HandleOk(s, e.input);
    assert (s'.term, s'.id) in h.bids ==> BidInv(n, c.nodes, h, (s'.term, s'.id));
    if s'.role == Leader && s.role != Leader {
      TakesOffice(n, c, h, e);
    } else if s'.role == Leader && s.term == s'.term {
      KeepsOwnLog(n, c, h, e);
    }
    TrackExtends(h, s, s', e.node);
  }

  /** A history grows when a server takes a free office, lengthens its own log, or stands anew. */
  lemma TrackExtends(h: History, s: Server, s': Server, i: nat)
    requires s'.role == Leader && s.role != Leader ==> s'.term !in h.reigns
    requires s'.role == Leader && s.role == Leader && s.term == s'.term && s.term in h.reigns ==>
               h.reigns[s.term].leader == i && h.reigns[s.term].log <= s'.log
    requires s'.role == Candidate && s.term < s'.term ==> (s'.term, s'.id) !in h.bids
    ensures Extends(h, Track(h, s, s'), i)
  {
  }

  lemma TrackLater(n: nat, c: Cluster, h: History, e: Event)
    requires Inv(n, c, h)
    ensures Later(h, TrackStep(c, h, e))
  {
    if Enabled(c, e) && Handle(c.nodes[e.node], e.input).Ok? {
      StepExtends(n, c, h, e);
      forall t | t in h.reigns
        ensures ReignExtends(h.reigns[t], TrackStep(c, h, e).reigns[t], e.node)
      {
      }
    }
  }

  lemma VoteMsgTerm(s: Server, src: nat, m: Msg)
    requires src < |s.peers| && (m.RequestVote? || m.VoteReply?) && Handle(s, FromPeer(src, m)).Ok?
    ensures TermStep(s, Handle(s, FromPeer(src, m)).s)
  {
  }

  lemma AppendReplyTerm(s: Server, src: nat, m: Msg)
    requires src < |s.peers| && m.AppendReply? && RecvAppendReply(s, src, m).Ok?
    ensures TermStep(s, RecvAppendReply(s, src, m).s)
  {
  }

  lemma AppendTerm(n: nat, c: Cluster, h: History, i: nat, src: nat, m: Msg)
    requires i < |c.nodes| == n && Inv(n, c, h) && m.Append? && Packet(src, i, m) in c.sent
    requires RecvAppend(c.nodes[i], src, m).Ok?
    ensures TermStep(c.nodes[i], RecvAppend(c.nodes[i], src, m).s)
    ensures RecvAppend(c.nodes[i], src, m).s.role == Follower || RecvAppend(c.nodes[i], src, m).s == c.nodes[i]
  {
    if c.nodes[i].term <= m.term {
      AdoptFollows(n, c, h, i, src, m);
      AppendEffect(n, c, h, i, src, m);
    }
  }

  /** Terms never fall, and within a term leaders and followers stay what they are. */
  lemma StepKeepsTerm(n: nat, c: Cluster, h: History, e: Event)
    requires Inv(n, c, h) && Enabled(c, e) && Handle(c.nodes[e.node], e.input).Ok?
    ensures TermStep(c.nodes[e.node], Handle(c.nodes[e.node], e.input).s)
  {
    var s := c.nodes[e.node];
    match e.input
    case FromPeer(src, m) =>
      if m.Append? {
        AppendTerm(n, c, h, e.node, src, m);
      } else if m.AppendReply? {
        AppendReplyTerm(s, src, m);
      } else {
        VoteMsgTerm(s, src, m);
      }
    case ApplyCommitted =>
      assert NodeInv(n, c.sent, h, e.node, s);
      ApplyAllOk(s);
    case _ =>
  }

  lemma TakesOffice(n: nat, c: Cluster, h: History, e: Event)
    requires Inv(n, c, h) && Enabled(c, e) && Handle(c.nodes[e.node], e.input).Ok?
    requires c.nodes[e.node].role != Leader && Handle(c.nodes[e.node], e.input).s.role == Leader
    ensures Handle(c.nodes[e.node], e.input).s.term !in h.reigns
  {
    var s := c.nodes[e.node];
    assert NodeInv(n, c.sent, h, e.node, s);
    assert e.input.FromPeer? by {
      if e.input == ApplyCommitted { ApplyAllOk(s); }
    }
    var src, m := e.input.src, e.input.msg;
    assert PacketInv(n, c.nodes, h, Packet(src, e.node, m));
    if m.Append? {
      if s.term <= m.term {
        AdoptFollows(n, c, h, e.node, src, m);
        AppendEffect(n, c, h, e.node, src, m);
      }
    } else {
      assert m.VoteReply?;
      var s1 := s.(peers := s.peers[src := s.peers[src].(voted := true)]);
      SupportersElect(n, c.sent, h, e.node, s1);
      WinnersTermIsFree(n, c, h, e.node, Supporters(s1) + {e.node});
    }
  }

  /** While it leads, a server only appends to its log. */
  lemma KeepsOwnLog(n: nat, c: Cluster, h: History, e: Event)
    requires Inv(n, c, h) && Enabled(c, e) && Handle(c.nodes[e.node], e.input).Ok?
    requires c.nodes[e.node].role == Leader && Handle(c.nodes[e.node], e.input).s.role == Leader
    ensures c.nodes[e.node].log <= Handle(c.nodes[e.node], e.input).s.log
  {
    if e.input.FromPeer? && e.input.msg.Append? {
      AppendTerm(n, c, h, e.node, e.input.src, e.input.msg);
    } else {
      assert NodeInv(n, c.sent, h, e.node, c.nodes[e.node]);
      LogGrows(c.nodes[e.node], e.input);
    }
  }

  lemma {:induction false} HistoryGrows(n: nat, events: seq<Event>, k: nat)
    requires k <= |events|
    ensures Later(RunHistory(n, events[..k]), RunHistory(n, events))
    decreases |events|
  {
    if k == |events| {
      assert events[..k] == events;
    } else {
      var before := events[..|events| - 1];
      assert before[..k] == events[..k];
      HistoryGrows(n, before, k);
      RunInv(n, before);
      TrackLater(n, Run(n, before), RunHistory(n, before), events[|events| - 1]);
    }
  }

  // ---- the theorems ----

  /** Election safety.  On any network, if one server leads a term at some moment of a run and a
      server leads the same term at a later moment, they are the same server. */
  lemma ElectionSafety(n: nat, events: seq<Event>, k: nat, i: nat, j: nat)
    requires k <= |events| && i < n && j < n
    ensures |Run(n, events[..k]).nodes| == n == |Run(n, events).nodes|
    ensures var a, b := Run(n, events[..k]).nodes[i], Run(n, events).nodes[j];
            a.role == Leader && b.role == Leader && a.term == b.term ==> i == j
  {
    RunInv(n, events[..k]);
    RunInv(n, events);
    HistoryGrows(n, events, k);
    var h, h' := RunHistory(n, events[..k]), RunHistory(n, events);
    assert NodeInv(n, Run(n, events[..k]).sent, h, i, Run(n, events[..k]).nodes[i]);
    assert NodeInv(n, Run(n, events).sent, h', j, Run(n, events).nodes[j]);
  }

  /** A server sends a granted vote to at most one other server in each term. */
  lemma OneVoteForOthersPerTerm(n: nat, events: seq<Event>, p: Packet, q: Packet)
    requires p in Run(n, events).sent && q in Run(n, events).sent
    requires p.msg.VoteReply? && p.msg.granted && q.msg == p.msg && q.src == p.src
    ensures p.dst == q.dst && p.dst != p.src
  {
    RunInv(n, events);
    assert PacketInv(n, Run(n, events).nodes, RunHistory(n, events), p);
  }

  /** The assertions that guard the vote, the acknowledged index, the commit index and the log
      lookups never fail, on any network; only the one that protects committed entries can. */
  lemma OnlyCutsCanHalt(n: nat, events: seq<Event>, i: nat)
    requires i in Run(n, events).down
    ensures Run(n, events).down[i] == CommittedCut
  {
    RunInv(n, events);
  }

  /** Log matching.  Two logs that hold an entry of the same term at the same index agree up to
      and including that index. */
  lemma LogMatching(n: nat, events: seq<Event>, i: nat, j: nat, k: nat)
    requires i < n && j < n
    ensures |Run(n, events).nodes| == n
    ensures var a, b := Run(n, events).nodes[i].log, Run(n, events).nodes[j].log;
            k < |a| && k < |b| && a[k].term == b[k].term ==> a[..k + 1] == b[..k + 1]
  {
    RunInv(n, events);
    var c, h := Run(n, events), RunHistory(n, events);
    assert NodeInv(n, c.sent, h, i, c.nodes[i]) && NodeInv(n, c.sent, h, j, c.nodes[j]);
    var a, b := c.nodes[i].log, c.nodes[j].log;
    if k < |a| && k < |b| && a[k].term == b[k].term {
      WfAgree(h, a, b, k);
    }
  }

  /** Log matching between a log and an append message in flight. */
  lemma LogMatchesMessages(n: nat, events: seq<Event>, i: nat, p: Packet, k: nat)
    requires |Run(n, events).nodes| == n && i < n && p in Run(n, events).sent && p.msg.Append?
    requires 0 <= p.msg.prevIdx <= k < p.msg.prevIdx + |p.msg.entries|
    requires k < |Run(n, events).nodes[i].log|
    requires Run(n, events).nodes[i].log[k].term == p.msg.entries[k - p.msg.prevIdx].term
    ensures Run(n, events).nodes[i].log[p.msg.prevIdx..k + 1] == p.msg.entries[..k + 1 - p.msg.prevIdx]
    ensures p.msg.prevIdx > 0 ==> Run(n, events).nodes[i].log[p.msg.prevIdx - 1].term == p.msg.prevTerm
  {
    RunInv(n, events);
    MatchesMessages(n, Run(n, events), RunHistory(n, events), i, p, k);
  }

  lemma MatchesMessages(n: nat, c: Cluster, h: History, i: nat, p: Packet, k: nat)
    requires Inv(n, c, h) && i < n && p in c.sent && p.msg.Append?
    requires p.msg.prevIdx <= k < p.msg.prevIdx + |p.msg.entries| && k < |c.nodes[i].log|
    requires c.nodes[i].log[k].term == p.msg.entries[k - p.msg.prevIdx].term
    ensures 0 <= p.msg.prevIdx && c.nodes[i].log[p.msg.prevIdx..k + 1] == p.msg.entries[..k + 1 - p.msg.prevIdx]
    ensures p.msg.prevIdx > 0 ==> c.nodes[i].log[p.msg.prevIdx - 1].term == p.msg.prevTerm
  {
    assert NodeInv(n, c.sent, h, i, c.nodes[i]);
    assert PacketInv(n, c.nodes, h, p);
    assert ReignInv(n, c.nodes, c.sent, h, p.msg.term);
    AgreeWithMessage(h, h.reigns[p.msg.term], c.nodes[i].log, p.msg, k);
  }

  lemma AgreeWithMessage(h: History, r: Reign, log: Log, m: Msg, k: nat)
    requires m.Append? && AppendInv(r, m.prevIdx, m.prevTerm, m.commit, m.entries)
    requires LogWf(h, log) && LogWf(h, r.log)
    requires m.prevIdx <= k < m.prevIdx + |m.entries| && k < |log| && log[k].term == m.entries[k - m.prevIdx].term
    ensures log[m.prevIdx..k + 1] == m.entries[..k + 1 - m.prevIdx]
    ensures m.prevIdx > 0 ==> log[m.prevIdx - 1].term == m.prevTerm
  {
    WfAgree(h, log, r.log, k);
    forall x | m.prevIdx - 1 <= x <= k && 0 <= x
      ensures log[x] == r.log[x]
    {
      assert log[..k + 1][x] == r.log[..k + 1][x];
    }
  }

  /** Terms never decrease along a log, and never exceed the server's term. */
  lemma LogsSorted(n: nat, events: seq<Event>, i: nat)
    requires i < n
    ensures |Run(n, events).nodes| == n
    ensures Sorted(Run(n, events).nodes[i].log) && TermsUpTo(Run(n, events).nodes[i].log, Run(n, events).nodes[i].term)
  {
    RunInv(n, events);
    var c, h := Run(n, events), RunHistory(n, events);
    assert NodeInv(n, c.sent, h, i, c.nodes[i]);
    SortedFromReigns(n, c, h, c.nodes[i].log);
  }

  /** A leader's log only grows while its term lasts. */
  lemma LeaderAppendOnly(n: nat, events: seq<Event>, k: nat, i: nat)
    requires k <= |events| && i < n
    ensures |Run(n, events[..k]).nodes| == n == |Run(n, events).nodes|
    ensures var a, b := Run(n, events[..k]).nodes[i], Run(n, events).nodes[i];
            a.role == Leader && b.role == Leader && a.term == b.term ==> a.log <= b.log
  {
    RunInv(n, events[..k]);
    RunInv(n, events);
    HistoryGrows(n, events, k);
    assert NodeInv(n, Run(n, events[..k]).sent, RunHistory(n, events[..k]), i, Run(n, events[..k]).nodes[i]);
    assert NodeInv(n, Run(n, events).sent, RunHistory(n, events), i, Run(n, events).nodes[i]);
  }

  // ---- what a leader keeps about its peers and sends to them ----

  /** Every append message among `out` comes from the leader `s` and reaches the end of its log. */
  ghost predicate ReachEnd(s: Server, out: seq<Packet>) {
    forall p :: p in out && p.msg.Append? ==>
      && s.role == Leader && p.src == s.id && p.msg.term == s.term
      && p.msg.prevIdx + |p.msg.entries| == |s.log| && p.msg.commit <= s.commit <= |s.log|
  }

  lemma LeaderSends(n: nat, s: Server, all: bool)
    requires s.id < n == |s.peers| && s.role == Leader && s.commit <= |s.log|
    requires forall j: nat :: j < n && j != s.id ==> s.peers[j].next <= |s.log| + 1
    ensures ReachEnd(s, SendWhere(s, 0, all))
  {
    forall p | p in SendWhere(s, 0, all)
      ensures p.src == s.id && p.msg.Append? && p.msg.term == s.term && p.msg.commit == s.commit
      ensures p.msg.prevIdx + |p.msg.entries| == |s.log|
    {
      SendWhereFacts(s, 0, all, p);
      AppendForInv(Reign(s.id, [], s.log, {}), s, p.dst);
    }
  }

  /** Every append message a step sends comes from a leader and reaches the end of its log. */
  lemma AppendsReachTheEnd(n: nat, c: Cluster, h: History, i: nat, input: Input)
    requires i < |c.nodes| == n && Inv(n, c, h)
    requires input.FromPeer? ==> input.src < |c.nodes[i].peers| && Packet(input.src, i, input.msg) in c.sent
    requires Handle(c.nodes[i], input).Ok?
    ensures ReachEnd(Handle(c.nodes[i], input).s, Handle(c.nodes[i], input).out)
  {
    match input
    case ApplyCommitted =>
    case ClientEntry(entryId, data) => EntryAppends(n, c, h, i, entryId, data);
    case Periodic(fired) => PeriodicAppends(n, c, h, i, fired);
    case FromPeer(src, m) => PeerAppends(n, c, h, i, src, m);
  }

  lemma PeriodicAppends(n: nat, c: Cluster, h: History, i: nat, fired: bool)
    requires i < |c.nodes| == n && Inv(n, c, h)
    ensures ReachEnd(RunPeriodic(c.nodes[i], fired).s, RunPeriodic(c.nodes[i], fired).out)
  {
    var s := c.nodes[i];
    assert NodeInv(n, c.sent, h, i, s);
    if s.role == Leader {
      LeaderSends(n, s, true);
    } else if fired && 1 < n {
      forall p | p in BecomeCandidate(s).out
        ensures !p.msg.Append?
      {
        AskVotesFacts(BecomeCandidate(s).s, 0, p);
      }
    }
  }

  lemma EntryAppends(n: nat, c: Cluster, h: History, i: nat, entryId: nat, data: int)
    requires i < |c.nodes| == n && Inv(n, c, h)
    ensures ReachEnd(RecvEntry(c.nodes[i], entryId, data).s, RecvEntry(c.nodes[i], entryId, data).out)
  {
    var s := c.nodes[i];
    assert NodeInv(n, c.sent, h, i, s);
    if s.role == Leader {
      LeaderSends(n, if entryId == 0 then s else s.(log := s.log + [Entry(s.term, entryId, data)]), false);
    }
  }

  lemma PeerAppends(n: nat, c: Cluster, h: History, i: nat, src: nat, m: Msg)
    requires i < |c.nodes| == n && Inv(n, c, h)
    requires src < |c.nodes[i].peers| && Packet(src, i, m) in c.sent && Handle(c.nodes[i], FromPeer(src, m)).Ok?
    ensures ReachEnd(Handle(c.nodes[i], FromPeer(src, m)).s, Handle(c.nodes[i], FromPeer(src, m)).out)
  {
    if m.VoteReply? {
      assert NodeInv(n, c.sent, h, i, c.nodes[i]);
      VoteAppends(n, c.nodes[i], src, m);
    } else if m.AppendReply? {
      ReplyAppends(n, c, h, i, src, m);
    } else {
      NoAppends(c.nodes[i], src, m);
    }
  }

  lemma NoAppends(s: Server, src: nat, m: Msg)
    requires src < |s.peers| && (m.Append? || m.RequestVote?) && Handle(s, FromPeer(src, m)).Ok?
    ensures ReachEnd(Handle(s, FromPeer(src, m)).s, Handle(s, FromPeer(src, m)).out)
  {
    if m.Append? {
      forall p | p in RecvAppend(s, src, m).out
        ensures p.msg.AppendReply?
      {
        AppendOutKind(s, src, m, p);
      }
    }
  }

  lemma VoteAppends(n: nat, s: Server, src: nat, m: Msg)
    requires s.id < n == |s.peers| && s.commit <= |s.log| && src < n && m.VoteReply?
    ensures ReachEnd(RecvVoteReply(s, src, m).s, RecvVoteReply(s, src, m).out)
  {
    var s1 := s.(peers := s.peers[src := s.peers[src].(voted := true)]);
    LeaderSends(n, BecomeLeader(s1).s, true);
  }

  lemma ReplyAppends(n: nat, c: Cluster, h: History, i: nat, src: nat, m: Msg)
    requires i < |c.nodes| == n && Inv(n, c, h) && m.AppendReply?
    requires src < |c.nodes[i].peers| && Packet(src, i, m) in c.sent
    ensures RecvAppendReply(c.nodes[i], src, m).Ok?
    ensures ReachEnd(RecvAppendReply(c.nodes[i], src, m).s, RecvAppendReply(c.nodes[i], src, m).out)
  {
    AppendReplyStep(n, c, h, i, src, m);
    var r := RecvAppendReply(c.nodes[i], src, m);
    assert PacketInv(n, c.nodes, h, Packet(src, i, m));
    assert NodeInv(n, c.sent, h, i, c.nodes[i]);
    ReplyOut(c.nodes[i], src, m);
    var c' := After(c, i, r.s, r.out);
    assert NodeInv(n, c'.sent, h, i, r.s);
    RetryReaches(n, c'.sent, h, r.s, src, r.out);
  }

  lemma ReplyOut(s: Server, src: nat, m: Msg)
    requires m.AppendReply? && src < |s.peers| && RecvAppendReply(s, src, m).Ok?
    ensures var r := RecvAppendReply(s, src, m);
            && |r.s.peers| == |s.peers| && r.s.id == s.id
            && (r.out == [] || (r.s.role == Leader && r.out == [Packet(s.id, src, AppendFor(r.s, src))]))
  {
  }

  lemma RetryReaches(n: nat, sent: set<Packet>, h: History, s: Server, src: nat, out: seq<Packet>)
    requires src < n && src != s.id && NodeInv(n, sent, h, s.id, s)
    requires out == [] || (s.role == Leader && out == [Packet(s.id, src, AppendFor(s, src))])
    ensures ReachEnd(s, out)
  {
    if out != [] {
      AppendForInv(Reign(s.id, [], s.log, {}), s, src);
    }
  }

  /** Every leader keeps 1 <= next <= log length + 1 for each peer, and never a match index past
      its log. */
  lemma NextIndexBounds(n: nat, events: seq<Event>, i: nat, j: nat)
    requires i < n && j < n && i != j
    ensures |Run(n, events).nodes| == n && |Run(n, events).nodes[i].peers| == n
    ensures var s := Run(n, events).nodes[i];
            s.role == Leader ==> 1 <= s.peers[j].next <= |s.log| + 1 && s.peers[j].matchIdx <= |s.log|
  {
    RunInv(n, events);
    assert NodeInv(n, Run(n, events).sent, RunHistory(n, events), i, Run(n, events).nodes[i]);
  }

  /** On any network, whatever a reachable server sends as an append message reaches to the end of
      the sender's log and covers the commit index it carries. */
  lemma SendsWholeSuffix(n: nat, events: seq<Event>, e: Event, p: Packet)
    requires Enabled(Run(n, events), e) && Handle(Run(n, events).nodes[e.node], e.input).Ok?
    requires p in Handle(Run(n, events).nodes[e.node], e.input).out && p.msg.Append?
    ensures var s' := Handle(Run(n, events).nodes[e.node], e.input).s;
            s'.role == Leader && p.msg.prevIdx + |p.msg.entries| == |s'.log| && p.msg.commit <= |s'.log|
  {
    RunInv(n, events);
    AppendsReachTheEnd(n, Run(n, events), RunHistory(n, events), e.node, e.input);
  }

  /** A follower that accepts an append message holds the leader's log up to the acknowledged
      index, and its commit index never passes that verified prefix. */
  lemma AcceptedPrefixVerified(n: nat, events: seq<Event>, e: Event)
    requires var c := Run(n, events);
             && Enabled(c, e) && e.input.FromPeer? && e.input.msg.Append?
             && c.nodes[e.node].term <= e.input.msg.term
             && Handle(c.nodes[e.node], e.input).Ok?
    ensures var s := Run(n, events).nodes[e.node];
            var r := Handle(s, e.input);
            var m := e.input.msg;
            && |r.out| == 1 && r.out[0].msg.AppendReply?
            && (r.out[0].msg.success ==>
                  && r.out[0].msg.currentIdx == m.prevIdx + |m.entries| <= |r.s.log|
                  && 0 <= m.prevIdx && r.s.log[m.prevIdx..m.prevIdx + |m.entries|] == m.entries
                  && (r.s.commit == s.commit || r.s.commit <= m.prevIdx + |m.entries|))
  {
    RunInv(n, events);
    var c, h := Run(n, events), RunHistory(n, events);
    var m := e.input.msg;
    AppendEffect(n, c, h, e.node, e.input.src, m);
    assert PacketInv(n, c.nodes, h, Packet(e.input.src, e.node, m));
    var r := Handle(c.nodes[e.node], e.input);
    var end := m.prevIdx + |m.entries|;
    var reign := h.reigns[m.term];
    if r.out[0].msg.success {
      assert r.s.log[m.prevIdx..end] == r.s.log[..end][m.prevIdx..];
      assert reign.log[m.prevIdx..end] == reign.log[..end][m.prevIdx..];
    }
  }
}
