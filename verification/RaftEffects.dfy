/**
 What each message or timeout does, exactly and in the protocol's terms: when a vote is granted, who is
 asked and who is sent what, when an election is won, how a rejection moves the next index and an
 acknowledgement the commit index, and what an append leaves in the follower's log.
 */
module RaftEffects {
  import opened Basics
  import opened RaftTypes
  import opened RaftOps
  import opened RaftNode
  import opened RaftCluster
  import opened RaftReplication
  import opened RaftCommit
  import opened RaftCut

  // ---- votes ----

  /** The order of logs by their last entry: last term first, then length. */
  predicate NoNewer(term: int, length: int, term': int, length': int) {
    term < term' || (term == term' && length <= length')
  }

  /** The server can still vote in the candidate's term, and its log is no newer than the candidate's. */
  predicate Deserves(s: Server, m: Msg)
    requires m.RequestVote?
  {
    && s.term <= m.term && (s.term == m.term ==> s.vote == -1)
    && NoNewer(LastTerm(s.log), |s.log|, m.lastTerm, m.lastIdx)
  }

  /** A vote is granted if and only if it is deserved; the reply carries the later of the two terms. */
  lemma GrantExactly(s: Server, src: nat, m: Msg)
    requires m.RequestVote? && 0 <= m.lastIdx && 0 <= m.lastTerm && RecvRequestVote(s, src, m).Ok?
    ensures var r := RecvRequestVote(s, src, m);
            && r.out == [Packet(s.id, src, VoteReply(Max(s.term, m.term), Deserves(s, m)))]
            && r.s.term == Max(s.term, m.term) && r.s.log == s.log && r.s.peers == s.peers && r.s.id == s.id
            && r.s.vote == (if Deserves(s, m) then m.candidate else if s.term < m.term then -1 else s.vote)
            && r.s.role == (if s.term < m.term then Follower else s.role)
  {
  }

  /** The same for every request delivered on any network, where the assertion at the grant holds. */
  lemma VoteIsExact(n: nat, c: Cluster, h: History, i: nat, src: nat, m: Msg)
    requires i < |c.nodes| == n && Inv(n, c, h) && m.RequestVote? && Packet(src, i, m) in c.sent
    ensures RecvRequestVote(c.nodes[i], src, m).Ok?
    ensures RecvRequestVote(c.nodes[i], src, m).out ==
              [Packet(i, src, VoteReply(Max(c.nodes[i].term, m.term), Deserves(c.nodes[i], m)))]
  {
    assert NodeInv(n, c.sent, h, i, c.nodes[i]);
    assert PacketInv(n, c.nodes, h, Packet(src, i, m));
    GrantExactly(c.nodes[i], src, m);
  }

  // ---- who is asked and sent to ----

  lemma {:induction false} AskCovers(s: Server, k: nat, j: nat)
    requires k <= j < |s.peers| && j != s.id
    ensures Packet(s.id, j, VoteRequest(s)) in AskVotes(s, k)
    decreases |s.peers| - k
  {
    if k < j {
      AskCovers(s, k + 1, j);
    }
  }

  /** The append to `k`, if one is due. */
  function Due(s: Server, k: nat, all: bool): (out: seq<Packet>)
    requires k < |s.peers|
  {
    if k != s.id && (all || s.peers[k].next == |s.log|) then [Packet(s.id, k, AppendFor(s, k))] else []
  }

  lemma SendUnfolds(s: Server, k: nat, all: bool)
    requires k < |s.peers|
    ensures SendWhere(s, k, all) == Due(s, k, all) + SendWhere(s, k + 1, all)
  {
  }

  lemma SentFromNext(s: Server, k: nat, all: bool, p: Packet)
    requires k < |s.peers| && (p in Due(s, k, all) || p in SendWhere(s, k + 1, all))
    ensures p in SendWhere(s, k, all)
  {
    var due, rest, whole := Due(s, k, all), SendWhere(s, k + 1, all), SendWhere(s, k, all);
    SendUnfolds(s, k, all);
    assert whole == due + rest;
    InEither(due, rest, p);
  }

  lemma {:induction false} DueIsSent(s: Server, k: nat, all: bool, j: nat, p: Packet)
    requires k <= j < |s.peers| && p in Due(s, j, all)
    ensures p in SendWhere(s, k, all)
    decreases j - k
  {
    if k < j {
      DueIsSent(s, k + 1, all, j, p);
    }
    SentFromNext(s, k, all, p);
  }

  lemma InEither(a: seq<Packet>, b: seq<Packet>, p: Packet)
    requires p in a || p in b
    ensures p in a + b
  {
  }

  lemma SendCovers(s: Server, k: nat, all: bool, j: nat)
    requires k <= j < |s.peers| && j != s.id && (all || s.peers[j].next == |s.log|)
    ensures Packet(s.id, j, AppendFor(s, j)) in SendWhere(s, k, all)
  {
    DueIsSent(s, k, all, j, Packet(s.id, j, AppendFor(s, j)));
  }

  /** Standing for election: the next term, the own vote, no others counted, and every other server asked. */
  lemma StandsExactly(s: Server, j: nat)
    requires j < |s.peers| && j != s.id
    ensures var r := BecomeCandidate(s);
            && r.s.term == s.term + 1 && r.s.vote == s.id && r.s.role == Candidate && r.s.log == s.log
            && |r.s.peers| == |s.peers| && Supporters(r.s) == {}
            && Packet(s.id, j, RequestVote(s.term + 1, s.id, |s.log|, LastTerm(s.log))) in r.out
  {
    AskCovers(BecomeCandidate(s).s, 0, j);
  }

  /** A timeout: a server that does not lead stands, and a leader sends to every other server; one entry
      is applied when there is one. */
  lemma TimeoutExactly(s: Server, j: nat)
    requires j < |s.peers| && j != s.id && 1 < |s.peers|
    ensures var r := RunPeriodic(s, true);
            && r.Ok?
            && (s.role != Leader ==>
                  && r.s.role == Candidate && r.s.term == s.term + 1
                  && Packet(s.id, j, RequestVote(s.term + 1, s.id, |s.log|, LastTerm(s.log))) in r.out)
            && (s.role == Leader ==> r.s.role == Leader && Packet(s.id, j, AppendFor(s, j)) in r.out)
  {
    if s.role == Leader {
      SendCovers(s, 0, true, j);
    } else {
      StandsExactly(s, j);
    }
  }

  lemma PeriodicApplies(s: Server, fired: bool)
    requires ServerOk(s) && s.lastApplied < s.commit
    ensures RunPeriodic(s, fired).s.trace == s.trace + [s.log[s.lastApplied]]
  {
  }

  /** A new leader sends every other server an append at the end of its log. */
  lemma OfficeExactly(s: Server, j: nat)
    requires j < |s.peers| && j != s.id
    ensures var r := BecomeLeader(s);
            && r.s.role == Leader && r.s.term == s.term && r.s.log == s.log && |r.s.peers| == |s.peers|
            && r.s.peers[j].next == |s.log| + 1 && r.s.peers[j].matchIdx == 0
            && Packet(s.id, j, Append(s.term, |s.log|, LastTerm(s.log), s.commit, [])) in r.out
  {
    var s' := BecomeLeader(s).s;
    SendCovers(s', 0, true, j);
  }

  /** A client's entry ends the leader's log in its term, and goes to every peer that lacks only it. */
  lemma ClientExactly(s: Server, entryId: nat, data: int, j: nat)
    requires s.role == Leader && entryId != 0 && j < |s.peers| && j != s.id && s.peers[j].next == |s.log| + 1
    ensures var r := RecvEntry(s, entryId, data);
            var e := Entry(s.term, entryId, data);
            && r.s.log == s.log + [e] && r.s.role == Leader && r.s.term == s.term
            && Packet(s.id, j, Append(s.term, |s.log|, LastTerm(s.log), s.commit, [e])) in r.out
  {
    var s1 := s.(log := s.log + [Entry(s.term, entryId, data)]);
    SendCovers(s1, 0, false, j);
    assert s1.log[|s.log|..] == [Entry(s.term, entryId, data)];
  }

  // ---- elections ----

  /** A majority that includes the server itself. */
  ghost predicate MajorityOf(n: nat, i: nat, q: set<nat>) {
    i in q && (forall v :: v in q ==> v < n) && n < 2 * |q|
  }

  /** A granted vote of the candidate's term makes it leader if and only if those who voted for it, and
      itself, are a majority. */
  lemma ElectedExactly(s: Server, src: nat, m: Msg)
    requires m.VoteReply? && src < |s.peers| && s.role == Candidate && s.vote == s.id && s.id < |s.peers| && src != s.id
    requires m.term == s.term && m.granted
    ensures var r := RecvVoteReply(s, src, m);
            && r.Ok? && r.s.term == s.term && r.s.log == s.log && r.s.id == s.id && |r.s.peers| == |s.peers|
            && r.s.vote == s.vote && (r.s.role == Leader || r.s.role == Candidate)
            && Supporters(r.s) == Supporters(s) + {src}
            && (r.s.role == Leader <==> MajorityOf(|s.peers|, s.id, Supporters(s) + {src, s.id}))
  {
    var s1 := s.(peers := s.peers[src := s.peers[src].(voted := true)]);
    assert Supporters(s1) == Supporters(s) + {src};
    var q := Supporters(s) + {src, s.id};
    assert q == Supporters(s1) + {s.id} && s.id !in Supporters(s1);
    VotersFit(|s.peers|, q);
    if IsMajority(|s.peers|, VoteCount(s1)) {
      assert Supporters(BecomeLeader(s1).s) == Supporters(s1);
    }
  }

  /** There are no more voters than servers. */
  lemma {:induction false} VotersFit(n: nat, q: set<nat>)
    requires forall v :: v in q ==> v < n
    ensures |q| <= n
  {
    if n > 0 {
      VotersFit(n - 1, q - {n - 1});
    }
  }

  // ---- replies to a leader ----

  /** A rejection of the leader's own term, not stale: the next index falls below what it was, to the
      follower's length plus one if that is less, and never under one; the append from there is sent. */
  lemma RejectedExactly(s: Server, src: nat, m: Msg)
    requires m.AppendReply? && src < |s.peers| && s.role == Leader && m.term == s.term && !m.success
    requires m.currentIdx == 0 || s.peers[src].matchIdx < m.currentIdx
    requires s.peers[src].next <= |s.log| + 1
    ensures var r := RecvAppendReply(s, src, m);
            var next := Max(1, Min(Min(s.peers[src].next - 1, m.currentIdx + 1), |s.log|));
            && r.Ok? && r.s == s.(peers := s.peers[src := s.peers[src].(next := next)])
            && (next < s.peers[src].next || next == s.peers[src].next == 1)
            && r.out == [Packet(s.id, src, AppendFor(r.s, src))]
  {
  }

  /** The servers whose recorded match reaches `point` and is of the leader's term, and the leader. */
  ghost function Holders(s: Server, point: int): (q: set<nat>)
  {
    Ackers(s, point) + {s.id}
  }

  /** A positive reply of the leader's own term, not stale: the match and next index become what was
      acknowledged, the commit index moves there if and only if a majority holds it, and what the
      follower still lacks is sent. */
  lemma AcknowledgedExactly(s: Server, src: nat, m: Msg)
    requires m.AppendReply? && src < |s.peers| && s.role == Leader && m.term == s.term && m.success && s.id < |s.peers|
    requires 0 <= m.currentIdx && (m.currentIdx == 0 || s.peers[src].matchIdx < m.currentIdx)
    requires RecvAppendReply(s, src, m).Ok?
    ensures var r := RecvAppendReply(s, src, m);
            && m.currentIdx <= |s.log| && r.s == Recorded(s, src, m.currentIdx).(commit := r.s.commit)
            && r.s.commit == (if s.commit < m.currentIdx && MajorityOf(|s.peers|, s.id, Holders(r.s, m.currentIdx))
                              then m.currentIdx else s.commit)
            && r.out == (if m.currentIdx < |s.log| then [Packet(s.id, src, AppendFor(r.s, src))] else [])
  {
    var s1 := Recorded(s, src, m.currentIdx);
    CommitExactly(s1, m.currentIdx);
  }

  /** Peer `src` holds the log up to `idx`. */
  function Recorded(s: Server, src: nat, idx: nat): (r: Server)
    requires src < |s.peers|
  {
    s.(peers := s.peers[src := s.peers[src].(next := idx + 1, matchIdx := idx)])
  }

  lemma CommitExactly(s: Server, point: nat)
    requires s.id < |s.peers| && point <= |s.log|
    ensures var s' := AdvanceCommit(s, point);
            && s' == s.(commit := s'.commit)
            && s'.commit == (if s.commit < point && MajorityOf(|s.peers|, s.id, Holders(s', point)) then point else s.commit)
  {
    var s' := AdvanceCommit(s, point);
    var a := Ackers(s, point);
    assert Ackers(s', point) == a && |a + {s.id}| == |a| + 1;
  }

  // ---- terms ----

  /** A message of a later term that is not ignored makes the server a follower of that term. */
  lemma LaterTermAdopted(s: Server, src: nat, m: Msg)
    requires src < |s.peers| && s.term < m.term && Handle(s, FromPeer(src, m)).Ok?
    requires m.VoteReply? ==> s.role == Candidate
    requires m.AppendReply? ==> s.role == Leader && (m.currentIdx == 0 || s.peers[src].matchIdx < m.currentIdx)
    ensures var s' := Handle(s, FromPeer(src, m)).s;
            s'.term == m.term && s'.role == Follower && (!m.RequestVote? ==> s'.vote == -1)
  {
    if m.Append? {
      AppendKeepsOffice(StepDown(s, m.term), src, m);
    }
  }

  lemma AppendKeepsOffice(s: Server, src: nat, m: Msg)
    requires m.Append? && CheckPrevious(s, src, m).Ok?
    ensures var s' := CheckPrevious(s, src, m).s; s'.term == s.term && s'.role == s.role && s'.vote == s.vote
  {
  }

  // ---- appends ----

  /** The entry before the message's entries is in the log. */
  predicate PreviousHeld(s: Server, m: Msg)
    requires m.Append?
  {
    0 <= m.prevIdx <= |s.log| && (m.prevIdx == 0 || s.log[m.prevIdx - 1].term == m.prevTerm)
  }

  /** The log after an accepted append, in terms of the sender's log: what the message reaches is made
      equal, more is kept when there is no conflict, and less after the deletion of an empty append. */
  ghost function Reconciled(leader: Log, log: Log, m: Msg): (r: Log)
    requires m.Append? && 0 <= m.prevIdx && m.prevIdx + |m.entries| <= |leader|
  {
    var end := m.prevIdx + |m.entries|;
    if m.entries == [] && 0 < m.prevIdx && m.prevIdx + 1 < |log| then leader[..m.prevIdx]
    else if Has(log, leader, end) then log
    else leader[..end]
  }

  /** The full outcome of an append on a server `s` that has taken up its term. */
  ghost predicate AppendDone(leader: Log, s: Server, m: Msg, s': Server, reply: Msg)
    requires m.Append? && 0 <= m.prevIdx && m.prevIdx + |m.entries| <= |leader|
  {
    if PreviousHeld(s, m) then
      && s'.log == Reconciled(leader, s.log, m)
      && s'.commit == Max(s.commit, Min(|s'.log|, m.commit))
      && reply == AppendReply(s.term, true, m.prevIdx + |m.entries|, m.prevIdx + 1)
    else
      && s'.log == (if |s.log| < m.prevIdx then s.log else s.log[..m.prevIdx - 1])
      && s'.commit == s.commit
      && reply == AppendReply(s.term, false, |s'.log|, 0)
  }

  lemma HeldStays(r: Reign, s: Server, src: nat, m: Msg)
    requires m.Append? && AppendInv(r, m.prevIdx, m.prevTerm, m.commit, m.entries) && ServerOk(s)
    requires PreviousHeld(s, m) && !Deletes(s, m) && Has(s.log, r.log, m.prevIdx + |m.entries|)
    ensures var q := MergeEntries(s, src, m);
            q.Ok? && |q.out| == 1 && AppendDone(r.log, s, m, q.s, q.out[0].msg)
  {
    MergeWithin(r, s, src, m, m.prevIdx + |m.entries|);
  }

  lemma ConflictGoes(h: History, r: Reign, s: Server, src: nat, m: Msg)
    requires m.Append? && AppendInv(r, m.prevIdx, m.prevTerm, m.commit, m.entries) && ServerOk(s)
    requires LogWf(h, s.log) && LogWf(h, r.log) && IdsOk(r.log) && PreviousHeld(s, m) && MergeEntries(s, src, m).Ok?
    requires m.entries != [] && !Has(s.log, r.log, m.prevIdx + |m.entries|)
    ensures var q := MergeEntries(s, src, m);
            |q.out| == 1 && AppendDone(r.log, s, m, q.s, q.out[0].msg)
  {
    MergeUnfolds(r, s, src, m);
    NotAllHeld(h, r, s, m);
  }

  lemma MergeExactly(h: History, r: Reign, s: Server, src: nat, m: Msg)
    requires m.Append? && AppendInv(r, m.prevIdx, m.prevTerm, m.commit, m.entries) && ServerOk(s)
    requires LogWf(h, s.log) && LogWf(h, r.log) && IdsOk(r.log) && PreviousHeld(s, m) && MergeEntries(s, src, m).Ok?
    requires !Deletes(s, m)
    ensures var q := MergeEntries(s, src, m);
            |q.out| == 1 && AppendDone(r.log, s, m, q.s, q.out[0].msg)
  {
    if Has(s.log, r.log, m.prevIdx + |m.entries|) {
      HeldStays(r, s, src, m);
    } else {
      PreviousAgrees(h, r, s.log, m);
      assert m.entries != [];
      ConflictGoes(h, r, s, src, m);
    }
  }

  lemma NotAllHeld(h: History, r: Reign, s: Server, m: Msg)
    requires m.Append? && AppendInv(r, m.prevIdx, m.prevTerm, m.commit, m.entries)
    requires LogWf(h, s.log) && LogWf(h, r.log) && PreviousHeld(s, m)
    requires !Has(s.log, r.log, m.prevIdx + |m.entries|)
    ensures Merged(s.log, m) == r.log[..m.prevIdx + |m.entries|]
  {
    MergedIsLeaders(h, r, s.log, m);
  }

  lemma CheckExactly(h: History, r: Reign, s: Server, src: nat, m: Msg)
    requires m.Append? && AppendInv(r, m.prevIdx, m.prevTerm, m.commit, m.entries) && ServerOk(s)
    requires LogWf(h, s.log) && LogWf(h, r.log) && IdsOk(r.log) && CheckPrevious(s, src, m).Ok?
    ensures var q := CheckPrevious(s, src, m);
            |q.out| == 1 && AppendDone(r.log, s, m, q.s, q.out[0].msg)
  {
    if PreviousHeld(s, m) {
      if Deletes(s, m) {
        PreviousAgrees(h, r, s.log, m);
        assert s.log[..m.prevIdx] == r.log[..m.prevIdx];
      } else {
        MergeExactly(h, r, s, src, m);
      }
    }
  }

  /** An append delivered on any network, of the receiver's term or a later one: accepted if and only if
      the previous entry is held, with the log, the commit index and the reply exact. */
  lemma AppendExactly(n: nat, c: Cluster, h: History, i: nat, src: nat, m: Msg)
    requires i < |c.nodes| == n && Inv(n, c, h) && m.Append? && Packet(src, i, m) in c.sent
    requires c.nodes[i].term <= m.term && RecvAppend(c.nodes[i], src, m).Ok?
    ensures m.term in h.reigns && AppendInv(h.reigns[m.term], m.prevIdx, m.prevTerm, m.commit, m.entries)
    ensures var q := RecvAppend(c.nodes[i], src, m);
            && |q.out| == 1 && q.out[0].src == i && q.out[0].dst == src
            && AppendDone(h.reigns[m.term].log, Adopt(c.nodes[i], m.term), m, q.s, q.out[0].msg)
            && q.s.term == m.term && q.s.role == Follower
  {
    assert NodeInv(n, c.sent, h, i, c.nodes[i]);
    assert PacketInv(n, c.nodes, h, Packet(src, i, m));
    assert ReignInv(n, c.nodes, c.sent, h, m.term);
    AppendEffect(n, c, h, i, src, m);
    AdoptFollows(n, c, h, i, src, m);
    CheckExactly(h, h.reigns[m.term], Adopt(c.nodes[i], m.term), src, m);
  }

  /** An append of an earlier term is refused with the receiver's term and length, and changes nothing. */
  lemma StaleAppend(s: Server, src: nat, m: Msg)
    requires m.Append? && m.term < s.term
    ensures RecvAppend(s, src, m) == Ok(s, [Packet(s.id, src, AppendReply(s.term, false, |s.log|, 0))])
  {
  }

  /** A follower that lost some, but not all, of what the leader recorded is not repaired in that term: it
      refuses what the leader sends, and the leader takes the refusal for a late one. */
  lemma LossIsNotRepaired(s: Server, j: nat, f: Server)
    requires s.role == Leader && j < |s.peers| && s.peers[j].next <= |s.log| + 1
    requires f.role == Follower && f.term == s.term && f.id == j
    requires 0 < |f.log| <= s.peers[j].matchIdx && |f.log| < s.peers[j].next - 1
    ensures var refusal := AppendReply(s.term, false, |f.log|, 0);
            && RecvAppend(f, s.id, AppendFor(s, j)) == Ok(f, [Packet(j, s.id, refusal)])
            && RecvAppendReply(s, j, refusal) == Ok(s, [])
  {
  }

  /** What a server must take no notice of: votes that are refused, of an earlier term or not awaited,
      replies that are late, of an earlier term or to no leader, entries for a server that does not lead, and
      a periodic call before the timeout with nothing to apply. */
  predicate Idle(s: Server, i: Input)
    requires i.FromPeer? ==> i.src < |s.peers|
  {
    match i
    case FromPeer(src, m) =>
      (match m
       case VoteReply(t, granted) => s.role != Candidate || t < s.term || (t == s.term && !granted)
       case AppendReply(t, _, idx, _) => s.role != Leader || t < s.term || (idx != 0 && idx <= s.peers[src].matchIdx)
       case Append(_, _, _, _, _) => false
       case RequestVote(_, _, _, _) => false)
    case ClientEntry(_, _) => s.role != Leader
    case Periodic(fired) => s.lastApplied == s.commit && (!fired || (s.role != Leader && |s.peers| == 1))
    case ApplyCommitted => s.lastApplied == s.commit
  }

  /** It stays as it is and sends nothing. */
  lemma IdleInputs(s: Server, i: Input)
    requires (i.FromPeer? ==> i.src < |s.peers|) && Idle(s, i)
    ensures Handle(s, i) == Ok(s, [])
  {
  }
}
