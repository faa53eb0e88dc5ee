/**
 The server's operations as functions on the server record.  Every function has the
 branches, error paths and assertions of its source counterpart; `Handle` dispatches
 an input to the operation that the server runs for it.
 */
module RaftOps {
  import opened Basics
  import opened RaftTypes

  function Clamp(i: int): (r: Index)
  {
    if i < 1 then 1 else i
  }

  function Min(a: int, b: int): (r: int)
  {
    if a < b then a else b
  }

  /** `raft_get_last_log_term` */
  function LastTerm(log: Log): (t: nat)
  {
    if |log| == 0 then 0 else log[|log| - 1].term
  }

  /** The term recorded at one-based index `i`, or zero when there is none. */
  function TermAt(log: Log, i: int): (t: nat)
  {
    if 1 <= i <= |log| then log[i - 1].term else 0
  }

  /** `raft_set_current_term` */
  function SetTerm(s: Server, t: int): (r: Server)
  {
    if s.term < t then s.(term := t, vote := -1) else s
  }

  function StepDown(s: Server, t: int): (r: Server)
  {
    SetTerm(s, t).(role := Follower)
  }

  /** `raft_send_appendentries`: the whole suffix from the peer's next index. */
  function AppendFor(s: Server, i: nat): (m: Msg)
    requires i < |s.peers|
  {
    var next := s.peers[i].next;
    Append(s.term,
           if 1 < next then next - 1 else 0,
           if 1 < next then TermAt(s.log, next - 1) else 0,
           s.commit,
           if |s.log| < next then [] else s.log[next - 1..])
  }

  /** Append messages to the peers `i..`: to all of them, or only to those whose next
      index is the last entry. */
  function SendWhere(s: Server, i: nat, all: bool): (out: seq<Packet>)
    decreases |s.peers| - i
  {
    if i >= |s.peers| then []
    else
      (if i != s.id && (all || s.peers[i].next == |s.log|)
       then [Packet(s.id, i, AppendFor(s, i))] else [])
      + SendWhere(s, i + 1, all)
  }

  function SendAll(s: Server): (out: seq<Packet>)
  {
    SendWhere(s, 0, true)
  }

  /** `raft_become_leader` */
  function BecomeLeader(s: Server): (r: Result)
  {
    var s' := s.(role := Leader,
                 peers := seq(|s.peers|, i requires 0 <= i < |s.peers| =>
                   if i == s.id then s.peers[i]
                   else s.peers[i].(next := |s.log| + 1, matchIdx := 0)));
    Ok(s', SendAll(s'))
  }

  function VoteRequest(s: Server): (m: Msg)
  {
    RequestVote(s.term, s.id, |s.log|, LastTerm(s.log))
  }

  function AskVotes(s: Server, i: nat): (out: seq<Packet>)
    decreases |s.peers| - i
  {
    if i >= |s.peers| then []
    else (if i != s.id then [Packet(s.id, i, VoteRequest(s))] else []) + AskVotes(s, i + 1)
  }

  /** `raft_become_candidate` */
  function BecomeCandidate(s: Server): (r: Result)
  {
    var s' := SetTerm(s, s.term + 1).(
                vote := s.id,
                role := Candidate,
                peers := seq(|s.peers|, i requires 0 <= i < |s.peers| => s.peers[i].(voted := false)));
    Ok(s', AskVotes(s', 0))
  }

  /** `__raft__should_grant_vote` */
  predicate ShouldGrant(s: Server, m: Msg)
    requires m.RequestVote?
  {
    && m.term >= s.term
    && s.vote == -1
    && (|s.log| == 0
        || LastTerm(s.log) < m.lastTerm
        || (m.lastTerm == LastTerm(s.log) && |s.log| <= m.lastIdx))
  }

  /** `raft_recv_requestvote` */
  function RecvRequestVote(s: Server, src: nat, m: Msg): (r: Result)
    requires m.RequestVote?
  {
    var s1 := if s.term < m.term then StepDown(s, m.term) else s;
    if ShouldGrant(s1, m) then
      if s1.role != Follower then Halt(GrantNotFollower)
      else Ok(s1.(vote := m.candidate), [Packet(s.id, src, VoteReply(s1.term, true))])
    else
      Ok(s1, [Packet(s.id, src, VoteReply(s1.term, false))])
  }

  /** The peers whose vote flag is set (`raft_get_nvotes_for_me` skips the server's own entry). */
  function Supporters(s: Server): (r: set<nat>)
  {
    set i: nat | i < |s.peers| && i != s.id && s.peers[i].voted
  }

  function VoteCount(s: Server): (r: nat)
  {
    |Supporters(s)| + if s.vote == s.id then 1 else 0
  }

  /** `raft_votes_is_majority` */
  predicate IsMajority(n: nat, votes: nat)
  {
    votes <= n && n / 2 + 1 <= votes
  }

  /** `raft_recv_requestvote_response` */
  function RecvVoteReply(s: Server, src: nat, m: Msg): (r: Result)
    requires m.VoteReply? && src < |s.peers|
  {
    if s.role != Candidate then Ok(s, [])
    else if s.term < m.term then Ok(StepDown(s, m.term), [])
    else if s.term != m.term || !m.granted then Ok(s, [])
    else
      var s1 := s.(peers := s.peers[src := s.peers[src].(voted := true)]);
      if IsMajority(|s.peers|, VoteCount(s1)) then BecomeLeader(s1) else Ok(s1, [])
  }

  // ---- receiving an append message ----

  /** The state after the term comparison at the head of `raft_recv_appendentries`.
      A candidate of the same term gives up its own vote. */
  function Adopt(s: Server, t: int): (r: Server)
  {
    if s.role == Candidate && s.term == t then s.(vote := -1, role := Follower)
    else if s.term < t then StepDown(s, t)
    else s
  }

  function Reject(s: Server, src: nat, currentIdx: int): (r: Result)
  {
    Ok(s, [Packet(s.id, src, AppendReply(s.term, false, currentIdx, 0))])
  }

  /** How many of `entries[i..]`, placed after `prev + i`, are already in the log with
      their terms, plus `i`. */
  function MatchLen(log: Log, prev: nat, entries: seq<Entry>, i: nat): (k: nat)
    requires i <= |entries|
    ensures i <= k <= |entries|
    decreases |entries| - i
  {
    if i < |entries| && prev + i < |log| && log[prev + i].term == entries[i].term
    then MatchLen(log, prev, entries, i + 1)
    else i
  }

  /** The first position from `i` on that holds an entry the log refuses (id zero). */
  function AppendableLen(entries: seq<Entry>, i: nat): (k: nat)
    requires i <= |entries|
    ensures i <= k <= |entries|
    decreases |entries| - i
  {
    if i < |entries| && entries[i].id != 0 then AppendableLen(entries, i + 1) else i
  }

  /** The tail of `raft_recv_appendentries`: commit update and positive reply. */
  function AcceptCommit(s: Server, src: nat, m: Msg): (r: Result)
    requires m.Append?
  {
    var reply := [Packet(s.id, src, AppendReply(s.term, true, m.prevIdx + |m.entries|, m.prevIdx + 1))];
    if s.commit < m.commit then
      var idx := Min(Max(|s.log|, 1), m.commit);
      if idx < s.commit then Halt(CommitBackwards)
      else if |s.log| < idx then Halt(CommitBeyondLog)
      else Ok(s.(commit := idx), reply)
    else Ok(s, reply)
  }

  /** The entries from `k` on are missing or in conflict: cut the conflict and append them. */
  function Splice(s: Server, src: nat, m: Msg, k: nat): (r: Result)
    requires m.Append? && 0 <= m.prevIdx && k <= |m.entries|
  {
    var conflict := k < |m.entries| && m.prevIdx + k < |s.log|;
    if conflict && m.prevIdx + k < s.commit then Halt(CommittedCut)
    else
      var kept := if conflict then s.log[..m.prevIdx + k] else s.log;
      var e := AppendableLen(m.entries, k);
      var s1 := s.(log := kept + m.entries[k..e]);
      if e < |m.entries| then Reject(s1, src, |s1.log|) else AcceptCommit(s1, src, m)
  }

  /** The two entry loops of `raft_recv_appendentries`. */
  function MergeEntries(s: Server, src: nat, m: Msg): (r: Result)
    requires m.Append?
  {
    if m.entries == [] then AcceptCommit(s, src, m)
    else if m.prevIdx < 0 then Halt(BadIndex)
    else Splice(s, src, m, MatchLen(s.log, m.prevIdx, m.entries, 0))
  }

  /** An append without entries deletes what the log holds beyond the next index. */
  function Heartbeat(s: Server, src: nat, m: Msg): (r: Result)
    requires m.Append? && m.prevIdx <= |s.log|
  {
    if m.entries == [] && 0 < m.prevIdx && m.prevIdx + 1 < |s.log| then
      if m.prevIdx + 1 <= s.commit then Halt(CommittedCut)
      else MergeEntries(s.(log := s.log[..m.prevIdx]), src, m)
    else MergeEntries(s, src, m)
  }

  /** The consistency check on the previous entry. */
  function CheckPrevious(s: Server, src: nat, m: Msg): (r: Result)
    requires m.Append?
  {
    if |s.log| < m.prevIdx then Reject(s, src, |s.log|)
    else if 0 < m.prevIdx && s.log[m.prevIdx - 1].term != m.prevTerm then
      if m.prevIdx <= s.commit then Halt(CommittedCut)
      else Reject(s.(log := s.log[..m.prevIdx - 1]), src, m.prevIdx - 1)
    else Heartbeat(s, src, m)
  }

  /** `raft_recv_appendentries` */
  function RecvAppend(s: Server, src: nat, m: Msg): (r: Result)
    requires m.Append?
  {
    if m.term < s.term then Reject(s, src, |s.log|)
    else CheckPrevious(Adopt(s, m.term), src, m)
  }

  // ---- receiving the reply to an append message ----

  /** The peers counted by the commit loop: those whose match index reaches `point`
      and names an entry of the current term. */
  function Ackers(s: Server, point: int): (r: set<nat>)
  {
    set i: nat | i < |s.peers| && i != s.id && 0 < s.peers[i].matchIdx <= |s.log|
                 && s.log[s.peers[i].matchIdx - 1].term == s.term
                 && point <= s.peers[i].matchIdx
  }

  function AdvanceCommit(s: Server, point: int): (r: Server)
    requires point <= |s.log|
  {
    if |s.peers| / 2 < 1 + |Ackers(s, point)| && s.commit < point then s.(commit := point) else s
  }

  /** The positive branch of `raft_recv_appendentries_response`: record what the peer has, advance
      the commit index and send what the peer still lacks. */
  function Acknowledge(s: Server, src: nat, idx: int): (r: Result)
    requires src < |s.peers|
  {
    if |s.log| < idx then Halt(ReplyBeyondLog)
    else
      var s1 := s.(peers := s.peers[src := s.peers[src].(next := Clamp(idx + 1), matchIdx := idx)]);
      if exists i :: 0 <= i < |s1.peers| && i != s.id && |s.log| < s1.peers[i].matchIdx then Halt(MissingEntry)
      else
        var s2 := AdvanceCommit(s1, idx);
        Ok(s2, if s2.peers[src].next <= |s2.log| then [Packet(s.id, src, AppendFor(s2, src))] else [])
  }

  /** `raft_recv_appendentries_response` */
  function RecvAppendReply(s: Server, src: nat, m: Msg): (r: Result)
    requires m.AppendReply? && src < |s.peers|
  {
    var p := s.peers[src];
    if m.currentIdx != 0 && m.currentIdx <= p.matchIdx then Ok(s, [])
    else if s.role != Leader then Ok(s, [])
    else if s.term < m.term then Ok(StepDown(s, m.term), [])
    else if s.term != m.term then Ok(s, [])
    else if !m.success then
      var next := if m.currentIdx < p.next - 1 then Min(m.currentIdx + 1, |s.log|) else p.next - 1;
      var s1 := s.(peers := s.peers[src := p.(next := Clamp(next))]);
      Ok(s1, [Packet(s.id, src, AppendFor(s1, src))])
    else Acknowledge(s, src, m.currentIdx)
  }

  // ---- client requests, applying, periodic work ----

  /** `raft_recv_entry`.  The result of the append is ignored, as in the source. */
  function RecvEntry(s: Server, entryId: nat, data: int): (r: Result)
  {
    if s.role != Leader then Ok(s, [])
    else
      var s1 := if entryId == 0 then s else s.(log := s.log + [Entry(s.term, entryId, data)]);
      var s2 := if |s.peers| == 1 then s1.(commit := |s1.log|) else s1;
      Ok(s2, SendWhere(s1, 0, false))
  }

  /** `raft_apply_entry` */
  function ApplyEntry(s: Server): (r: Server)
  {
    if s.lastApplied == s.commit || |s.log| <= s.lastApplied then s
    else s.(lastApplied := s.lastApplied + 1, trace := s.trace + [s.log[s.lastApplied]])
  }

  /** `raft_apply_all`, as long as an entry is there to apply. */
  function ApplyAll(s: Server): (r: Server)
    decreases s.commit - s.lastApplied
  {
    if s.lastApplied < s.commit && s.lastApplied < |s.log| then ApplyAll(ApplyEntry(s)) else s
  }

  /** `raft_periodic` */
  function RunPeriodic(s: Server, fired: bool): (r: Result)
  {
    var r := if s.role == Leader then Ok(s, if fired then SendAll(s) else [])
             else if fired && 1 < |s.peers| then BecomeCandidate(s)
             else Ok(s, []);
    if r.s.lastApplied < r.s.commit then Ok(ApplyEntry(r.s), r.out) else r
  }

  function Handle(s: Server, i: Input): (r: Result)
    requires i.FromPeer? ==> i.src < |s.peers|
  {
    match i
    case FromPeer(src, m) =>
      (match m
       case RequestVote(_, _, _, _) => RecvRequestVote(s, src, m)
       case VoteReply(_, _) => RecvVoteReply(s, src, m)
       case Append(_, _, _, _, _) => RecvAppend(s, src, m)
       case AppendReply(_, _, _, _) => RecvAppendReply(s, src, m))
    case ClientEntry(entryId, data) => RecvEntry(s, entryId, data)
    case Periodic(fired) => RunPeriodic(s, fired)
    case ApplyCommitted => Ok(ApplyAll(s), [])
  }
}
