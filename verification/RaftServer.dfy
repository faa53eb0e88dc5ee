/**
 The server as the source has it: a record updated in place, whose operations loop over the peers
 and over the entries of a message.  Each method is proved to compute the function of `RaftOps`
 that the cluster theorems are about.  Messages handed to the send callbacks collect in `outbox`.
 */
module RaftServer {
  import opened Basics
  import opened RaftTypes
  import opened RaftOps
  import opened RaftLog
  import RaftNode

  // ---- steps of the loops ----

  /** The elements of `a` below `i`. */
  ghost function BelowIdx(a: set<nat>, i: nat): (r: set<nat>)
  {
    set j | j in a && j < i
  }

  lemma BelowNext(a: set<nat>, i: nat)
    ensures |BelowIdx(a, i + 1)| == |BelowIdx(a, i)| + if i in a then 1 else 0
  {
    if i in a {
      assert BelowIdx(a, i + 1) == BelowIdx(a, i) + {i};
    } else {
      assert BelowIdx(a, i + 1) == BelowIdx(a, i);
    }
  }

  /** Sending to peer `i` turns the messages due from `i` on into those due from `i + 1` on. */
  lemma SendNext(s: Server, i: nat, all: bool, before: seq<Packet>)
    requires i < |s.peers|
    ensures i != s.id && (all || s.peers[i].next == |s.log|) ==>
              before + SendWhere(s, i, all) == (before + [Packet(s.id, i, AppendFor(s, i))]) + SendWhere(s, i + 1, all)
    ensures !(i != s.id && (all || s.peers[i].next == |s.log|)) ==> SendWhere(s, i, all) == SendWhere(s, i + 1, all)
  {
  }

  lemma AskNext(s: Server, i: nat, before: seq<Packet>)
    requires i < |s.peers|
    ensures i != s.id ==>
              before + AskVotes(s, i) == (before + [Packet(s.id, i, VoteRequest(s))]) + AskVotes(s, i + 1)
    ensures i == s.id ==> AskVotes(s, i) == AskVotes(s, i + 1)
  {
  }

  lemma SliceNext(start: Log, entries: Log, from: nat, i: nat)
    requires from <= i < |entries|
    ensures (start + entries[from..i]) + [entries[i]] == start + entries[from..i + 1]
  {
  }

  /** Some peer's match index names no entry. */
  ghost predicate MissingMatch(s: Server) {
    exists i :: 0 <= i < |s.peers| && i != s.id && |s.log| < s.peers[i].matchIdx
  }

  /** The record of peer `src` after it acknowledged up to `idx`. */
  ghost function Recorded(s: Server, src: nat, idx: int): (r: Server)
    requires src < |s.peers|
  {
    s.(peers := s.peers[src := s.peers[src].(next := Clamp(idx + 1), matchIdx := idx)])
  }

  /** What is still to be sent to `src`. */
  ghost function Remaining(s: Server, src: nat): (out: seq<Packet>)
    requires src < |s.peers|
  {
    if s.peers[src].next <= |s.log| then [Packet(s.id, src, AppendFor(s, src))] else []
  }

  /** The cases of a positive reply. */
  lemma AcknowledgeCases(s: Server, src: nat, idx: int)
    requires src < |s.peers|
    ensures RaftOps.Acknowledge(s, src, idx) ==
      if |s.log| < idx then Halt(ReplyBeyondLog)
      else if MissingMatch(Recorded(s, src, idx)) then Halt(MissingEntry)
      else Ok(AdvanceCommit(Recorded(s, src, idx), idx), Remaining(AdvanceCommit(Recorded(s, src, idx), idx), src))
  {
  }

  class RaftNodeServer {
    const id: nat
    const log: ArrayLog
    var currentTerm: nat
    var votedFor: int
    var commitIdx: nat
    var lastAppliedIdx: nat
    var trace: Log
    var state: Role
    var nodes: seq<Peer>
    var outbox: seq<Packet>

    ghost predicate Valid()
      reads this, log, log.entries
    {
      log.Valid() && id < |nodes|
    }

    /** The record as a value. */
    ghost function State(): (s: Server)
      requires Valid()
      reads this, log, log.entries
    {
      Server(id, currentTerm, votedFor, log.Contents(), commitIdx, lastAppliedIdx, trace, state, nodes)
    }

    /** `raft_new`, followed by `raft_add_node` for each of the `n` members. */
    constructor (n: nat, id: nat)
      requires id < n
      ensures Valid() && fresh(log) && fresh(log.entries)
      ensures State() == RaftNode.NewServer(n, id) && outbox == []
    {
      this.id := id;
      log := new ArrayLog();
      currentTerm, votedFor, commitIdx, lastAppliedIdx := 0, -1, 0, 0;
      trace, state, outbox := [], Follower, [];
      nodes := seq(n, _ => Peer(1, 0, false));
    }

    // ---- small updates ----

    /** `raft_set_current_term` */
    method SetCurrentTerm(term: int)
      requires Valid()
      modifies this`currentTerm, this`votedFor
      ensures Valid() && State() == SetTerm(old(State()), term)
    {
      if currentTerm < term {
        currentTerm := term;
        votedFor := -1;
      }
    }

    /** `raft_send_appendentries` */
    method SendAppendEntries(i: nat)
      requires Valid() && i < |nodes| && i != id
      modifies this`outbox
      ensures Valid() && outbox == old(outbox) + [Packet(id, i, AppendFor(State(), i))]
    {
      var next: int := nodes[i].next;
      var slot, n := log.GetFrom(next);
      var prevIdx, prevTerm := PreviousEntry(next);
      var entries := log.entries[slot..slot + n];
      assert entries == if |log.Contents()| < next then [] else log.Contents()[next - 1..];
      outbox := outbox + [Packet(id, i, Append(currentTerm, prevIdx, prevTerm, commitIdx, entries))];
    }

    /** The index and term of the entry before `next`. */
    method PreviousEntry(next: int) returns (prevIdx: int, prevTerm: nat)
      requires Valid()
      ensures prevIdx == if 1 < next then next - 1 else 0
      ensures prevTerm == if 1 < next then TermAt(log.Contents(), next - 1) else 0
    {
      prevIdx, prevTerm := 0, 0;
      if 1 < next {
        var prev := log.GetAt(next - 1);
        prevIdx := next - 1;
        if prev.Some? {
          prevTerm := prev.value.term;
        }
      }
    }

    /** `raft_send_appendentries_all` (and the sending loop of `raft_recv_entry`). */
    method SendToPeers(all: bool)
      requires Valid()
      modifies this`outbox
      ensures Valid() && outbox == old(outbox) + SendWhere(State(), 0, all)
    {
      var i := 0;
      var current := log.CurrentIdx();
      ghost var s := State();
      while i < |nodes|
        modifies this`outbox
        invariant 0 <= i <= |nodes| && Valid() && State() == s
        invariant old(outbox) + SendWhere(s, 0, all) == outbox + SendWhere(s, i, all)
      {
        SendNext(s, i, all, outbox);
        if i != id && (all || nodes[i].next == current) {
          SendAppendEntries(i);
        }
        i := i + 1;
      }
    }

    /** One turn of the loop of `raft_become_leader`, which ends in state `s'`. */
    method StartPeer(i: nat, current: nat, ghost s': Server)
      requires Valid() && i < |nodes| == |s'.peers| && i != id
      requires State().(peers := s'.peers) == s' && s'.peers[i] == nodes[i].(next := current + 1, matchIdx := 0)
      modifies this`nodes, this`outbox
      ensures Valid() && nodes == old(nodes)[i := s'.peers[i]]
      ensures State().(peers := s'.peers) == s'
      ensures outbox == old(outbox) + [Packet(id, i, AppendFor(s', i))]
    {
      nodes := nodes[i := nodes[i].(next := current + 1, matchIdx := 0)];
      SendAppendEntries(i);
    }

    /** `s'` is the present state with every other peer's indices restarted. */
    ghost predicate Restarted(s': Server)
      requires Valid()
      reads this, log, log.entries
    {
      && State().(peers := s'.peers) == s' && |s'.peers| == |nodes|
      && forall k :: 0 <= k < |nodes| ==>
           s'.peers[k] == if k == id then nodes[k] else nodes[k].(next := log.count + 1, matchIdx := 0)
    }

    /** The loop of `raft_become_leader`. */
    method StartPeers(ghost s': Server)
      requires Valid() && Restarted(s')
      modifies this`nodes, this`outbox
      ensures Valid() && State() == s' && outbox == old(outbox) + SendAll(s')
    {
      var current := log.CurrentIdx();
      var i := 0;
      while i < |nodes|
        modifies this`nodes, this`outbox
        invariant 0 <= i <= |nodes| == |s'.peers| && Valid() && State().(peers := s'.peers) == s'
        invariant forall k :: 0 <= k < i ==> nodes[k] == s'.peers[k]
        invariant forall k :: i <= k < |nodes| ==> nodes[k] == old(nodes)[k]
        invariant old(outbox) + SendAll(s') == outbox + SendWhere(s', i, true)
      {
        SendNext(s', i, true, outbox);
        if i != id {
          StartPeer(i, current, s');
        }
        i := i + 1;
      }
      assert nodes == s'.peers;
    }

    /** `raft_become_leader` */
    method BecomeLeader()
      requires Valid()
      modifies this`state, this`nodes, this`outbox
      ensures Valid() && State() == RaftOps.BecomeLeader(old(State())).s
      ensures outbox == old(outbox) + RaftOps.BecomeLeader(old(State())).out
    {
      ghost var s' := RaftOps.BecomeLeader(State()).s;
      state := Leader;
      StartPeers(s');
    }

    /** `raft_send_requestvote` */
    method SendRequestVote(i: nat)
      requires Valid() && i < |nodes| && i != id
      modifies this`outbox
      ensures Valid() && outbox == old(outbox) + [Packet(id, i, VoteRequest(State()))]
    {
      var current := log.CurrentIdx();
      var lastTerm := LastLogTerm();
      outbox := outbox + [Packet(id, i, RequestVote(currentTerm, id, current, lastTerm))];
    }

    /** `raft_get_last_log_term` */
    method LastLogTerm() returns (t: nat)
      requires Valid()
      ensures t == LastTerm(State().log)
    {
      var current := log.CurrentIdx();
      if 0 < current {
        var e := log.GetAt(current);
        if e.Some? {
          return e.value.term;
        }
      }
      t := 0;
    }

    /** `raft_become_candidate` */
    method BecomeCandidate()
      requires Valid()
      modifies this`currentTerm, this`votedFor, this`state, this`nodes, this`outbox
      ensures Valid() && State() == RaftOps.BecomeCandidate(old(State())).s
      ensures outbox == old(outbox) + RaftOps.BecomeCandidate(old(State())).out
    {
      ghost var s' := RaftOps.BecomeCandidate(State()).s;
      SetCurrentTerm(currentTerm + 1);
      ClearVotes();
      votedFor := id;
      state := Candidate;
      assert nodes == s'.peers;
      assert State() == s';
      var i := 0;
      while i < |nodes|
        modifies this`outbox
        invariant 0 <= i <= |nodes| && Valid() && State() == s'
        invariant old(outbox) + AskVotes(s', 0) == outbox + AskVotes(s', i)
      {
        AskNext(s', i, outbox);
        if i != id {
          SendRequestVote(i);
        }
        i := i + 1;
      }
    }

    method ClearVotes()
      modifies this`nodes
      ensures |nodes| == |old(nodes)| && forall k :: 0 <= k < |nodes| ==> nodes[k] == old(nodes)[k].(voted := false)
    {
      var i := 0;
      while i < |nodes|
        invariant 0 <= i <= |nodes| == |old(nodes)|
        invariant forall k :: 0 <= k < i ==> nodes[k] == old(nodes)[k].(voted := false)
        invariant forall k :: i <= k < |nodes| ==> nodes[k] == old(nodes)[k]
      {
        nodes := nodes[i := nodes[i].(voted := false)];
        i := i + 1;
      }
    }

    // ---- votes ----

    /** `__raft__should_grant_vote` */
    method ShouldGrantVote(m: Msg) returns (grant: bool)
      requires Valid() && m.RequestVote?
      ensures grant == ShouldGrant(State(), m)
    {
      if m.term < currentTerm || votedFor != -1 {
        return false;
      }
      var current := log.CurrentIdx();
      if current == 0 {
        return true;
      }
      var e := log.GetAt(current);
      if e.value.term < m.lastTerm {
        return true;
      }
      grant := m.lastTerm == e.value.term && current <= m.lastIdx;
    }

    /** `raft_recv_requestvote` */
    method RecvRequestVote(src: nat, m: Msg) returns (halted: Option<Assertion>, reply: Msg)
      requires Valid() && m.RequestVote?
      modifies this`currentTerm, this`votedFor, this`state
      ensures Valid() && outbox == old(outbox)
      ensures match RaftOps.RecvRequestVote(old(State()), src, m)
              case Halt(w) => halted == Some(w)
              case Ok(s, out) => halted == None && State() == s && out == [Packet(id, src, reply)]
    {
      reply := VoteReply(0, false);
      if currentTerm < m.term {
        SetCurrentTerm(m.term);
        state := Follower;
      }
      var grant := ShouldGrantVote(m);
      if grant {
        if state != Follower {
          return Some(GrantNotFollower), reply;
        }
        votedFor := m.candidate;
      }
      return None, VoteReply(currentTerm, grant);
    }

    /** `raft_get_nvotes_for_me` */
    method CountVotes() returns (votes: nat)
      requires Valid()
      ensures votes == VoteCount(State())
    {
      votes := 0;
      var i := 0;
      while i < |nodes|
        invariant 0 <= i <= |nodes|
        invariant votes == |BelowIdx(Supporters(State()), i)|
      {
        BelowNext(Supporters(State()), i);
        if i != id && nodes[i].voted {
          votes := votes + 1;
        }
        i := i + 1;
      }
      assert BelowIdx(Supporters(State()), i) == Supporters(State());
      if votedFor == id {
        votes := votes + 1;
      }
    }

    /** `raft_recv_requestvote_response` */
    method RecvVoteReply(src: nat, m: Msg)
      requires Valid() && m.VoteReply? && src < |nodes| && src != id
      modifies this`currentTerm, this`votedFor, this`state, this`nodes, this`outbox
      ensures Valid()
      ensures State() == RaftOps.RecvVoteReply(old(State()), src, m).s
      ensures outbox == old(outbox) + RaftOps.RecvVoteReply(old(State()), src, m).out
    {
      if state != Candidate {
        return;
      } else if currentTerm < m.term {
        SetCurrentTerm(m.term);
        state := Follower;
        return;
      } else if currentTerm != m.term {
        return;
      }
      if m.granted {
        nodes := nodes[src := nodes[src].(voted := true)];
        var votes := CountVotes();
        if IsMajority(|nodes|, votes) {
          BecomeLeader();
        }
      }
    }

    // ---- append messages ----

    /** The first loop of `raft_recv_appendentries`: skip the entries already present. */
    method SkipPresent(prev: nat, entries: seq<Entry>) returns (i: nat)
      requires Valid()
      ensures i == MatchLen(State().log, prev, entries, 0)
    {
      i := 0;
      while i < |entries|
        invariant 0 <= i <= |entries|
        invariant MatchLen(State().log, prev, entries, i) == MatchLen(State().log, prev, entries, 0)
      {
        var existing := log.GetAt(prev + 1 + i);
        if existing.None? || existing.value.term != entries[i].term {
          return;
        }
        i := i + 1;
      }
    }

    /** The second loop: append what is left. */
    method AppendRest(entries: seq<Entry>, from: nat) returns (done: bool)
      requires Valid() && from <= |entries|
      modifies log, log.entries
      ensures Valid() && (log.entries == old(log.entries) || fresh(log.entries))
      ensures var e := AppendableLen(entries, from);
              done == (e == |entries|) && log.Contents() == old(log.Contents()) + entries[from..e]
    {
      var i := from;
      ghost var start := log.Contents();
      while i < |entries|
        invariant from <= i <= |entries| && Valid() && (log.entries == old(log.entries) || fresh(log.entries))
        invariant AppendableLen(entries, i) == AppendableLen(entries, from)
        invariant log.Contents() == start + entries[from..i]
      {
        var ok := log.Append(entries[i]);
        if !ok {
          return false;
        }
        SliceNext(start, entries, from, i);
        i := i + 1;
      }
      done := true;
    }

    /** The last part of `raft_recv_appendentries`: the commit index. */
    method FollowCommit(src: nat, m: Msg) returns (halted: Option<Assertion>, reply: Msg)
      requires Valid() && m.Append?
      modifies this`commitIdx
      ensures Valid()
      ensures match AcceptCommit(old(State()), src, m)
              case Halt(w) => halted == Some(w)
              case Ok(s, out) => halted == None && State() == s && out == [Packet(id, src, reply)]
    {
      reply := AppendReply(currentTerm, true, m.prevIdx + |m.entries|, m.prevIdx + 1);
      if commitIdx < m.commit {
        var current := log.CurrentIdx();
        var idx := Min(Max(current, 1), m.commit);
        if idx < commitIdx {
          return Some(CommitBackwards), reply;
        }
        if current < idx {
          return Some(CommitBeyondLog), reply;
        }
        commitIdx := idx;
      }
      return None, reply;
    }

    method Merge(src: nat, m: Msg) returns (halted: Option<Assertion>, reply: Msg)
      requires Valid() && m.Append? && m.prevIdx <= |log.Contents()|
      modifies this`commitIdx, log, log.entries
      ensures Valid() && (log.entries == old(log.entries) || fresh(log.entries))
      ensures match MergeEntries(old(State()), src, m)
              case Halt(w) => halted == Some(w)
              case Ok(s, out) => halted == None && State() == s && out == [Packet(id, src, reply)]
    {
      if |m.entries| == 0 {
        halted, reply := FollowCommit(src, m);
        return;
      }
      if m.prevIdx < 0 {
        return Some(BadIndex), m;
      }
      var i := SkipPresent(m.prevIdx, m.entries);
      halted, reply := SpliceFrom(src, m, i);
    }

    method SpliceFrom(src: nat, m: Msg, i: nat) returns (halted: Option<Assertion>, reply: Msg)
      requires Valid() && m.Append? && 0 <= m.prevIdx && i <= |m.entries|
      modifies this`commitIdx, log, log.entries
      ensures Valid() && (log.entries == old(log.entries) || fresh(log.entries))
      ensures match Splice(old(State()), src, m, i)
              case Halt(w) => halted == Some(w)
              case Ok(s, out) => halted == None && State() == s && out == [Packet(id, src, reply)]
    {
      var current := log.CurrentIdx();
      if i < |m.entries| && m.prevIdx + i < current {
        if m.prevIdx + i < commitIdx {
          return Some(CommittedCut), m;
        }
        log.Delete(m.prevIdx + 1 + i);
      }
      var done := AppendRest(m.entries, i);
      if !done {
        current := log.CurrentIdx();
        return None, AppendReply(currentTerm, false, current, 0);
      }
      halted, reply := FollowCommit(src, m);
    }

    /** `raft_recv_appendentries` */
    method RecvAppendEntries(src: nat, m: Msg) returns (halted: Option<Assertion>, reply: Msg)
      requires Valid() && m.Append?
      modifies this`currentTerm, this`votedFor, this`state, this`commitIdx, log, log.entries
      ensures Valid() && (log.entries == old(log.entries) || fresh(log.entries))
      ensures outbox == old(outbox)
      ensures match RecvAppend(old(State()), src, m)
              case Halt(w) => halted == Some(w)
              case Ok(s, out) => halted == None && State() == s && out == [Packet(id, src, reply)]
    {
      var current := log.CurrentIdx();
      if state == Candidate && currentTerm == m.term {
        votedFor := -1;
        state := Follower;
      } else if currentTerm < m.term {
        SetCurrentTerm(m.term);
        state := Follower;
      } else if m.term < currentTerm {
        return None, AppendReply(currentTerm, false, current, 0);
      }
      assert State() == Adopt(old(State()), m.term);
      halted, reply := CheckAndMerge(src, m);
    }

    method CheckAndMerge(src: nat, m: Msg) returns (halted: Option<Assertion>, reply: Msg)
      requires Valid() && m.Append?
      modifies this`commitIdx, log, log.entries
      ensures Valid() && (log.entries == old(log.entries) || fresh(log.entries))
      ensures match CheckPrevious(old(State()), src, m)
              case Halt(w) => halted == Some(w)
              case Ok(s, out) => halted == None && State() == s && out == [Packet(id, src, reply)]
    {
      var current := log.CurrentIdx();
      if 0 < m.prevIdx {
        var e := log.GetAt(m.prevIdx);
        if e.None? {
          return None, AppendReply(currentTerm, false, current, 0);
        }
        if e.value.term != m.prevTerm {
          if m.prevIdx <= commitIdx {
            return Some(CommittedCut), m;
          }
          log.Delete(m.prevIdx);
          return None, AppendReply(currentTerm, false, m.prevIdx - 1, 0);
        }
      }
      halted, reply := TrimAndMerge(src, m);
    }

    method TrimAndMerge(src: nat, m: Msg) returns (halted: Option<Assertion>, reply: Msg)
      requires Valid() && m.Append? && m.prevIdx <= |log.Contents()|
      modifies this`commitIdx, log, log.entries
      ensures Valid() && (log.entries == old(log.entries) || fresh(log.entries))
      ensures match Heartbeat(old(State()), src, m)
              case Halt(w) => halted == Some(w)
              case Ok(s, out) => halted == None && State() == s && out == [Packet(id, src, reply)]
    {
      var current := log.CurrentIdx();
      if |m.entries| == 0 && 0 < m.prevIdx && m.prevIdx + 1 < current {
        if m.prevIdx + 1 <= commitIdx {
          return Some(CommittedCut), m;
        }
        log.Delete(m.prevIdx + 1);
      }
      halted, reply := Merge(src, m);
    }

    // ---- replies to append messages ----

    /** The commit loop of `raft_recv_appendentries_response`; it stops when a match index names no
        entry, where the source would follow a null pointer. */
    method CountAckers(point: int) returns (missing: bool, votes: nat)
      requires Valid()
      ensures missing == MissingMatch(State())
      ensures !missing ==> votes == 1 + |Ackers(State(), point)|
    {
      votes := 1;
      var i := 0;
      while i < |nodes|
        invariant 0 <= i <= |nodes|
        invariant forall j :: 0 <= j < i && j != id ==> nodes[j].matchIdx <= |log.Contents()|
        invariant votes == 1 + |BelowIdx(Ackers(State(), point), i)|
      {
        BelowNext(Ackers(State(), point), i);
        if i != id && 0 < nodes[i].matchIdx {
          var e := log.GetAt(nodes[i].matchIdx);
          if e.None? {
            return true, votes;
          }
          if e.value.term == currentTerm && point <= nodes[i].matchIdx {
            votes := votes + 1;
          }
        }
        i := i + 1;
      }
      assert BelowIdx(Ackers(State(), point), i) == Ackers(State(), point);
      missing := false;
    }

    /** `raft_recv_appendentries_response` */
    method RecvAppendEntriesResponse(src: nat, m: Msg) returns (halted: Option<Assertion>)
      requires Valid() && m.AppendReply? && src < |nodes| && src != id
      modifies this`currentTerm, this`votedFor, this`state, this`nodes, this`commitIdx, this`outbox
      ensures Valid()
      ensures match RecvAppendReply(old(State()), src, m)
              case Halt(w) => halted == Some(w)
              case Ok(s, out) => halted == None && State() == s && outbox == old(outbox) + out
    {
      if (m.currentIdx != 0 && m.currentIdx <= nodes[src].matchIdx) || state != Leader {
        return None;
      }
      if currentTerm < m.term {
        SetCurrentTerm(m.term);
        state := Follower;
        return None;
      } else if currentTerm != m.term {
        return None;
      }
      if m.success {
        halted := Acknowledge(src, m.currentIdx);
      } else {
        var current := log.CurrentIdx();
        var next: int := nodes[src].next;
        if m.currentIdx < next - 1 {
          nodes := nodes[src := nodes[src].(next := Clamp(Min(m.currentIdx + 1, current)))];
        } else {
          nodes := nodes[src := nodes[src].(next := Clamp(next - 1))];
        }
        SendAppendEntries(src);
        halted := None;
      }
    }

    method Acknowledge(src: nat, idx: int) returns (halted: Option<Assertion>)
      requires Valid() && src < |nodes| && src != id
      modifies this`nodes, this`commitIdx, this`outbox
      ensures Valid()
      ensures match RaftOps.Acknowledge(old(State()), src, idx)
              case Halt(w) => halted == Some(w)
              case Ok(s, out) => halted == None && State() == s && outbox == old(outbox) + out
    {
      AcknowledgeCases(State(), src, idx);
      var current := log.CurrentIdx();
      if current < idx {
        return Some(ReplyBeyondLog);
      }
      ghost var s1 := Recorded(State(), src, idx);
      nodes := nodes[src := nodes[src].(next := Clamp(idx + 1), matchIdx := idx)];
      assert State() == s1;
      var missing, votes := CountAckers(idx);
      if missing {
        return Some(MissingEntry);
      }
      AdvanceTo(idx, votes);
      SendRemaining(src);
      return None;
    }

    /** Moves the commit index when a majority is counted. */
    method AdvanceTo(point: int, votes: nat)
      requires Valid() && point <= |State().log| && votes == 1 + |Ackers(State(), point)|
      modifies this`commitIdx
      ensures Valid() && State() == AdvanceCommit(old(State()), point)
    {
      if |nodes| / 2 < votes && commitIdx < point {
        commitIdx := point;
      }
    }

    method SendRemaining(src: nat)
      requires Valid() && src < |nodes| && src != id
      modifies this`outbox
      ensures Valid() && State() == old(State()) && outbox == old(outbox) + Remaining(State(), src)
    {
      var current := log.CurrentIdx();
      if nodes[src].next <= current {
        SendAppendEntries(src);
      }
    }

    // ---- clients, applying, time ----

    /** `raft_recv_entry` */
    method RecvClientEntry(entryId: nat, data: int) returns (accepted: bool)
      requires Valid()
      modifies this`commitIdx, this`outbox, log, log.entries
      ensures Valid() && (log.entries == old(log.entries) || fresh(log.entries))
      ensures accepted == (state == Leader)
      ensures State() == RecvEntry(old(State()), entryId, data).s
      ensures outbox == old(outbox) + RecvEntry(old(State()), entryId, data).out
    {
      if state != Leader {
        return false;
      }
      var _ := log.Append(Entry(currentTerm, entryId, data));
      SendToPeers(false);
      if |nodes| == 1 {
        var current := log.CurrentIdx();
        commitIdx := current;
      }
      accepted := true;
    }

    /** `raft_apply_entry` */
    method ApplyOne() returns (applied: bool)
      requires Valid()
      modifies this`lastAppliedIdx, this`trace
      ensures Valid() && State() == ApplyEntry(old(State()))
      ensures applied == (old(lastAppliedIdx) < lastAppliedIdx)
    {
      if lastAppliedIdx == commitIdx {
        return false;
      }
      var e := log.GetAt(lastAppliedIdx + 1);
      if e.None? {
        return false;
      }
      lastAppliedIdx := lastAppliedIdx + 1;
      trace := trace + [e.value];
      applied := true;
    }

    /** `raft_apply_all`: it stops because the commit index never passes the log. */
    method ApplyAllCommitted()
      requires Valid() && RaftNode.ServerOk(State())
      modifies this`lastAppliedIdx, this`trace
      ensures Valid() && State() == ApplyAll(old(State())) && lastAppliedIdx == commitIdx
    {
      ghost var s0 := State();
      RaftNode.ApplyAllOk(s0);
      while lastAppliedIdx < commitIdx
        invariant Valid() && RaftNode.ServerOk(State()) && ApplyAll(State()) == ApplyAll(s0)
        decreases commitIdx - lastAppliedIdx
      {
        RaftNode.ApplyEntryOk(State());
        var _ := ApplyOne();
      }
    }

    /** `raft_periodic`; `fired` says whether the timer of the present role has run out. */
    method PeriodicWork(fired: bool)
      requires Valid()
      modifies this`currentTerm, this`votedFor, this`state, this`nodes, this`outbox, this`lastAppliedIdx, this`trace
      ensures Valid()
      ensures State() == RunPeriodic(old(State()), fired).s
      ensures outbox == old(outbox) + RunPeriodic(old(State()), fired).out
    {
      if state == Leader {
        if fired {
          SendToPeers(true);
        }
      } else if fired && 1 < |nodes| {
        BecomeCandidate();
      }
      if lastAppliedIdx < commitIdx {
        var _ := ApplyOne();
      }
    }
  }
}
