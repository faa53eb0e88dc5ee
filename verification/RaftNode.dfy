/**
 What one server guarantees on its own, whatever messages it is given: applied and
 committed prefixes stay within the log and are never altered, and the entries handed
 to the state machine are exactly the applied prefix.  A failed assertion ends the run.
 */
module RaftNode {
  import opened RaftTypes
  import opened RaftOps

  ghost predicate ServerOk(s: Server) {
    && s.id < |s.peers|
    && s.lastApplied <= s.commit <= |s.log|
    && s.trace == s.log[..s.lastApplied]
  }

  /** `s'` is a later state of the server `s`: nothing committed has been altered. */
  ghost predicate KeepsCommitted(s: Server, s': Server) {
    && s'.id == s.id && |s'.peers| == |s.peers|
    && s.commit <= s'.commit && s.commit <= |s.log| && s.commit <= |s'.log|
    && s'.log[..s.commit] == s.log[..s.commit]
    && s.trace <= s'.trace
    && s.term <= s'.term
  }

  lemma ApplyEntryOk(s: Server)
    requires ServerOk(s)
    ensures ServerOk(ApplyEntry(s)) && KeepsCommitted(s, ApplyEntry(s))
    ensures ApplyEntry(s) == s.(lastApplied := ApplyEntry(s).lastApplied, trace := ApplyEntry(s).trace)
    ensures s.lastApplied < s.commit ==> ApplyEntry(s).lastApplied == s.lastApplied + 1
  {
  }

  /** Applying everything stops exactly at the commit index, handing over the missing
      entries in order. */
  lemma {:induction false} ApplyAllOk(s: Server)
    requires ServerOk(s)
    ensures ServerOk(ApplyAll(s)) && KeepsCommitted(s, ApplyAll(s))
    ensures ApplyAll(s) == s.(lastApplied := s.commit, trace := s.trace + s.log[s.lastApplied..s.commit])
    decreases s.commit - s.lastApplied
  {
    if s.lastApplied < s.commit {
      ApplyEntryOk(s);
      ApplyAllOk(ApplyEntry(s));
      assert [s.log[s.lastApplied]] + s.log[s.lastApplied + 1..s.commit] == s.log[s.lastApplied..s.commit];
    } else {
      assert s.trace + s.log[s.lastApplied..s.commit] == s.trace;
    }
  }

  lemma AcceptCommitOk(s: Server, src: nat, m: Msg)
    requires ServerOk(s) && m.Append?
    ensures var r := AcceptCommit(s, src, m); r.Ok? ==> ServerOk(r.s) && KeepsCommitted(s, r.s)
  {
  }

  lemma SpliceOk(s: Server, keep: nat, more: Log)
    requires ServerOk(s) && s.commit <= keep <= |s.log|
    ensures ServerOk(s.(log := s.log[..keep] + more)) && KeepsCommitted(s, s.(log := s.log[..keep] + more))
  {
    var log := s.log[..keep] + more;
    assert log[..s.commit] == s.log[..s.commit];
    assert log[..s.lastApplied] == s.log[..s.lastApplied];
  }

  lemma MergeEntriesOk(s: Server, src: nat, m: Msg)
    requires ServerOk(s) && m.Append? && m.prevIdx <= |s.log|
    ensures var r := MergeEntries(s, src, m); r.Ok? ==> ServerOk(r.s) && KeepsCommitted(s, r.s)
  {
    if m.entries != [] && 0 <= m.prevIdx {
      var k := MatchLen(s.log, m.prevIdx, m.entries, 0);
      var conflict := k < |m.entries| && m.prevIdx + k < |s.log|;
      if !(conflict && m.prevIdx + k < s.commit) {
        var keep := if conflict then m.prevIdx + k else |s.log|;
        assert s.log[..|s.log|] == s.log;
        var s1 := s.(log := s.log[..keep] + m.entries[k..AppendableLen(m.entries, k)]);
        SpliceOk(s, keep, m.entries[k..AppendableLen(m.entries, k)]);
        AcceptCommitOk(s1, src, m);
        var r := AcceptCommit(s1, src, m);
        if r.Ok? {
          KeepsTransitive(s, s1, r.s);
        }
      }
    } else {
      AcceptCommitOk(s, src, m);
    }
  }

  lemma TruncateOk(s: Server, k: nat)
    requires ServerOk(s) && s.commit <= k <= |s.log|
    ensures ServerOk(s.(log := s.log[..k])) && KeepsCommitted(s, s.(log := s.log[..k]))
  {
    assert s.log[..k][..s.commit] == s.log[..s.commit];
    assert s.log[..k][..s.lastApplied] == s.log[..s.lastApplied];
  }

  lemma HeartbeatOk(s: Server, src: nat, m: Msg)
    requires ServerOk(s) && m.Append? && m.prevIdx <= |s.log|
    ensures var r := Heartbeat(s, src, m); r.Ok? ==> ServerOk(r.s) && KeepsCommitted(s, r.s)
  {
    if m.entries == [] && 0 < m.prevIdx && m.prevIdx + 1 < |s.log| {
      if s.commit <= m.prevIdx {
        var s1 := s.(log := s.log[..m.prevIdx]);
        TruncateOk(s, m.prevIdx);
        MergeEntriesOk(s1, src, m);
        var r := MergeEntries(s1, src, m);
        if r.Ok? {
          KeepsTransitive(s, s1, r.s);
        }
      }
    } else {
      MergeEntriesOk(s, src, m);
    }
  }

  lemma CheckPreviousOk(s: Server, src: nat, m: Msg)
    requires ServerOk(s) && m.Append?
    ensures var r := CheckPrevious(s, src, m); r.Ok? ==> ServerOk(r.s) && KeepsCommitted(s, r.s)
  {
    if m.prevIdx <= |s.log| {
      if 0 < m.prevIdx && s.log[m.prevIdx - 1].term != m.prevTerm {
        if s.commit < m.prevIdx {
          TruncateOk(s, m.prevIdx - 1);
        }
      } else {
        HeartbeatOk(s, src, m);
      }
    }
  }

  lemma RecvAppendOk(s: Server, src: nat, m: Msg)
    requires ServerOk(s) && m.Append?
    ensures var r := RecvAppend(s, src, m); r.Ok? ==> ServerOk(r.s) && KeepsCommitted(s, r.s)
  {
    var s1 := Adopt(s, m.term);
    CheckPreviousOk(s1, src, m);
    var r := CheckPrevious(s1, src, m);
    if m.term >= s.term && r.Ok? {
      KeepsTransitive(s, s1, r.s);
    }
  }

  lemma RecvReplyOk(s: Server, src: nat, m: Msg)
    requires ServerOk(s) && src < |s.peers| && (m.AppendReply? || m.VoteReply?)
    ensures var r := Handle(s, FromPeer(src, m)); r.Ok? ==> ServerOk(r.s) && KeepsCommitted(s, r.s)
  {
  }

  lemma RunPeriodicOk(s: Server, fired: bool)
    requires ServerOk(s)
    ensures var r := RunPeriodic(s, fired); r.Ok? && ServerOk(r.s) && KeepsCommitted(s, r.s)
  {
    var r := if s.role == Leader then Ok(s, if fired then SendAll(s) else [])
             else if fired && 1 < |s.peers| then BecomeCandidate(s)
             else Ok(s, []);
    assert ServerOk(r.s) && KeepsCommitted(s, r.s);
    ApplyEntryOk(r.s);
  }

  lemma RecvEntryOk(s: Server, entryId: nat, data: int)
    requires ServerOk(s)
    ensures var r := RecvEntry(s, entryId, data); r.Ok? && ServerOk(r.s) && KeepsCommitted(s, r.s)
  {
    if s.role == Leader && entryId != 0 {
      var log' := s.log + [Entry(s.term, entryId, data)];
      assert log'[..s.commit] == s.log[..s.commit] && log'[..s.lastApplied] == s.log[..s.lastApplied];
    }
  }

  /** One step, for every input the server can be given. */
  lemma HandleOk(s: Server, i: Input)
    requires ServerOk(s) && (i.FromPeer? ==> i.src < |s.peers|)
    ensures var r := Handle(s, i); r.Ok? ==> ServerOk(r.s) && KeepsCommitted(s, r.s)
  {
    match i
    case FromPeer(src, m) =>
      if m.Append? {
        RecvAppendOk(s, src, m);
      } else if m.AppendReply? || m.VoteReply? {
        RecvReplyOk(s, src, m);
      }
    case ClientEntry(entryId, data) => RecvEntryOk(s, entryId, data);
    case Periodic(fired) => RunPeriodicOk(s, fired);
    case ApplyCommitted => ApplyAllOk(s);
  }

  /** Only an append message shortens a log. */
  lemma LogGrows(s: Server, i: Input)
    requires ServerOk(s) && (i.FromPeer? ==> i.src < |s.peers|)
    requires Handle(s, i).Ok? && !(i.FromPeer? && i.msg.Append?)
    ensures s.log <= Handle(s, i).s.log
  {
    match i
    case FromPeer(src, m) =>
      if m.AppendReply? {
        ReplyKeepsLog(s, src, m);
      }
    case ApplyCommitted => ApplyAllOk(s);
    case _ =>
  }

  lemma ReplyKeepsLog(s: Server, src: nat, m: Msg)
    requires src < |s.peers| && m.AppendReply? && RecvAppendReply(s, src, m).Ok?
    ensures RecvAppendReply(s, src, m).s.log == s.log
  {
  }

  lemma AppendOutKind(s: Server, src: nat, m: Msg, p: Packet)
    requires m.Append? && RecvAppend(s, src, m).Ok? && p in RecvAppend(s, src, m).out
    ensures p.msg.AppendReply?
  {
  }

  /** `raft_new` followed by `raft_add_node` for every member. */
  function NewServer(n: nat, id: nat): (s: Server)
  {
    Server(id, 0, -1, [], 0, 0, [], Follower, seq(n, _ => Peer(1, 0, false)))
  }

  /** A run of one server over arbitrary inputs; a failed assertion halts it for good,
      and a message from a node outside the configuration is not accepted. */
  function RunServer(s: Server, inputs: seq<Input>): (r: Result)
    decreases |inputs|
  {
    if inputs == [] then Ok(s, [])
    else if inputs[0].FromPeer? && |s.peers| <= inputs[0].src then RunServer(s, inputs[1..])
    else
      match Handle(s, inputs[0])
      case Halt(w) => Halt(w)
      case Ok(s', _) => RunServer(s', inputs[1..])
  }

  lemma KeepsTransitive(a: Server, b: Server, c: Server)
    requires KeepsCommitted(a, b) && KeepsCommitted(b, c)
    ensures KeepsCommitted(a, c)
  {
    assert c.log[..a.commit] == c.log[..b.commit][..a.commit];
    assert b.log[..a.commit] == b.log[..b.commit][..a.commit];
  }

  /** Single-node safety: over every sequence of inputs the applied prefix lies within the
      committed prefix, which lies within the log; what was committed stays; and the
      applied trace is the log prefix, entry by entry. */
  lemma {:induction false} SingleNodeSafety(s: Server, inputs: seq<Input>)
    requires ServerOk(s)
    ensures var r := RunServer(s, inputs); r.Ok? ==> ServerOk(r.s) && KeepsCommitted(s, r.s)
    decreases |inputs|
  {
    if inputs != [] {
      if inputs[0].FromPeer? && |s.peers| <= inputs[0].src {
        SingleNodeSafety(s, inputs[1..]);
      } else {
        HandleOk(s, inputs[0]);
        var r := Handle(s, inputs[0]);
        if r.Ok? {
          SingleNodeSafety(r.s, inputs[1..]);
          var q := RunServer(r.s, inputs[1..]);
          if q.Ok? {
            KeepsTransitive(s, r.s, q.s);
          }
        }
      }
    }
  }
}
