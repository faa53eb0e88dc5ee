/**
 Safety on an arbitrary network, with the exact condition.  A step leads from a safe state to a safe
 state if and only if it does not deliver an append without entries that deletes something the
 receiver acknowledged to the sender in that term.  In every run without such a delivery, whatever is
 lost, duplicated or reordered, no assertion fails and no two servers apply different entries at an
 index.
 */
module RaftNetwork {
  import opened RaftTypes
  import opened RaftOps
  import opened RaftNode
  import opened RaftCluster
  import opened RaftReplication
  import opened RaftSafety
  import opened RaftCommit
  import opened RaftCut
  import opened RaftCompleteness
  import opened RaftCommitRule

  ghost predicate Safe(n: nat, c: Cluster, h: History) {
    Inv(n, c, h) && CommitInv(n, c, h) && CommitsBacked(n, c, h) && c.down == map[]
  }

  /** What a server acknowledged to the leader of its present term beyond the log that leader was
      elected with, it holds. */
  lemma AckedIsHeld(n: nat, c: Cluster, h: History, v: nat, j: nat)
    requires Inv(n, c, h) && Keeps(n, c, h) && v < n
    requires Acked(c.sent, h, v, c.nodes[v].term, j) && OwnTerm(h, c.nodes[v].term, j)
    ensures Has(c.nodes[v].log, h.reigns[c.nodes[v].term].log, j)
  {
    assert Kept(h, c.nodes[v].log, c.nodes[v].term, j, c.nodes[v].term);
  }

  /** The acknowledgement that a cut takes back. */
  lemma CutAck(n: nat, c: Cluster, h: History, e: Event) returns (j: nat)
    requires Inv(n, c, h) && CutsAcked(c, e)
    ensures e.input.msg.prevIdx < j && c.nodes[e.node].term == e.input.msg.term
    ensures Acked(c.sent, h, e.node, c.nodes[e.node].term, j) && OwnTerm(h, c.nodes[e.node].term, j)
  {
    var i, m := e.node, e.input.msg;
    assert PacketInv(n, c.nodes, h, Packet(e.input.src, i, m));
    var p :| p in c.sent && p.src == i && p.msg.AppendReply? && p.msg.success
             && p.msg.term == m.term && m.prevIdx + 1 <= p.msg.currentIdx;
    assert PacketInv(n, c.nodes, h, p);
    j := m.prevIdx + 1;
    assert ReignInv(n, c.nodes, c.sent, h, m.term);
    assert RepliedUpTo(c.sent, i, m.term, j);
  }

  /** A cut leaves an unsafe state: the server stopped, or no longer holds what it acknowledged. */
  lemma CutIsUnsafe(n: nat, c: Cluster, h: History, e: Event)
    requires Safe(n, c, h) && CutsAcked(c, e)
    ensures !Safe(n, Step(c, e), TrackStep(c, h, e))
  {
    if Handle(c.nodes[e.node], e.input).Ok? {
      var j := CutAck(n, c, h, e);
      CutLoses(n, c, h, e.node, e.input.src, e.input.msg, j);
      var c' := Step(c, e);
      AckedMono(c.sent, c'.sent, h, h, e.node, e.node, c.nodes[e.node].term, j);
      if Safe(n, c', h) {
        AckedIsHeld(n, c', h, e.node, j);
      }
    }
  }

  /** After a cut the receiver is in the same term and lacks what it had acknowledged. */
  lemma CutLoses(n: nat, c: Cluster, h: History, i: nat, src: nat, m: Msg, j: nat)
    requires i < |c.nodes| == n && Inv(n, c, h) && Keeps(n, c, h) && m.Append? && Packet(src, i, m) in c.sent
    requires RecvAppend(c.nodes[i], src, m).Ok? && Deletes(c.nodes[i], m) && m.prevIdx < j && c.nodes[i].term == m.term
    requires Acked(c.sent, h, i, c.nodes[i].term, j) && OwnTerm(h, c.nodes[i].term, j)
    ensures var s' := RecvAppend(c.nodes[i], src, m).s;
            Track(h, c.nodes[i], s') == h && s'.term == m.term && !Has(s'.log, h.reigns[m.term].log, j)
  {
    AckedIsHeld(n, c, h, i, j);
    KeepsExactly(n, c, h, i, src, m, j);
    AppendStep(n, c, h, i, src, m);
    AppendEffect(n, c, h, i, src, m);
    AdoptFollows(n, c, h, i, src, m);
  }

  /** A step keeps the state safe if and only if it cuts nothing acknowledged. */
  lemma SafeExactly(n: nat, c: Cluster, h: History, e: Event)
    requires Safe(n, c, h)
    ensures Safe(n, Step(c, e), TrackStep(c, h, e)) <==> !CutsAcked(c, e)
  {
    if CutsAcked(c, e) {
      CutIsUnsafe(n, c, h, e);
    } else {
      StepKeepsInv(n, c, h, e);
      StepKeepsCommitInv(n, c, h, e);
      StepKeepsBacked(n, c, h, e);
      if Enabled(c, e) {
        HaltsOnCutsOnly(n, c, h, e);
      }
    }
  }

  // ---- runs ----

  /** No event of the run cuts anything acknowledged. */
  ghost predicate NoCuts(n: nat, events: seq<Event>) {
    events == [] ||
    (NoCuts(n, events[..|events| - 1]) && !CutsAcked(Run(n, events[..|events| - 1]), events[|events| - 1]))
  }

  /** Every state of the run is safe. */
  ghost predicate SafeThroughout(n: nat, events: seq<Event>) {
    Safe(n, Run(n, events), RunHistory(n, events)) &&
    (events == [] || SafeThroughout(n, events[..|events| - 1]))
  }

  /** The exact condition: a run is safe throughout if and only if it has no cuts. */
  lemma {:induction false} SafeRuns(n: nat, events: seq<Event>)
    ensures SafeThroughout(n, events) <==> NoCuts(n, events)
  {
    if events == [] {
      InitInv(n);
    } else {
      var before, e := events[..|events| - 1], events[|events| - 1];
      SafeRuns(n, before);
      if SafeThroughout(n, before) {
        SafeExactly(n, Run(n, before), RunHistory(n, before), e);
      }
    }
  }

  /** In a run without cuts no assertion of any server fails. */
  lemma NoServerHalts(n: nat, events: seq<Event>)
    requires NoCuts(n, events)
    ensures Run(n, events).down == map[]
  {
    SafeRuns(n, events);
  }

  lemma StepTraceGrows(n: nat, c: Cluster, h: History, e: Event, a: nat)
    requires Inv(n, c, h) && a < n
    ensures |Step(c, e).nodes| == n && c.nodes[a].trace <= Step(c, e).nodes[a].trace
  {
    if Enabled(c, e) {
      assert NodeInv(n, c.sent, h, e.node, c.nodes[e.node]);
      HandleOk(c.nodes[e.node], e.input);
    }
  }

  /** What a server has applied is never taken back, in any run. */
  lemma {:induction false} TraceGrows(n: nat, events: seq<Event>, m: nat, a: nat)
    requires m <= |events| && a < n
    ensures |Run(n, events).nodes| == n == |Run(n, events[..m]).nodes|
    ensures Run(n, events[..m]).nodes[a].trace <= Run(n, events).nodes[a].trace
    decreases |events|
  {
    RunInv(n, events);
    if m == |events| {
      assert events[..m] == events;
    } else {
      var before, e := events[..|events| - 1], events[|events| - 1];
      assert before[..m] == events[..m];
      TraceGrows(n, before, m, a);
      RunInv(n, before);
      StepTraceGrows(n, Run(n, before), RunHistory(n, before), e, a);
    }
  }

  lemma TracesAgree(n: nat, c: Cluster, h: History, a: nat, b: nat, k: nat)
    requires Safe(n, c, h) && a < n && b < n && k < |c.nodes[a].trace| && k < |c.nodes[b].trace|
    ensures c.nodes[a].trace[k] == c.nodes[b].trace[k]
  {
    assert NodeInv(n, c.sent, h, a, c.nodes[a]) && NodeInv(n, c.sent, h, b, c.nodes[b]);
    CommitsAgree(n, c, h, a, b, k);
  }

  /** State-machine safety.  In every run without cuts, on any network, if a server has applied an
      entry at position `k` by some moment, and a server has applied one there by a later moment, they
      applied the same entry. */
  lemma StateMachineSafety(n: nat, events: seq<Event>, m: nat, a: nat, b: nat, k: nat)
    requires NoCuts(n, events) && m <= |events| && a < n && b < n
    ensures |Run(n, events[..m]).nodes| == n == |Run(n, events).nodes|
    ensures var x, y := Run(n, events[..m]).nodes[a].trace, Run(n, events).nodes[b].trace;
            k < |x| && k < |y| ==> x[k] == y[k]
  {
    TraceGrows(n, events, m, a);
    SafeRuns(n, events);
    if k < |Run(n, events[..m]).nodes[a].trace| && k < |Run(n, events).nodes[b].trace| {
      TracesAgree(n, Run(n, events), RunHistory(n, events), a, b, k);
    }
  }
}
