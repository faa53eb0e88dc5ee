/**
 Why state-machine safety needs a condition: a run on a network that delays one message.  Server 0
 sends server 1 an append without entries, then three entries; the empty one arrives last and cuts
 entries that server 1 has acknowledged and server 0 has committed and applied.  Server 1 then leads
 with the short log, and a different entry is committed and applied at the second position.
 */
module RaftReordering {
  import opened Basics
  import opened RaftTypes
  import opened RaftOps
  import opened RaftNode
  import opened RaftCluster
  import RaftSafety
  import RaftNetwork

  const E1 := Entry(1, 1, 10)
  const E2 := Entry(1, 2, 20)
  const E3 := Entry(1, 3, 30)
  const F2 := Entry(2, 4, 40)

  const Fresh: Peer := Peer(1, 0, false)

  // ---- the states of the three servers, in order ----

  function A(i: nat): (s: Server)
  {
    var led := [Fresh, Peer(1, 0, true), Fresh];
    var one := [Fresh, Peer(2, 1, true), Fresh];
    if i == 0 then NewServer(3, 0)
    else if i == 1 then Server(0, 1, 0, [], 0, 0, [], Candidate, [Fresh, Fresh, Fresh])
    else if i == 2 then Server(0, 1, 0, [], 0, 0, [], Leader, led)
    else if i == 3 then Server(0, 1, 0, [E1], 0, 0, [], Leader, led)
    else if i == 4 then Server(0, 1, 0, [E1], 1, 0, [], Leader, one)
    else if i == 5 then Server(0, 1, 0, [E1], 1, 1, [E1], Leader, one)
    else if i == 6 then Server(0, 1, 0, [E1, E2], 1, 1, [E1], Leader, one)
    else if i == 7 then Server(0, 1, 0, [E1, E2, E3], 1, 1, [E1], Leader, one)
    else if i == 8 then Server(0, 1, 0, [E1, E2, E3], 3, 1, [E1], Leader, [Fresh, Peer(4, 3, true), Fresh])
    else Server(0, 1, 0, [E1, E2, E3], 3, 3, [E1, E2, E3], Leader, [Fresh, Peer(4, 3, true), Fresh])
  }

  function B(i: nat): (s: Server)
  {
    var blank := [Fresh, Fresh, Fresh];
    var led := [Peer(2, 0, false), Fresh, Peer(2, 0, true)];
    if i == 0 then NewServer(3, 1)
    else if i == 1 then Server(1, 1, 0, [], 0, 0, [], Follower, blank)
    else if i == 2 then Server(1, 1, 0, [E1], 0, 0, [], Follower, blank)
    else if i == 3 then Server(1, 1, 0, [E1, E2, E3], 1, 0, [], Follower, blank)
    else if i == 4 then Server(1, 1, 0, [E1], 1, 0, [], Follower, blank)
    else if i == 5 then Server(1, 2, 1, [E1], 1, 1, [E1], Candidate, blank)
    else if i == 6 then Server(1, 2, 1, [E1], 1, 1, [E1], Leader, led)
    else if i == 7 then Server(1, 2, 1, [E1, F2], 1, 1, [E1], Leader, led)
    else if i == 8 then Server(1, 2, 1, [E1, F2], 2, 1, [E1], Leader, led[2 := Peer(3, 2, true)])
    else Server(1, 2, 1, [E1, F2], 2, 2, [E1, F2], Leader, led[2 := Peer(3, 2, true)])
  }

  function C(i: nat): (s: Server)
  {
    var blank := [Fresh, Fresh, Fresh];
    if i == 0 then NewServer(3, 2)
    else if i == 1 then Server(2, 1, -1, [E1], 0, 0, [], Follower, blank)
    else if i == 2 then Server(2, 2, 1, [E1], 0, 0, [], Follower, blank)
    else Server(2, 2, 1, [E1, F2], 1, 0, [], Follower, blank)
  }

  /** The empty append that arrives late. */
  const Delayed: Msg := Append(1, 1, 1, 1, [])

  /** Handling `i` takes `s` to `s'` and sends at least `p`. */
  ghost predicate Does(s: Server, i: Input, s': Server, p: seq<Packet>) {
    (i.FromPeer? ==> i.src < 3 == |s.peers|) &&
    var r := Handle(s, i);
    r.Ok? && r.s == s' && forall k :: 0 <= k < |p| ==> p[k] in r.out
  }

  function State(node: nat, k: nat): (s: Server)
  {
    if node == 0 then A(k) else if node == 1 then B(k) else C(k)
  }

  /** Whether the input takes a server from one of its states to another. */
  ghost function Moves(node: nat, from: nat, i: Input, to: nat, p: seq<Packet>): (v: Verdict)
  {
    if forall x {:trigger Unfold(x)} :: Unfold(x) ==> Does(State(node, from), i, State(node, to), p) then Holds else Fails
  }

  // ---- server 0 leads term 1 ----

  lemma Stands0()
    ensures Moves(0, 0, Periodic(true), 1, [Packet(0, 1, RequestVote(1, 0, 0, 0))]).Holds?
  {
    var s := BecomeCandidate(A(0)).s;
    assert s.peers == A(1).peers;
    assert AskVotes(s, 0) == AskVotes(s, 1);
    assert AskVotes(s, 1) == [Packet(0, 1, VoteRequest(s))] + AskVotes(s, 2);
  }

  lemma Elected0()
    ensures Moves(1, 0, FromPeer(0, RequestVote(1, 0, 0, 0)), 1, [Packet(1, 0, VoteReply(1, true))]).Holds?
  {
    assert B(0).peers == B(1).peers;
  }

  lemma Leads0()
    ensures Moves(0, 1, FromPeer(1, VoteReply(1, true)), 2, []).Holds?
  {
    var s1 := A(1).(peers := A(1).peers[1 := A(1).peers[1].(voted := true)]);
    assert Supporters(s1) == {1};
    assert BecomeLeader(s1).s.peers == A(2).peers;
  }

  // ---- the first entry reaches both followers; server 0 commits it ----

  const First: Msg := Append(1, 0, 0, 0, [E1])

  lemma FirstEntry()
    ensures Moves(0, 2, ClientEntry(1, 10), 3, [Packet(0, 1, First), Packet(0, 2, First)]).Holds?
  {
    assert A(3).log[0..] == [E1];
    assert SendWhere(A(3), 1, false) == [Packet(0, 1, First)] + SendWhere(A(3), 2, false);
  }

  lemma FirstStored()
    ensures Moves(1, 1, FromPeer(0, First), 2, [Packet(1, 0, AppendReply(1, true, 1, 1))]).Holds?
    ensures Moves(2, 0, FromPeer(0, First), 1, []).Holds?
  {
    assert AppendableLen([E1], 0) == 1;
    assert C(0).peers == C(1).peers;
  }

  lemma FirstCommitted()
    ensures Moves(0, 3, FromPeer(1, AppendReply(1, true, 1, 1)), 4, []).Holds?
  {
    var s1 := A(3).(peers := A(3).peers[1 := Peer(2, 1, true)]);
    assert s1.peers == A(4).peers;
    assert Ackers(s1, 1) == {1};
  }

  // ---- the delayed message, and two more entries ----

  lemma DelayedSent()
    ensures Moves(0, 4, Periodic(true), 5, [Packet(0, 1, Delayed)]).Holds?
  {
    var s := A(4);
    assert SendWhere(s, 0, true) == SendWhere(s, 1, true);
    assert s.log[1..] == [] && AppendFor(s, 1) == Delayed;
    assert SendWhere(s, 1, true) == [Packet(0, 1, Delayed)] + SendWhere(s, 2, true);
    assert ApplyEntry(s) == A(5);
  }

  const Rest: Msg := Append(1, 1, 1, 1, [E2, E3])

  lemma SecondEntry()
    ensures Moves(0, 5, ClientEntry(2, 20), 6, []).Holds?
  {
    assert [E1] + [E2] == [E1, E2];
  }

  lemma ThirdEntry()
    ensures Moves(0, 6, ClientEntry(3, 30), 7, []).Holds?
  {
    assert [E1, E2] + [E3] == [E1, E2, E3];
  }

  lemma MoreEntries()
    ensures Moves(0, 7, Periodic(true), 7, [Packet(0, 1, Rest)]).Holds?
  {
    assert SendWhere(A(7), 0, true) == SendWhere(A(7), 1, true);
    assert A(7).log[1..] == [E2, E3];
  }

  lemma MoreStored()
    ensures Moves(1, 2, FromPeer(0, Rest), 3, [Packet(1, 0, AppendReply(1, true, 3, 2))]).Holds?
  {
    assert AppendableLen([E2, E3], 1) == 2;
    assert AppendableLen([E2, E3], 0) == 2;
    assert [E1] + [E2, E3][0..2] == [E1, E2, E3];
  }

  lemma MoreCommitted()
    ensures Moves(0, 7, FromPeer(1, AppendReply(1, true, 3, 2)), 8, []).Holds?
  {
    var s1 := A(7).(peers := A(7).peers[1 := Peer(4, 3, true)]);
    assert s1.peers == A(8).peers;
    assert Ackers(s1, 3) == {1};
  }

  lemma AllApplied()
    ensures Moves(0, 8, ApplyCommitted, 9, []).Holds?
  {
    var s := ApplyEntry(A(8));
    assert s.trace == [E1, E2];
    assert ApplyEntry(s).trace == [E1, E2, E3];
    assert ApplyAll(s) == ApplyAll(ApplyEntry(s));
  }

  // ---- the delayed message cuts what was acknowledged ----

  lemma Cut()
    ensures Moves(1, 3, FromPeer(0, Delayed), 4, []).Holds?
  {
    assert [E1, E2, E3][..1] == [E1];
  }

  // ---- server 1 leads term 2 with the short log ----

  lemma Elected1()
    ensures Moves(1, 4, Periodic(true), 5, [Packet(1, 2, RequestVote(2, 1, 1, 1))]).Holds?
    ensures Moves(2, 1, FromPeer(1, RequestVote(2, 1, 1, 1)), 2, [Packet(2, 1, VoteReply(2, true))]).Holds?
  {
    var s := BecomeCandidate(B(4)).s;
    assert s.peers == B(5).peers;
    assert AskVotes(s, 0) == [Packet(1, 0, VoteRequest(s))] + AskVotes(s, 1);
    assert AskVotes(s, 1) == AskVotes(s, 2);
  }

  lemma Leads1()
    ensures Moves(1, 5, FromPeer(2, VoteReply(2, true)), 6, []).Holds?
  {
    var s1 := B(5).(peers := B(5).peers[2 := B(5).peers[2].(voted := true)]);
    assert Supporters(s1) == {2};
    assert BecomeLeader(s1).s.peers == B(6).peers;
  }

  const Other: Msg := Append(2, 1, 1, 1, [F2])

  lemma OtherEntry()
    ensures Moves(1, 6, ClientEntry(4, 40), 7, [Packet(1, 2, Other)]).Holds?
  {
    assert [E1] + [F2] == [E1, F2] == B(7).log;
    assert B(7).log[1..] == [F2];
    assert SendWhere(B(7), 0, false) == [Packet(1, 0, Other)] + SendWhere(B(7), 1, false);
    assert SendWhere(B(7), 1, false) == SendWhere(B(7), 2, false);
  }

  lemma OtherStored()
    ensures Moves(2, 2, FromPeer(1, Other), 3, [Packet(2, 1, AppendReply(2, true, 2, 2))]).Holds?
  {
    assert AppendableLen([F2], 0) == 1;
  }

  lemma OtherCommitted()
    ensures Moves(1, 7, FromPeer(2, AppendReply(2, true, 2, 2)), 8, []).Holds?
    ensures Moves(1, 8, ApplyCommitted, 9, []).Holds?
  {
    var s1 := B(7).(peers := B(7).peers[2 := Peer(3, 2, true)]);
    assert s1.peers == B(8).peers;
    assert Ackers(s1, 2) == {2};
    assert ApplyEntry(B(8)).trace == [E1, F2];
    assert ApplyAll(B(8)) == ApplyAll(ApplyEntry(B(8)));
  }

  // ---- the run ----

  ghost predicate Reached(c: Cluster) {
    exists events :: Run(3, events) == c
  }

  /** Whether `c` was reached and its servers are in the states `a`, `b` and `d`. */
  ghost function At(c: Cluster, a: nat, b: nat, d: nat): (v: Verdict)
  {
    if forall x {:trigger Unfold(x)} :: Unfold(x) ==>
      Reached(c) && c.nodes == [State(0, a), State(1, b), State(2, d)] && c.down == map[]
    then Holds else Fails
  }

  ghost predicate Arrived(c: Cluster, node: nat, i: Input) {
    i.FromPeer? ==> Packet(i.src, node, i.msg) in c.sent
  }

  ghost predicate AllIn(p: seq<Packet>, sent: set<Packet>) {
    forall k :: 0 <= k < |p| ==> p[k] in sent
  }

  /** One event of the run. */
  lemma Do(c: Cluster, e: Event, s': Server, p: seq<Packet>) returns (c': Cluster)
    requires Reached(c) && c.down == map[] && Enabled(c, e) && Does(c.nodes[e.node], e.input, s', p)
    ensures Reached(c') && c'.nodes == c.nodes[e.node := s'] && c'.down == map[] && c.sent <= c'.sent
    ensures AllIn(p, c'.sent)
  {
    var events :| Run(3, events) == c;
    c' := Step(c, e);
    assert (events + [e])[..|events|] == events;
    assert Run(3, events + [e]) == c';
  }

  lemma Open(c: Cluster, a: nat, b: nat, d: nat)
    requires At(c, a, b, d).Holds?
    ensures Reached(c) && c.nodes == [State(0, a), State(1, b), State(2, d)] && c.down == map[]
  {
    assert Unfold(0);
  }

  lemma OpenMove(node: nat, from: nat, i: Input, to: nat, p: seq<Packet>)
    requires Moves(node, from, i, to, p).Holds?
    ensures Does(State(node, from), i, State(node, to), p)
  {
    assert Unfold(0);
  }

  lemma Do0(c: Cluster, a: nat, b: nat, d: nat, i: Input, to: nat, p: seq<Packet>) returns (c': Cluster)
    requires At(c, a, b, d).Holds? && Moves(0, a, i, to, p).Holds? && Arrived(c, 0, i)
    ensures At(c', to, b, d).Holds? && c.sent <= c'.sent && AllIn(p, c'.sent)
  {
    Open(c, a, b, d);
    OpenMove(0, a, i, to, p);
    c' := Do(c, Event(0, i), State(0, to), p);
  }

  lemma Do1(c: Cluster, a: nat, b: nat, d: nat, i: Input, to: nat, p: seq<Packet>) returns (c': Cluster)
    requires At(c, a, b, d).Holds? && Moves(1, b, i, to, p).Holds? && Arrived(c, 1, i)
    ensures At(c', a, to, d).Holds? && c.sent <= c'.sent && AllIn(p, c'.sent)
  {
    Open(c, a, b, d);
    OpenMove(1, b, i, to, p);
    c' := Do(c, Event(1, i), State(1, to), p);
  }

  lemma Do2(c: Cluster, a: nat, b: nat, d: nat, i: Input, to: nat, p: seq<Packet>) returns (c': Cluster)
    requires At(c, a, b, d).Holds? && Moves(2, d, i, to, p).Holds? && Arrived(c, 2, i)
    ensures At(c', a, b, to).Holds? && c.sent <= c'.sent && AllIn(p, c'.sent)
  {
    Open(c, a, b, d);
    OpenMove(2, d, i, to, p);
    c' := Do(c, Event(2, i), State(2, to), p);
  }

  lemma Start() returns (c: Cluster)
    ensures At(c, 0, 0, 0).Holds?
  {
    c := Init(3);
    assert Run(3, []) == c;
    assert c.nodes == [State(0, 0), State(1, 0), State(2, 0)];
  }

  /** Server 0 is elected and commits its first entry. */
  lemma Prologue() returns (c: Cluster)
    ensures At(c, 4, 2, 1).Holds?
  {
    c := Start();
    Stands0();
    Elected0();
    Leads0();
    FirstEntry();
    FirstStored();
    FirstCommitted();
    var ask, first := [Packet(0, 1, RequestVote(1, 0, 0, 0))], [Packet(0, 1, First), Packet(0, 2, First)];
    var vote, ack := [Packet(1, 0, VoteReply(1, true))], [Packet(1, 0, AppendReply(1, true, 1, 1))];
    c := Do0(c, 0, 0, 0, Periodic(true), 1, ask);
    assert ask[0] in c.sent;
    c := Do1(c, 1, 0, 0, FromPeer(0, RequestVote(1, 0, 0, 0)), 1, vote);
    assert vote[0] in c.sent;
    c := Do0(c, 1, 1, 0, FromPeer(1, VoteReply(1, true)), 2, []);
    c := Do0(c, 2, 1, 0, ClientEntry(1, 10), 3, first);
    assert first[0] in c.sent && first[1] in c.sent;
    c := Do1(c, 3, 1, 0, FromPeer(0, First), 2, ack);
    assert ack[0] in c.sent;
    c := Do2(c, 3, 2, 0, FromPeer(0, First), 1, []);
    c := Do0(c, 3, 2, 1, FromPeer(1, AppendReply(1, true, 1, 1)), 4, []);
  }

  /** The delayed message is sent first and arrives last, when its entries are committed elsewhere. */
  lemma Overtaken(c0: Cluster) returns (c: Cluster)
    requires At(c0, 4, 2, 1).Holds?
    ensures At(c, 9, 4, 1).Holds?
  {
    DelayedSent();
    SecondEntry();
    ThirdEntry();
    MoreEntries();
    MoreStored();
    MoreCommitted();
    AllApplied();
    Cut();
    var late, rest := [Packet(0, 1, Delayed)], [Packet(0, 1, Rest)];
    var ack := [Packet(1, 0, AppendReply(1, true, 3, 2))];
    c := Do0(c0, 4, 2, 1, Periodic(true), 5, late);
    assert late[0] in c.sent;
    c := Do0(c, 5, 2, 1, ClientEntry(2, 20), 6, []);
    c := Do0(c, 6, 2, 1, ClientEntry(3, 30), 7, []);
    c := Do0(c, 7, 2, 1, Periodic(true), 7, rest);
    assert rest[0] in c.sent;
    c := Do1(c, 7, 2, 1, FromPeer(0, Rest), 3, ack);
    assert ack[0] in c.sent;
    c := Do0(c, 7, 3, 1, FromPeer(1, AppendReply(1, true, 3, 2)), 8, []);
    c := Do0(c, 8, 3, 1, ApplyCommitted, 9, []);
    c := Do1(c, 9, 3, 1, FromPeer(0, Delayed), 4, []);
  }

  /** Server 1 commits another entry at the second position. */
  lemma Replaced(c0: Cluster) returns (c: Cluster)
    requires At(c0, 9, 4, 1).Holds?
    ensures At(c, 9, 9, 3).Holds?
  {
    Elected1();
    Leads1();
    OtherEntry();
    OtherStored();
    OtherCommitted();
    var ask, vote := [Packet(1, 2, RequestVote(2, 1, 1, 1))], [Packet(2, 1, VoteReply(2, true))];
    var other, ack := [Packet(1, 2, Other)], [Packet(2, 1, AppendReply(2, true, 2, 2))];
    c := Do1(c0, 9, 4, 1, Periodic(true), 5, ask);
    assert ask[0] in c.sent;
    c := Do2(c, 9, 5, 1, FromPeer(1, RequestVote(2, 1, 1, 1)), 2, vote);
    assert vote[0] in c.sent;
    c := Do1(c, 9, 5, 2, FromPeer(2, VoteReply(2, true)), 6, []);
    c := Do1(c, 9, 6, 2, ClientEntry(4, 40), 7, other);
    assert other[0] in c.sent;
    c := Do2(c, 9, 7, 2, FromPeer(1, Other), 3, ack);
    assert ack[0] in c.sent;
    c := Do1(c, 9, 7, 3, FromPeer(2, AppendReply(2, true, 2, 2)), 8, []);
    c := Do1(c, 9, 8, 3, ApplyCommitted, 9, []);
  }

  ghost predicate AppliedDifferently(c: Cluster, a: nat, b: nat, k: nat) {
    a < |c.nodes| && b < |c.nodes| && k < |c.nodes[a].trace| && k < |c.nodes[b].trace| &&
    c.nodes[a].trace[k] != c.nodes[b].trace[k]
  }

  /** Only a run with a cut can end with different entries applied at a position. */
  lemma OnlyCutsBreakSafety(n: nat, events: seq<Event>, a: nat, b: nat, k: nat)
    requires AppliedDifferently(Run(n, events), a, b, k)
    ensures !RaftNetwork.NoCuts(n, events)
  {
    assert events[..|events|] == events;
    RaftSafety.RunInv(n, events);
    if RaftNetwork.NoCuts(n, events) {
      RaftNetwork.StateMachineSafety(n, events, |events|, a, b, k);
    }
  }

  /** A run with a cut can: two servers apply different entries at the same position, and no assertion
      fails on the way. */
  lemma ReorderingBreaksSafety()
    ensures exists events :: Run(3, events).down == map[] && AppliedDifferently(Run(3, events), 0, 1, 1)
  {
    var c := Prologue();
    c := Overtaken(c);
    c := Replaced(c);
    Open(c, 9, 9, 3);
    assert AppliedDifferently(c, 0, 1, 1);
  }
}
