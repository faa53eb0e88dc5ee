/**
 Elections succeed.  From every reachable state, a server whose log is no older than those of a majority
 that can still vote is elected when it times out and its requests and their answers arrive.
 */
module RaftCampaign {
  import opened Basics
  import opened RaftTypes
  import opened RaftOps
  import opened RaftCluster
  import opened RaftSafety
  import opened RaftNetwork
  import opened RaftPath
  import opened RaftEffects

  /** A voter receives the request, and the candidate its answer. */
  function Ballot(i: nat, m: Msg, v: nat): (events: seq<Event>)
  {
    [Event(v, FromPeer(i, m))] + [Event(i, FromPeer(v, VoteReply(m.term, true)))]
  }

  /** Each voter in turn is asked and answers. */
  function Canvass(i: nat, m: Msg, vs: seq<nat>): (events: seq<Event>)
  {
    if vs == [] then [] else Ballot(i, m, vs[0]) + Canvass(i, m, vs[1..])
  }

  /** The candidate stands, or has been elected, with the log and term of its request `m`. */
  ghost predicate Candidacy(c: Cluster, n: nat, i: nat, m: Msg, log: Log, counted: set<nat>) {
    && i < n == |c.nodes| && i !in c.down && m.RequestVote?
    && var s := c.nodes[i];
    && s.id == i && |s.peers| == n && s.term == m.term && s.log == log && s.vote == i
    && (forall v :: v in counted ==> v < n && c.nodes[v].term <= m.term)
    && (s.role == Leader
        || (s.role == Candidate && counted <= Supporters(s) && !MajorityOf(n, i, Supporters(s) + {i})))
  }

  /** The voters still to be asked can be, and will grant. */
  ghost predicate Willing(c: Cluster, n: nat, i: nat, m: Msg, vs: seq<nat>) {
    && m.RequestVote? && n == |c.nodes|
    && Distinct(vs)
    && forall v :: v in vs ==>
         v < n && v != i && v !in c.down && Packet(i, v, m) in c.sent && Deserves(c.nodes[v], m)
  }

  /** One voter grants, and the candidacy stands. */
  lemma Granted(n: nat, c: Cluster, h: History, i: nat, m: Msg, log: Log, counted: set<nat>, v: nat)
    returns (c': Cluster, h': History)
    requires Sound(n, c, h) == Holds && Candidacy(c, n, i, m, log, counted) && v < n && v != i && v !in c.down
    requires Packet(i, v, m) in c.sent && Deserves(c.nodes[v], m)
    ensures Path(c, h, [Event(v, FromPeer(i, m))], c', h') == Holds && Sound(n, c', h') == Holds
    ensures Candidacy(c', n, i, m, log, counted) && Packet(v, i, VoteReply(m.term, true)) in c'.sent
    ensures c'.nodes[v].term == m.term
    ensures c'.down == c.down && c.sent <= c'.sent && c'.nodes == c.nodes[v := c'.nodes[v]]
  {
    GrantedReply(n, c, h, i, m, v);
    c', h' := SoundStep(n, c, h, Event(v, FromPeer(i, m)));
    assert RecvRequestVote(c.nodes[v], i, m).out[0] == Packet(v, i, VoteReply(m.term, true));
    assert c'.nodes[i] == c.nodes[i];
  }

  lemma GrantedReply(n: nat, c: Cluster, h: History, i: nat, m: Msg, v: nat)
    requires Sound(n, c, h) == Holds && m.RequestVote? && v < n == |c.nodes| && i < n
    requires Packet(i, v, m) in c.sent && Deserves(c.nodes[v], m)
    ensures var r := RecvRequestVote(c.nodes[v], i, m);
            r.Ok? && r.out == [Packet(v, i, VoteReply(m.term, true))] && r.s.term == m.term && i < |c.nodes[v].peers|
  {
    assert Unfold(0);
    assert NodeInv(n, c.sent, h, v, c.nodes[v]);
    VoteIsExact(n, c, h, v, i, m);
  }

  /** The candidate counts it. */
  lemma Counted(n: nat, c: Cluster, h: History, i: nat, m: Msg, log: Log, counted: set<nat>, v: nat)
    returns (c': Cluster, h': History)
    requires Sound(n, c, h) == Holds && Candidacy(c, n, i, m, log, counted) && v < n && v != i
    requires Packet(v, i, VoteReply(m.term, true)) in c.sent && c.nodes[v].term <= m.term
    ensures Path(c, h, [Event(i, FromPeer(v, VoteReply(m.term, true)))], c', h') == Holds && Sound(n, c', h') == Holds
    ensures Candidacy(c', n, i, m, log, counted + {v})
    ensures c'.down == c.down && c.sent <= c'.sent && c'.nodes == c.nodes[i := c'.nodes[i]]
  {
    var s, reply := c.nodes[i], VoteReply(m.term, true);
    c', h' := SoundStep(n, c, h, Event(i, FromPeer(v, reply)));
    if s.role == Candidate {
      ElectedExactly(s, v, reply);
      assert Supporters(s) + {v, i} == Supporters(s) + {v} + {i};
    }
  }

  /** What concerns the other voters does not change. */
  lemma StillWilling(c: Cluster, c': Cluster, n: nat, i: nat, m: Msg, vs: seq<nat>, v: nat)
    requires Willing(c, n, i, m, vs) && vs != [] && v == vs[0] && i < n
    requires c'.down == c.down && c.sent <= c'.sent && |c'.nodes| == n
    requires forall x: nat :: x < n && x != v && x != i ==> c'.nodes[x] == c.nodes[x]
    ensures Willing(c', n, i, m, vs[1..])
  {
    forall x | x in vs[1..]
      ensures x in vs && x != v
    {
      var k :| 0 <= k < |vs[1..]| && vs[1..][k] == x;
      assert vs[k + 1] == x;
    }
  }

  /** One voter's grant and its count. */
  lemma CanvassOne(n: nat, c: Cluster, h: History, i: nat, m: Msg, log: Log, counted: set<nat>, vs: seq<nat>)
    returns (c2: Cluster, h2: History)
    requires Sound(n, c, h) == Holds && Candidacy(c, n, i, m, log, counted) && Willing(c, n, i, m, vs) && vs != []
    ensures Path(c, h, Ballot(i, m, vs[0]), c2, h2) == Holds
    ensures Sound(n, c2, h2) == Holds && Candidacy(c2, n, i, m, log, counted + {vs[0]}) && Willing(c2, n, i, m, vs[1..])
  {
    var v := vs[0];
    assert v in vs;
    var c1, h1 := Granted(n, c, h, i, m, log, counted, v);
    c2, h2 := Counted(n, c1, h1, i, m, log, counted, v);
    PathMore(c, h, [Event(v, FromPeer(i, m))], c1, h1, [Event(i, FromPeer(v, VoteReply(m.term, true)))], c2, h2);
    StillWilling(c, c2, n, i, m, vs, v);
  }

  /** All voters grant and are counted. */
  lemma {:induction false} Canvassed(n: nat, c: Cluster, h: History, i: nat, m: Msg, log: Log, counted: set<nat>, vs: seq<nat>)
    returns (c': Cluster, h': History)
    requires Sound(n, c, h) == Holds && Candidacy(c, n, i, m, log, counted) && Willing(c, n, i, m, vs)
    ensures Path(c, h, Canvass(i, m, vs), c', h') == Holds && Candidacy(c', n, i, m, log, counted + Members(vs))
    decreases |vs|
  {
    if vs == [] {
      c', h' := c, h;
      PathNone(c, h);
      assert counted + Members(vs) == counted;
    } else {
      var c2, h2 := CanvassOne(n, c, h, i, m, log, counted, vs);
      c', h' := Canvassed(n, c2, h2, i, m, log, counted + {vs[0]}, vs[1..]);
      MembersSplit(vs);
      assert counted + {vs[0]} + Members(vs[1..]) == counted + Members(vs);
      PathMore(c, h, Ballot(i, m, vs[0]), c2, h2, Canvass(i, m, vs[1..]), c', h');
    }
  }

  // ---- counting ----

  function Members(vs: seq<nat>): (r: set<nat>)
  {
    set v | v in vs
  }

  lemma MembersSplit(vs: seq<nat>)
    requires vs != []
    ensures Members(vs) == {vs[0]} + Members(vs[1..])
  {
    assert vs == [vs[0]] + vs[1..];
  }

  ghost predicate Distinct(vs: seq<nat>) {
    forall a, b :: 0 <= a < b < |vs| ==> vs[a] != vs[b]
  }

  lemma {:induction false} DistinctCount(vs: seq<nat>)
    requires Distinct(vs)
    ensures |Members(vs)| == |vs|
  {
    if vs != [] {
      DistinctCount(vs[1..]);
      MembersSplit(vs);
      assert forall k :: 0 <= k < |vs[1..]| ==> vs[1..][k] == vs[k + 1];
    }
  }

  lemma SmallerSet(p: set<nat>, q: set<nat>)
    requires p <= q
    ensures |p| <= |q|
  {
    assert q == p + (q - p);
  }

  lemma LargerMajority(n: nat, i: nat, vs: seq<nat>, q: set<nat>)
    requires Distinct(vs) && i !in vs && n < 2 * (|vs| + 1)
    requires i in q && Members(vs) <= q && forall v :: v in q ==> v < n
    ensures MajorityOf(n, i, q)
  {
    DistinctCount(vs);
    var p := Members(vs) + {i};
    assert |p| == |vs| + 1;
    SmallerSet(p, q);
  }

  /** What server `i` asks for when it stands. */
  ghost function RequestOf(s: Server): (m: Msg)
  {
    RequestVote(s.term + 1, s.id, |s.log|, LastTerm(s.log))
  }

  /** The voters are other servers in working order, each once, that deserve to be asked by `i`. */
  ghost predicate Electorate(c: Cluster, n: nat, i: nat, vs: seq<nat>) {
    && i < n == |c.nodes| && Distinct(vs)
    && forall v :: v in vs ==> v < n && v != i && v !in c.down && Deserves(c.nodes[v], RequestOf(c.nodes[i]))
  }

  /** The server stands. */
  lemma Stands(n: nat, sent: set<Packet>, h: History, s: Server, vs: seq<nat>)
    requires NodeInv(n, sent, h, s.id, s) && 1 < n && s.role != Leader
    requires forall v :: v in vs ==> v < n && v != s.id
    ensures var r := RunPeriodic(s, true);
            && r.Ok? && r.s.id == s.id && |r.s.peers| == n && r.s.term == s.term + 1 && r.s.log == s.log
            && r.s.vote == s.id && r.s.role == Candidate && Supporters(r.s) + {s.id} == {s.id}
            && forall v :: v in vs ==> Packet(s.id, v, RequestOf(s)) in r.out
  {
    var r := RunPeriodic(s, true);
    StandsExactly(s, if s.id == 0 then 1 else 0);
    assert Supporters(r.s) == Supporters(BecomeCandidate(s).s);
    forall v | v in vs
      ensures Packet(s.id, v, RequestOf(s)) in r.out
    {
      StandsExactly(s, v);
    }
  }

  /** The others are as they were. */
  lemma Stood(n: nat, c: Cluster, h: History, i: nat, vs: seq<nat>) returns (c': Cluster, h': History)
    requires Sound(n, c, h) == Holds && Electorate(c, n, i, vs) && 1 < n && i !in c.down && c.nodes[i].role != Leader
    ensures Path(c, h, [Event(i, Periodic(true))], c', h') == Holds && Sound(n, c', h') == Holds
    ensures var m := RequestOf(c.nodes[i]);
            Candidacy(c', n, i, m, c.nodes[i].log, {}) && Willing(c', n, i, m, vs)
  {
    c', h' := SoundStep(n, c, h, Event(i, Periodic(true)));
    assert NodeInv(n, c.sent, h, i, c.nodes[i]) by { assert Unfold(0); }
    Stands(n, c.sent, h, c.nodes[i], vs);
  }

  /** An election from a state of the cluster. */
  lemma Elected(n: nat, c: Cluster, h: History, i: nat, vs: seq<nat>) returns (c': Cluster, h': History)
    requires Sound(n, c, h) == Holds && Electorate(c, n, i, vs) && 1 < n < 2 * (|vs| + 1) && i !in c.down && c.nodes[i].role != Leader
    ensures Path(c, h, [Event(i, Periodic(true))] + Canvass(i, RequestOf(c.nodes[i]), vs), c', h') == Holds
    ensures |c'.nodes| == n && i !in c'.down
    ensures c'.nodes[i].role == Leader && c'.nodes[i].term == c.nodes[i].term + 1 && c'.nodes[i].log == c.nodes[i].log
    ensures forall v :: v in vs ==> v < n && c'.nodes[v].term <= c'.nodes[i].term
  {
    var s := c.nodes[i];
    var m := RequestOf(s);
    var c1, h1 := Stood(n, c, h, i, vs);
    c', h' := Canvassed(n, c1, h1, i, m, s.log, {}, vs);
    PathMore(c, h, [Event(i, Periodic(true))], c1, h1, Canvass(i, m, vs), c', h');
    var s' := c'.nodes[i];
    assert forall v :: v in vs ==> v in Members(vs);
    if s'.role == Candidate {
      LargerMajority(n, i, vs, Supporters(s') + {i});
    }
  }

  /** In every reachable state, a server that does not lead, and whose log is no older than those of other
      servers that with it are a majority and can still vote in its next term, is elected in that term
      when it times out and its requests and their answers are delivered. */
  lemma ElectionSucceeds(n: nat, events: seq<Event>, i: nat, vs: seq<nat>)
    requires var c := Run(n, events);
             Electorate(c, n, i, vs) && 1 < n < 2 * (|vs| + 1) && i !in c.down && c.nodes[i].role != Leader
    ensures |Run(n, events).nodes| == n
    ensures var s := Run(n, events).nodes[i];
            var events' := events + ([Event(i, Periodic(true))] + Canvass(i, RequestOf(s), vs));
            var c' := Run(n, events');
            && |c'.nodes| == n && i !in c'.down
            && c'.nodes[i].role == Leader && c'.nodes[i].term == s.term + 1 && c'.nodes[i].log == s.log
            && (forall v :: v in vs ==> v < n && c'.nodes[v].term <= c'.nodes[i].term)
            && (NoCuts(n, events) ==> NoCuts(n, events'))
  {
    RunInv(n, events);
    var c, h := Run(n, events), RunHistory(n, events);
    var c', h' := Elected(n, c, h, i, vs);
    PathRun(n, events, [Event(i, Periodic(true))] + Canvass(i, RequestOf(c.nodes[i]), vs), c', h');
  }
}
