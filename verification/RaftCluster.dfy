/**
 A cluster of servers on an arbitrary network.  `sent` collects every packet ever sent and
 any of them may be delivered at any time, any number of times or never: loss, duplication
 and reordering.  A run is a sequence of events; an event that cannot happen changes nothing.
 */
module RaftCluster {
  import opened RaftTypes
  import opened RaftOps
  import opened RaftNode

  /** `down` records the servers that stopped at a failed assertion. */
  datatype Cluster = Cluster(nodes: seq<Server>, sent: set<Packet>, down: map<nat, Assertion>)

  datatype Event = Event(node: nat, input: Input)

  predicate Enabled(c: Cluster, e: Event) {
    && e.node < |c.nodes| && e.node !in c.down
    && (e.input.FromPeer? ==>
          && e.input.src < |c.nodes[e.node].peers|
          && Packet(e.input.src, e.node, e.input.msg) in c.sent)
  }

  function Step(c: Cluster, e: Event): (c': Cluster)
  {
    if !Enabled(c, e) then c
    else
      match Handle(c.nodes[e.node], e.input)
      case Halt(w) => c.(down := c.down[e.node := w])
      case Ok(s, out) => c.(nodes := c.nodes[e.node := s], sent := c.sent + set p | p in out)
  }

  function Init(n: nat): (c: Cluster)
  {
    Cluster(seq(n, i requires 0 <= i => NewServer(n, i)), {}, map[])
  }

  function Run(n: nat, events: seq<Event>): (c: Cluster)
  {
    if events == [] then Init(n)
    else Step(Run(n, events[..|events| - 1]), events[|events| - 1])
  }

  // ---- history, used only to state invariants ----

  /** One term of leadership: who led, the log it was elected with, its log now (or when it
      last led), and the servers whose votes elected it. */
  datatype Reign = Reign(leader: nat, base: Log, log: Log, quorum: set<nat>)

  /** `bids` holds the log of each candidate when it stood, by term and candidate. */
  datatype History = History(reigns: map<nat, Reign>, bids: map<(nat, nat), Log>)

  /** The history after one server moved from `s` to `s'`. */
  function Track(h: History, s: Server, s': Server): (h': History)
  {
    if s'.role == Leader then
      if s.role != Leader then
        h.(reigns := h.reigns[s'.term := Reign(s'.id, s'.log, s'.log, Supporters(s') + {s'.id})])
      else if s.term == s'.term && s.term in h.reigns then
        h.(reigns := h.reigns[s'.term := h.reigns[s'.term].(log := s'.log)])
      else h
    else if s'.role == Candidate && s.term < s'.term then
      h.(bids := h.bids[(s'.term, s'.id) := s'.log])
    else h
  }

  function TrackStep(c: Cluster, h: History, e: Event): (h': History)
  {
    if Enabled(c, e) && Handle(c.nodes[e.node], e.input).Ok?
    then Track(h, c.nodes[e.node], Handle(c.nodes[e.node], e.input).s)
    else h
  }

  function RunHistory(n: nat, events: seq<Event>): (h: History)
  {
    if events == [] then History(map[], map[])
    else TrackStep(Run(n, events[..|events| - 1]), RunHistory(n, events[..|events| - 1]), events[|events| - 1])
  }

  /** The history of a server `i` only grows: reigns keep their leader, base and quorum, and
      only the log of a reign led by `i` may have been extended. */
  ghost predicate Extends(h: History, h': History, i: nat) {
    && (forall t :: t in h.reigns ==> t in h'.reigns && ReignExtends(h.reigns[t], h'.reigns[t], i))
    && (forall b :: b in h.bids ==> b in h'.bids && h'.bids[b] == h.bids[b])
  }

  ghost predicate ReignExtends(r: Reign, r': Reign, i: nat) {
    && r'.leader == r.leader && r'.base == r.base && r'.quorum == r.quorum
    && r.log <= r'.log
    && (r.leader != i ==> r'.log == r.log)
  }

  // ---- invariants ----

  /** Entry `k` of `log` was written by the leader of its term, whose log agrees with `log`
      up to and including `k`. */
  ghost predicate Origin(h: History, log: Log, k: nat)
    requires k < |log|
  {
    var t := log[k].term;
    && t in h.reigns && k < |h.reigns[t].log|
    && log[..k + 1] == h.reigns[t].log[..k + 1]
  }

  ghost predicate LogWf(h: History, log: Log) {
    forall k: nat :: k < |log| ==> Origin(h, log, k)
  }

  ghost predicate Sorted(log: Log) {
    forall a: nat, b: nat :: a < b < |log| ==> log[a].term <= log[b].term
  }

  ghost predicate TermsUpTo(log: Log, t: int) {
    forall k: nat :: k < |log| ==> log[k].term <= t && log[k].id != 0
  }

  /** Peer `j` told `i` in term `t` that it holds the leader's log up to `idx`. */
  ghost predicate Replied(sent: set<Packet>, j: nat, i: nat, t: nat, idx: int) {
    exists p :: p in sent && p.src == j && p.dst == i && p.msg.AppendReply?
                && p.msg.success && p.msg.term == t && p.msg.currentIdx == idx
  }

  ghost predicate NodeElect(n: nat, sent: set<Packet>, h: History, i: nat, s: Server) {
    && s.id == i && |s.peers| == n && ServerOk(s)
    && (s.role != Follower ==> s.vote == i && 1 < n)
    && (s.role == Candidate ==>
          && (forall j: nat :: j < n && j != i && s.peers[j].voted ==> Packet(j, i, VoteReply(s.term, true)) in sent)
          && (s.term, i) in h.bids && h.bids[(s.term, i)] == s.log)
    && (s.role == Leader ==>
          s.term in h.reigns && h.reigns[s.term].leader == i && s.log == h.reigns[s.term].log)
  }

  ghost predicate NodeLog(h: History, s: Server) {
    LogWf(h, s.log) && TermsUpTo(s.log, s.term)
  }

  ghost predicate NodeLead(n: nat, sent: set<Packet>, s: Server) {
    s.role == Leader && |s.peers| == n ==>
      forall j: nat :: j < n && j != s.id ==>
        && s.peers[j].next <= |s.log| + 1
        && s.peers[j].matchIdx <= |s.log|
        && (0 < s.peers[j].matchIdx ==> Replied(sent, j, s.id, s.term, s.peers[j].matchIdx))
  }

  ghost predicate NodeInv(n: nat, sent: set<Packet>, h: History, i: nat, s: Server) {
    NodeElect(n, sent, h, i, s) && NodeLog(h, s) && NodeLead(n, sent, s)
  }

  /** What a message in flight says about its sender and about the history. */
  ghost predicate MsgInv(h: History, src: nat, dst: nat, s: Server, m: Msg) {
    && 0 <= m.term <= s.term
    && match m
       case VoteReply(t, granted) =>
         granted && t == s.term ==> s.vote == dst && s.role == Follower
       case RequestVote(t, cand, lastIdx, lastTerm) =>
         && cand == src && (t, src) in h.bids
         && lastIdx == |h.bids[(t, src)]| && lastTerm == LastTerm(h.bids[(t, src)])
       case Append(t, prev, prevTerm, commit, entries) =>
         && t in h.reigns && h.reigns[t].leader == src
         && AppendInv(h.reigns[t], prev, prevTerm, commit, entries)
       case AppendReply(t, success, idx, _) =>
         success ==> t in h.reigns && h.reigns[t].leader == dst && 0 <= idx <= |h.reigns[t].log|
  }

  /** An append message carries a stretch of its leader's log that ended, when it was sent,
      at the end of that log. */
  ghost predicate AppendInv(r: Reign, prev: int, prevTerm: int, commit: int, entries: seq<Entry>) {
    && 0 <= prev && |r.base| <= prev + |entries| <= |r.log|
    && 0 <= commit <= prev + |entries|
    && entries == r.log[prev..prev + |entries|]
    && prevTerm == TermAt(r.log, prev)
  }

  ghost predicate PacketInv(n: nat, nodes: seq<Server>, h: History, p: Packet) {
    && p.src < n && p.dst < n && p.src != p.dst && |nodes| == n
    && MsgInv(h, p.src, p.dst, nodes[p.src], p.msg)
  }

  ghost predicate ReignVotes(n: nat, sent: set<Packet>, r: Reign, t: nat) {
    && r.leader < n && r.leader in r.quorum
    && (forall v :: v in r.quorum ==> v < n)
    && n < 2 * |r.quorum|
    && (forall v :: v in r.quorum && v != r.leader ==> Packet(v, r.leader, VoteReply(t, true)) in sent)
    && (forall d: nat :: Packet(r.leader, d, VoteReply(t, true)) !in sent)
  }

  ghost predicate ReignLeader(n: nat, nodes: seq<Server>, r: Reign, t: nat) {
    && r.leader < n == |nodes|
    && t <= nodes[r.leader].term
    && (t == nodes[r.leader].term ==> nodes[r.leader].role == Leader)
  }

  ghost predicate ReignLog(h: History, r: Reign, t: nat) {
    && r.base <= r.log
    && LogWf(h, r.log) && Sorted(r.log) && TermsUpTo(r.log, t)
    && (forall k: nat :: k < |r.log| ==> (r.log[k].term < t <==> k < |r.base|))
  }

  ghost predicate ReignInv(n: nat, nodes: seq<Server>, sent: set<Packet>, h: History, t: nat)
    requires t in h.reigns
  {
    && ReignVotes(n, sent, h.reigns[t], t)
    && ReignLeader(n, nodes, h.reigns[t], t)
    && ReignLog(h, h.reigns[t], t)
  }

  ghost predicate BidInv(n: nat, nodes: seq<Server>, h: History, b: (nat, nat))
    requires b in h.bids
  {
    && b.1 < n == |nodes| && b.0 <= nodes[b.1].term
    && LogWf(h, h.bids[b]) && TermsUpTo(h.bids[b], b.0 - 1)
  }

  /** A server grants at most one other server its vote in a term. */
  ghost predicate GrantsUnique(sent: set<Packet>) {
    forall v: nat, t: int, a: nat, b: nat ::
      Packet(v, a, VoteReply(t, true)) in sent && Packet(v, b, VoteReply(t, true)) in sent ==> a == b
  }

  ghost predicate Inv(n: nat, c: Cluster, h: History) {
    && |c.nodes| == n
    && (forall i: nat :: i < n ==> NodeInv(n, c.sent, h, i, c.nodes[i]))
    && (forall p :: p in c.sent ==> PacketInv(n, c.nodes, h, p))
    && (forall t :: t in h.reigns ==> ReignInv(n, c.nodes, c.sent, h, t))
    && (forall b :: b in h.bids ==> BidInv(n, c.nodes, h, b))
    && GrantsUnique(c.sent)
    && (forall i :: i in c.down ==> c.down[i] == CommittedCut)
  }
}
