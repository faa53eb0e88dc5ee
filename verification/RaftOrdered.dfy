/**
 The cluster on links that deliver in order and without duplication, but may lose messages.  Such a
 run is a run of the arbitrary network that cuts nothing acknowledged, so the theorems about those
 apply: no assertion fails and no two servers apply different entries at an index.
 */
module RaftOrdered {
  import opened RaftTypes
  import opened RaftOps
  import opened RaftCluster
  import opened RaftReplication
  import opened RaftSafety
  import opened RaftCut
  import opened RaftCompleteness
  import Network = RaftNetwork

  type Links = map<(nat, nat), seq<Msg>>

  /** The cluster with a queue for each ordered pair of servers. */
  datatype Ordered = Ordered(c: Cluster, links: Links)

  /** The head of a link arrives, some message of a link is lost, or a server acts on its own. */
  datatype OrderedEvent =
    | Arrive(src: nat, dst: nat)
    | Lose(src: nat, dst: nat, k: nat)
    | Local(node: nat, input: Input)

  function Queue(links: Links, src: nat, dst: nat): (q: seq<Msg>)
  {
    if (src, dst) in links then links[(src, dst)] else []
  }

  function Enqueue(links: Links, out: seq<Packet>): (r: Links)
    decreases |out|
  {
    if out == [] then links
    else
      var p := out[0];
      Enqueue(links[(p.src, p.dst) := Queue(links, p.src, p.dst) + [p.msg]], out[1..])
  }

  /** What server `e.node` sends when it handles `e`. */
  function Sends(c: Cluster, e: Event): (out: seq<Packet>)
  {
    if Enabled(c, e) && Handle(c.nodes[e.node], e.input).Ok? then Handle(c.nodes[e.node], e.input).out else []
  }

  function Act(o: Ordered, links: Links, e: Event): (o': Ordered)
  {
    Ordered(Step(o.c, e), Enqueue(links, Sends(o.c, e)))
  }

  function OrderedStep(o: Ordered, e: OrderedEvent): (o': Ordered)
  {
    match e
    case Arrive(src, dst) =>
      var q := Queue(o.links, src, dst);
      if q == [] then o
      else Act(o, o.links[(src, dst) := q[1..]], Event(dst, FromPeer(src, q[0])))
    case Lose(src, dst, k) =>
      var q := Queue(o.links, src, dst);
      if |q| <= k then o else o.(links := o.links[(src, dst) := q[..k] + q[k + 1..]])
    case Local(node, input) =>
      if input.FromPeer? then o else Act(o, o.links, Event(node, input))
  }

  function OrderedRun(n: nat, events: seq<OrderedEvent>): (o: Ordered)
  {
    if events == [] then Ordered(Init(n), map[])
    else OrderedStep(OrderedRun(n, events[..|events| - 1]), events[|events| - 1])
  }

  // ---- invariant of the links ----

  function End(m: Msg): (r: int)
    requires m.Append?
  {
    m.prevIdx + |m.entries|
  }

  /** The message `m` does not end before something the receiver already acknowledged to its sender
      in the same term. */
  ghost predicate InOrder(sent: set<Packet>, i: nat, m: Msg)
    requires m.Append?
  {
    forall p :: p in sent && p.src == i && p.msg.AppendReply? && p.msg.success && p.msg.term == m.term ==>
      p.msg.currentIdx <= m.prevIdx + |m.entries|
  }

  /** A message in order cuts nothing. */
  lemma InOrderCutsNothing(sent: set<Packet>, i: nat, s: Server, m: Msg)
    requires m.Append? && InOrder(sent, i, m)
    ensures !CutsAt(sent, i, s, m)
  {
  }

  /** Append messages of one term lie in a queue in the order of the log lengths they report. */
  ghost predicate Ascending(q: seq<Msg>) {
    forall a: nat, b: nat :: a < b < |q| && q[a].Append? && q[b].Append? && q[a].term == q[b].term ==>
      End(q[a]) <= End(q[b])
  }

  ghost predicate QueueOk(sent: set<Packet>, src: nat, dst: nat, q: seq<Msg>) {
    && (forall k: nat :: k < |q| ==> Packet(src, dst, q[k]) in sent)
    && (forall k: nat :: k < |q| && q[k].Append? ==> InOrder(sent, dst, q[k]))
    && Ascending(q)
  }

  ghost predicate LinksOk(sent: set<Packet>, links: Links) {
    forall src: nat, dst: nat :: QueueOk(sent, src, dst, Queue(links, src, dst))
  }

  /** The messages of `out` that travel from `src` to `dst`. */
  function Along(out: seq<Packet>, src: nat, dst: nat): (q: seq<Msg>)
  {
    if out == [] then []
    else (if out[0].src == src && out[0].dst == dst then [out[0].msg] else []) + Along(out[1..], src, dst)
  }

  lemma {:induction false} EnqueueAppends(links: Links, out: seq<Packet>, src: nat, dst: nat)
    ensures Queue(Enqueue(links, out), src, dst) == Queue(links, src, dst) + Along(out, src, dst)
    decreases |out|
  {
    if out != [] {
      var p, later := out[0], out[1..];
      var links' := links[(p.src, p.dst) := Queue(links, p.src, p.dst) + [p.msg]];
      var here := if p.src == src && p.dst == dst then [p.msg] else [];
      assert Enqueue(links, out) == Enqueue(links', later) && Along(out, src, dst) == here + Along(later, src, dst);
      EnqueueAppends(links', later, src, dst);
      EnqueueOne(links, p, src, dst, here);
      Regroup(Queue(links, src, dst), here, Along(later, src, dst));
    }
  }

  lemma Regroup(a: seq<Msg>, b: seq<Msg>, c: seq<Msg>)
    ensures (a + b) + c == a + (b + c)
  {
  }

  lemma EnqueueOne(links: Links, p: Packet, src: nat, dst: nat, here: seq<Msg>)
    requires here == if p.src == src && p.dst == dst then [p.msg] else []
    ensures Queue(links[(p.src, p.dst) := Queue(links, p.src, p.dst) + [p.msg]], src, dst) == Queue(links, src, dst) + here
  {
    if here == [] {
      assert (src, dst) != (p.src, p.dst);
    }
  }

  lemma {:induction false} AlongIn(out: seq<Packet>, src: nat, dst: nat, k: nat)
    requires k < |Along(out, src, dst)|
    ensures Packet(src, dst, Along(out, src, dst)[k]) in out
    decreases |out|
  {
    var here := if out[0].src == src && out[0].dst == dst then [out[0].msg] else [];
    if k >= |here| {
      AlongIn(out[1..], src, dst, k - |here|);
    }
  }

  // ---- one step of the cluster, seen from the links ----

  /** A positive reply that the step sends answers the message that was delivered. */
  ghost predicate RepliesTo(e: Event, out: seq<Packet>) {
    forall p :: p in out && p.msg.AppendReply? && p.msg.success ==>
      && e.input.FromPeer? && e.input.msg.Append? && p.src == e.node
      && p.msg.term == e.input.msg.term && p.msg.currentIdx == End(e.input.msg)
  }

  lemma StepRepliesTo(n: nat, c: Cluster, h: History, e: Event)
    requires Inv(n, c, h)
    ensures RepliesTo(e, Sends(c, e))
  {
    var out := Sends(c, e);
    forall p | p in out && p.msg.AppendReply? && p.msg.success
      ensures e.input.FromPeer? && e.input.msg.Append? && p.src == e.node
      ensures p.msg.term == e.input.msg.term && p.msg.currentIdx == End(e.input.msg)
    {
      if e.input.FromPeer? && e.input.msg.Append? {
        ReplyAnswers(n, c, h, e.node, e.input.src, e.input.msg, p);
      } else {
        OutKinds(c.nodes[e.node], e.input, p);
      }
    }
  }

  lemma ReplyAnswers(n: nat, c: Cluster, h: History, i: nat, src: nat, m: Msg, p: Packet)
    requires i < |c.nodes| == n && Inv(n, c, h) && m.Append? && Packet(src, i, m) in c.sent
    requires RecvAppend(c.nodes[i], src, m).Ok? && p in RecvAppend(c.nodes[i], src, m).out
    requires p.msg.AppendReply? && p.msg.success
    ensures p.src == i && p.msg.term == m.term && p.msg.currentIdx == End(m)
  {
    StaleIsRejected(c.nodes[i], src, m, p);
    AdoptFollows(n, c, h, i, src, m);
    AppendEffect(n, c, h, i, src, m);
    assert c.nodes[i].id == i by { assert NodeInv(n, c.sent, h, i, c.nodes[i]); }
    var r := RecvAppend(c.nodes[i], src, m);
    OutcomeAnswers(h.reigns[m.term], Adopt(c.nodes[i], m.term), m, r.s, r.out, p);
  }

  lemma StaleIsRejected(s: Server, src: nat, m: Msg, p: Packet)
    requires m.Append? && RecvAppend(s, src, m).Ok? && p in RecvAppend(s, src, m).out
    requires p.msg.AppendReply? && p.msg.success
    ensures s.term <= m.term
  {
  }

  lemma OutcomeAnswers(r: Reign, s: Server, m: Msg, s': Server, out: seq<Packet>, p: Packet)
    requires m.Append? && 0 <= m.prevIdx && s.term == m.term && |out| == 1 && out[0].src == s.id
    requires AppendOutcome(r, s, m, s', out[0].msg) && p in out && p.msg.AppendReply? && p.msg.success
    ensures p.src == s.id && p.msg.term == m.term && p.msg.currentIdx == End(m)
  {
  }

  /** A message still queued stays in order: a new acknowledgement by its receiver in the same term
      answers an earlier message of the same link. */
  lemma QueuedStaysInOrder(n: nat, c: Cluster, h: History, e: Event, m: Msg, src: nat, dst: nat)
    requires Inv(n, c, h) && m.Append? && Packet(src, dst, m) in c.sent && InOrder(c.sent, dst, m)
    requires e.node == dst && e.input.FromPeer? && e.input.src == src && e.input.msg.Append? && e.input.msg.term == m.term ==>
               End(e.input.msg) <= End(m)
    ensures InOrder(Step(c, e).sent, dst, m)
  {
    StepRepliesTo(n, c, h, e);
    forall p | p in Step(c, e).sent && p.src == dst && p.msg.AppendReply? && p.msg.success && p.msg.term == m.term
      ensures p.msg.currentIdx <= m.prevIdx + |m.entries|
    {
      if p !in c.sent {
        assert p in Sends(c, e);
        assert PacketInv(n, c.nodes, h, Packet(src, dst, m));
        assert PacketInv(n, c.nodes, h, Packet(e.input.src, e.node, e.input.msg));
      }
    }
  }

  /** A message just sent is in order: it reaches the end of its sender's log. */
  lemma SentInOrder(n: nat, c: Cluster, h: History, e: Event, p: Packet)
    requires Inv(n, c, h) && Inv(n, Step(c, e), TrackStep(c, h, e)) && p in Sends(c, e) && p.msg.Append?
    ensures InOrder(Step(c, e).sent, p.dst, p.msg)
    ensures forall m: Msg :: m.Append? && m.term == p.msg.term && Packet(p.src, p.dst, m) in Step(c, e).sent ==> End(m) <= End(p.msg)
  {
    var c', h' := Step(c, e), TrackStep(c, h, e);
    AppendsReachTheEnd(n, c, h, e.node, e.input);
    var s' := c'.nodes[e.node];
    assert NodeInv(n, c'.sent, h', e.node, s');
    ReachBounds(n, c', h', s', p.dst, p.msg);
  }

  lemma ReachBounds(n: nat, c: Cluster, h: History, s: Server, dst: nat, m: Msg)
    requires Inv(n, c, h) && NodeInv(n, c.sent, h, s.id, s) && s.role == Leader && m.Append?
    requires m.term == s.term && End(m) == |s.log|
    ensures InOrder(c.sent, dst, m)
    ensures forall k: Msg :: k.Append? && k.term == m.term && Packet(s.id, dst, k) in c.sent ==> End(k) <= End(m)
  {
    forall p | p in c.sent && p.src == dst && p.msg.AppendReply? && p.msg.success && p.msg.term == m.term
      ensures p.msg.currentIdx <= m.prevIdx + |m.entries|
    {
      assert PacketInv(n, c.nodes, h, p);
    }
    forall k: Msg | k.Append? && k.term == m.term && Packet(s.id, dst, k) in c.sent
      ensures End(k) <= End(m)
    {
      assert PacketInv(n, c.nodes, h, Packet(s.id, dst, k));
    }
  }

  // ---- queues ----

  lemma RemoveOk(sent: set<Packet>, src: nat, dst: nat, q: seq<Msg>, k: nat)
    requires QueueOk(sent, src, dst, q) && k < |q|
    ensures QueueOk(sent, src, dst, q[..k] + q[k + 1..])
  {
    var q' := q[..k] + q[k + 1..];
    assert forall x: nat :: x < |q'| ==> q'[x] == q[if x < k then x else x + 1];
  }

  /** The queue that `e` leaves behind (its own head removed, if it delivered it) is in order after
      the step. */
  lemma RestInOrder(n: nat, c: Cluster, h: History, e: Event, src: nat, dst: nat, q: seq<Msg>)
    requires Inv(n, c, h) && QueueOk(c.sent, src, dst, q)
    requires e.node == dst && e.input.FromPeer? && e.input.src == src ==> Ascending([e.input.msg] + q)
    ensures QueueOk(Step(c, e).sent, src, dst, q)
  {
    forall k: nat | k < |q| && q[k].Append?
      ensures InOrder(Step(c, e).sent, dst, q[k])
    {
      if e.node == dst && e.input.FromPeer? && e.input.src == src {
        assert ([e.input.msg] + q)[0] == e.input.msg && ([e.input.msg] + q)[k + 1] == q[k];
      }
      QueuedStaysInOrder(n, c, h, e, q[k], src, dst);
    }
  }

  /** Appending what the step sends keeps the queue in order. */
  lemma JoinOk(n: nat, c: Cluster, h: History, e: Event, src: nat, dst: nat, q: seq<Msg>, more: seq<Msg>)
    requires Inv(n, c, h) && Inv(n, Step(c, e), TrackStep(c, h, e)) && QueueOk(Step(c, e).sent, src, dst, q)
    requires forall k: nat :: k < |more| ==> Packet(src, dst, more[k]) in Sends(c, e)
    ensures QueueOk(Step(c, e).sent, src, dst, q + more)
  {
    var sent' := Step(c, e).sent;
    var all := q + more;
    assert forall k: nat :: |q| <= k < |all| ==> all[k] == more[k - |q|];
    forall k: nat | k < |all|
      ensures Packet(src, dst, all[k]) in sent'
      ensures all[k].Append? ==> InOrder(sent', dst, all[k])
    {
      if |q| <= k && all[k].Append? {
        SentInOrder(n, c, h, e, Packet(src, dst, all[k]));
      }
    }
    forall a: nat, b: nat | a < b < |all| && all[a].Append? && all[b].Append? && all[a].term == all[b].term
      ensures End(all[a]) <= End(all[b])
    {
      if |q| <= b {
        SentInOrder(n, c, h, e, Packet(src, dst, all[b]));
      }
    }
  }

  lemma ActKeepsLinks(n: nat, o: Ordered, h: History, links: Links, e: Event)
    requires Inv(n, o.c, h) && Inv(n, Step(o.c, e), TrackStep(o.c, h, e)) && LinksOk(o.c.sent, links)
    requires e.input.FromPeer? ==> Ascending([e.input.msg] + Queue(links, e.input.src, e.node))
    ensures LinksOk(Act(o, links, e).c.sent, Act(o, links, e).links)
  {
    var c := o.c;
    var out := Sends(c, e);
    forall src: nat, dst: nat
      ensures QueueOk(Step(c, e).sent, src, dst, Queue(Enqueue(links, out), src, dst))
    {
      var q := Queue(links, src, dst);
      RestInOrder(n, c, h, e, src, dst, q);
      EnqueueAppends(links, out, src, dst);
      forall k: nat | k < |Along(out, src, dst)|
        ensures Packet(src, dst, Along(out, src, dst)[k]) in out
      {
        AlongIn(out, src, dst, k);
      }
      JoinOk(n, c, h, e, src, dst, q, Along(out, src, dst));
    }
  }

  // ---- runs ----

  /** Taking a message out of one queue keeps all of them in order. */
  lemma TakeOut(sent: set<Packet>, links: Links, src: nat, dst: nat, k: nat)
    requires LinksOk(sent, links) && k < |Queue(links, src, dst)|
    ensures var q := Queue(links, src, dst); LinksOk(sent, links[(src, dst) := q[..k] + q[k + 1..]])
  {
    var q := Queue(links, src, dst);
    var links' := links[(src, dst) := q[..k] + q[k + 1..]];
    forall a: nat, b: nat
      ensures QueueOk(sent, a, b, Queue(links', a, b))
    {
      assert QueueOk(sent, a, b, Queue(links, a, b));
      if a == src && b == dst {
        RemoveOk(sent, src, dst, q, k);
      }
    }
  }

  /** What an event on the links is to the cluster. */
  function Delivered(o: Ordered, e: OrderedEvent): (r: seq<Event>)
  {
    match e
    case Arrive(src, dst) =>
      var q := Queue(o.links, src, dst);
      if q == [] then [] else [Event(dst, FromPeer(src, q[0]))]
    case Lose(_, _, _) => []
    case Local(node, input) => if input.FromPeer? then [] else [Event(node, input)]
  }

  /** The cluster moves by the delivered event, the links stay in order, and nothing is cut. */
  ghost predicate OrderlyStep(o: Ordered, e: OrderedEvent) {
    && OrderedStep(o, e).c == (if Delivered(o, e) == [] then o.c else Step(o.c, Delivered(o, e)[0]))
    && LinksOk(OrderedStep(o, e).c.sent, OrderedStep(o, e).links)
    && (Delivered(o, e) != [] ==> !CutsAcked(o.c, Delivered(o, e)[0]))
  }

  lemma TakeHead(sent: set<Packet>, links: Links, src: nat, dst: nat)
    requires LinksOk(sent, links) && Queue(links, src, dst) != []
    ensures var q := Queue(links, src, dst);
            LinksOk(sent, links[(src, dst) := q[1..]]) && Ascending([q[0]] + q[1..]) && (q[0].Append? ==> InOrder(sent, dst, q[0]))
  {
    var q := Queue(links, src, dst);
    assert QueueOk(sent, src, dst, q);
    TakeOut(sent, links, src, dst, 0);
    assert q[..0] + q[1..] == q[1..];
    assert [q[0]] + q[1..] == q;
  }

  lemma ArriveKeeps(n: nat, o: Ordered, h: History, src: nat, dst: nat)
    requires Inv(n, o.c, h) && LinksOk(o.c.sent, o.links)
    ensures OrderlyStep(o, Arrive(src, dst))
  {
    var q := Queue(o.links, src, dst);
    if q != [] {
      var links := o.links[(src, dst) := q[1..]];
      var e := Event(dst, FromPeer(src, q[0]));
      TakeHead(o.c.sent, o.links, src, dst);
      if q[0].Append? && dst < |o.c.nodes| {
        InOrderCutsNothing(o.c.sent, dst, o.c.nodes[dst], q[0]);
      }
      StepKeepsInv(n, o.c, h, e);
      HeadRemoved(links, o.links, src, dst);
      ActKeepsLinks(n, o, h, links, e);
    }
  }

  lemma HeadRemoved(links': Links, links: Links, src: nat, dst: nat)
    requires Queue(links, src, dst) != [] && links' == links[(src, dst) := Queue(links, src, dst)[1..]]
    ensures Queue(links', src, dst) == Queue(links, src, dst)[1..]
  {
  }

  lemma OrderedStepKeeps(n: nat, o: Ordered, h: History, e: OrderedEvent)
    requires Inv(n, o.c, h) && LinksOk(o.c.sent, o.links)
    ensures OrderlyStep(o, e)
  {
    match e
    case Arrive(src, dst) => ArriveKeeps(n, o, h, src, dst);
    case Lose(src, dst, k) =>
      if k < |Queue(o.links, src, dst)| {
        TakeOut(o.c.sent, o.links, src, dst, k);
      }
    case Local(node, input) =>
      if !input.FromPeer? {
        StepKeepsInv(n, o.c, h, Event(node, input));
        ActKeepsLinks(n, o, h, o.links, Event(node, input));
      }
  }

  /** The run of the cluster underneath. */
  function Underlying(n: nat, events: seq<OrderedEvent>): (r: seq<Event>)
  {
    if events == [] then []
    else
      var before := events[..|events| - 1];
      Underlying(n, before) + Delivered(OrderedRun(n, before), events[|events| - 1])
  }

  /** A run over in-order links is a run of the arbitrary network in which nothing acknowledged is cut. */
  lemma {:induction false} OrderedRunsCutNothing(n: nat, events: seq<OrderedEvent>)
    ensures OrderedRun(n, events).c == Run(n, Underlying(n, events))
    ensures Network.NoCuts(n, Underlying(n, events))
    ensures LinksOk(OrderedRun(n, events).c.sent, OrderedRun(n, events).links)
  {
    if events != [] {
      var before, e := events[..|events| - 1], events[|events| - 1];
      var u, o := Underlying(n, before), OrderedRun(n, before);
      OrderedRunsCutNothing(n, before);
      RunInv(n, u);
      OrderedStepKeeps(n, o, RunHistory(n, u), e);
      var d := Delivered(o, e);
      if d != [] {
        assert (u + d)[..|u + d| - 1] == u && (u + d)[|u + d| - 1] == d[0];
      } else {
        assert u + d == u;
      }
    }
  }

  lemma {:induction false} UnderlyingPrefix(n: nat, events: seq<OrderedEvent>, m: nat)
    requires m <= |events|
    ensures Underlying(n, events[..m]) <= Underlying(n, events)
  {
    if m == |events| {
      assert events[..m] == events;
    } else {
      var before := events[..|events| - 1];
      UnderlyingPrefix(n, before, m);
      assert before[..m] == events[..m];
    }
  }

  /** With in-order links no assertion of the server ever fails. */
  lemma NoServerHalts(n: nat, events: seq<OrderedEvent>)
    ensures OrderedRun(n, events).c.down == map[]
  {
    OrderedRunsCutNothing(n, events);
    Network.NoServerHalts(n, Underlying(n, events));
  }

  /** State-machine safety over in-order links. */
  lemma StateMachineSafety(n: nat, events: seq<OrderedEvent>, m: nat, a: nat, b: nat, k: nat)
    requires m <= |events| && a < n && b < n
    ensures |OrderedRun(n, events[..m]).c.nodes| == n == |OrderedRun(n, events).c.nodes|
    ensures var x, y := OrderedRun(n, events[..m]).c.nodes[a].trace, OrderedRun(n, events).c.nodes[b].trace;
            k < |x| && k < |y| ==> x[k] == y[k]
  {
    var u, p := Underlying(n, events), Underlying(n, events[..m]);
    OrderedRunsCutNothing(n, events);
    OrderedRunsCutNothing(n, events[..m]);
    UnderlyingPrefix(n, events, m);
    assert u[..|p|] == p;
    Network.StateMachineSafety(n, u, |p|, a, b, k);
  }
}
