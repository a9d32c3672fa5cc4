/** One leader, any number of other nodes, and the messages between them, as a step system. */
module Replication {
  import opened Words
  import opened Messages
  import opened RaftNode

  /** A reply in flight, with the fact whether its request carried entries. */
  datatype Reply = Reply(msg: AppendR, carried: bool)

  /** A node that can join, and its two FIFO channels with the leader (oldest message first). */
  datatype Peer = Peer(node: Node, requests: seq<AppendQ>, replies: seq<Reply>)

  datatype System = System(leader: Node, peers: map<uint32, Peer>)

  datatype Step =
    | Handshake(hello: Hello, putOk: bool, alive: set<uint32>)
    | Broadcast(alive: set<uint32>)
    | DeliverRequest(id: uint32, puts: seq<bool>)
    | DeliverReply(id: uint32)
    | Timeout(id: uint32)

  /** Longest log whose indexes, and one past the last, fit in 32 bits. */
  const MAX_LOG: nat := 0xFFFF_FFFF

  const FRESH_PEER := Peer(FRESH_NODE, [], [])

  /** The leader after `start`: it leads its initial term and has tried to log itself. */
  ghost predicate InitLeader(t0: uint32, l: Node) {
    && l.term == t0 && l.persistedTerm == None && l.commit == 0 && l.role == Leader && l.proxies == map[]
    && (l.log == [] || exists id, port, host :: l.log == [CfgEntry(t0, id, port, host)])
  }

  ghost predicate Init(t0: uint32, s: System) {
    InitLeader(t0, s.leader) && forall id <- s.peers :: s.peers[id] == FRESH_PEER
  }

  /** An exchange that carries entries is under way with this peer. */
  ghost predicate Busy(p: Peer) {
    (exists i :: 0 <= i < |p.requests| && p.requests[i].entries != []) ||
    (exists i :: 0 <= i < |p.replies| && p.replies[i].carried)
  }

  /** The channel assumption: requests go only to known peers with no entry-carrying exchange under way. */
  ghost predicate MaySend(s: System, proxies: map<uint32, Proxy>, alive: set<uint32>) {
    forall id :: id in proxies && id in alive ==> id in s.peers && !Busy(s.peers[id])
  }

  function AllOk(n: nat): (r: seq<bool>)
    ensures |r| == n
  {
    seq(n, i => true)
  }

  ghost predicate Enabled(s: System, step: Step) {
    match step
    case Handshake(h, putOk, alive) =>
      && h.id in s.peers
      && SendableProxies(s.leader)
      && |s.leader.log| + 1 < MAX_LOG
      // the joining connection is open: it delivered the handshake and is tied before the broadcast
      && (IsFreshHello(s.leader, h) ==> h.id in alive && MaySend(s, s.leader.proxies, alive - {h.id}))
      // a node that reconnects has no message left on the connection it replaces
      && (!IsFreshHello(s.leader, h) && ProxyConnFd(s.leader, h.id) != h.fd ==>
            s.peers[h.id].requests == [] && s.peers[h.id].replies == [])
    case Broadcast(alive) =>
      SendableProxies(s.leader) && MaySend(s, s.leader.proxies, alive)
    case DeliverRequest(id, puts) =>
      id in s.peers && s.peers[id].requests != [] && |puts| == |s.peers[id].requests[0].entries|
    case DeliverReply(id) =>
      && id in s.peers && s.peers[id].replies != []
      && var r := s.peers[id].replies[0].msg;
         s.leader.term >= r.term ==> CommitReadInRange(AfterAck(s.leader, id, r))
    case Timeout(id) =>
      id in s.peers && s.peers[id].node.term + 1 < TWO_32
  }

  function SendAll(peers: map<uint32, Peer>, sent: map<uint32, AppendQ>): map<uint32, Peer> {
    map id | id in peers ::
      if id in sent then peers[id].(requests := peers[id].requests + [sent[id]]) else peers[id]
  }

  /** The follower answers its oldest request; `puts` says which of its database writes succeed. */
  function Answer(p: Peer, puts: seq<bool>): Peer
    requires p.requests != [] && |puts| == |p.requests[0].entries|
  {
    var q := p.requests[0];
    var (node, r) := HandleAppend(p.node, q, puts);
    Peer(node, p.requests[1..], p.replies + [Reply(r, q.entries != [])])
  }

  function AnswerFirst(p: Peer): Peer
    requires p.requests != []
  {
    Answer(p, AllOk(|p.requests[0].entries|))
  }

  /** The delivery of the oldest request to `id` in which every write succeeds. */
  function Deliver(s: System, id: uint32): Step {
    DeliverRequest(id, if id in s.peers && s.peers[id].requests != [] then AllOk(|s.peers[id].requests[0].entries|)
        else [])
  }

  ghost function Apply(s: System, step: Step): System
    requires Enabled(s, step)
  {
    match step
    case Handshake(h, putOk, alive) =>
      System(HandshakeNode(s.leader, h, putOk), SendAll(s.peers, HandshakeSends(s.leader, h, putOk, alive)))
    case Broadcast(alive) =>
      s.(peers := SendAll(s.peers, BroadcastTo(s.leader, alive)))
    case DeliverRequest(id, puts) =>
      s.(peers := s.peers[id := Answer(s.peers[id], puts)])
    case DeliverReply(id) =>
      var p := s.peers[id];
      System(HandleReply(s.leader, id, p.replies[0].msg), s.peers[id := p.(replies := p.replies[1..])])
    case Timeout(id) =>
      var p := s.peers[id];
      s.(peers := s.peers[id := p.(node := RaiseTerm(p.node))])
  }

  /** A finite run: the states visited and the steps between them. */
  datatype Run = Run(t0: uint32, states: seq<System>, steps: seq<Step>)

  ghost predicate Moves(s: System, step: Step, t: System) {
    Enabled(s, step) && t == Apply(s, step)
  }

  ghost predicate IsRun(r: Run) {
    && |r.states| == |r.steps| + 1
    && Init(r.t0, r.states[0])
    && forall i :: 0 <= i < |r.steps| ==>
        Enabled(r.states[i], r.steps[i]) &&
        r.states[i + 1] == Apply(r.states[i], r.steps[i])
  }

  lemma RunSnoc(r: Run, step: Step, t: System)
    requires IsRun(r) && Moves(r.states[|r.steps|], step, t)
    ensures IsRun(Run(r.t0, r.states + [t], r.steps + [step]))
  {
    var states, steps := r.states + [t], r.steps + [step];
    forall i | 0 <= i < |steps| ensures Enabled(states[i], steps[i]) && states[i + 1] == Apply(states[i], steps[i]) {
      if i < |r.steps| {
        assert states[i] == r.states[i] && steps[i] == r.steps[i] && states[i + 1] == r.states[i + 1];
      }
    }
  }
}
