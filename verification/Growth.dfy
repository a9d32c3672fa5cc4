/** What only grows, from any state of a run to any later one. */
module Growth {
  import opened Words
  import opened Messages
  import opened RaftNode
  import opened Replication
  import opened Invariant

  lemma {:induction false} BatchExtends(log: seq<Entry>, term: uint32, batch: seq<Entry>, puts: seq<bool>)
    requires |puts| == |batch|
    ensures log <= AppendBatch(log, term, batch, puts)
    decreases |batch|
  {
    if batch != [] {
      var log1 := if IsCfg(batch[0]) && puts[0] then log + [Restamp(term, batch[0])] else log;
      BatchExtends(log1, term, batch[1..], puts[1..]);
    }
  }

  /** What a node keeps from one state to a later one. */
  ghost predicate NodeGrows(n: Node, n': Node) {
    n.log <= n'.log && n.term <= n'.term && n.commit <= n'.commit
  }

  ghost predicate SystemGrows(s: System, s': System) {
    && Grows(s.leader, s'.leader)
    && s.leader.proxies.Keys <= s'.leader.proxies.Keys
    && (forall id <- s.leader.proxies :: s.leader.proxies[id].matched <= s'.leader.proxies[id].matched)
    && s.peers.Keys == s'.peers.Keys
    && forall id <- s.peers :: NodeGrows(s.peers[id].node, s'.peers[id].node)
  }

  /** The follower's assignment can only raise its commit index, although it could lower it out of context:
      a heartbeat never carries a commit index above its previous index, and a batch ends above the follower's. */
  lemma AnswerGrows(t0: uint32, l: Node, id: uint32, p: Peer, puts: seq<bool>)
    requires LeaderInv(t0, l) && PeerInv(t0, l, id, p) && p.requests != [] && |puts| == |p.requests[0].entries|
    ensures NodeGrows(p.node, Answer(p, puts).node)
  {
    var q := p.requests[0];
    assert RequestInv(t0, l, l.proxies[id].matched, q);
    BatchExtends(p.node.log, TermAfter(p.node, q).term, q.entries, puts);
  }

  lemma HandshakeGrows(t0: uint32, s: System, h: Hello, putOk: bool, alive: set<uint32>)
    requires LeaderInv(t0, s.leader) && Enabled(s, Handshake(h, putOk, alive))
    ensures SystemGrows(s, Apply(s, Handshake(h, putOk, alive)))
  {
    if IsFreshHello(s.leader, h) { JoinLeaderInv(t0, s.leader, h, putOk); }
  }

  lemma DeliverRequestGrows(t0: uint32, s: System, id: uint32, puts: seq<bool>)
    requires Inv(t0, s) && Enabled(s, DeliverRequest(id, puts))
    ensures SystemGrows(s, Apply(s, DeliverRequest(id, puts)))
  {
    AnswerGrows(t0, s.leader, id, s.peers[id], puts);
  }

  lemma DeliverReplyGrows(t0: uint32, s: System, id: uint32)
    requires Inv(t0, s) && Enabled(s, DeliverReply(id))
    ensures SystemGrows(s, Apply(s, DeliverReply(id)))
  {
    ReplyLeaderInv(t0, s, id);
    var s' := Apply(s, DeliverReply(id));
    assert KeepsProxies(s.leader, s'.leader);
    assert forall i <- s.peers :: s'.peers[i].node == s.peers[i].node;
  }

  lemma StepGrows(t0: uint32, s: System, step: Step)
    requires Inv(t0, s) && Enabled(s, step)
    ensures SystemGrows(s, Apply(s, step))
  {
    match step
    case Handshake(h, putOk, alive) => HandshakeGrows(t0, s, h, putOk, alive);
    case Broadcast(alive) =>
    case DeliverRequest(id, puts) => DeliverRequestGrows(t0, s, id, puts);
    case DeliverReply(id) => DeliverReplyGrows(t0, s, id);
    case Timeout(id) =>
  }

  lemma GrowsTransitive(a: System, b: System, c: System)
    requires SystemGrows(a, b) && SystemGrows(b, c)
    ensures SystemGrows(a, c)
  {
    forall id | id in a.peers ensures NodeGrows(a.peers[id].node, c.peers[id].node) {
      assert NodeGrows(a.peers[id].node, b.peers[id].node) && NodeGrows(b.peers[id].node, c.peers[id].node);
    }
  }

  lemma RunStepGrows(r: Run, k: nat)
    requires IsRun(r) && k < |r.steps|
    ensures SystemGrows(r.states[k], r.states[k + 1])
  {
    RunInv(r, k);
    StepGrows(r.t0, r.states[k], r.steps[k]);
  }

  lemma {:induction false} GrowsChain(states: seq<System>, i: nat, j: nat)
    requires i <= j < |states| && forall k :: 0 <= k < |states| - 1 ==> SystemGrows(states[k], states[k + 1])
    ensures SystemGrows(states[i], states[j])
    decreases j - i
  {
    if i < j {
      GrowsChain(states, i, j - 1);
      GrowsTransitive(states[i], states[j - 1], states[j - 1 + 1]);
    }
  }

  /** Between any two states of a run: the leader's log and every follower's log only grow at their ends,
      entries already stored never change, and no node's term or commit index ever decreases. */
  lemma RunGrows(r: Run, i: nat, j: nat)
    requires IsRun(r) && i <= j < |r.states|
    ensures SystemGrows(r.states[i], r.states[j])
  {
    forall k | 0 <= k < |r.states| - 1 ensures SystemGrows(r.states[k], r.states[k + 1]) {
      RunStepGrows(r, k);
    }
    GrowsChain(r.states, i, j);
  }
}
