/** Laws over whole runs that tie the two ends of an exchange together: a sent term reaches its follower, a proxy is
    tied to the connection of the last handshake, and an adopted term is on disk. */
module RunLaws {
  import opened Words
  import opened Messages
  import opened RaftNode
  import opened Replication
  import opened Invariant
  import opened Growth
  import opened Writes
  import opened Laws

  // ---------------------------------------------------------------- terms on their way

  /** The node has reached term `t`, or a request of that term or a later one is on its way to it. */
  ghost predicate Reaches(t: nat, p: Peer) {
    p.node.term >= t || exists i :: 0 <= i < |p.requests| && p.requests[i].term >= t
  }

  lemma AnswerReaches(t: nat, p: Peer, puts: seq<bool>)
    requires Reaches(t, p) && p.requests != [] && |puts| == |p.requests[0].entries|
    ensures Reaches(t, Answer(p, puts))
  {
    var p' := Answer(p, puts);
    TermMeans(p.node, p.requests[0], puts);
    if p.node.term < t && p.requests[0].term < t {
      var i :| 0 <= i < |p.requests| && p.requests[i].term >= t;
      assert p'.requests[i - 1] == p.requests[i];
    }
  }

  lemma LongerReaches(t: nat, p: Peer, p': Peer)
    requires Reaches(t, p) && p'.node.term >= p.node.term && p.requests <= p'.requests
    ensures Reaches(t, p')
  {
    if p.node.term < t {
      var i :| 0 <= i < |p.requests| && p.requests[i].term >= t;
      assert p'.requests[i] == p.requests[i];
    }
  }

  lemma KeepsRequests(t0: uint32, s: System, step: Step, id: uint32)
    requires Inv(t0, s) && Enabled(s, step) && id in s.peers && !(step.DeliverRequest? && step.id == id)
    ensures id in Apply(s, step).peers && s.peers[id].requests <= Apply(s, step).peers[id].requests
  {
    if step.Broadcast? { SendAllAt(s.peers, BroadcastTo(s.leader, step.alive), id); }
    if step.Handshake? { SendAllAt(s.peers, HandshakeSends(s.leader, step.hello, step.putOk, step.alive), id); }
  }

  lemma ReachesStep(t0: uint32, t: nat, s: System, step: Step, id: uint32)
    requires Inv(t0, s) && Enabled(s, step) && id in s.peers && Reaches(t, s.peers[id])
    ensures id in Apply(s, step).peers && Reaches(t, Apply(s, step).peers[id])
  {
    if step.DeliverRequest? && step.id == id {
      AnswerReaches(t, s.peers[id], step.puts);
    } else {
      KeepsRequests(t0, s, step, id);
      StepGrows(t0, s, step);
      assert NodeGrows(s.peers[id].node, Apply(s, step).peers[id].node);
      LongerReaches(t, s.peers[id], Apply(s, step).peers[id]);
    }
  }

  lemma ReachesNext(r: Run, t: nat, k: nat, id: uint32)
    requires IsRun(r) && k < |r.steps| && id in r.states[k].peers && Reaches(t, r.states[k].peers[id])
    ensures id in r.states[k + 1].peers && Reaches(t, r.states[k + 1].peers[id])
  {
    RunInv(r, k);
    ReachesStep(r.t0, t, r.states[k], r.steps[k], id);
  }

  lemma {:induction false} ReachesLater(r: Run, t: nat, j: nat, k: nat, id: uint32)
    requires IsRun(r) && j <= k < |r.states| && id in r.states[j].peers && Reaches(t, r.states[j].peers[id])
    ensures id in r.states[k].peers && Reaches(t, r.states[k].peers[id])
    decreases k - j
  {
    if j < k {
      ReachesLater(r, t, j, k - 1, id);
      ReachesNext(r, t, k - 1, id);
    }
  }

  /** A request carries the term that the sender has when it sends: once the follower has handled it, and whatever else
      was sent to it, its own term is at least that. */
  lemma SentTermReaches(r: Run, j: nat, k: nat, id: uint32)
    requires IsRun(r) && j < |r.steps| && j < k < |r.states| && id in r.states[j].peers
    requires Addressed(r.states[j], r.steps[j], id)
    requires id in r.states[k].peers && r.states[k].peers[id].requests == []
    ensures r.states[k].peers[id].node.term >= r.states[j + 1].leader.term
  {
    RunInv(r, j);
    SentSays(r.t0, r.states[j], r.steps[j], id);
    var p' := r.states[j + 1].peers[id];
    assert p'.requests[|p'.requests| - 1].term == r.states[j + 1].leader.term;
    ReachesLater(r, r.states[j + 1].leader.term, j + 1, k, id);
  }

  // ---------------------------------------------------------------- descriptors

  /** The handshake of this step, if it is one with node `id` that a leader serves, came by this connection. */
  ghost function ServedBy(s: System, step: Step, id: uint32): Option<int> {
    if step.Handshake? && step.hello.id == id && s.leader.role == Leader then Some(step.hello.fd) else None
  }

  /** The connection of the last handshake with node `id` that the leader served in the first `k` steps. */
  ghost function LastServed(r: Run, k: nat, id: uint32): Option<int>
    requires IsRun(r) && k < |r.states|
  {
    if k == 0 then None
    else
      var last := ServedBy(r.states[k - 1], r.steps[k - 1], id);
      if last.Some? then last else LastServed(r, k - 1, id)
  }

  ghost predicate TiedTo(l: Node, id: uint32, fd: Option<int>) {
    (id in l.proxies <==> fd.Some?) && (id in l.proxies ==> l.proxies[id].connFd == fd.value)
  }

  lemma TiedStep(t0: uint32, s: System, step: Step, id: uint32, fd: Option<int>)
    requires Inv(t0, s) && Enabled(s, step) && TiedTo(s.leader, id, fd)
    ensures var served := ServedBy(s, step, id);
            TiedTo(Apply(s, step).leader, id, if served.Some? then served else fd)
  {
    match step
    case Handshake(h, putOk, _) => HandshakeMeans(s.leader, h, putOk);
    case DeliverReply(at) =>
      ReplyLeaderInv(t0, s, at);
      ReplyMeans(s.leader, at, s.peers[at].replies[0].msg);
    case _ =>
  }

  lemma TiedNext(r: Run, k: nat, id: uint32, fd: Option<int>)
    requires IsRun(r) && k < |r.steps| && TiedTo(r.states[k].leader, id, fd)
    ensures var served := ServedBy(r.states[k], r.steps[k], id);
            TiedTo(r.states[k + 1].leader, id, if served.Some? then served else fd)
  {
    RunInv(r, k);
    TiedStep(r.t0, r.states[k], r.steps[k], id, fd);
  }

  /** In every state the members are exactly the nodes whose handshake the leader served, each tied to the connection by
      which the last one came. */
  lemma {:induction false} TiedToLast(r: Run, k: nat, id: uint32)
    requires IsRun(r) && k < |r.states|
    ensures TiedTo(r.states[k].leader, id, LastServed(r, k, id))
  {
    if k > 0 {
      TiedToLast(r, k - 1, id);
      TiedNext(r, k - 1, id, LastServed(r, k - 1, id));
    }
  }

  // ---------------------------------------------------------------- persisted terms

  /** A changed term is on disk. */
  predicate Persists(n: Node, n': Node) {
    if n'.term == n.term then n'.persistedTerm == n.persistedTerm else n'.persistedTerm == Some(n'.term)
  }

  /** Every step but an election timeout leaves a changed term on disk, at the leader and at every other node; an
      election timeout does not write. */
  lemma StepPersists(t0: uint32, s: System, step: Step, id: uint32)
    requires Inv(t0, s) && Enabled(s, step) && id in s.peers
    ensures id in Apply(s, step).peers && Persists(s.leader, Apply(s, step).leader)
    ensures var n, n' := s.peers[id].node, Apply(s, step).peers[id].node;
            if step == Timeout(id) then n'.persistedTerm == n.persistedTerm && n'.term == n.term + 1
            else Persists(n, n')
  {
    match step
    case Handshake(h, putOk, _) => HandshakeMeans(s.leader, h, putOk);
    case Broadcast(_) =>
    case DeliverRequest(at, puts) => TermMeans(s.peers[at].node, s.peers[at].requests[0], puts);
    case DeliverReply(at) =>
      ReplyLeaderInv(t0, s, at);
      ReplyMeans(s.leader, at, s.peers[at].replies[0].msg);
    case Timeout(_) =>
  }

  lemma LeaderPersists(t0: uint32, s: System, step: Step)
    requires Inv(t0, s) && Enabled(s, step)
    ensures Persists(s.leader, Apply(s, step).leader)
  {
    if step.Handshake? { HandshakeMeans(s.leader, step.hello, step.putOk); }
    if step.DeliverReply? {
      ReplyLeaderInv(t0, s, step.id);
      ReplyMeans(s.leader, step.id, s.peers[step.id].replies[0].msg);
    }
  }

  predicate LedOrPersisted(l: Node) {
    l.persistedTerm == if l.role == Leader then None else Some(l.term)
  }

  lemma PersistedNext(r: Run, k: nat)
    requires IsRun(r) && k < |r.steps| && LedOrPersisted(r.states[k].leader)
    ensures LedOrPersisted(r.states[k + 1].leader)
  {
    RunInv(r, k);
    RunInv(r, k + 1);
    LeaderPersists(r.t0, r.states[k], r.steps[k]);
    RunStepGrows(r, k);
  }

  /** A node that leads has written no term; one that has stepped down has written the one it has. */
  lemma {:induction false} SteppedDownIsPersisted(r: Run, k: nat)
    requires IsRun(r) && k < |r.states|
    ensures var l := r.states[k].leader; l.persistedTerm == if l.role == Leader then None else Some(l.term)
  {
    if k > 0 {
      SteppedDownIsPersisted(r, k - 1);
      PersistedNext(r, k - 1);
    }
  }
}
