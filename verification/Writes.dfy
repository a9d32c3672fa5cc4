/** What follower writes that fail do, over every run: a failed write is acknowledged like a successful one. */
module Writes {
  import opened Words
  import opened Messages
  import opened RaftNode
  import opened Replication
  import opened Invariant
  import opened Growth

  /** In this step the follower accepts a batch and fails to write some entry of it. */
  ghost predicate LosesWrite(s: System, step: Step, id: uint32) {
    && step.DeliverRequest? && step.id == id && id in s.peers && s.peers[id].requests != []
    && Accepts(s.peers[id].node, s.peers[id].requests[0]) && Lossy(step.puts)
  }

  /** The first batch, of which only the second entry is written. */
  ghost predicate SkipsFirst(s: System, step: Step, id: uint32) {
    LosesWrite(s, step, id) && step.puts == [false, true]
  }

  ghost predicate LostWrite(r: Run, k: nat, id: uint32)
    requires IsRun(r) && k < |r.states|
  {
    exists i :: 0 <= i < k && LosesWrite(r.states[i], r.steps[i], id)
  }

  ghost predicate Skipped(r: Run, k: nat, id: uint32)
    requires IsRun(r) && k < |r.states|
  {
    exists i :: 0 <= i < k && SkipsFirst(r.states[i], r.steps[i], id)
  }

  /** The node holds as many entries as it acknowledged. */
  ghost predicate Whole(s: System, id: uint32) {
    id in s.leader.proxies && id in s.peers ==> Accounted(s.leader.proxies[id].matched, s.peers[id])
  }

  // ---------------------------------------------------------------- one step

  lemma SendsKeepNode(s: System, sent: map<uint32, AppendQ>, id: uint32)
    requires id in s.peers
    ensures var p := SendAll(s.peers, sent)[id]; p.node == s.peers[id].node && p.replies == s.peers[id].replies
  {
  }

  /** The match index of a proxy that a handshake did not add. */
  lemma HandshakeMatched(t0: uint32, l: Node, h: Hello, putOk: bool, id: uint32)
    requires LeaderInv(t0, l) && |l.log| + 1 < MAX_LOG
    ensures var l' := HandshakeNode(l, h, putOk);
            && (id in l.proxies ==> id in l'.proxies && l'.proxies[id].matched == l.proxies[id].matched)
            && (id !in l.proxies && id in l'.proxies ==> l'.proxies[id].matched == 0)
  {
    if IsFreshHello(l, h) { JoinLeaderInv(t0, l, h, putOk); }
  }

  lemma WholeHandshake(t0: uint32, s: System, h: Hello, putOk: bool, alive: set<uint32>, id: uint32)
    requires Inv(t0, s) && Enabled(s, Handshake(h, putOk, alive)) && id in s.peers
    ensures Whole(Apply(s, Handshake(h, putOk, alive)), id) <==> Whole(s, id)
  {
    assert PeerInv(t0, s.leader, id, s.peers[id]);
    SendsKeepNode(s, HandshakeSends(s.leader, h, putOk, alive), id);
    HandshakeMatched(t0, s.leader, h, putOk, id);
  }

  lemma WholeReply(t0: uint32, s: System, at: uint32, id: uint32)
    requires Inv(t0, s) && Enabled(s, DeliverReply(at)) && id in s.peers
    ensures Whole(Apply(s, DeliverReply(at)), id) <==> Whole(s, id)
  {
    ReplyPeerInv(t0, s, at);
    if id != at { ReplyElsewhere(s.leader, at, s.peers[at].replies[0].msg, id); }
  }

  lemma WholeRequest(t0: uint32, s: System, at: uint32, puts: seq<bool>, id: uint32)
    requires Inv(t0, s) && Enabled(s, DeliverRequest(at, puts)) && id in s.peers
    ensures Whole(Apply(s, DeliverRequest(at, puts)), id) <==>
        Whole(s, id) && !LosesWrite(s, DeliverRequest(at, puts), id)
  {
    if id == at {
      assert PeerInv(t0, s.leader, id, s.peers[id]);
      AnswerLinked(t0, s.leader, s.leader.proxies[id].matched, s.peers[id], puts);
    }
  }

  lemma WholeElse(s: System, step: Step, id: uint32)
    requires Enabled(s, step) && (step.Broadcast? || step.Timeout?) && id in s.peers
    ensures Whole(Apply(s, step), id) <==> Whole(s, id)
  {
  }

  /** A node comes to hold less than it acknowledged exactly by a lost write, and never recovers. */
  lemma WholeStep(t0: uint32, s: System, step: Step, id: uint32)
    requires Inv(t0, s) && Enabled(s, step) && id in s.peers
    ensures Whole(Apply(s, step), id) <==> Whole(s, id) && !LosesWrite(s, step, id)
  {
    match step
    case Handshake(h, putOk, alive) => WholeHandshake(t0, s, h, putOk, alive, id);
    case Broadcast(_) => WholeElse(s, step, id);
    case DeliverRequest(at, puts) => WholeRequest(t0, s, at, puts, id);
    case DeliverReply(at) => WholeReply(t0, s, at, id);
    case Timeout(_) => WholeElse(s, step, id);
  }

  lemma OnlyRequestsWrite(s: System, step: Step, id: uint32)
    requires Enabled(s, step) && id in s.peers && !(step.DeliverRequest? && step.id == id)
    ensures id in Apply(s, step).peers && Apply(s, step).peers[id].node.log == s.peers[id].node.log
  {
  }

  /** A node that holds less than it acknowledged keeps its log as it is. */
  lemma ShortStep(t0: uint32, s: System, step: Step, id: uint32)
    requires Inv(t0, s) && Enabled(s, step) && id in s.peers && !Whole(s, id)
    ensures Apply(s, step).peers[id].node.log == s.peers[id].node.log
  {
    if step.DeliverRequest? && step.id == id {
      assert PeerInv(t0, s.leader, id, s.peers[id]);
      ShortRefuses(t0, s.leader, s.leader.proxies[id].matched, s.peers[id]);
    } else {
      OnlyRequestsWrite(s, step, id);
    }
  }

  lemma KeepsShape(log: seq<Entry>, l: Node, l': Node)
    requires Grows(l, l')
    ensures IsPrefix(log, l) ==> IsPrefix(log, l')
    ensures Misplaced(log, l) ==> Misplaced(log, l')
  {
  }

  /** A delivered batch leaves a prefix of the leader's log, unless it skips its first entry. */
  lemma DeliveredShape(t0: uint32, s: System, id: uint32, puts: seq<bool>)
    requires Inv(t0, s) && Enabled(s, DeliverRequest(id, puts)) && Whole(s, id)
    ensures var log' := Apply(s, DeliverRequest(id, puts)).peers[id].node.log;
            if SkipsFirst(s, DeliverRequest(id, puts), id) then Misplaced(log', s.leader) else IsPrefix(log', s.leader)
  {
    var l, p := s.leader, s.peers[id];
    assert PeerInv(t0, l, id, p);
    var m := l.proxies[id].matched;
    if p.requests[0].entries != [] && Accepts(p.node, p.requests[0]) {
      LossyOrAllOk(puts);
      if Lossy(puts) { LossyBatch(t0, l, m, p, puts); } else { AcceptedBatch(t0, l, m, p); }
    }
  }

  /** The log after a step, measured against the leader's log before it. */
  lemma ShapeBefore(t0: uint32, s: System, step: Step, id: uint32)
    requires Inv(t0, s) && Enabled(s, step) && id in s.peers
    ensures id in Apply(s, step).peers
    ensures var log, log', l := s.peers[id].node.log, Apply(s, step).peers[id].node.log, s.leader;
            && (SkipsFirst(s, step, id) ==> Misplaced(log', l))
            && (IsPrefix(log, l) && !SkipsFirst(s, step, id) ==> IsPrefix(log', l))
            && (Misplaced(log, l) && !Whole(s, id) ==> Misplaced(log', l))
  {
    if step.DeliverRequest? && step.id == id {
      if Whole(s, id) {
        DeliveredShape(t0, s, id, step.puts);
      } else {
        ShortStep(t0, s, step, id);
        assert PeerInv(t0, s.leader, id, s.peers[id]);
        ShortRefuses(t0, s.leader, s.leader.proxies[id].matched, s.peers[id]);
      }
    } else {
      OnlyRequestsWrite(s, step, id);
    }
  }

  lemma ShapeStep(t0: uint32, s: System, step: Step, id: uint32)
    requires Inv(t0, s) && Enabled(s, step) && id in s.peers
    ensures id in Apply(s, step).peers
    ensures var log', l' := Apply(s, step).peers[id].node.log, Apply(s, step).leader;
            && (SkipsFirst(s, step, id) ==> Misplaced(log', l'))
            && (IsPrefix(s.peers[id].node.log, s.leader) && !SkipsFirst(s, step, id) ==> IsPrefix(log', l'))
            && (Misplaced(s.peers[id].node.log, s.leader) && !Whole(s, id) ==> Misplaced(log', l'))
  {
    ShapeBefore(t0, s, step, id);
    StepGrows(t0, s, step);
    KeepsShape(Apply(s, step).peers[id].node.log, s.leader, Apply(s, step).leader);
  }

  // ---------------------------------------------------------------- every run

  lemma SameNodes(r: Run, k: nat)
    requires IsRun(r) && k < |r.states|
    ensures r.states[k].peers.Keys == r.states[0].peers.Keys
  {
    RunGrows(r, 0, k);
  }

  lemma LostWriteNext(r: Run, k: nat, id: uint32)
    requires IsRun(r) && k < |r.steps|
    ensures LostWrite(r, k + 1, id) <==> LostWrite(r, k, id) || LosesWrite(r.states[k], r.steps[k], id)
  {
  }

  lemma SkippedNext(r: Run, k: nat, id: uint32)
    requires IsRun(r) && k < |r.steps|
    ensures Skipped(r, k + 1, id) <==> Skipped(r, k, id) || SkipsFirst(r.states[k], r.steps[k], id)
    ensures Skipped(r, k, id) ==> LostWrite(r, k, id)
  {
  }

  lemma WholeNext(r: Run, k: nat, id: uint32)
    requires IsRun(r) && k < |r.steps| && id in r.states[k].peers
    ensures id in r.states[k + 1].peers
    ensures Whole(r.states[k + 1], id) <==> Whole(r.states[k], id) && !LosesWrite(r.states[k], r.steps[k], id)
  {
    RunInv(r, k);
    WholeStep(r.t0, r.states[k], r.steps[k], id);
    StepGrows(r.t0, r.states[k], r.steps[k]);
  }

  lemma ShapeNext(r: Run, k: nat, id: uint32)
    requires IsRun(r) && k < |r.steps| && id in r.states[k].peers
    ensures id in r.states[k + 1].peers
    ensures var log, log' := r.states[k].peers[id].node.log, r.states[k + 1].peers[id].node.log;
            var l, l' := r.states[k].leader, r.states[k + 1].leader;
            && (SkipsFirst(r.states[k], r.steps[k], id) ==> Misplaced(log', l'))
            && (IsPrefix(log, l) && !SkipsFirst(r.states[k], r.steps[k], id) ==> IsPrefix(log', l'))
            && (Misplaced(log, l) && !Whole(r.states[k], id) ==> Misplaced(log', l'))
  {
    RunInv(r, k);
    ShapeStep(r.t0, r.states[k], r.steps[k], id);
  }

  /** Exactly the nodes that lost a write hold less than they acknowledged. */
  lemma {:induction false} WholeExactly(r: Run, k: nat, id: uint32)
    requires IsRun(r) && k < |r.states| && id in r.states[k].peers
    ensures Whole(r.states[k], id) <==> !LostWrite(r, k, id)
  {
    if k > 0 {
      SameNodes(r, k);
      SameNodes(r, k - 1);
      WholeExactly(r, k - 1, id);
      WholeNext(r, k - 1, id);
      LostWriteNext(r, k - 1, id);
    }
  }

  /** A node that skipped the first entry holds entry 1 alone; any other holds a prefix of the leader's log. */
  lemma {:induction false} ShapeInRun(r: Run, k: nat, id: uint32)
    requires IsRun(r) && k < |r.states| && id in r.states[k].peers
    ensures var log, l := r.states[k].peers[id].node.log, r.states[k].leader;
            if Skipped(r, k, id) then Misplaced(log, l) else IsPrefix(log, l)
  {
    if k > 0 {
      SameNodes(r, k);
      SameNodes(r, k - 1);
      ShapeInRun(r, k - 1, id);
      ShapeNext(r, k - 1, id);
      WholeExactly(r, k - 1, id);
      SkippedNext(r, k - 1, id);
    }
  }

  /** A node that lost a write refuses every request. */
  lemma LostWriteRefuses(r: Run, k: nat, id: uint32)
    requires IsRun(r) && k < |r.states| && id in r.states[k].peers && LostWrite(r, k, id)
    requires r.states[k].peers[id].requests != []
    ensures !Accepts(r.states[k].peers[id].node, r.states[k].peers[id].requests[0])
  {
    WholeExactly(r, k, id);
    RunInv(r, k);
    var s := r.states[k];
    assert PeerInv(r.t0, s.leader, id, s.peers[id]);
    ShortRefuses(r.t0, s.leader, s.leader.proxies[id].matched, s.peers[id]);
  }

  lemma ShortNext(r: Run, k: nat, id: uint32)
    requires IsRun(r) && k < |r.steps| && id in r.states[k].peers && !Whole(r.states[k], id)
    ensures id in r.states[k + 1].peers && r.states[k + 1].peers[id].node.log == r.states[k].peers[id].node.log
  {
    RunInv(r, k);
    ShortStep(r.t0, r.states[k], r.steps[k], id);
    StepGrows(r.t0, r.states[k], r.steps[k]);
  }

  /** And its log never changes again. */
  lemma {:induction false} LostWriteFreezes(r: Run, k: nat, j: nat, id: uint32)
    requires IsRun(r) && k <= j < |r.states| && id in r.states[k].peers && LostWrite(r, k, id)
    ensures id in r.states[j].peers && r.states[j].peers[id].node.log == r.states[k].peers[id].node.log
    decreases j - k
  {
    if k < j {
      LostWriteFreezes(r, k, j - 1, id);
      WholeExactly(r, j - 1, id);
      ShortNext(r, j - 1, id);
    }
  }
}
