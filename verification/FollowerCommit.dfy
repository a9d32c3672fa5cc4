/** What a follower's commit index promises, and exactly when it names an entry that the follower stores. */
module FollowerCommit {
  import opened Words
  import opened Messages
  import opened RaftNode
  import opened Replication
  import opened Invariant
  import opened Growth
  import opened Writes

  /** In every run a follower's commit index stays at or below the leader's; if it lost no write, it stays at or below
      the number of entries it stores unless it stores none. (`RunGrows` adds that it never decreases.) */
  lemma FollowerCommitBounds(r: Run, k: nat, id: uint32)
    requires IsRun(r) && k < |r.states| && id in r.states[k].peers
    ensures var n := r.states[k].peers[id].node;
            && n.commit <= r.states[k].leader.commit
            && (!LostWrite(r, k, id) ==> n.commit <= |n.log| || (n.log == [] && n.commit <= 2))
  {
    RunInv(r, k);
    WholeExactly(r, k, id);
    assert PeerInv(r.t0, r.states[k].leader, id, r.states[k].peers[id]);
  }

  // ---------------------------------------------------------------- one request

  /** How many of a batch's writes succeed. */
  function Written(puts: seq<bool>): nat {
    if puts == [] then 0 else (if puts[0] then 1 else 0) + Written(puts[1..])
  }

  lemma WrittenShort(puts: seq<bool>)
    ensures |puts| == 1 ==> Written(puts) == if puts[0] then 1 else 0
    ensures |puts| == 2 ==> Written(puts) == (if puts[0] then 1 else 0) + (if puts[1] then 1 else 0)
  {
    if |puts| == 2 { assert puts[1..] == [puts[1]] && puts[1..][1..] == []; }
  }

  /** The log after one request, for a follower that holds what it acknowledged. */
  lemma StoredAfter(t0: uint32, l: Node, m: nat, p: Peer, puts: seq<bool>)
    requires LeaderInv(t0, l) && Linked(t0, l, m, p) && Accounted(m, p)
    requires p.requests != [] && |puts| == |p.requests[0].entries|
    ensures |p.node.log| == Held(m)
    ensures |Answer(p, puts).node.log| == Held(m) + if Accepts(p.node, p.requests[0]) then Written(puts) else 0
    ensures p.requests[0].entries != [] ==> |puts| == if m == 0 then 2 else 1
  {
    var q := p.requests[0];
    assert RequestInv(t0, l, m, q);
    assert !AckPending(p);
    if q.entries != [] && Accepts(p.node, q) {
      assert OwnEntry(t0, l.log[0]) && OwnEntry(t0, l.log[m + 1]);
      var term := TermAfter(p.node, q).term;
      WrittenShort(puts);
      if m == 0 { TwoEntries(p.node.log, term, q.entries, puts); } else { OneEntry(p.node.log, term, q.entries, puts); }
    }
  }

  /** A follower that lost a write keeps its log, which ends before the request's previous index. */
  lemma ShortAfter(t0: uint32, l: Node, m: nat, p: Peer, puts: seq<bool>)
    requires Linked(t0, l, m, p) && !Accounted(m, p) && p.requests != [] && |puts| == |p.requests[0].entries|
    ensures !Accepts(p.node, p.requests[0]) && Answer(p, puts).node.log == p.node.log && |p.node.log| <= m && 0 < m
  {
    assert RequestInv(t0, l, m, p.requests[0]);
    ShortRefuses(t0, l, m, p);
  }

  /** The exact case in which handling a request leaves the commit index above the number of stored entries: a first
      batch that stores fewer entries than it declares committed; or, at a follower that lost a write, any request from
      a leader that has committed more than is stored. */
  predicate StoresTooFew(n: Node, q: AppendQ, puts: seq<bool>) {
    if q.prevIndex == 0 then Min(q.leaderCommit, 2) > (if IsStale(n, q) then 0 else Written(puts))
    else |n.log| <= q.prevIndex && |n.log| < q.leaderCommit
  }

  lemma StoredBoundPeer(t0: uint32, l: Node, m: nat, p: Peer, puts: seq<bool>)
    requires LeaderInv(t0, l) && Linked(t0, l, m, p)
    requires p.requests != [] && |puts| == |p.requests[0].entries| && p.node.commit <= |p.node.log|
    ensures var n' := Answer(p, puts).node; n'.commit <= |n'.log| <==> !StoresTooFew(p.node, p.requests[0], puts)
  {
    assert RequestInv(t0, l, m, p.requests[0]);
    WrittenShort(puts);
    assert Answer(p, puts).node.commit == CommitAfter(p.node.commit, p.requests[0]);
    if Accounted(m, p) { StoredAfter(t0, l, m, p, puts); } else { ShortAfter(t0, l, m, p, puts); }
  }

  lemma StoredBoundExact(t0: uint32, s: System, id: uint32, puts: seq<bool>)
    requires Inv(t0, s) && Enabled(s, DeliverRequest(id, puts))
    requires s.peers[id].node.commit <= |s.peers[id].node.log|
    ensures var n, n' := s.peers[id].node, Apply(s, DeliverRequest(id, puts)).peers[id].node;
            n'.commit <= |n'.log| <==> !StoresTooFew(n, s.peers[id].requests[0], puts)
  {
    assert PeerInv(t0, s.leader, id, s.peers[id]);
    StoredBoundPeer(t0, s.leader, s.leader.proxies[id].matched, s.peers[id], puts);
  }

  /** The exact case in which handling a request leaves a commit index that names no stored entry: a first batch, stored
      whole, from a leader that has committed index 2; or a request that is refused or not written whole, from a leader
      that has committed past the last entry stored. */
  predicate NamesMissing(n: Node, q: AppendQ, puts: seq<bool>) {
    if Accepts(n, q) && !Lossy(puts) then q.prevIndex == 0 && q.leaderCommit >= 2
    else q.leaderCommit > LastEntryIndex(n.log)
  }

  lemma LastIndexPeer(t0: uint32, l: Node, m: nat, p: Peer, puts: seq<bool>)
    requires LeaderInv(t0, l) && Linked(t0, l, m, p)
    requires p.requests != [] && |puts| == |p.requests[0].entries| && p.node.commit <= LastEntryIndex(p.node.log)
    ensures var n' := Answer(p, puts).node;
        n'.commit <= LastEntryIndex(n'.log) <==> !NamesMissing(p.node, p.requests[0], puts)
  {
    assert RequestInv(t0, l, m, p.requests[0]);
    assert Answer(p, puts).node.commit == CommitAfter(p.node.commit, p.requests[0]);
    if Accounted(m, p) {
      StoredAfter(t0, l, m, p, puts);
      LossyShort(puts);
    } else {
      ShortAfter(t0, l, m, p, puts);
    }
  }

  lemma LossyShort(puts: seq<bool>)
    requires |puts| <= 2
    ensures Lossy(puts) <==> Written(puts) < |puts|
    ensures Written(puts) <= |puts|
  {
    WrittenShort(puts);
  }

  lemma LastIndexExact(t0: uint32, s: System, id: uint32, puts: seq<bool>)
    requires Inv(t0, s) && Enabled(s, DeliverRequest(id, puts))
    requires s.peers[id].node.commit <= LastEntryIndex(s.peers[id].node.log)
    ensures var n, n' := s.peers[id].node, Apply(s, DeliverRequest(id, puts)).peers[id].node;
            n'.commit <= LastEntryIndex(n'.log) <==> !NamesMissing(n, s.peers[id].requests[0], puts)
  {
    assert PeerInv(t0, s.leader, id, s.peers[id]);
    LastIndexPeer(t0, s.leader, s.leader.proxies[id].matched, s.peers[id], puts);
  }

  // ---------------------------------------------------------------- followers that have not timed out

  /** The leader leads, and the follower's term has not passed the leader's. */
  ghost predicate InTime(t0: uint32, s: System, id: uint32) {
    s.leader.role == Leader && id in s.peers && s.peers[id].node.term <= t0
  }

  /** A follower in time always was. */
  lemma InTimeBefore(r: Run, i: nat, k: nat, id: uint32)
    requires IsRun(r) && i <= k < |r.states| && InTime(r.t0, r.states[k], id)
    ensures InTime(r.t0, r.states[i], id)
  {
    RunGrows(r, i, k);
    assert NodeGrows(r.states[i].peers[id].node, r.states[k].peers[id].node);
  }

  /** A request delivered to a follower in time is accepted if and only if the follower lost no write; except that
      with a starting term of 2^32-1, which reads back as "no such entry", nothing after the first batch is accepted. */
  lemma AcceptedExactly(t0: uint32, s: System, id: uint32)
    requires Inv(t0, s) && InTime(t0, s, id) && s.peers[id].requests != []
    ensures var p := s.peers[id];
            Accepts(p.node, p.requests[0]) <==> Whole(s, id) && (t0 != TWO_32 - 1 || p.requests[0].prevIndex == 0)
  {
    var l, p := s.leader, s.peers[id];
    var m, q := l.proxies[id].matched, p.requests[0];
    assert PeerInv(t0, l, id, p);
    assert RequestInv(t0, l, m, q);
    if !Whole(s, id) {
      ShortRefuses(t0, l, m, p);
    } else if m > 0 {
      assert p.node.log[m] == l.log[m] && OwnEntry(t0, l.log[m]);
    }
  }

  // ---------------------------------------------------------------- runs without election timeouts

  ghost predicate NoTimeouts(r: Run) {
    forall i :: 0 <= i < |r.steps| ==> !r.steps[i].Timeout?
  }

  /** While no election timer fires, everybody is in time. */
  ghost predicate Quiet(t0: uint32, s: System) {
    s.leader.role == Leader && forall id <- s.peers :: s.peers[id].node.term <= t0
  }

  lemma QuietAnswer(t0: uint32, s: System, id: uint32, puts: seq<bool>)
    requires Inv(t0, s) && InTime(t0, s, id) && Enabled(s, DeliverRequest(id, puts))
    ensures Answer(s.peers[id], puts).node.term <= t0
  {
    assert PeerInv(t0, s.leader, id, s.peers[id]);
    assert RequestInv(t0, s.leader, s.leader.proxies[id].matched, s.peers[id].requests[0]);
  }

  /** A reply from a follower in time does not end the leader's role. */
  lemma InTimeReply(t0: uint32, s: System, id: uint32)
    requires Inv(t0, s) && InTime(t0, s, id) && Enabled(s, DeliverReply(id))
    ensures Apply(s, DeliverReply(id)).leader.role == Leader
    ensures s.peers[id].replies[0].msg.term <= s.leader.term
  {
    assert PeerInv(t0, s.leader, id, s.peers[id]);
    assert ReplyInv(s.leader, s.peers[id].node, s.peers[id].replies[0]);
  }

  /** A step keeps a follower in time unless its timer fires or the leader steps down. */
  lemma InTimeStep(t0: uint32, s: System, step: Step, id: uint32)
    requires Inv(t0, s) && InTime(t0, s, id) && Enabled(s, step) && step != Timeout(id)
    requires Apply(s, step).leader.role == Leader
    ensures InTime(t0, Apply(s, step), id)
  {
    if step.DeliverRequest? && step.id == id { QuietAnswer(t0, s, id, step.puts); }
  }

  lemma KeepsRole(t0: uint32, s: System, step: Step)
    requires Inv(t0, s) && s.leader.role == Leader && Enabled(s, step)
    requires step.DeliverReply? ==> InTime(t0, s, step.id)
    ensures Apply(s, step).leader.role == Leader
  {
    if step.DeliverReply? { InTimeReply(t0, s, step.id); }
  }

  lemma QuietStep(t0: uint32, s: System, step: Step)
    requires Inv(t0, s) && Quiet(t0, s) && Enabled(s, step) && !step.Timeout?
    ensures Quiet(t0, Apply(s, step))
  {
    KeepsRole(t0, s, step);
    StepGrows(t0, s, step);
    forall id | id in s.peers ensures Apply(s, step).peers[id].node.term <= t0 {
      InTimeStep(t0, s, step, id);
    }
  }

  lemma {:induction false} QuietRun(r: Run, k: nat)
    requires IsRun(r) && NoTimeouts(r) && k < |r.states|
    ensures Quiet(r.t0, r.states[k])
  {
    if k > 0 {
      QuietRun(r, k - 1);
      RunInv(r, k - 1);
      QuietStep(r.t0, r.states[k - 1], r.steps[k - 1]);
    }
  }

  // ---------------------------------------------------------------- the commit index of a follower in time

  /** The commit index is within the stored entries. It names one of them, or is the 2 that the first batch computes for
      its last index. (With the starting term 2^32-1 later batches are refused, and only the first bound is kept.) */
  predicate CommitFits(t0: uint32, n: Node) {
    && n.commit <= |n.log|
    && (t0 != TWO_32 - 1 ==> n.commit <= LastEntryIndex(n.log) || (|n.log| == 2 && n.commit == 2))
  }

  lemma FitsAnswer(t0: uint32, s: System, id: uint32)
    requires Inv(t0, s) && InTime(t0, s, id) && Whole(s, id) && s.peers[id].requests != []
    requires CommitFits(t0, s.peers[id].node)
    ensures CommitFits(t0, AnswerFirst(s.peers[id]).node)
  {
    var l, p := s.leader, s.peers[id];
    assert PeerInv(t0, l, id, p);
    var m := l.proxies[id].matched;
    assert RequestInv(t0, l, m, p.requests[0]);
    AcceptedExactly(t0, s, id);
    if p.requests[0].entries != [] && Accepts(p.node, p.requests[0]) { AcceptedBatch(t0, l, m, p); }
    assert |p.node.log| == Held(m);
  }

  /** A refused request writes nothing, so it does not matter what the writes would have done. */
  lemma RefusedAnyway(p: Peer, puts: seq<bool>)
    requires p.requests != [] && |puts| == |p.requests[0].entries| && !Accepts(p.node, p.requests[0])
    ensures Answer(p, puts) == AnswerFirst(p)
  {
  }

  lemma FitsStep(t0: uint32, s: System, step: Step, id: uint32)
    requires Inv(t0, s) && InTime(t0, s, id) && Enabled(s, step)
    requires Whole(s, id) && !LosesWrite(s, step, id) && CommitFits(t0, s.peers[id].node)
    ensures id in Apply(s, step).peers && CommitFits(t0, Apply(s, step).peers[id].node)
  {
    if step.DeliverRequest? && step.id == id {
      LossyOrAllOk(step.puts);
      if Lossy(step.puts) { RefusedAnyway(s.peers[id], step.puts); }
      FitsAnswer(t0, s, id);
    }
  }

  lemma {:induction false} FitsInRun(r: Run, k: nat, id: uint32)
    requires IsRun(r) && k < |r.states| && InTime(r.t0, r.states[k], id) && !LostWrite(r, k, id)
    ensures CommitFits(r.t0, r.states[k].peers[id].node)
  {
    if k > 0 {
      InTimeBefore(r, k - 1, k, id);
      FitsInRun(r, k - 1, id);
      RunInv(r, k - 1);
      WholeExactly(r, k - 1, id);
      FitsStep(r.t0, r.states[k - 1], r.steps[k - 1], id);
    }
  }

  /** In every run, a follower that has not timed out and lost no write has, while the leader leads, an exact prefix of
      the leader's log and a commit index that exceeds neither the leader's nor the number of stored entries, and that
      names an entry it stores, except that it can be 2 while exactly two entries are stored. */
  lemma FollowerCommitInTime(r: Run, k: nat, id: uint32)
    requires IsRun(r) && k < |r.states| && InTime(r.t0, r.states[k], id) && !LostWrite(r, k, id)
    ensures var s := r.states[k]; var n := s.peers[id].node;
            && n.log <= s.leader.log && n.commit <= s.leader.commit && n.commit <= |n.log|
            && (r.t0 != TWO_32 - 1 ==> n.commit <= LastEntryIndex(n.log) || (|n.log| == 2 && n.commit == 2))
  {
    FollowerCommitBounds(r, k, id);
    ShapeInRun(r, k, id);
    FitsInRun(r, k, id);
  }

  /** Without election timeouts the leader keeps its role and every follower is in time. */
  lemma FollowerCommitWithoutTimeouts(r: Run, k: nat, id: uint32)
    requires IsRun(r) && NoTimeouts(r) && k < |r.states| && id in r.states[k].peers
    ensures var s := r.states[k]; var n := s.peers[id].node;
            && s.leader.role == Leader && n.commit <= s.leader.commit
            && (!LostWrite(r, k, id) ==>
                  && n.log <= s.leader.log && n.commit <= |n.log|
                  && (r.t0 != TWO_32 - 1 ==> n.commit <= LastEntryIndex(n.log) || (|n.log| == 2 && n.commit == 2)))
  {
    QuietRun(r, k);
    FollowerCommitBounds(r, k, id);
    if !LostWrite(r, k, id) { FollowerCommitInTime(r, k, id); }
  }
}
