/** The channel assumption is exact: for a follower that has not timed out, a send is safe if and only if no
    entry-carrying exchange with it is outstanding. */
module SendDiscipline {
  import opened Words
  import opened Messages
  import opened RaftNode
  import opened Replication
  import opened Invariant
  import opened Growth
  import opened Writes
  import opened FollowerCommit
  import opened Progress
  import opened Limits
  import opened Membership

  /** The peer after it has answered every request on its channel. */
  function AnswerAll(p: Peer): (r: Peer)
    ensures r.requests == []
    decreases |p.requests|
  {
    if p.requests == [] then p else AnswerAll(AnswerFirst(p))
  }

  function WithRequest(p: Peer, q: AppendQ): Peer {
    p.(requests := p.requests + [q])
  }

  lemma {:induction false} AnswerAllThenOne(p: Peer, q: AppendQ)
    ensures AnswerAll(WithRequest(p, q)) == AnswerFirst(WithRequest(AnswerAll(p), q))
    decreases |p.requests|
  {
    var p1 := WithRequest(p, q);
    if p.requests == [] {
      assert AnswerFirst(p1).requests == [];
    } else {
      assert p1.requests[0] == p.requests[0] && p1.requests[1..] == p.requests[1..] + [q];
      assert AnswerFirst(p1) == WithRequest(AnswerFirst(p), q);
      AnswerAllThenOne(AnswerFirst(p), q);
    }
  }

  /** Delivering every request in flight keeps the peer busy if it was busy. */
  lemma {:induction false} AnswerAllKeepsGood(t0: uint32, s: System, id: uint32) returns (t: System)
    requires GoodFor(t0, s, id) && id in s.leader.proxies
    ensures GoodFor(t0, t, id) && t.leader == s.leader && id in t.peers && t.peers[id] == AnswerAll(s.peers[id])
    ensures Busy(t.peers[id]) <==> Busy(s.peers[id])
    decreases |s.peers[id].requests|
  {
    if s.peers[id].requests == [] {
      t := s;
    } else {
      DeliverPlain(s, id);
      InTimeStep(t0, s, Deliver(s, id), id);
      GoodForStep(t0, s, Deliver(s, id), id);
      RequestKeepsGoal(t0, s, id);
      t := AnswerAllKeepsGood(t0, Apply(s, Deliver(s, id)), id);
    }
  }

  /** A follower whose batch is stored but not acknowledged accepts the same batch again. */
  lemma AcceptsAgain(t0: uint32, s: System, id: uint32)
    requires GoodFor(t0, s, id) && id in s.leader.proxies && s.peers[id].requests == [] && Busy(s.peers[id])
    ensures var l, p := s.leader, s.peers[id]; var px := l.proxies[id];
            && 1 <= px.next <= LastEntryIndex(l.log) && px.next == px.matched + 1
            && |p.node.log| == Held(px.next) && Accepts(p.node, RequestFor(l, px)) && p.node.term == l.term
  {
    var l, p := s.leader, s.peers[id];
    var px := l.proxies[id];
    assert ProxyInv(l.log, px) && PeerInv(t0, l, id, p);
    BusyMeans(t0, l, px.matched, p);
    RequestForInv(t0, l, px);
    if px.matched > 0 {
      assert p.node.log[px.matched] == l.log[px.matched] && OwnEntry(t0, l.log[px.matched]);
    }
  }

  lemma ResendDiverges(t0: uint32, s: System, id: uint32)
    requires GoodFor(t0, s, id) && id in s.leader.proxies && Busy(s.peers[id]) && s.peers[id].requests == []
    requires DistinctIds(s.leader.log)
    ensures 1 <= s.leader.proxies[id].next
    ensures !BodyPrefix(AnswerFirst(WithRequest(s.peers[id], RequestFor(s.leader, s.leader.proxies[id]))).node.log,
        s.leader.log)
  {
    var l, p := s.leader, s.peers[id];
    AcceptsAgain(t0, s, id);
    var q := RequestFor(l, l.proxies[id]);
    assert PeerInv(t0, l, id, p);
    assert forall e <- l.log :: OwnEntry(t0, e);
    BatchFitsExactly(l.log, p.node.log, p.node.term, l.proxies[id].next);
    assert WithRequest(p, q).requests[0] == q;
  }

  lemma SendKeepsPrefix(t0: uint32, l: Node, px: Proxy, p: Peer)
    requires LeaderInv(t0, l) && ProxyInv(l.log, px) && Linked(t0, l, px.matched, p) && Accounted(px.matched, p)
    requires !Busy(p) && p.requests == []
    ensures BodyPrefix(AnswerFirst(WithRequest(p, RequestFor(l, px))).node.log, l.log)
  {
    var p1 := WithRequest(p, RequestFor(l, px));
    var puts := AllOk(|p1.requests[0].entries|);
    SendKeepsLinked(t0, l, px, p);
    LossyOrAllOk(puts);
    assert Claimed(px.matched, p1) == Claimed(px.matched, p);
    AnswerStored(t0, l, px.matched, p1, puts);
  }

  /** Adding a request for the proxy of a follower in time and letting the follower answer all it was sent keeps the
      follower's log a prefix of the leader's if and only if no entry-carrying exchange was outstanding. */
  lemma SendSafeExactly(t0: uint32, s: System, id: uint32)
    requires GoodFor(t0, s, id) && id in s.leader.proxies && DistinctIds(s.leader.log)
    ensures 1 <= s.leader.proxies[id].next
    ensures var q := RequestFor(s.leader, s.leader.proxies[id]);
            BodyPrefix(AnswerAll(WithRequest(s.peers[id], q)).node.log, s.leader.log) <==> !Busy(s.peers[id])
  {
    var l, p := s.leader, s.peers[id];
    var px := l.proxies[id];
    assert ProxyInv(l.log, px) && PeerInv(t0, l, id, p);
    var q := RequestFor(l, px);
    var t := AnswerAllKeepsGood(t0, s, id);
    AnswerAllThenOne(p, q);
    if Busy(p) {
      ResendDiverges(t0, t, id);
    } else {
      assert PeerInv(t0, l, id, t.peers[id]);
      SendKeepsPrefix(t0, l, px, t.peers[id]);
    }
  }

  /** The ids in the leader's log are distinct as long as nobody joined under the id the leader logged for itself. */
  lemma IdsDistinctInRun(r: Run, k: nat)
    requires IsRun(r) && k < |r.states|
    requires forall e <- r.states[0].leader.log :: e.nodeId !in r.states[k].leader.proxies
    ensures DistinctIds(r.states[k].leader.log)
  {
    MembershipConserved(r, k);
    RunGrows(r, 0, k);
    var log0, log := r.states[0].leader.log, r.states[k].leader.log;
    forall i, j | 0 <= i < j < |log| ensures log[i].nodeId != log[j].nodeId {
      if i < |log0| { assert log[i] == log0[i] && log0[i] in log0 && j >= |log0|; }
    }
  }

  /** The same for the states of a run in which no node joined under the leader's own id, and for a follower that has
      not timed out and lost no write. */
  lemma SendSafeInRun(r: Run, k: nat, id: uint32)
    requires IsRun(r) && r.t0 != TWO_32 - 1 && k < |r.states|
    requires id in r.states[k].leader.proxies && InTime(r.t0, r.states[k], id) && !LostWrite(r, k, id)
    requires forall e <- r.states[0].leader.log :: e.nodeId !in r.states[k].leader.proxies
    ensures var s := r.states[k];
            && id in s.peers && 1 <= s.leader.proxies[id].next
            && (BodyPrefix(AnswerAll(WithRequest(s.peers[id], RequestFor(s.leader, s.leader.proxies[id]))).node.log,
                s.leader.log)
                <==> !Busy(s.peers[id]))
  {
    GoodForRun(r, k, id);
    IdsDistinctInRun(r, k);
    SendSafeExactly(r.t0, r.states[k], id);
  }
}
