/** Log agreement, exact accounting and term order, over every run. */
module Agreement {
  import opened Words
  import opened Messages
  import opened RaftNode
  import opened Replication
  import opened Invariant
  import opened Writes

  /** In every run, whatever writes fail, each follower's log is a prefix of the leader's, field by field except the
      term, if and only if the follower did not skip the first entry (or the first two entries say the same); while the
      leader keeps its role the terms agree too. */
  lemma LogAgreement(r: Run, k: nat, id: uint32)
    requires IsRun(r) && k < |r.states| && id in r.states[k].peers
    ensures var log, l := r.states[k].peers[id].node.log, r.states[k].leader;
            && (BodyPrefix(log, l.log) <==> !Skipped(r, k, id) || (|l.log| >= 2 && SameBody(l.log[0], l.log[1])))
            && (l.role == Leader && !Skipped(r, k, id) ==> log <= l.log)
  {
    ShapeInRun(r, k, id);
  }

  /** Any two followers' logs are prefixes of one another, unless exactly one of them skipped the first entry
      (and both hold something, and the first two entries differ). */
  lemma FollowersAgree(r: Run, k: nat, a: uint32, b: uint32)
    requires IsRun(r) && k < |r.states| && a in r.states[k].peers && b in r.states[k].peers
    ensures var la, lb, l := r.states[k].peers[a].node.log, r.states[k].peers[b].node.log, r.states[k].leader;
            && (BodyPrefix(la, lb) || BodyPrefix(lb, la) <==>
                  || (Skipped(r, k, a) <==> Skipped(r, k, b)) || la == [] || lb == []
                  || (|l.log| >= 2 && SameBody(l.log[0], l.log[1])))
            && (l.role == Leader && !Skipped(r, k, a) && !Skipped(r, k, b) ==> la <= lb || lb <= la)
  {
    ShapeInRun(r, k, a);
    ShapeInRun(r, k, b);
  }

  /** The leader's bookkeeping in every reachable state. It is exact for exactly the followers that lost no write;
      any other follower holds fewer entries than it acknowledged. */
  lemma ExactAccounting(r: Run, k: nat, id: uint32)
    requires IsRun(r) && k < |r.states| && id in r.states[k].leader.proxies
    ensures var s := r.states[k]; var px := s.leader.proxies[id];
            && px.next == px.matched + 1 && px.matched <= LastEntryIndex(s.leader.log)
            && id in s.peers
            && |s.peers[id].node.log| <= Held(Claimed(px.matched, s.peers[id])) <= Held(px.matched + 1)
            && (|s.peers[id].node.log| == Held(Claimed(px.matched, s.peers[id])) <==> !LostWrite(r, k, id))
            && (!Busy(s.peers[id]) ==> Claimed(px.matched, s.peers[id]) == px.matched)
  {
    RunInv(r, k);
    WholeExactly(r, k, id);
    var s := r.states[k];
    assert ProxyInv(s.leader.log, s.leader.proxies[id]);
    assert PeerInv(r.t0, s.leader, id, s.peers[id]);
  }

  /** Two guards of the step system hold in every reachable state, so they exclude no run:
      a proxy's next index never reaches zero, and the entry after the commit index exists whenever it is read. */
  lemma ReadsInRange(r: Run, k: nat)
    requires IsRun(r) && k < |r.states|
    ensures SendableProxies(r.states[k].leader)
    ensures forall id :: id in r.states[k].peers && r.states[k].peers[id].replies != [] ==>
              var m := r.states[k].peers[id].replies[0].msg;
              r.states[k].leader.term >= m.term ==> CommitReadInRange(AfterAck(r.states[k].leader, id, m))
  {
    RunInv(r, k);
    var s := r.states[k];
    forall id | id in s.leader.proxies ensures 1 <= s.leader.proxies[id].next {
      assert ProxyInv(s.leader.log, s.leader.proxies[id]);
    }
    forall id | id in s.peers && s.peers[id].replies != []
      ensures var m := s.peers[id].replies[0].msg;
          s.leader.term >= m.term ==> CommitReadInRange(AfterAck(s.leader, id, m))
    {
      ReplyLeaderInv(r.t0, s, id);
    }
  }

  // ---------------------------------------------------------------- terms

  /** Terms in every reachable state: a leader still has the term it started with, a node that lost the role
      has a higher one, nobody's persisted term exceeds its current term, and a success reply
      never carries a term above the leader's, so the term check never discards an acknowledgement. */
  lemma TermsInOrder(r: Run, k: nat)
    requires IsRun(r) && k < |r.states|
    ensures var l := r.states[k].leader;
            (l.role == Leader <==> l.term == r.t0) && l.term >= r.t0 && PersistedBelow(l)
    ensures forall id <- r.states[k].peers :: PersistedBelow(r.states[k].peers[id].node)
    ensures forall id, i :: id in r.states[k].peers && 0 <= i < |r.states[k].peers[id].replies| ==>
              var m := r.states[k].peers[id].replies[i].msg; m.success ==> m.term <= r.states[k].leader.term
  {
    RunInv(r, k);
    var s := r.states[k];
    forall id | id in s.peers
      ensures PersistedBelow(s.peers[id].node)
      ensures forall i :: 0 <= i < |s.peers[id].replies| && s.peers[id].replies[i].msg.success ==>
                s.peers[id].replies[i].msg.term <= s.leader.term
    {
      assert PeerInv(r.t0, s.leader, id, s.peers[id]);
      forall i | 0 <= i < |s.peers[id].replies| && s.peers[id].replies[i].msg.success
        ensures s.peers[id].replies[i].msg.term <= s.leader.term
      {
        assert ReplyInv(s.leader, s.peers[id].node, s.peers[id].replies[i]);
      }
    }
  }

  /** A success reply carries exactly its request's term; a refusal carries the refuser's own. */
  lemma ReplyTerm(n: Node, q: AppendQ, puts: seq<bool>)
    requires |puts| == |q.entries|
    ensures var (n', r) := HandleAppend(n, q, puts);
            && r.term == n'.term
            && (r.success ==> r.term == q.term)
            && (r.term > q.term <==> IsStale(n, q))
  {
  }
}
