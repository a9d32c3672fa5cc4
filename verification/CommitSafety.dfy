/** What a commit index promises, over every run. */
module CommitSafety {
  import opened Words
  import opened Messages
  import opened RaftNode
  import opened Replication
  import opened Invariant
  import opened Growth
  import opened Writes

  // ---------------------------------------------------------------- quorums

  lemma SubsetCard<T>(a: set<T>, b: set<T>)
    requires a <= b
    ensures |a| <= |b|
  {
    assert b == a + (b - a);
  }

  /** Two quorums overlap, over one member set or over two that differ by one added member. */
  lemma QuorumsOverlap(members: set<uint32>, members': set<uint32>, a: set<uint32>, b: set<uint32>)
    requires members <= members' && |members'| <= |members| + 1
    requires a <= members && |a| >= QuorumSize(|members|)
    requires b <= members' && |b| >= QuorumSize(|members'|)
    ensures a * b != {}
  {
    SubsetCard(a + b, members');
    assert |a + b| == |a| + |b| - |a * b|;
  }

  ghost predicate AllQuorumsMeet(members: set<uint32>, keepers: set<uint32>) {
    forall q :: q <= members && |q| >= QuorumSize(|members|) ==> q * keepers != {}
  }

  /** Every quorum meets a set of members if and only if that set is too large to be avoided. */
  lemma QuorumsMeetExactly(members: set<uint32>, keepers: set<uint32>)
    requires keepers <= members
    ensures AllQuorumsMeet(members, keepers) <==> |keepers| + QuorumSize(|members|) > |members|
  {
    if |keepers| + QuorumSize(|members|) > |members| {
      forall q | q <= members && |q| >= QuorumSize(|members|) ensures q * keepers != {} {
        SubsetCard(q + keepers, members);
        assert |q + keepers| == |q| + |keepers| - |q * keepers|;
      }
    } else {
      var q := members - keepers;
      assert |q| == |members| - |keepers| && q * keepers == {};
    }
  }

  /** How many joins a smallest quorum survives: one, or two when the number of members was even. */
  lemma JoinsTolerated(members: set<uint32>, members': set<uint32>, quorum: set<uint32>)
    requires quorum <= members <= members' && |quorum| == QuorumSize(|members|)
    ensures AllQuorumsMeet(members', quorum) <==>
              |members'| <= |members| + 1 || (|members'| == |members| + 2 && |members| % 2 == 0)
  {
    SubsetCard(members, members');
    QuorumsMeetExactly(members', quorum);
  }

  /** A quorum of the proxied followers together with the leader is a strict majority of the whole cluster. */
  lemma QuorumWithLeaderIsMajority(members: set<uint32>, quorum: set<uint32>, leader: uint32)
    requires leader !in members && quorum <= members && |quorum| >= QuorumSize(|members|)
    ensures 2 * |quorum + {leader}| > |members + {leader}|
  {
    assert |quorum + {leader}| == |quorum| + 1 && |members + {leader}| == |members| + 1;
  }

  // ---------------------------------------------------------------- durable commit

  /** The commit index moves by one, under the current-term guard only while the leader leads, and only to an index
      that a quorum is known to hold. */
  lemma ChangeCommitMeaning(t0: uint32, l: Node)
    requires LeaderInv(t0, l) && CommitReadInRange(l) && ChangeCommit(l).commit != l.commit
    ensures l.role == Leader && ChangeCommit(l) == l.(commit := l.commit + 1)
    ensures |Holders(l.proxies, l.commit + 1)| >= QuorumSize(|l.proxies|)
  {
    assert OwnEntry(t0, l.log[l.commit + 1]);
  }

  lemma OnlyRepliesCommit(s: System, step: Step)
    requires Enabled(s, step) && !step.DeliverReply?
    ensures Apply(s, step).leader.commit == s.leader.commit
  {
  }

  lemma HandleReplyCommits(t0: uint32, l: Node, id: uint32, r: AppendR)
    requires l.term >= r.term ==> LeaderInv(t0, AfterAck(l, id, r)) && CommitReadInRange(AfterAck(l, id, r))
    requires HandleReply(l, id, r).commit != l.commit
    ensures var l' := HandleReply(l, id, r);
            && l.role == Leader && l'.role == Leader && l'.commit == l.commit + 1
            && |Holders(l'.proxies, l'.commit)| >= QuorumSize(|l'.proxies|)
  {
    ChangeCommitMeaning(t0, AfterAck(l, id, r));
  }

  lemma ReplyCommits(t0: uint32, s: System, id: uint32)
    requires Inv(t0, s) && Enabled(s, DeliverReply(id))
    requires Apply(s, DeliverReply(id)).leader.commit != s.leader.commit
    ensures var l' := Apply(s, DeliverReply(id)).leader;
            && s.leader.role == Leader && l'.role == Leader && l'.commit == s.leader.commit + 1
            && |Holders(l'.proxies, l'.commit)| >= QuorumSize(|l'.proxies|)
  {
    ReplyLeaderInv(t0, s, id);
    HandleReplyCommits(t0, s.leader, id, s.peers[id].replies[0].msg);
  }

  /** Only a reply moves the leader's commit index. */
  lemma CommitStep(t0: uint32, s: System, step: Step)
    requires Inv(t0, s) && Enabled(s, step)
    requires Apply(s, step).leader.commit != s.leader.commit
    ensures step.DeliverReply?
    ensures var l' := Apply(s, step).leader;
            && s.leader.role == Leader && l'.role == Leader && l'.commit == s.leader.commit + 1
            && |Holders(l'.proxies, l'.commit)| >= QuorumSize(|l'.proxies|)
  {
    if step.DeliverReply? { ReplyCommits(t0, s, step.id); } else { OnlyRepliesCommit(s, step); }
  }

  /** A follower counted for index `i` stores the leader's log up to `i`, terms included, exactly when its log is long
      enough, which it is when it holds what it acknowledged. */
  lemma HolderStores(t0: uint32, s: System, i: nat, id: uint32)
    requires Inv(t0, s) && s.leader.role == Leader && 1 <= i && id in Holders(s.leader.proxies, i)
    ensures id in s.peers && i < |s.leader.log|
    ensures s.leader.log[..i + 1] <= s.peers[id].node.log <==> id in Keepers(s, i)
    ensures Whole(s, id) ==> id in Keepers(s, i)
  {
    assert ProxyInv(s.leader.log, s.leader.proxies[id]);
    assert PeerInv(t0, s.leader, id, s.peers[id]);
  }

  /** The followers counted for index `i` that hold it. */
  ghost function Keepers(s: System, i: nat): set<uint32> {
    set id | id in Holders(s.leader.proxies, i) && id in s.peers && |s.peers[id].node.log| > i
  }

  lemma CommitInRun(r: Run, k: nat)
    requires IsRun(r) && k < |r.steps| && r.states[k + 1].leader.commit != r.states[k].leader.commit
    ensures var l := r.states[k + 1].leader;
            && l.role == Leader && l.commit == r.states[k].leader.commit + 1 && l.commit < |l.log|
            && |Holders(l.proxies, l.commit)| >= QuorumSize(|l.proxies|)
  {
    RunInv(r, k);
    RunInv(r, k + 1);
    CommitStep(r.t0, r.states[k], r.steps[k]);
  }

  /** Among the first `k` steps, the follower lost a write of a batch that ends at or before index `c`. */
  ghost predicate LostUpTo(r: Run, k: nat, id: uint32, c: nat)
    requires IsRun(r) && k < |r.states|
  {
    exists i :: 0 <= i < k && LosesWrite(r.states[i], r.steps[i], id) && r.states[i].peers[id].requests[0].prevIndex < c
  }

  /** What a lost write leaves: nothing of the batch after index `prevIndex`, or one entry of a first batch. */
  lemma LengthAfterLoss(t0: uint32, s: System, step: Step, id: uint32)
    requires Inv(t0, s) && Enabled(s, step) && LosesWrite(s, step, id)
    ensures var prev, log' := s.peers[id].requests[0].prevIndex, Apply(s, step).peers[id].node.log;
            if prev == 0 then |log'| <= 1 else |log'| == prev + 1
  {
    var l, p := s.leader, s.peers[id];
    assert PeerInv(t0, l, id, p);
    var m := l.proxies[id].matched;
    assert RequestInv(t0, l, m, p.requests[0]);
    if !Accounted(m, p) { ShortRefuses(t0, l, m, p); }
    LossyBatch(t0, l, m, p, step.puts);
  }

  /** The log keeps that length. */
  lemma LengthLaterOn(r: Run, i: nat, k: nat, id: uint32)
    requires IsRun(r) && i < k < |r.states| && LosesWrite(r.states[i], r.steps[i], id)
    ensures id in r.states[k].peers
    ensures var prev, log := r.states[i].peers[id].requests[0].prevIndex, r.states[k].peers[id].node.log;
            if prev == 0 then |log| <= 1 else |log| == prev + 1
  {
    RunInv(r, i);
    LengthAfterLoss(r.t0, r.states[i], r.steps[i], id);
    SameNodes(r, i);
    SameNodes(r, i + 1);
    LostWriteFreezes(r, i + 1, k, id);
  }

  /** A follower counted for `c` while the leader leads keeps it if and only if it lost no write of an index up to
      `c`. */
  lemma KeeperExactly(r: Run, k: nat, c: nat, id: uint32)
    requires IsRun(r) && k < |r.states| && r.states[k].leader.role == Leader && 1 <= c
    requires id in Holders(r.states[k].leader.proxies, c)
    ensures id in Keepers(r.states[k], c) <==> !LostUpTo(r, k, id, c)
  {
    RunInv(r, k);
    HolderStores(r.t0, r.states[k], c, id);
    WholeExactly(r, k, id);
    if LostWrite(r, k, id) {
      var i :| 0 <= i < k && LosesWrite(r.states[i], r.steps[i], id);
      LengthLaterOn(r, i, k, id);
      forall j | 0 <= j < k && LosesWrite(r.states[j], r.steps[j], id) &&
          r.states[j].peers[id].requests[0].prevIndex < c
        ensures id !in Keepers(r.states[k], c)
      {
        LengthLaterOn(r, j, k, id);
      }
    }
  }

  /** A follower counted for `i` in a state where the leader leads stores the leader's entries up to `i` in a later
      state if and only if it stored them already, that is, if it lost no write of an index up to `i`. */
  lemma HolderKeeps(r: Run, k: nat, j: nat, i: nat, id: uint32)
    requires IsRun(r) && k <= j < |r.states| && r.states[k].leader.role == Leader && 1 <= i
    requires id in Holders(r.states[k].leader.proxies, i)
    ensures id in r.states[j].peers && i < |r.states[k].leader.log|
    ensures r.states[k].leader.log[..i + 1] <= r.states[j].peers[id].node.log <==> id in Keepers(r.states[k], i)
    ensures id in Keepers(r.states[k], i) <==> !LostUpTo(r, k, id, i)
  {
    RunInv(r, k);
    HolderStores(r.t0, r.states[k], i, id);
    WholeExactly(r, k, id);
    KeeperExactly(r, k, i, id);
    if id in Keepers(r.states[k], i) {
      RunGrows(r, k, j);
      assert NodeGrows(r.states[k].peers[id].node, r.states[j].peers[id].node);
    } else {
      LostWriteFreezes(r, k, j, id);
    }
  }

  /** Durable commit: when the commit index advances to `c`, a quorum of the proxied followers has acknowledged `c`. In
      every later state, one of them stores the leader's entries up to `c`, terms included, if and only if it lost no
      write of an index up to `c` before the commit; the leader still has them too. */
  lemma DurableCommit(r: Run, k: nat, j: nat, id: uint32)
    requires IsRun(r) && k < |r.steps| && k < j < |r.states|
    requires r.states[k + 1].leader.commit != r.states[k].leader.commit
    ensures var l := r.states[k + 1].leader;
            && l.commit == r.states[k].leader.commit + 1 && l.commit < |l.log|
            && |Holders(l.proxies, l.commit)| >= QuorumSize(|l.proxies|)
            && l.log[..l.commit + 1] <= r.states[j].leader.log
            && (id in Holders(l.proxies, l.commit) ==>
                  && id in r.states[j].peers
                  && (l.log[..l.commit + 1] <= r.states[j].peers[id].node.log <==> !LostUpTo(r, k + 1, id, l.commit))
                  && (id in Keepers(r.states[k + 1], l.commit) <==> !LostUpTo(r, k + 1, id, l.commit)))
  {
    CommitInRun(r, k);
    RunGrows(r, k + 1, j);
    var l := r.states[k + 1].leader;
    if id in Holders(l.proxies, l.commit) { HolderKeeps(r, k + 1, j, l.commit, id); }
  }

  /** The whole quorum stores the committed entries for ever, if and only if none of the followers counted lost a write
      of an index up to the committed one. */
  lemma DurableQuorum(r: Run, k: nat, j: nat)
    requires IsRun(r) && k < |r.steps| && k < j < |r.states|
    requires r.states[k + 1].leader.commit != r.states[k].leader.commit
    ensures var l := r.states[k + 1].leader;
            && |Holders(l.proxies, l.commit)| >= QuorumSize(|l.proxies|) && l.commit < |l.log|
            && ((forall id <- Holders(l.proxies, l.commit) ::
                   id in r.states[j].peers && l.log[..l.commit + 1] <= r.states[j].peers[id].node.log) <==>
                forall id <- Holders(l.proxies, l.commit) :: !LostUpTo(r, k + 1, id, l.commit))
  {
    CommitInRun(r, k);
    var l := r.states[k + 1].leader;
    forall id | id in Holders(l.proxies, l.commit)
      ensures id in r.states[j].peers
      ensures l.log[..l.commit + 1] <= r.states[j].peers[id].node.log <==> !LostUpTo(r, k + 1, id, l.commit)
    {
      DurableCommit(r, k, j, id);
    }
  }

  // ---------------------------------------------------------------- what later quorums see

  /** The members whose log reaches index `c`. */
  ghost function Storers(s: System, c: nat): set<uint32> {
    set id | id in s.leader.proxies && id in s.peers && |s.peers[id].node.log| > c
  }

  /** The member stores the given entries at the front of its log, terms aside. */
  ghost predicate Has(s: System, id: uint32, entries: seq<Entry>) {
    id in s.peers && BodyPrefix(entries, s.peers[id].node.log)
  }

  /** Every quorum of the members of a state has a member that stores the given entries. */
  ghost predicate SeenByAllQuorums(s: System, entries: seq<Entry>) {
    forall q :: q <= s.leader.proxies.Keys && |q| >= QuorumSize(|s.leader.proxies.Keys|) ==>
        exists id <- q :: Has(s, id, entries)
  }

  /** A log that reaches index `c` holds the leader's entries up to it; while the leader leads, with their terms. */
  lemma StorerHas(r: Run, j: nat, c: nat, id: uint32)
    requires IsRun(r) && j < |r.states| && 1 <= c < |r.states[j].leader.log| && id in r.states[j].leader.proxies
    ensures id in Storers(r.states[j], c) <==> Has(r.states[j], id, r.states[j].leader.log[..c + 1])
    ensures id in Storers(r.states[j], c) && r.states[j].leader.role == Leader ==>
              r.states[j].leader.log[..c + 1] <= r.states[j].peers[id].node.log
  {
    RunInv(r, j);
    ShapeInRun(r, j, id);
  }

  /** An entry is seen by every quorum if and only if the members that store it and a quorum outnumber the members. */
  lemma SeenExactly(r: Run, j: nat, c: nat)
    requires IsRun(r) && j < |r.states| && 1 <= c < |r.states[j].leader.log|
    ensures var s := r.states[j]; var members := s.leader.proxies.Keys;
            SeenByAllQuorums(s, s.leader.log[..c + 1]) <==> |Storers(s, c)| + QuorumSize(|members|) > |members|
  {
    var s := r.states[j];
    var members, entries, storers := s.leader.proxies.Keys, s.leader.log[..c + 1], Storers(s, c);
    QuorumsMeetExactly(members, storers);
    forall q | q <= members && |q| >= QuorumSize(|members|)
      ensures q * storers != {} <==> exists id <- q :: Has(s, id, entries)
    {
      forall id | id in q ensures id in storers <==> Has(s, id, entries) { StorerHas(r, j, c, id); }
      if q * storers != {} { var id :| id in q * storers; }
      if id :| id in q && Has(s, id, entries) { assert id in q * storers; }
    }
  }

  /** A committed entry is seen by every quorum of a later state if and only if the members that store it by then and a
      quorum outnumber the members. The followers that kept it at the commit are among them. */
  lemma CommittedSeenByQuorum(r: Run, k: nat, j: nat)
    requires IsRun(r) && k < |r.steps| && k < j < |r.states|
    requires r.states[k + 1].leader.commit != r.states[k].leader.commit
    ensures var c, s := r.states[k + 1].leader.commit, r.states[j]; var members := s.leader.proxies.Keys;
            && c < |r.states[k + 1].leader.log|
            && (SeenByAllQuorums(s, r.states[k + 1].leader.log[..c + 1]) <==>
                  |Storers(s, c)| + QuorumSize(|members|) > |members|)
            && Keepers(r.states[k + 1], c) <= Storers(s, c)
  {
    CommitInRun(r, k);
    RunGrows(r, k + 1, j);
    var c := r.states[k + 1].leader.commit;
    assert r.states[k + 1].leader.log[..c + 1] == r.states[j].leader.log[..c + 1];
    SeenExactly(r, j, c);
    forall id | id in Keepers(r.states[k + 1], c) ensures id in Storers(r.states[j], c) {
      assert NodeGrows(r.states[k + 1].peers[id].node, r.states[j].peers[id].node);
    }
  }

  /** One join after the commit never hurts, if none of the followers counted lost a write of an index up to it. */
  lemma OneJoinTolerated(r: Run, k: nat, j: nat)
    requires IsRun(r) && k < |r.steps| && k < j < |r.states|
    requires r.states[k + 1].leader.commit != r.states[k].leader.commit
    requires var l := r.states[k + 1].leader;
        forall id <- Holders(l.proxies, l.commit) :: !LostUpTo(r, k + 1, id, l.commit)
    requires |r.states[j].leader.proxies.Keys| <= |r.states[k + 1].leader.proxies.Keys| + 1
    ensures var l := r.states[k + 1].leader;
            l.commit < |l.log| && SeenByAllQuorums(r.states[j], l.log[..l.commit + 1])
  {
    var l := r.states[k + 1].leader;
    CommitInRun(r, k);
    forall id | id in Holders(l.proxies, l.commit) ensures id in Keepers(r.states[k + 1], l.commit) {
      DurableCommit(r, k, j, id);
    }
    CommittedSeenByQuorum(r, k, j);
    SubsetCard(Holders(l.proxies, l.commit), Storers(r.states[j], l.commit));
    assert |l.proxies| == |l.proxies.Keys|;
  }

  lemma SteppedDownStep(t0: uint32, s: System, step: Step)
    requires Inv(t0, s) && Enabled(s, step) && s.leader.role != Leader
    ensures Apply(s, step).leader.role != Leader && Apply(s, step).leader.commit == s.leader.commit
  {
    StepGrows(t0, s, step);
    if Apply(s, step).leader.commit != s.leader.commit { CommitStep(t0, s, step); }
  }

  /** A leader that has stepped down never advances its commit index again, although it keeps broadcasting
      and processing replies. */
  lemma {:induction false} SteppedDownNeverCommits(r: Run, i: nat, j: nat)
    requires IsRun(r) && i <= j < |r.states| && r.states[i].leader.role != Leader
    ensures r.states[j].leader.role != Leader && r.states[j].leader.commit == r.states[i].leader.commit
    decreases j - i
  {
    if i < j {
      SteppedDownNeverCommits(r, i, j - 1);
      RunInv(r, j - 1);
      SteppedDownStep(r.t0, r.states[j - 1], r.steps[j - 1]);
    }
  }
}
