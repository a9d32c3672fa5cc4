/** Runs that show where the promises about commits end. */
module Counterexamples {
  import opened Words
  import opened Messages
  import opened RaftNode
  import opened Replication
  import opened Invariant
  import opened Growth
  import opened Writes
  import opened CommitSafety
  import opened FollowerCommit
  import opened Progress
  import opened Witness
  import opened Agreement

  /** Three nodes may join; at first only node 2 does. */
  function Around(l: Node, p: Peer): System {
    System(l, map[2 := p, 3 := FRESH_PEER, 4 := FRESH_PEER])
  }

  const START := Around(LeaderWith(0, [E1], map[]), FRESH_PEER)
  const JOINED := Around(LeaderWith(0, [E1, E2], map[2 := PX2]), Peer(FRESH_NODE, [FIRST], []))

  /** The state after the first batch was answered, and after the answer arrived. */
  function Answered(log: seq<Entry>): System {
    Around(LeaderWith(0, [E1, E2], map[2 := PX2]), Peer(FRESH_NODE.(log := log), [], [ACK]))
  }

  function Committed(log: seq<Entry>): System {
    Around(LeaderWith(1, [E1, E2], map[2 := PX2_ACKED]), Peer(FRESH_NODE.(log := log), [], []))
  }

  lemma StartJoined()
    ensures Init(0, START) && Moves(START, JOIN2, JOINED)
  {
    assert START.leader.log == [CfgEntry(0, 1, 7777, [])];
    var t := Apply(START, JOIN2);
    assert t.leader.proxies == map[2 := PX2] && t.leader.log == [E1, E2];
    assert BatchFor([E1, E2], 1) == [E1, E2];
    assert BroadcastTo(t.leader, {2}) == map[2 := FIRST];
    assert t.peers[2].requests == [FIRST];
    assert t.peers == JOINED.peers;
  }

  lemma JoinedAnswered(puts: seq<bool>)
    requires |puts| == 2
    ensures var log := (if puts[0] then [E1] else []) + (if puts[1] then [E2] else []);
            Moves(JOINED, DeliverRequest(2, puts), Answered(log))
  {
    TwoEntries([], 0, [E1, E2], puts);
    var t := Answer(JOINED.peers[2], puts);
    assert t.requests == [] && t.replies == [ACK];
    var log := (if puts[0] then [E1] else []) + (if puts[1] then [E2] else []);
    assert t.node.log == log;
    assert Apply(JOINED, DeliverRequest(2, puts)).peers == Answered(log).peers;
  }

  lemma AnsweredCommitted(log: seq<Entry>)
    ensures Moves(Answered(log), DeliverReply(2), Committed(log))
  {
    var s := Answered(log);
    var l := AfterAck(s.leader, 2, ACK.msg);
    assert l.proxies == map[2 := PX2_ACKED];
    assert Holders(l.proxies, 1) == {2} && |l.proxies| == 1;
    assert Apply(s, DeliverReply(2)).leader == Committed(log).leader;
    assert [ACK][1..] == [];
    assert Apply(s, DeliverReply(2)).peers == Committed(log).peers;
  }

  function AnsweredRun(puts: seq<bool>, log: seq<Entry>): Run {
    Run(0, [START] + [JOINED] + [Answered(log)], [JOIN2] + [DeliverRequest(2, puts)])
  }

  function CommitRun(puts: seq<bool>, log: seq<Entry>): Run {
    Run(0, AnsweredRun(puts, log).states + [Committed(log)], AnsweredRun(puts, log).steps + [DeliverReply(2)])
  }

  lemma FirstAnswer(puts: seq<bool>, log: seq<Entry>)
    requires |puts| == 2 && log == (if puts[0] then [E1] else []) + (if puts[1] then [E2] else [])
    ensures IsRun(AnsweredRun(puts, log))
  {
    StartJoined();
    RunSnoc(Run(0, [START], []), JOIN2, JOINED);
    assert [] + [JOIN2] == [JOIN2];
    JoinedAnswered(puts);
    RunSnoc(Run(0, [START] + [JOINED], [JOIN2]), DeliverRequest(2, puts), Answered(log));
  }

  /** A node joins and is sent the first batch; its answer commits index 1, whatever it wrote. */
  lemma FirstCommit(puts: seq<bool>, log: seq<Entry>)
    requires |puts| == 2 && log == (if puts[0] then [E1] else []) + (if puts[1] then [E2] else [])
    ensures IsRun(CommitRun(puts, log))
  {
    FirstAnswer(puts, log);
    AnsweredCommitted(log);
    RunSnoc(AnsweredRun(puts, log), DeliverReply(2), Committed(log));
  }

  /** A follower fails to write the first entry of the first batch: it stores the second one at index 0, so its log is
      no prefix, and the leader commits index 1, which nobody but the leader stores. */
  lemma LostWriteWitness()
    ensures IsRun(CommitRun([false, true], [E2]))
    ensures var s := Committed([E2]);
            && s.leader.commit == 1 && Holders(s.leader.proxies, 1) == {2} && Keepers(s, 1) == {}
            && !BodyPrefix(s.peers[2].node.log, s.leader.log)
  {
    FirstCommit([false, true], [E2]);
    var s := Committed([E2]);
    assert s.peers[2].node.log[0].nodeId != s.leader.log[0].nodeId;
  }

  /** In no continuation of that run does node 2 ever store it. */
  lemma LostForGood(r: Run, j: nat)
    requires IsRun(r) && CommitRun([false, true], [E2]).states <= r.states &&
        CommitRun([false, true], [E2]).steps <= r.steps
    requires 3 <= j < |r.states|
    ensures 2 in r.states[j].peers && !([E1, E2] <= r.states[j].peers[2].node.log)
  {
    var w := CommitRun([false, true], [E2]);
    assert r.states[3] == w.states[3] == Committed([E2]) && r.states[1] == w.states[1] == JOINED;
    assert r.steps[1] == w.steps[1] == DeliverRequest(2, [false, true]);
    assert Lossy([false, true]) by { assert ![false, true][0]; }
    assert LosesWrite(r.states[1], r.steps[1], 2);
    LostWriteFreezes(r, 3, j, 2);
  }

  // ---------------------------------------------------------------- an entry that is never sent

  const LOST_JOIN := Handshake(JOIN2.hello, false, {2})

  /** A node joins and the leader fails to log it: the leader's one entry is never sent, and no continuation without new
      members ever completes. */
  lemma LoneEntryWitness() returns (r: Run)
    ensures IsRun(r) && NoTimeouts(r) && r.steps == [LOST_JOIN]
    ensures var l := r.states[1].leader; |l.log| == 1 && l.proxies.Keys == {2}
    ensures forall r' :: !Completes(r, r')
  {
    StartJoined();
    assert Enabled(START, LOST_JOIN);
    r := Run(0, [START] + [Apply(START, LOST_JOIN)], [] + [LOST_JOIN]);
    RunSnoc(Run(0, [START], []), LOST_JOIN, Apply(START, LOST_JOIN));
    assert r.states[1].leader.log == [E1];
    forall r' ensures !Completes(r, r') {
      if Completes(r, r') { CompletionNeeds(r, r'); }
    }
  }

  // ---------------------------------------------------------------- two joins

  const BOTH: seq<Entry> := [E1, E2]
  const E4 := CfgEntry(0, 4, 7780, [])
  const PX4 := Proxy(IsVoting, 1, 0, 7)
  const JOIN4 := Handshake(Hello(7, 4, 7780, []), true, {4})

  const JOINED_ONCE := System(
    LeaderWith(1, [E1, E2, E3], map[2 := PX2_ACKED, 3 := PX3]),
    map[2 := Peer(STORED, [], []), 3 := Peer(FRESH_NODE, [LATE], []), 4 := FRESH_PEER])
  const JOINED_TWICE := System(
    LeaderWith(1, [E1, E2, E3, E4], map[2 := PX2_ACKED, 3 := PX3, 4 := PX4]),
    map[2 := Peer(STORED, [], []), 3 := Peer(FRESH_NODE, [LATE], []), 4 := Peer(FRESH_NODE, [LATE], [])])

  /** A fresh handshake whose broadcast reaches only the joining node. */
  lemma LoneJoin(s: System, h: Hello)
    requires h.id in s.peers && IsFreshHello(s.leader, h) && h.id !in s.leader.proxies
    requires SendableProxies(s.leader) && |s.leader.log| + 1 < MAX_LOG
    ensures var l := HandshakeNode(s.leader, h, true);
            && h.id in l.proxies && l.proxies[h.id] == NEW_PROXY.(connFd := h.fd)
            && Moves(s, Handshake(h, true, {h.id}),
                     System(l, s.peers[h.id := s.peers[h.id].(requests := s.peers[h.id].requests +
                         [RequestFor(l, l.proxies[h.id])])]))
  {
    var l := HandshakeNode(s.leader, h, true);
    var q := RequestFor(l, l.proxies[h.id]);
    assert BroadcastTo(l, {h.id}) == map[h.id := q];
    assert SendAll(s.peers, map[h.id := q]) ==
           s.peers[h.id := s.peers[h.id].(requests := s.peers[h.id].requests + [q])];
  }

  lemma ThirdJoins()
    ensures Moves(Committed(BOTH), JOIN3, JOINED_ONCE)
  {
    var s := Committed(BOTH);
    LoneJoin(s, JOIN3.hello);
    var l := HandshakeNode(s.leader, JOIN3.hello, true);
    assert l.proxies == map[2 := PX2_ACKED, 3 := PX3] && l.log == [E1, E2, E3];
    assert BatchFor([E1, E2, E3], 1) == [E1, E2];
    assert RequestFor(l, PX3) == LATE;
    assert [] + [LATE] == [LATE];
    assert s.peers[3 := FRESH_PEER.(requests := [LATE])] == JOINED_ONCE.peers;
  }

  lemma FourthJoins()
    ensures Moves(JOINED_ONCE, JOIN4, JOINED_TWICE)
  {
    LoneJoin(JOINED_ONCE, JOIN4.hello);
    var l := HandshakeNode(JOINED_ONCE.leader, JOIN4.hello, true);
    assert l.proxies == map[2 := PX2_ACKED, 3 := PX3, 4 := PX4] && l.log == [E1, E2, E3, E4];
    assert BatchFor([E1, E2, E3, E4], 1) == [E1, E2];
    assert RequestFor(l, PX4) == LATE;
    assert [] + [LATE] == [LATE];
    assert JOINED_ONCE.peers[4 := FRESH_PEER.(requests := [LATE])] == JOINED_TWICE.peers;
  }

  lemma TwoJoinsQuorum()
    ensures Keepers(Committed(BOTH), 1) == {2} && Storers(JOINED_TWICE, 1) == {2}
    ensures {3, 4} <= JOINED_TWICE.leader.proxies.Keys && |{3, 4}| >= QuorumSize(|JOINED_TWICE.leader.proxies.Keys|)
    ensures !SeenByAllQuorums(JOINED_TWICE, BOTH)
  {
    assert JOINED_TWICE.leader.proxies.Keys == {2, 3, 4};
    assert !Has(JOINED_TWICE, 3, BOTH) && !Has(JOINED_TWICE, 4, BOTH);
    assert forall id <- {3, 4} :: !Has(JOINED_TWICE, id, BOTH);
  }

  lemma CompleteIsSeen(r: Run, j: nat, c: nat)
    requires IsRun(r) && j < |r.states| && Complete(r.states[j]) && 1 <= c < |r.states[j].leader.log|
    requires r.states[j].leader.proxies != map[]
    ensures SeenByAllQuorums(r.states[j], r.states[j].leader.log[..c + 1])
  {
    var s := r.states[j];
    forall id | id in s.leader.proxies ensures id in Storers(s, c) { assert Told(s, id); }
    assert Storers(s, c) == s.leader.proxies.Keys;
    SeenExactly(r, j, c);
  }

  lemma NoLossAllOk(r: Run)
    requires IsRun(r) && forall i :: 0 <= i < |r.steps| ==> !(r.steps[i].DeliverRequest? && Lossy(r.steps[i].puts))
    ensures NoLostWrites(r, |r.steps|)
  {
  }

  lemma NoLossSnoc(r: Run, step: Step, t: System)
    requires IsRun(r) && Moves(r.states[|r.steps|], step, t) && NoLostWrites(r, |r.steps|)
    requires !(step.DeliverRequest? && Lossy(step.puts))
    ensures var r' := Run(r.t0, r.states + [t], r.steps + [step]); IsRun(r') && NoLostWrites(r', |r'.steps|)
  {
    RunSnoc(r, step, t);
    var r' := Run(r.t0, r.states + [t], r.steps + [step]);
    forall id | id in r'.states[0].peers ensures !LostWrite(r', |r'.steps|, id) {
      forall i | 0 <= i < |r'.steps| ensures !LosesWrite(r'.states[i], r'.steps[i], id) {
        if i < |r.steps| { assert !LosesWrite(r.states[i], r.steps[i], id); }
      }
    }
  }

  lemma CommitRunReady()
    ensures var r := CommitRun([true, true], BOTH); IsRun(r) && NoTimeouts(r) && NoLostWrites(r, |r.steps|)
  {
    FirstCommit([true, true], BOTH);
    NoLossAllOk(CommitRun([true, true], BOTH));
  }

  lemma OneJoin() returns (r: Run)
    ensures IsRun(r) && NoTimeouts(r) && NoLostWrites(r, |r.steps|) && r.t0 == 0
    ensures |r.steps| == 4 && r.states[0] == START && r.states[3] == Committed(BOTH) && r.states[4] == JOINED_ONCE
  {
    r := CommitRun([true, true], BOTH);
    CommitRunReady();
    ThirdJoins();
    NoLossSnoc(r, JOIN3, JOINED_ONCE);
    r := Run(0, r.states + [JOINED_ONCE], r.steps + [JOIN3]);
  }

  lemma JoinersInTime()
    ensures MembersInTime(0, JOINED_ONCE) != {} && LateHaveAll(0, JOINED_ONCE)
    ensures MembersInTime(0, JOINED_TWICE) != {} && LateHaveAll(0, JOINED_TWICE)
  {
    assert 2 in MembersInTime(0, JOINED_ONCE) && 2 in MembersInTime(0, JOINED_TWICE);
  }

  lemma TwoJoins() returns (r: Run)
    ensures IsRun(r) && NoLostWrites(r, |r.steps|) && r.t0 == 0
    ensures |r.steps| == 5 && r.states[3] == Committed(BOTH) && r.states[5] == JOINED_TWICE
  {
    r := OneJoin();
    FourthJoins();
    NoLossSnoc(r, JOIN4, JOINED_TWICE);
    r := Run(0, r.states + [JOINED_TWICE], r.steps + [JOIN4]);
  }

  /** Two nodes that join after a commit form a quorum of the three, and neither stores what is committed. */
  lemma TwoJoinsWitness() returns (r: Run)
    ensures IsRun(r) && |r.steps| == 5 && r.states[3] == Committed(BOTH) && r.states[5] == JOINED_TWICE
    ensures Committed(BOTH).leader.commit == 1 && Committed(BOTH).leader.log == BOTH
    ensures Keepers(Committed(BOTH), 1) == {2} && !SeenByAllQuorums(JOINED_TWICE, BOTH)
  {
    r := TwoJoins();
    TwoJoinsQuorum();
  }

  /** A run that can be completed continues to one in which every quorum sees every entry. */
  lemma SeenOnceComplete(r: Run, c: nat) returns (r': Run)
    requires IsRun(r) && r.t0 != TWO_32 - 1 && NoLostWrites(r, |r.steps|)
    requires var s := r.states[|r.steps|];
             s.leader.role == Leader && MembersInTime(r.t0, s) != {} && 1 <= c < |s.leader.log| && LateHaveAll(r.t0, s)
    ensures Completes(r, r') && SeenByAllQuorums(r'.states[|r'.steps|], r.states[|r.steps|].leader.log[..c + 1])
  {
    r' := Converges(r);
    CompleteIsSeen(r', |r'.steps|, c);
  }

  /** The same commit is seen by all quorums again once the two have caught up, although the followers that kept it at
      the commit do not outnumber anybody: what counts is who stores it by then. */
  lemma SeenAgain() returns (r: Run)
    ensures IsRun(r) && |r.steps| >= 5 && r.states[3] == Committed(BOTH) && r.states[5] == JOINED_TWICE
    ensures r.states[|r.steps|].leader.proxies.Keys == JOINED_TWICE.leader.proxies.Keys
    ensures SeenByAllQuorums(r.states[|r.steps|], BOTH)
  {
    var r0 := TwoJoins();
    JoinersInTime();
    r := SeenOnceComplete(r0, 1);
    assert JOINED_TWICE.leader.log[..2] == BOTH;
  }

  // ---------------------------------------------------------------- a commit index past the last entry

  /** A node joins: the first batch on its way to it, from a leader that has committed index 2. */
  lemma LateRequest(t0: uint32, s: System, h: Hello, alive: set<uint32>)
    requires Inv(t0, s) && InTime(t0, s, h.id) && IsFreshHello(s.leader, h)
    requires s.leader.commit >= 2 && Enabled(s, Handshake(h, true, alive))
    ensures var p := Apply(s, Handshake(h, true, alive)).peers[h.id];
            && |p.requests| == 1 && p.node.log == [] && p.node.commit == 0 && Accepts(p.node, p.requests[0])
            && p.requests[0].prevIndex == 0 && p.requests[0].leaderCommit >= 2
            && |p.requests[0].entries| == 2 && (forall e <- p.requests[0].entries :: IsCfg(e))
  {
    var l, l' := s.leader, HandshakeNode(s.leader, h, true);
    JoinLeaderInv(t0, l, h, true);
    assert PeerInv(t0, l, h.id, s.peers[h.id]);
    var q := RequestFor(l', l'.proxies[h.id]);
    assert Apply(s, Handshake(h, true, alive)).peers[h.id].requests == [q];
    assert q.entries == [l'.log[0], l'.log[1]];
    assert OwnEntry(t0, l'.log[0]) && OwnEntry(t0, l'.log[1]);
  }

  /** Every node in time that joins after the leader has committed index 2, whatever other connections are open, accepts
      its first batch and then has commit index 2 with two entries stored, so its commit index names no entry: no
      timeout and no failed write is needed. */
  lemma LateJoin(t0: uint32, s: System, h: Hello, alive: set<uint32>) returns (s1: System, s2: System)
    requires Inv(t0, s) && InTime(t0, s, h.id) && IsFreshHello(s.leader, h)
    requires s.leader.commit >= 2 && Enabled(s, Handshake(h, true, alive))
    ensures Moves(s, Handshake(h, true, alive), s1) && Moves(s1, Deliver(s1, h.id), s2)
    ensures h.id in s2.peers && |s2.peers[h.id].node.log| == 2 && s2.peers[h.id].node.commit == 2
  {
    LateRequest(t0, s, h, alive);
    s1 := Apply(s, Handshake(h, true, alive));
    var p := s1.peers[h.id];
    AppendAllOk([], TermAfter(p.node, p.requests[0]).term, p.requests[0].entries);
    s2 := Apply(s1, Deliver(s1, h.id));
    assert s2.peers[h.id] == AnswerFirst(p);
  }

  lemma QuietSnoc(r: Run, step: Step, t: System) returns (r': Run)
    requires IsRun(r) && NoTimeouts(r) && Moves(r.states[|r.steps|], step, t) && !step.Timeout?
    ensures IsRun(r') && NoTimeouts(r') && r'.t0 == r.t0 && r.states <= r'.states && r'.states[|r'.steps|] == t
  {
    RunSnoc(r, step, t);
    r' := Run(r.t0, r.states + [t], r.steps + [step]);
  }

  /** Every run without timeouts whose leader has committed index 2 continues like that when a node joins. */
  lemma LateJoinRun(r: Run, h: Hello, alive: set<uint32>) returns (r': Run)
    requires IsRun(r) && NoTimeouts(r) && Enabled(r.states[|r.steps|], Handshake(h, true, alive))
    requires IsFreshHello(r.states[|r.steps|].leader, h) && r.states[|r.steps|].leader.commit >= 2
    ensures IsRun(r') && NoTimeouts(r') && r'.t0 == r.t0 && r.states <= r'.states && h.id in r'.states[|r'.steps|].peers
    ensures var n := r'.states[|r'.steps|].peers[h.id].node; n.commit == 2 && |n.log| == 2
  {
    RunInv(r, |r.steps|);
    QuietRun(r, |r.steps|);
    var s1, s2 := LateJoin(r.t0, r.states[|r.steps|], h, alive);
    var r1 := QuietSnoc(r, Handshake(h, true, alive), s1);
    r' := QuietSnoc(r1, Deliver(s1, h.id), s2);
  }

  lemma TwoCommitted() returns (r: Run)
    ensures IsRun(r) && NoTimeouts(r) && r.t0 == 0 && 4 in r.states[|r.steps|].peers
    ensures var l := r.states[|r.steps|].leader; l.commit == 2 && |l.log| == 3 && 4 !in l.proxies
  {
    var r0 := OneJoin();
    JoinersInTime();
    r := Converges(r0);
    assert r.states[0] == START;
    SameNodes(r, |r.steps|);
  }

  /** There is a run without timeouts at whose end a follower has commit index 2 and two entries. */
  lemma PastLastEntryWitness() returns (r: Run)
    ensures IsRun(r) && NoTimeouts(r) && r.t0 == 0 && 4 in r.states[|r.steps|].peers
    ensures var n := r.states[|r.steps|].peers[4].node;
        n.commit == 2 && |n.log| == 2 && n.commit > LastEntryIndex(n.log)
  {
    var r1 := TwoCommitted();
    QuietRun(r1, |r1.steps|);
    ReadsInRange(r1, |r1.steps|);
    r := LateJoinRun(r1, JOIN4.hello, {4});
  }
}
