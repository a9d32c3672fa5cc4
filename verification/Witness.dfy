/** One concrete run with an election timeout: it commits an entry, then a follower that stores nothing is told
    a commit index, and its refusal ends the leader's role for good. */
module Witness {
  import opened Words
  import opened Messages
  import opened RaftNode
  import opened Replication
  import opened Invariant
  import opened Growth
  import opened CommitSafety

  const E1 := CfgEntry(0, 1, 7777, [])
  const E2 := CfgEntry(0, 2, 7778, [])
  const E3 := CfgEntry(0, 3, 7779, [])
  const FIRST := AppendQ(0, 0, 0, 0, [E1, E2])
  const LATE := AppendQ(0, 0, 0, 1, [E1, E2])
  const ACK := Reply(AppendR(0, true, false), true)
  const REFUSAL := Reply(AppendR(1, false, false), true)
  const PX2 := Proxy(IsVoting, 1, 0, 5)
  const PX2_ACKED := Proxy(IsVoting, 2, 1, 5)
  const PX3 := Proxy(IsVoting, 1, 0, 6)

  function LeaderWith(commit: uint32, log: seq<Entry>, proxies: map<uint32, Proxy>): Node {
    Node(0, None, commit, Leader, log, proxies)
  }

  const STORED := FRESH_NODE.(log := [E1, E2])
  const ELECTING := FRESH_NODE.(term := 1)
  const MISLED := ELECTING.(commit := 1)

  const S0 := System(LeaderWith(0, [E1], map[]), map[2 := FRESH_PEER, 3 := FRESH_PEER])
  const S1 := System(LeaderWith(0, [E1, E2], map[2 := PX2]), map[2 := Peer(FRESH_NODE, [FIRST], []), 3 := FRESH_PEER])
  const S2 := System(LeaderWith(0, [E1, E2], map[2 := PX2]), map[2 := Peer(STORED, [], [ACK]), 3 := FRESH_PEER])
  const S3 := System(LeaderWith(1, [E1, E2], map[2 := PX2_ACKED]), map[2 := Peer(STORED, [], []), 3 := FRESH_PEER])
  const S4 := System(LeaderWith(1, [E1, E2], map[2 := PX2_ACKED]),
      map[2 := Peer(STORED, [], []), 3 := Peer(ELECTING, [], [])])
  const S5 := System(LeaderWith(1, [E1, E2, E3], map[2 := PX2_ACKED, 3 := PX3]),
                     map[2 := Peer(STORED, [], []), 3 := Peer(ELECTING, [LATE], [])])
  const S6 := System(LeaderWith(1, [E1, E2, E3], map[2 := PX2_ACKED, 3 := PX3]),
                     map[2 := Peer(STORED, [], []), 3 := Peer(MISLED, [], [REFUSAL])])
  const S7 := System(StepDown(S6.leader, 1), map[2 := Peer(STORED, [], []), 3 := Peer(MISLED, [], [])])

  const JOIN2 := Handshake(Hello(5, 2, 7778, []), true, {2})
  const JOIN3 := Handshake(Hello(6, 3, 7779, []), true, {3})

  lemma Step1()
    ensures Moves(S0, JOIN2, S1)
  {
    var t := Apply(S0, JOIN2);
    assert t.leader.proxies == map[2 := PX2] && t.leader.log == [E1, E2];
    assert BatchFor([E1, E2], 1) == [E1, E2];
    assert BroadcastTo(t.leader, {2}) == map[2 := FIRST];
    assert t.peers[2].requests == [FIRST];
    assert t.peers == S1.peers;
  }

  lemma Step2()
    ensures Moves(S1, DeliverRequest(2, [true, true]), S2)
  {
    TwoEntries([], 0, [E1, E2], [true, true]);
    var t := Answer(S1.peers[2], [true, true]);
    assert t.node.log == [E1, E2] && t.requests == [] && t.replies == [ACK];
    assert Apply(S1, DeliverRequest(2, [true, true])).peers == S2.peers;
  }

  lemma Step3()
    ensures Moves(S2, DeliverReply(2), S3)
  {
    var l := AfterAck(S2.leader, 2, ACK.msg);
    assert l.proxies == map[2 := PX2_ACKED];
    assert Holders(l.proxies, 1) == {2} && |l.proxies| == 1;
    assert Apply(S2, DeliverReply(2)).leader == S3.leader;
    assert [ACK][1..] == [];
    assert Apply(S2, DeliverReply(2)).peers == S3.peers;
  }

  lemma Step4()
    ensures Moves(S3, Timeout(3), S4)
  {
    assert Apply(S3, Timeout(3)).peers == S4.peers;
  }

  lemma Step5()
    ensures Moves(S4, JOIN3, S5)
  {
    var t := Apply(S4, JOIN3);
    assert t.leader.proxies == S5.leader.proxies && t.leader.log == [E1, E2, E3];
    assert BatchFor([E1, E2, E3], 1) == [E1, E2];
    assert BroadcastTo(t.leader, {3}) == map[3 := LATE];
    assert t.peers[3].requests == [LATE];
    assert t.peers == S5.peers;
  }

  lemma Step6()
    ensures Moves(S5, DeliverRequest(3, [true, true]), S6)
  {
    var t := Answer(S5.peers[3], [true, true]);
    assert t.node == MISLED && t.requests == [] && t.replies == [REFUSAL];
    assert Apply(S5, DeliverRequest(3, [true, true])).peers == S6.peers;
  }

  lemma Step7()
    ensures Moves(S6, DeliverReply(3), S7)
  {
    assert [REFUSAL][1..] == [];
    assert Apply(S6, DeliverReply(3)).peers == S7.peers;
  }

  const STATES := [S0, S1, S2, S3, S4, S5, S6, S7]
  const STEPS := [JOIN2, DeliverRequest(2, [true, true]), DeliverReply(2), Timeout(3), JOIN3,
      DeliverRequest(3, [true, true]), DeliverReply(3)]

  lemma WitnessInit()
    ensures Init(0, S0)
  {
    assert S0.leader.log == [CfgEntry(0, 1, 7777, [])];
  }

  lemma WitnessStep(i: nat)
    requires i < |STEPS|
    ensures Enabled(STATES[i], STEPS[i]) && STATES[i + 1] == Apply(STATES[i], STEPS[i])
  {
    if i == 0 { Step1(); }
    else if i == 1 { Step2(); }
    else if i == 2 { Step3(); }
    else if i == 3 { Step4(); }
    else if i == 4 { Step5(); }
    else if i == 5 { Step6(); }
    else { Step7(); }
  }

  /** A run with a timeout in which a follower's commit index exceeds the number of entries it stores. */
  lemma TimeoutWitness()
    ensures IsRun(Run(0, STATES, STEPS))
    ensures S3.leader.commit == 1 && S6.peers[3].node.commit > |S6.peers[3].node.log|
  {
    WitnessInit();
    forall i | 0 <= i < |STEPS| ensures Enabled(STATES[i], STEPS[i]) && STATES[i + 1] == Apply(STATES[i], STEPS[i]) {
      WitnessStep(i);
    }
  }

  /** That run ends in a state from which no continuation commits again, although an entry is uncommitted. */
  lemma NothingCommitsAfterwards(r: Run, j: nat)
    requires IsRun(r) && STATES <= r.states && |STATES| - 1 <= j < |r.states|
    ensures r.states[j].leader.commit == 1 < LastEntryIndex(r.states[j].leader.log)
  {
    assert r.states[7] == STATES[7] == S7;
    SteppedDownNeverCommits(r, 7, j);
    RunGrows(r, 7, j);
  }
}
