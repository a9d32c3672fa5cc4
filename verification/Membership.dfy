/** Membership: how the leader's log and its proxy map record the nodes that joined. */
module Membership {
  import opened Words
  import opened Messages
  import opened RaftNode
  import opened Replication
  import opened Invariant

  ghost predicate IsJoin(s: System, step: Step) {
    step.Handshake? && IsFreshHello(s.leader, step.hello)
  }

  ghost predicate IsLostJoin(s: System, step: Step) {
    IsJoin(s, step) && !step.putOk
  }

  /** How many of the first `k` steps were joins whose write to the entries database failed. */
  ghost function LostJoins(r: Run, k: nat): nat
    requires IsRun(r) && k < |r.states|
  {
    if k == 0 then 0
    else LostJoins(r, k - 1) + if IsLostJoin(r.states[k - 1], r.steps[k - 1]) then 1 else 0
  }

  /** An entry records a join made in one of the first `k` steps. */
  ghost predicate RecordsJoin(r: Run, k: nat, e: Entry)
    requires IsRun(r) && k < |r.states|
  {
    exists i :: 0 <= i < k && IsJoin(r.states[i], r.steps[i]) &&
                var h := r.steps[i].hello; e == CfgEntry(r.t0, h.id, h.port, h.host)
  }

  /** From position `base` on the log holds pairwise distinct proxied ids. */
  ghost predicate LogsJoins(base: nat, l: Node) {
    && base <= |l.log|
    && (forall i :: base <= i < |l.log| ==> l.log[i].nodeId in l.proxies)
    && forall i, j :: base <= i < j < |l.log| ==> l.log[i].nodeId != l.log[j].nodeId
  }

  ghost predicate LogsEveryProxy(base: nat, l: Node) {
    forall id <- l.proxies :: exists i :: base <= i < |l.log| && l.log[i].nodeId == id
  }

  /** A step that is not a join leaves the leader's log and the set of proxies alone. */
  lemma OtherStep(t0: uint32, s: System, step: Step)
    requires Inv(t0, s) && Enabled(s, step) && !IsJoin(s, step)
    ensures Apply(s, step).leader.log == s.leader.log
    ensures Apply(s, step).leader.proxies.Keys == s.leader.proxies.Keys
  {
    if step.DeliverReply? { ReplyLeaderInv(t0, s, step.id); }
  }

  lemma JoinStep(t0: uint32, s: System, step: Step)
    requires Inv(t0, s) && Enabled(s, step) && IsJoin(s, step)
    ensures var h, l' := step.hello, Apply(s, step).leader;
            && h.id !in s.leader.proxies && l'.proxies.Keys == s.leader.proxies.Keys + {h.id}
            && l'.log == s.leader.log + if step.putOk then [CfgEntry(t0, h.id, h.port, h.host)] else []
  {
    JoinLeaderInv(t0, s.leader, step.hello, step.putOk);
  }

  lemma LoggedJoin(base: nat, l: Node, l': Node, e: Entry)
    requires LogsJoins(base, l) && e.nodeId !in l.proxies
    requires l'.log == l.log + [e] && l'.proxies.Keys == l.proxies.Keys + {e.nodeId}
    ensures LogsJoins(base, l') && (LogsEveryProxy(base, l) ==> LogsEveryProxy(base, l'))
  {
    assert l'.log[|l.log|] == e;
    forall id | id in l.proxies && LogsEveryProxy(base, l)
      ensures exists i :: base <= i < |l'.log| && l'.log[i].nodeId == id
    {
      var i :| base <= i < |l.log| && l.log[i].nodeId == id;
      assert l'.log[i].nodeId == id;
    }
  }

  lemma JoinsStep(base: nat, t0: uint32, s: System, step: Step)
    requires Inv(t0, s) && Enabled(s, step) && LogsJoins(base, s.leader)
    ensures LogsJoins(base, Apply(s, step).leader)
    ensures LogsEveryProxy(base, s.leader) && !IsLostJoin(s, step) ==> LogsEveryProxy(base, Apply(s, step).leader)
  {
    if !IsJoin(s, step) {
      OtherStep(t0, s, step);
    } else {
      JoinStep(t0, s, step);
      var h := step.hello;
      if step.putOk { LoggedJoin(base, s.leader, Apply(s, step).leader, CfgEntry(t0, h.id, h.port, h.host)); }
    }
  }

  /** Conservation: log entries plus lost joins equals initial entries plus proxies. Every id logged after the
      initial entries is logged once and is a proxy; every proxy is logged when no join was lost. */
  lemma {:induction false} MembershipConserved(r: Run, k: nat)
    requires IsRun(r) && k < |r.states|
    ensures var l0, l := r.states[0].leader, r.states[k].leader;
            && |l.log| + LostJoins(r, k) == |l0.log| + |l.proxies.Keys|
            && LogsJoins(|l0.log|, l)
            && (LostJoins(r, k) == 0 ==> LogsEveryProxy(|l0.log|, l))
  {
    if k > 0 {
      MembershipConserved(r, k - 1);
      RunInv(r, k - 1);
      var s, step := r.states[k - 1], r.steps[k - 1];
      JoinsStep(|r.states[0].leader.log|, r.t0, s, step);
      if IsJoin(s, step) { JoinStep(r.t0, s, step); } else { OtherStep(r.t0, s, step); }
    }
  }

  /** Every entry after the initial ones carries the id, port and host of some join, and the leader's starting term. */
  lemma {:induction false} EntriesRecordJoins(r: Run, k: nat, i: nat)
    requires IsRun(r) && k < |r.states| && |r.states[0].leader.log| <= i < |r.states[k].leader.log|
    ensures RecordsJoin(r, k, r.states[k].leader.log[i])
  {
    if k > 0 {
      RunInv(r, k - 1);
      var s, step := r.states[k - 1], r.steps[k - 1];
      if IsJoin(s, step) { JoinStep(r.t0, s, step); } else { OtherStep(r.t0, s, step); }
      if i < |s.leader.log| { EntriesRecordJoins(r, k - 1, i); }
    }
  }

  /** With a logged leader and no lost join: log length is proxies plus one, and the proxies are exactly the ids
      logged after index 0, each once. */
  lemma MembershipExact(r: Run, k: nat)
    requires IsRun(r) && k < |r.states| && |r.states[0].leader.log| == 1
    ensures LostJoins(r, k) == 0 <==> |r.states[k].leader.log| == |r.states[k].leader.proxies.Keys| + 1
    ensures LostJoins(r, k) == 0 ==>
              r.states[k].leader.proxies.Keys ==
                  set i | 1 <= i < |r.states[k].leader.log| :: r.states[k].leader.log[i].nodeId
  {
    MembershipConserved(r, k);
  }
}
