/** Progress: what a run can still be extended to, and exactly when every follower can still be brought up to date. */
module Progress {
  import opened Words
  import opened Messages
  import opened RaftNode
  import opened Replication
  import opened Invariant
  import opened Growth
  import opened Writes
  import opened CommitSafety
  import opened FollowerCommit

  // ---------------------------------------------------------------- one follower in time

  /** No reply in flight is a refusal. */
  ghost predicate SmoothPeer(p: Peer) {
    forall i :: 0 <= i < |p.replies| ==> p.replies[i].msg.success
  }

  /** A follower that has not timed out and lost no write; others may have. */
  ghost predicate CalmPeer(t0: uint32, s: System, id: uint32) {
    InTime(t0, s, id) && SmoothPeer(s.peers[id]) && Whole(s, id)
  }

  ghost predicate GoodFor(t0: uint32, s: System, id: uint32) {
    t0 != TWO_32 - 1 && Inv(t0, s) && CalmPeer(t0, s, id)
  }

  lemma SmoothAnswer(t0: uint32, s: System, id: uint32, puts: seq<bool>)
    requires GoodFor(t0, s, id) && Enabled(s, DeliverRequest(id, puts))
    ensures SmoothPeer(Answer(s.peers[id], puts))
  {
    AcceptedExactly(t0, s, id);
  }

  lemma SmoothStep(t0: uint32, s: System, step: Step, id: uint32)
    requires GoodFor(t0, s, id) && Enabled(s, step)
    ensures id in Apply(s, step).peers && SmoothPeer(Apply(s, step).peers[id])
  {
    if step.DeliverRequest? && step.id == id { SmoothAnswer(t0, s, id, step.puts); }
  }

  lemma GoodForStep(t0: uint32, s: System, step: Step, id: uint32)
    requires GoodFor(t0, s, id) && Enabled(s, step) && InTime(t0, Apply(s, step), id) && !LosesWrite(s, step, id)
    ensures GoodFor(t0, Apply(s, step), id)
  {
    StepInv(t0, s, step);
    SmoothStep(t0, s, step, id);
    WholeStep(t0, s, step, id);
  }

  lemma {:induction false} GoodForRun(r: Run, k: nat, id: uint32)
    requires IsRun(r) && r.t0 != TWO_32 - 1 && k < |r.states| && InTime(r.t0, r.states[k], id) && !LostWrite(r, k, id)
    ensures GoodFor(r.t0, r.states[k], id)
  {
    if k > 0 {
      InTimeBefore(r, k - 1, k, id);
      GoodForRun(r, k - 1, id);
      GoodForStep(r.t0, r.states[k - 1], r.steps[k - 1], id);
    } else {
      RunInv(r, 0);
    }
  }

  // ---------------------------------------------------------------- all followers

  /** The follower has acknowledged the last entry. */
  ghost predicate Settled(s: System, id: uint32) {
    id in s.leader.proxies && s.leader.proxies[id].matched == LastEntryIndex(s.leader.log)
  }

  /** The members in `calm` are in time and lost no write; the others may be silent. */
  ghost predicate Good(t0: uint32, s: System, calm: set<uint32>) {
    && t0 != TWO_32 - 1 && Inv(t0, s) && s.leader.role == Leader && calm <= s.leader.proxies.Keys
    && forall id <- calm :: CalmPeer(t0, s, id)
  }

  ghost function SettledIds(l: Node): set<uint32> {
    set id | id in l.proxies && l.proxies[id].matched == LastEntryIndex(l.log)
  }

  /** The calm members and those that have acknowledged the last entry are more than half of all members. */
  ghost predicate Backed(l: Node, calm: set<uint32>) {
    2 * |calm + SettledIds(l)| > |l.proxies.Keys|
  }

  ghost predicate OthersSettled(s: System, calm: set<uint32>) {
    forall id <- s.leader.proxies :: id in calm || Settled(s, id)
  }

  ghost predicate KeepsWrites(s: System, step: Step) {
    forall id <- s.peers :: !LosesWrite(s, step, id)
  }

  /** A step without a new member, a timeout or a lost write, after which the leader still leads. */
  ghost predicate Plain(s: System, step: Step) {
    && Enabled(s, step) && !step.Handshake? && !step.Timeout? && KeepsWrites(s, step)
    && Apply(s, step).leader.role == Leader
  }

  lemma SameProxies(t0: uint32, s: System, step: Step)
    requires Inv(t0, s) && Plain(s, step)
    ensures var l' := Apply(s, step).leader; l'.log == s.leader.log && l'.proxies.Keys == s.leader.proxies.Keys
  {
    if step.DeliverReply? { ReplyLeaderInv(t0, s, step.id); }
  }

  lemma SettledStep(t0: uint32, s: System, step: Step, id: uint32)
    requires Inv(t0, s) && Plain(s, step) && Settled(s, id)
    ensures Settled(Apply(s, step), id)
  {
    SameProxies(t0, s, step);
    StepInv(t0, s, step);
    StepGrows(t0, s, step);
    assert ProxyInv(Apply(s, step).leader.log, Apply(s, step).leader.proxies[id]);
  }

  lemma GoodStep(t0: uint32, s: System, calm: set<uint32>, step: Step)
    requires Good(t0, s, calm) && Plain(s, step)
    ensures Good(t0, Apply(s, step), calm)
  {
    StepInv(t0, s, step);
    SameProxies(t0, s, step);
    forall id | id in calm ensures CalmPeer(t0, Apply(s, step), id) {
      assert CalmPeer(t0, s, id);
      InTimeStep(t0, s, step, id);
      GoodForStep(t0, s, step, id);
    }
  }

  lemma DeliverPlain(s: System, id: uint32)
    requires s.leader.role == Leader && id in s.peers && s.peers[id].requests != []
    ensures Plain(s, Deliver(s, id))
  {
    LossyOrAllOk(Deliver(s, id).puts);
  }

  lemma ReplyPlain(t0: uint32, s: System, id: uint32)
    requires Inv(t0, s) && s.leader.role == Leader && id in s.peers && s.peers[id].replies != []
    requires s.peers[id].replies[0].msg.term <= s.leader.term
    ensures Plain(s, DeliverReply(id))
  {
    ReplyEnabled(t0, s, id);
    ReplyRole(s.leader, id, s.peers[id].replies[0].msg);
  }

  lemma ReplyEnabled(t0: uint32, s: System, id: uint32)
    requires Inv(t0, s) && id in s.peers && s.peers[id].replies != []
    ensures Enabled(s, DeliverReply(id))
  {
    ReplyLeaderInv(t0, s, id);
  }

  lemma ReplyRole(l: Node, id: uint32, r: AppendR)
    requires r.term <= l.term && CommitReadInRange(AfterAck(l, id, r))
    ensures HandleReply(l, id, r).role == l.role
  {
  }

  lemma CalmReplyPlain(t0: uint32, s: System, id: uint32)
    requires GoodFor(t0, s, id) && s.peers[id].replies != []
    ensures Plain(s, DeliverReply(id))
  {
    assert PeerInv(t0, s.leader, id, s.peers[id]);
    assert ReplyInv(s.leader, s.peers[id].node, s.peers[id].replies[0]);
    ReplyPlain(t0, s, id);
  }

  // ---------------------------------------------------------------- paths

  /** `steps` lead from `s` to `t`, without a timeout, a new member or a lost write, and the leader leads throughout. */
  ghost predicate Leads(s: System, steps: seq<Step>, t: System)
    decreases |steps|
  {
    if steps == [] then s == t else Plain(s, steps[0]) && Leads(Apply(s, steps[0]), steps[1..], t)
  }

  lemma LeadsOne(s: System, step: Step)
    requires Plain(s, step)
    ensures Leads(s, [step], Apply(s, step))
  {
    assert [step][1..] == [];
  }

  lemma {:induction false} LeadsThrough(a: System, x: seq<Step>, b: System, y: seq<Step>, c: System)
    requires Leads(a, x, b) && Leads(b, y, c)
    ensures Leads(a, x + y, c)
    decreases |x|
  {
    if x == [] {
      assert x + y == y;
    } else {
      assert (x + y)[1..] == x[1..] + y;
      LeadsThrough(Apply(a, x[0]), x[1..], b, y, c);
    }
  }

  lemma {:induction false} NoTimeoutOnPath(s: System, steps: seq<Step>, t: System)
    requires Leads(s, steps, t)
    ensures forall i :: 0 <= i < |steps| ==> !steps[i].Timeout?
    decreases |steps|
  {
    if steps != [] {
      NoTimeoutOnPath(Apply(s, steps[0]), steps[1..], t);
      assert forall i :: 1 <= i < |steps| ==> steps[i] == steps[1..][i - 1];
    }
  }

  /** A run extended by a path. */
  lemma {:induction false} ExtendRun(r: Run, steps: seq<Step>, t: System) returns (r': Run)
    requires IsRun(r) && Leads(r.states[|r.steps|], steps, t)
    ensures IsRun(r') && r'.t0 == r.t0 && r.states <= r'.states && r'.steps == r.steps + steps
    ensures r'.states[|r'.steps|] == t
    decreases |steps|
  {
    if steps == [] {
      r' := r;
    } else {
      var s, step := r.states[|r.steps|], steps[0];
      var s1 := Apply(s, step);
      RunSnoc(r, step, s1);
      var r1 := Run(r.t0, r.states + [s1], r.steps + [step]);
      assert r1.states[|r1.steps|] == s1;
      r' := ExtendRun(r1, steps[1..], t);
      assert steps == [step] + steps[1..];
      Associate(r.steps, [step], steps[1..]);
    }
  }

  // ---------------------------------------------------------------- delivering what is in flight

  ghost predicate IsIdle(p: Peer) {
    p.requests == [] && p.replies == []
  }

  function Backlog(p: Peer): nat {
    2 * |p.requests| + |p.replies|
  }

  /** The acknowledged index once everything in flight is delivered. */
  ghost function Goal(s: System, id: uint32): nat
    requires id in s.leader.proxies && id in s.peers
  {
    s.leader.proxies[id].matched + if Busy(s.peers[id]) then 1 else 0
  }

  /** Nothing changed at the peers except at `id`. */
  ghost predicate OnlyPeer(id: uint32, s: System, t: System) {
    t.peers.Keys == s.peers.Keys && id in s.peers && forall i <- s.peers :: i != id ==> t.peers[i] == s.peers[i]
  }

  ghost predicate KeepsGoals(calm: set<uint32>, s: System, t: System)
    requires calm <= s.leader.proxies.Keys <= s.peers.Keys && calm <= t.leader.proxies.Keys <= t.peers.Keys
  {
    forall id <- calm :: Goal(t, id) == Goal(s, id)
  }

  /** The nodes outside `calm`, and everything in flight to and from them, are as they were. */
  ghost predicate KeepsOutside(calm: set<uint32>, s: System, t: System) {
    t.peers.Keys == s.peers.Keys && forall id <- s.peers :: id !in calm ==> t.peers[id] == s.peers[id]
  }

  /** The leader's log and members are the same, and its commit index is no lower. */
  ghost predicate SameMembers(s: System, t: System) {
    && t.leader.log == s.leader.log && t.leader.proxies.Keys == s.leader.proxies.Keys
    && s.leader.commit <= t.leader.commit
  }

  /** What delivering messages keeps. */
  ghost predicate Delivers(t0: uint32, calm: set<uint32>, s: System, t: System)
    requires Good(t0, s, calm)
  {
    Good(t0, t, calm) && SameMembers(s, t) && KeepsOutside(calm, s, t) && KeepsGoals(calm, s, t)
  }

  lemma BusyMeans(t0: uint32, l: Node, m: nat, p: Peer)
    requires ChannelInv(t0, l, m, p)
    ensures Busy(p) <==> (p.requests != [] && p.requests[|p.requests| - 1].entries != []) || AckPending(p)
    ensures Busy(p) ==> m + 1 <= LastEntryIndex(l.log)
  {
    if AckPending(p) { assert p.replies[|p.replies| - 1].carried; }
    if p.requests != [] && p.requests[|p.requests| - 1].entries != [] { assert Busy(p); }
  }

  lemma RequestKeepsGoal(t0: uint32, s: System, id: uint32)
    requires GoodFor(t0, s, id) && s.peers[id].requests != []
    ensures Enabled(s, Deliver(s, id))
    ensures var t := Apply(s, Deliver(s, id));
            && id in s.leader.proxies && id in t.leader.proxies && Goal(t, id) == Goal(s, id)
            && t.leader == s.leader && Backlog(t.peers[id]) < Backlog(s.peers[id])
  {
    var l, p := s.leader, s.peers[id];
    assert PeerInv(t0, l, id, p);
    var m := l.proxies[id].matched;
    AnswerLinked(t0, l, m, p, AllOk(|p.requests[0].entries|));
    BusyMeans(t0, l, m, p);
    BusyMeans(t0, l, m, AnswerFirst(p));
  }

  lemma OneGoalKept(calm: set<uint32>, s: System, t: System, id: uint32)
    requires s.leader.proxies.Keys == t.leader.proxies.Keys <= s.peers.Keys && OnlyPeer(id, s, t)
    requires calm <= s.leader.proxies.Keys && id in calm && Goal(t, id) == Goal(s, id)
    requires forall i <- s.leader.proxies :: i != id ==> t.leader.proxies[i] == s.leader.proxies[i]
    ensures KeepsGoals(calm, s, t) && KeepsOutside(calm, s, t)
  {
    forall i | i in calm ensures Goal(t, i) == Goal(s, i) {
      if i != id { assert t.peers[i] == s.peers[i]; }
    }
  }

  lemma DeliverRequestDelivers(t0: uint32, calm: set<uint32>, s: System, id: uint32)
    requires Good(t0, s, calm) && id in calm && s.peers[id].requests != []
    ensures Plain(s, Deliver(s, id))
    ensures var t := Apply(s, Deliver(s, id));
            Delivers(t0, calm, s, t) && OnlyPeer(id, s, t) && Backlog(t.peers[id]) < Backlog(s.peers[id])
  {
    assert CalmPeer(t0, s, id);
    DeliverPlain(s, id);
    GoodStep(t0, s, calm, Deliver(s, id));
    RequestKeepsGoal(t0, s, id);
    OneGoalKept(calm, s, Apply(s, Deliver(s, id)), id);
  }

  lemma PopKeepsGoal(t0: uint32, l: Node, m: nat, p: Peer)
    requires ChannelInv(t0, l, m, p) && p.replies != []
    ensures var p' := p.(replies := p.replies[1..]);
            (if p.replies[0].carried then 1 else 0) + (if Busy(p') then 1 else 0) == if Busy(p) then 1 else 0
  {
    var p' := p.(replies := p.replies[1..]);
    assert forall i :: 0 <= i < |p'.replies| ==> p'.replies[i] == p.replies[i + 1];
    assert p.replies[0].carried ==> Busy(p) && |p.replies| == 1;
    BusyMeans(t0, l, m, p);
  }

  lemma ReplyProxies(n: Node, id: uint32, r: AppendR)
    requires n.term >= r.term && CommitReadInRange(AfterAck(n, id, r))
    ensures HandleReply(n, id, r).proxies == AfterAck(n, id, r).proxies
  {
  }

  lemma ReplyKeepsGoal(t0: uint32, s: System, id: uint32)
    requires GoodFor(t0, s, id) && Enabled(s, DeliverReply(id))
    ensures var t := Apply(s, DeliverReply(id));
            && id in s.leader.proxies && id in t.leader.proxies && id in t.peers && Goal(t, id) == Goal(s, id)
            && (forall i <- s.leader.proxies :: i != id ==>
                i in t.leader.proxies &&
                t.leader.proxies[i] == s.leader.proxies[i])
  {
    var l, p := s.leader, s.peers[id];
    assert PeerInv(t0, l, id, p);
    assert ReplyInv(l, p.node, p.replies[0]);
    ReplyProxies(l, id, p.replies[0].msg);
    PopKeepsGoal(t0, l, l.proxies[id].matched, p);
  }

  lemma ReplyShape(t0: uint32, s: System, id: uint32)
    requires Inv(t0, s) && Enabled(s, DeliverReply(id))
    ensures var t := Apply(s, DeliverReply(id));
            OnlyPeer(id, s, t) && Backlog(t.peers[id]) < Backlog(s.peers[id]) && SameMembers(s, t)
  {
    ReplyLeaderInv(t0, s, id);
  }

  lemma DeliverReplyDelivers(t0: uint32, calm: set<uint32>, s: System, id: uint32)
    requires Good(t0, s, calm) && id in calm && s.peers[id].replies != []
    ensures Plain(s, DeliverReply(id))
    ensures var t := Apply(s, DeliverReply(id));
            Delivers(t0, calm, s, t) && OnlyPeer(id, s, t) && Backlog(t.peers[id]) < Backlog(s.peers[id])
  {
    assert CalmPeer(t0, s, id);
    CalmReplyPlain(t0, s, id);
    GoodStep(t0, s, calm, DeliverReply(id));
    ReplyShape(t0, s, id);
    ReplyKeepsGoal(t0, s, id);
    OneGoalKept(calm, s, Apply(s, DeliverReply(id)), id);
  }

  lemma DeliversThrough(t0: uint32, calm: set<uint32>, a: System, b: System, d: System)
    requires Good(t0, a, calm) && Delivers(t0, calm, a, b) && Delivers(t0, calm, b, d)
    ensures Delivers(t0, calm, a, d)
  {
    forall id | id in calm ensures Goal(d, id) == Goal(a, id) {
      assert Goal(b, id) == Goal(a, id);
    }
  }

  /** One delivery on a peer's channels. */
  lemma DeliverOne(t0: uint32, calm: set<uint32>, s: System, id: uint32) returns (step: Step, t: System)
    requires Good(t0, s, calm) && id in calm && !IsIdle(s.peers[id])
    ensures Leads(s, [step], t) && Delivers(t0, calm, s, t)
    ensures OnlyPeer(id, s, t) && Backlog(t.peers[id]) < Backlog(s.peers[id])
  {
    if s.peers[id].requests != [] {
      step := Deliver(s, id);
      DeliverRequestDelivers(t0, calm, s, id);
    } else {
      step := DeliverReply(id);
      DeliverReplyDelivers(t0, calm, s, id);
    }
    t := Apply(s, step);
    LeadsOne(s, step);
  }

  /** Delivers everything in flight between the leader and one peer; the other peers are not touched. */
  lemma {:induction false} Drain(t0: uint32, calm: set<uint32>, s: System, id: uint32)
      returns (steps: seq<Step>, t: System)
    requires Good(t0, s, calm) && id in calm
    ensures Leads(s, steps, t) && Delivers(t0, calm, s, t)
    ensures OnlyPeer(id, s, t) && IsIdle(t.peers[id])
    decreases Backlog(s.peers[id])
  {
    if IsIdle(s.peers[id]) {
      steps, t := [], s;
    } else {
      var step, s1 := DeliverOne(t0, calm, s, id);
      steps, t := Drain(t0, calm, s1, id);
      LeadsThrough(s, [step], s1, steps, t);
      steps := [step] + steps;
      DeliversThrough(t0, calm, s, s1, t);
    }
  }

  /** Of the peers in `calm`, only those in `todo` have messages in flight. */
  ghost predicate IdleBut(todo: set<uint32>, calm: set<uint32>, s: System) {
    todo <= calm <= s.peers.Keys && forall id <- calm :: id !in todo ==> IsIdle(s.peers[id])
  }

  lemma DrainedOne(todo: set<uint32>, calm: set<uint32>, id: uint32, s: System, t: System)
    requires IdleBut(todo, calm, s) && OnlyPeer(id, s, t) && IsIdle(t.peers[id])
    ensures IdleBut(todo - {id}, calm, t)
  {
  }

  lemma {:induction false} DrainAll(t0: uint32, calm: set<uint32>, s: System, todo: set<uint32>)
      returns (steps: seq<Step>, t: System)
    requires Good(t0, s, calm) && IdleBut(todo, calm, s)
    ensures Leads(s, steps, t) && Delivers(t0, calm, s, t) && IdleBut({}, calm, t)
    decreases todo
  {
    if todo == {} {
      steps, t := [], s;
    } else {
      var id :| id in todo;
      var s1, rest;
      steps, s1 := Drain(t0, calm, s, id);
      DrainedOne(todo, calm, id, s, s1);
      rest, t := DrainAll(t0, calm, s1, todo - {id});
      LeadsThrough(s, steps, s1, rest, t);
      steps := steps + rest;
      DeliversThrough(t0, calm, s, s1, t);
    }
  }

  // ---------------------------------------------------------------- rounds

  lemma MayBroadcast(t0: uint32, calm: set<uint32>, s: System)
    requires Good(t0, s, calm) && IdleBut({}, calm, s)
    ensures Plain(s, Broadcast(calm))
  {
    forall i | i in s.leader.proxies ensures 1 <= s.leader.proxies[i].next {
      assert ProxyInv(s.leader.log, s.leader.proxies[i]);
    }
    forall i | i in calm ensures i in s.peers && !Busy(s.peers[i]) {
      assert IsIdle(s.peers[i]);
    }
  }

  lemma LoneRequest(l: Node, px: Proxy, p: Peer)
    requires ProxyInv(l.log, px) && IsIdle(p)
    ensures p.(requests := p.requests + [RequestFor(l, px)]) == p.(requests := [RequestFor(l, px)])
    ensures Busy(p.(requests := [RequestFor(l, px)])) <==> px.matched < LastEntryIndex(l.log)
  {
    var p', q := p.(requests := [RequestFor(l, px)]), RequestFor(l, px);
    assert p'.requests[0] == q && forall i :: 0 <= i < |p'.requests| ==> p'.requests[i] == q;
  }

  /** The leader's timer fires while nothing is in flight to the live connections. */
  lemma BroadcastRound(t0: uint32, calm: set<uint32>, s: System, id: uint32)
    requires Good(t0, s, calm) && IdleBut({}, calm, s) && id in calm
    ensures Plain(s, Broadcast(calm))
    ensures var t := Apply(s, Broadcast(calm));
            && t.leader == s.leader && id in t.peers && id in s.peers
            && t.peers[id] == s.peers[id].(requests := [RequestFor(s.leader, s.leader.proxies[id])])
            && Goal(t, id) == Min(s.leader.proxies[id].matched + 1, LastEntryIndex(s.leader.log))
  {
    MayBroadcast(t0, calm, s);
    var px, p := s.leader.proxies[id], s.peers[id];
    assert ProxyInv(s.leader.log, px) && IsIdle(p);
    LoneRequest(s.leader, px, p);
  }

  /** The members in `calm` have acknowledged index `k`. */
  ghost predicate Level(k: nat, calm: set<uint32>, s: System)
    requires calm <= s.leader.proxies.Keys
  {
    forall id <- calm :: s.leader.proxies[id].matched >= k
  }

  ghost predicate GoalLevel(k: nat, calm: set<uint32>, s: System)
    requires calm <= s.leader.proxies.Keys <= s.peers.Keys
  {
    forall id <- calm :: Goal(s, id) >= k
  }

  lemma BroadcastGoals(t0: uint32, calm: set<uint32>, s: System, k: nat)
    requires Good(t0, s, calm) && IdleBut({}, calm, s) && Level(k, calm, s)
    ensures Plain(s, Broadcast(calm))
    ensures var t := Apply(s, Broadcast(calm));
            && Good(t0, t, calm) && t.leader == s.leader && KeepsOutside(calm, s, t)
            && GoalLevel(Min(k + 1, LastEntryIndex(s.leader.log)), calm, t)
  {
    MayBroadcast(t0, calm, s);
    GoodStep(t0, s, calm, Broadcast(calm));
    forall id | id in calm
      ensures Goal(Apply(s, Broadcast(calm)), id) >= Min(k + 1, LastEntryIndex(s.leader.log))
    {
      BroadcastRound(t0, calm, s, id);
    }
  }

  lemma IdleLevel(t0: uint32, calm: set<uint32>, k: nat, s: System)
    requires Good(t0, s, calm) && IdleBut({}, calm, s) && GoalLevel(k, calm, s)
    ensures Level(k, calm, s)
  {
    forall id | id in calm ensures s.leader.proxies[id].matched >= k {
      assert Goal(s, id) >= k && IsIdle(s.peers[id]);
    }
  }

  lemma KeepsGoalLevel(t0: uint32, calm: set<uint32>, k: nat, s: System, t: System)
    requires Good(t0, s, calm) && GoalLevel(k, calm, s) && Delivers(t0, calm, s, t)
    ensures GoalLevel(k, calm, t)
  {
    forall id | id in calm ensures Goal(t, id) >= k {
      assert Goal(t, id) == Goal(s, id);
    }
  }

  /** One broadcast, everything delivered: whoever lags is one index further. */
  lemma Round(t0: uint32, calm: set<uint32>, s: System, k: nat) returns (steps: seq<Step>, t: System)
    requires Good(t0, s, calm) && IdleBut({}, calm, s) && Level(k, calm, s)
    ensures Leads(s, steps, t) && Good(t0, t, calm) && IdleBut({}, calm, t) && SameMembers(s, t)
    ensures KeepsOutside(calm, s, t)
    ensures Level(Min(k + 1, LastEntryIndex(s.leader.log)), calm, t)
  {
    var step := Broadcast(calm);
    BroadcastGoals(t0, calm, s, k);
    LeadsOne(s, step);
    var s1 := Apply(s, step);
    steps, t := DrainAll(t0, calm, s1, calm);
    LeadsThrough(s, [step], s1, steps, t);
    steps := [step] + steps;
    KeepsGoalLevel(t0, calm, Min(k + 1, LastEntryIndex(s.leader.log)), s1, t);
    IdleLevel(t0, calm, Min(k + 1, LastEntryIndex(s.leader.log)), t);
  }

  lemma {:induction false} CatchUp(t0: uint32, calm: set<uint32>, s: System, k: nat)
      returns (steps: seq<Step>, t: System)
    requires Good(t0, s, calm) && IdleBut({}, calm, s) && Level(k, calm, s) && k <= LastEntryIndex(s.leader.log)
    ensures Leads(s, steps, t) && Good(t0, t, calm) && IdleBut({}, calm, t) && SameMembers(s, t)
    ensures KeepsOutside(calm, s, t)
    ensures Level(LastEntryIndex(s.leader.log), calm, t)
    decreases LastEntryIndex(s.leader.log) - k
  {
    if k == LastEntryIndex(s.leader.log) {
      steps, t := [], s;
    } else {
      var s1, rest;
      steps, s1 := Round(t0, calm, s, k);
      rest, t := CatchUp(t0, calm, s1, k + 1);
      LeadsThrough(s, steps, s1, rest, t);
      steps := steps + rest;
    }
  }

  lemma MajorityCommits(t0: uint32, l: Node, holders: set<uint32>)
    requires LeaderInv(t0, l) && l.role == Leader && l.commit < LastEntryIndex(l.log)
    requires holders <= l.proxies.Keys && 2 * |holders| > |l.proxies.Keys|
    requires forall i <- holders :: l.proxies[i].matched >= LastEntryIndex(l.log)
    ensures CommitReadInRange(l) && ChangeCommit(l) == l.(commit := l.commit + 1)
  {
    SubsetCard(holders, Holders(l.proxies, l.commit + 1));
    assert |l.proxies.Keys| == |l.proxies|;
    assert OwnEntry(t0, l.log[l.commit + 1]);
  }

  lemma HeartbeatChanges(l: Node, id: uint32, r: AppendR)
    requires r.isHeartbeat && r.term <= l.term && CommitReadInRange(l)
    ensures AfterAck(l, id, r) == l && HandleReply(l, id, r) == ChangeCommit(l)
  {
  }

  /** With the last index acknowledged by more than half of the members, a heartbeat's reply commits the next entry. */
  lemma HeartbeatCommits(t0: uint32, calm: set<uint32>, s: System, id: uint32)
    requires GoodFor(t0, s, id) && id in calm && calm <= s.leader.proxies.Keys && Backed(s.leader, calm)
    requires Level(LastEntryIndex(s.leader.log), calm, s) && s.leader.commit < LastEntryIndex(s.leader.log)
    requires s.peers[id].replies != [] && s.peers[id].replies[0].msg.isHeartbeat
    requires Plain(s, DeliverReply(id))
    ensures Apply(s, DeliverReply(id)).leader == s.leader.(commit := s.leader.commit + 1)
  {
    InTimeReply(t0, s, id);
    MajorityCommits(t0, s.leader, calm + SettledIds(s.leader));
    HeartbeatChanges(s.leader, id, s.peers[id].replies[0].msg);
  }

  lemma {:induction false} SettledPath(t0: uint32, s: System, steps: seq<Step>, t: System, id: uint32)
    requires Inv(t0, s) && Leads(s, steps, t) && Settled(s, id)
    ensures Settled(t, id)
    decreases |steps|
  {
    if steps != [] {
      SettledStep(t0, s, steps[0], id);
      StepInv(t0, s, steps[0]);
      SettledPath(t0, Apply(s, steps[0]), steps[1..], t, id);
    }
  }

  lemma BackedPath(t0: uint32, calm: set<uint32>, s: System, steps: seq<Step>, t: System)
    requires Inv(t0, s) && Leads(s, steps, t) && SameMembers(s, t) && Backed(s.leader, calm)
    ensures Backed(t.leader, calm)
  {
    forall id | id in SettledIds(s.leader) ensures id in SettledIds(t.leader) { SettledPath(t0, s, steps, t, id); }
    SubsetCard(calm + SettledIds(s.leader), calm + SettledIds(t.leader));
  }

  lemma HeartbeatReply(p: Peer)
    requires p.requests != [] && p.requests[0].entries == [] && p.replies == [] && Accepts(p.node, p.requests[0])
    ensures var p' := AnswerFirst(p); p'.replies != [] && p'.replies[0].msg.isHeartbeat
  {
  }

  lemma HeartbeatAnswered(t0: uint32, calm: set<uint32>, s: System, id: uint32)
    requires Good(t0, s, calm) && IdleBut({}, calm, s) && id in calm && Level(LastEntryIndex(s.leader.log), calm, s)
    ensures Plain(s, Broadcast(calm))
    ensures var s1 := Apply(s, Broadcast(calm));
            && id in s1.peers && s1.peers[id].requests != []
            && var p := AnswerFirst(s1.peers[id]); p.replies != [] && p.replies[0].msg.isHeartbeat
  {
    BroadcastRound(t0, calm, s, id);
    GoodStep(t0, s, calm, Broadcast(calm));
    var s1 := Apply(s, Broadcast(calm));
    assert CalmPeer(t0, s1, id);
    assert ProxyInv(s.leader.log, s.leader.proxies[id]) && IsIdle(s.peers[id]);
    AcceptedExactly(t0, s1, id);
    HeartbeatReply(s1.peers[id]);
  }

  /** A heartbeat's reply, delivered, commits the next entry. */
  lemma CommitOnReply(t0: uint32, calm: set<uint32>, s: System, id: uint32)
    requires Good(t0, s, calm) && id in calm && Backed(s.leader, calm)
    requires s.peers[id].replies != [] && s.peers[id].replies[0].msg.isHeartbeat
    requires Level(LastEntryIndex(s.leader.log), calm, s) && s.leader.commit < LastEntryIndex(s.leader.log)
    ensures Plain(s, DeliverReply(id))
    ensures var t := Apply(s, DeliverReply(id)); Delivers(t0, calm, s, t) && t.leader.commit > s.leader.commit
  {
    assert CalmPeer(t0, s, id);
    DeliverReplyDelivers(t0, calm, s, id);
    HeartbeatCommits(t0, calm, s, id);
  }

  lemma AnswerWaits(t0: uint32, calm: set<uint32>, s: System, id: uint32)
    requires Good(t0, s, calm) && id in calm && s.peers[id].requests != []
    ensures Plain(s, Deliver(s, id))
    ensures var t := Apply(s, Deliver(s, id));
            Delivers(t0, calm, s, t) && t.leader == s.leader && id in t.peers && t.peers[id] == AnswerFirst(s.peers[id])
  {
    DeliverRequestDelivers(t0, calm, s, id);
  }

  lemma CommitOnAnswer(t0: uint32, calm: set<uint32>, s: System, id: uint32) returns (steps: seq<Step>, t: System)
    requires Good(t0, s, calm) && id in calm && Backed(s.leader, calm) && s.peers[id].requests != []
    requires var p := AnswerFirst(s.peers[id]); p.replies != [] && p.replies[0].msg.isHeartbeat
    requires Level(LastEntryIndex(s.leader.log), calm, s) && s.leader.commit < LastEntryIndex(s.leader.log)
    ensures Leads(s, steps, t) && Delivers(t0, calm, s, t) && t.leader.commit > s.leader.commit
  {
    AnswerWaits(t0, calm, s, id);
    var s1 := Apply(s, Deliver(s, id));
    CommitOnReply(t0, calm, s1, id);
    t := Apply(s1, DeliverReply(id));
    LeadsOne(s, Deliver(s, id));
    LeadsOne(s1, DeliverReply(id));
    LeadsThrough(s, [Deliver(s, id)], s1, [DeliverReply(id)], t);
    DeliversThrough(t0, calm, s, s1, t);
    steps := [Deliver(s, id)] + [DeliverReply(id)];
  }

  /** One broadcast whose first answer commits the next entry. */
  lemma CommitNext(t0: uint32, calm: set<uint32>, s: System, id: uint32) returns (steps: seq<Step>, t: System)
    requires Good(t0, s, calm) && IdleBut({}, calm, s) && id in calm && Backed(s.leader, calm)
    requires Level(LastEntryIndex(s.leader.log), calm, s) && s.leader.commit < LastEntryIndex(s.leader.log)
    ensures Leads(s, steps, t) && Good(t0, t, calm) && SameMembers(s, t) && KeepsOutside(calm, s, t)
    ensures GoalLevel(LastEntryIndex(s.leader.log), calm, t) && t.leader.commit > s.leader.commit
  {
    var last := LastEntryIndex(s.leader.log);
    BroadcastGoals(t0, calm, s, last);
    HeartbeatAnswered(t0, calm, s, id);
    LeadsOne(s, Broadcast(calm));
    var s1 := Apply(s, Broadcast(calm));
    steps, t := CommitOnAnswer(t0, calm, s1, id);
    KeepsGoalLevel(t0, calm, last, s1, t);
    LeadsThrough(s, [Broadcast(calm)], s1, steps, t);
    steps := [Broadcast(calm)] + steps;
  }

  /** Then everything is delivered. */
  lemma CommitRound(t0: uint32, calm: set<uint32>, s: System, id: uint32) returns (steps: seq<Step>, t: System)
    requires Good(t0, s, calm) && IdleBut({}, calm, s) && id in calm
    requires Level(LastEntryIndex(s.leader.log), calm, s) && s.leader.commit < LastEntryIndex(s.leader.log)
    requires Backed(s.leader, calm)
    ensures Leads(s, steps, t) && Good(t0, t, calm) && IdleBut({}, calm, t) && SameMembers(s, t)
    ensures KeepsOutside(calm, s, t)
    ensures Level(LastEntryIndex(s.leader.log), calm, t) && t.leader.commit > s.leader.commit
  {
    var s1, rest;
    steps, s1 := CommitNext(t0, calm, s, id);
    rest, t := DrainAll(t0, calm, s1, calm);
    KeepsGoalLevel(t0, calm, LastEntryIndex(s.leader.log), s1, t);
    IdleLevel(t0, calm, LastEntryIndex(s.leader.log), t);
    LeadsThrough(s, steps, s1, rest, t);
    steps := steps + rest;
  }

  lemma {:induction false} CommitAll(t0: uint32, calm: set<uint32>, s: System, id: uint32)
      returns (steps: seq<Step>, t: System)
    requires Good(t0, s, calm) && IdleBut({}, calm, s) && id in calm && Level(LastEntryIndex(s.leader.log), calm, s)
    requires Backed(s.leader, calm)
    ensures Leads(s, steps, t) && Good(t0, t, calm) && SameMembers(s, t)
    ensures KeepsOutside(calm, s, t)
    ensures Level(LastEntryIndex(s.leader.log), calm, t) && t.leader.commit == LastEntryIndex(s.leader.log)
    decreases LastEntryIndex(s.leader.log) - s.leader.commit
  {
    if s.leader.commit == LastEntryIndex(s.leader.log) {
      steps, t := [], s;
    } else {
      var s1, rest;
      steps, s1 := CommitRound(t0, calm, s, id);
      BackedPath(t0, calm, s, steps, s1);
      rest, t := CommitAll(t0, calm, s1, id);
      LeadsThrough(s, steps, s1, rest, t);
      steps := steps + rest;
    }
  }

  // ---------------------------------------------------------------- telling the commit index

  /** Everything is committed, acknowledged and stored; only commit indexes may be missing. */
  ghost predicate AllStored(t0: uint32, s: System) {
    && Inv(t0, s) && s.leader.role == Leader && s.leader.commit == LastEntryIndex(s.leader.log)
    && Level(LastEntryIndex(s.leader.log), s.leader.proxies.Keys, s)
    && forall id <- s.leader.proxies :: id in s.peers && s.peers[id].node.log == s.leader.log
  }

  ghost predicate Told(s: System, id: uint32) {
    id in s.peers && s.peers[id].node.commit == s.leader.commit
  }

  /** The last request in flight tells commit index `c`. */
  predicate Tells(p: Peer, c: nat) {
    && p.requests != []
    && var q := p.requests[|p.requests| - 1]; q.leaderCommit == c && q.prevIndex >= c
  }

  ghost predicate WillBeTold(s: System, id: uint32) {
    id in s.peers && Tells(s.peers[id], s.leader.commit)
  }

  lemma AllStoredStep(t0: uint32, s: System, step: Step, id: uint32)
    requires AllStored(t0, s) && Plain(s, step) && OnlyPeer(id, s, Apply(s, step)) && Apply(s, step).leader == s.leader
    requires Apply(s, step).peers[id].node.log == s.peers[id].node.log
    ensures AllStored(t0, Apply(s, step))
  {
    StepInv(t0, s, step);
  }

  /** A request to a follower that has acknowledged everything carries nothing. */
  lemma EmptyRequest(t0: uint32, s: System, id: uint32)
    requires AllStored(t0, s) && id in s.leader.proxies && s.peers[id].requests != []
    ensures s.peers[id].requests[0].entries == []
  {
    assert PeerInv(t0, s.leader, id, s.peers[id]) && ProxyInv(s.leader.log, s.leader.proxies[id]);
    assert RequestInv(t0, s.leader, s.leader.proxies[id].matched, s.peers[id].requests[0]);
  }

  /** It is answered without a write, and the last one tells the commit index. */
  lemma EmptyAnswer(p: Peer, c: nat)
    requires Tells(p, c) && p.requests[0].entries == [] && p.node.commit <= c
    ensures var p' := AnswerFirst(p);
            && p'.node.log == p.node.log && |p'.requests| < |p.requests|
            && (p'.node.commit == c || Tells(p', c))
  {
  }

  lemma DeliverEmpty(t0: uint32, s: System, id: uint32)
    requires AllStored(t0, s) && id in s.leader.proxies && WillBeTold(s, id)
    ensures Plain(s, Deliver(s, id))
    ensures var t := Apply(s, Deliver(s, id));
            && AllStored(t0, t) && OnlyPeer(id, s, t) && t.leader == s.leader
            && |t.peers[id].requests| < |s.peers[id].requests|
            && (Told(t, id) || WillBeTold(t, id))
  {
    var p := s.peers[id];
    assert PeerInv(t0, s.leader, id, p);
    EmptyRequest(t0, s, id);
    EmptyAnswer(p, s.leader.commit);
    DeliverPlain(s, id);
    assert Apply(s, Deliver(s, id)).peers[id] == AnswerFirst(p);
    AllStoredStep(t0, s, Deliver(s, id), id);
  }

  lemma {:induction false} DeliverAll(t0: uint32, s: System, id: uint32) returns (steps: seq<Step>, t: System)
    requires AllStored(t0, s) && id in s.leader.proxies && WillBeTold(s, id)
    ensures Leads(s, steps, t) && AllStored(t0, t) && OnlyPeer(id, s, t) && t.leader == s.leader && Told(t, id)
    decreases |s.peers[id].requests|
  {
    DeliverEmpty(t0, s, id);
    var step := Deliver(s, id);
    var s1 := Apply(s, step);
    LeadsOne(s, step);
    if Told(s1, id) {
      steps, t := [step], s1;
    } else {
      steps, t := DeliverAll(t0, s1, id);
      LeadsThrough(s, [step], s1, steps, t);
      steps := [step] + steps;
    }
  }

  lemma TellBroadcast(t0: uint32, s: System, id: uint32)
    requires AllStored(t0, s) && id in s.leader.proxies
    ensures Plain(s, Broadcast({id}))
    ensures var t := Apply(s, Broadcast({id}));
            AllStored(t0, t) && OnlyPeer(id, s, t) && t.leader == s.leader && WillBeTold(t, id)
  {
    var px, p := s.leader.proxies[id], s.peers[id];
    MaySendTo(t0, s, id);
    var t := Apply(s, Broadcast({id}));
    assert t.peers[id] == p.(requests := p.requests + [RequestFor(s.leader, px)]);
    assert ProxyInv(s.leader.log, px);
    AllStoredStep(t0, s, Broadcast({id}), id);
  }

  lemma MaySendTo(t0: uint32, s: System, id: uint32)
    requires Inv(t0, s) && s.leader.role == Leader && Settled(s, id)
    ensures id in s.peers && Plain(s, Broadcast({id}))
  {
    forall i | i in s.leader.proxies ensures 1 <= s.leader.proxies[i].next {
      assert ProxyInv(s.leader.log, s.leader.proxies[i]);
    }
    assert PeerInv(t0, s.leader, id, s.peers[id]);
    BusyMeans(t0, s.leader, s.leader.proxies[id].matched, s.peers[id]);
  }

  lemma TellOne(t0: uint32, s: System, id: uint32) returns (steps: seq<Step>, t: System)
    requires AllStored(t0, s) && id in s.leader.proxies
    ensures Leads(s, steps, t) && AllStored(t0, t) && OnlyPeer(id, s, t) && t.leader == s.leader && Told(t, id)
  {
    var step := Broadcast({id});
    TellBroadcast(t0, s, id);
    var s1 := Apply(s, step);
    LeadsOne(s, step);
    steps, t := DeliverAll(t0, s1, id);
    LeadsThrough(s, [step], s1, steps, t);
    steps := [step] + steps;
  }

  ghost predicate ToldBut(todo: set<uint32>, s: System) {
    forall id <- s.leader.proxies :: id in todo || Told(s, id)
  }

  lemma ToldOneMore(todo: set<uint32>, s: System, t: System, id: uint32)
    requires ToldBut(todo, s) && OnlyPeer(id, s, t) && t.leader == s.leader && Told(t, id)
    ensures ToldBut(todo - {id}, t)
  {
    forall i | i in t.leader.proxies && i !in todo - {id} ensures Told(t, i) {
      if i != id { assert Told(s, i) && t.peers[i] == s.peers[i]; }
    }
  }

  lemma {:induction false} TellAll(t0: uint32, s: System, todo: set<uint32>) returns (steps: seq<Step>, t: System)
    requires AllStored(t0, s) && todo <= s.leader.proxies.Keys && ToldBut(todo, s)
    ensures Leads(s, steps, t) && AllStored(t0, t) && t.leader == s.leader && ToldBut({}, t)
    decreases todo
  {
    if todo == {} {
      steps, t := [], s;
    } else {
      var id :| id in todo;
      var s1, rest;
      steps, s1 := TellOne(t0, s, id);
      ToldOneMore(todo, s, s1, id);
      rest, t := TellAll(t0, s1, todo - {id});
      LeadsThrough(s, steps, s1, rest, t);
      steps := steps + rest;
    }
  }

  // ---------------------------------------------------------------- completion

  /** Everybody has everything: each follower stores the leader's log and all commit indexes are the last index. */
  ghost predicate Complete(s: System) {
    && s.leader.commit == LastEntryIndex(s.leader.log)
    && forall id <- s.leader.proxies :: Told(s, id) && s.peers[id].node.log == s.leader.log
  }

  /** A follower that holds what it acknowledged, up to the last of several entries or of none, holds the leader's
      log. */
  lemma HoldsAll(t0: uint32, s: System, id: uint32)
    requires Inv(t0, s) && s.leader.role == Leader && Settled(s, id) && Whole(s, id) && |s.leader.log| != 1
    ensures id in s.peers && s.peers[id].node.log == s.leader.log
  {
    assert PeerInv(t0, s.leader, id, s.peers[id]);
  }

  ghost predicate AllWhole(s: System) {
    forall id <- s.leader.proxies :: Whole(s, id)
  }

  lemma {:induction false} WholePath(t0: uint32, s: System, steps: seq<Step>, t: System)
    requires Inv(t0, s) && AllWhole(s) && Leads(s, steps, t)
    ensures AllWhole(t)
    decreases |steps|
  {
    if steps != [] {
      var s1 := Apply(s, steps[0]);
      StepInv(t0, s, steps[0]);
      SameProxies(t0, s, steps[0]);
      forall id | id in s1.leader.proxies ensures Whole(s1, id) {
        WholeStep(t0, s, steps[0], id);
      }
      WholePath(t0, s1, steps[1..], t);
    }
  }

  /** A majority is enough: with more than half of the members calm, everything gets committed while all others stay
      silent, whatever they hold and whatever is in flight to and from them. */
  lemma CommitByMajority(t0: uint32, calm: set<uint32>, s: System, id: uint32) returns (steps: seq<Step>, t: System)
    requires Good(t0, s, calm) && id in calm && Backed(s.leader, calm)
    ensures Leads(s, steps, t) && Good(t0, t, calm) && SameMembers(s, t) && KeepsOutside(calm, s, t)
    ensures Level(LastEntryIndex(s.leader.log), calm, t) && t.leader.commit == LastEntryIndex(s.leader.log)
  {
    var x1, x2, x3, s1, s2;
    x1, s1 := DrainAll(t0, calm, s, calm);
    x2, s2 := CatchUp(t0, calm, s1, 0);
    LeadsThrough(s, x1, s1, x2, s2);
    BackedPath(t0, calm, s, x1 + x2, s2);
    x3, t := CommitAll(t0, calm, s2, id);
    LeadsThrough(s, x1 + x2, s2, x3, t);
    steps := x1 + x2 + x3;
  }

  lemma AllBacked(s: System, calm: set<uint32>, id: uint32)
    requires OthersSettled(s, calm) && calm <= s.leader.proxies.Keys && id in calm
    ensures Backed(s.leader, calm)
  {
    assert calm + SettledIds(s.leader) == s.leader.proxies.Keys;
    assert |s.leader.proxies.Keys - {id}| + 1 == |s.leader.proxies.Keys|;
  }

  lemma NowStored(t0: uint32, calm: set<uint32>, s: System, steps: seq<Step>, t: System)
    requires Inv(t0, s) && AllWhole(s) && OthersSettled(s, calm) && Leads(s, steps, t) && SameMembers(s, t)
    requires Good(t0, t, calm) && |t.leader.log| != 1
    requires Level(LastEntryIndex(t.leader.log), calm, t) && t.leader.commit == LastEntryIndex(t.leader.log)
    ensures AllStored(t0, t)
  {
    WholePath(t0, s, steps, t);
    forall i | i in t.leader.proxies
      ensures t.leader.proxies[i].matched >= LastEntryIndex(t.leader.log)
      ensures i in t.peers && t.peers[i].node.log == t.leader.log
    {
      assert ProxyInv(t.leader.log, t.leader.proxies[i]);
      if i !in calm { SettledPath(t0, s, steps, t, i); }
      HoldsAll(t0, t, i);
    }
  }

  lemma Finish(t0: uint32, calm: set<uint32>, s: System, id: uint32) returns (steps: seq<Step>, t: System)
    requires Good(t0, s, calm) && OthersSettled(s, calm) && id in calm && AllWhole(s) && |s.leader.log| != 1
    ensures Leads(s, steps, t) && SameMembers(s, t) && Complete(t)
  {
    var s1, rest;
    AllBacked(s, calm, id);
    steps, s1 := CommitByMajority(t0, calm, s, id);
    NowStored(t0, calm, s, steps, s1);
    rest, t := TellAll(t0, s1, s1.leader.proxies.Keys);
    LeadsThrough(s, steps, s1, rest, t);
    steps := steps + rest;
  }

  // ---------------------------------------------------------------- followers that timed out

  /** The follower timed out, but stores the whole log, whether or not its acknowledgement has arrived. */
  ghost predicate HasAll(s: System, id: uint32) {
    id in s.peers && s.peers[id].node.log == s.leader.log
  }

  lemma HasAllClaims(t0: uint32, s: System, id: uint32)
    requires Inv(t0, s) && id in s.leader.proxies && HasAll(s, id) && Whole(s, id) && |s.leader.log| != 1
    ensures Claimed(s.leader.proxies[id].matched, s.peers[id]) == LastEntryIndex(s.leader.log)
  {
    assert PeerInv(t0, s.leader, id, s.peers[id]) && ProxyInv(s.leader.log, s.leader.proxies[id]);
  }

  /** An acknowledgement in flight is behind replies whose terms do not exceed the leader's. */
  lemma BehindLowTerms(t0: uint32, l: Node, m: nat, p: Peer)
    requires Linked(t0, l, m, p) && Claimed(m, p) != m
    ensures p.replies != [] && p.replies[0].msg.term <= l.term
  {
    var last := p.replies[|p.replies| - 1];
    assert ReplyInv(l, p.node, last);
    assert p.replies[0].msg.term <= last.msg.term;
  }

  lemma AckArrives(t0: uint32, s: System, id: uint32)
    requires Inv(t0, s) && s.leader.role == Leader && id in s.leader.proxies && id in s.peers
    requires Claimed(s.leader.proxies[id].matched, s.peers[id]) != s.leader.proxies[id].matched
    ensures s.peers[id].replies != [] && Plain(s, DeliverReply(id))
    ensures var t := Apply(s, DeliverReply(id));
            && id in t.leader.proxies && OnlyPeer(id, s, t) && Backlog(t.peers[id]) < Backlog(s.peers[id])
            && Claimed(t.leader.proxies[id].matched, t.peers[id]) == Claimed(s.leader.proxies[id].matched, s.peers[id])
  {
    var l, p := s.leader, s.peers[id];
    assert PeerInv(t0, l, id, p);
    BehindLowTerms(t0, l, l.proxies[id].matched, p);
    ReplyPlain(t0, s, id);
    ReplyShape(t0, s, id);
    ReplyMatched(l, id, p.replies[0].msg);
    ClaimedKept(t0, l, l.proxies[id].matched, p);
  }

  /** What taking replies from a follower that timed out keeps: everybody else's state. */
  ghost predicate KeepsOthers(t0: uint32, calm: set<uint32>, s: System, t: System) {
    && Inv(t0, t) && t.leader.role == Leader && SameMembers(s, t)
    && (forall id <- calm :: CalmPeer(t0, s, id) ==> CalmPeer(t0, t, id))
    && (forall id <- s.leader.proxies :: Settled(s, id) ==> Settled(t, id))
  }

  lemma PlainKeepsOthers(t0: uint32, calm: set<uint32>, s: System, step: Step)
    requires t0 != TWO_32 - 1 && Inv(t0, s) && Plain(s, step) && s.leader.role == Leader
    ensures KeepsOthers(t0, calm, s, Apply(s, step))
  {
    StepInv(t0, s, step);
    SameProxies(t0, s, step);
    StepGrows(t0, s, step);
    forall id | id in calm && CalmPeer(t0, s, id) ensures CalmPeer(t0, Apply(s, step), id) {
      InTimeStep(t0, s, step, id);
      GoodForStep(t0, s, step, id);
    }
    forall id | id in s.leader.proxies && Settled(s, id) ensures Settled(Apply(s, step), id) {
      SettledStep(t0, s, step, id);
    }
  }

  lemma {:induction false} TakeAck(t0: uint32, calm: set<uint32>, s: System, id: uint32)
      returns (steps: seq<Step>, t: System)
    requires t0 != TWO_32 - 1 && Inv(t0, s) && s.leader.role == Leader && id in s.leader.proxies && id in s.peers
    requires Claimed(s.leader.proxies[id].matched, s.peers[id]) == LastEntryIndex(s.leader.log)
    ensures Leads(s, steps, t) && KeepsOthers(t0, calm, s, t) && Settled(t, id)
    ensures OnlyPeer(id, s, t)
    ensures forall i <- s.leader.proxies :: i != id ==>
        i in t.leader.proxies &&
        t.leader.proxies[i] == s.leader.proxies[i]
    decreases Backlog(s.peers[id])
  {
    if Settled(s, id) {
      steps, t := [], s;
    } else {
      var step := DeliverReply(id);
      AckArrives(t0, s, id);
      PlainKeepsOthers(t0, calm, s, step);
      LeadsOne(s, step);
      var s1 := Apply(s, step);
      forall i | i in s.leader.proxies && i != id
        ensures i in s1.leader.proxies && s1.leader.proxies[i] == s.leader.proxies[i]
      {
        ReplyElsewhere(s.leader, id, s.peers[id].replies[0].msg, i);
      }
      steps, t := TakeAck(t0, calm, s1, id);
      LeadsThrough(s, [step], s1, steps, t);
      steps := [step] + steps;
    }
  }

  /** Of the members outside `calm`, those not in `todo` have acknowledged the last entry; the others store it. */
  ghost predicate SettledBut(todo: set<uint32>, calm: set<uint32>, s: System) {
    && todo <= s.leader.proxies.Keys <= s.peers.Keys
    && forall id <- s.leader.proxies ::
         && (id in calm || id in todo || Settled(s, id))
         && (id in todo ==> Claimed(s.leader.proxies[id].matched, s.peers[id]) == LastEntryIndex(s.leader.log))
  }

  lemma SettledOneMore(t0: uint32, todo: set<uint32>, calm: set<uint32>, s: System, t: System, id: uint32)
    requires SettledBut(todo, calm, s) && OnlyPeer(id, s, t) && KeepsOthers(t0, calm, s, t) && Settled(t, id) &&
        id in todo
    requires forall i <- s.leader.proxies :: i != id ==>
        i in t.leader.proxies &&
        t.leader.proxies[i] == s.leader.proxies[i]
    ensures SettledBut(todo - {id}, calm, t)
  {
    forall i | i in t.leader.proxies
      ensures i in calm || i in todo - {id} || Settled(t, i)
      ensures i in todo - {id} ==> Claimed(t.leader.proxies[i].matched, t.peers[i]) == LastEntryIndex(t.leader.log)
    {
      if i != id { assert t.peers[i] == s.peers[i]; }
    }
  }

  lemma {:induction false} TakeAcks(t0: uint32, calm: set<uint32>, s: System, todo: set<uint32>)
      returns (steps: seq<Step>, t: System)
    requires t0 != TWO_32 - 1 && Inv(t0, s) && s.leader.role == Leader && calm <= s.leader.proxies.Keys
    requires (forall id <- calm :: CalmPeer(t0, s, id)) && SettledBut(todo, calm, s)
    ensures Leads(s, steps, t) && Good(t0, t, calm) && SameMembers(s, t) && OthersSettled(t, calm)
    decreases todo
  {
    if todo == {} {
      steps, t := [], s;
    } else {
      var id :| id in todo;
      var s1, rest;
      steps, s1 := TakeAck(t0, calm, s, id);
      SettledOneMore(t0, todo, calm, s, s1, id);
      rest, t := TakeAcks(t0, calm, s1, todo - {id});
      LeadsThrough(s, steps, s1, rest, t);
      steps := steps + rest;
    }
  }

  // ---------------------------------------------------------------- exactly when a run can be completed

  /** `r'` extends `r` without new members to a complete state. */
  ghost predicate Completes(r: Run, r': Run)
    requires IsRun(r)
  {
    && IsRun(r') && r'.t0 == r.t0 && r.states <= r'.states && r.steps <= r'.steps
    && SameMembers(r.states[|r.steps|], r'.states[|r'.steps|]) && Complete(r'.states[|r'.steps|])
  }

  /** Nobody lost a write in the first `k` steps. */
  ghost predicate NoLostWrites(r: Run, k: nat)
    requires IsRun(r) && k < |r.states|
  {
    forall id <- r.states[0].peers :: !LostWrite(r, k, id)
  }

  /** Whoever timed out stores the leader's whole log. */
  ghost predicate LateHaveAll(t0: uint32, s: System) {
    forall id <- s.leader.proxies :: InTime(t0, s, id) || HasAll(s, id)
  }

  ghost function MembersInTime(t0: uint32, s: System): set<uint32> {
    set id | id in s.leader.proxies && InTime(t0, s, id)
  }

  lemma Ready(r: Run)
    requires IsRun(r) && r.t0 != TWO_32 - 1
    requires var s := r.states[|r.steps|];
             s.leader.role == Leader && NoLostWrites(r, |r.steps|) && |s.leader.log| != 1 && LateHaveAll(r.t0, s)
    ensures var s := r.states[|r.steps|]; var calm := MembersInTime(r.t0, s);
            && Inv(r.t0, s) && AllWhole(s) && (forall id <- calm :: CalmPeer(r.t0, s, id))
            && SettledBut(s.leader.proxies.Keys - calm, calm, s)
  {
    var k := |r.steps|;
    var s := r.states[k];
    RunInv(r, k);
    SameNodes(r, k);
    forall id | id in s.leader.proxies ensures Whole(s, id) { WholeExactly(r, k, id); }
    forall id | id in MembersInTime(r.t0, s) ensures CalmPeer(r.t0, s, id) { GoodForRun(r, k, id); }
    forall id | id in s.leader.proxies && id !in MembersInTime(r.t0, s)
      ensures Claimed(s.leader.proxies[id].matched, s.peers[id]) == LastEntryIndex(s.leader.log)
    {
      HasAllClaims(r.t0, s, id);
    }
  }

  lemma StillNoTimeouts(r: Run, steps: seq<Step>, t: System, r': Run)
    requires |r.states| == |r.steps| + 1 && Leads(r.states[|r.steps|], steps, t) && r'.steps == r.steps + steps
    ensures NoTimeouts(r) ==> NoTimeouts(r')
  {
    NoTimeoutOnPath(r.states[|r.steps|], steps, t);
  }

  lemma FinishFrom(t0: uint32, calm: set<uint32>, s: System, id: uint32) returns (steps: seq<Step>, t: System)
    requires t0 != TWO_32 - 1 && Inv(t0, s) && s.leader.role == Leader && calm <= s.leader.proxies.Keys && id in calm
    requires (forall id <- calm :: CalmPeer(t0, s, id)) && SettledBut(s.leader.proxies.Keys - calm, calm, s)
    requires AllWhole(s) && |s.leader.log| != 1
    ensures Leads(s, steps, t) && SameMembers(s, t) && Complete(t)
  {
    var s1, rest;
    steps, s1 := TakeAcks(t0, calm, s, s.leader.proxies.Keys - calm);
    WholePath(t0, s, steps, s1);
    rest, t := Finish(t0, calm, s1, id);
    LeadsThrough(s, steps, s1, rest, t);
    steps := steps + rest;
  }

  /** Convergence: while the leader leads and some member has not timed out, a run without lost writes extends, however
      its messages were interleaved so far, to one that ends with every member storing the leader's log of that moment
      and every commit index at its last entry, provided that whoever timed out stores that log already. The extension
      has no timeout and no new member. */
  lemma Converges(r: Run) returns (r': Run)
    requires IsRun(r) && r.t0 != TWO_32 - 1
    requires var s := r.states[|r.steps|];
             && s.leader.role == Leader && MembersInTime(r.t0, s) != {}
             && NoLostWrites(r, |r.steps|) && |s.leader.log| != 1 && LateHaveAll(r.t0, s)
    ensures Completes(r, r') && (NoTimeouts(r) ==> NoTimeouts(r'))
  {
    var s := r.states[|r.steps|];
    var calm := MembersInTime(r.t0, s);
    Ready(r);
    var id :| id in calm;
    var steps, t := FinishFrom(r.t0, calm, s, id);
    r' := ExtendRun(r, steps, t);
    StillNoTimeouts(r, steps, t, r');
  }

  /** A run whose leader leads extends to one with everything committed, without a word from the members outside `calm`,
      whenever `calm` is more than half of the members, has not timed out and lost no write. */
  lemma CommitsWithoutMinority(r: Run, calm: set<uint32>) returns (r': Run)
    requires IsRun(r) && r.t0 != TWO_32 - 1
    requires var s := r.states[|r.steps|];
             && s.leader.role == Leader && calm <= MembersInTime(r.t0, s) && 2 * |calm| > |s.leader.proxies.Keys|
             && forall id <- calm :: !LostWrite(r, |r.steps|, id)
    ensures IsRun(r') && r'.t0 == r.t0 && r.states <= r'.states && r.steps <= r'.steps
    ensures (NoTimeouts(r) ==> NoTimeouts(r'))
    ensures var s, t := r.states[|r.steps|], r'.states[|r'.steps|];
            SameMembers(s, t) && KeepsOutside(calm, s, t) && t.leader.commit == LastEntryIndex(t.leader.log)
  {
    var k := |r.steps|;
    var s := r.states[k];
    RunInv(r, k);
    forall id | id in calm ensures CalmPeer(r.t0, s, id) { GoodForRun(r, k, id); }
    SubsetCard(calm, calm + SettledIds(s.leader));
    var id :| id in calm;
    var steps, t := CommitByMajority(r.t0, calm, s, id);
    r' := ExtendRun(r, steps, t);
    StillNoTimeouts(r, steps, t, r');
  }

  /** A follower that lost a write never holds the whole log, whatever happens next. */
  lemma LostWriteNeverCompletes(r: Run, k: nat, id: uint32)
    requires IsRun(r) && k < |r.states| && id in r.states[k].peers && LostWrite(r, k, id)
    ensures !Complete(r.states[k])
  {
    WholeExactly(r, k, id);
    RunInv(r, k);
    var s := r.states[k];
    assert ProxyInv(s.leader.log, s.leader.proxies[id]);
    assert PeerInv(r.t0, s.leader, id, s.peers[id]);
  }

  lemma LostWriteExtends(r: Run, r': Run, id: uint32)
    requires IsRun(r) && IsRun(r') && r.states <= r'.states && r.steps <= r'.steps && LostWrite(r, |r.steps|, id)
    ensures LostWrite(r', |r'.steps|, id)
  {
    var i :| 0 <= i < |r.steps| && LosesWrite(r.states[i], r.steps[i], id);
    assert LosesWrite(r'.states[i], r'.steps[i], id);
  }

  /** A leader with a single entry never sends it: in every state of every run every follower's log is then empty. */
  lemma LoneEntryNeverSent(r: Run, k: nat, id: uint32)
    requires IsRun(r) && k < |r.states| && |r.states[k].leader.log| <= 1 && id in r.states[k].peers
    ensures r.states[k].peers[id].node.log == []
  {
    RunInv(r, k);
    var s := r.states[k];
    assert PeerInv(r.t0, s.leader, id, s.peers[id]);
    if id in s.leader.proxies { assert ProxyInv(s.leader.log, s.leader.proxies[id]); }
  }

  lemma {:induction false} NewTerms(log: seq<Entry>, term: uint32, batch: seq<Entry>, puts: seq<bool>)
    requires |puts| == |batch|
    ensures var log' := AppendBatch(log, term, batch, puts);
            log <= log' && forall i :: |log| <= i < |log'| ==> log'[i].term == term
    decreases |batch|
  {
    if batch != [] {
      var log1 := if IsCfg(batch[0]) && puts[0] then log + [Restamp(term, batch[0])] else log;
      NewTerms(log1, term, batch[1..], puts[1..]);
    }
  }

  /** Entries from position `n` on were written after the node's term passed `t0`. */
  ghost predicate LateFrom(t0: uint32, n: nat, p: Peer) {
    p.node.term > t0 && n <= |p.node.log| && forall i :: n <= i < |p.node.log| ==> p.node.log[i].term > t0
  }

  lemma LateAnswer(t0: uint32, n: nat, p: Peer, puts: seq<bool>)
    requires LateFrom(t0, n, p) && p.requests != [] && |puts| == |p.requests[0].entries|
    ensures LateFrom(t0, n, Answer(p, puts))
  {
    NewTerms(p.node.log, TermAfter(p.node, p.requests[0]).term, p.requests[0].entries, puts);
  }

  lemma LateStep(t0: uint32, s: System, step: Step, id: uint32, n: nat)
    requires Inv(t0, s) && Enabled(s, step) && id in s.peers && LateFrom(t0, n, s.peers[id])
    ensures id in Apply(s, step).peers && LateFrom(t0, n, Apply(s, step).peers[id])
  {
    if step.DeliverRequest? && step.id == id {
      LateAnswer(t0, n, s.peers[id], step.puts);
    } else {
      StepGrows(t0, s, step);
      assert NodeGrows(s.peers[id].node, Apply(s, step).peers[id].node);
      OnlyRequestsWrite(s, step, id);
    }
  }

  lemma LateNext(r: Run, k: nat, id: uint32, n: nat)
    requires IsRun(r) && k < |r.steps| && id in r.states[k].peers && LateFrom(r.t0, n, r.states[k].peers[id])
    ensures id in r.states[k + 1].peers && LateFrom(r.t0, n, r.states[k + 1].peers[id])
  {
    RunInv(r, k);
    LateStep(r.t0, r.states[k], r.steps[k], id, n);
  }

  /** What a node writes once its term has passed the leader's starting term carries a later term for ever. */
  lemma {:induction false} LateForever(r: Run, k: nat, j: nat, id: uint32)
    requires IsRun(r) && k <= j < |r.states| && id in r.states[k].peers && r.states[k].peers[id].node.term > r.t0
    ensures id in r.states[j].peers && LateFrom(r.t0, |r.states[k].peers[id].node.log|, r.states[j].peers[id])
    decreases j - k
  {
    if k < j {
      LateForever(r, k, j - 1, id);
      LateNext(r, j - 1, id, |r.states[k].peers[id].node.log|);
    }
  }

  /** So a member that timed out without the whole log never gets it. */
  lemma LateNeverCompletes(r: Run, k: nat, j: nat, id: uint32)
    requires IsRun(r) && k <= j < |r.states| && id in r.states[k].leader.proxies && id in r.states[k].peers
    requires r.states[k].peers[id].node.term > r.t0 && !HasAll(r.states[k], id)
    requires SameMembers(r.states[k], r.states[j])
    ensures !Complete(r.states[j])
  {
    LateForever(r, k, j, id);
    RunGrows(r, k, j);
    RunInv(r, j);
    var n, log := |r.states[k].peers[id].node.log|, r.states[j].peers[id].node.log;
    assert NodeGrows(r.states[k].peers[id].node, r.states[j].peers[id].node);
    if n < |r.states[j].leader.log| { assert OwnEntry(r.t0, r.states[j].leader.log[n]); }
    assert |log| == n ==> log == r.states[k].peers[id].node.log;
  }

  /** What every completable run satisfies, whoever leads. */
  lemma CompletionNeeds(r: Run, r': Run)
    requires IsRun(r) && r.states[|r.steps|].leader.proxies != map[] && Completes(r, r')
    ensures var s := r.states[|r.steps|];
            && NoLostWrites(r, |r.steps|) && |s.leader.log| != 1
            && (forall id <- s.leader.proxies :: id in s.peers && (s.peers[id].node.term <= r.t0 || HasAll(s, id)))
            && (s.leader.role == Leader || s.leader.commit == LastEntryIndex(s.leader.log))
  {
    var k, j := |r.steps|, |r'.steps|;
    var s := r.states[k];
    RunInv(r, k);
    SameNodes(r', j);
    assert r'.states[0] == r.states[0] && r'.states[k] == s;
    forall id | id in r.states[0].peers ensures !LostWrite(r, k, id) {
      if LostWrite(r, k, id) {
        LostWriteExtends(r, r', id);
        LostWriteNeverCompletes(r', j, id);
      }
    }
    var m :| m in s.leader.proxies;
    assert Told(r'.states[j], m);
    if |s.leader.log| == 1 { LoneEntryNeverSent(r', j, m); }
    forall id | id in s.leader.proxies ensures id in s.peers && (s.peers[id].node.term <= r.t0 || HasAll(s, id)) {
      if s.peers[id].node.term > r.t0 && !HasAll(s, id) { LateNeverCompletes(r', k, j, id); }
    }
    if s.leader.role != Leader { SteppedDownNeverCommits(r', k, j); }
  }

  /** While the leader leads and some member has not timed out, a run can be completed if and only if no node lost a
      write, the leader's log does not consist of one entry, and whoever timed out stores the leader's whole log. */
  lemma CompletableExactly(r: Run)
    requires IsRun(r) && r.t0 != TWO_32 - 1
    requires r.states[|r.steps|].leader.role == Leader && MembersInTime(r.t0, r.states[|r.steps|]) != {}
    ensures var s := r.states[|r.steps|];
            (exists r' :: Completes(r, r')) <==>
              NoLostWrites(r, |r.steps|) && |s.leader.log| != 1 && LateHaveAll(r.t0, s)
  {
    var s := r.states[|r.steps|];
    if NoLostWrites(r, |r.steps|) && |s.leader.log| != 1 && LateHaveAll(r.t0, s) {
      var r' := Converges(r);
    } else {
      forall r' ensures !Completes(r, r') {
        if Completes(r, r') { CompletionNeeds(r, r'); }
      }
    }
  }

  /** A run without timeouts can be completed if and only if no node lost a write and the log does not consist of one
      entry. */
  lemma CompletableWithoutTimeouts(r: Run)
    requires IsRun(r) && NoTimeouts(r) && r.t0 != TWO_32 - 1 && r.states[|r.steps|].leader.proxies != map[]
    ensures (exists r' :: Completes(r, r')) <==> NoLostWrites(r, |r.steps|) && |r.states[|r.steps|].leader.log| != 1
  {
    var s := r.states[|r.steps|];
    QuietRun(r, |r.steps|);
    RunInv(r, |r.steps|);
    var m :| m in s.leader.proxies;
    assert m in MembersInTime(r.t0, s);
    CompletableExactly(r);
  }
}
