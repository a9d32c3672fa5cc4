/** The inductive invariant of the replication system: what every step keeps. */
module Invariant {
  import opened Words
  import opened Messages
  import opened RaftNode
  import opened Replication

  /** The number of entries a follower holds once index `m` is acknowledged: index 1 arrives together with index 0. */
  function Held(m: nat): nat {
    if m == 0 then 0 else m + 1
  }

  /** The largest commit index that acknowledgements up to `m` allow. */
  function CommitCap(m: nat): nat {
    if m == 0 then 2 else m + 1
  }

  predicate PersistedBelow(n: Node) {
    n.persistedTerm.Some? ==> n.persistedTerm.value <= n.term
  }

  predicate SameBody(a: Entry, b: Entry) {
    a.etype == b.etype && a.nodeId == b.nodeId && a.port == b.port && a.host == b.host && a.writeIt == b.writeIt
  }

  /** `log` is a prefix of `full` when terms are ignored. */
  predicate BodyPrefix(log: seq<Entry>, full: seq<Entry>) {
    |log| <= |full| && forall i :: 0 <= i < |log| ==> SameBody(log[i], full[i])
  }

  predicate OwnEntry(t0: uint32, e: Entry) {
    e.etype == CFGADD && e.writeIt == 0 && e.term == t0
  }

  predicate ProxyInv(log: seq<Entry>, p: Proxy) {
    p.next == p.matched + 1 && p.matched <= LastEntryIndex(log) && p.state == IsVoting && p.connFd != -1
  }

  ghost predicate LeaderInv(t0: uint32, l: Node) {
    && |l.log| < MAX_LOG
    && (forall e <- l.log :: OwnEntry(t0, e))
    && ((l.role == Leader && l.term == t0) || (l.role == Follower && l.term > t0))
    && l.commit <= LastEntryIndex(l.log)
    && PersistedBelow(l)
    && forall id <- l.proxies :: ProxyInv(l.log, l.proxies[id])
  }

  /** A request in flight to a follower with acknowledged index `m`. */
  predicate RequestInv(t0: uint32, l: Node, m: nat, q: AppendQ) {
    && q.prevIndex == m
    && t0 <= q.term <= l.term
    && q.leaderCommit <= l.commit
    && (m > 0 ==> q.prevTerm == if t0 == TWO_32 - 1 then 0 else t0)
    && (if q.entries == [] then q.leaderCommit <= m
        else m + 1 <= LastEntryIndex(l.log) && q.entries == BatchFor(l.log, m + 1))
  }

  /** A reply in flight. Only a refusal can carry a term above the leader's. */
  predicate ReplyInv(l: Node, node: Node, r: Reply) {
    && r.msg.term <= node.term
    && (r.msg.success ==> r.msg.term <= l.term && (r.msg.isHeartbeat <==> !r.carried))
    && (r.msg.isHeartbeat ==> r.msg.success)
  }

  predicate AckPending(p: Peer) {
    p.replies != [] && p.replies[|p.replies| - 1].carried
  }

  predicate TermsRise(replies: seq<Reply>) {
    forall i, j :: 0 <= i < j < |replies| ==> replies[i].msg.term <= replies[j].msg.term
  }

  /** Channel order: at most one exchange carries entries, and nothing was sent after it; the terms of replies rise. */
  predicate ChannelInv(t0: uint32, l: Node, m: nat, p: Peer) {
    && (forall i :: 0 <= i < |p.requests| ==> RequestInv(t0, l, m, p.requests[i]))
    && (forall i :: 0 <= i < |p.requests| - 1 ==> p.requests[i].entries == [])
    && (forall i :: 0 <= i < |p.replies| ==> ReplyInv(l, p.node, p.replies[i]))
    && (forall i :: 0 <= i < |p.replies| - 1 ==> !p.replies[i].carried)
    && TermsRise(p.replies)
    && (AckPending(p) ==> p.requests == [] && m + 1 <= LastEntryIndex(l.log))
  }

  /** The acknowledged index once a success reply in flight is counted. */
  function Claimed(m: nat, p: Peer): nat {
    if AckPending(p) && p.replies[|p.replies| - 1].msg.success then m + 1 else m
  }

  /** The follower holds as many entries as it acknowledged. */
  predicate Accounted(m: nat, p: Peer) {
    |p.node.log| == Held(Claimed(m, p))
  }

  ghost predicate IsPrefix(log: seq<Entry>, l: Node) {
    BodyPrefix(log, l.log) && (l.role == Leader ==> log <= l.log)
  }

  /** Entry 1 stored at index 0: the first write of the first batch failed and the second succeeded. */
  predicate Misplaced(log: seq<Entry>, l: Node) {
    |log| == 1 && |l.log| >= 2 && SameBody(log[0], l.log[1]) && (l.role == Leader ==> log[0] == l.log[1])
  }

  /** What the follower stores. After a lost write it holds fewer entries than it acknowledged. */
  ghost predicate Stored(l: Node, m: nat, p: Peer) {
    if Accounted(m, p) then IsPrefix(p.node.log, l)
    else |p.node.log| < Held(Claimed(m, p)) && (IsPrefix(p.node.log, l) || Misplaced(p.node.log, l))
  }

  ghost predicate Linked(t0: uint32, l: Node, m: nat, p: Peer) {
    && Stored(l, m, p)
    && p.node.commit <= l.commit
    && p.node.commit <= CommitCap(m)
    && ChannelInv(t0, l, m, p)
  }

  ghost predicate PeerInv(t0: uint32, l: Node, id: uint32, p: Peer) {
    && p.node.role == Follower && p.node.proxies == map[] && PersistedBelow(p.node)
    && (p.node.log != [] ==> p.node.term >= t0)
    && if id in l.proxies then Linked(t0, l, l.proxies[id].matched, p)
       else p.node.log == [] && p.requests == [] && p.replies == [] && p.node.commit == 0
  }

  ghost predicate Inv(t0: uint32, s: System) {
    && LeaderInv(t0, s.leader)
    && s.leader.proxies.Keys <= s.peers.Keys
    && forall id <- s.peers :: PeerInv(t0, s.leader, id, s.peers[id])
  }

  lemma InitInv(t0: uint32, s: System)
    requires Init(t0, s)
    ensures Inv(t0, s)
  {
  }

  // ---------------------------------------------------------------- frame

  /** What every leader step keeps: the log grows at its end, the commit index and the term rise,
      and the leader's role, once lost, stays lost. */
  ghost predicate Grows(l: Node, l': Node) {
    && l.log <= l'.log && l.commit <= l'.commit && l.term <= l'.term && (l'.role == Leader ==> l.role == Leader)
  }

  lemma GrowsKeepsLinked(t0: uint32, l: Node, l': Node, m: nat, p: Peer)
    requires Linked(t0, l, m, p) && Grows(l, l') && |l'.log| < MAX_LOG
    ensures Linked(t0, l', m, p)
  {
    forall i | 0 <= i < |p.requests| ensures RequestInv(t0, l', m, p.requests[i]) {
      assert RequestInv(t0, l, m, p.requests[i]);
    }
    forall i | 0 <= i < |p.replies| ensures ReplyInv(l', p.node, p.replies[i]) {
      assert ReplyInv(l, p.node, p.replies[i]);
    }
  }

  lemma GrowsKeepsPeer(t0: uint32, l: Node, l': Node, id: uint32, p: Peer)
    requires PeerInv(t0, l, id, p) && Grows(l, l') && |l'.log| < MAX_LOG
    requires (id in l.proxies) == (id in l'.proxies)
    requires id in l.proxies ==> l.proxies[id].matched == l'.proxies[id].matched
    ensures PeerInv(t0, l', id, p)
  {
    if id in l.proxies {
      GrowsKeepsLinked(t0, l, l', l.proxies[id].matched, p);
    }
  }

  // ---------------------------------------------------------------- sending

  lemma RequestForInv(t0: uint32, l: Node, px: Proxy)
    requires LeaderInv(t0, l) && ProxyInv(l.log, px)
    ensures RequestInv(t0, l, px.matched, RequestFor(l, px))
  {
    if px.matched > 0 {
      assert OwnEntry(t0, l.log[px.matched]);
    }
  }

  lemma SendKeepsLinked(t0: uint32, l: Node, px: Proxy, p: Peer)
    requires LeaderInv(t0, l) && ProxyInv(l.log, px)
    requires Linked(t0, l, px.matched, p) && !Busy(p)
    ensures Linked(t0, l, px.matched, p.(requests := p.requests + [RequestFor(l, px)]))
  {
    RequestForInv(t0, l, px);
  }

  lemma BroadcastKeepsPeers(t0: uint32, s: System, alive: set<uint32>)
    requires Inv(t0, s) && SendableProxies(s.leader) && MaySend(s, s.leader.proxies, alive)
    ensures Inv(t0, s.(peers := SendAll(s.peers, BroadcastTo(s.leader, alive))))
  {
    var sent := BroadcastTo(s.leader, alive);
    var peers := SendAll(s.peers, sent);
    forall id | id in peers ensures PeerInv(t0, s.leader, id, peers[id]) {
      if id in sent {
        SendKeepsLinked(t0, s.leader, s.leader.proxies[id], s.peers[id]);
      }
    }
  }

  // ---------------------------------------------------------------- handshake

  lemma JoinLeaderInv(t0: uint32, l: Node, h: Hello, putOk: bool)
    requires LeaderInv(t0, l) && |l.log| + 1 < MAX_LOG && IsFreshHello(l, h)
    ensures var l' := HandshakeNode(l, h, putOk);
            && h.id !in l.proxies && l'.proxies == l.proxies[h.id := NEW_PROXY.(connFd := h.fd)]
            && LeaderInv(t0, l') && Grows(l, l')
  {
    var l' := HandshakeNode(l, h, putOk);
    assert h.id !in l.proxies;
    assert forall e <- l'.log :: e in l.log || e == CfgEntry(l.term, h.id, h.port, h.host);
    forall id | id in l'.proxies ensures ProxyInv(l'.log, l'.proxies[id]) {
      if id != h.id { assert ProxyInv(l.log, l.proxies[id]); }
    }
  }

  /** A fresh handshake, before its broadcast. */
  lemma JoinInv(t0: uint32, s: System, h: Hello, putOk: bool)
    requires Inv(t0, s) && h.id in s.peers && |s.leader.log| + 1 < MAX_LOG && IsFreshHello(s.leader, h)
    ensures h.id !in s.leader.proxies && !Busy(s.peers[h.id])
    ensures Inv(t0, s.(leader := HandshakeNode(s.leader, h, putOk)))
  {
    var l, l' := s.leader, HandshakeNode(s.leader, h, putOk);
    JoinLeaderInv(t0, l, h, putOk);
    assert PeerInv(t0, l, h.id, s.peers[h.id]);
    forall id | id in s.peers ensures PeerInv(t0, l', id, s.peers[id]) {
      if id != h.id { GrowsKeepsPeer(t0, l, l', id, s.peers[id]); }
    }
  }

  lemma TieInv(t0: uint32, s: System, id: uint32, fd: nat)
    requires Inv(t0, s) && id in s.leader.proxies
    ensures Inv(t0, s.(leader := Tie(s.leader, id, fd)))
  {
    var l' := Tie(s.leader, id, fd);
    forall i | i in s.peers ensures PeerInv(t0, l', i, s.peers[i]) {
      GrowsKeepsPeer(t0, s.leader, l', i, s.peers[i]);
    }
  }

  /** A handshake that is refused or repeated sends nothing and changes no index. */
  lemma RepeatedHandshakeInv(t0: uint32, s: System, h: Hello, putOk: bool, alive: set<uint32>)
    requires Inv(t0, s) && Enabled(s, Handshake(h, putOk, alive)) && !IsFreshHello(s.leader, h)
    ensures Apply(s, Handshake(h, putOk, alive)) == s.(leader := HandshakeNode(s.leader, h, putOk))
    ensures Inv(t0, s.(leader := HandshakeNode(s.leader, h, putOk)))
  {
    assert SendAll(s.peers, map[]) == s.peers;
    if s.leader.role == Leader { TieInv(t0, s, h.id, h.fd); }
  }

  lemma HandshakeInv(t0: uint32, s: System, h: Hello, putOk: bool, alive: set<uint32>)
    requires Inv(t0, s) && Enabled(s, Handshake(h, putOk, alive))
    ensures Inv(t0, Apply(s, Handshake(h, putOk, alive)))
  {
    if IsFreshHello(s.leader, h) {
      JoinInv(t0, s, h, putOk);
      BroadcastKeepsPeers(t0, s.(leader := HandshakeNode(s.leader, h, putOk)), alive);
    } else {
      RepeatedHandshakeInv(t0, s, h, putOk, alive);
    }
  }

  // ---------------------------------------------------------------- delivering a request

  lemma AppendAllOk(log: seq<Entry>, term: uint32, batch: seq<Entry>)
    requires forall e <- batch :: IsCfg(e)
    ensures AppendBatch(log, term, batch, AllOk(|batch|)) == log + Restamped(term, batch)
    decreases |batch|
  {
    if batch != [] {
      assert AllOk(|batch|)[1..] == AllOk(|batch[1..]|);
      AppendAllOk(log + [Restamp(term, batch[0])], term, batch[1..]);
    }
  }

  /** Some write fails. */
  predicate Lossy(puts: seq<bool>) {
    exists i :: 0 <= i < |puts| && !puts[i]
  }

  lemma LossyOrAllOk(puts: seq<bool>)
    ensures !Lossy(puts) <==> puts == AllOk(|puts|)
  {
    assert forall i :: 0 <= i < |puts| ==> AllOk(|puts|)[i];
    if !Lossy(puts) { assert forall i :: 0 <= i < |puts| ==> puts[i] == AllOk(|puts|)[i]; }
  }

  /** The batch after index `m` continues a prefix of the leader's log that ends there. */
  lemma NextEntries(t0: uint32, l: Node, log: seq<Entry>, m: nat, term: uint32)
    requires LeaderInv(t0, l) && IsPrefix(log, l) && |log| == Held(m) && m + 1 <= LastEntryIndex(l.log)
    requires l.role == Leader ==> term == t0
    ensures var log' := log + Restamped(term, BatchFor(l.log, m + 1)); IsPrefix(log', l) && |log'| == Held(m + 1)
  {
    var log' := log + Restamped(term, BatchFor(l.log, m + 1));
    forall i | 0 <= i < |log'| ensures SameBody(log'[i], l.log[i]) && (l.role == Leader ==> log'[i] == l.log[i]) {
      assert OwnEntry(t0, l.log[i]);
    }
  }

  /** An accepted batch whose writes succeed extends the follower's log by exactly the next entries of the leader's. */
  lemma AcceptedBatch(t0: uint32, l: Node, m: nat, p: Peer)
    requires LeaderInv(t0, l) && Linked(t0, l, m, p) && Accounted(m, p)
    requires p.requests != [] && p.requests[0].entries != [] && Accepts(p.node, p.requests[0])
    ensures var log' := AnswerFirst(p).node.log;
            IsPrefix(log', l) && |log'| == Held(m + 1)
  {
    var q := p.requests[0];
    assert RequestInv(t0, l, m, q);
    assert OwnEntry(t0, l.log[0]) && OwnEntry(t0, l.log[m + 1]);
    var term := TermAfter(p.node, q).term;
    AppendAllOk(p.node.log, term, q.entries);
    assert !AckPending(p);
    NextEntries(t0, l, p.node.log, m, term);
  }

  lemma OneEntry(log: seq<Entry>, term: uint32, batch: seq<Entry>, puts: seq<bool>)
    requires |puts| == |batch| == 1 && IsCfg(batch[0])
    ensures AppendBatch(log, term, batch, puts) == if puts[0] then log + [Restamp(term, batch[0])] else log
  {
    assert batch[1..] == [];
  }

  lemma TwoEntries(log: seq<Entry>, term: uint32, batch: seq<Entry>, puts: seq<bool>)
    requires |puts| == |batch| == 2 && IsCfg(batch[0]) && IsCfg(batch[1])
    ensures var log1 := if puts[0] then log + [Restamp(term, batch[0])] else log;
            AppendBatch(log, term, batch, puts) == if puts[1] then log1 + [Restamp(term, batch[1])] else log1
  {
    var log1 := if puts[0] then log + [Restamp(term, batch[0])] else log;
    OneEntry(log1, term, batch[1..], puts[1..]);
  }

  /** What a first batch leaves in an empty log. */
  lemma FirstBatch(t0: uint32, l: Node, term: uint32, puts: seq<bool>)
    requires LeaderInv(t0, l) && |l.log| >= 2 && |puts| == 2 && Lossy(puts) && (l.role == Leader ==> term == t0)
    ensures var log := AppendBatch([], term, [l.log[0], l.log[1]], puts);
            |log| <= 1 && if puts == [false, true] then Misplaced(log, l) else IsPrefix(log, l)
  {
    assert OwnEntry(t0, l.log[0]) && OwnEntry(t0, l.log[1]);
    TwoEntries([], term, [l.log[0], l.log[1]], puts);
    assert puts == [puts[0], puts[1]];
  }

  /** A batch that loses a write leaves the follower short of what it acknowledges: an unchanged log, entry 0 alone,
      or entry 1 at index 0. */
  lemma LossyBatch(t0: uint32, l: Node, m: nat, p: Peer, puts: seq<bool>)
    requires LeaderInv(t0, l) && Linked(t0, l, m, p) && Accounted(m, p)
    requires p.requests != [] && p.requests[0].entries != [] && Accepts(p.node, p.requests[0])
    requires |puts| == |p.requests[0].entries| && Lossy(puts)
    ensures var log' := Answer(p, puts).node.log;
            && (if m == 0 then |log'| <= 1 else log' == p.node.log)
            && if puts == [false, true] then Misplaced(log', l) else IsPrefix(log', l)
  {
    var q := p.requests[0];
    assert RequestInv(t0, l, m, q);
    assert !AckPending(p);
    var term := TermAfter(p.node, q).term;
    assert OwnEntry(t0, l.log[m + 1]);
    if m == 0 {
      assert p.node.log == [] && q.entries == [l.log[0], l.log[1]];
      FirstBatch(t0, l, term, puts);
    } else {
      assert !puts[0];
      OneEntry(p.node.log, term, q.entries, puts);
    }
  }

  /** A follower that holds less than it acknowledged refuses every request. */
  lemma ShortRefuses(t0: uint32, l: Node, m: nat, p: Peer)
    requires Linked(t0, l, m, p) && !Accounted(m, p) && p.requests != []
    ensures !Accepts(p.node, p.requests[0])
  {
    assert RequestInv(t0, l, m, p.requests[0]);
  }

  lemma AnswerStored(t0: uint32, l: Node, m: nat, p: Peer, puts: seq<bool>)
    requires LeaderInv(t0, l) && Linked(t0, l, m, p) && p.requests != [] && |puts| == |p.requests[0].entries|
    ensures Stored(l, m, Answer(p, puts))
    ensures Accounted(m, Answer(p, puts)) <==> Accounted(m, p) && !(Accepts(p.node, p.requests[0]) && Lossy(puts))
  {
    var q, p' := p.requests[0], Answer(p, puts);
    assert RequestInv(t0, l, m, q);
    assert !AckPending(p);
    if !Accounted(m, p) {
      ShortRefuses(t0, l, m, p);
    } else if q.entries != [] && Accepts(p.node, q) {
      LossyOrAllOk(puts);
      if Lossy(puts) { LossyBatch(t0, l, m, p, puts); } else { AcceptedBatch(t0, l, m, p); }
    }
  }

  lemma AnswerTermsRise(l: Node, p: Peer, puts: seq<bool>)
    requires p.requests != [] && |puts| == |p.requests[0].entries| && TermsRise(p.replies)
    requires forall i :: 0 <= i < |p.replies| ==> ReplyInv(l, p.node, p.replies[i])
    ensures TermsRise(Answer(p, puts).replies)
  {
  }

  lemma AnswerLinked(t0: uint32, l: Node, m: nat, p: Peer, puts: seq<bool>)
    requires LeaderInv(t0, l) && Linked(t0, l, m, p) && p.requests != [] && |puts| == |p.requests[0].entries|
    ensures Linked(t0, l, m, Answer(p, puts))
    ensures Accounted(m, Answer(p, puts)) <==> Accounted(m, p) && !(Accepts(p.node, p.requests[0]) && Lossy(puts))
  {
    var p' := Answer(p, puts);
    var q := p.requests[0];
    assert RequestInv(t0, l, m, q);
    AnswerStored(t0, l, m, p, puts);
    forall i | 0 <= i < |p'.replies| ensures ReplyInv(l, p'.node, p'.replies[i]) {
      if i < |p.replies| { assert ReplyInv(l, p.node, p.replies[i]); }
    }
    forall i | 0 <= i < |p'.replies| - 1 ensures !p'.replies[i].carried {
      assert p'.replies[i] == p.replies[i];
    }
    AnswerTermsRise(l, p, puts);
  }

  lemma DeliverRequestInv(t0: uint32, s: System, id: uint32, puts: seq<bool>)
    requires Inv(t0, s) && Enabled(s, DeliverRequest(id, puts))
    ensures Inv(t0, Apply(s, DeliverRequest(id, puts)))
  {
    assert PeerInv(t0, s.leader, id, s.peers[id]);
    AnswerLinked(t0, s.leader, s.leader.proxies[id].matched, s.peers[id], puts);
  }

  // ---------------------------------------------------------------- delivering a reply

  /** A quorum has a member, so the entry after the commit index exists whenever it is read. */
  lemma CommitReadSafe(t0: uint32, l: Node)
    requires LeaderInv(t0, l)
    ensures CommitReadInRange(l)
  {
    if HasQuorum(l) {
      assert Holders(l.proxies, l.commit + 1) != {};
      var id :| id in Holders(l.proxies, l.commit + 1);
      assert ProxyInv(l.log, l.proxies[id]);
    }
  }

  lemma ChangeCommitInv(t0: uint32, l: Node)
    requires LeaderInv(t0, l)
    ensures CommitReadInRange(l) && LeaderInv(t0, ChangeCommit(l)) && Grows(l, ChangeCommit(l))
  {
    CommitReadSafe(t0, l);
  }

  ghost predicate KeepsProxies(l: Node, l': Node) {
    && l'.log == l.log && l'.proxies.Keys == l.proxies.Keys
    && forall id <- l.proxies :: l.proxies[id].matched <= l'.proxies[id].matched
  }

  lemma AckInv(t0: uint32, l: Node, id: uint32, r: AppendR)
    requires LeaderInv(t0, l) && id in l.proxies
    requires r.success && !r.isHeartbeat ==> l.proxies[id].matched + 1 <= LastEntryIndex(l.log)
    ensures var l' := AfterAck(l, id, r); LeaderInv(t0, l') && Grows(l, l') && KeepsProxies(l, l')
  {
    var l' := AfterAck(l, id, r);
    forall i | i in l'.proxies ensures ProxyInv(l'.log, l'.proxies[i]) {
      assert ProxyInv(l.log, l.proxies[i]);
    }
  }

  lemma HandleReplyInv(t0: uint32, l: Node, id: uint32, r: AppendR)
    requires LeaderInv(t0, l) && id in l.proxies
    requires l.term >= r.term && r.success && !r.isHeartbeat ==> l.proxies[id].matched + 1 <= LastEntryIndex(l.log)
    ensures l.term >= r.term ==> LeaderInv(t0, AfterAck(l, id, r)) && CommitReadInRange(AfterAck(l, id, r))
    ensures var l' := HandleReply(l, id, r); LeaderInv(t0, l') && Grows(l, l') && KeepsProxies(l, l')
  {
    if l.term >= r.term {
      AckInv(t0, l, id, r);
      ChangeCommitInv(t0, AfterAck(l, id, r));
    }
  }

  /** The leader's part of delivering a reply. */
  lemma ReplyLeaderInv(t0: uint32, s: System, id: uint32)
    requires Inv(t0, s) && id in s.peers && s.peers[id].replies != []
    ensures id in s.leader.proxies
    ensures var l, r := s.leader, s.peers[id].replies[0].msg;
            && (l.term >= r.term ==> LeaderInv(t0, AfterAck(l, id, r)) && CommitReadInRange(AfterAck(l, id, r)))
            && var l' := HandleReply(l, id, r); LeaderInv(t0, l') && Grows(l, l') && KeepsProxies(l, l')
  {
    var l, p := s.leader, s.peers[id];
    assert PeerInv(t0, l, id, p);
    assert ReplyInv(l, p.node, p.replies[0]);
    HandleReplyInv(t0, l, id, p.replies[0].msg);
  }

  /** Taking a reply that acknowledges nothing off its channel. */
  lemma PopReply(t0: uint32, l: Node, m: nat, p: Peer)
    requires Linked(t0, l, m, p) && p.replies != [] && !(p.replies[0].carried && p.replies[0].msg.success)
    ensures Linked(t0, l, m, p.(replies := p.replies[1..]))
    ensures Accounted(m, p.(replies := p.replies[1..])) <==> Accounted(m, p)
  {
    var p' := p.(replies := p.replies[1..]);
    assert forall i :: 0 <= i < |p'.replies| ==> p'.replies[i] == p.replies[i + 1];
    assert p.replies[0].carried ==> |p.replies| == 1;
  }

  /** Taking an acknowledgement off its channel: it was the only message under way. */
  lemma PopAck(t0: uint32, l: Node, m: nat, p: Peer)
    requires Linked(t0, l, m, p) && p.replies != [] && p.replies[0].carried && p.replies[0].msg.success
    ensures Linked(t0, l, m + 1, p.(replies := p.replies[1..]))
    ensures Accounted(m + 1, p.(replies := p.replies[1..])) <==> Accounted(m, p)
  {
    assert |p.replies| == 1;
  }

  /** Only an acknowledgement moves a match index, its own by one. */
  lemma ReplyMatched(l: Node, id: uint32, r: AppendR)
    requires id in l.proxies && (l.term >= r.term ==> CommitReadInRange(AfterAck(l, id, r)))
    requires r.success ==> r.term <= l.term
    ensures var l' := HandleReply(l, id, r);
            && id in l'.proxies
            && l'.proxies[id].matched == l.proxies[id].matched + if r.success && !r.isHeartbeat then 1 else 0
  {
  }

  /** The match index that the leader keeps once the oldest reply is counted. */
  function Counted(m: nat, p: Peer): nat
    requires p.replies != []
  {
    m + if p.replies[0].msg.success && !p.replies[0].msg.isHeartbeat then 1 else 0
  }

  lemma ReplyLinked(t0: uint32, l: Node, l': Node, m: nat, p: Peer)
    requires Linked(t0, l, m, p) && p.replies != [] && Grows(l, l') && |l'.log| < MAX_LOG
    ensures p.replies[0].msg.success ==> p.replies[0].msg.term <= l.term
    ensures var p' := p.(replies := p.replies[1..]);
            Linked(t0, l', Counted(m, p), p') && (Accounted(Counted(m, p), p') <==> Accounted(m, p))
  {
    var r := p.replies[0];
    assert ReplyInv(l, p.node, r);
    GrowsKeepsLinked(t0, l, l', m, p);
    if r.carried && r.msg.success {
      PopAck(t0, l', m, p);
    } else {
      PopReply(t0, l', m, p);
    }
  }

  /** Counting the oldest reply does not change what the follower has acknowledged in all. */
  lemma ClaimedKept(t0: uint32, l: Node, m: nat, p: Peer)
    requires Linked(t0, l, m, p) && p.replies != []
    ensures Claimed(Counted(m, p), p.(replies := p.replies[1..])) == Claimed(m, p)
  {
    assert ReplyInv(l, p.node, p.replies[0]);
    assert p.replies[0].carried ==> |p.replies| == 1;
  }

  lemma ReplyPeer(t0: uint32, l: Node, l': Node, id: uint32, p: Peer)
    requires PeerInv(t0, l, id, p) && id in l.proxies && p.replies != [] && Grows(l, l') && |l'.log| < MAX_LOG
    requires id in l'.proxies && l'.proxies[id].matched == Counted(l.proxies[id].matched, p)
    ensures var p' := p.(replies := p.replies[1..]);
            && PeerInv(t0, l', id, p')
            && (Accounted(l'.proxies[id].matched, p') <==> Accounted(l.proxies[id].matched, p))
  {
    ReplyLinked(t0, l, l', l.proxies[id].matched, p);
  }

  /** The answering peer's part of delivering a reply. */
  lemma ReplyPeerInv(t0: uint32, s: System, id: uint32)
    requires Inv(t0, s) && id in s.peers && s.peers[id].replies != [] && id in s.leader.proxies
    requires var r := s.peers[id].replies[0].msg;
        s.leader.term >= r.term ==> CommitReadInRange(AfterAck(s.leader, id, r))
    ensures var p := s.peers[id];
            var l', p' := HandleReply(s.leader, id, p.replies[0].msg), p.(replies := p.replies[1..]);
            && PeerInv(t0, l', id, p') && id in l'.proxies
            && (Accounted(l'.proxies[id].matched, p') <==> Accounted(s.leader.proxies[id].matched, p))
  {
    ReplyLeaderInv(t0, s, id);
    var l, p := s.leader, s.peers[id];
    var l' := HandleReply(l, id, p.replies[0].msg);
    assert PeerInv(t0, l, id, p);
    assert ReplyInv(l, p.node, p.replies[0]);
    ReplyMatched(l, id, p.replies[0].msg);
    ReplyPeer(t0, l, l', id, p);
  }

  lemma ReplyElsewhere(l: Node, at: uint32, r: AppendR, id: uint32)
    requires id != at && (l.term >= r.term ==> CommitReadInRange(AfterAck(l, at, r)))
    ensures var l' := HandleReply(l, at, r);
            (id in l'.proxies <==> id in l.proxies) && (id in l.proxies ==> l'.proxies[id] == l.proxies[id])
  {
  }

  /** The other peers' part. */
  lemma ReplyOthersInv(t0: uint32, s: System, at: uint32, id: uint32)
    requires Inv(t0, s) && at in s.peers && s.peers[at].replies != [] && id in s.peers && id != at
    requires var r := s.peers[at].replies[0].msg;
        s.leader.term >= r.term ==> CommitReadInRange(AfterAck(s.leader, at, r))
    ensures PeerInv(t0, HandleReply(s.leader, at, s.peers[at].replies[0].msg), id, s.peers[id])
  {
    ReplyLeaderInv(t0, s, at);
    ReplyElsewhere(s.leader, at, s.peers[at].replies[0].msg, id);
    GrowsKeepsPeer(t0, s.leader, HandleReply(s.leader, at, s.peers[at].replies[0].msg), id, s.peers[id]);
  }

  lemma DeliverReplyInv(t0: uint32, s: System, id: uint32)
    requires Inv(t0, s) && Enabled(s, DeliverReply(id))
    ensures Inv(t0, Apply(s, DeliverReply(id)))
  {
    ReplyLeaderInv(t0, s, id);
    ReplyPeerInv(t0, s, id);
    forall i | i in s.peers && i != id
      ensures PeerInv(t0, HandleReply(s.leader, id, s.peers[id].replies[0].msg), i, s.peers[i])
    {
      ReplyOthersInv(t0, s, id, i);
    }
  }

  // ---------------------------------------------------------------- every step

  lemma RaiseTermLinked(t0: uint32, l: Node, m: nat, p: Peer)
    requires Linked(t0, l, m, p) && p.node.term + 1 < TWO_32
    ensures Linked(t0, l, m, p.(node := RaiseTerm(p.node)))
  {
    var p' := p.(node := RaiseTerm(p.node));
    forall i | 0 <= i < |p'.replies| ensures ReplyInv(l, p'.node, p'.replies[i]) {
      assert ReplyInv(l, p.node, p.replies[i]);
    }
  }

  lemma TimeoutInv(t0: uint32, s: System, id: uint32)
    requires Inv(t0, s) && Enabled(s, Timeout(id))
    ensures Inv(t0, Apply(s, Timeout(id)))
  {
    var p := s.peers[id];
    assert PeerInv(t0, s.leader, id, p);
    if id in s.leader.proxies { RaiseTermLinked(t0, s.leader, s.leader.proxies[id].matched, p); }
  }

  /** Every step of every kind keeps the invariant. */
  lemma StepInv(t0: uint32, s: System, step: Step)
    requires Inv(t0, s) && Enabled(s, step)
    ensures Inv(t0, Apply(s, step))
  {
    match step
    case Handshake(h, putOk, alive) => HandshakeInv(t0, s, h, putOk, alive);
    case Broadcast(alive) => BroadcastKeepsPeers(t0, s, alive);
    case DeliverRequest(id, puts) => DeliverRequestInv(t0, s, id, puts);
    case DeliverReply(id) => DeliverReplyInv(t0, s, id);
    case Timeout(id) => TimeoutInv(t0, s, id);
  }

  /** The invariant holds in every state of every run. */
  lemma {:induction false} RunInv(r: Run, k: nat)
    requires IsRun(r) && k < |r.states|
    ensures Inv(r.t0, r.states[k])
  {
    if k == 0 {
      InitInv(r.t0, r.states[0]);
    } else {
      RunInv(r, k - 1);
      StepInv(r.t0, r.states[k - 1], r.steps[k - 1]);
    }
  }
}
