/** What each handler does, said without its body: what a request says, when it is accepted, what it makes known,
    when a reply commits, and what a handshake leaves. */
module Laws {
  import opened Words
  import opened Messages
  import opened RaftNode
  import opened Replication
  import opened Invariant
  import opened Growth
  import opened Writes
  import opened CommitSafety

  function Max(a: int, b: int): int {
    if a < b then b else a
  }

  // ---------------------------------------------------------------- what a request says

  /** A request that a leader sends to a member with acknowledged index `m`: its own term and commit index, the term of
      the entry at `m`, and exactly the entries that take the member from what it has acknowledged to one index more, or
      none when there is no more. */
  ghost predicate Says(t0: uint32, l: Node, m: nat, q: AppendQ) {
    && q.term == l.term && q.leaderCommit == l.commit && q.prevIndex == m
    && (0 < m < |l.log| && t0 != TWO_32 - 1 ==> q.prevTerm == l.log[m].term)
    && m <= LastEntryIndex(l.log)
    && l.log[..Held(m)] + q.entries == l.log[..if m < LastEntryIndex(l.log) then Held(m + 1) else Held(m)]
  }

  lemma RequestSays(t0: uint32, l: Node, px: Proxy)
    requires LeaderInv(t0, l) && ProxyInv(l.log, px)
    ensures Says(t0, l, px.matched, RequestFor(l, px))
  {
    var m, q := px.matched, RequestFor(l, px);
    if 0 < m {
      assert OwnEntry(t0, l.log[m]);
      if m < LastEntryIndex(l.log) { assert l.log[..m + 2] == l.log[..m + 1] + [l.log[m + 1]]; }
    } else if 0 < LastEntryIndex(l.log) {
      assert l.log[..2] == [l.log[0], l.log[1]];
    }
  }

  /** The members that a step writes a request to: the open connections at a broadcast, or at a join. */
  ghost predicate Addressed(s: System, step: Step, id: uint32) {
    match step
    case Broadcast(alive) => id in s.leader.proxies && id in alive
    case Handshake(h, _, alive) => IsFreshHello(s.leader, h) && (id in s.leader.proxies || id == h.id) && id in alive
    case _ => false
  }

  lemma SendAllAt(peers: map<uint32, Peer>, sent: map<uint32, AppendQ>, id: uint32)
    requires id in peers
    ensures SendAll(peers, sent)[id] ==
            if id in sent then peers[id].(requests := peers[id].requests + [sent[id]]) else peers[id]
  {
  }

  /** A broadcast addresses exactly the proxies that are not inactive and whose connection is open. */
  lemma BroadcastMeans(n: Node, alive: set<uint32>, id: uint32)
    requires SendableProxies(n)
    ensures id in BroadcastTo(n, alive) <==> id in n.proxies && id in alive && n.proxies[id].state != InActive
  {
  }

  lemma BroadcastSays(t0: uint32, l: Node, alive: set<uint32>, id: uint32)
    requires LeaderInv(t0, l) && SendableProxies(l)
    ensures id in BroadcastTo(l, alive) <==> id in l.proxies && id in alive
    ensures id in BroadcastTo(l, alive) ==> Says(t0, l, l.proxies[id].matched, BroadcastTo(l, alive)[id])
  {
    if id in l.proxies {
      assert ProxyInv(l.log, l.proxies[id]);
      RequestSays(t0, l, l.proxies[id]);
    }
  }

  /** One request arrives behind what is in flight, and says what the leader is. */
  ghost predicate GotOne(t0: uint32, l: Node, id: uint32, p: Peer, p': Peer) {
    && id in l.proxies && |p'.requests| == |p.requests| + 1 && p.requests <= p'.requests
    && Says(t0, l, l.proxies[id].matched, p'.requests[|p.requests|])
  }

  lemma BroadcastGets(t0: uint32, l: Node, peers: map<uint32, Peer>, alive: set<uint32>, id: uint32)
    requires LeaderInv(t0, l) && SendableProxies(l) && id in peers
    ensures var p' := SendAll(peers, BroadcastTo(l, alive))[id];
            if id in l.proxies && id in alive then GotOne(t0, l, id, peers[id], p') else p' == peers[id]
  {
    BroadcastSays(t0, l, alive, id);
    SendAllAt(peers, BroadcastTo(l, alive), id);
  }

  lemma JoinGets(t0: uint32, s: System, step: Step, id: uint32)
    requires Inv(t0, s) && Enabled(s, step) && step.Handshake? && id in s.peers
    ensures var s' := Apply(s, step);
            if Addressed(s, step, id) then GotOne(t0, s'.leader, id, s.peers[id], s'.peers[id])
            else s'.peers[id] == s.peers[id]
  {
    var h := step.hello;
    if IsFreshHello(s.leader, h) {
      JoinLeaderInv(t0, s.leader, h, step.putOk);
      BroadcastGets(t0, HandshakeNode(s.leader, h, step.putOk), s.peers, step.alive, id);
    } else {
      SendAllAt(s.peers, map[], id);
    }
  }

  /** Exactly the members addressed get a request, one each; it says what the leader is after the step. Every other step
      only takes requests off. */
  lemma SentSays(t0: uint32, s: System, step: Step, id: uint32)
    requires Inv(t0, s) && Enabled(s, step) && id in s.peers
    ensures var s' := Apply(s, step);
            if Addressed(s, step, id) then GotOne(t0, s'.leader, id, s.peers[id], s'.peers[id])
            else |s'.peers[id].requests| <= |s.peers[id].requests|
  {
    if step.Handshake? { JoinGets(t0, s, step, id); }
    if step.Broadcast? { BroadcastGets(t0, s.leader, s.peers, step.alive, id); }
  }

  // ---------------------------------------------------------------- when a request is accepted, and what follows

  /** A request is accepted if and only if its term is not behind and, unless it is for an empty log, the log holds an
      entry with its previous term at its previous index; an entry of term 2^32-1 counts as missing. */
  lemma AcceptedMeans(n: Node, q: AppendQ, puts: seq<bool>)
    requires |puts| == |q.entries|
    ensures var (n', r) := HandleAppend(n, q, puts);
            && (r.success <==>
                  && q.term >= n.term
                  && (q.prevIndex == 0 ||
                      (q.prevIndex < |n.log| && n.log[q.prevIndex].term == q.prevTerm && q.prevTerm != TWO_32 - 1)))
            && (r.isHeartbeat <==> r.success && q.entries == [])
            && (!r.success ==> n'.log == n.log)
  {
  }

  /** The term becomes the later of the two and is persisted whenever it changes; a node that adopts a term follows. */
  lemma TermMeans(n: Node, q: AppendQ, puts: seq<bool>)
    requires |puts| == |q.entries|
    ensures var (n', r) := HandleAppend(n, q, puts);
            && n'.term == Max(n.term, q.term) == r.term
            && (n'.term != n.term ==> n'.persistedTerm == Some(n'.term))
            && (n'.term == n.term ==> n'.persistedTerm == n.persistedTerm)
            && (n'.role == if n.term < q.term || (n.term == q.term && n.role == Candidate) then Follower else n.role)
            && n'.proxies == n.proxies
  {
  }

  /** Batches are appended entry by entry. */
  lemma {:induction false} BatchesConcat(
      log: seq<Entry>, term: uint32, a: seq<Entry>, b: seq<Entry>, x: seq<bool>, y: seq<bool>)
    requires |x| == |a| && |y| == |b|
    ensures AppendBatch(log, term, a + b, x + y) == AppendBatch(AppendBatch(log, term, a, x), term, b, y)
    decreases |a|
  {
    if a == [] {
      assert a + b == b && x + y == y;
    } else {
      assert (a + b)[1..] == a[1..] + b && (x + y)[1..] == x[1..] + y;
      BatchesConcat(if IsCfg(a[0]) && x[0] then log + [Restamp(term, a[0])] else log, term, a[1..], b, x[1..], y);
    }
  }

  /** A single entry is stored as an addition by this node's term, if it is a configuration entry and its write
      succeeds. */
  lemma SingleEntry(log: seq<Entry>, term: uint32, e: Entry, put: bool)
    ensures AppendBatch(log, term, [e], [put]) ==
            if (e.etype == CFGADD || e.etype == CFGREM) && put
            then log + [Entry(CFGADD, term, e.nodeId, e.port, e.host, 0)] else log
  {
    assert [e][1..] == [];
  }

  /** In a run the commit index becomes the largest of what it was and what the request makes known: the committed part
      of the indexes up to where the request ends. */
  lemma CommitMeans(t0: uint32, s: System, id: uint32, puts: seq<bool>)
    requires Inv(t0, s) && Enabled(s, DeliverRequest(id, puts))
    ensures var n, n' := s.peers[id].node, Apply(s, DeliverRequest(id, puts)).peers[id].node;
            var q := s.peers[id].requests[0];
            n'.commit == Max(n.commit, Min(q.leaderCommit, q.prevIndex + |q.entries|))
  {
    assert PeerInv(t0, s.leader, id, s.peers[id]);
    assert RequestInv(t0, s.leader, s.leader.proxies[id].matched, s.peers[id].requests[0]);
  }

  /** So a follower that holds what it acknowledged, accepts and writes everything then knows as committed all that it
      stores and the request declares committed. */
  lemma KnowsCommitted(t0: uint32, s: System, id: uint32, puts: seq<bool>)
    requires Inv(t0, s) && Whole(s, id) && Enabled(s, DeliverRequest(id, puts))
    requires Accepts(s.peers[id].node, s.peers[id].requests[0]) && !Lossy(puts)
    ensures var q, n' := s.peers[id].requests[0], Apply(s, DeliverRequest(id, puts)).peers[id].node;
            n'.commit >= Min(q.leaderCommit, LastEntryIndex(n'.log))
  {
    var l, p := s.leader, s.peers[id];
    assert PeerInv(t0, l, id, p);
    var m := l.proxies[id].matched;
    assert RequestInv(t0, l, m, p.requests[0]);
    CommitMeans(t0, s, id, puts);
    LossyOrAllOk(puts);
    if p.requests[0].entries != [] { AcceptedBatch(t0, l, m, p); }
  }

  // ---------------------------------------------------------------- when a reply commits

  /** A reply from a node: a later term is adopted, persisted and ends the role; otherwise an acknowledged batch counts
      one index for that member and for no other. */
  lemma ReplyMeans(l: Node, id: uint32, r: AppendR)
    requires l.term >= r.term ==> CommitReadInRange(AfterAck(l, id, r))
    ensures var l' := HandleReply(l, id, r);
            && l'.log == l.log && l'.proxies.Keys == l.proxies.Keys && l'.term == Max(l.term, r.term)
            && (r.term > l.term ==>
                  && l'.role == Follower && l'.persistedTerm == Some(r.term)
                  && l'.commit == l.commit && l'.proxies == l.proxies)
            && (r.term <= l.term ==> l'.role == l.role && l'.persistedTerm == l.persistedTerm)
            && forall i <- l.proxies ::
                 var one := if i == id && r.success && !r.isHeartbeat && r.term <= l.term then 1 else 0;
                 && l'.proxies[i].next == l.proxies[i].next + one && l'.proxies[i].matched == l.proxies[i].matched + one
                 && l'.proxies[i].state == l.proxies[i].state && l'.proxies[i].connFd == l.proxies[i].connFd
  {
  }

  /** The members that have acknowledged an index past the commit index. */
  ghost function PastCommit(proxies: map<uint32, Proxy>, commit: nat): set<uint32> {
    set i | i in proxies && proxies[i].matched > commit
  }

  lemma ChangeCommitsExactly(t0: uint32, l: Node)
    requires LeaderInv(t0, l) && CommitReadInRange(l) && l.role == Leader
    ensures ChangeCommit(l).commit ==
            l.commit + if 2 * |PastCommit(l.proxies, l.commit)| > |l.proxies.Keys| then 1 else 0
  {
    assert Holders(l.proxies, l.commit + 1) == PastCommit(l.proxies, l.commit);
    assert |l.proxies| == |l.proxies.Keys|;
    if HasQuorum(l) { assert OwnEntry(t0, l.log[l.commit + 1]); }
  }

  /** The commit rule, exactly: while the leader leads, every reply, of whatever kind, advances the commit index by one
      if more than half of the members have then acknowledged a later index, and otherwise leaves it. */
  lemma CommitsExactly(t0: uint32, s: System, id: uint32)
    requires Inv(t0, s) && Enabled(s, DeliverReply(id)) && Apply(s, DeliverReply(id)).leader.role == Leader
    ensures var l, l' := s.leader, Apply(s, DeliverReply(id)).leader;
            l'.commit == l.commit + if 2 * |PastCommit(l'.proxies, l.commit)| > |l'.proxies.Keys| then 1 else 0
  {
    ReplyLeaderInv(t0, s, id);
    var l, r := s.leader, s.peers[id].replies[0].msg;
    assert HandleReply(l, id, r) == ChangeCommit(AfterAck(l, id, r));
    ChangeCommitsExactly(t0, AfterAck(l, id, r));
  }

  // ---------------------------------------------------------------- membership

  /** Adding a proxy: a known one keeps its indexes and its connection and votes again, a new one starts from
      nothing. */
  lemma AddProxyMeans(n: Node, id: uint32)
    ensures var n' := RaftNode.AddProxy(n, id);
            && n'.(proxies := n.proxies) == n && n'.proxies.Keys == n.proxies.Keys + {id}
            && (forall i <- n.proxies :: i != id ==> n'.proxies[i] == n.proxies[i])
            && n'.proxies[id].state == IsVoting
            && (if id in n.proxies
                then n'.proxies[id].next == n.proxies[id].next && n'.proxies[id].matched == n.proxies[id].matched &&
                     n'.proxies[id].connFd == n.proxies[id].connFd
                else n'.proxies[id].next == 1 && n'.proxies[id].matched == 0 && n'.proxies[id].connFd == -1)
  {
  }

  /** A handshake that a leader serves ties the node's proxy to the connection it came by, known or not. Only a node
      without a connection is added, logged if the write succeeds, and broadcast. Anybody else is left as it is. */
  lemma HandshakeMeans(n: Node, h: Hello, putOk: bool)
    ensures var n' := HandshakeNode(n, h, putOk);
            && n'.(proxies := n.proxies, log := n.log) == n
            && (n.role != Leader ==> n' == n)
            && (n.role == Leader ==>
                  && n'.proxies.Keys == n.proxies.Keys + {h.id} && n'.proxies[h.id].connFd == h.fd
                  && (forall i <- n.proxies :: i != h.id ==> n'.proxies[i] == n.proxies[i])
                  && (h.id in n.proxies ==>
                        && n'.proxies[h.id].next == n.proxies[h.id].next
                        && n'.proxies[h.id].matched == n.proxies[h.id].matched)
                  && (h.id !in n.proxies ==> n'.proxies[h.id].next == 1 && n'.proxies[h.id].matched == 0)
                  && n'.log == n.log + if (h.id !in n.proxies || n.proxies[h.id].connFd == -1) && putOk
                                       then [Entry(CFGADD, n.term, h.id, h.port, h.host, 0)] else [])
  {
  }

  /** Becoming leader: exactly the inactive proxies restart behind the deprecated log, and exactly those with a live
      connection are sent a request. */
  lemma LeadMeans(n: Node, lastLog: nat, alive: set<uint32>)
    ensures var n' := Lead(n, lastLog);
            && n'.role == Leader && n'.(proxies := n.proxies, role := n.role) == n && n'.proxies.Keys == n.proxies.Keys
            && forall i <- n.proxies ::
                 if n.proxies[i].state == InActive
                 then n'.proxies[i] == Proxy(InActive, lastLog + 1, 0, n.proxies[i].connFd)
                 else n'.proxies[i] == n.proxies[i]
    ensures LeadSends(n, lastLog, alive).Keys == set i | i in n.proxies && i in alive && n.proxies[i].state == InActive
  {
  }
}
