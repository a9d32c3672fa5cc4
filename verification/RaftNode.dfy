/** One Raft node as a value, and each message handler as a function on it.
    The class in RaftServer.dfy runs the handlers in place and is proved equal to these. */
module RaftNode {
  import opened Words
  import opened Messages

  datatype Role = NoRole | Candidate | Follower | Leader

  datatype ProxyState = IsVoting | SufficientLog | InActive

  /** What a node remembers about one other node: the next index to send, the highest index
      known to be stored there, and the descriptor of the tied connection (-1 when untied). */
  datatype Proxy = Proxy(state: ProxyState, next: nat, matched: nat, connFd: int)

  datatype Node = Node(
    term: uint32,
    persistedTerm: Option<uint32>,
    commit: uint32,
    role: Role,
    log: seq<Entry>,
    proxies: map<uint32, Proxy>)

  const NEW_PROXY := Proxy(IsVoting, 1, 0, -1)

  const FRESH_NODE := Node(0, None, 0, Follower, [], map[])

  /** The entry that `AppendCfgLog` builds: always of type CFGADD, stamped with the node's own term. */
  function CfgEntry(term: uint32, nodeId: uint32, port: uint32, host: seq<byte>): Entry {
    Entry(CFGADD, term, nodeId, port, host, 0)
  }

  function LastEntryIndex(log: seq<Entry>): nat {
    if log == [] then 0 else |log| - 1
  }

  /** The term stored at an index as a C `int`; -1 when the index is past the end.
      A stored term of 2^32-1 also reads as -1. */
  function EntryTermByIndex(log: seq<Entry>, index: nat): int32 {
    if |log| < index + 1 then -1 else I32(log[index].term)
  }

  // ---------------------------------------------------------------- leader: requests

  /** The entries a request carries for a proxy whose next index is `next`: none when the proxy is
      up to date, entries 0 and 1 together for a proxy that has nothing, otherwise entry `next`. */
  function BatchFor(log: seq<Entry>, next: nat): seq<Entry>
    requires 1 <= next
  {
    if LastEntryIndex(log) >= next
    then (if next == 1 then [log[0]] else []) + [log[U32(next)]]
    else []
  }

  function RequestFor(n: Node, p: Proxy): AppendQ
    requires 1 <= p.next
  {
    var prevTerm := EntryTermByIndex(n.log, U32(p.next - 1));
    AppendQ(n.term, U32(p.next - 1), if prevTerm == -1 then 0 else U32(prevTerm), n.commit, BatchFor(n.log, p.next))
  }

  predicate SendableProxies(n: Node) {
    forall id <- n.proxies :: 1 <= n.proxies[id].next
  }

  /** One request for every active proxy whose connection is alive. */
  function BroadcastTo(n: Node, alive: set<uint32>): map<uint32, AppendQ>
    requires SendableProxies(n)
  {
    map id | id in n.proxies && id in alive && n.proxies[id].state != InActive :: RequestFor(n, n.proxies[id])
  }

  /** The proxy as a node that becomes leader leaves it: only an inactive one is reset, to one past the last index of
      the deprecated log. */
  function ResetProxy(p: Proxy, lastLog: nat): Proxy {
    if p.state == InActive then p.(next := lastLog + 1, matched := 0) else p
  }

  function Lead(n: Node, lastLog: nat): Node {
    n.(role := Leader, proxies := map id | id in n.proxies :: ResetProxy(n.proxies[id], lastLog))
  }

  /** The requests that becoming leader sends: one to every inactive proxy whose connection is alive. */
  function LeadSends(n: Node, lastLog: nat, alive: set<uint32>): map<uint32, AppendQ> {
    map id | id in n.proxies && id in alive && n.proxies[id].state == InActive ::
      RequestFor(n, ResetProxy(n.proxies[id], lastLog))
  }

  // ---------------------------------------------------------------- leader: membership

  function AppendCfg(n: Node, host: seq<byte>, port: uint32, nodeId: uint32, putOk: bool): Node {
    if putOk then n.(log := n.log + [CfgEntry(n.term, nodeId, port, host)]) else n
  }

  function AddProxy(n: Node, id: uint32): Node {
    if id in n.proxies
    then n.(proxies := n.proxies[id := n.proxies[id].(state := IsVoting)])
    else n.(proxies := n.proxies[id := NEW_PROXY])
  }

  function Tie(n: Node, id: uint32, fd: int): Node
    requires id in n.proxies
  {
    n.(proxies := n.proxies[id := n.proxies[id].(connFd := fd)])
  }

  function ProxyConnFd(n: Node, id: uint32): int {
    if id in n.proxies then n.proxies[id].connFd else -1
  }

  datatype Hello = Hello(fd: nat, id: uint32, port: uint32, host: seq<byte>)

  predicate IsFreshHello(n: Node, h: Hello) {
    n.role == Leader && ProxyConnFd(n, h.id) == -1
  }

  /** The node after a handshake request. */
  function HandshakeNode(n: Node, h: Hello, putOk: bool): Node {
    if n.role != Leader then n
    else if ProxyConnFd(n, h.id) != -1 then Tie(n, h.id, h.fd)
    else AppendCfg(Tie(AddProxy(n, h.id), h.id, h.fd), h.host, h.port, h.id, putOk)
  }

  /** The requests that a handshake makes the leader send. */
  function HandshakeSends(n: Node, h: Hello, putOk: bool, alive: set<uint32>): map<uint32, AppendQ>
    requires SendableProxies(n)
  {
    if IsFreshHello(n, h) then BroadcastTo(HandshakeNode(n, h, putOk), alive) else map[]
  }

  // ---------------------------------------------------------------- follower

  predicate IsStale(n: Node, q: AppendQ) {
    n.term > q.term
  }

  predicate PrevMatches(log: seq<Entry>, q: AppendQ) {
    q.prevIndex == 0 ||
    (EntryTermByIndex(log, q.prevIndex) != -1 && U32(EntryTermByIndex(log, q.prevIndex)) == q.prevTerm)
  }

  predicate Accepts(n: Node, q: AppendQ) {
    !IsStale(n, q) && PrevMatches(n.log, q)
  }

  predicate IsCfg(e: Entry) {
    e.etype == CFGADD || e.etype == CFGREM
  }

  /** What the follower writes for a received entry. */
  function Restamp(term: uint32, e: Entry): Entry {
    CfgEntry(term, e.nodeId, e.port, e.host)
  }

  function Restamped(term: uint32, batch: seq<Entry>): seq<Entry> {
    seq(|batch|, i requires 0 <= i < |batch| => Restamp(term, batch[i]))
  }

  /** Appends the configuration entries of a batch whose write to the database succeeded. */
  function AppendBatch(log: seq<Entry>, term: uint32, batch: seq<Entry>, puts: seq<bool>): seq<Entry>
    requires |puts| == |batch|
    decreases |batch|
  {
    if batch == [] then log
    else
      var log1 := if IsCfg(batch[0]) && puts[0] then log + [Restamp(term, batch[0])] else log;
      AppendBatch(log1, term, batch[1..], puts[1..])
  }

  function TermAfter(n: Node, q: AppendQ): Node {
    if n.role == Candidate && n.term == q.term then n.(role := Follower)
    else if n.term < q.term then n.(term := q.term, persistedTerm := Some(q.term), role := Follower)
    else n
  }

  function CommitAfter(commit: uint32, q: AppendQ): uint32 {
    if commit < q.leaderCommit then Min(q.leaderCommit, U32(q.prevIndex + |q.entries|)) else commit
  }

  function HandleAppend(n: Node, q: AppendQ, puts: seq<bool>): (Node, AppendR)
    requires |puts| == |q.entries|
  {
    var n1 := TermAfter(n, q);
    var ok := Accepts(n, q);
    var log := if ok then AppendBatch(n.log, n1.term, q.entries, puts) else n.log;
    (n1.(log := log, commit := CommitAfter(n.commit, q)), AppendR(n1.term, ok, ok && q.entries == []))
  }

  /** The election timer raises the term by one, unless the 32-bit counter wraps to zero; nothing else changes. */
  function RaiseTerm(n: Node): (n': Node)
    ensures n.term + 1 < TWO_32 ==> n'.term == n.term + 1
    ensures n.term + 1 == TWO_32 ==> n'.term == 0
    ensures n'.(term := n.term) == n
  {
    n.(term := U32(n.term + 1))
  }

  // ---------------------------------------------------------------- leader: replies

  function StepDown(n: Node, term: uint32): Node {
    n.(term := term, persistedTerm := Some(term), role := Follower)
  }

  function Acknowledge(n: Node, id: uint32): Node {
    if id in n.proxies
    then
      var p := n.proxies[id];
      n.(proxies := n.proxies[id := p.(next := p.next + 1, matched := p.matched + 1)])
    else n
  }

  /** The proxies whose node is known to store index `i`. */
  function Holders(proxies: map<uint32, Proxy>, i: nat): set<uint32> {
    set id | id in proxies && proxies[id].matched >= i
  }

  function QuorumSize(members: nat): nat {
    members / 2 + 1
  }

  predicate HasQuorum(n: Node) {
    |Holders(n.proxies, n.commit + 1)| >= QuorumSize(|n.proxies|)
  }

  /** Whenever a quorum lets the code read the entry after the commit index, that entry exists. */
  predicate CommitReadInRange(n: Node) {
    HasQuorum(n) ==> n.commit + 1 < |n.log| && n.commit + 1 < TWO_32
  }

  function ChangeCommit(n: Node): Node
    requires CommitReadInRange(n)
  {
    if HasQuorum(n) && n.log[n.commit + 1].term == n.term then n.(commit := n.commit + 1) else n
  }

  function AfterAck(n: Node, id: uint32, r: AppendR): Node {
    if r.success && !r.isHeartbeat then Acknowledge(n, id) else n
  }

  function HandleReply(n: Node, id: uint32, r: AppendR): Node
    requires n.term >= r.term ==> CommitReadInRange(AfterAck(n, id, r))
  {
    if n.term < r.term then StepDown(n, r.term) else ChangeCommit(AfterAck(n, id, r))
  }
}
