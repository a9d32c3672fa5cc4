/** The server object: its handlers run in place and are proved equal to the functions of `RaftNode`;
    its class invariant is the agreement of the entries database with the log in memory. */
module RaftServer {
  import opened Words
  import opened Messages
  import opened RaftNode
  import opened Codec
  import opened EntryStore
  import Protobuf
  import opened Replication

  /** The node ids that a log adds. */
  function MemberIds(log: seq<Entry>): set<uint32> {
    set e | e in log && e.etype == CFGADD :: e.nodeId
  }

  lemma MemberIdsSnoc(log: seq<Entry>, e: Entry)
    ensures MemberIds(log + [e]) == MemberIds(log) + if e.etype == CFGADD then {e.nodeId} else {}
  {
    assert forall x :: x in log + [e] <==> x in log || x == e;
  }

  /** A request depends on the node's term, log and commit index, and on the one proxy. */
  lemma RequestIgnores(n: Node, n': Node, p: Proxy)
    requires n.term == n'.term && n.log == n'.log && n.commit == n'.commit && 1 <= p.next
    ensures RequestFor(n, p) == RequestFor(n', p)
  {
  }

  /** A member that loading added has nothing: next 1, match 0, no connection. One that was there keeps its indexes and
      its connection. */
  predicate Loaded(before: map<uint32, Proxy>, proxies: map<uint32, Proxy>, id: uint32)
    requires id in proxies
  {
    var p := proxies[id];
    if id in before
    then p.next == before[id].next && p.matched == before[id].matched && p.connFd == before[id].connFd
    else p.next == 1 && p.matched == 0 && p.connFd == -1 && p.state == IsVoting
  }

  ghost predicate AllLoaded(before: map<uint32, Proxy>, proxies: map<uint32, Proxy>) {
    forall id <- proxies :: Loaded(before, proxies, id)
  }

  lemma LoadedFromNothing(proxies: map<uint32, Proxy>)
    requires AllLoaded(map[], proxies)
    ensures forall id <- proxies :: proxies[id] == Proxy(IsVoting, 1, 0, -1)
  {
    forall id | id in proxies ensures proxies[id] == Proxy(IsVoting, 1, 0, -1) { assert Loaded(map[], proxies, id); }
  }

  lemma LoadedOneMore(before: map<uint32, Proxy>, n: Node, id: uint32)
    requires AllLoaded(before, n.proxies) && before.Keys <= n.proxies.Keys
    ensures AllLoaded(before, RaftNode.AddProxy(n, id).proxies)
  {
  }

  /** The proxies and requests while the loop of `BecomeLeader` has `todo` left. */
  ghost predicate ResetBut(n: Node, last: nat, alive: set<uint32>, todo: set<uint32>, proxies: map<uint32, Proxy>,
      sent: map<uint32, AppendQ>) {
    && todo <= proxies.Keys == n.proxies.Keys
    && (forall id <- proxies :: proxies[id] == if id in todo then n.proxies[id] else ResetProxy(n.proxies[id], last))
    && sent == map id | id in LeadSends(n, last, alive) && id !in todo :: LeadSends(n, last, alive)[id]
  }

  lemma ResetOne(n: Node, last: nat, alive: set<uint32>, todo: set<uint32>, proxies: map<uint32, Proxy>,
      sent: map<uint32, AppendQ>, id: uint32)
    requires ResetBut(n, last, alive, todo, proxies, sent) && id in todo
    ensures var p := ResetProxy(proxies[id], last);
            ResetBut(n, last, alive, todo - {id}, proxies[id := p],
                     if id in alive && p.state == InActive then sent[id := RequestFor(n, p)] else sent)
    ensures proxies[id].state != InActive ==> proxies[id := ResetProxy(proxies[id], last)] == proxies
  {
  }

  class Server {
    var currentTerm: uint32
    var persistedTerm: Option<uint32>
    var commitIndex: uint32
    var role: Role
    var entries: seq<Entry>
    var logs: seq<uint32>            // the deprecated log, terms only
    var proxies: map<uint32, Proxy>
    var entriesDb: EntryDb

    /** No live path fills the deprecated log, and the database holds what the log holds. */
    ghost predicate Valid()
      reads this
    {
      logs == [] && (|entries| <= TWO_31 ==> Agrees(entries, entriesDb))
    }

    function State(): Node
      reads this
    {
      Node(currentTerm, persistedTerm, commitIndex, role, entries, proxies)
    }

    /** Opens the database as it is on disk; nothing is loaded yet. */
    constructor (db: EntryDb)
      ensures State() == FRESH_NODE && logs == [] && entriesDb == db
      ensures db == map[] ==> Valid()
    {
      currentTerm, persistedTerm, commitIndex, role := 0, None, 0, Follower;
      entries, logs, proxies, entriesDb := [], [], map[], db;
      new;
      assert Records([]) == [];
    }

    // -------------------------------------------------------------- role and term

    /** Resets one inactive proxy and sends to it. */
    method ResetAndSend(id: uint32, alive: set<uint32>) returns (q: Option<AppendQ>)
      requires id in proxies && proxies[id].state == InActive
      modifies this`proxies
      ensures proxies == old(proxies)[id := ResetProxy(old(proxies)[id], |logs|)]
      ensures q == if id in alive then Some(RequestFor(old(State()), ResetProxy(old(proxies)[id], |logs|))) else None
    {
      q := None;
      proxies := proxies[id := proxies[id].(next := |logs| + 1, matched := 0)];
      if id in alive {
        var m := SendAppendEntries(id);
        q := Some(m);
      }
    }

    method ResetInactive(alive: set<uint32>) returns (sent: map<uint32, AppendQ>)
      modifies this`proxies
      ensures proxies == Lead(old(State()), |logs|).proxies && sent == LeadSends(old(State()), |logs|, alive)
    {
      sent := map[];
      ghost var n := State();
      var todo := proxies.Keys;
      while todo != {}
        invariant ResetBut(n, |logs|, alive, todo, proxies, sent)
        decreases todo
      {
        var id :| id in todo;
        ResetOne(n, |logs|, alive, todo, proxies, sent, id);
        todo := todo - {id};
        if proxies[id].state == InActive {
          RequestIgnores(State(), n, ResetProxy(proxies[id], |logs|));
          var q := ResetAndSend(id, alive);
          if q.Some? { sent := sent[id := q.value]; }
        }
      }
      assert proxies == Lead(n, |logs|).proxies;
    }

    /** Takes the role, resets every inactive proxy and sends to it; the active ones are skipped. */
    method BecomeLeader(alive: set<uint32>) returns (sent: map<uint32, AppendQ>)
      modifies this`role, this`proxies
      ensures State() == Lead(old(State()), |logs|) && sent == LeadSends(old(State()), |logs|, alive)
    {
      ghost var n := State();
      role := Leader;
      assert Lead(State(), |logs|) == Lead(n, |logs|);
      assert LeadSends(State(), |logs|, alive) == LeadSends(n, |logs|, alive);
      sent := ResetInactive(alive);
    }

    method BecomeFollower()
      modifies this`role
      ensures State() == old(State()).(role := Follower)
    {
      role := Follower;
    }

    method BecomeCandidate()
      modifies this`currentTerm
      ensures State() == RaiseTerm(old(State()))
    {
      currentTerm := U32(currentTerm + 1);
    }

    /** A failed write ends the process, so a call that returns has written. */
    method SetAndPersistTerm(term: uint32)
      modifies this`currentTerm, this`persistedTerm
      ensures State() == old(State()).(term := term, persistedTerm := Some(term))
    {
      persistedTerm := Some(term);
      currentTerm := term;
    }

    // -------------------------------------------------------------- log

    function LogTermByIndex(index: nat): int32
      reads this`logs
    {
      if |logs| < index + 1 then -1 else I32(logs[index])
    }

    /** Serializes the entry, cuts it at the first zero byte, writes it under its decimal index,
        and keeps it in memory only if the write succeeded. */
    method AppendCfgLog(host: seq<byte>, port: uint32, nodeId: uint32, putOk: bool)
      modifies this`entries, this`entriesDb
      ensures State() == AppendCfg(old(State()), host, port, nodeId, putOk)
      ensures var e := CfgEntry(currentTerm, nodeId, port, host);
              entriesDb == if putOk then PutRecord(old(entriesDb), Decimal(U32(old(|entries|))), Record(e))
                  else old(entriesDb)
      ensures old(Valid()) ==> Valid()
    {
      var index := U32(|entries|);
      var e := CfgEntry(currentTerm, nodeId, port, host);
      EntrySizeExact(e);
      var buffer := new byte[EntrySize(e)];
      var end := Protobuf.SerializeEntry(e, buffer, 0, buffer[..], 0, []);
      assert buffer[..] == EncodeEntry(e);
      var value := UpToZero(buffer[..]);
      if putOk {
        if |entries| < TWO_31 && Agrees(entries, entriesDb) { PutKeepsAgreement(entries, entriesDb, e); }
        entriesDb := PutRecord(entriesDb, Decimal(index), value);
        entries := entries + [e];
      }
    }

    /** Parses one record, adds a proxy for a configuration entry, and keeps whatever the parse returned. */
    method LoadOne(value: seq<byte>)
      modifies this`entries, this`proxies
      ensures entries == old(entries) + [Reload(value)]
      ensures proxies == var e := Reload(value);
                         if e.etype == CFGADD then RaftNode.AddProxy(old(State()), e.nodeId).proxies else old(proxies)
    {
      var p := Protobuf.ParseEntry(value);
      if p.value.etype == CFGADD { AddProxy(p.value.nodeId); }
      entries := entries + [p.value];
    }

    /** The iterator visits `keys`. */
    method LoadEntries(keys: seq<int>)
      requires IsIteration(entriesDb, keys)
      modifies this`entries, this`proxies
      ensures entries == ReloadAll(entriesDb, keys)
      ensures proxies.Keys == old(proxies.Keys) + MemberIds(entries) && AllLoaded(old(proxies), proxies)
    {
      entries := [];
      ghost var all := ReloadAll(entriesDb, keys);
      for i := 0 to |keys|
        invariant entries == all[..i]
        invariant proxies.Keys == old(proxies.Keys) + MemberIds(entries) && AllLoaded(old(proxies), proxies)
      {
        var e := Reload(entriesDb[keys[i]]);
        assert all[..i + 1] == all[..i] + [e];
        MemberIdsSnoc(entries, e);
        LoadedOneMore(old(proxies), State(), e.nodeId);
        LoadOne(entriesDb[keys[i]]);
      }
    }

    // -------------------------------------------------------------- proxies

    method AddProxy(id: uint32)
      modifies this`proxies
      ensures State() == RaftNode.AddProxy(old(State()), id)
    {
      if id in proxies {
        proxies := proxies[id := proxies[id].(state := IsVoting)];
      } else {
        proxies := proxies[id := NEW_PROXY];
      }
    }

    method Tie(id: uint32, fd: int)
      requires id in proxies
      modifies this`proxies
      ensures State() == RaftNode.Tie(old(State()), id, fd)
    {
      proxies := proxies[id := proxies[id].(connFd := fd)];
    }

    // -------------------------------------------------------------- sending

    /** Builds the request for one proxy. */
    method SendAppendEntries(id: uint32) returns (q: AppendQ)
      requires id in proxies && 1 <= proxies[id].next
      ensures q == RequestFor(State(), proxies[id])
    {
      var p := proxies[id];
      var prevIndex := U32(p.next - 1);
      var result := EntryTermByIndex(entries, prevIndex);
      var term := 0;
      if result != -1 { term := U32(result); }
      var batch := [];
      if LastEntryIndex(entries) >= p.next {
        if p.next - 1 == 0 { batch := batch + [entries[0]]; }
        batch := batch + [entries[U32(p.next)]];
      }
      q := AppendQ(currentTerm, prevIndex, term, commitIndex, batch);
    }

    method BroadCastAppendEntries(alive: set<uint32>) returns (sent: map<uint32, AppendQ>)
      requires SendableProxies(State())
      ensures sent == BroadcastTo(State(), alive)
    {
      sent := map[];
      var todo := proxies.Keys;
      while todo != {}
        invariant todo <= proxies.Keys
        invariant sent == map id | id in BroadcastTo(State(), alive) && id !in todo :: BroadcastTo(State(), alive)[id]
        decreases todo
      {
        var id :| id in todo;
        todo := todo - {id};
        if proxies[id].state != InActive && id in alive {
          var q := SendAppendEntries(id);
          sent := sent[id := q];
        }
      }
    }

    // -------------------------------------------------------------- handlers

    /** `closed` is the connection that a known node's new one replaces. */
    method HandshakeQ(h: Hello, putOk: bool, alive: set<uint32>)
        returns (result: bool, closed: Option<int>, sent: map<uint32, AppendQ>)
      requires SendableProxies(State())
      modifies this`entries, this`entriesDb, this`proxies
      ensures State() == HandshakeNode(old(State()), h, putOk) && (old(Valid()) ==> Valid())
      ensures sent == HandshakeSends(old(State()), h, putOk, alive)
      ensures result <==> old(role) == Leader
      ensures closed == var fd := ProxyConnFd(old(State()), h.id);
                        if old(role) == Leader && fd != -1 && fd != h.fd then Some(fd) else None
    {
      sent, closed := map[], None;
      if role != Leader { return false, closed, sent; }
      var oldFd := ProxyConnFd(State(), h.id);
      if oldFd != -1 {
        if oldFd != h.fd { closed := Some(oldFd); }
        Tie(h.id, h.fd);
      } else {
        AddProxy(h.id);
        Tie(h.id, h.fd);
        AppendCfgLog(h.host, h.port, h.id, putOk);
        sent := BroadCastAppendEntries(alive);
      }
      result := true;
    }

    /** The conflict loop looks at the deprecated log (and would delete from it), so with that log empty it stops
        at the first entry. */
    method SkipConflicts(q: AppendQ) returns (i: nat)
      ensures i <= |q.entries| && (logs == [] ==> i == 0)
    {
      i := 0;
      while i < |q.entries|
        invariant i <= |q.entries| && (logs == [] ==> i == 0)
      {
        var newIndex := U32(q.prevIndex + 1 + i);
        var existing := LogTermByIndex(newIndex);
        if existing != -1 && existing != I32(q.entries[i].term) && commitIndex < newIndex {
          i := i + 1;
        } else {
          break;
        }
      }
    }

    method AppendNewEntries(q: AppendQ, puts: seq<bool>)
      requires logs == [] && |puts| == |q.entries|
      modifies this`entries, this`entriesDb
      ensures State() == old(State()).(log := AppendBatch(old(entries), currentTerm, q.entries, puts))
      ensures old(Valid()) ==> Valid()
    {
      var i := SkipConflicts(q);
      assert q.entries[0..] == q.entries && puts[0..] == puts;
      while i < |q.entries|
        invariant i <= |q.entries| && (old(Valid()) ==> Valid()) && State() == old(State()).(log := entries)
        invariant AppendBatch(entries, currentTerm, q.entries[i..], puts[i..]) ==
                  AppendBatch(old(entries), currentTerm, q.entries, puts)
      {
        assert q.entries[i..][1..] == q.entries[i + 1..] && puts[i..][1..] == puts[i + 1..];
        var e := q.entries[i];
        if IsCfg(e) { AppendCfgLog(e.host, e.port, e.nodeId, puts[i]); }
        i := i + 1;
      }
    }

    method AdoptTerm(q: AppendQ) returns (stale: bool)
      modifies this`currentTerm, this`persistedTerm, this`role
      ensures State() == TermAfter(old(State()), q) && (stale <==> IsStale(old(State()), q))
    {
      stale := false;
      if role == Candidate && currentTerm == q.term {
        BecomeFollower();
      } else if currentTerm < q.term {
        SetAndPersistTerm(q.term);
        BecomeFollower();
      } else if currentTerm > q.term {
        stale := true;
      }
    }

    method AppendEntriesQ(q: AppendQ, puts: seq<bool>) returns (r: AppendR)
      requires logs == [] && |puts| == |q.entries|
      modifies this
      ensures (State(), r) == HandleAppend(old(State()), q, puts)
      ensures logs == [] && (old(Valid()) ==> Valid())
    {
      var success, isHeartbeat := false, false;
      label respond: {
        var stale := AdoptTerm(q);
        if stale { break respond; }
        if 0 < q.prevIndex {
          var prevTerm := EntryTermByIndex(entries, q.prevIndex);
          if prevTerm == -1 { break respond; }
          if U32(prevTerm) != q.prevTerm { break respond; }
        }
        if |q.entries| == 0 {
          success, isHeartbeat := true, true;
          break respond;
        }
        AppendNewEntries(q, puts);
        success := true;
      }
      if commitIndex < q.leaderCommit {
        var lastNewIndex := U32(q.prevIndex + |q.entries|);
        commitIndex := Min(q.leaderCommit, lastNewIndex);
      }
      r := AppendR(currentTerm, success, isHeartbeat);
    }

    method CountHolders(index: nat) returns (n: nat)
      ensures n == |Holders(proxies, index)|
    {
      n := 0;
      var todo := proxies.Keys;
      ghost var counted: set<uint32> := {};
      while todo != {}
        invariant todo <= proxies.Keys && n == |counted|
        invariant counted == set id | id in proxies && id !in todo && proxies[id].matched >= index
        decreases todo
      {
        var id :| id in todo;
        todo := todo - {id};
        if proxies[id].matched >= index {
          n := n + 1;
          counted := counted + {id};
        }
      }
      assert counted == Holders(proxies, index);
    }

    method ChangeCommitIndex() returns (advanced: bool)
      requires CommitReadInRange(State())
      modifies this`commitIndex
      ensures State() == ChangeCommit(old(State()))
      ensures advanced <==> commitIndex != old(commitIndex)
    {
      var most := |proxies| / 2 + 1;
      var curr := CountHolders(commitIndex + 1);
      if curr >= most && entries[commitIndex + 1].term == currentTerm {
        commitIndex := commitIndex + 1;
        return true;
      }
      return false;
    }

    method AppendEntriesR(id: uint32, r: AppendR)
      requires currentTerm >= r.term ==> CommitReadInRange(AfterAck(State(), id, r))
      modifies this`currentTerm, this`persistedTerm, this`role, this`proxies, this`commitIndex
      ensures State() == HandleReply(old(State()), id, r) && (old(Valid()) ==> Valid())
    {
      if currentTerm < r.term {
        SetAndPersistTerm(r.term);
        BecomeFollower();
        return;
      }
      if r.success && !r.isHeartbeat && id in proxies {
        var p := proxies[id];
        proxies := proxies[id := p.(next := p.next + 1, matched := p.matched + 1)];
      }
      var _ := ChangeCommitIndex();
    }
  }

  lemma OneRecord(db: EntryDb, e: Entry)
    ensures Agrees([e], PutRecord(db, Decimal(0), Record(e))) <==> db.Keys <= {0}
  {
    KeyOfDecimal(0);
    assert Records([e]) == [Record(e)];
    OneHeld(db, Record(e));
  }

  lemma OneHeld(db: EntryDb, record: seq<byte>)
    ensures HoldsRecords([record], db[0 := record]) <==> db.Keys <= {0}
  {
    if HoldsRecords([record], db[0 := record]) {
      forall k | k in db ensures k == 0 { assert k in db[0 := record]; }
    }
  }

  lemma NoRecords(db: EntryDb)
    ensures Agrees([], db) <==> db.Keys <= {}
  {
    assert Records([]) == [];
    if HoldsRecords([], db) {
      forall k ensures k !in db { assert k in db <==> 0 <= k < |Records([])|; }
    }
  }

  /** `start`: a new server leads and logs itself, which is where every run begins. Its log and its database agree
      exactly when the database held nothing that the new entry does not replace. */
  method StartLeader(db: EntryDb, host: seq<byte>, port: uint32, nodeId: uint32, putOk: bool) returns (s: Server)
    ensures fresh(s) && s.State() == AppendCfg(FRESH_NODE.(role := Leader), host, port, nodeId, putOk)
    ensures InitLeader(0, s.State())
    ensures s.logs == [] && (s.Valid() <==> db.Keys <= if putOk then {0} else {})
  {
    s := new Server(db);
    var sent := s.BecomeLeader({});
    assert s.State() == FRESH_NODE.(role := Leader);
    s.AppendCfgLog(host, port, nodeId, putOk);
    if putOk { OneRecord(db, CfgEntry(0, nodeId, port, host)); } else { NoRecords(db); }
  }

  /** `restart`: a new server over the database of one that stopped has the same log exactly when no host has a NUL,
      and a proxy for every member that the loaded log adds. */
  method Restart(stopped: Server, keys: seq<int>) returns (s: Server)
    requires stopped.Valid() && |stopped.entries| <= TWO_31 && IsIteration(stopped.entriesDb, keys)
    requires forall e <- stopped.entries :: |e.host| < TWO_31 && e.writeIt == 0
    ensures fresh(s) && s.proxies.Keys == MemberIds(s.entries)
    ensures forall id <- s.proxies :: s.proxies[id] == Proxy(IsVoting, 1, 0, -1)
    ensures s.entries == stopped.entries <==> forall e <- stopped.entries :: 0 !in e.host
    ensures s.entries == stopped.entries ==> s.Valid()
  {
    s := new Server(stopped.entriesDb);
    s.LoadEntries(keys);
    LoadedFromNothing(s.proxies);
    ReloadsAgreedLog(stopped.entries, stopped.entriesDb, keys);
  }
}
