/** Where the protocol's promises end: exact conditions on one handler call. */
module Limits {
  import opened Words
  import opened Messages
  import opened RaftNode
  import opened Replication
  import opened Invariant

  ghost predicate DistinctIds(log: seq<Entry>) {
    forall i, j :: 0 <= i < j < |log| ==> log[i].nodeId != log[j].nodeId
  }

  /** Why no request may be sent while an entry-carrying exchange is outstanding: an accepted batch for next index `n`
      keeps the follower's log a prefix of the leader's if and only if the follower holds exactly the entries before it.
      Nothing in the handler checks that, because the conflict loop looks at a log that is always empty. */
  lemma BatchFitsExactly(full: seq<Entry>, log: seq<Entry>, term: uint32, next: nat)
    requires |full| < MAX_LOG && 1 <= next <= LastEntryIndex(full)
    requires DistinctIds(full) && (forall e <- full :: e.etype == CFGADD && e.writeIt == 0)
    requires BodyPrefix(log, full)
    ensures var batch := BatchFor(full, next);
            BodyPrefix(AppendBatch(log, term, batch, AllOk(|batch|)), full) <==> |log| == Held(next - 1)
  {
    var batch := BatchFor(full, next);
    AppendAllOk(log, term, batch);
    var log' := AppendBatch(log, term, batch, AllOk(|batch|));
    if BodyPrefix(log', full) {
      assert SameBody(log'[|log'| - 1], full[|log'| - 1]);
      assert log'[|log'| - 1].nodeId == full[next].nodeId;
    }
  }

  /** The first batch delivered twice: the follower ends with four entries where the leader has two. */
  lemma RepeatedFirstBatch(a: Entry, b: Entry)
    requires IsCfg(a) && IsCfg(b) && a.term == 0 && b.term == 0
    ensures var q := AppendQ(0, 0, 0, 0, [a, b]);
            var (once, r1) := HandleAppend(FRESH_NODE, q, [true, true]);
            var (twice, r2) := HandleAppend(once, q, [true, true]);
            && r1.success && r2.success
            && once.log == [Restamp(0, a), Restamp(0, b)] && twice.log == once.log + once.log
  {
    var q := AppendQ(0, 0, 0, 0, [a, b]);
    var once := HandleAppend(FRESH_NODE, q, [true, true]).0;
    TwoEntries([], 0, [a, b], [true, true]);
    TwoEntries(once.log, 0, [a, b], [true, true]);
    Associate(once.log, [Restamp(0, a)], [Restamp(0, b)]);
  }

  ghost function Succeeded(batch: seq<Entry>, puts: seq<bool>): nat
    requires |puts| == |batch|
  {
    if batch == [] then 0
    else (if IsCfg(batch[0]) && puts[0] then 1 else 0) + Succeeded(batch[1..], puts[1..])
  }

  lemma {:induction false} BatchLength(log: seq<Entry>, term: uint32, batch: seq<Entry>, puts: seq<bool>)
    requires |puts| == |batch|
    ensures |AppendBatch(log, term, batch, puts)| == |log| + Succeeded(batch, puts)
    ensures Succeeded(batch, puts) <= |batch|
    ensures Succeeded(batch, puts) == |batch| <==> forall i :: 0 <= i < |batch| ==> IsCfg(batch[i]) && puts[i]
    decreases |batch|
  {
    if batch != [] {
      var log1 := if IsCfg(batch[0]) && puts[0] then log + [Restamp(term, batch[0])] else log;
      BatchLength(log1, term, batch[1..], puts[1..]);
      assert forall i :: 1 <= i < |batch| ==> batch[i] == batch[1..][i - 1] && puts[i] == puts[1..][i - 1];
    }
  }

  /** A batch with its own entries, except that they carry the given term. */
  function WithTerm(term: uint32, batch: seq<Entry>): seq<Entry> {
    seq(|batch|, i requires 0 <= i < |batch| => batch[i].(term := term))
  }

  /** An entry that the follower stores as it was sent, when the write succeeds. */
  predicate IsPlainAdd(e: Entry) {
    e.etype == CFGADD && e.writeIt == 0
  }

  lemma RestampKeeps(term: uint32, batch: seq<Entry>)
    ensures Restamped(term, batch) == WithTerm(term, batch) <==> forall i :: 0 <= i < |batch| ==> IsPlainAdd(batch[i])
  {
    forall i | 0 <= i < |batch|
      ensures Restamped(term, batch)[i] == WithTerm(term, batch)[i] <==> IsPlainAdd(batch[i])
    {
    }
    if Restamped(term, batch) == WithTerm(term, batch) {
      forall i | 0 <= i < |batch| ensures IsPlainAdd(batch[i]) {
        assert Restamped(term, batch)[i] == WithTerm(term, batch)[i];
      }
    }
  }

  /** A success reply does not depend on what is written, but what it acknowledges does: the log gains the batch as it
      was sent, except for the follower's term, if and only if every entry is an addition without other payload and
      every write succeeded. */
  lemma AcknowledgedMeansStored(n: Node, q: AppendQ, puts: seq<bool>)
    requires |puts| == |q.entries| && Accepts(n, q)
    ensures var (n', r) := HandleAppend(n, q, puts);
            && r.success
            && (n'.log == n.log + WithTerm(n'.term, q.entries) <==>
                  forall i :: 0 <= i < |puts| ==> IsPlainAdd(q.entries[i]) && puts[i])
  {
    var term := TermAfter(n, q).term;
    var log' := AppendBatch(n.log, term, q.entries, puts);
    BatchLength(n.log, term, q.entries, puts);
    if forall i :: 0 <= i < |puts| ==> IsCfg(q.entries[i]) && puts[i] {
      LossyOrAllOk(puts);
      AppendAllOk(n.log, term, q.entries);
      RestampKeeps(term, q.entries);
      assert log'[|n.log|..] == Restamped(term, q.entries);
    }
  }

  /** A removal is acknowledged, and stored as an addition of the node to be removed. */
  lemma RemovalStoredAsAddition(e: Entry)
    requires e.etype == CFGREM && e.term == 0
    ensures var (n', r) := HandleAppend(FRESH_NODE, AppendQ(0, 0, 0, 0, [e]), [true]);
            r.success && n'.log == [CfgEntry(0, e.nodeId, e.port, e.host)] && n'.log[0].etype == CFGADD != e.etype
  {
    OneEntry([], 0, [e], [true]);
  }
}
