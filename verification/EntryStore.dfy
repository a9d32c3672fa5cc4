/** The entries database: decimal keys, their order, and the records stored under them. */
module EntryStore {
  import opened Words
  import opened Messages
  import opened WireFormat
  import opened Codec

  // ---------------------------------------------------------------- keys

  const DIGITS := "0123456789"

  /** `std::to_string` of an index. */
  function Decimal(n: nat): (s: string)
    ensures s != []
  {
    if n < 10 then [DIGITS[n]] else Decimal(n / 10) + [DIGITS[n % 10]]
  }

  predicate IsDigit(c: char) {
    '0' <= c <= '9'
  }

  predicate AllDigits(s: string) {
    forall i :: 0 <= i < |s| ==> IsDigit(s[i])
  }

  function DigitValue(c: char): (d: nat)
    requires IsDigit(c)
  {
    c as int - '0' as int
  }

  /** The number spelled by the digits at the front of `s`, continuing from `acc`. */
  function ReadDigits(acc: nat, s: string): nat
    decreases |s|
  {
    if s == [] || !IsDigit(s[0]) then acc else ReadDigits(10 * acc + DigitValue(s[0]), s[1..])
  }

  /** Reading a key into an `int`: a number that does not fit reads as the largest `int`. */
  function KeyIndex(s: string): int32 {
    Min(ReadDigits(0, s), TWO_31 - 1)
  }

  function CompareKeys(a: string, b: string): int {
    if KeyIndex(a) < KeyIndex(b) then -1 else if KeyIndex(a) > KeyIndex(b) then 1 else 0
  }

  lemma {:induction false} ReadDigitsSnoc(acc: nat, s: string, c: char)
    requires AllDigits(s) && IsDigit(c)
    ensures ReadDigits(acc, s + [c]) == 10 * ReadDigits(acc, s) + DigitValue(c)
    decreases |s|
  {
    if s == [] {
      assert s + [c] == [c];
      assert ReadDigits(acc, [c]) == ReadDigits(10 * acc + DigitValue(c), [c][1..]);
    } else {
      assert (s + [c])[0] == s[0] && (s + [c])[1..] == s[1..] + [c];
      ReadDigitsSnoc(10 * acc + DigitValue(s[0]), s[1..], c);
    }
  }

  lemma {:induction false} DecimalReads(n: nat)
    ensures AllDigits(Decimal(n)) && ReadDigits(0, Decimal(n)) == n
  {
    if n < 10 {
      assert Decimal(n)[1..] == [];
      assert DIGITS[n] as int == '0' as int + n;
    } else {
      DecimalReads(n / 10);
      var c := DIGITS[n % 10];
      assert c as int == '0' as int + n % 10;
      ReadDigitsSnoc(0, Decimal(n / 10), c);
    }
  }

  /** A key has no leading zero, so an index has one key only. */
  lemma {:induction false} NoLeadingZero(n: nat)
    requires n > 0
    ensures Decimal(n)[0] != '0'
  {
    if n >= 10 { NoLeadingZero(n / 10); }
  }

  /** Decimal keys compare as numbers, up to the largest `int`; from there on all keys compare equal. */
  lemma KeysCompareAsNumbers(i: nat, j: nat)
    requires i < j
    ensures CompareKeys(Decimal(i), Decimal(j)) == (if i < TWO_31 - 1 then -1 else 0)
    ensures CompareKeys(Decimal(j), Decimal(i)) == (if i < TWO_31 - 1 then 1 else 0)
  {
    KeyOfDecimal(i);
    KeyOfDecimal(j);
  }

  // ---------------------------------------------------------------- records

  /** What `strlen` sees of a NUL-terminated copy of `s`. */
  function UpToZero(s: seq<byte>): (r: seq<byte>)
    ensures 0 !in r
    ensures 0 !in s ==> r == s
  {
    if s == [] || s[0] == 0 then [] else [s[0]] + UpToZero(s[1..])
  }

  /** The record written for an entry: its serialized bytes up to the first zero byte. */
  function Record(e: Entry): seq<byte> {
    UpToZero(EncodeEntry(e))
  }

  lemma {:induction false} FirstZero(a: seq<byte>, b: seq<byte>)
    requires 0 !in a
    ensures UpToZero(a + [0] + b) == a
    decreases |a|
  {
    var s := a + [0] + b;
    if a == [] {
      assert s[0] == 0;
    } else {
      assert s[0] == a[0] && s[1..] == a[1..] + [0] + b;
      FirstZero(a[1..], b);
    }
  }

  lemma {:induction false} SplitAtZero(s: seq<byte>) returns (rest: seq<byte>)
    requires 0 in s
    ensures s == UpToZero(s) + [0] + rest
  {
    if s[0] == 0 {
      rest := s[1..];
    } else {
      assert s == [s[0]] + s[1..];
      rest := SplitAtZero(s[1..]);
    }
  }

  lemma {:induction false} UpToZeroShort(s: seq<byte>)
    ensures |UpToZero(s)| <= |s| && (|UpToZero(s)| < |s| <==> 0 in s)
  {
    if s != [] && s[0] != 0 {
      UpToZeroShort(s[1..]);
      assert s == [s[0]] + s[1..];
    }
  }

  /** The record is the whole serialized entry exactly when the host has no NUL. */
  lemma RecordComplete(e: Entry)
    ensures Record(e) == EncodeEntry(e) <==> 0 !in e.host
  {
    ZeroOnlyInHost(e);
    UpToZeroShort(EncodeEntry(e));
  }

  lemma Regroup(head: seq<byte>, front: seq<byte>, cut: seq<byte>, rest: seq<byte>, tail: seq<byte>)
    ensures head + (front + (cut + [0] + rest)) + tail == (head + (front + cut)) + [0] + (rest + tail)
  {
  }

  lemma CutInside(head: seq<byte>, front: seq<byte>, host: seq<byte>, tail: seq<byte>)
    requires 0 !in head && 0 !in front && 0 in host
    ensures UpToZero(head + (front + host) + tail) == head + (front + UpToZero(host))
  {
    var rest := SplitAtZero(host);
    Regroup(head, front, UpToZero(host), rest, tail);
    FirstZero(head + (front + UpToZero(host)), rest + tail);
  }

  lemma CutRecord(e: Entry)
    requires 0 in e.host
    ensures Record(e) == EntryHead(e) + ([42] + (Varint(|e.host|) + UpToZero(e.host)))
  {
    HeadHasNoZero(e);
    VarintHasNoZero(|e.host|);
    var len := Varint(|e.host|);
    CutInside(EntryHead(e), [42] + len, e.host, Field(48, e.writeIt));
    Associate([42], len, e.host);
    Associate([42], len, UpToZero(e.host));
  }

  /** With a NUL in the host the record is cut inside the host, and reading it back loses the host. */
  lemma CutRecordLosesHost(e: Entry)
    requires |e.host| < TWO_31 && 0 in e.host
    ensures MergeEntry(NO_ENTRY, Record(e)) == Parsed(false, Entry(e.etype, e.term, e.nodeId, e.port, [], 0))
  {
    CutRecord(e);
    UpToZeroShort(e.host);
    var rest := Varint(|e.host|) + UpToZero(e.host);
    MergeHead(e, [42] + rest);
    TagRead(42, rest);
    TruncatedRecord(|e.host|, UpToZero(e.host));
  }

  /** What reading a record back returns. */
  function Reload(r: seq<byte>): Entry {
    MergeEntry(NO_ENTRY, r).value
  }

  /** An entry survives the database exactly when its host has no NUL. */
  lemma ReloadExact(e: Entry)
    requires |e.host| < TWO_31 && e.writeIt == 0
    ensures Reload(Record(e)) == e <==> 0 !in e.host
  {
    RecordComplete(e);
    EntryRoundTrip(e);
    if 0 in e.host { CutRecordLosesHost(e); }
  }

  // ---------------------------------------------------------------- database

  /** The database as its comparator sees it: keys that compare equal are one key. */
  type EntryDb = map<int, seq<byte>>

  function PutRecord(db: EntryDb, key: string, value: seq<byte>): EntryDb {
    db[KeyIndex(key) := value]
  }

  function Records(log: seq<Entry>): (r: seq<seq<byte>>)
    ensures |r| == |log| && forall i :: 0 <= i < |log| ==> r[i] == Record(log[i])
  {
    seq(|log|, i requires 0 <= i < |log| => Record(log[i]))
  }

  /** The database holds exactly these records, each under its index. */
  ghost predicate HoldsRecords(records: seq<seq<byte>>, db: EntryDb) {
    && (forall i :: i in db <==> 0 <= i < |records|)
    && forall i :: 0 <= i < |records| ==> db[i] == records[i]
  }

  ghost predicate Agrees(log: seq<Entry>, db: EntryDb) {
    HoldsRecords(Records(log), db)
  }

  lemma KeyOfDecimal(n: nat)
    ensures KeyIndex(Decimal(n)) == Min(n, TWO_31 - 1)
  {
    DecimalReads(n);
  }

  lemma SetHolds(records: seq<seq<byte>>, db: EntryDb, record: seq<byte>, k: int)
    requires HoldsRecords(records, db) && k == Min(|records|, TWO_31 - 1)
    ensures HoldsRecords(records + [record], db[k := record]) <==> |records| < TWO_31
  {
    if |records| >= TWO_31 {
      assert |records| !in db[k := record];
    }
  }

  lemma RecordsSnoc(log: seq<Entry>, e: Entry)
    ensures Records(log + [e]) == Records(log) + [Record(e)]
  {
  }

  /** Writing the next entry keeps the agreement exactly while the index fits an `int`. */
  lemma PutKeepsAgreement(log: seq<Entry>, db: EntryDb, e: Entry)
    requires Agrees(log, db)
    ensures Agrees(log + [e], PutRecord(db, Decimal(|log|), Record(e))) <==> |log| < TWO_31
  {
    RecordsSnoc(log, e);
    KeyOfDecimal(|log|);
    SetHolds(Records(log), db, Record(e), KeyIndex(Decimal(|log|)));
  }

  /** The order in which an iterator visits the keys. */
  ghost predicate IsIteration(db: EntryDb, keys: seq<int>) {
    && (forall k :: k in keys <==> k in db)
    && (forall i :: 0 <= i < |keys| ==> keys[i] in db)
    && forall i, j :: 0 <= i < j < |keys| ==> keys[i] < keys[j]
  }

  /** An iterator visits the keys 0 to n-1 in index order, exactly once each. */
  lemma {:induction false} AscendingFromZero(keys: seq<int>, n: nat)
    requires (forall k :: k in keys <==> 0 <= k < n) && (forall a, b :: 0 <= a < b < |keys| ==> keys[a] < keys[b])
    ensures |keys| == n && forall i :: 0 <= i < n ==> keys[i] == i
  {
    assert keys != [] ==> keys[0] in keys;
    if n > 0 {
      LastIsLargest(keys, n);
      var front := keys[..|keys| - 1];
      forall k ensures k in front <==> 0 <= k < n - 1 {
        if 0 <= k < n - 1 {
          assert k in keys;
          var j :| 0 <= j < |keys| && keys[j] == k;
          assert front[j] == k;
        }
      }
      AscendingFromZero(front, n - 1);
      assert forall i :: 0 <= i < n - 1 ==> front[i] == keys[i];
    }
  }

  lemma LastIsLargest(keys: seq<int>, n: nat)
    requires n > 0 && (forall k :: k in keys <==> 0 <= k < n) &&
        (forall a, b :: 0 <= a < b < |keys| ==> keys[a] < keys[b])
    ensures keys != [] && keys[|keys| - 1] == n - 1
  {
    assert n - 1 in keys;
    var j :| 0 <= j < |keys| && keys[j] == n - 1;
    assert keys[|keys| - 1] in keys;
  }

  /** An iterator visits an agreeing database in index order. */
  lemma IterationIsIndexOrder(log: seq<Entry>, db: EntryDb, keys: seq<int>)
    requires Agrees(log, db) && IsIteration(db, keys)
    ensures |keys| == |log| && forall i :: 0 <= i < |keys| ==> keys[i] == i
  {
    AscendingFromZero(keys, |log|);
  }

  // ---------------------------------------------------------------- any sequence of appends

  datatype Attempt = Attempt(entry: Entry, putOk: bool)

  /** The log and the database after a sequence of append attempts, each of whose writes may fail. */
  function Replay(attempts: seq<Attempt>): (seq<Entry>, EntryDb) {
    if attempts == [] then ([], map[])
    else
      var (log, db) := Replay(attempts[..|attempts| - 1]);
      var a := attempts[|attempts| - 1];
      if a.putOk then (log + [a.entry], PutRecord(db, Decimal(U32(|log|)), Record(a.entry))) else (log, db)
  }

  lemma {:induction false} ReplayAgrees(attempts: seq<Attempt>)
    ensures var (log, db) := Replay(attempts); |log| <= TWO_31 ==> Agrees(log, db)
  {
    if attempts != [] {
      ReplayAgrees(attempts[..|attempts| - 1]);
      var (log, db) := Replay(attempts[..|attempts| - 1]);
      if |log| < TWO_31 { PutKeepsAgreement(log, db, attempts[|attempts| - 1].entry); }
    }
  }

  function ReloadAll(db: EntryDb, keys: seq<int>): (r: seq<Entry>)
    requires forall i :: 0 <= i < |keys| ==> keys[i] in db
    ensures |r| == |keys|
  {
    seq(|keys|, i requires 0 <= i < |keys| => Reload(db[keys[i]]))
  }

  /** Iterating an agreeing database rebuilds the log exactly when no host has a NUL. */
  lemma ReloadsAgreedLog(log: seq<Entry>, db: EntryDb, keys: seq<int>)
    requires Agrees(log, db) && IsIteration(db, keys)
    requires forall e <- log :: |e.host| < TWO_31 && e.writeIt == 0
    ensures ReloadAll(db, keys) == log <==> forall e <- log :: 0 !in e.host
  {
    IterationIsIndexOrder(log, db, keys);
    var back := ReloadAll(db, keys);
    forall i | 0 <= i < |log| ensures back[i] == log[i] <==> 0 !in log[i].host {
      ReloadExact(log[i]);
    }
    if back == log {
      forall e | e in log ensures 0 !in e.host {
        var i :| 0 <= i < |log| && log[i] == e;
      }
    }
  }

  /** Whatever writes succeeded or failed, iterating the database rebuilds the in-memory log, exactly when no host
      has a NUL, for every log of at most 2^31 configuration entries. */
  lemma RestartRebuildsLog(attempts: seq<Attempt>, keys: seq<int>)
    requires var (log, db) := Replay(attempts); |log| <= TWO_31 && IsIteration(db, keys)
    requires forall e <- Replay(attempts).0 :: |e.host| < TWO_31 && e.writeIt == 0
    ensures var (log, db) := Replay(attempts);
            ReloadAll(db, keys) == log <==> forall e <- log :: 0 !in e.host
  {
    var (log, db) := Replay(attempts);
    ReplayAgrees(attempts);
    ReloadsAgreedLog(log, db, keys);
  }
}
