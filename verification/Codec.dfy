/** The wire form of `entry` and `appendentries_q`. */
module Codec {
  import opened Words
  import opened Messages
  import opened WireFormat

  // ---------------------------------------------------------------- writing

  /** A scalar field: nothing for the default value, else its one-byte tag and a varint. */
  function Field(tag: byte, v: nat): seq<byte> {
    if v == 0 then [] else [tag] + Varint(v)
  }

  /** A negative enumeration value is written as a 64-bit two's complement varint. */
  function EnumBits(v: int32): (r: nat)
    ensures r < 0x1_0000_0000_0000_0000 && (r - v) % 0x1_0000_0000_0000_0000 == 0
  {
    if v >= 0 then v else v + 0x1_0000_0000_0000_0000
  }

  function HostField(host: seq<byte>): seq<byte> {
    if host == [] then [] else [42] + Delimited(host)
  }

  function EncodeEntry(e: Entry): seq<byte> {
    Field(8, EnumBits(e.etype)) + Field(16, e.term) + Field(24, e.nodeId) + Field(32, e.port) + HostField(e.host)
    + Field(48, e.writeIt)
  }

  function EncodeEntries(es: seq<Entry>): seq<byte> {
    if es == [] then [] else [42] + Delimited(EncodeEntry(es[0])) + EncodeEntries(es[1..])
  }

  function EncodeAppendQ(q: AppendQ): seq<byte> {
    Field(8, q.term) + Field(16, q.prevIndex) + Field(24, q.prevTerm) + Field(32, q.leaderCommit) +
        EncodeEntries(q.entries)
  }

  // ---------------------------------------------------------------- reading

  /** A parse keeps what it merged before it failed; callers ignore `ok`. */
  datatype Parsed<+T> = Parsed(ok: bool, value: T)

  const NO_ENTRY := Entry(0, 0, 0, 0, [], 0)
  const NO_APPEND := AppendQ(0, 0, 0, 0, [])

  predicate EntryScalar(tag: uint32) {
    tag == 8 || tag == 16 || tag == 24 || tag == 32 || tag == 48
  }

  function SetEntry(e: Entry, tag: uint32, v: nat): Entry {
    if tag == 8 then e.(etype := I32(U32(v)))
    else if tag == 16 then e.(term := U32(v))
    else if tag == 24 then e.(nodeId := U32(v))
    else if tag == 32 then e.(port := U32(v))
    else e.(writeIt := U32(v))
  }

  /** Reading one field: a failure, or the message so far and the number of bytes read. */
  datatype FieldRead<+T> = Fail(value: T) | Next(value: T, used: nat)

  /** Reads the field at the front of `s` into `e`. */
  function EntryField(e: Entry, s: seq<byte>): (r: FieldRead<Entry>)
    ensures r.Next? ==> 0 < r.used <= |s|
  {
    match ReadVarint(s, MAX_VARINT_BYTES)
    case None => Fail(e)
    case Some((raw, k)) =>
      var tag, rest := U32(raw), s[k..];
      if EntryScalar(tag) then
        match ReadVarint(rest, MAX_VARINT_BYTES)
        case None => Fail(e)
        case Some((v, j)) => Next(SetEntry(e, tag, v), k + j)
      else if tag == 42 then
        match ReadBytes(rest)
        case None => Fail(e)
        case Some((b, j)) => if ValidUtf8(b) then Next(e.(host := b), k + j) else Fail(e.(host := b))
      else
        match SkipField(tag, rest)
        case None => Fail(e)
        case Some(j) => Next(e, k + j)
  }

  /** Merges the fields in `s` into `e`, later fields over earlier ones. */
  function MergeEntry(e: Entry, s: seq<byte>): Parsed<Entry>
    decreases |s|
  {
    if s == [] then Parsed(true, e)
    else
      match EntryField(e, s)
      case Fail(v) => Parsed(false, v)
      case Next(v, k) => MergeEntry(v, s[k..])
  }

  predicate AppendScalar(tag: uint32) {
    tag == 8 || tag == 16 || tag == 24 || tag == 32
  }

  function SetAppend(q: AppendQ, tag: uint32, v: nat): AppendQ {
    if tag == 8 then q.(term := U32(v))
    else if tag == 16 then q.(prevIndex := U32(v))
    else if tag == 24 then q.(prevTerm := U32(v))
    else q.(leaderCommit := U32(v))
  }

  function AppendField(q: AppendQ, s: seq<byte>): (r: FieldRead<AppendQ>)
    ensures r.Next? ==> 0 < r.used <= |s|
  {
    match ReadVarint(s, MAX_VARINT_BYTES)
    case None => Fail(q)
    case Some((raw, k)) =>
      var tag, rest := U32(raw), s[k..];
      if AppendScalar(tag) then
        match ReadVarint(rest, MAX_VARINT_BYTES)
        case None => Fail(q)
        case Some((v, j)) => Next(SetAppend(q, tag, v), k + j)
      else if tag == 42 then
        match ReadBytes(rest)
        case None => Fail(q.(entries := q.entries + [NO_ENTRY]))
        case Some((b, j)) =>
          var p := MergeEntry(NO_ENTRY, b);
          var q1 := q.(entries := q.entries + [p.value]);
          if p.ok then Next(q1, k + j) else Fail(q1)
      else
        match SkipField(tag, rest)
        case None => Fail(q)
        case Some(j) => Next(q, k + j)
  }

  function MergeAppendQ(q: AppendQ, s: seq<byte>): Parsed<AppendQ>
    decreases |s|
  {
    if s == [] then Parsed(true, q)
    else
      match AppendField(q, s)
      case Fail(v) => Parsed(false, v)
      case Next(v, k) => MergeAppendQ(v, s[k..])
  }

  // ---------------------------------------------------------------- entry round trip

  /** Protobuf records are shorter than 2^31 bytes. */
  predicate Encodable(e: Entry) {
    |e.host| < TWO_31 && |EncodeEntry(e)| < TWO_31
  }

  lemma TagRead(tag: byte, s: seq<byte>)
    requires tag < 128
    ensures ReadVarint([tag] + s, MAX_VARINT_BYTES) == Some((tag, 1)) && ([tag] + s)[1..] == s && [tag] + s != []
  {
  }

  lemma ScalarRead(v: nat, rest: seq<byte>)
    requires v < 0x1_0000_0000_0000_0000
    ensures ReadVarint(Varint(v) + rest, MAX_VARINT_BYTES) == Some((v, |Varint(v)|)) &&
        (Varint(v) + rest)[|Varint(v)|..] == rest
  {
    SixtyFourBits(v);
    VarintRoundTrip(v, rest, MAX_VARINT_BYTES);
  }

  lemma MergeField(e: Entry, tag: byte, v: nat, rest: seq<byte>)
    requires EntryScalar(tag) && v < 0x1_0000_0000_0000_0000
    ensures MergeEntry(e, Field(tag, v) + rest) == MergeEntry(if v == 0 then e else SetEntry(e, tag, v), rest)
  {
    if v == 0 {
      assert Field(tag, v) + rest == rest;
    } else {
      assert Field(tag, v) + rest == [tag] + (Varint(v) + rest);
      TagRead(tag, Varint(v) + rest);
      ScalarRead(v, rest);
      assert (Field(tag, v) + rest)[1 + |Varint(v)|..] == rest;
    }
  }

  lemma MergeHost(e: Entry, host: seq<byte>, rest: seq<byte>)
    requires |host| < TWO_31 && e.host == []
    ensures MergeEntry(e, HostField(host) + rest) ==
            if ValidUtf8(host) then MergeEntry(e.(host := host), rest) else Parsed(false, e.(host := host))
  {
    if host == [] {
      assert HostField(host) + rest == rest;
    } else {
      assert HostField(host) + rest == [42] + (Delimited(host) + rest);
      TagRead(42, Delimited(host) + rest);
      DelimitedRoundTrip(host, rest);
      assert (HostField(host) + rest)[1 + |Delimited(host)|..] == rest;
    }
  }

  /** The fields before the host. */
  function EntryHead(e: Entry): seq<byte> {
    Field(8, EnumBits(e.etype)) + Field(16, e.term) + Field(24, e.nodeId) + Field(32, e.port)
  }

  lemma EnumRoundTrip(v: int32)
    ensures I32(U32(EnumBits(v))) == v && (EnumBits(v) == 0 <==> v == 0)
  {
  }

  lemma MergeHead(e: Entry, rest: seq<byte>)
    ensures MergeEntry(NO_ENTRY, EntryHead(e) + rest) ==
        MergeEntry(Entry(e.etype, e.term, e.nodeId, e.port, [], 0), rest)
  {
    EnumRoundTrip(e.etype);
    var f1, f2, f3, f4 := Field(8, EnumBits(e.etype)), Field(16, e.term), Field(24, e.nodeId), Field(32, e.port);
    assert EntryHead(e) + rest == f1 + (f2 + (f3 + (f4 + rest)));
    MergeField(NO_ENTRY, 8, EnumBits(e.etype), f2 + (f3 + (f4 + rest)));
    MergeField(Entry(e.etype, 0, 0, 0, [], 0), 16, e.term, f3 + (f4 + rest));
    MergeField(Entry(e.etype, e.term, 0, 0, [], 0), 24, e.nodeId, f4 + rest);
    MergeField(Entry(e.etype, e.term, e.nodeId, 0, [], 0), 32, e.port, rest);
  }

  /** Parsing a serialized entry succeeds exactly when its host is valid UTF-8, and then returns the entry.
      Otherwise the fields up to the host are still set. */
  lemma EntryRoundTrip(e: Entry)
    requires |e.host| < TWO_31
    ensures MergeEntry(NO_ENTRY, EncodeEntry(e)) ==
            if ValidUtf8(e.host) then Parsed(true, e) else Parsed(false, e.(writeIt := 0))
  {
    var tail := Field(48, e.writeIt);
    assert EncodeEntry(e) == EntryHead(e) + (HostField(e.host) + tail);
    MergeHead(e, HostField(e.host) + tail);
    MergeHost(Entry(e.etype, e.term, e.nodeId, e.port, [], 0), e.host, tail);
    assert tail == tail + [];
    MergeField(Entry(e.etype, e.term, e.nodeId, e.port, e.host, 0), 48, e.writeIt, []);
  }

  // ---------------------------------------------------------------- request round trip

  ghost predicate AllValid(es: seq<Entry>) {
    forall e <- es :: ValidUtf8(e.host)
  }

  lemma MergeAppendField(q: AppendQ, tag: byte, v: uint32, rest: seq<byte>)
    requires AppendScalar(tag)
    ensures MergeAppendQ(q, Field(tag, v) + rest) == MergeAppendQ(if v == 0 then q else SetAppend(q, tag, v), rest)
  {
    if v == 0 {
      assert Field(tag, v) + rest == rest;
    } else {
      assert Field(tag, v) + rest == [tag] + (Varint(v) + rest);
      TagRead(tag, Varint(v) + rest);
      ScalarRead(v, rest);
      assert (Field(tag, v) + rest)[1 + |Varint(v)|..] == rest;
    }
  }

  lemma MergeRecord(q: AppendQ, b: seq<byte>, rest: seq<byte>)
    requires |b| < TWO_31
    ensures var p := MergeEntry(NO_ENTRY, b);
            var q1 := q.(entries := q.entries + [p.value]);
            MergeAppendQ(q, [42] + Delimited(b) + rest) == if p.ok then MergeAppendQ(q1, rest) else Parsed(false, q1)
  {
    assert [42] + Delimited(b) + rest == [42] + (Delimited(b) + rest);
    TagRead(42, Delimited(b) + rest);
    DelimitedRoundTrip(b, rest);
    assert ([42] + Delimited(b) + rest)[1 + |Delimited(b)|..] == rest;
  }

  lemma MergeOneEntry(q: AppendQ, e: Entry, rest: seq<byte>)
    requires Encodable(e)
    ensures MergeAppendQ(q, [42] + Delimited(EncodeEntry(e)) + rest) ==
            if ValidUtf8(e.host) then MergeAppendQ(q.(entries := q.entries + [e]), rest)
            else Parsed(false, q.(entries := q.entries + [e.(writeIt := 0)]))
  {
    EntryRoundTrip(e);
    var b := EncodeEntry(e);
    MergeRecord(q, b, rest);
  }

  lemma AllValidCons(e: Entry, es: seq<Entry>)
    ensures AllValid([e] + es) <==> ValidUtf8(e.host) && AllValid(es)
  {
    assert forall x :: x in [e] + es <==> x == e || x in es;
  }

  lemma {:induction false} MergeEntries(q: AppendQ, es: seq<Entry>)
    requires forall e <- es :: Encodable(e)
    ensures var p := MergeAppendQ(q, EncodeEntries(es));
            (p.ok <==> AllValid(es)) && (p.ok ==> p.value == q.(entries := q.entries + es))
    decreases |es|
  {
    if es == [] {
      assert q.entries + es == q.entries;
    } else {
      var e, rest := es[0], es[1..];
      assert es == [e] + rest && q.entries + [e] + rest == q.entries + es;
      AllValidCons(e, rest);
      MergeOneEntry(q, e, EncodeEntries(rest));
      if ValidUtf8(e.host) { MergeEntries(q.(entries := q.entries + [e]), rest); }
    }
  }

  lemma MergeAppendHead(q: AppendQ, rest: seq<byte>)
    ensures MergeAppendQ(NO_APPEND,
        Field(8, q.term) + Field(16, q.prevIndex) + Field(24, q.prevTerm) + Field(32, q.leaderCommit) + rest)
         == MergeAppendQ(q.(entries := []), rest)
  {
    var f1, f2, f3, f4 := Field(8, q.term), Field(16, q.prevIndex), Field(24, q.prevTerm), Field(32, q.leaderCommit);
    assert f1 + f2 + f3 + f4 + rest == f1 + (f2 + (f3 + (f4 + rest)));
    MergeAppendField(NO_APPEND, 8, q.term, f2 + (f3 + (f4 + rest)));
    MergeAppendField(AppendQ(q.term, 0, 0, 0, []), 16, q.prevIndex, f3 + (f4 + rest));
    MergeAppendField(AppendQ(q.term, q.prevIndex, 0, 0, []), 24, q.prevTerm, f4 + rest);
    MergeAppendField(AppendQ(q.term, q.prevIndex, q.prevTerm, 0, []), 32, q.leaderCommit, rest);
  }

  /** Parsing a serialized request, with any number of nested entries, succeeds exactly when every host is valid
      UTF-8, and then returns the request. */
  lemma AppendQRoundTrip(q: AppendQ)
    requires forall e <- q.entries :: Encodable(e)
    ensures var p := MergeAppendQ(NO_APPEND, EncodeAppendQ(q));
            (p.ok <==> AllValid(q.entries)) && (p.ok ==> p.value == q)
  {
    MergeAppendHead(q, EncodeEntries(q.entries));
    MergeEntries(q.(entries := []), q.entries);
    assert [] + q.entries == q.entries;
  }

  // ---------------------------------------------------------------- sizes

  function FieldSize(v: nat): nat {
    if v == 0 then 0 else 1 + VarintSize(v)
  }

  /** `entry::ByteSizeLong`: the host first, then the scalars. */
  function EntrySize(e: Entry): nat {
    (if e.host == [] then 0 else 1 + VarintSize(|e.host|) + |e.host|)
    + FieldSize(EnumBits(e.etype)) + FieldSize(e.term) + FieldSize(e.nodeId) + FieldSize(e.port) + FieldSize(e.writeIt)
  }

  lemma {:induction false} VarintLength(n: nat)
    ensures |Varint(n)| == VarintSize(n)
  {
    VarintRoundTrip(n, [], VarintSize(n));
  }

  lemma FieldLength(tag: byte, v: nat)
    ensures |Field(tag, v)| == FieldSize(v)
  {
    VarintLength(v);
  }

  /** `ByteSizeLong` is the number of bytes the serializer writes. */
  lemma EntrySizeExact(e: Entry)
    ensures EntrySize(e) == |EncodeEntry(e)|
  {
    FieldLength(8, EnumBits(e.etype));
    FieldLength(16, e.term);
    FieldLength(24, e.nodeId);
    FieldLength(32, e.port);
    FieldLength(48, e.writeIt);
    VarintLength(|e.host|);
  }

  // ---------------------------------------------------------------- zero bytes

  lemma FieldHasNoZero(tag: byte, v: nat)
    requires tag > 0
    ensures 0 !in Field(tag, v)
  {
    if v > 0 { VarintHasNoZero(v); }
  }

  lemma HeadHasNoZero(e: Entry)
    ensures 0 !in EntryHead(e)
  {
    FieldHasNoZero(8, EnumBits(e.etype));
    FieldHasNoZero(16, e.term);
    FieldHasNoZero(24, e.nodeId);
    FieldHasNoZero(32, e.port);
  }

  /** A serialized entry has a zero byte exactly when its host has one: zero fields are omitted and varints are
      minimal. */
  lemma ZeroOnlyInHost(e: Entry)
    ensures 0 in EncodeEntry(e) <==> 0 in e.host
  {
    HeadHasNoZero(e);
    FieldHasNoZero(48, e.writeIt);
    assert EncodeEntry(e) == EntryHead(e) + HostField(e.host) + Field(48, e.writeIt);
    if e.host != [] {
      VarintHasNoZero(|e.host|);
      assert HostField(e.host) == [42] + (Varint(|e.host|) + e.host);
    }
  }
}
