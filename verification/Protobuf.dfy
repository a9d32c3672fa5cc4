/** The generated serializer and parser, as they run: bytes written into a buffer at an advancing position,
    and fields merged in a loop over tags. Each is proved against the functions of `Codec`. */
module Protobuf {
  import opened Words
  import opened Messages
  import opened WireFormat
  import opened Codec

  // ---------------------------------------------------------------- writing into a buffer

  /** `buf` is `s` with `done` written over it from position `start`, and `at` is where the next byte goes. */
  ghost predicate Written(buf: array<byte>, s: seq<byte>, start: nat, done: seq<byte>, at: nat)
    reads buf
  {
    && start + |done| == at <= buf.Length == |s|
    && buf[..start] == s[..start] && buf[start..at] == done && buf[at..] == s[at..]
  }

  method WriteByte(b: byte, buf: array<byte>, at: nat, ghost s: seq<byte>, ghost start: nat, ghost done: seq<byte>)
      returns (end: nat)
    requires Written(buf, s, start, done, at) && at < buf.Length
    modifies buf
    ensures Written(buf, s, start, done + [b], end)
  {
    buf[at] := b;
    end := at + 1;
    assert buf[start..end] == buf[start..at] + [buf[at]];
    assert buf[end..] == old(buf[at..])[1..] && s[end..] == s[at..][1..];
  }

  method WriteVarint(n: nat, buf: array<byte>, at: nat, ghost s: seq<byte>, ghost start: nat, ghost done: seq<byte>)
      returns (end: nat)
    requires Written(buf, s, start, done, at) && at + |Varint(n)| <= buf.Length
    modifies buf
    ensures Written(buf, s, start, done + Varint(n), end)
  {
    var m := n;
    end := at;
    ghost var sofar: seq<byte> := done;
    while m >= 128
      invariant Written(buf, s, start, sofar, end) && end + |Varint(m)| <= buf.Length
      invariant sofar + Varint(m) == done + Varint(n)
    {
      ghost var low: byte := 128 + m % 128;
      assert Varint(m) == [low] + Varint(m / 128);
      Associate(sofar, [low], Varint(m / 128));
      end := WriteByte(128 + m % 128, buf, end, s, start, sofar);
      sofar, m := sofar + [low], m / 128;
    }
    end := WriteByte(m, buf, end, s, start, sofar);
  }

  method WriteBytes(b: seq<byte>, buf: array<byte>, at: nat, ghost s: seq<byte>, ghost start: nat,
      ghost done: seq<byte>)
      returns (end: nat)
    requires Written(buf, s, start, done, at) && at + |b| <= buf.Length
    modifies buf
    ensures Written(buf, s, start, done + b, end)
  {
    end := at;
    assert done + b[..0] == done;
    for i := 0 to |b|
      invariant Written(buf, s, start, done + b[..i], end)
    {
      assert done + b[..i] + [b[i]] == done + b[..i + 1];
      end := WriteByte(b[i], buf, end, s, start, done + b[..i]);
    }
    assert b[..|b|] == b;
  }

  method WriteField(tag: byte, v: nat, buf: array<byte>, at: nat, ghost s: seq<byte>, ghost start: nat,
      ghost done: seq<byte>)
      returns (end: nat)
    requires Written(buf, s, start, done, at) && at + |Field(tag, v)| <= buf.Length
    modifies buf
    ensures Written(buf, s, start, done + Field(tag, v), end)
  {
    end := at;
    if v != 0 {
      end := WriteByte(tag, buf, end, s, start, done);
      end := WriteVarint(v, buf, end, s, start, done + [tag]);
      Associate(done, [tag], Varint(v));
    } else {
      assert done + Field(tag, v) == done;
    }
  }

  method WriteHost(host: seq<byte>, buf: array<byte>, at: nat, ghost s: seq<byte>, ghost start: nat,
      ghost done: seq<byte>)
      returns (end: nat)
    requires Written(buf, s, start, done, at) && at + |HostField(host)| <= buf.Length
    modifies buf
    ensures Written(buf, s, start, done + HostField(host), end)
  {
    end := at;
    if |host| > 0 {
      end := WriteByte(42, buf, end, s, start, done);
      end := WriteVarint(|host|, buf, end, s, start, done + [42]);
      end := WriteBytes(host, buf, end, s, start, done + [42] + Varint(|host|));
      Associate(done, [42], Varint(|host|));
      Associate(done, [42] + Varint(|host|), host);
      Associate([42], Varint(|host|), host);
    } else {
      assert done + HostField(host) == done;
    }
  }

  lemma AssociateFields(done: seq<byte>, f1: seq<byte>, f2: seq<byte>, f3: seq<byte>, f4: seq<byte>, f5: seq<byte>,
      f6: seq<byte>)
    ensures done + f1 + f2 + f3 + f4 + f5 + f6 == done + (f1 + f2 + f3 + f4 + f5 + f6)
  {
    Associate(done, f1, f2);
    Associate(done, f1 + f2, f3);
    Associate(done, f1 + f2 + f3, f4);
    Associate(done, f1 + f2 + f3 + f4, f5);
    Associate(done, f1 + f2 + f3 + f4 + f5, f6);
  }

  method SerializeEntry(e: Entry, buf: array<byte>, at: nat, ghost s: seq<byte>, ghost start: nat,
      ghost done: seq<byte>)
      returns (end: nat)
    requires Written(buf, s, start, done, at) && at + |EncodeEntry(e)| <= buf.Length
    modifies buf
    ensures Written(buf, s, start, done + EncodeEntry(e), end)
  {
    ghost var f1, f2, f3, f4 := Field(8, EnumBits(e.etype)), Field(16, e.term), Field(24, e.nodeId), Field(32, e.port);
    ghost var f5, f6 := HostField(e.host), Field(48, e.writeIt);
    end := WriteField(8, EnumBits(e.etype), buf, at, s, start, done);
    end := WriteField(16, e.term, buf, end, s, start, done + f1);
    end := WriteField(24, e.nodeId, buf, end, s, start, done + f1 + f2);
    end := WriteField(32, e.port, buf, end, s, start, done + f1 + f2 + f3);
    end := WriteHost(e.host, buf, end, s, start, done + f1 + f2 + f3 + f4);
    end := WriteField(48, e.writeIt, buf, end, s, start, done + f1 + f2 + f3 + f4 + f5);
    AssociateFields(done, f1, f2, f3, f4, f5, f6);
  }

  lemma {:induction false} EntriesSnoc(es: seq<Entry>, e: Entry)
    ensures EncodeEntries(es + [e]) == EncodeEntries(es) + ([42] + Delimited(EncodeEntry(e)))
  {
    if es == [] {
      assert es + [e] == [e];
    } else {
      assert (es + [e])[0] == es[0] && (es + [e])[1..] == es[1..] + [e];
      EntriesSnoc(es[1..], e);
    }
  }

  lemma {:induction false} EntriesConcat(a: seq<Entry>, b: seq<Entry>)
    ensures EncodeEntries(a + b) == EncodeEntries(a) + EncodeEntries(b)
    decreases |a|
  {
    if a == [] {
      assert a + b == b;
    } else {
      var first := [42] + Delimited(EncodeEntry(a[0]));
      assert (a + b)[0] == a[0] && (a + b)[1..] == a[1..] + b;
      EntriesConcat(a[1..], b);
      Associate(first, EncodeEntries(a[1..]), EncodeEntries(b));
    }
  }

  lemma EntriesSplit(es: seq<Entry>, i: nat)
    requires i < |es|
    ensures EncodeEntries(es[..i + 1]) == EncodeEntries(es[..i]) + ([42] + Delimited(EncodeEntry(es[i])))
    ensures |EncodeEntries(es[..i + 1])| <= |EncodeEntries(es)|
  {
    var a, e, rest := es[..i], es[i], es[i + 1..];
    assert es[..i + 1] == a + [e];
    assert (a + [e]) + rest == es;
    EntriesSnoc(a, e);
    EntriesConcat(a + [e], rest);
  }

  /** The nested entry is serialized in place behind its cached size. */
  method WriteEntry(e: Entry, buf: array<byte>, at: nat, ghost s: seq<byte>, ghost start: nat, ghost done: seq<byte>)
      returns (end: nat)
    requires Written(buf, s, start, done, at) && at + 1 + |Delimited(EncodeEntry(e))| <= buf.Length
    modifies buf
    ensures Written(buf, s, start, done + ([42] + Delimited(EncodeEntry(e))), end)
  {
    ghost var b := EncodeEntry(e);
    EntrySizeExact(e);
    end := WriteByte(42, buf, at, s, start, done);
    end := WriteVarint(EntrySize(e), buf, end, s, start, done + [42]);
    end := SerializeEntry(e, buf, end, s, start, done + [42] + Varint(|b|));
    Associate(done, [42], Varint(|b|));
    Associate(done, [42] + Varint(|b|), b);
    Associate([42], Varint(|b|), b);
  }

  method WriteAllEntries(es: seq<Entry>, buf: array<byte>, at: nat, ghost s: seq<byte>, ghost start: nat,
      ghost done: seq<byte>)
      returns (end: nat)
    requires Written(buf, s, start, done, at) && at + |EncodeEntries(es)| <= buf.Length
    modifies buf
    ensures Written(buf, s, start, done + EncodeEntries(es), end)
  {
    end := at;
    ghost var sofar := done;
    assert es[..0] == [] && done + [] == done;
    for i := 0 to |es|
      invariant Written(buf, s, start, sofar, end) && sofar == done + EncodeEntries(es[..i])
    {
      ghost var more := [42] + Delimited(EncodeEntry(es[i]));
      EntriesSplit(es, i);
      end := WriteEntry(es[i], buf, end, s, start, sofar);
      Associate(done, EncodeEntries(es[..i]), more);
      sofar := sofar + more;
    }
    assert es[..|es|] == es;
  }

  method WriteScalars(q: AppendQ, buf: array<byte>, at: nat, ghost s: seq<byte>) returns (end: nat)
    requires Written(buf, s, at, [], at) && at + |EncodeAppendQ(q)| <= buf.Length
    modifies buf
    ensures Written(buf, s, at,
        Field(8, q.term) + Field(16, q.prevIndex) + Field(24, q.prevTerm) + Field(32, q.leaderCommit), end)
  {
    ghost var f1, f2, f3, f4 := Field(8, q.term), Field(16, q.prevIndex), Field(24, q.prevTerm),
        Field(32, q.leaderCommit);
    assert |EncodeAppendQ(q)| >= |f1| + |f2| + |f3| + |f4|;
    end := WriteField(8, q.term, buf, at, s, at, []);
    assert [] + f1 == f1;
    end := WriteField(16, q.prevIndex, buf, end, s, at, f1);
    end := WriteField(24, q.prevTerm, buf, end, s, at, f1 + f2);
    end := WriteField(32, q.leaderCommit, buf, end, s, at, f1 + f2 + f3);
  }

  /** Serializes a request into `buf` from `at`; everything else in the buffer keeps its bytes. */
  method SerializeAppendQ(q: AppendQ, buf: array<byte>, at: nat) returns (end: nat)
    requires at + |EncodeAppendQ(q)| <= buf.Length
    modifies buf
    ensures end == at + |EncodeAppendQ(q)| && buf[at..end] == EncodeAppendQ(q)
    ensures buf[..at] == old(buf[..at]) && buf[end..] == old(buf[at..])[end - at..]
  {
    ghost var s := buf[..];
    assert s[at..] == buf[at..];
    end := WriteScalars(q, buf, at, s);
    end := WriteAllEntries(q.entries, buf, end, s, at,
                           Field(8, q.term) + Field(16, q.prevIndex) + Field(24, q.prevTerm) +
                               Field(32, q.leaderCommit));
  }

  // ---------------------------------------------------------------- sizes

  /** `appendentries_q::ByteSizeLong`: one tag byte for each entry up front, then the entries, then the scalars. */
  method ByteSizeAppendQ(q: AppendQ) returns (total: nat)
    ensures total == |EncodeAppendQ(q)|
  {
    total := |q.entries|;
    assert q.entries[..0] == [];
    for i := 0 to |q.entries|
      invariant total == |EncodeEntries(q.entries[..i])| + |q.entries| - i
    {
      var e := q.entries[i];
      EntriesSplit(q.entries, i);
      EntrySizeExact(e);
      VarintLength(EntrySize(e));
      total := total + VarintSize(EntrySize(e)) + EntrySize(e);
    }
    assert q.entries[..|q.entries|] == q.entries;
    FieldLength(8, q.term);
    FieldLength(16, q.prevIndex);
    FieldLength(24, q.prevTerm);
    FieldLength(32, q.leaderCommit);
    if q.term != 0 { total := total + 1 + VarintSize(q.term); }
    if q.prevIndex != 0 { total := total + 1 + VarintSize(q.prevIndex); }
    if q.prevTerm != 0 { total := total + 1 + VarintSize(q.prevTerm); }
    if q.leaderCommit != 0 { total := total + 1 + VarintSize(q.leaderCommit); }
  }

  // ---------------------------------------------------------------- parsing

  method ParseEntry(s: seq<byte>) returns (p: Parsed<Entry>)
    ensures p == MergeEntry(NO_ENTRY, s)
  {
    var e, pos := NO_ENTRY, 0;
    assert s[0..] == s;
    while pos < |s|
      invariant pos <= |s| && MergeEntry(NO_ENTRY, s) == MergeEntry(e, s[pos..])
      decreases |s| - pos
    {
      var field := EntryField(e, s[pos..]);
      if field.Fail? { return Parsed(false, field.value); }
      assert s[pos..][field.used..] == s[pos + field.used..];
      e, pos := field.value, pos + field.used;
    }
    assert s[pos..] == [];
    p := Parsed(true, e);
  }

  lemma {:induction false} MergeNext(q: AppendQ, s: seq<byte>)
    requires s != []
    ensures var f := AppendField(q, s);
            MergeAppendQ(q, s) == if f.Fail? then Parsed(false, f.value) else MergeAppendQ(f.value, s[f.used..])
  {
  }

  method ParseAppendQ(s: seq<byte>) returns (p: Parsed<AppendQ>)
    ensures p == MergeAppendQ(NO_APPEND, s)
  {
    var q, pos := NO_APPEND, 0;
    assert s[0..] == s;
    while pos < |s|
      invariant pos <= |s| && MergeAppendQ(NO_APPEND, s) == MergeAppendQ(q, s[pos..])
      decreases |s| - pos
    {
      var field := AppendField(q, s[pos..]);
      MergeNext(q, s[pos..]);
      if field.Fail? { return Parsed(false, field.value); }
      assert s[pos..][field.used..] == s[pos + field.used..];
      q, pos := field.value, pos + field.used;
    }
    assert s[pos..] == [];
    p := Parsed(true, q);
  }
}
