/** The wire form of `appendentries_r`. */
module ReplyCodec {
  import opened Words
  import opened Messages
  import opened WireFormat
  import opened Codec

  const TWO_64: int := 0x1_0000_0000_0000_0000

  function Flag(b: bool): nat {
    if b then 1 else 0
  }

  function EncodeAppendR(r: AppendR): seq<byte> {
    Field(8, r.term) + Field(16, Flag(r.success)) + Field(24, Flag(r.isHeartbeat))
  }

  const NO_REPLY := AppendR(0, false, false)

  predicate ReplyScalar(tag: uint32) {
    tag == 8 || tag == 16 || tag == 24
  }

  /** A flag is set by any value whose low 64 bits are not zero. */
  function SetReply(r: AppendR, tag: uint32, v: nat): AppendR {
    if tag == 8 then r.(term := U32(v))
    else if tag == 16 then r.(success := v % TWO_64 != 0)
    else r.(isHeartbeat := v % TWO_64 != 0)
  }

  function ReplyField(r: AppendR, s: seq<byte>): (f: FieldRead<AppendR>)
    ensures f.Next? ==> 0 < f.used <= |s|
  {
    match ReadVarint(s, MAX_VARINT_BYTES)
    case None => Fail(r)
    case Some((raw, k)) =>
      var tag, rest := U32(raw), s[k..];
      if ReplyScalar(tag) then
        match ReadVarint(rest, MAX_VARINT_BYTES)
        case None => Fail(r)
        case Some((v, j)) => Next(SetReply(r, tag, v), k + j)
      else
        match SkipField(tag, rest)
        case None => Fail(r)
        case Some(j) => Next(r, k + j)
  }

  function MergeAppendR(r: AppendR, s: seq<byte>): Parsed<AppendR>
    decreases |s|
  {
    if s == [] then Parsed(true, r)
    else
      match ReplyField(r, s)
      case Fail(v) => Parsed(false, v)
      case Next(v, k) => MergeAppendR(v, s[k..])
  }

  lemma MergeReplyField(r: AppendR, tag: byte, v: nat, rest: seq<byte>)
    requires ReplyScalar(tag) && v < TWO_32
    ensures MergeAppendR(r, Field(tag, v) + rest) == MergeAppendR(if v == 0 then r else SetReply(r, tag, v), rest)
  {
    if v == 0 {
      assert Field(tag, v) + rest == rest;
    } else {
      assert Field(tag, v) + rest == [tag] + (Varint(v) + rest);
      TagRead(tag, Varint(v) + rest);
      ScalarRead(v, rest);
      assert (Field(tag, v) + rest)[1 + |Varint(v)|..] == rest;
    }
  }

  /** Parsing a serialized reply always succeeds and returns the reply. */
  lemma AppendRRoundTrip(r: AppendR)
    ensures MergeAppendR(NO_REPLY, EncodeAppendR(r)) == Parsed(true, r)
  {
    var f1, f2, f3 := Field(8, r.term), Field(16, Flag(r.success)), Field(24, Flag(r.isHeartbeat));
    Associate(f1, f2, f3);
    MergeReplyField(NO_REPLY, 8, r.term, f2 + f3);
    MergeReplyField(AppendR(r.term, false, false), 16, Flag(r.success), f3);
    assert f3 + [] == f3;
    MergeReplyField(AppendR(r.term, r.success, false), 24, Flag(r.isHeartbeat), []);
  }

  /** The tag loop as it runs. */
  method ParseAppendR(s: seq<byte>) returns (p: Parsed<AppendR>)
    ensures p == MergeAppendR(NO_REPLY, s)
  {
    var r, pos := NO_REPLY, 0;
    assert s[0..] == s;
    while pos < |s|
      invariant pos <= |s| && MergeAppendR(NO_REPLY, s) == MergeAppendR(r, s[pos..])
      decreases |s| - pos
    {
      var field := ReplyField(r, s[pos..]);
      if field.Fail? { return Parsed(false, field.value); }
      assert s[pos..][field.used..] == s[pos + field.used..];
      r, pos := field.value, pos + field.used;
    }
    assert s[pos..] == [];
    p := Parsed(true, r);
  }
}
