/** Frames on a byte stream: 2-byte id, 4-byte length, payload, little-endian. */
module Framing {
  import opened Words

  datatype Frame = Frame(id: uint16, payload: seq<byte>)

  const HEADER: nat := 6
  const CAPACITY: nat := 1440

  function Le16(n: uint16): (r: seq<byte>)
    ensures |r| == 2
  {
    [n % 256, n / 256]
  }

  function Le32(n: uint32): (r: seq<byte>)
    ensures |r| == 4
  {
    [n % 256, n / 256 % 256, n / 65536 % 256, n / 16777216]
  }

  function FromLe16(s: seq<byte>): uint16
    requires |s| == 2
  {
    var a: int, b: int := s[0], s[1];
    a + 256 * b
  }

  function FromLe32(s: seq<byte>): uint32
    requires |s| == 4
  {
    var a: int, b: int, c: int, d: int := s[0], s[1], s[2], s[3];
    a + 256 * b + 65536 * c + 16777216 * d
  }

  lemma LittleEndianRoundTrip(a: uint16, b: uint32)
    ensures FromLe16(Le16(a)) == a && FromLe32(Le32(b)) == b
  {
    assert b / 65536 == b / 256 / 256 && b / 16777216 == b / 256 / 256 / 256;
  }

  /** A frame that the fixed buffers can hold and whose id the receiver knows. */
  predicate Sendable(f: Frame) {
    257 <= f.id <= 261 && HEADER + |f.payload| <= CAPACITY
  }

  function EncodeFrame(f: Frame): (r: seq<byte>)
    requires |f.payload| <= CAPACITY
    ensures |r| == HEADER + |f.payload|
  {
    Le16(f.id) + Le32(|f.payload|) + f.payload
  }

  /** The layout of a frame: id and length with the low byte first, then the payload. */
  lemma FrameLayout(f: Frame)
    requires |f.payload| <= CAPACITY
    ensures var r := EncodeFrame(f);
            && f.id == r[0] as int + 256 * r[1] as int
            && |f.payload| == r[2] as int + 256 * r[3] as int + 65536 * r[4] as int + 16777216 * r[5] as int
            && r[HEADER..] == f.payload
  {
    var r := EncodeFrame(f);
    var n := |f.payload|;
    assert r[0] == f.id % 256 && r[1] == f.id / 256;
    assert r[2] == n % 256 && r[3] == n / 256 % 256 && r[4] == n / 65536 % 256 && r[5] == n / 16777216;
  }

  predicate AllSendable(fs: seq<Frame>) {
    forall i :: 0 <= i < |fs| ==> Sendable(fs[i])
  }

  function EncodeAll(fs: seq<Frame>): seq<byte>
    requires AllSendable(fs)
  {
    if fs == [] then [] else EncodeFrame(fs[0]) + EncodeAll(fs[1..])
  }

  // ---------------------------------------------------------------- decoding

  function HeaderId(s: seq<byte>): uint16
    requires |s| >= HEADER
  {
    FromLe16(s[..2])
  }

  function HeaderLen(s: seq<byte>): uint32
    requires |s| >= HEADER
  {
    FromLe32(s[2..6])
  }

  /** A whole frame is at the front of `s`. */
  predicate HasFrame(s: seq<byte>) {
    |s| >= HEADER && |s| >= HEADER + HeaderLen(s)
  }

  function FirstFrame(s: seq<byte>): Frame
    requires HasFrame(s)
  {
    Frame(HeaderId(s), s[HEADER..HEADER + HeaderLen(s)])
  }

  function AfterFirst(s: seq<byte>): (r: seq<byte>)
    requires HasFrame(s)
    ensures |r| < |s|
  {
    s[HEADER + HeaderLen(s)..]
  }

  /** The frames complete at the front of `s`. */
  function Frames(s: seq<byte>): seq<Frame>
    decreases |s|
  {
    if HasFrame(s) then [FirstFrame(s)] + Frames(AfterFirst(s)) else []
  }

  /** What is left once they are taken. */
  function Rest(s: seq<byte>): seq<byte>
    decreases |s|
  {
    if HasFrame(s) then Rest(AfterFirst(s)) else s
  }

  lemma {:induction false} NextFrame(s: seq<byte>)
    requires HasFrame(s)
    ensures Frames(s) == [FirstFrame(s)] + Frames(AfterFirst(s)) && Rest(s) == Rest(AfterFirst(s))
    ensures SaneHeaders(s) ==> SaneHeaders(AfterFirst(s))
  {
  }

  lemma FrameAtFront(f: Frame, s: seq<byte>)
    requires Sendable(f)
    ensures HasFrame(EncodeFrame(f) + s) && FirstFrame(EncodeFrame(f) + s) == f && AfterFirst(EncodeFrame(f) + s) == s
  {
    var t := EncodeFrame(f) + s;
    assert t[..2] == Le16(f.id) && t[2..6] == Le32(|f.payload|);
    LittleEndianRoundTrip(f.id, |f.payload|);
    assert t[6..6 + |f.payload|] == f.payload;
  }

  lemma ExtendFront(s: seq<byte>, t: seq<byte>)
    requires HasFrame(s)
    ensures HasFrame(s + t) && FirstFrame(s + t) == FirstFrame(s) && AfterFirst(s + t) == AfterFirst(s) + t
  {
    assert (s + t)[..2] == s[..2] && (s + t)[2..6] == s[2..6];
  }

  /** However a stream is cut into chunks, decoding chunk by chunk handles the same frames and leaves the same rest. */
  lemma {:induction false} ChunkingIrrelevant(s: seq<byte>, t: seq<byte>)
    ensures Frames(s + t) == Frames(s) + Frames(Rest(s) + t) && Rest(s + t) == Rest(Rest(s) + t)
    decreases |s|
  {
    if HasFrame(s) {
      ExtendFront(s, t);
      ChunkingIrrelevant(AfterFirst(s), t);
    }
  }

  lemma {:induction false} RestHasNoFrame(s: seq<byte>)
    ensures !HasFrame(Rest(s))
    decreases |s|
  {
    if HasFrame(s) { RestHasNoFrame(AfterFirst(s)); }
  }

  lemma {:induction false} DecodeEncoded(fs: seq<Frame>, s: seq<byte>)
    requires AllSendable(fs)
    ensures Frames(EncodeAll(fs) + s) == fs + Frames(s) && Rest(EncodeAll(fs) + s) == Rest(s)
    decreases |fs|
  {
    if fs == [] {
      assert EncodeAll(fs) + s == s;
    } else {
      var f, rest := fs[0], fs[1..];
      assert fs == [f] + rest;
      Associate(EncodeFrame(f), EncodeAll(rest), s);
      FrameAtFront(f, EncodeAll(rest) + s);
      DecodeEncoded(rest, s);
      Associate([f], rest, Frames(s));
    }
  }

  lemma {:induction false} EncodeSnoc(fs: seq<Frame>, f: Frame)
    requires AllSendable(fs) && Sendable(f)
    ensures EncodeAll(fs + [f]) == EncodeAll(fs) + EncodeFrame(f)
    decreases |fs|
  {
    if fs == [] {
      assert fs + [f] == [f] && EncodeAll([f]) == EncodeFrame(f) + EncodeAll([]);
    } else {
      assert (fs + [f])[0] == fs[0] && (fs + [f])[1..] == fs[1..] + [f];
      EncodeSnoc(fs[1..], f);
    }
  }

  /** The length in a header as the receiver computes with it; a longer one would overflow its `int`. */
  predicate SaneFront(s: seq<byte>) {
    |s| >= HEADER ==> HeaderLen(s) < TWO_31 - HEADER && (HasFrame(s) ==> 257 <= HeaderId(s) <= 261)
  }

  /** Every header met while decoding `s` is one this program writes. */
  predicate SaneHeaders(s: seq<byte>)
    decreases |s|
  {
    SaneFront(s) && (HasFrame(s) ==> SaneHeaders(AfterFirst(s)))
  }

  /** The first bytes of a stream of frames: some whole frames, then an incomplete one. */
  lemma {:induction false} PrefixOfStream(s: seq<byte>, fs: seq<Frame>)
    requires AllSendable(fs) && s <= EncodeAll(fs)
    ensures Frames(s) <= fs && SaneHeaders(s)
    ensures |s| == |EncodeAll(fs)| ==> Frames(s) == fs && Rest(s) == []
    decreases |fs|
  {
    if fs != [] {
      var f, all := fs[0], EncodeAll(fs);
      FrameAtFront(f, EncodeAll(fs[1..]));
      if |s| >= HEADER { assert s[..2] == all[..2] && s[2..6] == all[2..6]; }
      if HasFrame(s) {
        assert s[HEADER..HEADER + |f.payload|] == all[HEADER..HEADER + |f.payload|];
        assert AfterFirst(s) <= EncodeAll(fs[1..]) by {
          assert AfterFirst(s) == s[HEADER + |f.payload|..] && EncodeAll(fs[1..]) == all[HEADER + |f.payload|..];
        }
        PrefixOfStream(AfterFirst(s), fs[1..]);
        assert fs == [f] + fs[1..];
      }
    }
  }

  // ---------------------------------------------------------------- the connection object

  /** What `recv` returned. */
  datatype Received = Bytes(chunk: seq<byte>) | EndOfStream | Failed

  class Conn {
    const inBuffer: array<byte>
    const outBuffer: array<byte>
    var inSize: nat
    var outSize: nat

    ghost predicate Valid()
      reads this
    {
      inBuffer != outBuffer && inBuffer.Length == outBuffer.Length == CAPACITY && inSize <= CAPACITY &&
          outSize <= CAPACITY
    }

    ghost function In(): seq<byte>
      requires Valid()
      reads this, inBuffer
    {
      inBuffer[..inSize]
    }

    ghost function Out(): seq<byte>
      requires Valid()
      reads this, outBuffer
    {
      outBuffer[..outSize]
    }

    constructor ()
      ensures Valid() && fresh(inBuffer) && fresh(outBuffer) && In() == [] && Out() == []
    {
      inBuffer, outBuffer := new byte[CAPACITY], new byte[CAPACITY];
      inSize, outSize := 0, 0;
    }

    /** Drops the first `k` bytes of the out-buffer and shifts the others to its front. */
    method ShiftOut(k: nat)
      requires Valid() && k <= outSize
      modifies this`outSize, outBuffer
      ensures Valid() && Out() == old(Out())[k..]
    {
      var left := outSize - k;
      forall i | 0 <= i < left { outBuffer[i] := outBuffer[i + k]; }
      outSize := left;
    }

    /** Appends a frame to the out-buffer and offers the whole buffer to `send`, which took `sent` bytes
        (nothing when zero or negative). */
    method PreSend(f: Frame, sent: int) returns (offered: seq<byte>)
      requires Valid() && outSize + HEADER + |f.payload| <= CAPACITY && sent <= outSize + HEADER + |f.payload|
      modifies this`outSize, outBuffer
      ensures Valid() && offered == old(Out()) + EncodeFrame(f)
      ensures Out() == offered[if sent > 0 then sent else 0..]
    {
      var bytes := EncodeFrame(f);
      var at := outSize;
      forall i | 0 <= i < |bytes| { outBuffer[at + i] := bytes[i]; }
      outSize := at + |bytes|;
      assert Out() == old(Out()) + bytes;
      offered := outBuffer[..outSize];
      if sent > 0 { ShiftOut(sent); }
    }

    method SendCallback(sent: int) returns (offered: seq<byte>)
      requires Valid() && sent <= outSize
      modifies this`outSize, outBuffer
      ensures Valid() && offered == old(Out())
      ensures Out() == offered[if sent > 0 then sent else 0..]
    {
      offered := outBuffer[..outSize];
      if outSize <= 0 { return; }
      if sent > 0 { ShiftOut(sent); }
    }

    method ShiftIn(k: nat)
      requires Valid() && k <= inSize
      modifies this`inSize, inBuffer
      ensures Valid() && In() == old(In())[k..]
    {
      var left := inSize - k;
      forall i | 0 <= i < left { inBuffer[i] := inBuffer[i + k]; }
      inSize := left;
    }

    /** Takes whole frames off the front of the in-buffer until none is left. */
    method HandleArrivedMsg() returns (handled: seq<Frame>)
      requires Valid() && SaneHeaders(In())
      modifies this`inSize, inBuffer
      ensures Valid() && handled == Frames(old(In())) && In() == Rest(old(In())) && !HasFrame(In())
    {
      RestHasNoFrame(In());
      handled := [];
      while true
        invariant Valid() && SaneHeaders(In())
        invariant handled + Frames(In()) == Frames(old(In())) && Rest(In()) == Rest(old(In()))
        decreases inSize
      {
        ghost var s := In();
        if inSize < HEADER { return; }
        var id := FromLe16(inBuffer[..2]);
        var len := FromLe32(inBuffer[2..6]);
        assert s[..2] == inBuffer[..2] && s[2..6] == inBuffer[2..6];
        if inSize < len + HEADER { return; }
        var f := Frame(id, inBuffer[HEADER..HEADER + len]);
        assert f == FirstFrame(s);
        NextFrame(s);
        Associate(handled, [f], Frames(AfterFirst(s)));
        ShiftIn(HEADER + len);
        assert In() == AfterFirst(s);
        handled := handled + [f];
      }
    }

    /** `recv` returned: bytes arrive behind what the in-buffer holds; the end of the stream closes the connection;
        an error changes nothing. */
    method RecvCallback(r: Received) returns (handled: seq<Frame>, closed: bool)
      requires Valid()
      requires r.Bytes? ==> inSize + |r.chunk| <= CAPACITY && SaneHeaders(In() + r.chunk)
      modifies this`inSize, inBuffer
      ensures Valid() && (closed <==> r.EndOfStream?)
      ensures r.Bytes? ==> handled == Frames(old(In()) + r.chunk) && In() == Rest(old(In()) + r.chunk)
      ensures !r.Bytes? ==> handled == [] && In() == old(In())
    {
      handled, closed := [], r.EndOfStream?;
      if r.Bytes? {
        var at := inSize;
        forall i | 0 <= i < |r.chunk| { inBuffer[at + i] := r.chunk[i]; }
        inSize := at + |r.chunk|;
        assert In() == old(In()) + r.chunk;
        handled := HandleArrivedMsg();
      }
    }
  }
}
