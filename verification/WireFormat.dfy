/** Base 128 varints and the other primitive wire forms of the Protocol Buffers encoding. */
module WireFormat {
  import opened Words

  /** The shortest varint of `n`: seven bits a byte, least significant group first. */
  function Varint(n: nat): (r: seq<byte>)
    ensures r != []
  {
    if n < 128 then [n] else [128 + n % 128] + Varint(n / 128)
  }

  /** How many bytes the varint of `n` takes. */
  function VarintSize(n: nat): nat {
    if n < 128 then 1 else 1 + VarintSize(n / 128)
  }

  /** Reads a varint of at most `limit` bytes: its value and its length. */
  function ReadVarint(s: seq<byte>, limit: nat): (r: Option<(nat, nat)>)
    ensures r.Some? ==> 1 <= r.value.1 <= |s|
    decreases limit
  {
    if limit == 0 || s == [] then None
    else if s[0] < 128 then Some((s[0], 1))
    else
      match ReadVarint(s[1..], limit - 1)
      case None => None
      case Some((v, k)) => Some((s[0] - 128 + 128 * v, k + 1))
  }

  const MAX_VARINT_BYTES: nat := 10

  function Pow128(k: nat): nat {
    if k == 0 then 1 else 128 * Pow128(k - 1)
  }

  lemma {:induction false} SizeBound(n: nat, k: nat)
    requires 1 <= k && n < Pow128(k)
    ensures VarintSize(n) <= k
  {
    if n >= 128 {
      assert k > 1;
      SizeBound(n / 128, k - 1);
    }
  }

  lemma SixtyFourBits(n: nat)
    requires n < 0x1_0000_0000_0000_0000
    ensures VarintSize(n) <= MAX_VARINT_BYTES
  {
    assert Pow128(3) == 0x20_0000;
    assert Pow128(6) == 0x20_0000 * 0x20_0000 by {
      assert Pow128(4) == 128 * Pow128(3) && Pow128(5) == 128 * Pow128(4) && Pow128(6) == 128 * Pow128(5);
    }
    assert Pow128(7) == 128 * Pow128(6) && Pow128(8) == 128 * Pow128(7) && Pow128(9) == 128 * Pow128(8) &&
           Pow128(10) == 128 * Pow128(9);
    SizeBound(n, 10);
  }

  /** Reading what was written returns the value and exactly the bytes written. */
  lemma {:induction false} VarintRoundTrip(n: nat, rest: seq<byte>, limit: nat)
    requires VarintSize(n) <= limit
    ensures |Varint(n)| == VarintSize(n)
    ensures ReadVarint(Varint(n) + rest, limit) == Some((n, VarintSize(n)))
  {
    var s := Varint(n) + rest;
    if n < 128 {
      assert s[0] == n;
    } else {
      var low, high := n % 128, n / 128;
      VarintRoundTrip(high, rest, limit - 1);
      assert s == [128 + low] + (Varint(high) + rest);
      assert s[0] == 128 + low && s[1..] == Varint(high) + rest;
      assert n == low + 128 * high;
    }
  }

  /** A varint of a positive value has no zero byte: it is minimal. */
  lemma {:induction false} VarintHasNoZero(n: nat)
    requires n > 0
    ensures 0 !in Varint(n)
  {
    if n >= 128 {
      VarintHasNoZero(n / 128);
    }
  }

  // ---------------------------------------------------------------- length-delimited records

  /** Reads a length-delimited record: its bytes and the length of the whole record. */
  function ReadBytes(s: seq<byte>): (r: Option<(seq<byte>, nat)>)
    ensures r.Some? ==> 1 <= r.value.1 <= |s|
  {
    match ReadVarint(s, MAX_VARINT_BYTES)
    case None => None
    case Some((raw, k)) =>
      var len := U32(raw);
      if len >= TWO_31 || k + len > |s| then None else Some((s[k..k + len], k + len))
  }

  function Delimited(b: seq<byte>): seq<byte> {
    Varint(|b|) + b
  }

  lemma DelimitedRoundTrip(b: seq<byte>, rest: seq<byte>)
    requires |b| < TWO_31
    ensures ReadBytes(Delimited(b) + rest) == Some((b, |Delimited(b)|))
    ensures |Delimited(b)| == VarintSize(|b|) + |b|
  {
    SixtyFourBits(|b|);
    VarintRoundTrip(|b|, b + rest, MAX_VARINT_BYTES);
    assert Delimited(b) + rest == Varint(|b|) + (b + rest);
  }

  /** A record cut short inside its bytes cannot be read. */
  lemma TruncatedRecord(len: nat, cut: seq<byte>)
    requires |cut| < len < TWO_31
    ensures ReadBytes(Varint(len) + cut) == None
  {
    SixtyFourBits(len);
    VarintRoundTrip(len, cut, MAX_VARINT_BYTES);
  }

  // ---------------------------------------------------------------- unknown fields

  /** How many bytes a field with an unexpected tag takes after its tag. Groups are not read. */
  function SkipField(tag: uint32, s: seq<byte>): (r: Option<nat>)
    ensures r.Some? ==> r.value <= |s|
  {
    if tag / 8 == 0 then None
    else if tag % 8 == 0 then
      (match ReadVarint(s, MAX_VARINT_BYTES) case None => None case Some((_, k)) => Some(k))
    else if tag % 8 == 1 then (if |s| < 8 then None else Some(8))
    else if tag % 8 == 2 then (match ReadBytes(s) case None => None case Some((_, k)) => Some(k))
    else if tag % 8 == 5 then (if |s| < 4 then None else Some(4))
    else None
  }

  // ---------------------------------------------------------------- UTF-8

  predicate IsTail(b: byte) {
    0x80 <= b < 0xC0
  }

  /** The length of the well-formed UTF-8 sequence at the front of `s`, or 0. */
  function Utf8Front(s: seq<byte>): (k: nat)
    requires s != []
    ensures k <= |s|
  {
    var a := s[0];
    if a < 0x80 then 1
    else if 0xC2 <= a < 0xE0 then (if |s| >= 2 && IsTail(s[1]) then 2 else 0)
    else if 0xE0 <= a < 0xF0 then
      (if |s| >= 3 && IsTail(s[1]) && IsTail(s[2]) && (a == 0xE0 ==> s[1] >= 0xA0) && (a == 0xED ==> s[1] < 0xA0) then 3
          else 0)
    else if 0xF0 <= a < 0xF5 then
      (if |s| >= 4 && IsTail(s[1]) && IsTail(s[2]) && IsTail(s[3]) && (a == 0xF0 ==> s[1] >= 0x90) &&
          (a == 0xF4 ==> s[1] < 0x90)
       then 4 else 0)
    else 0
  }

  predicate ValidUtf8(s: seq<byte>)
    decreases |s|
  {
    s == [] || (Utf8Front(s) > 0 && ValidUtf8(s[Utf8Front(s)..]))
  }
}
