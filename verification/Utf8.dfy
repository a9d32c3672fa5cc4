/** What the host check accepts: exactly the UTF-8 texts, as section 3 of RFC 3629 defines them. */
module Utf8 {
  import opened Words
  import opened WireFormat

  /** A Unicode scalar value: a code point that is not a surrogate. */
  predicate IsScalar(c: int) {
    0 <= c <= 0x10FFFF && !(0xD800 <= c <= 0xDFFF)
  }

  /** The shortest form of a scalar value: six bits in every byte after the first. */
  function ScalarBytes(c: int): (r: seq<byte>)
    requires IsScalar(c)
    ensures r != []
  {
    if c < 0x80 then [c]
    else if c < 0x800 then [0xC0 + c / 64, 0x80 + c % 64]
    else if c < 0x10000 then [0xE0 + c / 4096, 0x80 + c / 64 % 64, 0x80 + c % 64]
    else [0xF0 + c / 262144, 0x80 + c / 4096 % 64, 0x80 + c / 64 % 64, 0x80 + c % 64]
  }

  predicate AllScalars(cps: seq<int>) {
    forall i :: 0 <= i < |cps| ==> IsScalar(cps[i])
  }

  function TextBytes(cps: seq<int>): seq<byte>
    requires AllScalars(cps)
  {
    if cps == [] then [] else ScalarBytes(cps[0]) + TextBytes(cps[1..])
  }

  lemma TwoBytes(c: int, rest: seq<byte>)
    requires 0x80 <= c < 0x800
    ensures Utf8Front(ScalarBytes(c) + rest) == 2
  {
    var s := ScalarBytes(c) + rest;
    assert s[0] == 0xC0 + c / 64 && s[1] == 0x80 + c % 64;
  }

  lemma ThreeBytes(c: int, rest: seq<byte>)
    requires IsScalar(c) && 0x800 <= c < 0x10000
    ensures Utf8Front(ScalarBytes(c) + rest) == 3
  {
    var s := ScalarBytes(c) + rest;
    assert s[0] == 0xE0 + c / 4096 && s[1] == 0x80 + c / 64 % 64 && s[2] == 0x80 + c % 64;
    assert c / 64 == 64 * (c / 4096) + c / 64 % 64;
  }

  lemma FourBytes(c: int, rest: seq<byte>)
    requires IsScalar(c) && 0x10000 <= c
    ensures Utf8Front(ScalarBytes(c) + rest) == 4
  {
    var s := ScalarBytes(c) + rest;
    assert s[0] == 0xF0 + c / 262144 && s[1] == 0x80 + c / 4096 % 64;
    assert s[2] == 0x80 + c / 64 % 64 && s[3] == 0x80 + c % 64;
    assert c / 4096 == 64 * (c / 262144) + c / 4096 % 64;
  }

  /** The scan steps over exactly the bytes of a scalar value. */
  lemma FrontOfScalar(c: int, rest: seq<byte>)
    requires IsScalar(c)
    ensures Utf8Front(ScalarBytes(c) + rest) == |ScalarBytes(c)|
  {
    if c < 0x80 {
      assert (ScalarBytes(c) + rest)[0] == c;
    } else if c < 0x800 {
      TwoBytes(c, rest);
    } else if c < 0x10000 {
      ThreeBytes(c, rest);
    } else {
      FourBytes(c, rest);
    }
  }

  /** The six bits that a byte after the first one carries. */
  function Bits(b: byte): int {
    var x: int := b;
    x - 0x80
  }

  /** The scalar value that the bytes at the front spell. */
  function FrontScalar(s: seq<byte>): int
    requires s != [] && Utf8Front(s) > 0
  {
    var k, a: int := Utf8Front(s), s[0];
    if k == 1 then a
    else if k == 2 then (a - 0xC0) * 64 + Bits(s[1])
    else if k == 3 then (a - 0xE0) * 4096 + Bits(s[1]) * 64 + Bits(s[2])
    else (a - 0xF0) * 262144 + Bits(s[1]) * 4096 + Bits(s[2]) * 64 + Bits(s[3])
  }

  lemma Digits(a: int, b: int)
    requires 0 <= b < 64
    ensures (64 * a + b) / 64 == a && (64 * a + b) % 64 == b
  {
  }

  lemma TwoBytesRead(s: seq<byte>)
    requires s != [] && Utf8Front(s) == 2
    ensures IsScalar(FrontScalar(s)) && ScalarBytes(FrontScalar(s)) == s[..2]
  {
    var a: int := s[0];
    Digits(a - 0xC0, Bits(s[1]));
  }

  lemma ThreeBytesRead(s: seq<byte>)
    requires s != [] && Utf8Front(s) == 3
    ensures IsScalar(FrontScalar(s)) && ScalarBytes(FrontScalar(s)) == s[..3]
  {
    var a: int, c := s[0], FrontScalar(s);
    var high := 64 * (a - 0xE0) + Bits(s[1]);
    Digits(high, Bits(s[2]));
    Digits(a - 0xE0, Bits(s[1]));
    assert c == 64 * high + Bits(s[2]) && c / 4096 == c / 64 / 64;
  }

  lemma FourBytesRead(s: seq<byte>)
    requires s != [] && Utf8Front(s) == 4
    ensures IsScalar(FrontScalar(s)) && ScalarBytes(FrontScalar(s)) == s[..4]
  {
    var a: int, c := s[0], FrontScalar(s);
    var top := 64 * (a - 0xF0) + Bits(s[1]);
    var high := 64 * top + Bits(s[2]);
    Digits(high, Bits(s[3]));
    Digits(top, Bits(s[2]));
    Digits(a - 0xF0, Bits(s[1]));
    assert c == 64 * high + Bits(s[3]) && c / 4096 == c / 64 / 64 && c / 262144 == c / 64 / 64 / 64;
  }

  /** What the scan steps over is the shortest form of a scalar value. */
  lemma ScalarAtFront(s: seq<byte>)
    requires s != [] && Utf8Front(s) > 0
    ensures IsScalar(FrontScalar(s)) && ScalarBytes(FrontScalar(s)) == s[..Utf8Front(s)]
  {
    var k := Utf8Front(s);
    if k == 2 { TwoBytesRead(s); }
    if k == 3 { ThreeBytesRead(s); }
    if k == 4 { FourBytesRead(s); }
  }

  lemma {:induction false} TextIsValid(cps: seq<int>)
    requires AllScalars(cps)
    ensures ValidUtf8(TextBytes(cps))
    decreases |cps|
  {
    if cps != [] {
      var b, rest := ScalarBytes(cps[0]), TextBytes(cps[1..]);
      FrontOfScalar(cps[0], rest);
      TextIsValid(cps[1..]);
      assert (b + rest)[|b|..] == rest;
    }
  }

  lemma {:induction false} ValidIsText(s: seq<byte>) returns (cps: seq<int>)
    requires ValidUtf8(s)
    ensures AllScalars(cps) && s == TextBytes(cps)
    decreases |s|
  {
    if s == [] {
      cps := [];
    } else {
      ScalarAtFront(s);
      var rest := ValidIsText(s[Utf8Front(s)..]);
      cps := [FrontScalar(s)] + rest;
      assert cps[1..] == rest;
      assert s == s[..Utf8Front(s)] + s[Utf8Front(s)..];
    }
  }

  /** A host passes the check if and only if it is the UTF-8 form of some text. */
  lemma ValidExactly(s: seq<byte>)
    ensures ValidUtf8(s) <==> exists cps :: AllScalars(cps) && s == TextBytes(cps)
  {
    if ValidUtf8(s) { var cps := ValidIsText(s); }
    if cps :| AllScalars(cps) && s == TextBytes(cps) { TextIsValid(cps); }
  }

  /** So every host of plain ASCII, such as a dotted address, passes. */
  lemma {:induction false} AsciiIsValid(s: seq<byte>)
    requires forall i :: 0 <= i < |s| ==> s[i] < 0x80
    ensures ValidUtf8(s)
    decreases |s|
  {
    if s != [] { AsciiIsValid(s[1..]); }
  }
}
