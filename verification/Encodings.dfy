/** UTF-8 as section 3 of RFC 3629 computes it, and that the well-formed texts are exactly the encodings. */
module Encodings {
  import opened JsonUtf8

  /** Code points other than the surrogates. */
  predicate Scalar(cp: int) { 0 <= cp < 0xD800 || 0xE000 <= cp < 0x110000 }

  function Byte(v: int): char
    requires 0 <= v < 256
  {
    v as char
  }

  function Encode(cp: int): (s: string)
    requires Scalar(cp)
    ensures 1 <= |s| <= 4
  {
    if cp < 0x80 then [Byte(cp)]
    else if cp < 0x800 then [Byte(0xC0 + cp / 64), Byte(0x80 + cp % 64)]
    else if cp < 0x10000 then [Byte(0xE0 + cp / 4096), Byte(0x80 + cp / 64 % 64), Byte(0x80 + cp % 64)]
    else [Byte(0xF0 + cp / 262144), Byte(0x80 + cp / 4096 % 64), Byte(0x80 + cp / 64 % 64), Byte(0x80 + cp % 64)]
  }

  /** The code point of the sequence a text starts with. */
  function CodePoint(s: string): int
    requires First(s) > 0
  {
    var n := First(s);
    if n == 1 then s[0] as int
    else if n == 2 then (s[0] as int - 0xC0) * 64 + (s[1] as int - 0x80)
    else if n == 3 then (s[0] as int - 0xE0) * 4096 + (s[1] as int - 0x80) * 64 + (s[2] as int - 0x80)
    else (s[0] as int - 0xF0) * 262144 + (s[1] as int - 0x80) * 4096 + (s[2] as int - 0x80) * 64 + (s[3] as int - 0x80)
  }

  /** Six bits at a time. */
  lemma Bits(high: nat, low: nat)
    requires low < 64
    ensures (high * 64 + low) / 64 == high && (high * 64 + low) % 64 == low
  {
  }

  lemma MoreBits(n: nat)
    ensures n / 4096 == n / 64 / 64 && n / 262144 == n / 64 / 64 / 64
  {
  }

  lemma TwoBytes(s: string)
    requires First(s) == 2
    ensures Scalar(CodePoint(s)) && Encode(CodePoint(s)) == s[..2]
  {
    var a, b := s[0] as int - 0xC0, s[1] as int - 0x80;
    Bits(a, b);
  }

  lemma ThreeBytes(s: string)
    requires First(s) == 3
    ensures Scalar(CodePoint(s)) && Encode(CodePoint(s)) == s[..3]
  {
    var a, b, c := s[0] as int - 0xE0, s[1] as int - 0x80, s[2] as int - 0x80;
    assert 0x80 <= s[1] as int <= 0xBF && 0x80 <= s[2] as int <= 0xBF && 0xE0 <= s[0] as int <= 0xEF;
    assert a == 0 ==> b >= 0x20;
    assert a == 0xD ==> b < 0x20;
    var cp := CodePoint(s);
    assert cp == (a * 64 + b) * 64 + c;
    hide First, CodePoint;
    Bits(a, b);
    Bits(a * 64 + b, c);
    MoreBits(cp);
  }

  lemma FourBytes(s: string)
    requires First(s) == 4
    ensures Scalar(CodePoint(s)) && Encode(CodePoint(s)) == s[..4]
  {
    FourRanges(s);
    var a, b, c, d := s[0] as int - 0xF0, s[1] as int - 0x80, s[2] as int - 0x80, s[3] as int - 0x80;
    hide First, Encode;
    var cp := CodePoint(s);
    assert cp == ((a * 64 + b) * 64 + c) * 64 + d;
    FourParts(a, b, c, d, cp);
    hide CodePoint;
    FourAgain(cp, a, b, c, d);
    assert s[..4] == [s[0], s[1], s[2], s[3]];
  }

  lemma FourRanges(s: string)
    requires First(s) == 4
    ensures 0x80 <= s[1] as int <= 0xBF && 0x80 <= s[2] as int <= 0xBF && 0x80 <= s[3] as int <= 0xBF
    ensures 0xF0 <= s[0] as int <= 0xF4
    ensures s[0] as int == 0xF0 ==> s[1] as int >= 0x90
    ensures s[0] as int == 0xF4 ==> s[1] as int < 0x90
  {
  }

  lemma FourParts(a: nat, b: nat, c: nat, d: nat, cp: int)
    requires a <= 4 && b < 64 && c < 64 && d < 64 && (a == 0 ==> b >= 0x10) && (a == 4 ==> b < 0x10)
    requires cp == ((a * 64 + b) * 64 + c) * 64 + d
    ensures 0x10000 <= cp < 0x110000
    ensures cp / 262144 == a && cp / 4096 % 64 == b && cp / 64 % 64 == c && cp % 64 == d
  {
    Bits(a, b);
    Bits(a * 64 + b, c);
    Bits((a * 64 + b) * 64 + c, d);
    MoreBits(cp);
  }

  lemma FourAgain(cp: int, a: nat, b: nat, c: nat, d: nat)
    requires 0x10000 <= cp < 0x110000 && b < 64 && c < 64 && d < 64 && a <= 4
    requires cp / 262144 == a && cp / 4096 % 64 == b && cp / 64 % 64 == c && cp % 64 == d
    ensures Encode(cp) == [Byte(0xF0 + a), Byte(0x80 + b), Byte(0x80 + c), Byte(0x80 + d)]
  {
  }

  lemma SequenceIsEncoded(s: string)
    requires First(s) > 0
    ensures Scalar(CodePoint(s)) && Encode(CodePoint(s)) == s[..First(s)]
  {
    hide *;
    var n := First(s);
    if n == 1 { OneByte(s); }
    else if n == 2 { TwoBytes(s); }
    else if n == 3 { ThreeBytes(s); }
    else { FourBytes(s); }
  }

  lemma OneByte(s: string)
    requires First(s) == 1
    ensures Scalar(CodePoint(s)) && Encode(CodePoint(s)) == s[..1]
  {
  }

  lemma EncodedIsSequence(cp: int, rest: string)
    requires Scalar(cp)
    ensures First(Encode(cp) + rest) == |Encode(cp)|
  {
    if cp < 0x800 { ShortEncoded(cp, rest); }
    else if cp < 0x10000 { ThreeEncoded(cp, rest); }
    else { FourEncoded(cp, rest); }
  }

  lemma ShortEncoded(cp: int, rest: string)
    requires 0 <= cp < 0x800
    ensures First(Encode(cp) + rest) == |Encode(cp)|
  {
  }

  lemma ThreeEncoded(cp: int, rest: string)
    requires 0x800 <= cp < 0x10000 && Scalar(cp)
    ensures First(Encode(cp) + rest) == |Encode(cp)|
  {
    var a, b, c := cp / 4096, cp / 64 % 64, cp % 64;
    MoreBits(cp);
    assert a == 0 ==> b >= 0x20;
    assert a == 0xD ==> b < 0x20;
    var s := Encode(cp) + rest;
    assert s[0] == Byte(0xE0 + a) && s[1] == Byte(0x80 + b) && s[2] == Byte(0x80 + c);
    hide Encode;
  }

  lemma FourEncoded(cp: int, rest: string)
    requires 0x10000 <= cp < 0x110000
    ensures First(Encode(cp) + rest) == |Encode(cp)|
  {
    var a, b, c, d := cp / 262144, cp / 4096 % 64, cp / 64 % 64, cp % 64;
    MoreBits(cp);
    assert a == 0 ==> b >= 0x10;
    assert a == 4 ==> b < 0x10;
    var s := Encode(cp) + rest;
    assert s[0] == Byte(0xF0 + a) && s[1] == Byte(0x80 + b) && s[2] == Byte(0x80 + c) && s[3] == Byte(0x80 + d);
    hide Encode;
  }

  function EncodeAll(cps: seq<int>): string
    requires forall i :: 0 <= i < |cps| ==> Scalar(cps[i])
  {
    if cps == [] then "" else Encode(cps[0]) + EncodeAll(cps[1..])
  }

  ghost predicate IsEncoding(s: string) {
    exists cps: seq<int> :: (forall i :: 0 <= i < |cps| ==> Scalar(cps[i])) && EncodeAll(cps) == s
  }

  lemma {:induction false} Decoded(s: string) returns (cps: seq<int>)
    requires WellFormed(s)
    ensures forall i :: 0 <= i < |cps| ==> Scalar(cps[i])
    ensures EncodeAll(cps) == s
    decreases |s|
  {
    hide Encode, CodePoint, First, Scalar;
    if s == [] { return []; }
    var rest := Decoded(s[First(s)..]);
    SequenceIsEncoded(s);
    cps := [CodePoint(s)] + rest;
    assert cps[1..] == rest;
    assert s == s[..First(s)] + s[First(s)..];
  }

  lemma {:induction false} EncodingsWellFormed(cps: seq<int>)
    requires forall i :: 0 <= i < |cps| ==> Scalar(cps[i])
    ensures WellFormed(EncodeAll(cps))
  {
    if cps != [] {
      var rest := EncodeAll(cps[1..]);
      EncodingsWellFormed(cps[1..]);
      EncodedIsSequence(cps[0], rest);
      hide Encode, First;
      assert (Encode(cps[0]) + rest)[|Encode(cps[0])|..] == rest;
    }
  }

  /** A text is well formed exactly if it is the encoding of some scalar values. */
  lemma WellFormedIff(s: string)
    ensures WellFormed(s) <==> IsEncoding(s)
  {
    if WellFormed(s) {
      var cps := Decoded(s);
    }
    if IsEncoding(s) {
      var cps: seq<int> :| (forall i :: 0 <= i < |cps| ==> Scalar(cps[i])) && EncodeAll(cps) == s;
      EncodingsWellFormed(cps);
    }
  }
}
