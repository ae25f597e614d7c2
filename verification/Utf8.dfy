/** UTF-8 validation (RFC 3629 section 4): what the validator accepts is exactly
  what encoding Unicode scalar values can produce. */
module Utf8 {
  import opened Common
  import opened Bytes

  type Scalar = c: nat | c <= 0x10FFFF && !(0xD800 <= c <= 0xDFFF)

  // ---------------------------------------------------------------- encoding

  function Encode(c: Scalar): (s: bytes)
    ensures 1 <= |s| <= 4
  {
    if c < 0x80 then [c]
    else if c < 0x800 then [0xC0 + c / 64, 0x80 + c % 64]
    else if c < 0x10000 then [0xE0 + c / 4096, 0x80 + c / 64 % 64, 0x80 + c % 64]
    else [0xF0 + c / 262144, 0x80 + c / 4096 % 64, 0x80 + c / 64 % 64, 0x80 + c % 64]
  }

  function EncodeAll(text: seq<Scalar>): bytes {
    if text == [] then [] else Encode(text[0]) + EncodeAll(text[1..])
  }

  // -------------------------------------------------------------- validation

  /** Byte k is there and lies in [low, high]. */
  predicate In(s: bytes, k: nat, low: nat, high: nat) {
    k < |s| && low <= s[k] <= high
  }

  predicate Tail(s: bytes, k: nat) {
    In(s, k, 0x80, 0xBF)
  }

  /** The width of the well-formed sequence s starts with; 0 if it starts with none. */
  function Width(s: bytes): (n: nat)
    ensures n <= |s|
  {
    if s == [] then 0
    else
      var first := s[0];
      if first <= 0x7F then 1
      else if 0xC2 <= first <= 0xDF then (if Tail(s, 1) then 2 else 0)
      else if first == 0xE0 then (if In(s, 1, 0xA0, 0xBF) && Tail(s, 2) then 3 else 0)
      else if 0xE1 <= first <= 0xEC || 0xEE <= first <= 0xEF then (if Tail(s, 1) && Tail(s, 2) then 3 else 0)
      else if first == 0xED then (if In(s, 1, 0x80, 0x9F) && Tail(s, 2) then 3 else 0)
      else if first == 0xF0 then (if In(s, 1, 0x90, 0xBF) && Tail(s, 2) && Tail(s, 3) then 4 else 0)
      else if 0xF1 <= first <= 0xF3 then (if Tail(s, 1) && Tail(s, 2) && Tail(s, 3) then 4 else 0)
      else if first == 0xF4 then (if In(s, 1, 0x80, 0x8F) && Tail(s, 2) && Tail(s, 3) then 4 else 0)
      else 0
  }

  predicate WellFormed(s: bytes)
    decreases |s|
  {
    s == [] || (Width(s) > 0 && WellFormed(s[Width(s)..]))
  }

  method IsValid(data: array<byte>) returns (ok: bool)
    ensures ok <==> exists text :: EncodeAll(text) == data[..]
  {
    var index := 0;
    while index < data.Length
      invariant 0 <= index <= data.Length
      invariant WellFormed(data[..]) == WellFormed(data[index..])
    {
      var width := Width(data[index..]);
      if width == 0 {
        AcceptsExactlyEncodings(data[..]);
        return false;
      }
      assert data[index..][width..] == data[index + width..];
      index := index + width;
    }
    AcceptsExactlyEncodings(data[..]);
    return true;
  }

  // ------------------------------------------------------------- one sequence

  /** The payload bits of a byte, above its marker bits. */
  function Above(b: byte, marker: nat): int {
    b as int - marker
  }

  function Decode(s: bytes): (c: nat)
    requires Width(s) > 0
  {
    if Width(s) == 1 then s[0]
    else if Width(s) == 2 then Above(s[0], 0xC0) * 64 + Above(s[1], 0x80)
    else if Width(s) == 3 then Above(s[0], 0xE0) * 4096 + Above(s[1], 0x80) * 64 + Above(s[2], 0x80)
    else Above(s[0], 0xF0) * 262144 + Above(s[1], 0x80) * 4096 + Above(s[2], 0x80) * 64 + Above(s[3], 0x80)
  }

  /** Every accepted sequence encodes a scalar value. */
  lemma AcceptedIsEncoding(s: bytes)
    requires Width(s) > 0
    ensures var c := Decode(s); c <= 0x10FFFF && !(0xD800 <= c <= 0xDFFF)
    ensures s[..Width(s)] == Encode(Decode(s))
  {
    var c := Decode(s);
    if Width(s) == 2 {
      Digits(0, 0, Above(s[0], 0xC0), Above(s[1], 0x80));
    } else if Width(s) == 3 {
      Digits(0, Above(s[0], 0xE0), Above(s[1], 0x80), Above(s[2], 0x80));
    } else if Width(s) == 4 {
      Digits(Above(s[0], 0xF0), Above(s[1], 0x80), Above(s[2], 0x80), Above(s[3], 0x80));
    }
    assert |s[..Width(s)]| == |Encode(c)|;
  }

  /** The four groups of six bits a number is made of. */
  lemma Digits(a: nat, b: nat, d: nat, e: nat)
    requires b < 64 && d < 64 && e < 64
    ensures
      var c := a * 262144 + b * 4096 + d * 64 + e;
      c / 262144 == a && c / 4096 % 64 == b && c / 64 % 64 == d && c % 64 == e
    ensures a == 0 ==> (b * 4096 + d * 64 + e) / 4096 == b
    ensures a == 0 && b == 0 ==> (d * 64 + e) / 64 == d
  {
    var c := a * 262144 + b * 4096 + d * 64 + e;
    DivisionIs(c, 262144, a, b * 4096 + d * 64 + e);
    DivisionIs(c, 4096, a * 64 + b, d * 64 + e);
    DivisionIs(a * 64 + b, 64, a, b);
    DivisionIs(c, 64, a * 4096 + b * 64 + d, e);
    DivisionIs(a * 4096 + b * 64 + d, 64, a * 64 + b, d);
  }

  /** Every scalar value's encoding is accepted, whatever follows it. */
  lemma EncodingIsAccepted(c: Scalar, rest: bytes)
    ensures Width(Encode(c) + rest) == |Encode(c)|
    ensures Decode(Encode(c) + rest) == c
  {
    var s := Encode(c) + rest;
    assert forall k :: 0 <= k < |Encode(c)| ==> s[k] == Encode(c)[k];
    if 0x10000 <= c {
      SixBits(c);
      SixBits(c / 64);
      SixBits(c / 4096);
    } else if 0x800 <= c {
      SixBits(c);
      SixBits(c / 64);
    }
  }

  lemma SixBits(c: nat)
    ensures c == c / 64 * 64 + c % 64 && c / 64 / 64 == c / 4096 && c / 4096 / 64 == c / 262144
  {
  }

  // -------------------------------------------------------------- whole strings

  lemma {:induction false} EncodingsAreWellFormed(text: seq<Scalar>)
    ensures WellFormed(EncodeAll(text))
  {
    if text != [] {
      EncodingIsAccepted(text[0], EncodeAll(text[1..]));
      EncodingsAreWellFormed(text[1..]);
      var s := EncodeAll(text);
      assert s[Width(s)..] == EncodeAll(text[1..]);
    }
  }

  lemma {:induction false} WellFormedIsEncoded(s: bytes) returns (text: seq<Scalar>)
    requires WellFormed(s)
    ensures EncodeAll(text) == s
    decreases |s|
  {
    if s == [] {
      text := [];
    } else {
      AcceptedIsEncoding(s);
      var rest := WellFormedIsEncoded(s[Width(s)..]);
      text := [Decode(s)] + rest;
      assert s == s[..Width(s)] + s[Width(s)..];
    }
  }

  lemma AcceptsExactlyEncodings(s: bytes)
    ensures WellFormed(s) <==> exists text :: EncodeAll(text) == s
  {
    if WellFormed(s) {
      var text := WellFormedIsEncoded(s);
    }
    if text :| EncodeAll(text) == s {
      EncodingsAreWellFormed(text);
    }
  }

  /** A string decomposes in only one way. */
  lemma {:induction false} DecompositionIsUnique(a: seq<Scalar>, b: seq<Scalar>)
    requires EncodeAll(a) == EncodeAll(b)
    ensures a == b
    decreases |a|
  {
    if a != [] && b != [] {
      EncodingIsAccepted(a[0], EncodeAll(a[1..]));
      EncodingIsAccepted(b[0], EncodeAll(b[1..]));
      var s := EncodeAll(a);
      assert EncodeAll(a[1..]) == s[Width(s)..] == EncodeAll(b[1..]);
      DecompositionIsUnique(a[1..], b[1..]);
      assert a == [a[0]] + a[1..] && b == [b[0]] + b[1..];
    }
  }
}
