/** Bytes, and numbers written as bytes in either order. */
module Bytes {
  type byte = b: nat | b < 256
  type bytes = seq<byte>

  function Power256(n: nat): (p: nat)
    ensures 0 < p
  {
    if n == 0 then 1 else 256 * Power256(n - 1)
  }

  /** The last byte is the least significant one. */
  function BigEndian(value: nat, width: nat): (s: bytes)
    ensures |s| == width
  {
    if width == 0 then [] else BigEndian(value / 256, width - 1) + [value % 256]
  }

  function FromBigEndian(s: bytes): nat {
    if s == [] then 0 else FromBigEndian(s[..|s| - 1]) * 256 + s[|s| - 1]
  }

  /** The first byte is the least significant one. */
  function LittleEndian(value: nat, width: nat): (s: bytes)
    ensures |s| == width
  {
    if width == 0 then [] else [value % 256] + LittleEndian(value / 256, width - 1)
  }

  function FromLittleEndian(s: bytes): nat {
    if s == [] then 0 else s[0] + 256 * FromLittleEndian(s[1..])
  }

  lemma {:induction false} BigEndianRoundTrip(value: nat, width: nat)
    requires value < Power256(width)
    ensures FromBigEndian(BigEndian(value, width)) == value
  {
    if width != 0 {
      BigEndianRoundTrip(value / 256, width - 1);
      assert BigEndian(value, width)[..width - 1] == BigEndian(value / 256, width - 1);
    }
  }

  lemma {:induction false} FromBigEndianRoundTrip(s: bytes)
    ensures FromBigEndian(s) < Power256(|s|)
    ensures BigEndian(FromBigEndian(s), |s|) == s
  {
    if s != [] {
      var rest := s[..|s| - 1];
      FromBigEndianRoundTrip(rest);
      LowByte(s[|s| - 1], FromBigEndian(rest));
      assert s == rest + [s[|s| - 1]];
    }
  }

  lemma {:induction false} LittleEndianRoundTrip(value: nat, width: nat)
    requires value < Power256(width)
    ensures FromLittleEndian(LittleEndian(value, width)) == value
  {
    if width != 0 {
      LittleEndianRoundTrip(value / 256, width - 1);
      assert LittleEndian(value, width)[1..] == LittleEndian(value / 256, width - 1);
    }
  }

  lemma LowByte(b: byte, rest: nat)
    ensures (b + 256 * rest) / 256 == rest && (b + 256 * rest) % 256 == b
  {
  }

  /** s with the bytes from `at` on replaced by t. */
  function Splice(s: bytes, at: nat, t: bytes): (r: bytes)
    requires at + |t| <= |s|
    ensures |r| == |s|
  {
    s[..at] + t + s[at + |t|..]
  }

  /** Does t stand in s at this place? */
  predicate StandsAt(s: bytes, at: nat, t: bytes) {
    at + |t| <= |s| && s[at..at + |t|] == t
  }

  lemma SpliceTwice(s: bytes, at: nat, t: bytes, u: bytes)
    requires at + |t| + |u| <= |s|
    ensures Splice(Splice(s, at, t), at + |t|, u) == Splice(s, at, t + u)
  {
  }

  lemma SpliceOneMore(s: bytes, at: nat, t: bytes, i: nat)
    requires i < |t| && at + |t| <= |s|
    ensures Splice(s, at, t[..i + 1]) == Splice(s, at, t[..i])[at + i := t[i]]
  {
  }

  lemma SpliceStands(s: bytes, at: nat, t: bytes)
    requires at + |t| <= |s|
    ensures StandsAt(Splice(s, at, t), at, t)
  {
  }

  /** What lies outside the written part is untouched. */
  lemma SpliceKeeps(s: bytes, at: nat, t: bytes, low: nat, high: nat)
    requires at + |t| <= |s| && low <= high <= |s|
    requires high <= at || at + |t| <= low
    ensures Splice(s, at, t)[low..high] == s[low..high]
  {
  }
}
