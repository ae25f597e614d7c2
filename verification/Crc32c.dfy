/** The bitwise CRC32C (RFC 3720 section 12.1), and what it is sure to notice.
  The 32-bit register is modelled by its bits, least significant first. */
module Crc32c {
  import opened Bytes

  const WIDTH: nat := 32

  type Register = s: seq<bool> | |s| == WIDTH witness Repeat(false, WIDTH)

  function Repeat(bit: bool, n: nat): (bits: seq<bool>)
    ensures |bits| == n && forall i :: 0 <= i < n ==> bits[i] == bit
  {
    if n == 0 then [] else [bit] + Repeat(bit, n - 1)
  }

  /** 0x82F63B78, least significant bit first. */
  const POLYNOMIAL: Register := [
    false, false, false, true, true, true, true, false,
    true, true, false, true, true, true, false, false,
    false, true, true, false, true, true, true, true,
    false, true, false, false, false, false, false, true]

  const ONES: Register := Repeat(true, WIDTH)

  function Value(bits: seq<bool>): nat {
    if bits == [] then 0 else (if bits[0] then 1 else 0) + 2 * Value(bits[1..])
  }

  function ToBits(value: nat, width: nat): (bits: seq<bool>)
    ensures |bits| == width
  {
    if width == 0 then [] else [value % 2 == 1] + ToBits(value / 2, width - 1)
  }

  /** Exclusive or; b may be the shorter one and then acts on the low bits. */
  function Xor(a: seq<bool>, b: seq<bool>): (r: seq<bool>)
    requires |b| <= |a|
    ensures |r| == |a|
  {
    seq(|a|, i requires 0 <= i < |a| => if i < |b| then a[i] != b[i] else a[i])
  }

  function ShiftRight(c: Register): Register {
    c[1..] + [false]
  }

  /** One bit: shift right, and add the polynomial if a one fell out. */
  function BitStep(c: Register): Register {
    if c[0] then Xor(ShiftRight(c), POLYNOMIAL) else ShiftRight(c)
  }

  function Steps(c: Register, n: nat): Register
    decreases n
  {
    if n == 0 then c else Steps(BitStep(c), n - 1)
  }

  /** The register after feeding bytes to it, eight bit steps each. */
  function Feed(c: Register, data: bytes): Register
    decreases |data|
  {
    if data == [] then c else Feed(Steps(Xor(c, ToBits(data[0], 8)), 8), data[1..])
  }

  function Crc(data: bytes): nat {
    Value(Xor(Feed(ONES, data), ONES))
  }

  method Compute(data: array<byte>, first: nat, end: nat) returns (crc: nat)
    requires first <= end <= data.Length
    ensures crc == Crc(data[first..end])
  {
    var register := ONES;
    for index := first to end
      invariant Feed(register, data[index..end]) == Feed(ONES, data[first..end])
    {
      register := AddByte(register, data[index]);
      assert data[index..end][1..] == data[index + 1..end];
    }
    crc := Value(Xor(register, ONES));
  }

  method AddByte(c: Register, b: byte) returns (crc: Register)
    ensures crc == Steps(Xor(c, ToBits(b, 8)), 8)
  {
    crc := Xor(c, ToBits(b, 8));
    ghost var goal := Steps(crc, 8);
    for bit := 0 to 8
      invariant Steps(crc, 8 - bit) == goal
    {
      crc := if crc[0] then Xor(ShiftRight(crc), POLYNOMIAL) else ShiftRight(crc);
    }
  }

  function Power2(n: nat): (p: nat)
    ensures 0 < p
  {
    if n == 0 then 1 else 2 * Power2(n - 1)
  }

  lemma {:induction false} PowersAdd(m: nat, n: nat)
    ensures Power2(m + n) == Power2(m) * Power2(n)
  {
    if m != 0 {
      PowersAdd(m - 1, n);
      assert 2 * (Power2(m - 1) * Power2(n)) == Power2(m) * Power2(n);
    }
  }

  lemma WordPowers()
    ensures Power2(8) == 0x100 && Power2(31) == 0x8000_0000 && Power2(32) == 0x1_0000_0000
  {
    assert Power2(4) == 2 * Power2(3) == 16;
    PowersAdd(4, 4);
    PowersAdd(8, 8);
    PowersAdd(16, 16);
    assert Power2(32) == 2 * Power2(31);
  }

  function Bit(b: bool): nat { if b then 1 else 0 }

  lemma {:induction false} LowNibble(bits: seq<bool>)
    requires |bits| >= 4
    ensures Value(bits) == Bit(bits[0]) + 2 * Bit(bits[1]) + 4 * Bit(bits[2]) + 8 * Bit(bits[3]) + 16 * Value(bits[4..])
  {
    var t := bits[1..];
    var u := t[1..];
    var v := u[1..];
    assert Value(v) == Bit(v[0]) + 2 * Value(v[1..]);
    assert Value(t) == Bit(t[0]) + 2 * Value(u);
    assert v[1..] == bits[4..];
  }

  function Nibble(p: Register, i: nat): nat
    requires i + 4 <= WIDTH
  {
    Bit(p[i]) + 2 * Bit(p[i + 1]) + 4 * Bit(p[i + 2]) + 8 * Bit(p[i + 3])
  }

  lemma NextNibble(p: Register, i: nat)
    requires i + 4 <= WIDTH
    ensures Value(p[i..]) == Nibble(p, i) + 16 * Value(p[i + 4..])
  {
    LowNibble(p[i..]);
    assert p[i..][4..] == p[i + 4..];
  }

  lemma LowNibbles(p: Register)
    requires p == POLYNOMIAL
    ensures Nibble(p, 0) == 0x8 && Nibble(p, 4) == 0x7
  {
  }

  lemma LowerNibbles(p: Register)
    requires p == POLYNOMIAL
    ensures Nibble(p, 8) == 0xB && Nibble(p, 12) == 0x3
  {
  }

  lemma HigherNibbles(p: Register)
    requires p == POLYNOMIAL
    ensures Nibble(p, 16) == 0x6 && Nibble(p, 20) == 0xF
  {
  }

  lemma HighNibbles(p: Register)
    requires p == POLYNOMIAL
    ensures Nibble(p, 24) == 0x2 && Nibble(p, 28) == 0x8
  {
  }

  lemma LowHalf(p: Register)
    ensures Value(p) == Nibble(p, 0) + 16 * (Nibble(p, 4) + 16 * (Nibble(p, 8) + 16 * (Nibble(p, 12) + 16 * Value(p[16..]))))
  {
    NextNibble(p, 12);
    NextNibble(p, 8);
    NextNibble(p, 4);
    NextNibble(p, 0);
    assert p[0..] == p;
  }

  lemma HighHalf(p: Register)
    ensures Value(p[16..]) == Nibble(p, 16) + 16 * (Nibble(p, 20) + 16 * (Nibble(p, 24) + 16 * Nibble(p, 28)))
  {
    NextNibble(p, 28);
    NextNibble(p, 24);
    NextNibble(p, 20);
    NextNibble(p, 16);
    assert p[32..] == [];
  }

  /** The constant is the reflected Castagnoli polynomial. */
  lemma PolynomialIs(p: Register)
    requires p == POLYNOMIAL
    ensures Value(p) == 0x82F6_3B78
  {
    LowNibbles(p);
    LowerNibbles(p);
    HigherNibbles(p);
    HighNibbles(p);
    LowHalf(p);
    HighHalf(p);
  }

  // ------------------------------------------------------- each step is one-to-one

  /** The highest bit tells whether the polynomial was added. */
  lemma BitStepIsInjective(x: Register, y: Register)
    requires BitStep(x) == BitStep(y)
    ensures x == y
  {
    assert BitStep(x)[31] == x[0] && BitStep(y)[31] == y[0];
    forall i | 0 < i < WIDTH ensures x[i] == y[i] {
      assert BitStep(x)[i - 1] == (x[i] != (x[0] && POLYNOMIAL[i - 1]));
      assert BitStep(y)[i - 1] == (y[i] != (y[0] && POLYNOMIAL[i - 1]));
    }
  }

  lemma {:induction false} StepsAreInjective(x: Register, y: Register, n: nat)
    requires Steps(x, n) == Steps(y, n)
    ensures x == y
    decreases n
  {
    if n != 0 {
      StepsAreInjective(BitStep(x), BitStep(y), n - 1);
      BitStepIsInjective(x, y);
    }
  }

  lemma XorCancels(x: seq<bool>, y: seq<bool>, p: seq<bool>)
    requires |p| <= |x| == |y| && Xor(x, p) == Xor(y, p)
    ensures x == y
  {
    forall i | 0 <= i < |x| ensures x[i] == y[i] {
      assert Xor(x, p)[i] == Xor(y, p)[i];
    }
  }

  lemma XorTells(c: Register, p: seq<bool>, q: seq<bool>)
    requires |p| == |q| <= WIDTH && Xor(c, p) == Xor(c, q)
    ensures p == q
  {
    forall i | 0 <= i < |p| ensures p[i] == q[i] {
      assert Xor(c, p)[i] == Xor(c, q)[i];
    }
  }

  /** Equal bytes take different registers to different registers. */
  lemma {:induction false} FeedIsInjective(x: Register, y: Register, data: bytes)
    requires Feed(x, data) == Feed(y, data)
    ensures x == y
    decreases |data|
  {
    if data != [] {
      var w := ToBits(data[0], 8);
      FeedIsInjective(Steps(Xor(x, w), 8), Steps(Xor(y, w), 8), data[1..]);
      StepsAreInjective(Xor(x, w), Xor(y, w), 8);
      XorCancels(x, y, w);
    }
  }

  // -------------------------------------------------------------- short bursts

  /** Bits above the lowest one just move down one place. */
  lemma BitStepShifts(c: Register, w: seq<bool>)
    requires 0 < |w| <= WIDTH
    ensures BitStep(Xor(c, w)) == Xor(BitStep(Xor(c, w[..1])), w[1..])
  {
    var x, y := Xor(c, w), Xor(c, w[..1]);
    forall i | 0 <= i < WIDTH ensures BitStep(x)[i] == Xor(BitStep(y), w[1..])[i] {
    }
  }

  /** Adding bits that the first n steps do not look at can wait until after them. */
  lemma {:induction false} StepsShift(c: Register, w: seq<bool>, n: nat)
    requires n <= |w| <= WIDTH
    ensures Steps(Xor(c, w), n) == Xor(Steps(Xor(c, w[..n]), n), w[n..])
    decreases n
  {
    if n == 0 {
      assert w[n..] == w && Xor(c, w[..0]) == c;
    } else {
      BitStepShifts(c, w);
      BitStepShifts(c, w[..n]);
      assert w[..n][..1] == w[..1] && w[..n][1..] == w[1..][..n - 1] && w[1..][n - 1..] == w[n..];
      StepsShift(BitStep(Xor(c, w[..1])), w[1..], n - 1);
    }
  }

  function AllBits(data: bytes): (bits: seq<bool>)
    ensures |bits| == 8 * |data|
  {
    if data == [] then [] else ToBits(data[0], 8) + AllBits(data[1..])
  }

  lemma {:induction false} StepsAdd(c: Register, m: nat, n: nat)
    ensures Steps(Steps(c, m), n) == Steps(c, m + n)
    decreases m
  {
    if m != 0 {
      StepsAdd(BitStep(c), m - 1, n);
    }
  }

  /** Up to four bytes can be fed all at once. */
  lemma {:induction false} FeedIsOneXor(c: Register, data: bytes)
    requires |data| <= 4
    ensures Feed(c, data) == Steps(Xor(c, AllBits(data)), 8 * |data|)
    decreases |data|
  {
    if data == [] {
      assert Xor(c, []) == c;
    } else {
      var w, rest := AllBits(data), AllBits(data[1..]);
      FeedIsOneXor(Steps(Xor(c, ToBits(data[0], 8)), 8), data[1..]);
      assert w[..8] == ToBits(data[0], 8) && w[8..] == rest;
      StepsShift(c, w, 8);
      StepsAdd(Xor(c, w), 8, 8 * |data[1..]|);
    }
  }

  // ------------------------------------------------------------ the main result

  lemma {:induction false} ValueOfBits(value: nat, width: nat)
    requires value < Power2(width)
    ensures Value(ToBits(value, width)) == value
  {
    if width != 0 {
      ValueOfBits(value / 2, width - 1);
      assert ToBits(value, width)[1..] == ToBits(value / 2, width - 1);
    }
  }

  lemma {:induction false} ValueIsInjective(a: seq<bool>, b: seq<bool>)
    requires |a| == |b| && Value(a) == Value(b)
    ensures a == b
  {
    if a != [] {
      ValueIsInjective(a[1..], b[1..]);
      assert a == [a[0]] + a[1..] && b == [b[0]] + b[1..];
    }
  }

  lemma {:induction false} ValueIsBounded(a: seq<bool>)
    ensures Value(a) < Power2(|a|)
  {
    if a != [] {
      ValueIsBounded(a[1..]);
    }
  }

  lemma {:induction false} AllBitsAreInjective(a: bytes, b: bytes)
    requires |a| == |b| && AllBits(a) == AllBits(b)
    ensures a == b
  {
    if a != [] {
      assert ToBits(a[0], 8) == AllBits(a)[..8] == ToBits(b[0], 8);
      assert AllBits(a[1..]) == AllBits(a)[8..] == AllBits(b[1..]);
      WordPowers();
      ValueOfBits(a[0], 8);
      ValueOfBits(b[0], 8);
      AllBitsAreInjective(a[1..], b[1..]);
      assert a == [a[0]] + a[1..] && b == [b[0]] + b[1..];
    }
  }

  lemma {:induction false} FeedJoins(c: Register, a: bytes, b: bytes)
    ensures Feed(c, a + b) == Feed(Feed(c, a), b)
    decreases |a|
  {
    if a == [] {
      assert a + b == b;
    } else {
      assert (a + b)[1..] == a[1..] + b;
      FeedJoins(Steps(Xor(c, ToBits(a[0], 8)), 8), a[1..], b);
    }
  }

  /** Two equally long buffers that differ only inside one run of at most four
      bytes never have the same checksum. */
  lemma ShortBurstIsNoticed(prefix: bytes, a: bytes, b: bytes, suffix: bytes)
    requires |a| == |b| <= 4 && a != b
    ensures Crc(prefix + a + suffix) != Crc(prefix + b + suffix)
  {
    if Crc(prefix + a + suffix) == Crc(prefix + b + suffix) {
      var c := Feed(ONES, prefix);
      FeedJoins(ONES, prefix, a);
      FeedJoins(ONES, prefix, b);
      FeedJoins(ONES, prefix + a, suffix);
      FeedJoins(ONES, prefix + b, suffix);
      var x, y := Feed(c, a), Feed(c, b);
      ValueIsInjective(Xor(Feed(x, suffix), ONES), Xor(Feed(y, suffix), ONES));
      XorCancels(Feed(x, suffix), Feed(y, suffix), ONES);
      FeedIsInjective(x, y, suffix);
      FeedIsOneXor(c, a);
      FeedIsOneXor(c, b);
      StepsAreInjective(Xor(c, AllBits(a)), Xor(c, AllBits(b)), 8 * |a|);
      XorTells(c, AllBits(a), AllBits(b));
      AllBitsAreInjective(a, b);
    }
  }

  lemma CrcFitsWord(data: bytes)
    ensures Crc(data) < 0x1_0000_0000
  {
    ValueIsBounded(Xor(Feed(ONES, data), ONES));
    WordPowers();
  }

  // ------------------------------------------------------ the checksum of one letter

  /** 0xFFFFFF9E. */
  const A0: Register := [
    false, true, true, true, true, false, false, true,
    true, true, true, true, true, true, true, true,
    true, true, true, true, true, true, true, true,
    true, true, true, true, true, true, true, true]

  /** 0x7FFFFFCF. */
  const A1: Register := [
    true, true, true, true, false, false, true, true,
    true, true, true, true, true, true, true, true,
    true, true, true, true, true, true, true, true,
    true, true, true, true, true, true, true, false]

  /** 0xBD09C49F. */
  const A2: Register := [
    true, true, true, true, true, false, false, true,
    false, false, true, false, false, false, true, true,
    true, false, false, true, false, false, false, false,
    true, false, true, true, true, true, false, true]

  /** 0xDC72D937. */
  const A3: Register := [
    true, true, true, false, true, true, false, false,
    true, false, false, true, true, false, true, true,
    false, true, false, false, true, true, true, false,
    false, false, true, true, true, false, true, true]

  /** 0xECCF57E3. */
  const A4: Register := [
    true, true, false, false, false, true, true, true,
    true, true, true, false, true, false, true, false,
    true, true, true, true, false, false, true, true,
    false, false, true, true, false, true, true, true]

  /** 0xF4919089. */
  const A5: Register := [
    true, false, false, true, false, false, false, true,
    false, false, false, false, true, false, false, true,
    true, false, false, false, true, false, false, true,
    false, false, true, false, true, true, true, true]

  /** 0xF8BEF33C. */
  const A6: Register := [
    false, false, true, true, true, true, false, false,
    true, true, false, false, true, true, true, true,
    false, true, true, true, true, true, false, true,
    false, false, false, true, true, true, true, true]

  /** 0x7C5F799E. */
  const A7: Register := [
    false, true, true, true, true, false, false, true,
    true, false, false, true, true, true, true, false,
    true, true, true, true, true, false, true, false,
    false, false, true, true, true, true, true, false]

  /** 0x3E2FBCCF. */
  const A8: Register := [
    true, true, true, true, false, false, true, true,
    false, false, true, true, true, true, false, true,
    true, true, true, true, false, true, false, false,
    false, true, true, true, true, true, false, false]

  lemma {:induction false} Step1()
    ensures BitStep(A0) == A1
  {
  }

  lemma {:induction false} Step2()
    ensures BitStep(A1) == A2
  {
  }

  lemma {:induction false} Step3()
    ensures BitStep(A2) == A3
  {
  }

  lemma {:induction false} Step4()
    ensures BitStep(A3) == A4
  {
  }

  lemma {:induction false} Step5()
    ensures BitStep(A4) == A5
  {
  }

  lemma {:induction false} Step6()
    ensures BitStep(A5) == A6
  {
  }

  lemma {:induction false} Step7()
    ensures BitStep(A6) == A7
  {
  }

  lemma {:induction false} Step8()
    ensures BitStep(A7) == A8
  {
  }

  lemma {:induction false} EightSteps()
    ensures Steps(A0, 8) == A8
  {
    Step1(); Step2(); Step3(); Step4();
    Step5(); Step6(); Step7(); Step8();
    assert Steps(A4, 4) == Steps(A8, 0);
    assert Steps(A0, 8) == Steps(A4, 4);
  }

  lemma {:induction false} LetterBits()
    ensures ToBits(0x61, 8) == [true, false, false, false, false, true, true, false]
  {
    assert ToBits(0x06, 4) == [false, true, true, false];
  }

  lemma {:induction false} LetterIsFedLowFirst()
    ensures Xor(ONES, ToBits(0x61, 8)) == A0
  {
    LetterBits();
  }

  /** The inverted last register, by its nibbles. */
  lemma {:induction false} LetterValue(p: Register)
    requires p == Xor(A8, ONES)
    ensures Value(p) == 0xC1D0_4330
  {
    LowHalf(p);
    HighHalf(p);
    assert Nibble(p, 0) == 0x0;
    assert Nibble(p, 4) == 0x3;
    assert Nibble(p, 8) == 0x3;
    assert Nibble(p, 12) == 0x4;
    assert Nibble(p, 16) == 0x0;
    assert Nibble(p, 20) == 0xD;
    assert Nibble(p, 24) == 0x1;
    assert Nibble(p, 28) == 0xC;
  }

  /** The published checksum of the single letter "a". */
  lemma {:induction false} ChecksumOfLetter()
    ensures Crc([0x61]) == 0xC1D0_4330
  {
    LetterIsFedLowFirst();
    EightSteps();
    LetterValue(Xor(A8, ONES));
    assert Feed(ONES, [0x61]) == A8;
  }
}
