/** CBOR heads in their shortest form (RFC 8949 sections 3 and 4.2.1), written
  into a buffer and read back through a cursor. */
module Cbor {
  import opened Common
  import opened Bytes

  const UINT8_MAX: nat := 0xFF
  const UINT16_MAX: nat := 0xFFFF
  const UINT32_MAX: nat := 0xFFFF_FFFF
  const UINT64_MAX: nat := 0xFFFF_FFFF_FFFF_FFFF
  const MAX_DEPTH: nat := 8
  const MAX_ITEMS: nat := 256
  const MAX_STRING: nat := 8192

  type Argument = v: nat | v <= UINT64_MAX
  type Major = m: nat | m < 8

  // ------------------------------------------------------------------- writing

  /** Bytes that follow the initial byte. */
  function ArgumentWidth(value: Argument): nat {
    if value < 24 then 0 else if value <= UINT8_MAX then 1 else if value <= UINT16_MAX then 2
    else if value <= UINT32_MAX then 4 else 8
  }

  function Additional(value: Argument): nat {
    if value < 24 then value else if value <= UINT8_MAX then 24 else if value <= UINT16_MAX then 25
    else if value <= UINT32_MAX then 26 else 27
  }

  function Head(major: Major, value: Argument): (s: bytes)
    ensures |s| == 1 + ArgumentWidth(value)
  {
    [major * 32 + Additional(value)] + BigEndian(value, ArgumentWidth(value))
  }

  method HeadSize(value: Argument) returns (size: nat)
    ensures size == |Head(0, value)|
  {
    if value < 24 { return 1; }
    if value <= UINT8_MAX { return 2; }
    if value <= UINT16_MAX { return 3; }
    if value <= UINT32_MAX { return 5; }
    return 9;
  }

  /** Write the argument bytes, most significant first. */
  method WriteBigEndian(output: array<byte>, at: nat, value: nat, width: nat)
    requires at + width <= output.Length
    modifies output
    ensures output[..] == Splice(old(output[..]), at, BigEndian(value, width))
  {
    var i: nat, rest: nat := width, value;
    assert output[..] == Splice(output[..], at + width, []);
    while i > 0
      invariant 0 <= i <= width
      invariant output[..at + i] == old(output[..at + i]) && output[at + width..] == old(output[at + width..])
      invariant BigEndian(value, width) == BigEndian(rest, i) + output[at + i..at + width]
    {
      i := i - 1;
      output[at + i] := rest % 256;
      assert output[at + i..at + width] == [rest % 256] + output[at + i + 1..at + width];
      rest := rest / 256;
    }
    assert output[..] == output[..at] + output[at..at + width] + output[at + width..];
  }

  method WriteHead(output: array<byte>, at: nat, major: Major, value: Argument) returns (next: nat)
    requires at + |Head(major, value)| <= output.Length
    modifies output
    ensures next == at + |Head(major, value)|
    ensures output[..] == Splice(old(output[..]), at, Head(major, value))
  {
    output[at] := major * 32 + Additional(value);
    assert output[..] == Splice(old(output[..]), at, [major * 32 + Additional(value)]);
    WriteBigEndian(output, at + 1, value, ArgumentWidth(value));
    SpliceTwice(old(output[..]), at, [major * 32 + Additional(value)], BigEndian(value, ArgumentWidth(value)));
    next := at + 1 + ArgumentWidth(value);
  }

  // ------------------------------------------------------------------- reading

  /** The argument in `width` bytes, refused if a shorter form would do. */
  function ReadWide(data: bytes, at: nat, width: nat, least: nat): Option<(Argument, nat)>
    requires width <= 8
  {
    if at + width > |data| then None
    else
      var value := FromBigEndian(data[at..at + width]);
      if value < least || value > UINT64_MAX then None else Some((value, at + width))
  }

  function ReadArgument(data: bytes, at: nat, additional: nat): Option<(Argument, nat)> {
    if additional < 24 then Some((additional, at))
    else if additional == 24 then ReadWide(data, at, 1, 24)
    else if additional == 25 then ReadWide(data, at, 2, UINT8_MAX + 1)
    else if additional == 26 then ReadWide(data, at, 4, UINT16_MAX + 1)
    else if additional == 27 then ReadWide(data, at, 8, UINT32_MAX + 1)
    else None
  }

  datatype HeadRead = HeadRead(major: Major, value: Argument, next: nat)

  function ReadHead(data: bytes, at: nat): Option<HeadRead> {
    if at >= |data| then None
    else match ReadArgument(data, at + 1, data[at] % 32)
      case None => None
      case Some((value, next)) => Some(HeadRead(data[at] / 32, value, next))
  }

  lemma WideFits(s: bytes)
    requires |s| <= 8
    ensures |s| == 1 ==> FromBigEndian(s) <= UINT8_MAX
    ensures |s| == 2 ==> FromBigEndian(s) <= UINT16_MAX
    ensures |s| == 4 ==> FromBigEndian(s) <= UINT32_MAX
    ensures FromBigEndian(s) <= UINT64_MAX
  {
    FromBigEndianRoundTrip(s);
    PowersOf256();
    if |s| < 8 { PowerGrows(|s|, 8); }
  }

  lemma PowersOf256()
    ensures Power256(1) == UINT8_MAX + 1 && Power256(2) == UINT16_MAX + 1
    ensures Power256(4) == UINT32_MAX + 1 && Power256(8) == UINT64_MAX + 1
  {
    assert Power256(3) == 256 * Power256(2);
    assert Power256(5) == 256 * Power256(4);
    assert Power256(6) == 256 * Power256(5);
    assert Power256(7) == 256 * Power256(6);
  }

  lemma {:induction false} PowerGrows(m: nat, n: nat)
    requires m <= n
    ensures Power256(m) <= Power256(n)
  {
    if m < n { PowerGrows(m, n - 1); }
  }

  lemma ReadWideIsBigEndian(data: bytes, at: nat, value: Argument)
    requires 24 <= value
    requires StandsAt(data, at, BigEndian(value, ArgumentWidth(value)))
    ensures ReadArgument(data, at, Additional(value)) == Some((value, at + ArgumentWidth(value)))
  {
    PowersOf256();
    BigEndianRoundTrip(value, ArgumentWidth(value));
  }

  /** A head that was written is read back, whatever follows it. */
  lemma WrittenHeadIsRead(data: bytes, at: nat, major: Major, value: Argument)
    requires StandsAt(data, at, Head(major, value))
    ensures ReadHead(data, at) == Some(HeadRead(major, value, at + |Head(major, value)|))
  {
    var head := Head(major, value);
    assert data[at] == data[at..at + |head|][0] == head[0];
    HeadByte(major, Additional(value));
    if 24 <= value {
      assert data[at + 1..at + |head|] == data[at..at + |head|][1..] == head[1..];
      ReadWideIsBigEndian(data, at + 1, value);
    }
  }

  lemma HeadByte(major: Major, additional: nat)
    requires additional < 32
    ensures (major * 32 + additional) / 32 == major && (major * 32 + additional) % 32 == additional
  {
  }

  lemma ReadWideIsWritten(data: bytes, at: nat, additional: nat)
    requires 24 <= additional && ReadArgument(data, at, additional).Some?
    ensures
      var (value, next) := ReadArgument(data, at, additional).value;
      && Additional(value) == additional && next == at + ArgumentWidth(value) <= |data|
      && data[at..next] == BigEndian(value, ArgumentWidth(value))
  {
    var (value, next) := ReadArgument(data, at, additional).value;
    WideFits(data[at..next]);
    FromBigEndianRoundTrip(data[at..next]);
  }

  /** The only heads accepted are the ones the writer would write. */
  lemma ReadHeadIsWritten(data: bytes, at: nat)
    requires ReadHead(data, at).Some?
    ensures
      var r := ReadHead(data, at).value;
      r.next == at + |Head(r.major, r.value)| <= |data| && StandsAt(data, at, Head(r.major, r.value))
  {
    var r := ReadHead(data, at).value;
    var additional := data[at] % 32;
    if 24 <= additional {
      ReadWideIsWritten(data, at + 1, additional);
    }
    assert data[at..r.next] == [data[at]] + data[at + 1..r.next];
  }

  /** Reading a head succeeds exactly on the deterministic encodings. */
  lemma HeadIsReadExactly(data: bytes, at: nat, major: Major, value: Argument)
    ensures StandsAt(data, at, Head(major, value)) <==>
      ReadHead(data, at) == Some(HeadRead(major, value, at + |Head(major, value)|))
  {
    if StandsAt(data, at, Head(major, value)) { WrittenHeadIsRead(data, at, major, value); }
    if ReadHead(data, at).Some? { ReadHeadIsWritten(data, at); }
  }

  // ------------------------------------------------------------ skipping items

  datatype Skipped = Skipped(next: nat, visited: nat)

  /** Bytes a simple or floating-point value has after its initial byte. */
  function SimpleWidth(additional: nat): Option<nat> {
    if additional < 24 then Some(0) else if additional == 24 then Some(1) else if additional == 25 then Some(2)
    else if additional == 26 then Some(4) else if additional == 27 then Some(8) else None
  }

  function SkipSimple(data: bytes, at: nat, additional: nat): Option<nat> {
    match SimpleWidth(additional)
    case None => None
    case Some(width) =>
      if at + width > |data| then None
      else if additional == 24 && data[at] < 32 then None
      else Some(at + width)
  }

  /** Skip one well-formed item of any kind, within depth and item limits. */
  function Skip(data: bytes, at: nat, depth: nat, visited: nat): (r: Option<Skipped>)
    ensures r.Some? ==> at < r.value.next <= |data| && visited < r.value.visited <= MAX_ITEMS
    decreases MAX_ITEMS + 1 - visited, 0
  {
    if depth > MAX_DEPTH || at >= |data| || visited >= MAX_ITEMS then None
    else
      var major, additional := data[at] / 32, data[at] % 32;
      if major == 7 then
        match SkipSimple(data, at + 1, additional)
        case None => None
        case Some(next) => Some(Skipped(next, visited + 1))
      else match ReadArgument(data, at + 1, additional)
        case None => None
        case Some((value, next)) =>
          if next > |data| then None
          else if major <= 1 then Some(Skipped(next, visited + 1))
          else if major <= 3 then
            if value > MAX_STRING || next + value > |data| then None else Some(Skipped(next + value, visited + 1))
          else if major == 4 then
            if value > MAX_ITEMS then None else SkipMany(data, next, depth + 1, visited + 1, value)
          else if major == 5 then
            if value > MAX_ITEMS / 2 then None else SkipMany(data, next, depth + 1, visited + 1, 2 * value)
          else SkipMany(data, next, depth + 1, visited + 1, 1)
  }

  function SkipMany(data: bytes, at: nat, depth: nat, visited: nat, count: nat): (r: Option<Skipped>)
    requires at <= |data| && visited <= MAX_ITEMS
    ensures r.Some? ==> at <= r.value.next <= |data| && visited <= r.value.visited <= MAX_ITEMS
    decreases MAX_ITEMS + 1 - visited, count + 1
  {
    if count == 0 then Some(Skipped(at, visited))
    else match Skip(data, at, depth, visited)
      case None => None
      case Some(s) => SkipMany(data, s.next, depth, s.visited, count - 1)
  }
}
