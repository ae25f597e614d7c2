/** The result container: a 96-byte header, a directory of 40-byte entries, and
  payloads. Appending sections shifts the payloads to make room in the directory. */
module Container {
  import opened Common
  import opened Bytes

  // Field widths in bytes.
  const BYTE: nat := 1
  const SHORT: nat := 2
  const WORD: nat := 4
  const LONG: nat := 8
  const BYTE_LIMIT: nat := 0x100
  const SHORT_LIMIT: nat := 0x1_0000
  const WORD_LIMIT: nat := 0x1_0000_0000
  const LONG_LIMIT: nat := 0x1_0000_0000_0000_0000

  const HEADER: nat := 96
  const ENTRY: nat := 40
  const COUNT_AT: nat := 20
  const DIRECTORY_AT: nat := 24
  const SIZE_AT: nat := 32
  const HEADER_CRC_AT: nat := 92

  /** What the container needs to know of its numbers and its checksum: a number
      written into a field is read back, and a checksum fits its field. */
  datatype Codec = Codec(digits: (nat, nat) -> bytes, number: bytes -> nat, crc: bytes -> nat)

  function FieldLimit(width: nat): nat {
    if width == LONG then LONG_LIMIT else if width == WORD then WORD_LIMIT else if width == SHORT then SHORT_LIMIT
    else if width == BYTE then BYTE_LIMIT else 0
  }

  ghost predicate CodecOk(c: Codec) {
    && (forall value: nat, width: nat :: |c.digits(value, width)| == width)
    && (forall value: nat, width: nat :: value < FieldLimit(width) ==> c.number(c.digits(value, width)) == value)
    && (forall data :: c.crc(data) < WORD_LIMIT)
  }

  type Format = c: Codec | CodecOk(c) ghost witness LittleEndianCodec((data: bytes) => 0)

  /** Least significant byte first, with any 32-bit checksum. */
  function LittleEndianCodec(crc: bytes -> nat): (c: Codec)
    requires forall data :: crc(data) < WORD_LIMIT
    ensures CodecOk(c) && c.crc == crc
  {
    LittleEndianIsOk();
    Codec((value: nat, width: nat) => LittleEndian(value, width), (s: bytes) => FromLittleEndian(s), crc)
  }

  lemma LittleEndianIsOk()
    ensures forall value: nat, width: nat :: value < FieldLimit(width) ==>
      FromLittleEndian(LittleEndian(value, width)) == value
  {
    forall value: nat, width: nat | value < FieldLimit(width)
      ensures FromLittleEndian(LittleEndian(value, width)) == value
    {
      LimitsArePowers();
      LittleEndianRoundTrip(value, width);
    }
  }

  /** The limits are the powers of 256 the field widths ask for. */
  lemma LimitsArePowers()
    ensures Power256(BYTE) == BYTE_LIMIT && Power256(SHORT) == SHORT_LIMIT && Power256(WORD) == WORD_LIMIT && Power256(LONG) == LONG_LIMIT
  {
    assert Power256(3) == 256 * Power256(2) == 0x100_0000;
    assert Power256(5) == 256 * Power256(4);
    assert Power256(6) == 256 * Power256(5);
    assert Power256(7) == 256 * Power256(6);
  }

  // ------------------------------------------------------------------- fields

  function U(fmt: Format, b: bytes, at: nat, width: nat): nat
    requires at + width <= |b|
  {
    fmt.number(b[at..at + width])
  }

  function Put(fmt: Format, b: bytes, at: nat, value: nat, width: nat): (r: bytes)
    requires at + width <= |b|
    ensures |r| == |b|
  {
    Splice(b, at, fmt.digits(value, width))
  }

  lemma PutIsRead(fmt: Format, b: bytes, at: nat, value: nat, width: nat)
    requires at + width <= |b| && value < FieldLimit(width)
    ensures U(fmt, Put(fmt, b, at, value, width), at, width) == value
  {
    SpliceStands(b, at, fmt.digits(value, width));
  }

  /** Two buffers agree on [low, high). */
  ghost predicate Same(a: bytes, b: bytes, low: nat, high: nat) {
    |a| == |b| && low <= high <= |a| && a[low..high] == b[low..high]
  }

  lemma SameWithin(a: bytes, b: bytes, low: nat, high: nat, i: nat, j: nat)
    requires Same(a, b, low, high) && low <= i <= j <= high
    ensures Same(a, b, i, j)
  {
    forall k | i <= k < j ensures a[k] == b[k] {
      assert a[low..high][k - low] == b[low..high][k - low];
    }
  }

  function EntryAt(i: nat): nat {
    HEADER + ENTRY * i
  }

  datatype Entry = Entry(id: bytes, version: nat, reserved: nat, offset: nat, size: nat, rawSize: nat, crc: nat, tail: nat)

  function ReadEntry(fmt: Format, b: bytes, i: nat): Entry
    requires EntryAt(i + 1) <= |b|
  {
    var at := EntryAt(i);
    Entry(b[at..at + 4], U(fmt, b, at + 4, SHORT), U(fmt, b, at + 6, SHORT), U(fmt, b, at + 8, LONG), U(fmt, b, at + 16, LONG), U(fmt, b, at + 24, LONG),
          U(fmt, b, at + 32, WORD), U(fmt, b, at + 36, WORD))
  }

  // -------------------------------------------------------------- well-formed

  function Count(fmt: Format, b: bytes): nat
    requires HEADER <= |b|
  {
    U(fmt, b, COUNT_AT, WORD)
  }

  /** One section: inside the payload area, aligned, with the right checksum. */
  ghost predicate SectionOk(fmt: Format, b: bytes, size: nat, count: nat, i: nat)
    requires EntryAt(count) <= size <= |b| && i < count
  {
    var e := ReadEntry(fmt, b, i);
    && EntryAt(count) <= e.offset && e.offset + e.size <= size
    && e.offset % 8 == 0 && e.rawSize == e.size && e.crc == fmt.crc(b[e.offset..e.offset + e.size])
  }

  /** The first `size` bytes of the buffer are a container. */
  ghost predicate WellFormed(fmt: Format, b: bytes, size: nat) {
    && HEADER <= size <= |b|
    && var n := Count(fmt, b);
    && 0 < n && EntryAt(n) <= size
    && U(fmt, b, DIRECTORY_AT, LONG) == HEADER && U(fmt, b, SIZE_AT, LONG) == size
    && U(fmt, b, HEADER_CRC_AT, WORD) == fmt.crc(b[..HEADER_CRC_AT])
    && forall i :: 0 <= i < n ==> SectionOk(fmt, b, size, n, i)
  }

  // ---------------------------------------------------------------- extending

  datatype Section = Section(id: bytes, payload: bytes)

  ghost predicate Named(sections: seq<Section>) {
    forall j :: 0 <= j < |sections| ==> |sections[j].id| == 4
  }

  function Align8(value: nat): (r: nat)
    ensures NextMultiple(value, r)
  {
    (value + 7) / 8 * 8
  }

  /** The offsets of the sections and where the last one ends. */
  datatype Layout = Layout(offsets: seq<nat>, total: nat)

  /** The sections are laid out in order from `start` on: aligned, at most seven
      bytes apart, the last one ending at the total. */
  ghost predicate Laid(start: nat, sections: seq<Section>, lay: Layout) {
    && |lay.offsets| == |sections|
    && (forall j :: 0 <= j < |sections| ==> LaidAt(start, sections, lay, j))
    && lay.total == EndBefore(start, sections, lay, |sections|)
  }

  /** Section j starts at the first multiple of eight behind the one before it. */
  ghost predicate LaidAt(start: nat, sections: seq<Section>, lay: Layout, j: nat)
    requires j < |sections| == |lay.offsets|
  {
    NextMultiple(EndBefore(start, sections, lay, j), lay.offsets[j])
  }

  predicate NextMultiple(end: nat, offset: nat) {
    end <= offset < end + 8 && offset % 8 == 0
  }

  /** Where the first j sections end. */
  function EndBefore(start: nat, sections: seq<Section>, lay: Layout, j: nat): nat
    requires j <= |sections| && |lay.offsets| == |sections|
  {
    if j == 0 then start else lay.offsets[j - 1] + |sections[j - 1].payload|
  }

  lemma {:induction false} EndsGrow(start: nat, sections: seq<Section>, lay: Layout, m: nat, n: nat)
    requires Laid(start, sections, lay) && m <= n <= |sections|
    ensures EndBefore(start, sections, lay, m) <= EndBefore(start, sections, lay, n)
    decreases n
  {
    if m < n {
      EndsGrow(start, sections, lay, m, n - 1);
      assert LaidAt(start, sections, lay, n - 1);
    }
  }

  /** The layout, section by section. */
  function LayoutOf(start: nat, sections: seq<Section>): (lay: Layout)
    ensures |lay.offsets| == |sections| && start <= lay.total
    decreases |sections|
  {
    if sections == [] then Layout([], start)
    else
      var offset := Align8(start);
      var rest := LayoutOf(offset + |sections[0].payload|, sections[1..]);
      Layout([offset] + rest.offsets, rest.total)
  }

  lemma {:induction false} LayoutOfIsLaid(start: nat, sections: seq<Section>)
    ensures Laid(start, sections, LayoutOf(start, sections))
    decreases |sections|
  {
    if sections != [] {
      var lay, offset := LayoutOf(start, sections), Align8(start);
      var rest := LayoutOf(offset + |sections[0].payload|, sections[1..]);
      LayoutOfIsLaid(offset + |sections[0].payload|, sections[1..]);
      forall j | 0 <= j < |sections| ensures LaidAt(start, sections, lay, j) {
        if j > 0 {
          assert LaidAt(offset + |sections[0].payload|, sections[1..], rest, j - 1);
        }
      }
    }
  }

  /** What a reader needs of the layout: every section aligned and in bounds. */
  ghost predicate InBounds(start: nat, sections: seq<Section>, lay: Layout) {
    && |lay.offsets| == |sections| && start <= lay.total
    && forall j :: 0 <= j < |sections| ==> Placed(start, lay.offsets[j], |sections[j].payload|, lay.total)
  }

  predicate Placed(start: nat, offset: nat, size: nat, total: nat) {
    start <= offset && offset % 8 == 0 && offset + size <= total
  }

  lemma LaidIsInBounds(start: nat, sections: seq<Section>, lay: Layout)
    requires Laid(start, sections, lay)
    ensures InBounds(start, sections, lay)
  {
    EndsGrow(start, sections, lay, 0, |sections|);
    forall j | 0 <= j < |sections| ensures Placed(start, lay.offsets[j], |sections[j].payload|, lay.total) {
      EndsGrow(start, sections, lay, 0, j);
      assert LaidAt(start, sections, lay, j);
      EndsGrow(start, sections, lay, j + 1, |sections|);
    }
  }

  function OffsetOf(fmt: Format, b: bytes, i: nat): nat
    requires EntryAt(i + 1) <= |b|
  {
    U(fmt, b, EntryAt(i) + 8, LONG)
  }

  /** The smallest payload offset among the first n entries. */
  function FirstPayload(fmt: Format, b: bytes, n: nat): nat
    requires 0 < n && EntryAt(n) <= |b|
  {
    var offset := OffsetOf(fmt, b, n - 1);
    if n == 1 then offset
    else if FirstPayload(fmt, b, n - 1) <= offset then FirstPayload(fmt, b, n - 1) else offset
  }

  lemma {:induction false} FirstPayloadIsLeast(fmt: Format, b: bytes, n: nat, i: nat)
    requires 0 < n && EntryAt(n) <= |b| && i < n
    ensures FirstPayload(fmt, b, n) <= ReadEntry(fmt, b, i).offset
    ensures exists k :: 0 <= k < n && FirstPayload(fmt, b, n) == OffsetOf(fmt, b, k)
    decreases n
  {
    if n > 1 {
      FirstPayloadIsLeast(fmt, b, n - 1, if i < n - 1 then i else 0);
    }
  }

  /** The gap added to one entry's offset. */
  function MovedEntry(fmt: Format, b: bytes, i: nat, gap: nat): (r: bytes)
    requires EntryAt(i + 1) <= |b|
    ensures |r| == |b|
  {
    Put(fmt, b, EntryAt(i) + 8, U(fmt, b, EntryAt(i) + 8, LONG) + gap, LONG)
  }

  /** A directory entry as the writer fills it. */
  function EntryBytes(fmt: Format, id: bytes, offset: nat, payload: bytes): (r: bytes)
    requires |id| == 4
    ensures |r| == ENTRY
  {
    id + fmt.digits(1, SHORT) + fmt.digits(0, SHORT) + fmt.digits(offset, LONG) + fmt.digits(|payload|, LONG)
    + fmt.digits(|payload|, LONG) + fmt.digits(fmt.crc(payload), WORD) + fmt.digits(0, WORD)
  }

  function Gap(sections: seq<Section>): nat {
    ENTRY * |sections|
  }

  // --------------------------------------------- what each writing step changes

  ghost predicate EntryMoved(fmt: Format, a: bytes, b: bytes, gap: nat, i: nat) {
    EntryAt(i + 1) <= |a| && Same(MovedEntry(fmt, a, i, gap), b, EntryAt(i), EntryAt(i + 1))
  }

  ghost predicate PayloadWritten(b: bytes, offset: nat, section: Section) {
    StandsAt(b, offset, section.payload)
  }

  ghost predicate EntryWritten(fmt: Format, b: bytes, i: nat, offset: nat, section: Section) {
    |section.id| == 4 && StandsAt(b, EntryAt(i), EntryBytes(fmt, section.id, offset, section.payload))
  }

  /** The earlier payloads and offsets moved by the gap, the new ones written. */
  ghost predicate SectionsAppended(
    fmt: Format, a: bytes, b: bytes, n: nat, first: nat, size: nat, sections: seq<Section>, lay: Layout)
  {
    var gap := Gap(sections);
    && |a| == |b| && |lay.offsets| == |sections| && Same(a, b, lay.total, |a|)
    && first <= size && size + gap <= |b| && b[first + gap..size + gap] == a[first..size]
    && (forall i :: 0 <= i < n ==> EntryMoved(fmt, a, b, gap, i))
    && (forall j :: 0 <= j < |sections| ==> PayloadWritten(b, lay.offsets[j], sections[j]))
    && (forall j :: 0 <= j < |sections| ==> NewEntry(fmt, b, n, lay, sections, j))
  }

  ghost predicate NewEntry(fmt: Format, b: bytes, n: nat, lay: Layout, sections: seq<Section>, j: nat)
    requires j < |sections| == |lay.offsets|
  {
    EntryWritten(fmt, b, n + j, lay.offsets[j], sections[j])
  }

  /** b is a with the sections appended and the header renewed. */
  ghost predicate Appended(
    fmt: Format, a: bytes, b: bytes, n: nat, first: nat, size: nat, sections: seq<Section>, lay: Layout)
  {
    && SectionsAppended(fmt, a, b, n, first, size, sections, lay)
    && HeaderRenewed(fmt, a, b, n + |sections|, lay.total)
  }

  /** Inside the header only count, size and checksum changed, to the new values. */
  ghost predicate HeaderRenewed(fmt: Format, a: bytes, b: bytes, count: nat, size: nat) {
    && HEADER <= |a| == |b| && Same(a, b, 0, COUNT_AT) && Same(a, b, DIRECTORY_AT, SIZE_AT)
    && Same(a, b, SIZE_AT + LONG, HEADER_CRC_AT)
    && Count(fmt, b) == count && U(fmt, b, SIZE_AT, LONG) == size
    && U(fmt, b, HEADER_CRC_AT, WORD) == fmt.crc(b[..HEADER_CRC_AT])
  }
}
