/** A whole result file: META appended to the base container, then TEMP and LGRD,
  and everything read back from the final bytes. */
module ResultFile {
  import opened Common
  import opened Bytes
  import Crc32c
  import opened Container
  import opened ContainerMeaning
  import opened ContainerReader
  import Meta
  import S4 = S4Payloads

  const META: bytes := [0x4D, 0x45, 0x54, 0x41]
  const TEMP: bytes := [0x54, 0x45, 0x4D, 0x50]
  const LGRD: bytes := [0x4C, 0x47, 0x52, 0x44]

  /** Least significant byte first, CRC32C. */
  function ResultFormat(): Format {
    CrcFits();
    LittleEndianCodec((data: bytes) => Crc32c.Crc(data))
  }

  lemma CrcFits()
    ensures forall data :: Crc32c.Crc(data) < WORD_LIMIT
  {
    forall data ensures Crc32c.Crc(data) < WORD_LIMIT {
      Crc32c.CrcFitsWord(data);
    }
  }

  /** One append of the chain, with the directory sizes it goes between. */
  ghost predicate Step(
    fmt: Format, a: bytes, b: bytes, size: nat, sections: seq<Section>, lay: Layout, n: nat, count: nat)
  {
    && Fits(fmt, a, size, sections, lay) && Extended(fmt, a, b, size, sections, lay)
    && n == Count(fmt, a) && count == n + |sections| && EntryAt(n) <= |a|
  }

  lemma StepGrows(fmt: Format, a: bytes, b: bytes, size: nat, sections: seq<Section>, lay: Layout, n: nat, count: nat)
    requires Step(fmt, a, b, size, sections, lay, n, count)
    ensures EntryAt(count) <= |b| == |a|
    ensures OldGrown(Directory(fmt, a, n), Directory(fmt, b, count), Gap(sections))
    ensures NewGrown(n, Directory(fmt, b, count), sections, lay, fmt.crc)
  {
    DirectoryGrows(fmt, a, b, size, sections, lay, n, count);
    DirectoryFits(fmt, a, b, size, sections, lay);
  }

  /** A name the base lacks and the append does not bring stays absent. */
  lemma StillLacks(
    before: seq<Entry>, after: seq<Entry>, gap: nat, sections: seq<Section>, lay: Layout, crc: bytes -> nat, id: bytes)
    requires OldGrown(before, after, gap) && NewGrown(|before|, after, sections, lay, crc)
    requires Lacks(before, id) && forall j :: 0 <= j < |sections| ==> sections[j].id != id
    ensures Lacks(after, id)
  {
    forall i | 0 <= i < |after| ensures after[i].id != id {
      if i >= |before| {
        assert NewAt(|before|, after, sections, lay, crc, i - |before|);
      }
    }
  }

  /** What the three readers get from the final file. */
  ghost predicate ReadsAll(
    fmt: Format, c: bytes, count: nat, total: nat, strict: bool, meta: bytes, temp: bytes, grid: bytes)
  {
    && EntryAt(count) <= |c| && total <= |c|
    && Reads(c, Scan(Directory(fmt, c, count), META, PlainCheck(total)), meta)
    && Reads(c, Scan(Directory(fmt, c, count), TEMP, FullCheck(fmt, c, total, strict)), temp)
    && Reads(c, Scan(Directory(fmt, c, count), LGRD, FullCheck(fmt, c, total, strict)), grid)
  }

  ghost predicate Reads(c: bytes, found: Lookup, payload: bytes) {
    found.Found? && found.size == |payload| && StandsAt(c, found.offset, payload)
  }

  lemma MetaIsRead(fmt: Format, a: bytes, b: bytes, size: nat, lay: Layout, n: nat, payload: bytes)
    requires Step(fmt, a, b, size, [Section(META, payload)], lay, n, n + 1)
    requires Lacks(Directory(fmt, a, n), META)
    ensures EntryAt(n + 1) <= |b|
    ensures Reads(b, Scan(Directory(fmt, b, n + 1), META, PlainCheck(lay.total)), payload)
  {
    AppendedIsFound(fmt, a, b, size, [Section(META, payload)], lay, n, n + 1, true, 0);
  }

  lemma {:induction false} EarlierIsStillRead(
    fmt: Format, b: bytes, c: bytes, size: nat, sections: seq<Section>, lay: Layout, n: nat, count: nat,
    id: bytes, payload: bytes, was: Lookup) returns (now: Lookup)
    requires Step(fmt, b, c, size, sections, lay, n, count)
    requires forall j :: 0 <= j < |sections| ==> sections[j].id != id
    requires LooksUp(fmt, b, n, size, id, was) && Reads(b, was, payload)
    ensures LooksUp(fmt, c, count, lay.total, id, now) && Reads(c, now, payload)
  {
    EarlierIsStillFound(fmt, b, c, size, sections, lay, n, count, id, was);
    now := Found(was.offset + Gap(sections), was.size);
    StillReads(b, c, was.offset, was.size, Gap(sections), payload);
  }

  lemma StillReads(b: bytes, c: bytes, offset: nat, length: nat, gap: nat, payload: bytes)
    requires Reads(b, Found(offset, length), payload) && MovedTo(b, c, offset, length, gap)
    ensures Reads(c, Found(offset + gap, length), payload)
  {
  }

  lemma NewIsRead(
    fmt: Format, b: bytes, c: bytes, size: nat, sections: seq<Section>, lay: Layout, n: nat, count: nat,
    strict: bool, j: nat)
    requires Step(fmt, b, c, size, sections, lay, n, count) && Distinct(sections)
    requires j < |sections| && Lacks(Directory(fmt, b, n), sections[j].id)
    ensures EntryAt(count) <= |c| && lay.total <= |c|
    ensures Reads(c, Scan(Directory(fmt, c, count), sections[j].id, FullCheck(fmt, c, lay.total, strict)), sections[j].payload)
  {
    AppendedIsFound(fmt, b, c, size, sections, lay, n, count, strict, j);
  }

  /** The whole chain: base, then META, then TEMP and LGRD. All three payloads are
      read back from the final bytes, and the final bytes are a container. */
  lemma FileIsReadBack(
    fmt: Format, a: bytes, b: bytes, c: bytes, size: nat, first: Layout, second: Layout, n: nat, strict: bool,
    meta: bytes, temp: bytes, grid: bytes)
    requires Step(fmt, a, b, size, [Section(META, meta)], first, n, n + 1)
    requires Step(fmt, b, c, first.total, [Section(TEMP, temp), Section(LGRD, grid)], second, n + 1, n + 3)
    requires Lacks(Directory(fmt, a, n), META) && Lacks(Directory(fmt, a, n), TEMP) && Lacks(Directory(fmt, a, n), LGRD)
    ensures ReadsAll(fmt, c, n + 3, second.total, strict, meta, temp, grid)
    ensures WellFormed(fmt, c, second.total)
  {
    var one, two := [Section(META, meta)], [Section(TEMP, temp), Section(LGRD, grid)];
    MetaIsRead(fmt, a, b, size, first, n, meta);
    var was := Scan(Directory(fmt, b, n + 1), META, PlainCheck(first.total));
    var now := EarlierIsStillRead(fmt, b, c, first.total, two, second, n + 1, n + 3, META, meta, was);
    StepGrows(fmt, a, b, size, one, first, n, n + 1);
    StillLacks(Directory(fmt, a, n), Directory(fmt, b, n + 1), Gap(one), one, first, fmt.crc, TEMP);
    StillLacks(Directory(fmt, a, n), Directory(fmt, b, n + 1), Gap(one), one, first, fmt.crc, LGRD);
    NewIsRead(fmt, b, c, first.total, two, second, n + 1, n + 3, strict, 0);
    NewIsRead(fmt, b, c, first.total, two, second, n + 1, n + 3, strict, 1);
    ExtendedIsWellFormed(fmt, b, c, first.total, two, second);
  }

  /** A section that is read gives these bytes. */
  function Content(c: bytes, found: Lookup): bytes {
    if found.Found? && found.offset + found.size <= |c| then c[found.offset..found.offset + found.size] else []
  }

  lemma ReadsContent(c: bytes, found: Lookup, payload: bytes)
    requires Reads(c, found, payload)
    ensures Content(c, found) == payload
  {
  }

  /** So the metadata comes back from the final file, unknown keys none. */
  lemma MetadataComesBack(c: bytes, found: Lookup, fields: Meta.Fields)
    requires Meta.Fits(fields) && Reads(c, found, Meta.Payload(fields))
    ensures Meta.Parse(Content(c, found)) == Some(Meta.Parsed(fields, 0))
  {
    ReadsContent(c, found, Meta.Payload(fields));
    Meta.WrittenIsRead(fields);
  }

  /** And the tempo, exactly when the reader's rules on it hold. */
  lemma TempoComesBack(fmt: Format, c: bytes, found: Lookup, temp: S4.Temp, strict: bool, partial: bool)
    requires S4.TempTyped(temp) && S4.TempWritable(temp) && Reads(c, found, S4.WriteTemp(fmt, temp))
    ensures S4.ParseTemp(fmt, Content(c, found), strict, partial) == Some(temp) <==>
      S4.StateAllowed(temp.state, partial) && S4.Ranked(temp.candidates, None)
  {
    ReadsContent(c, found, S4.WriteTemp(fmt, temp));
    S4.TempComesBack(fmt, temp, strict, partial);
  }

  /** And the local grid, likewise. */
  lemma LocalGridComesBack(
    fmt: Format, c: bytes, found: Lookup, grid: S4.Grid, strict: bool, partial: bool, selectedTempo: nat)
    requires S4.GridTyped(grid) && S4.GridWritable(grid) && Reads(c, found, S4.WriteGrid(fmt, grid))
    ensures S4.ParseGrid(fmt, Content(c, found), strict, partial, selectedTempo) == Some(grid) <==>
      && S4.StateAllowed(grid.state, partial) && S4.StateAllowed(grid.segment.state, partial)
      && grid.segment.tempo == selectedTempo && grid.segment.range == grid.applicability
  {
    ReadsContent(c, found, S4.WriteGrid(fmt, grid));
    S4.GridComesBack(fmt, grid, strict, partial, selectedTempo);
  }
}
