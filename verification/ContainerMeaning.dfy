/** What a container means is kept when sections are appended: every earlier
  section is found at its new place, every new one is found, and the whole is a
  well-formed container again. */
module ContainerMeaning {
  import opened Common
  import opened Bytes
  import opened Container
  import opened ContainerFields

  /** A well-formed base, a layout behind it, numbers within their fields. */
  ghost predicate Fits(fmt: Format, a: bytes, size: nat, sections: seq<Section>, lay: Layout) {
    && WellFormed(fmt, a, size) && InBounds(size + Gap(sections), sections, lay)
    && lay.total <= |a| && lay.total < LONG_LIMIT
  }

  ghost predicate Extended(fmt: Format, a: bytes, b: bytes, size: nat, sections: seq<Section>, lay: Layout)
    requires WellFormed(fmt, a, size)
  {
    Appended(fmt, a, b, Count(fmt, a), FirstPayload(fmt, a, Count(fmt, a)), size, sections, lay)
  }

  lemma FirstPayloadIsInside(fmt: Format, b: bytes, size: nat)
    requires WellFormed(fmt, b, size)
    ensures EntryAt(Count(fmt, b)) <= FirstPayload(fmt, b, Count(fmt, b)) <= size
  {
    FirstPayloadIsLeast(fmt, b, Count(fmt, b), 0);
    var k :| 0 <= k < Count(fmt, b) && FirstPayload(fmt, b, Count(fmt, b)) == OffsetOf(fmt, b, k);
    assert SectionOk(fmt, b, size, Count(fmt, b), k);
  }

  /** The bytes of an earlier payload, at the shifted place. */
  lemma PayloadMoved(a: bytes, b: bytes, first: nat, size: nat, gap: nat, low: nat, high: nat)
    requires first <= low <= high <= size && size + gap <= |a| == |b|
    requires b[first + gap..size + gap] == a[first..size]
    ensures b[low + gap..high + gap] == a[low..high]
  {
    forall k | low <= k < high ensures b[k + gap] == a[k] {
      assert b[first + gap..size + gap][k - first] == a[first..size][k - first];
    }
    MovedSlice(a, b, gap, low, high);
  }

  lemma MovedSlice(a: bytes, b: bytes, gap: nat, low: nat, high: nat)
    requires low <= high && high + gap <= |a| == |b|
    requires forall k {:trigger a[k]} :: low <= k < high ==> b[k + gap] == a[k]
    ensures b[low + gap..high + gap] == a[low..high]
  {
    forall i | 0 <= i < high - low ensures b[low + gap..high + gap][i] == a[low..high][i] {
      assert a[low + i] == a[low..high][i];
    }
  }

  lemma MovedEntryIsRead(fmt: Format, a: bytes, b: bytes, gap: nat, i: nat)
    requires EntryMoved(fmt, a, b, gap, i) && ReadEntry(fmt, a, i).offset + gap < LONG_LIMIT
    ensures |a| == |b| && ReadEntry(fmt, b, i) == ReadEntry(fmt, a, i).(offset := ReadEntry(fmt, a, i).offset + gap)
  {
    BumpOne(fmt, a, i, gap);
    SameEntry(fmt, MovedEntry(fmt, a, i, gap), b, i);
  }

  lemma SectionIsInside(fmt: Format, a: bytes, size: nat, sections: seq<Section>, lay: Layout, i: nat)
    requires Fits(fmt, a, size, sections, lay) && i < Count(fmt, a)
    ensures
      var e := ReadEntry(fmt, a, i);
      && FirstPayload(fmt, a, Count(fmt, a)) <= e.offset && e.offset + e.size <= size
      && e.offset + Gap(sections) < LONG_LIMIT && size + Gap(sections) <= |a|
  {
    assert SectionOk(fmt, a, size, Count(fmt, a), i);
    FirstPayloadIsLeast(fmt, a, Count(fmt, a), i);
  }

  lemma EarlierParts(
    fmt: Format, a: bytes, b: bytes, n: nat, first: nat, size: nat, sections: seq<Section>, lay: Layout, i: nat)
    requires SectionsAppended(fmt, a, b, n, first, size, sections, lay) && i < n
    ensures EntryMoved(fmt, a, b, Gap(sections), i) && first <= size && |a| == |b|
    ensures size + Gap(sections) <= |a| && b[first + Gap(sections)..size + Gap(sections)] == a[first..size]
  {
  }

  /** Where an earlier section went, from the two facts that matter. */
  lemma EarlierSection(fmt: Format, a: bytes, b: bytes, first: nat, size: nat, gap: nat, i: nat, e: Entry)
    requires EntryMoved(fmt, a, b, gap, i) && e == ReadEntry(fmt, a, i) && |a| == |b|
    requires first <= e.offset && e.offset + e.size <= size && size + gap <= |a| && e.offset + gap < LONG_LIMIT
    requires b[first + gap..size + gap] == a[first..size]
    ensures ReadEntry(fmt, b, i) == e.(offset := e.offset + gap)
    ensures b[e.offset + gap..e.offset + gap + e.size] == a[e.offset..e.offset + e.size]
  {
    MovedEntryIsRead(fmt, a, b, gap, i);
    PayloadMoved(a, b, first, size, gap, e.offset, e.offset + e.size);
  }

  /** An earlier section: the same entry with the shifted offset, the same bytes,
      so the same checksum and alignment. */
  lemma EarlierSectionIsKept(
    fmt: Format, a: bytes, b: bytes, size: nat, sections: seq<Section>, lay: Layout, i: nat)
    requires Fits(fmt, a, size, sections, lay) && i < Count(fmt, a) && Extended(fmt, a, b, size, sections, lay)
    ensures
      var e, gap := ReadEntry(fmt, a, i), Gap(sections);
      && e.offset + gap + e.size <= size + gap <= |a| == |b|
      && ReadEntry(fmt, b, i) == e.(offset := e.offset + gap)
      && b[e.offset + gap..e.offset + gap + e.size] == a[e.offset..e.offset + e.size]
  {
    var n := Count(fmt, a);
    var first := FirstPayload(fmt, a, n);
    SectionIsInside(fmt, a, size, sections, lay, i);
    EarlierParts(fmt, a, b, n, first, size, sections, lay, i);
    EarlierSection(fmt, a, b, first, size, Gap(sections), i, ReadEntry(fmt, a, i));
  }

  lemma NewParts(
    fmt: Format, a: bytes, b: bytes, n: nat, first: nat, size: nat, sections: seq<Section>, lay: Layout, j: nat)
    requires SectionsAppended(fmt, a, b, n, first, size, sections, lay) && j < |sections|
    ensures |lay.offsets| == |sections| && PayloadWritten(b, lay.offsets[j], sections[j])
    ensures EntryWritten(fmt, b, n + j, lay.offsets[j], sections[j])
  {
    assert NewEntry(fmt, b, n, lay, sections, j);
  }

  /** A new section: a complete entry behind the old ones, and its payload. */
  lemma NewSectionIsFound(
    fmt: Format, a: bytes, b: bytes, n: nat, first: nat, size: nat, sections: seq<Section>, lay: Layout, j: nat)
    requires Appended(fmt, a, b, n, first, size, sections, lay) && j < |sections|
    requires InBounds(size + Gap(sections), sections, lay) && lay.total < LONG_LIMIT
    ensures
      var p, offset := sections[j].payload, lay.offsets[j];
      && EntryAt(n + j + 1) <= |b| && offset + |p| <= lay.total && offset % 8 == 0
      && ReadEntry(fmt, b, n + j) == Entry(sections[j].id, 1, 0, offset, |p|, |p|, fmt.crc(p), 0)
      && StandsAt(b, offset, p)
  {
    NewParts(fmt, a, b, n, first, size, sections, lay, j);
    assert Placed(size + Gap(sections), lay.offsets[j], |sections[j].payload|, lay.total);
    WrittenEntryIsRead(fmt, b, n + j, sections[j].id, lay.offsets[j], sections[j].payload);
  }

  // ---------------------------------------------------------- well-formed again

  lemma EntryMakesSection(fmt: Format, b: bytes, size: nat, count: nat, i: nat, e: Entry)
    requires EntryAt(count) <= size <= |b| && i < count && ReadEntry(fmt, b, i) == e
    requires EntryAt(count) <= e.offset && e.offset + e.size <= size && e.offset % 8 == 0
    requires e.rawSize == e.size && e.crc == fmt.crc(b[e.offset..e.offset + e.size])
    ensures SectionOk(fmt, b, size, count, i)
  {
  }

  lemma EarlierSectionOk(
    fmt: Format, a: bytes, b: bytes, n: nat, first: nat, size: nat, gap: nat, total: nat, count: nat, i: nat)
    requires EntryAt(n) <= size <= |a| && i < n && SectionOk(fmt, a, size, n, i) && |a| == |b|
    requires EntryAt(count) == EntryAt(n) + gap && gap % 8 == 0 && n <= count && size + gap <= total <= |a|
    requires total < LONG_LIMIT && first <= ReadEntry(fmt, a, i).offset
    requires EntryMoved(fmt, a, b, gap, i) && first <= size && b[first + gap..size + gap] == a[first..size]
    ensures SectionOk(fmt, b, total, count, i)
  {
    var e := ReadEntry(fmt, a, i);
    EarlierSection(fmt, a, b, first, size, gap, i, e);
    EntryMakesSection(fmt, b, total, count, i, e.(offset := e.offset + gap));
  }

  lemma NewSectionOk(fmt: Format, b: bytes, n: nat, start: nat, total: nat, count: nat, i: nat, offset: nat, section: Section)
    requires PayloadWritten(b, offset, section) && EntryWritten(fmt, b, i, offset, section)
    requires Placed(start, offset, |section.payload|, total) && total <= |b| && total < LONG_LIMIT
    requires i < count && EntryAt(count) <= start <= total
    ensures SectionOk(fmt, b, total, count, i)
  {
    var p := section.payload;
    WrittenEntryIsRead(fmt, b, i, section.id, offset, p);
    EntryMakesSection(fmt, b, total, count, i, Entry(section.id, 1, 0, offset, |p|, |p|, fmt.crc(p), 0));
  }

  /** The base's sections, and room behind them. */
  ghost predicate Base(fmt: Format, a: bytes, n: nat, first: nat, size: nat) {
    && EntryAt(n) <= first <= size <= |a|
    && forall i :: 0 <= i < n ==> SectionOk(fmt, a, size, n, i) && first <= ReadEntry(fmt, a, i).offset
  }

  lemma EveryEarlierIsOk(
    fmt: Format, a: bytes, b: bytes, n: nat, first: nat, size: nat, sections: seq<Section>, lay: Layout, i: nat)
    requires SectionsAppended(fmt, a, b, n, first, size, sections, lay) && Base(fmt, a, n, first, size)
    requires size + Gap(sections) <= lay.total <= |a| && lay.total < LONG_LIMIT && i < n
    ensures EntryAt(n + |sections|) <= lay.total && SectionOk(fmt, b, lay.total, n + |sections|, i)
  {
    EarlierParts(fmt, a, b, n, first, size, sections, lay, i);
    EarlierSectionOk(fmt, a, b, n, first, size, Gap(sections), lay.total, n + |sections|, i);
  }

  lemma EveryNewIsOk(
    fmt: Format, a: bytes, b: bytes, n: nat, first: nat, size: nat, sections: seq<Section>, lay: Layout, j: nat)
    requires SectionsAppended(fmt, a, b, n, first, size, sections, lay) && EntryAt(n) <= first
    requires InBounds(size + Gap(sections), sections, lay) && lay.total <= |a| && lay.total < LONG_LIMIT && j < |sections|
    ensures EntryAt(n + |sections|) <= lay.total && SectionOk(fmt, b, lay.total, n + |sections|, n + j)
  {
    NewParts(fmt, a, b, n, first, size, sections, lay, j);
    NewSectionOk(fmt, b, n, size + Gap(sections), lay.total, n + |sections|, n + j, lay.offsets[j], sections[j]);
  }

  lemma AllSectionsOk(
    fmt: Format, a: bytes, b: bytes, n: nat, first: nat, size: nat, sections: seq<Section>, lay: Layout, count: nat)
    requires SectionsAppended(fmt, a, b, n, first, size, sections, lay) && Base(fmt, a, n, first, size)
    requires InBounds(size + Gap(sections), sections, lay) && lay.total <= |a| && lay.total < LONG_LIMIT
    requires count == n + |sections|
    ensures EntryAt(count) <= lay.total <= |b|
    ensures forall i :: 0 <= i < count ==> SectionOk(fmt, b, lay.total, count, i)
  {
    forall i | 0 <= i < count ensures SectionOk(fmt, b, lay.total, count, i) {
      if i < n {
        EveryEarlierIsOk(fmt, a, b, n, first, size, sections, lay, i);
      } else {
        EveryNewIsOk(fmt, a, b, n, first, size, sections, lay, i - n);
      }
    }
  }

  lemma WellFormedIsBase(fmt: Format, a: bytes, size: nat)
    requires WellFormed(fmt, a, size)
    ensures Base(fmt, a, Count(fmt, a), FirstPayload(fmt, a, Count(fmt, a)), size)
  {
    var n := Count(fmt, a);
    FirstPayloadIsInside(fmt, a, size);
    forall i | 0 <= i < n ensures FirstPayload(fmt, a, n) <= ReadEntry(fmt, a, i).offset {
      FirstPayloadIsLeast(fmt, a, n, i);
    }
  }

  lemma DirectoryStays(fmt: Format, a: bytes, b: bytes, count: nat, size: nat)
    requires HeaderRenewed(fmt, a, b, count, size)
    ensures U(fmt, b, DIRECTORY_AT, LONG) == U(fmt, a, DIRECTORY_AT, LONG)
  {
    SameField(fmt, a, b, DIRECTORY_AT, SIZE_AT, DIRECTORY_AT, LONG);
  }

  /** Appending sections to a container gives a container. */
  lemma ExtendedIsWellFormed(fmt: Format, a: bytes, b: bytes, size: nat, sections: seq<Section>, lay: Layout)
    requires Fits(fmt, a, size, sections, lay) && Extended(fmt, a, b, size, sections, lay)
    ensures WellFormed(fmt, b, lay.total)
  {
    var n := Count(fmt, a);
    WellFormedIsBase(fmt, a, size);
    DirectoryStays(fmt, a, b, n + |sections|, lay.total);
    AllSectionsOk(fmt, a, b, n, FirstPayload(fmt, a, n), size, sections, lay, n + |sections|);
  }
}
