/** Finding sections in a container by scanning its directory. */
module ContainerReader {
  import opened Common
  import opened Bytes
  import opened Container
  import opened ContainerFields
  import opened ContainerMeaning

  datatype Lookup = Missing | Found(offset: nat, size: nat) | Unsupported | Corrupt
  {
    predicate Failed() { Unsupported? || Corrupt? }
  }

  /** What a reader makes of an entry that carries the name it looks for. */
  type Check = Entry -> Lookup

  /** The META reader accepts version 1 inside the buffer. */
  function MetaCheck(size: nat, e: Entry): Lookup {
    if e.version != 1 then Unsupported
    else if e.offset + e.size > size then Corrupt
    else Found(e.offset, e.size)
  }

  /** The TEMP and LGRD reader also checks reserved fields, sizes and the checksum. */
  function StrictCheck(fmt: Format, b: bytes, size: nat, strict: bool, e: Entry): Lookup
    requires size <= |b|
  {
    if e.version != 1 then Unsupported
    else if e.reserved != 0 || (strict && e.tail != 0) then Corrupt
    else if e.rawSize != e.size || e.offset + e.size > size then Corrupt
    else if fmt.crc(b[e.offset..e.offset + e.size]) != e.crc then Corrupt
    else Found(e.offset, e.size)
  }

  /** One entry: another name changes nothing, a second match is an error. */
  function Next(so: Lookup, id: bytes, check: Check, e: Entry): Lookup {
    if so.Failed() || e.id != id then so
    else if so.Found? then Corrupt
    else check(e)
  }

  function Scan(entries: seq<Entry>, id: bytes, check: Check): Lookup
    decreases |entries|
  {
    if |entries| == 0 then Missing
    else Next(Scan(entries[..|entries| - 1], id, check), id, check, entries[|entries| - 1])
  }

  /** The directory's entries, in order. */
  function Directory(fmt: Format, b: bytes, n: nat): (entries: seq<Entry>)
    requires EntryAt(n) <= |b|
    ensures |entries| == n
  {
    if n == 0 then [] else Directory(fmt, b, n - 1) + [ReadEntry(fmt, b, n - 1)]
  }

  lemma {:induction false} DirectoryAt(fmt: Format, b: bytes, n: nat, i: nat)
    requires EntryAt(n) <= |b| && i < n
    ensures Directory(fmt, b, n)[i] == ReadEntry(fmt, b, i)
  {
    if i < n - 1 { DirectoryAt(fmt, b, n - 1, i); }
  }

  method FindSection(b: bytes, n: nat, id: bytes, check: Check, fmt: Format) returns (found: Lookup)
    requires EntryAt(n) <= |b|
    ensures found == Scan(Directory(fmt, b, n), id, check)
  {
    found := Missing;
    for i := 0 to n
      invariant found == Scan(Directory(fmt, b, i), id, check)
    {
      ScanOneMore(fmt, b, i, id, check);
      found := Next(found, id, check, ReadEntry(fmt, b, i));
    }
  }

  lemma {:induction false} ScanOneMore(fmt: Format, b: bytes, i: nat, id: bytes, check: Check)
    requires EntryAt(i + 1) <= |b|
    ensures Scan(Directory(fmt, b, i + 1), id, check) == Next(Scan(Directory(fmt, b, i), id, check), id, check, ReadEntry(fmt, b, i))
  {
    var longer := Directory(fmt, b, i + 1);
    assert longer[..|longer| - 1] == Directory(fmt, b, i);
  }

  // ------------------------------------------------------- two sections at once

  /** What one pass over the directory makes of two names. */
  datatype Pair = Pair(first: Lookup, second: Lookup) | Refused(error: Lookup)

  function Noticed(so: Lookup, pair: Pair): Pair {
    if so.Failed() then Refused(so) else pair
  }

  /** The first error ends the pass. */
  function NextPair(so: Pair, first: bytes, second: bytes, check: Check, e: Entry): Pair {
    if so.Refused? then so
    else if e.id == first then
      var found := Next(so.first, first, check, e);
      Noticed(found, so.(first := found))
    else if e.id == second then
      var found := Next(so.second, second, check, e);
      Noticed(found, so.(second := found))
    else so
  }

  function ScanPair(entries: seq<Entry>, first: bytes, second: bytes, check: Check): Pair
    decreases |entries|
  {
    if |entries| == 0 then Pair(Missing, Missing)
    else
      NextPair(ScanPair(entries[..|entries| - 1], first, second, check), first, second, check, entries[|entries| - 1])
  }

  /** The second name may not stand without the first. */
  function Paired(pair: Pair): Pair {
    if pair.Pair? && pair.second.Found? && pair.first.Missing? then Refused(Corrupt) else pair
  }

  /** One pass for both names; it stops at the first error. */
  method FindSections(b: bytes, n: nat, first: bytes, second: bytes, check: Check, fmt: Format) returns (pair: Pair)
    requires EntryAt(n) <= |b|
    ensures pair == Paired(ScanPair(Directory(fmt, b, n), first, second, check))
  {
    pair := Pair(Missing, Missing);
    for i := 0 to n
      invariant pair.Pair? && pair == ScanPair(Directory(fmt, b, i), first, second, check)
    {
      var entry := ReadEntry(fmt, b, i);
      ghost var longer := Directory(fmt, b, i) + [entry];
      assert longer[..i] == Directory(fmt, b, i) && longer == Directory(fmt, b, i + 1);
      pair := NextPair(pair, first, second, check, entry);
      if pair.Refused? {
        RefusedStays(Directory(fmt, b, n), i + 1, first, second, check);
        DirectoryPrefix(fmt, b, i + 1, n);
        return;
      }
    }
    if pair.second.Found? && pair.first.Missing? {
      pair := Refused(Corrupt);
    }
  }

  lemma {:induction false} DirectoryPrefix(fmt: Format, b: bytes, m: nat, n: nat)
    requires m <= n && EntryAt(n) <= |b|
    ensures Directory(fmt, b, n)[..m] == Directory(fmt, b, m)
  {
    if m < n {
      DirectoryPrefix(fmt, b, m, n - 1);
      assert Directory(fmt, b, n)[..m] == Directory(fmt, b, n - 1)[..m];
    }
  }

  lemma {:induction false} RefusedStays(entries: seq<Entry>, m: nat, first: bytes, second: bytes, check: Check)
    requires m <= |entries|
    ensures
      var pair := ScanPair(entries[..m], first, second, check);
      pair.Refused? ==> ScanPair(entries, first, second, check) == pair
    decreases |entries|
  {
    if m < |entries| {
      var front := entries[..|entries| - 1];
      assert front[..m] == entries[..m];
      RefusedStays(front, m, first, second, check);
    } else {
      assert entries[..m] == entries;
    }
  }

  /** The pass finds what two passes would find, and is refused exactly when one of
      them fails, with the error of one that does. */
  lemma {:induction false} PairIsTwoScans(entries: seq<Entry>, first: bytes, second: bytes, check: Check)
    requires first != second
    ensures
      var x, y := Scan(entries, first, check), Scan(entries, second, check);
      match ScanPair(entries, first, second, check)
      case Pair(a, b) => a == x && b == y && !x.Failed() && !y.Failed()
      case Refused(error) => error.Failed() && (error == x || error == y)
    decreases |entries|
  {
    if |entries| > 0 {
      PairIsTwoScans(entries[..|entries| - 1], first, second, check);
    }
  }

  lemma {:induction false} AbsentIsMissing(entries: seq<Entry>, id: bytes, check: Check)
    requires forall i :: 0 <= i < |entries| ==> entries[i].id != id
    ensures Scan(entries, id, check) == Missing
    decreases |entries|
  {
    if |entries| > 0 {
      AbsentIsMissing(entries[..|entries| - 1], id, check);
    }
  }

  /** A name that occurs once is found there. */
  lemma {:induction false} OnlyOneIsFound(entries: seq<Entry>, id: bytes, check: Check, k: nat)
    requires k < |entries| && entries[k].id == id
    requires forall i :: 0 <= i < |entries| && i != k ==> entries[i].id != id
    ensures Scan(entries, id, check) == check(entries[k])
    decreases |entries|
  {
    if k == |entries| - 1 {
      AbsentIsMissing(entries[..k], id, check);
    } else {
      OnlyOneIsFound(entries[..|entries| - 1], id, check, k);
    }
  }

  /** Whatever is found carries the name, passed the check, and has no namesake. */
  lemma {:induction false} FoundIsThere(entries: seq<Entry>, id: bytes, check: Check) returns (k: nat)
    requires Scan(entries, id, check).Found? && forall e :: !check(e).Missing?
    ensures k < |entries| && entries[k].id == id && Scan(entries, id, check) == check(entries[k])
    ensures forall i :: 0 <= i < |entries| && i != k ==> entries[i].id != id
    decreases |entries|
  {
    var before := entries[..|entries| - 1];
    if Scan(before, id, check).Found? {
      k := FoundIsThere(before, id, check);
    } else {
      k := |entries| - 1;
      MissingIsAbsent(before, id, check);
    }
  }

  lemma {:induction false} MissingIsAbsent(entries: seq<Entry>, id: bytes, check: Check)
    requires Scan(entries, id, check).Missing? && forall e :: !check(e).Missing?
    ensures forall i :: 0 <= i < |entries| ==> entries[i].id != id
    decreases |entries|
  {
    if |entries| > 0 {
      MissingIsAbsent(entries[..|entries| - 1], id, check);
    }
  }

  // --------------------------------------------------- what was appended is found

  /** The old entries after an append: moved by the gap, otherwise the same. */
  ghost predicate OldGrown(before: seq<Entry>, after: seq<Entry>, gap: nat) {
    && |before| <= |after|
    && forall i :: 0 <= i < |before| ==> after[i] == before[i].(offset := before[i].offset + gap)
  }

  ghost predicate NewAt(n: nat, after: seq<Entry>, sections: seq<Section>, lay: Layout, crc: bytes -> nat, j: nat)
    requires |after| == n + |sections| && |lay.offsets| == |sections| && j < |sections|
  {
    after[n + j] == EntryOf(sections[j], lay.offsets[j], crc)
  }

  /** The new ones stand behind the n old ones. */
  ghost predicate NewGrown(n: nat, after: seq<Entry>, sections: seq<Section>, lay: Layout, crc: bytes -> nat) {
    && |after| == n + |sections| && |lay.offsets| == |sections|
    && forall j :: 0 <= j < |sections| ==> NewAt(n, after, sections, lay, crc, j)
  }

  function EntryOf(section: Section, offset: nat, crc: bytes -> nat): Entry {
    Entry(section.id, 1, 0, offset, |section.payload|, |section.payload|, crc(section.payload), 0)
  }

  lemma OldEntryGrows(
    fmt: Format, a: bytes, b: bytes, size: nat, sections: seq<Section>, lay: Layout, n: nat, count: nat, i: nat)
    requires Fits(fmt, a, size, sections, lay) && Extended(fmt, a, b, size, sections, lay)
    requires n == Count(fmt, a) && i < n <= count && EntryAt(n) <= |a| && EntryAt(count) <= |b|
    ensures
      var e := Directory(fmt, a, n)[i];
      Directory(fmt, b, count)[i] == e.(offset := e.offset + Gap(sections))
  {
    DirectoryAt(fmt, a, n, i);
    DirectoryAt(fmt, b, count, i);
    EarlierSectionIsKept(fmt, a, b, size, sections, lay, i);
  }

  lemma NewEntryGrows(
    fmt: Format, a: bytes, b: bytes, size: nat, sections: seq<Section>, lay: Layout, n: nat, count: nat, j: nat)
    requires Fits(fmt, a, size, sections, lay) && Extended(fmt, a, b, size, sections, lay) && j < |sections|
    requires n == Count(fmt, a) && count == n + |sections| && EntryAt(count) <= |b|
    ensures |lay.offsets| == |sections| && Directory(fmt, b, count)[n + j] == EntryOf(sections[j], lay.offsets[j], fmt.crc)
  {
    DirectoryAt(fmt, b, count, n + j);
    NewSectionIsFound(fmt, a, b, n, FirstPayload(fmt, a, n), size, sections, lay, j);
  }

  lemma OldEntriesGrow(
    fmt: Format, a: bytes, b: bytes, size: nat, sections: seq<Section>, lay: Layout, n: nat, count: nat)
    requires Fits(fmt, a, size, sections, lay) && Extended(fmt, a, b, size, sections, lay)
    requires n == Count(fmt, a) && n <= count && EntryAt(n) <= |a| && EntryAt(count) <= |b|
    ensures OldGrown(Directory(fmt, a, n), Directory(fmt, b, count), Gap(sections))
  {
    var before, after := Directory(fmt, a, n), Directory(fmt, b, count);
    forall i | 0 <= i < n ensures after[i] == before[i].(offset := before[i].offset + Gap(sections)) {
      OldEntryGrows(fmt, a, b, size, sections, lay, n, count, i);
    }
  }

  lemma NewEntriesGrow(
    fmt: Format, a: bytes, b: bytes, size: nat, sections: seq<Section>, lay: Layout, n: nat, count: nat)
    requires Fits(fmt, a, size, sections, lay) && Extended(fmt, a, b, size, sections, lay)
    requires n == Count(fmt, a) && count == n + |sections| && EntryAt(count) <= |b|
    ensures NewGrown(n, Directory(fmt, b, count), sections, lay, fmt.crc)
  {
    var after := Directory(fmt, b, count);
    forall j | 0 <= j < |sections| ensures NewAt(n, after, sections, lay, fmt.crc, j) {
      NewEntryGrows(fmt, a, b, size, sections, lay, n, count, j);
    }
  }

  ghost predicate Lacks(entries: seq<Entry>, id: bytes) {
    forall i :: 0 <= i < |entries| ==> entries[i].id != id
  }

  ghost predicate Distinct(sections: seq<Section>) {
    forall i, j :: 0 <= i < j < |sections| ==> sections[i].id != sections[j].id
  }

  /** Scanning the longer directory for an appended name checks exactly its entry. */
  lemma AppendedIsScanned(
    before: seq<Entry>, after: seq<Entry>, gap: nat, sections: seq<Section>, lay: Layout, crc: bytes -> nat,
    check: Check, j: nat)
    requires OldGrown(before, after, gap) && NewGrown(|before|, after, sections, lay, crc) && Distinct(sections)
    requires j < |sections| && Lacks(before, sections[j].id)
    ensures Scan(after, sections[j].id, check) == check(EntryOf(sections[j], lay.offsets[j], crc))
  {
    var n := |before|;
    assert NewAt(n, after, sections, lay, crc, j);
    forall i | 0 <= i < |after| && i != n + j ensures after[i].id != sections[j].id {
      if i >= n {
        assert NewAt(n, after, sections, lay, crc, i - n);
      }
    }
    OnlyOneIsFound(after, sections[j].id, check, n + j);
  }

  /** A name that was found before the append still is, at the shifted offset. */
  lemma EarlierIsStillScanned(
    before: seq<Entry>, after: seq<Entry>, gap: nat, sections: seq<Section>, lay: Layout, crc: bytes -> nat,
    id: bytes, check: Check, recheck: Check) returns (k: nat)
    requires OldGrown(before, after, gap) && NewGrown(|before|, after, sections, lay, crc)
    requires Scan(before, id, check).Found? && forall e :: !check(e).Missing?
    requires forall j :: 0 <= j < |sections| ==> sections[j].id != id
    ensures k < |before| && before[k].id == id && Scan(before, id, check) == check(before[k])
    ensures Scan(after, id, recheck) == recheck(before[k].(offset := before[k].offset + gap))
  {
    k := FoundIsThere(before, id, check);
    forall i | 0 <= i < |after| && i != k ensures after[i].id != id {
      if i >= |before| {
        assert NewAt(|before|, after, sections, lay, crc, i - |before|);
      }
    }
    OnlyOneIsFound(after, id, recheck, k);
  }

  // ----------------------------------------------------------------- end to end

  function PlainCheck(size: nat): Check {
    (e: Entry) => MetaCheck(size, e)
  }

  function FullCheck(fmt: Format, b: bytes, size: nat, strict: bool): Check
    requires size <= |b|
  {
    (e: Entry) => StrictCheck(fmt, b, size, strict, e)
  }

  lemma WrittenEntryPasses(fmt: Format, b: bytes, total: nat, strict: bool, section: Section, offset: nat)
    requires StandsAt(b, offset, section.payload) && offset + |section.payload| <= total <= |b|
    ensures
      var e := EntryOf(section, offset, fmt.crc);
      && PlainCheck(total)(e) == Found(offset, |section.payload|)
      && FullCheck(fmt, b, total, strict)(e) == Found(offset, |section.payload|)
  {
  }

  lemma NewStands(fmt: Format, a: bytes, b: bytes, size: nat, sections: seq<Section>, lay: Layout, j: nat)
    requires Fits(fmt, a, size, sections, lay) && Extended(fmt, a, b, size, sections, lay) && j < |sections|
    ensures |a| == |b| && |lay.offsets| == |sections| && lay.total <= |b|
    ensures StandsAt(b, lay.offsets[j], sections[j].payload)
    ensures lay.offsets[j] + |sections[j].payload| <= lay.total
  {
    NewSectionIsFound(fmt, a, b, Count(fmt, a), FirstPayload(fmt, a, Count(fmt, a)), size, sections, lay, j);
  }

  /** Both directories of an append. */
  lemma DirectoryGrows(
    fmt: Format, a: bytes, b: bytes, size: nat, sections: seq<Section>, lay: Layout, n: nat, count: nat)
    requires Fits(fmt, a, size, sections, lay) && Extended(fmt, a, b, size, sections, lay)
    requires n == Count(fmt, a) && count == n + |sections|
    ensures EntryAt(n) <= |a| && EntryAt(count) <= |b|
    ensures OldGrown(Directory(fmt, a, n), Directory(fmt, b, count), Gap(sections))
    ensures NewGrown(n, Directory(fmt, b, count), sections, lay, fmt.crc)
  {
    DirectoryFits(fmt, a, b, size, sections, lay);
    OldEntriesGrow(fmt, a, b, size, sections, lay, n, count);
    NewEntriesGrow(fmt, a, b, size, sections, lay, n, count);
  }

  lemma DirectoryFits(fmt: Format, a: bytes, b: bytes, size: nat, sections: seq<Section>, lay: Layout)
    requires Fits(fmt, a, size, sections, lay) && Extended(fmt, a, b, size, sections, lay)
    ensures EntryAt(Count(fmt, a)) <= |a| && EntryAt(Count(fmt, a) + |sections|) <= |b|
  {
    FirstPayloadIsInside(fmt, a, size);
  }

  /** The strict reader, and with it the plain one, finds an appended section; the
      bytes it is given are exactly the payload. */
  lemma AppendedIsFound(
    fmt: Format, a: bytes, b: bytes, size: nat, sections: seq<Section>, lay: Layout, n: nat, count: nat,
    strict: bool, j: nat)
    requires Fits(fmt, a, size, sections, lay) && Extended(fmt, a, b, size, sections, lay) && Distinct(sections)
    requires j < |sections| && n == Count(fmt, a) && count == n + |sections|
    requires EntryAt(n) <= |a| && Lacks(Directory(fmt, a, n), sections[j].id)
    ensures EntryAt(count) <= |b| && |lay.offsets| == |sections| && lay.total <= |b|
    ensures StandsAt(b, lay.offsets[j], sections[j].payload)
    ensures IsFound(fmt, b, Directory(fmt, b, count), sections[j], lay.offsets[j], lay.total, strict)
  {
    DirectoryGrows(fmt, a, b, size, sections, lay, n, count);
    NewStands(fmt, a, b, size, sections, lay, j);
    FoundInGrown(fmt, b, Directory(fmt, a, n), Directory(fmt, b, count), Gap(sections), sections, lay, strict, j);
  }

  /** Both checks, scanning these entries, end at the section. */
  ghost predicate IsFound(
    fmt: Format, b: bytes, entries: seq<Entry>, section: Section, offset: nat, total: nat, strict: bool)
    requires total <= |b|
  {
    var found := Found(offset, |section.payload|);
    Scan(entries, section.id, PlainCheck(total)) == found && Scan(entries, section.id, FullCheck(fmt, b, total, strict)) == found
  }

  lemma FoundInGrown(
    fmt: Format, b: bytes, before: seq<Entry>, after: seq<Entry>, gap: nat, sections: seq<Section>, lay: Layout,
    strict: bool, j: nat)
    requires OldGrown(before, after, gap) && NewGrown(|before|, after, sections, lay, fmt.crc) && Distinct(sections)
    requires j < |sections| && Lacks(before, sections[j].id)
    requires StandsAt(b, lay.offsets[j], sections[j].payload)
    requires lay.offsets[j] + |sections[j].payload| <= lay.total <= |b|
    ensures IsFound(fmt, b, after, sections[j], lay.offsets[j], lay.total, strict)
  {
    AppendedIsScanned(before, after, gap, sections, lay, fmt.crc, PlainCheck(lay.total), j);
    AppendedIsScanned(before, after, gap, sections, lay, fmt.crc, FullCheck(fmt, b, lay.total, strict), j);
    WrittenEntryPasses(fmt, b, lay.total, strict, sections[j], lay.offsets[j]);
  }

  /** A name that was found before is answered by one entry, before and after. */
  lemma {:induction false} OneEntryAnswers(
    before: seq<Entry>, after: seq<Entry>, sections: seq<Section>, lay: Layout, crc: bytes -> nat, id: bytes,
    size: nat, total: nat) returns (k: nat, e: Entry)
    requires OldGrown(before, after, Gap(sections)) && NewGrown(|before|, after, sections, lay, crc)
    requires Scan(before, id, PlainCheck(size)).Found?
    requires forall j :: 0 <= j < |sections| ==> sections[j].id != id
    ensures k < |before| && e == before[k] && Scan(before, id, PlainCheck(size)) == MetaCheck(size, e)
    ensures Scan(after, id, PlainCheck(total)) == MetaCheck(total, e.(offset := e.offset + Gap(sections)))
  {
    PlainNeverMisses(size);
    k := EarlierIsStillScanned(
      before, after, Gap(sections), sections, lay, crc, id, PlainCheck(size), PlainCheck(total));
    e := before[k];
  }

  /** What looking up a name with the META reader's check gives. */
  ghost predicate LooksUp(fmt: Format, b: bytes, n: nat, size: nat, id: bytes, found: Lookup) {
    EntryAt(n) <= |b| && Scan(Directory(fmt, b, n), id, PlainCheck(size)) == found
  }

  /** The same entry answers both scans. */
  lemma {:induction false} SameEntryAnswers(
    fmt: Format, a: bytes, b: bytes, size: nat, sections: seq<Section>, lay: Layout, n: nat, count: nat, id: bytes)
    returns (k: nat, e: Entry)
    requires Fits(fmt, a, size, sections, lay) && Extended(fmt, a, b, size, sections, lay)
    requires n == Count(fmt, a) && count == n + |sections| && EntryAt(n) <= |a|
    requires Scan(Directory(fmt, a, n), id, PlainCheck(size)).Found?
    requires forall j :: 0 <= j < |sections| ==> sections[j].id != id
    ensures k < n && e == ReadEntry(fmt, a, k) && LooksUp(fmt, a, n, size, id, MetaCheck(size, e))
    ensures LooksUp(fmt, b, count, lay.total, id, MetaCheck(lay.total, e.(offset := e.offset + Gap(sections))))
  {
    DirectoryGrows(fmt, a, b, size, sections, lay, n, count);
    k, e := OneEntryAnswers(
      Directory(fmt, a, n), Directory(fmt, b, count), sections, lay, fmt.crc, id, size, lay.total);
    DirectoryAt(fmt, a, n, k);
  }

  /** The bytes at [offset, offset + length) of a stand `gap` further in b. */
  ghost predicate MovedTo(a: bytes, b: bytes, offset: nat, length: nat, gap: nat) {
    && offset + length <= |a| && offset + gap + length <= |b|
    && b[offset + gap..offset + gap + length] == a[offset..offset + length]
  }

  lemma EarlierBytesMoved(
    fmt: Format, a: bytes, b: bytes, size: nat, sections: seq<Section>, lay: Layout, k: nat, e: Entry)
    requires Fits(fmt, a, size, sections, lay) && Extended(fmt, a, b, size, sections, lay)
    requires k < Count(fmt, a) && EntryAt(k + 1) <= |a| && e == ReadEntry(fmt, a, k)
    ensures MovedTo(a, b, e.offset, e.size, Gap(sections))
    ensures e.offset + e.size <= size && size + Gap(sections) <= lay.total
  {
    EarlierSectionIsKept(fmt, a, b, size, sections, lay, k);
  }

  /** What the META reader found before other sections were appended it finds
      again, with the same bytes. */
  lemma {:induction false} EarlierIsStillFound(
    fmt: Format, a: bytes, b: bytes, size: nat, sections: seq<Section>, lay: Layout, n: nat, count: nat, id: bytes,
    was: Lookup)
    requires Fits(fmt, a, size, sections, lay) && Extended(fmt, a, b, size, sections, lay)
    requires n == Count(fmt, a) && count == n + |sections| && LooksUp(fmt, a, n, size, id, was) && was.Found?
    requires forall j :: 0 <= j < |sections| ==> sections[j].id != id
    ensures LooksUp(fmt, b, count, lay.total, id, Found(was.offset + Gap(sections), was.size))
    ensures MovedTo(a, b, was.offset, was.size, Gap(sections))
  {
    var k, e := SameEntryAnswers(fmt, a, b, size, sections, lay, n, count, id);
    EarlierBytesMoved(fmt, a, b, size, sections, lay, k, e);
    MetaStillFinds(size, lay.total, Gap(sections), e, was);
  }

  lemma {:induction false} MetaStillFinds(size: nat, total: nat, gap: nat, e: Entry, was: Lookup)
    requires MetaCheck(size, e) == was && was.Found? && size + gap <= total
    ensures was == Found(e.offset, e.size) && MetaCheck(total, e.(offset := e.offset + gap)) == Found(was.offset + gap, was.size)
  {
  }

  lemma PlainNeverMisses(size: nat)
    ensures forall e :: !PlainCheck(size)(e).Missing?
  {
  }
}
