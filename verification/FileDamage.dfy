/** What the checksums of a result file catch: damage of up to four neighbouring
  bytes in a payload or in the header never goes unnoticed. */
module FileDamage {
  import opened Common
  import opened Bytes
  import Crc32c
  import opened Container
  import opened ContainerFields
  import opened ContainerReader
  import opened ResultFile

  /** d is c with at most four neighbouring bytes inside [low, high) replaced. */
  ghost predicate Damaged(c: bytes, d: bytes, low: nat, high: nat, at: nat, burst: bytes) {
    && low <= at && at + |burst| <= high <= |c| && |burst| <= 4
    && d == Splice(c, at, burst) && d != c
  }

  /** Other bytes, four at most, between the same others: another checksum. */
  ghost predicate Tells(crc: bytes -> nat, prefix: bytes, a: bytes, b: bytes, suffix: bytes) {
    |a| == |b| <= 4 && a != b ==> crc(prefix + a + suffix) != crc(prefix + b + suffix)
  }

  /** The format's checksum always tells. */
  ghost predicate Guarded(fmt: Format) {
    forall prefix, a, b, suffix :: Tells(fmt.crc, prefix, a, b, suffix)
  }

  /** CRC32C does. */
  lemma {:induction false} ResultFormatIsGuarded()
    ensures Guarded(ResultFormat())
  {
    forall prefix, a, b, suffix ensures Tells(ResultFormat().crc, prefix, a, b, suffix) {
      if |a| == |b| <= 4 && a != b {
        Crc32c.ShortBurstIsNoticed(prefix, a, b, suffix);
      }
    }
  }

  lemma {:induction false} SameBytesAreNoDamage(c: bytes, at: nat, burst: bytes)
    requires at + |burst| <= |c| && c[at..at + |burst|] == burst
    ensures Splice(c, at, burst) == c
  {
    assert c == c[..at] + c[at..at + |burst|] + c[at + |burst|..];
  }

  /** The checksum of the damaged part tells. */
  lemma {:induction false} DamageChangesChecksum(
    fmt: Format, c: bytes, d: bytes, low: nat, high: nat, at: nat, burst: bytes)
    requires Guarded(fmt) && Damaged(c, d, low, high, at, burst)
    ensures |d| == |c| && fmt.crc(d[low..high]) != fmt.crc(c[low..high])
  {
    var was := c[at..at + |burst|];
    SpliceSlice(c, at, burst, low, high);
    SpliceSlice(c, at, was, low, high);
    SameBytesAreNoDamage(c, at, was);
    assert Tells(fmt.crc, c[low..at], was, burst, c[at + |burst|..high]);
  }

  lemma {:induction false} SameDirectory(fmt: Format, c: bytes, d: bytes, n: nat)
    requires EntryAt(n) <= |c| && Same(c, d, 0, EntryAt(n))
    ensures Directory(fmt, c, n) == Directory(fmt, d, n)
    decreases n
  {
    if n > 0 {
      SameWithin(c, d, 0, EntryAt(n), 0, EntryAt(n - 1));
      SameWithin(c, d, 0, EntryAt(n), EntryAt(n - 1), EntryAt(n));
      SameDirectory(fmt, c, d, n - 1);
      SameEntry(fmt, c, d, n - 1);
    }
  }

  lemma {:induction false} OtherChecksumIsCorrupt(fmt: Format, c: bytes, d: bytes, total: nat, strict: bool, e: Entry)
    requires total <= |c| == |d| && e.offset + e.size <= |c| && StrictCheck(fmt, c, total, strict, e).Found?
    requires fmt.crc(d[e.offset..e.offset + e.size]) != fmt.crc(c[e.offset..e.offset + e.size])
    ensures StrictCheck(fmt, d, total, strict, e) == Corrupt
  {
  }

  /** Before the damage: the section's entry, sound, its payload behind the directory.
      It answers any other check of that name as well. */
  lemma {:induction false} FoundEntry(
    fmt: Format, c: bytes, total: nat, strict: bool, n: nat, id: bytes, found: Lookup, recheck: Check) returns (e: Entry)
    requires WellFormed(fmt, c, total) && n == Count(fmt, c)
    requires Looks(fmt, c, n, total, strict, id, found) && found.Found?
    ensures EntryAt(n) <= |c| && Scan(Directory(fmt, c, n), id, recheck) == recheck(e)
    ensures StrictCheck(fmt, c, total, strict, e) == found == Found(e.offset, e.size)
    ensures EntryAt(n) <= e.offset && e.offset + e.size <= total
  {
    FullNeverMisses(fmt, c, total, strict);
    var k := FoundIsThere(Directory(fmt, c, n), id, FullCheck(fmt, c, total, strict));
    e := Directory(fmt, c, n)[k];
    OnlyOneIsFound(Directory(fmt, c, n), id, recheck, k);
    DirectoryAt(fmt, c, n, k);
    assert SectionOk(fmt, c, total, n, k);
  }

  lemma {:induction false} FullNeverMisses(fmt: Format, c: bytes, total: nat, strict: bool)
    requires total <= |c|
    ensures forall e :: !FullCheck(fmt, c, total, strict)(e).Missing?
  {
  }

  /** Damage behind the directory leaves the directory alone. */
  lemma {:induction false} DirectoryOutlives(
    fmt: Format, c: bytes, d: bytes, n: nat, low: nat, high: nat, at: nat, burst: bytes)
    requires Damaged(c, d, low, high, at, burst) && EntryAt(n) <= low && n == Count(fmt, c)
    ensures |d| == |c| && Count(fmt, d) == n && Directory(fmt, d, n) == Directory(fmt, c, n)
  {
    SpliceSame(c, at, burst, 0, EntryAt(n));
    SameField(fmt, c, d, 0, EntryAt(n), COUNT_AT, WORD);
    SameDirectory(fmt, c, d, n);
  }

  /** A section the TEMP and LGRD reader found in a container is refused once its
      payload is damaged. */
  lemma {:induction false} DamagedSectionIsRefused(
    fmt: Format, c: bytes, d: bytes, total: nat, strict: bool, n: nat, id: bytes, found: Lookup, at: nat, burst: bytes)
    requires Guarded(fmt) && WellFormed(fmt, c, total) && n == Count(fmt, c)
    requires Looks(fmt, c, n, total, strict, id, found) && found.Found?
    requires Damaged(c, d, found.offset, found.offset + found.size, at, burst)
    ensures Rejected(fmt, c, d, n, total, strict, id)
  {
    var recheck := FullCheck(fmt, d, total, strict);
    var e := FoundEntry(fmt, c, total, strict, n, id, found, recheck);
    DamageStrikes(fmt, c, d, n, e.offset, e.offset + e.size, at, burst);
    OtherChecksumIsCorrupt(fmt, c, d, total, strict, e);
  }

  /** Damage behind the directory: the directory stays, the checksum does not. */
  ghost predicate Struck(fmt: Format, c: bytes, d: bytes, n: nat, low: nat, high: nat) {
    && EntryAt(n) <= |c| == |d| && Count(fmt, d) == n && Directory(fmt, d, n) == Directory(fmt, c, n)
    && low <= high <= |c| && fmt.crc(d[low..high]) != fmt.crc(c[low..high])
  }

  lemma {:induction false} DamageStrikes(
    fmt: Format, c: bytes, d: bytes, n: nat, low: nat, high: nat, at: nat, burst: bytes)
    requires Guarded(fmt) && Damaged(c, d, low, high, at, burst) && EntryAt(n) <= low && n == Count(fmt, c)
    ensures Struck(fmt, c, d, n, low, high)
  {
    DirectoryOutlives(fmt, c, d, n, low, high, at, burst);
    DamageChangesChecksum(fmt, c, d, low, high, at, burst);
  }

  /** What looking up a name with the full check gives. */
  ghost predicate Looks(fmt: Format, b: bytes, n: nat, total: nat, strict: bool, id: bytes, found: Lookup) {
    EntryAt(n) <= |b| && total <= |b| && Scan(Directory(fmt, b, n), id, FullCheck(fmt, b, total, strict)) == found
  }

  /** The damaged file has as many sections, but this one cannot be read. */
  ghost predicate Rejected(fmt: Format, c: bytes, d: bytes, n: nat, total: nat, strict: bool, id: bytes) {
    HEADER <= |d| == |c| && Count(fmt, d) == n && Looks(fmt, d, n, total, strict, id, Corrupt)
  }

  /** Damage in the header, up to its checksum, leaves no container. */
  lemma {:induction false} DamagedHeaderIsNoContainer(
    fmt: Format, c: bytes, d: bytes, total: nat, at: nat, burst: bytes)
    requires Guarded(fmt) && WellFormed(fmt, c, total) && Damaged(c, d, 0, HEADER_CRC_AT, at, burst)
    ensures !WellFormed(fmt, d, total)
  {
    DamageChangesChecksum(fmt, c, d, 0, HEADER_CRC_AT, at, burst);
    SpliceSame(c, at, burst, HEADER_CRC_AT, HEADER);
    SameField(fmt, c, d, HEADER_CRC_AT, HEADER, HEADER_CRC_AT, WORD);
    assert c[0..HEADER_CRC_AT] == c[..HEADER_CRC_AT] && d[0..HEADER_CRC_AT] == d[..HEADER_CRC_AT];
  }

  lemma {:induction false} ChecksumTells(fmt: Format, c: bytes, d: bytes, size: nat, n: nat, i: nat, e: Entry)
    requires EntryAt(n) <= size <= |c| == |d| && i < n && SectionOk(fmt, c, size, n, i)
    requires ReadEntry(fmt, c, i) == e && ReadEntry(fmt, d, i) == e
    requires fmt.crc(d[e.offset..e.offset + e.size]) != fmt.crc(c[e.offset..e.offset + e.size])
    ensures !SectionOk(fmt, d, size, n, i)
  {
  }

  /** Nor does damage in any payload, META's included. */
  lemma {:induction false} DamagedPayloadIsNoContainer(
    fmt: Format, c: bytes, d: bytes, total: nat, n: nat, i: nat, e: Entry, at: nat, burst: bytes)
    requires Guarded(fmt) && WellFormed(fmt, c, total) && n == Count(fmt, c)
    requires i < n && e == ReadEntry(fmt, c, i) && Damaged(c, d, e.offset, e.offset + e.size, at, burst)
    ensures !WellFormed(fmt, d, total)
  {
    assert SectionOk(fmt, c, total, n, i);
    EntryOutlives(fmt, c, d, n, i, e.offset, e.offset + e.size, at, burst);
    DamageChangesChecksum(fmt, c, d, e.offset, e.offset + e.size, at, burst);
    ChecksumTells(fmt, c, d, total, n, i, e);
  }

  lemma {:induction false} EntryOutlives(
    fmt: Format, c: bytes, d: bytes, n: nat, i: nat, low: nat, high: nat, at: nat, burst: bytes)
    requires Damaged(c, d, low, high, at, burst) && EntryAt(n) <= low && n == Count(fmt, c) && i < n
    ensures |d| == |c| && Count(fmt, d) == n && ReadEntry(fmt, d, i) == ReadEntry(fmt, c, i)
  {
    DirectoryOutlives(fmt, c, d, n, low, high, at, burst);
    DirectoryAt(fmt, c, n, i);
    DirectoryAt(fmt, d, n, i);
  }

  /** So a final file whose tempo or local grid payload is damaged is refused as a
      whole by the reader of both. */
  lemma {:induction false} DamagedFileIsRefused(
    fmt: Format, c: bytes, d: bytes, total: nat, strict: bool, n: nat, meta: bytes, temp: bytes, grid: bytes,
    id: bytes, found: Lookup, at: nat, burst: bytes)
    requires Guarded(fmt) && WellFormed(fmt, c, total) && n == Count(fmt, c)
    requires ReadsAll(fmt, c, n, total, strict, meta, temp, grid) && (id == TEMP || id == LGRD)
    requires Looks(fmt, c, n, total, strict, id, found) && found.Found?
    requires Damaged(c, d, found.offset, found.offset + found.size, at, burst)
    ensures |d| == |c| && Count(fmt, d) == n && EntryAt(n) <= |d| && total <= |d|
    ensures Paired(ScanPair(Directory(fmt, d, n), TEMP, LGRD, FullCheck(fmt, d, total, strict))).Refused?
  {
    DamagedSectionIsRefused(fmt, c, d, total, strict, n, id, found, at, burst);
    PairIsTwoScans(Directory(fmt, d, n), TEMP, LGRD, FullCheck(fmt, d, total, strict));
  }

  /** The reader of both accepts the undamaged file. */
  lemma {:induction false} WholeFileIsRead(
    fmt: Format, c: bytes, total: nat, strict: bool, n: nat, meta: bytes, temp: bytes, grid: bytes)
    requires ReadsAll(fmt, c, n, total, strict, meta, temp, grid)
    ensures
      var pair := Paired(ScanPair(Directory(fmt, c, n), TEMP, LGRD, FullCheck(fmt, c, total, strict)));
      pair.Pair? && Reads(c, pair.first, temp) && Reads(c, pair.second, grid)
  {
    PairIsTwoScans(Directory(fmt, c, n), TEMP, LGRD, FullCheck(fmt, c, total, strict));
  }

  /** The whole chain with CRC32C: the file written is read, the damaged one is not. */
  lemma {:induction false} WrittenFileIsGuarded(
    fmt: Format, a: bytes, b: bytes, c: bytes, d: bytes, size: nat, lay: Layout, last: Layout, n: nat, strict: bool,
    meta: bytes, temp: bytes, grid: bytes, id: bytes, found: Lookup, at: nat, burst: bytes)
    requires fmt == ResultFormat()
    requires Step(fmt, a, b, size, [Section(META, meta)], lay, n, n + 1)
    requires Step(fmt, b, c, lay.total, [Section(TEMP, temp), Section(LGRD, grid)], last, n + 1, n + 3)
    requires Lacks(Directory(fmt, a, n), META) && Lacks(Directory(fmt, a, n), TEMP) && Lacks(Directory(fmt, a, n), LGRD)
    requires (id == TEMP || id == LGRD) && Looks(fmt, c, n + 3, last.total, strict, id, found) && found.Found?
    requires Damaged(c, d, found.offset, found.offset + found.size, at, burst)
    ensures |d| == |c| && EntryAt(n + 3) <= |c| && last.total <= |c|
    ensures
      var pair := Paired(ScanPair(Directory(fmt, c, n + 3), TEMP, LGRD, FullCheck(fmt, c, last.total, strict)));
      pair.Pair? && Reads(c, pair.first, temp) && Reads(c, pair.second, grid)
    ensures Paired(ScanPair(Directory(fmt, d, n + 3), TEMP, LGRD, FullCheck(fmt, d, last.total, strict))).Refused?
  {
    ResultFormatIsGuarded();
    FileIsReadBack(fmt, a, b, c, size, lay, last, n, strict, meta, temp, grid);
    WholeFileIsRead(fmt, c, last.total, strict, n + 3, meta, temp, grid);
    StepCounts(fmt, b, c, lay.total, [Section(TEMP, temp), Section(LGRD, grid)], last, n + 1, n + 3);
    DamagedFileIsRefused(fmt, c, d, last.total, strict, n + 3, meta, temp, grid, id, found, at, burst);
  }

  lemma {:induction false} StepCounts(
    fmt: Format, a: bytes, b: bytes, size: nat, sections: seq<Section>, lay: Layout, n: nat, count: nat)
    requires Step(fmt, a, b, size, sections, lay, n, count)
    ensures HEADER <= |b| && Count(fmt, b) == count
  {
  }
}
