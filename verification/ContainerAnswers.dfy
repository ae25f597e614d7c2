/** What the container readers answer, told from the bytes: where the fields are, which
  entries are accepted, and when a name is found, missing or refused. */
module ContainerAnswers {
  import opened Common
  import opened Bytes
  import opened Container
  import opened ContainerReader

  // ------------------------------------------------------------------- on disk

  /** A little slice of the buffer as a number. */
  function At(fmt: Format, b: bytes, from: nat, to: nat): nat
    requires from <= to <= |b|
  {
    fmt.number(b[from..to])
  }

  /** Where a container keeps its numbers. */
  lemma {:induction false} HeaderOnDisk(fmt: Format, b: bytes, size: nat)
    requires WellFormed(fmt, b, size)
    ensures 96 <= size <= |b| && At(fmt, b, 20, 24) == Count(fmt, b) && 0 < Count(fmt, b)
    ensures At(fmt, b, 24, 32) == 96 && At(fmt, b, 32, 40) == size
    ensures At(fmt, b, 92, 96) == fmt.crc(b[..92]) && 96 + 40 * Count(fmt, b) <= size
  {
  }

  lemma {:induction false} EntryOnDisk(fmt: Format, b: bytes, i: nat)
    requires 96 + 40 * i + 40 <= |b|
    ensures
      var e, at := ReadEntry(fmt, b, i), 96 + 40 * i;
      && e.id == b[at..at + 4] && e.version == At(fmt, b, at + 4, at + 6) && e.reserved == At(fmt, b, at + 6, at + 8)
      && e.offset == At(fmt, b, at + 8, at + 16) && e.size == At(fmt, b, at + 16, at + 24)
      && e.rawSize == At(fmt, b, at + 24, at + 32) && e.crc == At(fmt, b, at + 32, at + 36)
      && e.tail == At(fmt, b, at + 36, at + 40)
  {
  }

  /** Sections stand as close together as their alignment allows. */
  lemma {:induction false} LayoutIsTight(start: nat, sections: seq<Section>, j: nat, place: nat)
    requires j < |sections|
    ensures
      var lay := LayoutOf(start, sections);
      var before := if j == 0 then start else lay.offsets[j - 1] + |sections[j - 1].payload|;
      && lay.offsets[j] % 8 == 0 && before <= lay.offsets[j]
      && (before <= place && place % 8 == 0 ==> lay.offsets[j] <= place)
  {
    LayoutOfIsLaid(start, sections);
    assert LaidAt(start, sections, LayoutOf(start, sections), j);
  }

  // ----------------------------------------------------------- which are accepted

  /** The entry is one the TEMP and LGRD reader accepts: version 1, nothing in the reserved
      field, nothing in the last one when the reader is strict, the payload inside the file
      and as the checksum says. */
  predicate Sound(fmt: Format, b: bytes, size: nat, strict: bool, e: Entry)
    requires size <= |b|
  {
    && e.version == 1 && e.reserved == 0 && (strict ==> e.tail == 0) && e.rawSize == e.size
    && e.offset + e.size <= size && e.crc == fmt.crc(b[e.offset..e.offset + e.size])
  }

  lemma {:induction false} StrictAcceptsExactly(fmt: Format, b: bytes, size: nat, strict: bool, e: Entry)
    requires size <= |b|
    ensures
      var answer := StrictCheck(fmt, b, size, strict, e);
      && (Sound(fmt, b, size, strict, e) <==> answer == Found(e.offset, e.size))
      && (e.version != 1 <==> answer == Unsupported)
      && (e.version == 1 && !Sound(fmt, b, size, strict, e) <==> answer == Corrupt)
  {
  }

  lemma {:induction false} PlainAcceptsExactly(size: nat, e: Entry)
    ensures
      var answer := MetaCheck(size, e);
      && (e.version == 1 && e.offset + e.size <= size <==> answer == Found(e.offset, e.size))
      && (e.version != 1 <==> answer == Unsupported)
      && (e.version == 1 && size < e.offset + e.size <==> answer == Corrupt)
  {
  }

  // ------------------------------------------------------------ what a scan answers

  /** Entry k is the first with this name. */
  predicate IsFirst(entries: seq<Entry>, id: bytes, k: nat) {
    k < |entries| && entries[k].id == id && forall i :: 0 <= i < k ==> entries[i].id != id
  }

  predicate HasAnother(entries: seq<Entry>, id: bytes, k: nat) {
    exists i :: k < i < |entries| && entries[i].id == id
  }

  /** The first entry with the name decides: its own failure is the answer, and if it has
      none a namesake behind it is corruption. */
  lemma {:induction false} FirstDecides(entries: seq<Entry>, id: bytes, check: Check, k: nat)
    requires IsFirst(entries, id, k) && forall e :: !check(e).Missing?
    ensures
      var answer := check(entries[k]);
      Scan(entries, id, check) ==
        if answer == Unsupported || answer == Corrupt then answer
        else if HasAnother(entries, id, k) then Corrupt else answer
    decreases |entries|
  {
    var n := |entries| - 1;
    var before := entries[..n];
    if k == n {
      AbsentIsMissing(before, id, check);
    } else {
      FirstDecides(before, id, check, k);
      if HasAnother(before, id, k) {
        var i :| k < i < n && before[i].id == id;
        assert entries[i].id == id;
      }
      if entries[n].id != id && HasAnother(entries, id, k) {
        var i :| k < i < |entries| && entries[i].id == id;
        assert before[i].id == id;
      }
    }
  }

  lemma {:induction false} MissingExactly(entries: seq<Entry>, id: bytes, check: Check)
    requires forall e :: !check(e).Missing?
    ensures Scan(entries, id, check) == Missing <==> forall i :: 0 <= i < |entries| ==> entries[i].id != id
  {
    if Scan(entries, id, check) == Missing {
      MissingIsAbsent(entries, id, check);
    }
    if forall i :: 0 <= i < |entries| ==> entries[i].id != id {
      AbsentIsMissing(entries, id, check);
    }
  }

  /** Entry k has the name and no other has. */
  predicate IsOnly(entries: seq<Entry>, id: bytes, k: nat) {
    k < |entries| && entries[k].id == id && forall i :: 0 <= i < |entries| && i != k ==> entries[i].id != id
  }

  /** It is sound as well and has its payload there. */
  ghost predicate Serves(
    fmt: Format, b: bytes, size: nat, strict: bool, entries: seq<Entry>, id: bytes, offset: nat, length: nat, k: nat)
    requires size <= |b|
  {
    && IsOnly(entries, id, k) && Sound(fmt, b, size, strict, entries[k])
    && entries[k].offset == offset && entries[k].size == length
  }

  /** A name is found exactly where its only entry is, if that is sound. */
  lemma {:induction false} StrictFindsExactly(
    fmt: Format, b: bytes, size: nat, strict: bool, entries: seq<Entry>, id: bytes, offset: nat, length: nat)
    requires size <= |b|
    ensures
      Scan(entries, id, FullCheck(fmt, b, size, strict)) == Found(offset, length) <==>
        exists k: nat :: Serves(fmt, b, size, strict, entries, id, offset, length, k)
  {
    var check := FullCheck(fmt, b, size, strict);
    forall e ensures !check(e).Missing? && check(e) == StrictCheck(fmt, b, size, strict, e) {
      StrictAcceptsExactly(fmt, b, size, strict, e);
    }
    if Scan(entries, id, check) == Found(offset, length) {
      var k := FoundIsThere(entries, id, check);
      StrictAcceptsExactly(fmt, b, size, strict, entries[k]);
      assert Serves(fmt, b, size, strict, entries, id, offset, length, k);
    }
    if k: nat :| Serves(fmt, b, size, strict, entries, id, offset, length, k) {
      OnlyOneIsFound(entries, id, check, k);
      StrictAcceptsExactly(fmt, b, size, strict, entries[k]);
    }
  }

  /** In a container every entry of version 1 whose reserved fields are clear is sound, and
      its payload is aligned and behind the directory. */
  lemma {:induction false} ContainersAreReadable(fmt: Format, b: bytes, size: nat, strict: bool, i: nat)
    requires WellFormed(fmt, b, size) && i < Count(fmt, b)
    ensures
      var e := ReadEntry(fmt, b, i);
      && e.offset % 8 == 0 && 96 + 40 * Count(fmt, b) <= e.offset
      && (e.version == 1 && e.reserved == 0 && e.tail == 0 ==> Sound(fmt, b, size, strict, e))
  {
    assert SectionOk(fmt, b, size, Count(fmt, b), i);
  }

  // ------------------------------------------------------------------- the pair

  /** The reader of two names accepts a directory exactly when neither lookup fails and the
      second name does not stand alone, and then has both lookups. */
  lemma {:induction false} PairAnswers(entries: seq<Entry>, first: bytes, second: bytes, check: Check)
    requires first != second
    ensures
      var x, y, pair := Scan(entries, first, check), Scan(entries, second, check), Paired(ScanPair(entries, first, second, check));
      && (pair == Pair(x, y) <==>
            x != Unsupported && x != Corrupt && y != Unsupported && y != Corrupt && !(y.Found? && x == Missing))
      && (pair != Pair(x, y) ==> pair == Refused(Unsupported) || pair == Refused(Corrupt))
  {
    PairIsTwoScans(entries, first, second, check);
  }
}
