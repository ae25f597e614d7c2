/** Reading back what was written into fields and directory entries. */
module ContainerFields {
  import opened Common
  import opened Bytes
  import opened Container

  // ------------------------------------------------------------ what stays same

  lemma SpliceSame(b: bytes, at: nat, t: bytes, low: nat, high: nat)
    requires at + |t| <= |b| && low <= high <= |b| && (high <= at || at + |t| <= low)
    ensures Same(b, Splice(b, at, t), low, high)
  {
    SpliceKeeps(b, at, t, low, high);
  }

  lemma MovedSame(fmt: Format, b: bytes, i: nat, gap: nat, low: nat, high: nat)
    requires EntryAt(i + 1) <= |b| && low <= high <= |b|
    requires high <= EntryAt(i) || EntryAt(i + 1) <= low
    ensures Same(b, MovedEntry(fmt, b, i, gap), low, high)
  {
    SpliceSame(b, EntryAt(i) + 8, fmt.digits(U(fmt, b, EntryAt(i) + 8, LONG) + gap, LONG), low, high);
  }

  /** A field reads the same where the bytes are the same. */
  lemma SameField(fmt: Format, a: bytes, b: bytes, low: nat, high: nat, at: nat, width: nat)
    requires Same(a, b, low, high) && low <= at && at + width <= high
    ensures U(fmt, a, at, width) == U(fmt, b, at, width)
  {
    SameWithin(a, b, low, high, at, at + width);
  }

  // -------------------------------------------------------------- the entries

  lemma SameEntry(fmt: Format, a: bytes, b: bytes, i: nat)
    requires EntryAt(i + 1) <= |a| && Same(a, b, EntryAt(i), EntryAt(i + 1))
    ensures ReadEntry(fmt, a, i) == ReadEntry(fmt, b, i)
  {
    var at := EntryAt(i);
    SameWithin(a, b, at, at + ENTRY, at, at + 4);
    SameWithin(a, b, at, at + ENTRY, at + 4, at + 6);
    SameWithin(a, b, at, at + ENTRY, at + 6, at + 8);
    SameWithin(a, b, at, at + ENTRY, at + 8, at + 16);
    SameWithin(a, b, at, at + ENTRY, at + 16, at + 24);
    SameWithin(a, b, at, at + ENTRY, at + 24, at + 32);
    SameWithin(a, b, at, at + ENTRY, at + 32, at + 36);
    SameWithin(a, b, at, at + ENTRY, at + 36, at + 40);
  }

  /** One bump: the offset grows, the rest of the entry stays. */
  lemma BumpOne(fmt: Format, b: bytes, i: nat, gap: nat)
    requires EntryAt(i + 1) <= |b| && ReadEntry(fmt, b, i).offset + gap < LONG_LIMIT
    ensures
      ReadEntry(fmt, MovedEntry(fmt, b, i, gap), i) == ReadEntry(fmt, b, i).(offset := ReadEntry(fmt, b, i).offset + gap)
  {
    var at := EntryAt(i);
    var value := U(fmt, b, at + 8, LONG) + gap;
    var t := fmt.digits(value, LONG);
    PutIsRead(fmt, b, at + 8, value, LONG);
    SpliceSame(b, at + 8, t, at, at + 4);
    SpliceSame(b, at + 8, t, at + 4, at + 6);
    SpliceSame(b, at + 8, t, at + 6, at + 8);
    SpliceSame(b, at + 8, t, at + 16, at + 24);
    SpliceSame(b, at + 8, t, at + 24, at + 32);
    SpliceSame(b, at + 8, t, at + 32, at + 36);
    SpliceSame(b, at + 8, t, at + 36, at + 40);
  }

  /** Moving an entry depends on that entry's bytes only. */
  lemma MovedAlike(fmt: Format, a: bytes, b: bytes, i: nat, gap: nat)
    requires EntryAt(i + 1) <= |a| && Same(a, b, EntryAt(i), EntryAt(i + 1))
    ensures Same(MovedEntry(fmt, a, i, gap), MovedEntry(fmt, b, i, gap), EntryAt(i), EntryAt(i + 1))
  {
    var at := EntryAt(i);
    SameWithin(a, b, at, at + ENTRY, at + 8, at + 16);
    SameWithin(a, b, at, at + ENTRY, at, at + 8);
    SameWithin(a, b, at, at + ENTRY, at + 16, at + ENTRY);
    var t := fmt.digits(U(fmt, a, at + 8, LONG) + gap, LONG);
    SpliceSlice(a, at + 8, t, at, at + ENTRY);
    SpliceSlice(b, at + 8, t, at, at + ENTRY);
  }

  lemma SpliceSlice(b: bytes, at: nat, t: bytes, low: nat, high: nat)
    requires low <= at && at + |t| <= high <= |b|
    ensures Splice(b, at, t)[low..high] == b[low..at] + t + b[at + |t|..high]
  {
  }

  lemma PartsStand(b: bytes, at: nat, id: bytes, v: bytes, r: bytes, o: bytes, s: bytes, c: bytes, t: bytes)
    requires |id| == 4 && |v| == 2 && |r| == 2 && |o| == 8 && |s| == 8 && |c| == 4 && |t| == 4
    requires StandsAt(b, at, id + v + r + o + s + s + c + t)
    ensures b[at..at + 4] == id && b[at + 4..at + 6] == v && b[at + 6..at + 8] == r
    ensures b[at + 8..at + 16] == o && b[at + 16..at + 24] == s && b[at + 24..at + 32] == s
    ensures b[at + 32..at + 36] == c && b[at + 36..at + 40] == t
  {
    var e := id + v + r + o + s + s + c + t;
    EntryParts(id, v, r, o, s, c, t);
    FieldStands(b, at, e, 0, 4);
    FieldStands(b, at, e, 4, 2);
    FieldStands(b, at, e, 6, 2);
    FieldStands(b, at, e, 8, 8);
    FieldStands(b, at, e, 16, 8);
    FieldStands(b, at, e, 24, 8);
    FieldStands(b, at, e, 32, 4);
    FieldStands(b, at, e, 36, 4);
  }

  lemma PartsAreRead(fmt: Format, b: bytes, i: nat, id: bytes, v: bytes, r: bytes, o: bytes, s: bytes, c: bytes, t: bytes)
    requires |id| == 4 && |v| == SHORT && |r| == SHORT && |o| == LONG && |s| == LONG && |c| == WORD && |t| == WORD
    requires StandsAt(b, EntryAt(i), id + v + r + o + s + s + c + t)
    ensures ReadEntry(fmt, b, i) == Entry(
      id, fmt.number(v), fmt.number(r), fmt.number(o), fmt.number(s), fmt.number(s),
      fmt.number(c), fmt.number(t))
  {
    PartsStand(b, EntryAt(i), id, v, r, o, s, c, t);
  }

  /** Every field of a written entry is read back. */
  lemma WrittenEntryIsRead(fmt: Format, b: bytes, i: nat, id: bytes, offset: nat, payload: bytes)
    requires |id| == 4 && offset < LONG_LIMIT && |payload| < LONG_LIMIT
    requires StandsAt(b, EntryAt(i), EntryBytes(fmt, id, offset, payload))
    ensures ReadEntry(fmt, b, i) == Entry(id, 1, 0, offset, |payload|, |payload|, fmt.crc(payload), 0)
  {
    var sum := fmt.crc(payload);
    PartsAreRead(fmt, b, i, id, fmt.digits(1, SHORT), fmt.digits(0, SHORT), fmt.digits(offset, LONG),
                 fmt.digits(|payload|, LONG), fmt.digits(sum, WORD), fmt.digits(0, WORD));
  }

  lemma FieldStands(b: bytes, at: nat, e: bytes, from: nat, width: nat)
    requires StandsAt(b, at, e) && from + width <= |e|
    ensures b[at + from..at + from + width] == e[from..from + width]
  {
    forall k | at + from <= k < at + from + width ensures b[k] == e[k - at] {
      assert b[k] == b[at..at + |e|][k - at];
    }
  }

  lemma EntryParts(id: bytes, v: bytes, r: bytes, o: bytes, s: bytes, c: bytes, t: bytes)
    requires |id| == 4 && |v| == 2 && |r| == 2 && |o| == 8 && |s| == 8 && |c| == 4 && |t| == 4
    ensures
      var e := id + v + r + o + s + s + c + t;
      && e[0..4] == id && e[4..6] == v && e[6..8] == r && e[8..16] == o && e[16..24] == s
      && e[24..32] == s && e[32..36] == c && e[36..40] == t
  {
  }
}
