/** Appending sections to a container that stands in a buffer, step by step. */
module ContainerCodec {
  import opened Common
  import opened Bytes
  import opened Buffers
  import opened Container
  import opened ContainerFields
  import opened ContainerMeaning

  // ---------------------------------------------------------------- the layout

  /** Lay the sections out behind `start`; none if an offset would not fit 64 bits. */
  method LayOut(start: nat, sections: seq<Section>) returns (lay: Option<Layout>)
    ensures
      var spec := LayoutOf(start, sections);
      lay == if spec.total < LONG_LIMIT then Some(spec) else None
  {
    var offsets: seq<nat>, cursor: nat := [], start;
    ghost var spec := LayoutOf(start, sections);
    for j := 0 to |sections|
      invariant spec == Layout(offsets + LayoutOf(cursor, sections[j..]).offsets, LayoutOf(cursor, sections[j..]).total)
    {
      var offset := Align8(cursor);
      if offset >= LONG_LIMIT {
        return None;
      }
      assert sections[j..][1..] == sections[j + 1..];
      offsets, cursor := offsets + [offset], offset + |sections[j].payload|;
    }
    assert sections[|sections|..] == [] && offsets + [] == offsets;
    return if cursor >= LONG_LIMIT then None else Some(Layout(offsets, cursor));
  }

  // ----------------------------------------------------------------- the stages

  method PutField(buffer: array<byte>, at: nat, value: nat, width: nat, fmt: Format)
    requires at + width <= buffer.Length
    modifies buffer
    ensures buffer[..] == Put(fmt, old(buffer[..]), at, value, width)
  {
    Copy(buffer, at, fmt.digits(value, width));
  }

  method ReadField(buffer: array<byte>, at: nat, width: nat, fmt: Format) returns (value: nat)
    requires at + width <= buffer.Length
    ensures value == U(fmt, buffer[..], at, width)
  {
    assert buffer[..][at..at + width] == buffer[at..at + width];
    value := fmt.number(buffer[at..at + width]);
  }

  method ReadOffset(buffer: array<byte>, i: nat, fmt: Format) returns (offset: nat)
    requires EntryAt(i + 1) <= buffer.Length
    ensures offset == OffsetOf(fmt, buffer[..], i)
  {
    offset := ReadField(buffer, EntryAt(i) + 8, LONG, fmt);
  }

  method FindFirstPayload(buffer: array<byte>, n: nat, fmt: Format) returns (first: nat)
    requires 0 < n && EntryAt(n) <= buffer.Length
    ensures first == FirstPayload(fmt, buffer[..], n)
  {
    first := ReadOffset(buffer, 0, fmt);
    for i := 1 to n
      invariant first == FirstPayload(fmt, buffer[..], i)
    {
      var offset := ReadOffset(buffer, i, fmt);
      if offset < first {
        first := offset;
      }
    }
  }

  /** The first i entries are moved, everything from the next one on is as before. */
  ghost predicate MovedSoFar(fmt: Format, a: bytes, b: bytes, gap: nat, i: nat) {
    && EntryAt(i) <= |a| == |b| && Same(a, b, 0, HEADER) && Same(a, b, EntryAt(i), |a|)
    && forall k :: 0 <= k < i ==> EntryMoved(fmt, a, b, gap, k)
  }

  lemma MoveNext(fmt: Format, a: bytes, b: bytes, gap: nat, i: nat)
    requires MovedSoFar(fmt, a, b, gap, i) && EntryAt(i + 1) <= |a|
    ensures MovedSoFar(fmt, a, MovedEntry(fmt, b, i, gap), gap, i + 1)
  {
    var c := MovedEntry(fmt, b, i, gap);
    MovedSame(fmt, b, i, gap, 0, HEADER);
    MovedSame(fmt, b, i, gap, EntryAt(i + 1), |a|);
    SameWithin(a, b, EntryAt(i), |a|, EntryAt(i + 1), |a|);
    SameWithin(a, b, EntryAt(i), |a|, EntryAt(i), EntryAt(i + 1));
    MovedAlike(fmt, a, b, i, gap);
    forall k | 0 <= k < i ensures EntryMoved(fmt, a, c, gap, k) {
      MovedSame(fmt, b, i, gap, EntryAt(k), EntryAt(k + 1));
      assert EntryMoved(fmt, a, b, gap, k);
    }
  }

  method MoveEntry(buffer: array<byte>, i: nat, gap: nat, fmt: Format)
    requires EntryAt(i + 1) <= buffer.Length
    modifies buffer
    ensures buffer[..] == MovedEntry(fmt, old(buffer[..]), i, gap)
  {
    var offset := ReadField(buffer, EntryAt(i) + 8, LONG, fmt);
    PutField(buffer, EntryAt(i) + 8, offset + gap, LONG, fmt);
  }

  method BumpOffsets(buffer: array<byte>, n: nat, gap: nat, fmt: Format)
    requires EntryAt(n) <= buffer.Length
    modifies buffer
    ensures MovedSoFar(fmt, old(buffer[..]), buffer[..], gap, n)
  {
    ghost var before := buffer[..];
    for i := 0 to n
      invariant MovedSoFar(fmt, before, buffer[..], gap, i)
    {
      MoveNext(fmt, before, buffer[..], gap, i);
      MoveEntry(buffer, i, gap, fmt);
    }
  }

  /** The first m payloads stand in their places, nothing else changed. */
  ghost predicate FilledSoFar(a: bytes, b: bytes, start: nat, sections: seq<Section>, lay: Layout, m: nat)
    requires m <= |sections| == |lay.offsets|
  {
    && |a| == |b| && Same(a, b, 0, start) && EndBefore(start, sections, lay, m) <= |a|
    && Same(a, b, EndBefore(start, sections, lay, m), |a|)
    && forall j :: 0 <= j < m ==> PayloadWritten(b, lay.offsets[j], sections[j])
  }

  lemma FillNext(a: bytes, b: bytes, start: nat, sections: seq<Section>, lay: Layout, j: nat, padding: bytes)
    requires Laid(start, sections, lay) && j < |sections| && FilledSoFar(a, b, start, sections, lay, j)
    requires EndBefore(start, sections, lay, j) + |padding| == lay.offsets[j] && lay.total <= |a|
    ensures lay.offsets[j] + |sections[j].payload| <= |a|
    ensures FilledSoFar(a, Splice(b, EndBefore(start, sections, lay, j), padding + sections[j].payload), start, sections, lay, j + 1)
  {
    var from, p := EndBefore(start, sections, lay, j), sections[j].payload;
    var t := padding + p;
    EndsGrow(start, sections, lay, j + 1, |sections|);
    EndsGrow(start, sections, lay, 0, j);
    var c := Splice(b, from, t);
    SpliceSame(b, from, t, 0, start);
    SpliceSame(b, from, t, from + |t|, |a|);
    SameWithin(a, b, from, |a|, from + |t|, |a|);
    PaddedStands(b, from, padding, p);
    forall i | 0 <= i < j ensures PayloadWritten(c, lay.offsets[i], sections[i]) {
      EndsGrow(start, sections, lay, i + 1, j);
      SpliceSame(b, from, t, lay.offsets[i], lay.offsets[i] + |sections[i].payload|);
      assert PayloadWritten(b, lay.offsets[i], sections[i]);
    }
  }

  lemma PaddedStands(b: bytes, from: nat, padding: bytes, payload: bytes)
    requires from + |padding + payload| <= |b|
    ensures StandsAt(Splice(b, from, padding + payload), from + |padding|, payload)
  {
  }

  method WritePayloads(buffer: array<byte>, start: nat, sections: seq<Section>, lay: Layout)
    requires Laid(start, sections, lay) && lay.total <= buffer.Length
    modifies buffer
    ensures FilledSoFar(old(buffer[..]), buffer[..], start, sections, lay, |sections|)
  {
    ghost var before := buffer[..];
    EndsGrow(start, sections, lay, 0, |sections|);
    for j := 0 to |sections|
      invariant FilledSoFar(before, buffer[..], start, sections, lay, j)
    {
      WriteOnePayload(buffer, before, start, sections, lay, j);
    }
  }

  method WriteOnePayload(
    buffer: array<byte>, ghost before: bytes, start: nat, sections: seq<Section>, lay: Layout, j: nat)
    requires Laid(start, sections, lay) && lay.total <= buffer.Length && j < |sections|
    requires FilledSoFar(before, buffer[..], start, sections, lay, j)
    modifies buffer
    ensures FilledSoFar(before, buffer[..], start, sections, lay, j + 1)
  {
    assert LaidAt(start, sections, lay, j);
    var from := EndBefore(start, sections, lay, j);
    var padding: bytes := seq(lay.offsets[j] - from, _ => 0);
    FillNext(before, buffer[..], start, sections, lay, j, padding);
    Copy(buffer, from, padding + sections[j].payload);
  }

  /** The first m new entries stand behind the n old ones, nothing else changed. */
  ghost predicate EnteredSoFar(fmt: Format, a: bytes, b: bytes, n: nat, sections: seq<Section>, lay: Layout, m: nat)
    requires m <= |sections| == |lay.offsets|
  {
    && |a| == |b| && Same(a, b, 0, EntryAt(n)) && EntryAt(n + m) <= |a| && Same(a, b, EntryAt(n + m), |a|)
    && forall j :: 0 <= j < m ==> NewEntry(fmt, b, n, lay, sections, j)
  }

  lemma EnterNext(fmt: Format, a: bytes, b: bytes, n: nat, sections: seq<Section>, lay: Layout, j: nat)
    requires j < |sections| == |lay.offsets| && Named(sections) && EnteredSoFar(fmt, a, b, n, sections, lay, j)
    requires EntryAt(n + j + 1) <= |a|
    ensures EnteredSoFar(
      fmt, a, Splice(b, EntryAt(n + j), EntryBytes(fmt, sections[j].id, lay.offsets[j], sections[j].payload)),
      n, sections, lay, j + 1)
  {
    var at, e := EntryAt(n + j), EntryBytes(fmt, sections[j].id, lay.offsets[j], sections[j].payload);
    var c := Splice(b, at, e);
    SpliceSame(b, at, e, 0, EntryAt(n));
    SpliceSame(b, at, e, at + ENTRY, |a|);
    SameWithin(a, b, at, |a|, at + ENTRY, |a|);
    SpliceStands(b, at, e);
    forall i | 0 <= i < j ensures NewEntry(fmt, c, n, lay, sections, i) {
      SpliceSame(b, at, e, EntryAt(n + i), EntryAt(n + i + 1));
      assert NewEntry(fmt, b, n, lay, sections, i);
    }
  }

  method WriteEntries(buffer: array<byte>, n: nat, sections: seq<Section>, lay: Layout, fmt: Format)
    requires |sections| == |lay.offsets| && Named(sections) && EntryAt(n + |sections|) <= buffer.Length
    modifies buffer
    ensures EnteredSoFar(fmt, old(buffer[..]), buffer[..], n, sections, lay, |sections|)
  {
    ghost var before := buffer[..];
    for j := 0 to |sections|
      invariant EnteredSoFar(fmt, before, buffer[..], n, sections, lay, j)
    {
      EnterNext(fmt, before, buffer[..], n, sections, lay, j);
      Copy(buffer, EntryAt(n + j), EntryBytes(fmt, sections[j].id, lay.offsets[j], sections[j].payload));
    }
  }

  /** Count, size, and a checksum over the header with both. */
  method WriteHeader(buffer: array<byte>, count: nat, size: nat, fmt: Format)
    requires HEADER <= buffer.Length && count < WORD_LIMIT && size < LONG_LIMIT
    modifies buffer
    ensures HeaderRenewed(fmt, old(buffer[..]), buffer[..], count, size)
    ensures Same(old(buffer[..]), buffer[..], HEADER, buffer.Length)
  {
    ghost var a := buffer[..];
    PutField(buffer, COUNT_AT, count, WORD, fmt);
    PutField(buffer, SIZE_AT, size, LONG, fmt);
    ghost var sized := buffer[..];
    assert buffer[..HEADER_CRC_AT] == sized[..HEADER_CRC_AT];
    var sum := fmt.crc(buffer[..HEADER_CRC_AT]);
    PutField(buffer, HEADER_CRC_AT, sum, WORD, fmt);
    HeaderIsWritten(fmt, a, Put(fmt, a, COUNT_AT, count, WORD), sized, buffer[..], count, size);
  }

  lemma HeaderIsWritten(fmt: Format, a: bytes, counted: bytes, sized: bytes, b: bytes, count: nat, size: nat)
    requires HEADER <= |a| == |counted| == |sized| && count < WORD_LIMIT && size < LONG_LIMIT
    requires counted == Put(fmt, a, COUNT_AT, count, WORD) && sized == Put(fmt, counted, SIZE_AT, size, LONG)
    requires b == Put(fmt, sized, HEADER_CRC_AT, fmt.crc(sized[..HEADER_CRC_AT]), WORD)
    ensures HeaderRenewed(fmt, a, b, count, size) && Same(a, b, HEADER, |a|)
  {
    var sum := fmt.crc(sized[..HEADER_CRC_AT]);
    PutIsRead(fmt, a, COUNT_AT, count, WORD);
    PutIsRead(fmt, counted, SIZE_AT, size, LONG);
    PutIsRead(fmt, sized, HEADER_CRC_AT, sum, WORD);
    PutsKeep(fmt, a, counted, sized, b, count, size, sum, 0, COUNT_AT);
    PutsKeep(fmt, a, counted, sized, b, count, size, sum, DIRECTORY_AT, SIZE_AT);
    PutsKeep(fmt, a, counted, sized, b, count, size, sum, SIZE_AT + LONG, HEADER_CRC_AT);
    PutsKeep(fmt, a, counted, sized, b, count, size, sum, HEADER, |a|);
    SpliceSame(counted, SIZE_AT, fmt.digits(size, LONG), COUNT_AT, COUNT_AT + WORD);
    SpliceSame(sized, HEADER_CRC_AT, fmt.digits(sum, WORD), 0, HEADER_CRC_AT);
    SameField(fmt, sized, b, 0, HEADER_CRC_AT, COUNT_AT, WORD);
    SameField(fmt, sized, b, 0, HEADER_CRC_AT, SIZE_AT, LONG);
    assert sized[0..HEADER_CRC_AT] == sized[..HEADER_CRC_AT] && b[0..HEADER_CRC_AT] == b[..HEADER_CRC_AT];
  }

  lemma PutsKeep(
    fmt: Format, a: bytes, counted: bytes, sized: bytes, b: bytes, count: nat, size: nat, sum: nat, low: nat, high: nat)
    requires HEADER <= |a| == |counted| == |sized| && low <= high <= |a|
    requires counted == Put(fmt, a, COUNT_AT, count, WORD) && sized == Put(fmt, counted, SIZE_AT, size, LONG)
    requires b == Put(fmt, sized, HEADER_CRC_AT, sum, WORD)
    requires high <= COUNT_AT || (DIRECTORY_AT <= low && high <= SIZE_AT)
      || (SIZE_AT + LONG <= low && high <= HEADER_CRC_AT) || HEADER <= low
    ensures Same(a, b, low, high)
  {
    SpliceSame(a, COUNT_AT, fmt.digits(count, WORD), low, high);
    SpliceSame(counted, SIZE_AT, fmt.digits(size, LONG), low, high);
    SpliceSame(sized, HEADER_CRC_AT, fmt.digits(sum, WORD), low, high);
  }

  // ------------------------------------------------------------------ together

  /** The numbers of one append: entries, first payload, old size, gap. */
  datatype Plan = Plan(n: nat, first: nat, size: nat, sections: seq<Section>, lay: Layout)
  {
    function Start(): nat { size + Gap(sections) }

    ghost predicate Ok() {
      && Laid(Start(), sections, lay) && Named(sections) && Start() <= lay.total
      && HEADER <= EntryAt(n) <= first <= size && EntryAt(n + |sections|) == EntryAt(n) + Gap(sections)
      && lay.total < LONG_LIMIT && n + |sections| < WORD_LIMIT
    }
  }

  /** The buffer before, after moving payloads, bumping, filling, entering, heading. */
  ghost predicate Stages(
    fmt: Format, a: bytes, b1: bytes, b2: bytes, b3: bytes, b4: bytes, b5: bytes, plan: Plan)
  {
    && plan.lay.total <= |a| && plan.Ok() && plan.Start() <= |a|
    && b1 == Splice(a, plan.first + Gap(plan.sections), a[plan.first..plan.size])
    && MovedSoFar(fmt, b1, b2, Gap(plan.sections), plan.n)
    && FilledSoFar(b2, b3, plan.Start(), plan.sections, plan.lay, |plan.sections|)
    && EnteredSoFar(fmt, b3, b4, plan.n, plan.sections, plan.lay, |plan.sections|)
    && HeaderRenewed(fmt, b4, b5, plan.n + |plan.sections|, plan.lay.total) && Same(b4, b5, HEADER, |b4|)
  }

  lemma SpliceMoves(b: bytes, gap: nat, first: nat, size: nat)
    requires first <= size && size + gap <= |b|
    ensures Splice(b, first + gap, b[first..size])[first + gap..size + gap] == b[first..size]
  {
  }

  /** The old payloads, from stage to stage. */
  lemma StagesKeepPayloads(
    fmt: Format, a: bytes, b1: bytes, b2: bytes, b3: bytes, b4: bytes, b5: bytes, plan: Plan)
    requires Stages(fmt, a, b1, b2, b3, b4, b5, plan)
    ensures |b5| == |a| && b5[plan.first + Gap(plan.sections)..plan.Start()] == a[plan.first..plan.size]
  {
    var low, high := plan.first + Gap(plan.sections), plan.Start();
    SpliceMoves(a, Gap(plan.sections), plan.first, plan.size);
    SameWithin(b1, b2, EntryAt(plan.n), |a|, low, high);
    SameWithin(b2, b3, 0, plan.Start(), low, high);
    SameWithin(b3, b4, EntryAt(plan.n + |plan.sections|), |a|, low, high);
    SameWithin(b4, b5, HEADER, |a|, low, high);
  }

  /** An old entry, moved once and then left alone. */
  lemma StagesMoveEntry(
    fmt: Format, a: bytes, b1: bytes, b2: bytes, b3: bytes, b4: bytes, b5: bytes, plan: Plan, i: nat)
    requires Stages(fmt, a, b1, b2, b3, b4, b5, plan) && i < plan.n
    ensures EntryMoved(fmt, a, b5, Gap(plan.sections), i)
  {
    var low, high := EntryAt(i), EntryAt(i + 1);
    SpliceSame(a, plan.first + Gap(plan.sections), a[plan.first..plan.size], low, high);
    MovedAlike(fmt, a, b1, i, Gap(plan.sections));
    assert EntryMoved(fmt, b1, b2, Gap(plan.sections), i);
    SameWithin(b2, b3, 0, plan.Start(), low, high);
    SameWithin(b3, b4, 0, EntryAt(plan.n), low, high);
    SameWithin(b4, b5, HEADER, |a|, low, high);
  }

  lemma StagesWriteSection(
    fmt: Format, a: bytes, b1: bytes, b2: bytes, b3: bytes, b4: bytes, b5: bytes, plan: Plan, j: nat)
    requires Stages(fmt, a, b1, b2, b3, b4, b5, plan) && j < |plan.sections|
    ensures PayloadWritten(b5, plan.lay.offsets[j], plan.sections[j])
    ensures NewEntry(fmt, b5, plan.n, plan.lay, plan.sections, j)
  {
    LaidIsInBounds(plan.Start(), plan.sections, plan.lay);
    var p, low := plan.sections[j].payload, plan.lay.offsets[j];
    assert Placed(plan.Start(), low, |p|, plan.lay.total);
    assert PayloadWritten(b3, low, plan.sections[j]);
    SameWithin(b3, b4, EntryAt(plan.n + |plan.sections|), |a|, low, low + |p|);
    SameWithin(b4, b5, HEADER, |a|, low, low + |p|);
    assert NewEntry(fmt, b4, plan.n, plan.lay, plan.sections, j);
    SameWithin(b4, b5, HEADER, |a|, EntryAt(plan.n + j), EntryAt(plan.n + j + 1));
  }

  lemma StagesKeepTail(
    fmt: Format, a: bytes, b1: bytes, b2: bytes, b3: bytes, b4: bytes, b5: bytes, plan: Plan)
    requires Stages(fmt, a, b1, b2, b3, b4, b5, plan)
    ensures Same(a, b5, plan.lay.total, |a|)
  {
    var low := plan.lay.total;
    SpliceSame(a, plan.first + Gap(plan.sections), a[plan.first..plan.size], low, |a|);
    SameWithin(b1, b2, EntryAt(plan.n), |a|, low, |a|);
    SameWithin(b3, b4, EntryAt(plan.n + |plan.sections|), |a|, low, |a|);
    SameWithin(b4, b5, HEADER, |a|, low, |a|);
  }

  lemma StagesKeepHeader(
    fmt: Format, a: bytes, b1: bytes, b2: bytes, b3: bytes, b4: bytes, b5: bytes, plan: Plan)
    requires Stages(fmt, a, b1, b2, b3, b4, b5, plan)
    ensures Same(a, b4, 0, HEADER)
  {
    SpliceSame(a, plan.first + Gap(plan.sections), a[plan.first..plan.size], 0, HEADER);
    SameWithin(b2, b3, 0, plan.Start(), 0, HEADER);
    SameWithin(b3, b4, 0, EntryAt(plan.n), 0, HEADER);
  }

  lemma HeaderOverStages(fmt: Format, a: bytes, b4: bytes, b5: bytes, count: nat, size: nat)
    requires HEADER <= |a| && Same(a, b4, 0, HEADER) && HeaderRenewed(fmt, b4, b5, count, size)
    ensures HeaderRenewed(fmt, a, b5, count, size)
  {
    SameWithin(a, b4, 0, HEADER, 0, COUNT_AT);
    SameWithin(a, b4, 0, HEADER, DIRECTORY_AT, SIZE_AT);
    SameWithin(a, b4, 0, HEADER, SIZE_AT + LONG, HEADER_CRC_AT);
  }

  lemma StagesAppend(
    fmt: Format, a: bytes, b1: bytes, b2: bytes, b3: bytes, b4: bytes, b5: bytes, plan: Plan)
    requires Stages(fmt, a, b1, b2, b3, b4, b5, plan)
    ensures Appended(fmt, a, b5, plan.n, plan.first, plan.size, plan.sections, plan.lay)
  {
    StagesKeepPayloads(fmt, a, b1, b2, b3, b4, b5, plan);
    StagesKeepTail(fmt, a, b1, b2, b3, b4, b5, plan);
    StagesKeepHeader(fmt, a, b1, b2, b3, b4, b5, plan);
    HeaderOverStages(fmt, a, b4, b5, plan.n + |plan.sections|, plan.lay.total);
    forall i | 0 <= i < plan.n ensures EntryMoved(fmt, a, b5, Gap(plan.sections), i) {
      StagesMoveEntry(fmt, a, b1, b2, b3, b4, b5, plan, i);
    }
    forall j | 0 <= j < |plan.sections| ensures PayloadWritten(b5, plan.lay.offsets[j], plan.sections[j]) {
      StagesWriteSection(fmt, a, b1, b2, b3, b4, b5, plan, j);
    }
    forall j | 0 <= j < |plan.sections| ensures NewEntry(fmt, b5, plan.n, plan.lay, plan.sections, j) {
      StagesWriteSection(fmt, a, b1, b2, b3, b4, b5, plan, j);
    }
  }

  /** Make room: payloads up, offsets after them. */
  method OpenGap(buffer: array<byte>, plan: Plan, fmt: Format) returns (ghost b1: bytes)
    requires plan.Ok() && plan.lay.total <= buffer.Length
    modifies buffer
    ensures b1 == Splice(old(buffer[..]), plan.first + Gap(plan.sections), old(buffer[plan.first..plan.size]))
    ensures MovedSoFar(fmt, b1, buffer[..], Gap(plan.sections), plan.n)
  {
    MoveUp(buffer, plan.first, plan.size, Gap(plan.sections));
    b1 := buffer[..];
    BumpOffsets(buffer, plan.n, Gap(plan.sections), fmt);
  }

  /** Fill it: payloads, entries, header. */
  method FillGap(buffer: array<byte>, plan: Plan, fmt: Format) returns (ghost b3: bytes, ghost b4: bytes)
    requires plan.Ok() && plan.lay.total <= buffer.Length
    modifies buffer
    ensures FilledSoFar(old(buffer[..]), b3, plan.Start(), plan.sections, plan.lay, |plan.sections|)
    ensures EnteredSoFar(fmt, b3, b4, plan.n, plan.sections, plan.lay, |plan.sections|)
    ensures HeaderRenewed(fmt, b4, buffer[..], plan.n + |plan.sections|, plan.lay.total)
    ensures Same(b4, buffer[..], HEADER, |b4|)
  {
    WritePayloads(buffer, plan.Start(), plan.sections, plan.lay);
    b3 := buffer[..];
    WriteEntries(buffer, plan.n, plan.sections, plan.lay, fmt);
    b4 := buffer[..];
    WriteHeader(buffer, plan.n + |plan.sections|, plan.lay.total, fmt);
  }

  method Apply(buffer: array<byte>, plan: Plan, fmt: Format)
    requires plan.Ok() && plan.lay.total <= buffer.Length
    modifies buffer
    ensures Appended(fmt, old(buffer[..]), buffer[..], plan.n, plan.first, plan.size, plan.sections, plan.lay)
  {
    ghost var a := buffer[..];
    ghost var b1 := OpenGap(buffer, plan, fmt);
    ghost var b2 := buffer[..];
    ghost var b3, b4 := FillGap(buffer, plan, fmt);
    StagesAppend(fmt, a, b1, b2, b3, b4, buffer[..], plan);
  }

  datatype Outcome = Written(total: nat) | LimitExceeded | BufferTooSmall | Internal

  /** Append the sections to the container in the first `size` bytes. It fails only
      for want of room or numbers, and then leaves the buffer alone. */
  method Append(buffer: array<byte>, size: nat, sections: seq<Section>, maximum: nat, fmt: Format)
    returns (outcome: Outcome)
    requires WellFormed(fmt, buffer[..], size) && Named(sections)
    modifies buffer
    ensures
      var lay := LayoutOf(size + Gap(sections), sections);
      outcome ==
        if lay.total >= LONG_LIMIT || (maximum != 0 && lay.total > maximum) then LimitExceeded
        else if buffer.Length < lay.total then BufferTooSmall
        else if old(Count(fmt, buffer[..])) + |sections| >= WORD_LIMIT then Internal
        else Written(lay.total)
    ensures !outcome.Written? ==> buffer[..] == old(buffer[..])
    ensures outcome.Written? ==>
      Extended(fmt, old(buffer[..]), buffer[..], size, sections, LayoutOf(size + Gap(sections), sections))
  {
    var start := size + Gap(sections);
    var lay := LayOut(start, sections);
    if lay.None? || (maximum != 0 && lay.value.total > maximum) {
      return LimitExceeded;
    }
    if buffer.Length < lay.value.total {
      return BufferTooSmall;
    }
    var n := ReadField(buffer, COUNT_AT, WORD, fmt);
    if n + |sections| >= WORD_LIMIT {
      return Internal;
    }
    FirstPayloadIsInside(fmt, buffer[..], size);
    LayoutOfIsLaid(start, sections);
    var first := FindFirstPayload(buffer, n, fmt);
    Apply(buffer, Plan(n, first, size, sections, lay.value), fmt);
    return Written(lay.value.total);
  }
}
