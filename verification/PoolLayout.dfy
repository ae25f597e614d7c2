/** The layout of the bounded result pool: a control block, then equal slots, each
  holding the same thirteen regions. Every size is computed with overflow checks. */
module PoolLayout {
  import opened Common

  const SLOTS := 2
  const UINT32_MAX := 0xFFFF_FFFF

  /** Room for `count` elements of `size` bytes at a multiple of `alignment`. */
  datatype Region = Region(alignment: nat, count: nat, size: nat)

  function Bytes(r: Region): nat { r.count * r.size }

  /** Alignments are powers of two that divide the pool's own alignment. */
  ghost predicate Fitting(regions: seq<Region>, poolAlignment: nat) {
    forall i :: 0 <= i < |regions| ==> 0 < regions[i].alignment && Divides(regions[i].alignment, poolAlignment)
  }

  predicate Divides(d: nat, n: nat) { 0 < d && n % d == 0 }

  // -------------------------------------------------- the layout without overflow

  /** Where packing ends after some regions. */
  function PackedEnd(regions: seq<Region>): nat
    decreases |regions|, 1
  {
    if regions == [] then 0
    else Start(regions) + Bytes(regions[|regions| - 1])
  }

  /** Where the last region starts. */
  function Start(regions: seq<Region>): nat
    requires regions != []
    decreases |regions|, 0
  {
    var last := regions[|regions| - 1];
    if last.alignment == 0 then 0 else RoundUp(PackedEnd(regions[..|regions| - 1]), last.alignment)
  }

  /** No step of the packing leaves `size_t`. */
  predicate NoOverflow(regions: seq<Region>, sizeMax: nat) {
    regions == [] || (
      var before := regions[..|regions| - 1];
      var last := regions[|regions| - 1];
      NoOverflow(before, sizeMax) && 0 < last.alignment && PackedEnd(before) + last.alignment - 1 <= sizeMax
      && Start(regions) + Bytes(last) <= sizeMax)
  }

  // ---------------------------------------------------------- checked arithmetic

  method AddSize(left: nat, right: nat, sizeMax: nat) returns (sum: Option<nat>)
    requires left <= sizeMax && right <= sizeMax
    ensures sum == if left + right <= sizeMax then Some(left + right) else None
  {
    sum := if left > sizeMax - right then None else Some(left + right);
  }

  /** The quotient test rejects exactly the products that do not fit. */
  method MultiplySize(count: nat, size: nat, sizeMax: nat) returns (product: Option<nat>)
    ensures product == if count * size <= sizeMax then Some(count * size) else None
  {
    if size != 0 && count > sizeMax / size {
      QuotientBounds(count, size, sizeMax);
      product := None;
    } else {
      if size != 0 { QuotientBounds(count, size, sizeMax); }
      product := Some(count * size);
    }
  }

  lemma {:induction false} QuotientBounds(count: nat, size: nat, limit: nat)
    requires 0 < size
    ensures count <= limit / size <==> count * size <= limit
  {
    var q := limit / size;
    assert q * size <= limit < q * size + size;
    if q < count { Between(q, count, size); }
    if count < q { Between(count, q, size); }
  }

  method AlignSize(value: nat, alignment: nat, sizeMax: nat) returns (aligned: Option<nat>)
    requires 0 < alignment <= sizeMax
    ensures aligned == if value + alignment - 1 <= sizeMax then Some(RoundUp(value, alignment)) else None
  {
    aligned := if value > sizeMax - (alignment - 1) then None else Some(RoundUp(value, alignment));
  }

  /** Appends one region behind the running offset. */
  method AppendRegion(offset: nat, region: Region, sizeMax: nat) returns (placed: Option<(nat, nat)>)
    requires 0 < region.alignment <= sizeMax && offset <= sizeMax
    ensures
      var start := RoundUp(offset, region.alignment);
      placed ==
        if offset + region.alignment - 1 <= sizeMax && start + Bytes(region) <= sizeMax
        then Some((start, start + Bytes(region))) else None
  {
    RoundUpFacts(offset, region.alignment);
    var aligned := AlignSize(offset, region.alignment, sizeMax);
    var bytes := MultiplySize(region.count, region.size, sizeMax);
    if aligned.None? || bytes.None? {
      return None;
    }
    var end := AddSize(aligned.value, bytes.value, sizeMax);
    if end.None? {
      return None;
    }
    return Some((aligned.value, end.value));
  }

  ghost predicate Placed(offsets: seq<nat>, regions: seq<Region>, n: nat) {
    n <= |offsets| && n <= |regions| && forall i :: 0 <= i < n ==> offsets[i] == Start(regions[..i + 1])
  }

  /** Packs the regions one behind another; fails exactly when a step overflows. */
  method Pack(regions: seq<Region>, sizeMax: nat) returns (ok: bool, offsets: seq<nat>, end: nat)
    requires forall i :: 0 <= i < |regions| ==> 0 < regions[i].alignment <= sizeMax
    ensures ok <==> NoOverflow(regions, sizeMax)
    ensures ok ==> |offsets| == |regions| && Placed(offsets, regions, |regions|) && end == PackedEnd(regions) <= sizeMax
  {
    offsets, end := [], 0;
    for i := 0 to |regions|
      invariant |offsets| == i && Placed(offsets, regions, i)
      invariant end == PackedEnd(regions[..i]) <= sizeMax
      invariant NoOverflow(regions[..i], sizeMax)
    {
      assert regions[..i + 1][..i] == regions[..i];
      var placed := AppendRegion(end, regions[i], sizeMax);
      if placed.None? {
        PrefixOverflows(regions, i + 1, sizeMax);
        return false, offsets, end;
      }
      offsets, end := offsets + [placed.value.0], placed.value.1;
    }
    assert regions[..|regions|] == regions;
    ok := true;
  }

  lemma {:induction false} PrefixOverflows(regions: seq<Region>, n: nat, sizeMax: nat)
    requires n <= |regions| && !NoOverflow(regions[..n], sizeMax)
    ensures !NoOverflow(regions, sizeMax)
    decreases |regions|
  {
    if n == |regions| {
      assert regions[..n] == regions;
    } else {
      assert regions[..|regions| - 1][..n] == regions[..n];
      PrefixOverflows(regions[..|regions| - 1], n, sizeMax);
    }
  }

  // -------------------------------------------------------- where the regions lie

  lemma {:induction false} EndGrows(regions: seq<Region>, n: nat)
    requires n <= |regions| && forall i :: 0 <= i < |regions| ==> 0 < regions[i].alignment
    ensures PackedEnd(regions[..n]) <= PackedEnd(regions)
    decreases |regions|
  {
    if n == |regions| {
      assert regions[..n] == regions;
    } else {
      var before := regions[..|regions| - 1];
      assert before[..n] == regions[..n];
      EndGrows(before, n);
      RoundUpFacts(PackedEnd(before), regions[|regions| - 1].alignment);
    }
  }

  /** Region i as placed: aligned, and behind everything before it. */
  lemma {:induction false} StartIsAligned(regions: seq<Region>, i: nat)
    requires i < |regions| && 0 < regions[i].alignment
    ensures Start(regions[..i + 1]) % regions[i].alignment == 0
    ensures PackedEnd(regions[..i]) <= Start(regions[..i + 1])
    ensures PackedEnd(regions[..i + 1]) == Start(regions[..i + 1]) + Bytes(regions[i])
  {
    assert regions[..i + 1][..i] == regions[..i];
    RoundUpFacts(PackedEnd(regions[..i]), regions[i].alignment);
  }

  /** Regions never overlap, and all lie inside the packed part. */
  lemma {:induction false} RegionsAreApart(regions: seq<Region>, i: nat, j: nat)
    requires i < j < |regions| && forall k :: 0 <= k < |regions| ==> 0 < regions[k].alignment
    ensures Start(regions[..i + 1]) + Bytes(regions[i]) <= Start(regions[..j + 1])
    ensures Start(regions[..j + 1]) + Bytes(regions[j]) <= PackedEnd(regions)
  {
    StartIsAligned(regions, i);
    StartIsAligned(regions, j);
    assert regions[..j][..i + 1] == regions[..i + 1];
    EndGrows(regions[..j], i + 1);
    EndGrows(regions, j + 1);
  }

  // ---------------------------------------------------------------------- slots

  datatype Layout = Layout(offsets: seq<nat>, slotBytes: nat, slotOffsets: seq<nat>, totalBytes: nat, columns: nat)

  datatype Error = InvalidArgument | LimitExceeded
  datatype Result = Done(layout: Layout) | Failed(error: Error)

  /** What the layout reads of a session's configuration; None: unknown length. */
  datatype Config = Config(
    boundedOnly: bool, overview: bool, detail: bool, bpm: bool, localGrid: bool, globalGrid: bool,
    totalFrames: Option<nat>, framesPerColumn: nat, memoryBudget: nat)

  /** Alignment and size of one stored type. */
  datatype Stored = Stored(alignment: nat, size: nat)

  /** The stored types and fixed capacities of a build. */
  datatype Build = Build(
    result: Stored, span: Stored, column: Stored, tile: Stored, candidate: Stored, range: Stored, segment: Stored,
    gridState: Stored, beat: Stored, tiles: nat, columnsPerTile: nat, candidates: nat, segments: nat, beats: nat,
    metadataBytes: nat, control: nat, alignment: nat, defaultFramesPerColumn: nat, sizeMax: nat)

  ghost predicate StoredFits(s: Stored, alignment: nat) { 0 < s.alignment <= alignment && Divides(s.alignment, alignment) }

  /** What a C build guarantees of its types. */
  ghost predicate Sane(b: Build) {
    && 0 < b.alignment <= b.sizeMax && b.control <= b.sizeMax && 0 < b.defaultFramesPerColumn
    && StoredFits(b.result, b.alignment) && StoredFits(b.span, b.alignment) && StoredFits(b.column, b.alignment)
    && StoredFits(b.tile, b.alignment) && StoredFits(b.candidate, b.alignment) && StoredFits(b.range, b.alignment)
    && StoredFits(b.segment, b.alignment) && StoredFits(b.gridState, b.alignment) && StoredFits(b.beat, b.alignment)
  }

  function Room(s: Stored, count: nat): Region { Region(s.alignment, count, s.size) }

  function When(feature: bool, count: nat): nat { if feature then count else 0 }

  /** The thirteen regions of a slot. */
  function RegionsOf(c: Config, b: Build, columns: nat): seq<Region> {
    [Room(b.result, 1), Room(b.span, columns), Room(b.column, columns),
     Room(b.tile, When(c.detail, b.tiles)), Room(b.column, When(c.detail, b.tiles * b.columnsPerTile)),
     Room(b.candidate, When(c.bpm, b.candidates)),
     Room(b.range, When(c.localGrid, 1)), Room(b.segment, When(c.localGrid, 1)),
     Room(b.gridState, When(c.globalGrid, 1)), Room(b.range, When(c.globalGrid, 1)),
     Room(b.segment, When(c.globalGrid, b.segments)), Room(b.beat, When(c.globalGrid, b.beats)),
     Region(1, b.metadataBytes, 1)]
  }

  function ColumnWidth(c: Config, b: Build): nat {
    if c.framesPerColumn != 0 then c.framesPerColumn else b.defaultFramesPerColumn
  }

  /** Columns needed for the whole track, rounded up. */
  function ColumnsNeeded(frames: nat, width: nat): nat
    requires 0 < width
  {
    frames / width + if frames % width != 0 then 1 else 0
  }

  /** Exactly the columns that begin inside the track have room. */
  lemma {:induction false} EveryColumnHasRoom(frames: nat, width: nat, column: nat)
    requires 0 < width
    ensures column < ColumnsNeeded(frames, width) <==> column * width < frames
  {
    var q := frames / width;
    assert frames == q * width + frames % width;
    if column < q { Between(column, q, width); }
    if q < column { Between(q, column, width); }
  }

  /** A layout in which nothing overlaps and everything is aligned. */
  ghost predicate Sound(l: Layout, regions: seq<Region>, b: Build) {
    && |l.offsets| == |regions| && |l.slotOffsets| == SLOTS && 0 < b.alignment
    && Placed(l.offsets, regions, |regions|)
    && PackedEnd(regions) <= l.slotBytes && l.slotBytes % b.alignment == 0
    && b.control <= l.slotOffsets[0] && l.slotOffsets[0] % b.alignment == 0
    && l.slotOffsets[1] == l.slotOffsets[0] + l.slotBytes && l.totalBytes == l.slotOffsets[1] + l.slotBytes <= b.sizeMax
  }

  lemma {:induction false} RegionsAreAligned(c: Config, b: Build, columns: nat)
    requires Sane(b)
    ensures Fitting(RegionsOf(c, b, columns), b.alignment)
    ensures forall i :: 0 <= i < |RegionsOf(c, b, columns)| ==>
      0 < RegionsOf(c, b, columns)[i].alignment <= b.alignment
  {
  }

  /** Nothing overflows and the budget is kept. */
  predicate Fits(c: Config, b: Build, columns: nat)
    requires 0 < b.alignment
  {
    var regions := RegionsOf(c, b, columns);
    columns <= UINT32_MAX && NoOverflow(regions, b.sizeMax) && PackedEnd(regions) + b.alignment - 1 <= b.sizeMax
    && SlotsFit(c, b, RoundUp(PackedEnd(regions), b.alignment))
  }

  predicate SlotsFit(c: Config, b: Build, slotBytes: nat)
    requires 0 < b.alignment
  {
    var total := RoundUp(b.control, b.alignment) + SLOTS * slotBytes;
    b.control + b.alignment - 1 <= b.sizeMax && total <= b.sizeMax && (c.memoryBudget != 0 ==> total <= c.memoryBudget)
  }

  /** Computes the layout, or says why there is none. */
  method CalculateLayout(c: Config, b: Build) returns (r: Result)
    requires Sane(b)
    ensures r == Failed(InvalidArgument) <==> !c.boundedOnly || !c.overview || c.totalFrames.None?
    ensures c.totalFrames.Some? && r != Failed(InvalidArgument) ==>
      (r == Failed(LimitExceeded) <==> !Fits(c, b, ColumnsNeeded(c.totalFrames.value, ColumnWidth(c, b))))
    ensures r.Done? ==>
      && r.layout.columns == ColumnsNeeded(c.totalFrames.value, ColumnWidth(c, b)) <= UINT32_MAX
      && Sound(r.layout, RegionsOf(c, b, r.layout.columns), b)
      && (c.memoryBudget != 0 ==> r.layout.totalBytes <= c.memoryBudget)
  {
    if !c.boundedOnly || !c.overview || c.totalFrames.None? {
      return Failed(InvalidArgument);
    }
    var width := ColumnWidth(c, b);
    var columns := c.totalFrames.value / width;
    if c.totalFrames.value % width != 0 {
      columns := columns + 1;
    }
    if columns > UINT32_MAX {
      return Failed(LimitExceeded);
    }
    RegionsAreAligned(c, b, columns);
    var ok, offsets, end := Pack(RegionsOf(c, b, columns), b.sizeMax);
    if !ok {
      return Failed(LimitExceeded);
    }
    var slot := AlignSize(end, b.alignment, b.sizeMax);
    if slot.None? {
      return Failed(LimitExceeded);
    }
    r := PlaceSlots(c, b, columns, offsets, end, slot.value);
  }

  /** The control block, then the slots; the budget is checked last. */
  method PlaceSlots(c: Config, b: Build, columns: nat, offsets: seq<nat>, end: nat, slotBytes: nat) returns (r: Result)
    requires 0 < b.alignment <= b.sizeMax && b.control <= b.sizeMax && slotBytes == RoundUp(end, b.alignment)
    ensures r.Failed? ==> r.error == LimitExceeded
    ensures r.Done? <==> SlotsFit(c, b, slotBytes)
    ensures r.Done? ==>
      var l := r.layout;
      && l.columns == columns && l.offsets == offsets && l.slotBytes == slotBytes && |l.slotOffsets| == SLOTS
      && end <= l.slotBytes && l.slotBytes % b.alignment == 0
      && b.control <= l.slotOffsets[0] && l.slotOffsets[0] % b.alignment == 0
      && l.slotOffsets[1] == l.slotOffsets[0] + slotBytes && l.totalBytes == l.slotOffsets[1] + slotBytes <= b.sizeMax
      && (c.memoryBudget != 0 ==> l.totalBytes <= c.memoryBudget)
  {
    RoundUpFacts(end, b.alignment);
    RoundUpFacts(b.control, b.alignment);
    var first := AlignSize(b.control, b.alignment, b.sizeMax);
    var slotsBytes := MultiplySize(SLOTS, slotBytes, b.sizeMax);
    if first.None? || slotsBytes.None? {
      return Failed(LimitExceeded);
    }
    var total := AddSize(first.value, slotsBytes.value, b.sizeMax);
    if total.None? || (c.memoryBudget != 0 && total.value > c.memoryBudget) {
      return Failed(LimitExceeded);
    }
    return Done(Layout(offsets, slotBytes, [first.value, first.value + slotBytes], total.value, columns));
  }

  function Address(base: nat, l: Layout, slot: nat, region: nat): nat
    requires slot < |l.slotOffsets| && region < |l.offsets|
  {
    base + l.slotOffsets[slot] + l.offsets[region]
  }

  lemma {:induction false} DividesThrough(a: nat, d: nat, n: nat)
    requires Divides(d, a) && 0 < a && n % a == 0
    ensures n % d == 0
  {
    var p, q := a / d, n / a;
    assert a == p * d && n == q * a;
    assert n == (q * p) * d;
    DivisionIs(n, d, q * p, 0);
  }

  /** In an aligned pool every region of every slot is aligned for its type. */
  lemma {:induction false} AddressIsAligned(base: nat, l: Layout, regions: seq<Region>, b: Build, slot: nat, region: nat)
    requires Sound(l, regions, b) && Fitting(regions, b.alignment) && 0 < b.alignment && base % b.alignment == 0
    requires slot < SLOTS && region < |regions|
    ensures Address(base, l, slot, region) % regions[region].alignment == 0
  {
    var d := regions[region].alignment;
    StartIsAligned(regions, region);
    if slot == 1 {
      AddMultiples(l.slotOffsets[0], l.slotBytes, b.alignment);
    }
    DividesThrough(b.alignment, d, base);
    DividesThrough(b.alignment, d, l.slotOffsets[slot]);
    AddMultiples(base, l.slotOffsets[slot], d);
    AddMultiples(base + l.slotOffsets[slot], l.offsets[region], d);
  }

  /** Two regions share no byte, in one slot or in two, and none leaves the pool or
      touches the control block. */
  lemma {:induction false} AddressesAreApart(
    l: Layout, regions: seq<Region>, b: Build, slot: nat, i: nat, other: nat, j: nat)
    requires Sound(l, regions, b) && Fitting(regions, b.alignment)
    requires slot < SLOTS && other < SLOTS && i < |regions| && j < |regions| && (slot != other || i != j)
    ensures
      var x, y := Address(0, l, slot, i), Address(0, l, other, j);
      x + Bytes(regions[i]) <= y || y + Bytes(regions[j]) <= x
    ensures b.control <= Address(0, l, slot, i) && Address(0, l, slot, i) + Bytes(regions[i]) <= l.totalBytes
  {
    InsideSlot(l, regions, b, i);
    InsideSlot(l, regions, b, j);
    if i < j { RegionsAreApart(regions, i, j); }
    if j < i { RegionsAreApart(regions, j, i); }
  }

  lemma {:induction false} InsideSlot(l: Layout, regions: seq<Region>, b: Build, i: nat)
    requires Sound(l, regions, b) && Fitting(regions, b.alignment) && i < |regions|
    ensures l.offsets[i] + Bytes(regions[i]) <= l.slotBytes
  {
    StartIsAligned(regions, i);
    EndGrows(regions, i + 1);
  }
}
