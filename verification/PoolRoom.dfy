/** Room in the pool: the layout wastes nothing, refuses exactly what cannot be placed,
  and holds whatever a result of its configuration can have. */
module PoolRoom {
  import opened Common
  import opened PoolLayout
  import Overview

  /** Every region starts at the first aligned place behind the ones before it. */
  lemma {:induction false} StartIsFirst(regions: seq<Region>, place: nat)
    requires regions != [] && 0 < regions[|regions| - 1].alignment
    requires PackedEnd(regions[..|regions| - 1]) <= place && place % regions[|regions| - 1].alignment == 0
    ensures Start(regions) <= place && PackedEnd(regions) == Start(regions) + Bytes(regions[|regions| - 1])
    ensures PackedEnd([]) == 0
  {
    RoundUpIsLeast(PackedEnd(regions[..|regions| - 1]), regions[|regions| - 1].alignment, place);
  }

  lemma {:induction false} RoundUpIsLeast(value: nat, a: nat, multiple: nat)
    requires 0 < a && value <= multiple && multiple % a == 0
    ensures RoundUp(value, a) <= multiple
  {
    RoundUpFacts(value, a);
    if multiple < RoundUp(value, a) { MultiplesApart(multiple, RoundUp(value, a), a); }
  }

  /** The running checks add nothing to the last of them. */
  lemma {:induction false} LastCheckDecides(regions: seq<Region>, alignment: nat, sizeMax: nat)
    requires forall i :: 0 <= i < |regions| ==> 0 < regions[i].alignment <= alignment
    requires PackedEnd(regions) + alignment - 1 <= sizeMax
    ensures NoOverflow(regions, sizeMax)
    decreases |regions|
  {
    if regions != [] {
      var before := regions[..|regions| - 1];
      EndGrows(regions, |regions| - 1);
      LastCheckDecides(before, alignment, sizeMax);
    }
  }

  /** There is a layout exactly when the columns fit 32 bits, rounding up the slot and the
      control block stays in range, and both slots with the control block are in range and
      within the budget. */
  lemma {:induction false} FitsExactly(c: Config, b: Build, columns: nat)
    requires Sane(b)
    ensures
      var slot, control := PackedEnd(RegionsOf(c, b, columns)), b.control;
      var total := RoundUp(control, b.alignment) + RoundUp(slot, b.alignment) + RoundUp(slot, b.alignment);
      Fits(c, b, columns) <==>
        && columns <= 0xFFFF_FFFF && slot + b.alignment <= b.sizeMax + 1 && control + b.alignment <= b.sizeMax + 1
        && total <= b.sizeMax && (c.memoryBudget == 0 || total <= c.memoryBudget)
  {
    var regions := RegionsOf(c, b, columns);
    RegionsAreAligned(c, b, columns);
    if PackedEnd(regions) + b.alignment - 1 <= b.sizeMax {
      LastCheckDecides(regions, b.alignment, b.sizeMax);
    }
  }

  /** Room for so many elements of a type. */
  predicate Holds(r: Region, s: Stored, count: nat) {
    r == Region(s.alignment, count, s.size)
  }

  /** Every requested feature has room for all it can publish, and one that is not
      requested takes none. */
  lemma {:induction false} FeaturesHaveRoom(c: Config, b: Build, columns: nat)
    ensures
      var r := RegionsOf(c, b, columns);
      && |r| == 13 && Holds(r[0], b.result, 1) && Holds(r[1], b.span, columns) && Holds(r[2], b.column, columns)
      && Bytes(r[12]) == b.metadataBytes && r[12].alignment == 1
      && (if c.detail then Holds(r[3], b.tile, b.tiles) && Holds(r[4], b.column, b.tiles * b.columnsPerTile)
          else Bytes(r[3]) == Bytes(r[4]) == 0)
      && (if c.bpm then Holds(r[5], b.candidate, b.candidates) else Bytes(r[5]) == 0)
      && (if c.localGrid then Holds(r[6], b.range, 1) && Holds(r[7], b.segment, 1) else Bytes(r[6]) == Bytes(r[7]) == 0)
      && (if c.globalGrid then
            && Holds(r[8], b.gridState, 1) && Holds(r[9], b.range, 1)
            && Holds(r[10], b.segment, b.segments) && Holds(r[11], b.beat, b.beats)
          else Bytes(r[8]) == Bytes(r[9]) == Bytes(r[10]) == Bytes(r[11]) == 0)
  {
  }

  /** Whatever columns of the track are complete, the packed overview fits its two regions:
      one span for every run, one column each. */
  lemma {:induction false} OverviewHasRoom(c: Config, b: Build, frames: nat, width: nat, accumulators: seq<Overview.Accumulator>)
    requires 0 < width && width == if c.framesPerColumn == 0 then b.defaultFramesPerColumn else c.framesPerColumn
    requires forall i, j :: 0 <= i < j < |accumulators| ==> accumulators[i].column < accumulators[j].column
    requires forall i :: 0 <= i < |accumulators| ==> accumulators[i].column * width < frames
    ensures
      var columns := Overview.Columns(accumulators, |accumulators|);
      var regions := RegionsOf(c, b, ColumnsNeeded(frames, ColumnWidth(c, b)));
      && |Overview.Runs(columns)| * b.span.size <= Bytes(regions[1])
      && |columns| * b.column.size <= Bytes(regions[2])
  {
    var capacity := ColumnsNeeded(frames, width);
    forall i | 0 <= i < |accumulators| ensures accumulators[i].column < capacity {
      EveryColumnHasRoom(frames, width, accumulators[i].column);
    }
    Overview.PassesFit(accumulators, capacity);
    var columns := Overview.Columns(accumulators, |accumulators|);
    FewerTakeLess(|Overview.Runs(columns)|, capacity, b.span.size);
    FewerTakeLess(|columns|, capacity, b.column.size);
  }

  lemma {:induction false} FewerTakeLess(few: nat, many: nat, size: nat)
    requires few <= many
    ensures few * size <= many * size
  {
  }
}
