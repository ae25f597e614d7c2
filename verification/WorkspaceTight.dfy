/** What an allocation gives and takes, no more and no less: the alignment asked for,
  and, of the arena, exactly the price the predictor charges. */
module WorkspaceTight {
  import opened Common
  import opened Workspace
  import opened WorkspaceSize
  import opened WorkspaceReuse

  // -------------------------------------------------------------------- alignment

  function TwoTo(k: nat): (p: nat)
    ensures 0 < p
  {
    if k == 0 then 1 else 2 * TwoTo(k - 1)
  }

  lemma {:induction false} PowerIsTwoTo(n: nat) returns (k: nat)
    requires IsPowerOfTwo(n)
    ensures n == TwoTo(k)
  {
    if n == 1 {
      k := 0;
    } else {
      var h := PowerIsTwoTo(n / 2);
      k := h + 1;
    }
  }

  lemma {:induction false} TwoToIsPower(k: nat)
    ensures IsPowerOfTwo(TwoTo(k))
  {
    if k > 0 {
      TwoToIsPower(k - 1);
      assert TwoTo(k) / 2 == TwoTo(k - 1);
    }
  }

  lemma {:induction false} TwoToDivides(j: nat, k: nat) returns (q: nat)
    requires TwoTo(j) <= TwoTo(k)
    ensures TwoTo(k) == q * TwoTo(j)
  {
    if j == k {
      q := 1;
    } else if j < k {
      TwoToGrows(j, k - 1);
      var h := TwoToDivides(j, k - 1);
      q := 2 * h;
      assert 2 * h * TwoTo(j) == 2 * (h * TwoTo(j));
    } else {
      TwoToGrows(k, j - 1);
    }
  }

  lemma {:induction false} TwoToGrows(j: nat, k: nat)
    requires j <= k
    ensures TwoTo(j) <= TwoTo(k)
  {
    if j < k { TwoToGrows(j, k - 1); }
  }

  /** The compiler's alignments are powers of two. */
  ghost predicate PowersOfTwo(g: Geometry) {
    IsPowerOfTwo(g.alignment) && IsPowerOfTwo(g.pointerAlignment)
  }

  /** Refused are exactly the alignments above the pointers' that are no power of two or
      exceed the largest one. */
  lemma {:induction false} UsableAlignmentsAre(g: Geometry, alignment: nat)
    requires g.Valid() && PowersOfTwo(g)
    ensures UsableAlignment(g, alignment) <==>
      alignment <= g.pointerAlignment || (alignment <= g.alignment && exists k :: alignment == TwoTo(k))
  {
    if alignment > g.pointerAlignment {
      if IsPowerOfTwo(alignment) {
        var k := PowerIsTwoTo(alignment);
      }
      if k: nat :| alignment == TwoTo(k) {
        TwoToIsPower(k);
      }
    }
  }

  lemma {:induction false} MultipleOfMultiple(x: nat, a: nat, d: nat, q: nat)
    requires 0 < a && 0 < d && x % a == 0 && a == q * d
    ensures x % d == 0
  {
    assert x == x / a * a;
    assert x / a * (q * d) == (x / a * q) * d;
    DivisionIs(x, d, x / a * q, 0);
  }

  /** What is handed out is aligned as asked. */
  lemma {:induction false} AlignmentIsHonoured(
    g: Geometry, start: nat, end: nat, blocks: seq<Block>, size: nat, alignment: nat)
    requires g.Valid() && PowersOfTwo(g) && Tiled(g, start, end, blocks) && IsPowerOfTwo(alignment)
    requires AllocateResult(g, blocks, Allocate(size, alignment)).Some?
    ensures AllocateResult(g, blocks, Allocate(size, alignment)).value % alignment == 0
  {
    var payload := AllocateResult(g, blocks, Allocate(size, alignment)).value;
    RequiredIsAligned(g, size);
    var i := FirstFit(blocks, Required(g, size).value);
    assert BlockOk(g, blocks[i]);
    AddMultiples(blocks[i].address, g.blockSize + Prefix(g), g.alignment);
    var j := PowerIsTwoTo(alignment);
    var k := PowerIsTwoTo(g.alignment);
    var q := TwoToDivides(j, k);
    MultipleOfMultiple(payload, g.alignment, alignment, q);
  }

  // ------------------------------------------------------------------------ price

  /** The sizes asked for by the blocks in use, in address order. */
  function UsedSizes(blocks: seq<Block>): seq<nat> {
    if blocks == [] then []
    else
      var last := blocks[|blocks| - 1];
      UsedSizes(blocks[..|blocks| - 1]) + if last.free then [] else [last.requested]
  }

  /** A used block is at least as large as the price of what was asked. */
  lemma {:induction false} BlockIsWorthItsPrice(g: Geometry, b: Block, end: nat)
    requires g.Valid() && BlockOk(g, b) && !b.free && End(g, b) <= end <= g.sizeMax
    ensures AllocationCost(g, b.requested) <= g.blockSize + b.capacity
  {
    RoundUpFacts(b.requested, g.alignment);
    RoundUpFacts(g.blockSize + g.headerSize, g.alignment);
  }

  /** Whatever is live at one time costs no more than the arena. */
  lemma {:induction false} LiveFitsArena(g: Geometry, start: nat, end: nat, blocks: seq<Block>)
    requires g.Valid() && Tiled(g, start, end, blocks) && end <= g.sizeMax
    ensures start <= end && CostSum(g, UsedSizes(blocks)) <= end - start
    decreases |blocks|
  {
    var n := |blocks| - 1;
    var last := blocks[n];
    assert BlockOk(g, last);
    if !last.free { BlockIsWorthItsPrice(g, last, end); }
    if n > 0 {
      PrefixIsTiled(g, start, end, blocks);
      LiveFitsArena(g, start, last.address, blocks[..n]);
    } else {
      assert UsedSizes(blocks[..0]) == [];
    }
    SumConcat(Price(g), UsedSizes(blocks[..n]), if last.free then [] else [last.requested]);
    assert [last.requested][1..] == [];
  }

  /** The prediction is tight: an arena in which everything charged is live at once is
      no smaller than the charge, in whatever way it came about. */
  lemma {:induction false} PredictionIsTight(g: Geometry, start: nat, end: nat, ops: seq<Op>, charged: seq<nat>)
    requires g.Valid() && start % g.alignment == 0 && start + SplitThreshold(g) <= end <= g.sizeMax
    requires multiset(UsedSizes(Run(g, Initial(g, start, end), ops))) == multiset(charged)
    ensures CostSum(g, charged) <= end - start
  {
    InitialIsTiled(g, start, end);
    RunKeepsTiling(g, start, end, Initial(g, start, end), ops);
    LiveFitsArena(g, start, end, Run(g, Initial(g, start, end), ops));
    FewerRequestsCostLess(Price(g), charged, UsedSizes(Run(g, Initial(g, start, end), ops)));
  }

  // ------------------------------------------------ everything charged is asked for

  /** Demands that make a table grow one doubling at a time until it holds `needed`. */
  function Demands(needed: nat, capacity: nat): (ds: seq<nat>)
    requires 0 < capacity
    ensures forall d :: d in ds ==> 0 < d <= needed
    decreases if capacity >= needed then 0 else needed - capacity
  {
    if needed == 0 then [] else if capacity >= needed then [needed] else [capacity] + Demands(needed, capacity * 2)
  }

  lemma {:induction false} GrowsOnceMore(capacity: nat, demand: nat)
    requires 0 < capacity < demand <= capacity * 2
    ensures GrownCapacity(capacity, demand) == capacity * 2
  {
    assert GrownCapacity(capacity * 2, demand) == capacity * 2;
  }

  lemma {:induction false} LaterDemandsAsk(needed: nat, capacity: nat, initial: nat, entry: nat)
    requires 0 < initial && 0 < capacity < needed
    ensures GrowthRequests(capacity, initial, entry, Demands(needed, capacity * 2)) == DoublingSizes(needed, entry, capacity * 2)
    decreases needed - capacity
  {
    var demands := Demands(needed, capacity * 2);
    GrowsOnceMore(capacity, demands[0]);
    if capacity * 2 < needed {
      LaterDemandsAsk(needed, capacity * 2, initial, entry);
      assert demands[1..] == Demands(needed, capacity * 2 * 2);
    } else {
      assert demands[1..] == [];
    }
  }

  /** Such demands ask for every size the predictor charges for the table. */
  lemma {:induction false} DemandsAskForChain(needed: nat, initial: nat, entry: nat)
    requires 0 < initial
    ensures GrowthRequests(0, initial, entry, Demands(needed, initial)) == DoublingSizes(needed, entry, initial)
  {
    if needed != 0 {
      var demands := Demands(needed, initial);
      assert GrownCapacity(initial, demands[0]) == initial;
      if initial < needed {
        LaterDemandsAsk(needed, initial, initial, entry);
        assert demands[1..] == Demands(needed, initial * 2);
      } else {
        assert demands[1..] == [];
      }
    }
  }

  function Wanted(feature: bool, size: nat): Option<nat> { if feature then Some(size) else None }

  /** Every buffer the configuration has a use for, each at its largest. */
  function Largest(s: Sizes, config: Config): Once {
    WorkspaceSize.Once.Once(
      Some(s.pcmBlock), Wanted(config.detail, s.detail), Wanted(config.tempo, s.onsetBins), Wanted(config.tempo, s.onsetFlux),
      Wanted(config.globalGrid, s.gridState), Wanted(config.globalGrid, s.gridBins),
      Wanted(config.globalGrid, s.gridFlux), Wanted(config.globalGrid, s.beats), Some(8192))
  }

  lemma {:induction false} LargestIsCharged(s: Sizes, config: Config)
    ensures OnceFits(Largest(s, config), s, config) && AllOnce(Largest(s, config)) == FixedSizes(s, config)
  {
  }

  lemma {:induction false} DemandsStayInTrack(config: Config)
    ensures forall d :: d in Demands(Columns(config), 16) ==> InTrack(config, d)
  {
    forall d | d in Demands(Columns(config), 16) ensures InTrack(config, d) { ColumnsAreThoseInTrack(config, d); }
  }

  lemma {:induction false} ChainsAreAsked(s: Sizes, config: Config, columns: seq<nat>, bands: seq<nat>, ranges: seq<nat>)
    requires columns == Demands(Columns(config), 16) && ranges == Demands(16, 8)
    requires bands == if config.bands then columns else []
    ensures
      GrowthRequests(0, 16, s.accumulator, columns) + GrowthRequests(0, 16, s.bandSums, bands)
      + GrowthRequests(0, 8, s.range, ranges) == TableSizes(s, config)
  {
    DemandsAskForChain(Columns(config), 16, s.accumulator);
    DemandsAskForChain(Columns(config), 16, s.bandSums);
    DemandsAskForChain(16, 8, s.range);
  }

  /** Nothing is charged in vain: a session whose track is as long as configured and that
      uses all its features asks for exactly the charged sizes. */
  lemma {:induction false} EveryChargeIsAsked(s: Sizes, config: Config)
    returns (columns: seq<nat>, bands: seq<nat>, ranges: seq<nat>, once: Once)
    ensures AsksFor(s, config, columns, bands, ranges, once, Charged(s, config))
  {
    columns, ranges, once := Demands(Columns(config), 16), Demands(16, 8), Largest(s, config);
    bands := if config.bands then columns else [];
    DemandsStayInTrack(config);
    ChainsAreAsked(s, config, columns, bands, ranges);
    LargestIsCharged(s, config);
  }
}
