/** The predictor that tells a host how large its workspace buffer must be, and
    the proof that a buffer of that size serves the run it charges for. */
module WorkspaceSize {
  import opened Common
  import opened Workspace

  /** Sizes of the C structures the session allocates, kept symbolic. */
  datatype Sizes = Sizes(
    session: nat, accumulator: nat, bandSums: nat, range: nat, pcmBlock: nat, detail: nat,
    onsetBins: nat, onsetFlux: nat, gridState: nat, gridBins: nat, gridFlux: nat, beats: nat)
  {
    predicate Valid() { 0 < accumulator && 0 < bandSums && 0 < range }
  }

  datatype Config = Config(
    totalFrames: nat, overviewFramesPerColumn: nat, bands: bool, detail: bool, tempo: bool, globalGrid: bool)

  const DEFAULT_FRAMES_PER_COLUMN: nat := 1024
  const MAX_REGION_REQUESTS: nat := 16
  const METADATA_MAX_TOTAL_BYTES: nat := 8192
  const UINT32_MAX: nat := 0xFFFF_FFFF

  function Columns(config: Config): nat {
    var perColumn := if config.overviewFramesPerColumn != 0 then config.overviewFramesPerColumn
                     else DEFAULT_FRAMES_PER_COLUMN;
    if config.totalFrames != 0 then (config.totalFrames + perColumn - 1) / perColumn else 0
  }

  // ------------------------------------------------------- specification

  function Sum(price: nat -> nat, sizes: seq<nat>): nat {
    if sizes == [] then 0 else price(sizes[0]) + Sum(price, sizes[1..])
  }

  function CostSum(g: Geometry, sizes: seq<nat>): nat
    requires g.Valid()
  {
    Sum(Price(g), sizes)
  }

  function Price(g: Geometry): nat -> nat
    requires g.Valid()
  {
    (size: nat) => AllocationCost(g, size)
  }

  /** Every array a doubling table asks for on its way to `needed` entries. */
  function DoublingSizes(needed: nat, entry: nat, capacity: nat): seq<nat>
    requires 0 < capacity
    decreases if capacity >= needed then 0 else needed - capacity
  {
    if needed == 0 then []
    else if capacity >= needed then [capacity * entry]
    else [capacity * entry] + DoublingSizes(needed, entry, capacity * 2)
  }

  /** The growing tables the predictor charges for, in its order. */
  function TableSizes(s: Sizes, config: Config): seq<nat> {
    DoublingSizes(Columns(config), s.accumulator, 16)
    + (if config.bands then DoublingSizes(Columns(config), s.bandSums, 16) else [])
    + DoublingSizes(MAX_REGION_REQUESTS, s.range, 8)
  }

  /** The buffers allocated at most once, in the predictor's order. */
  function FixedSizes(s: Sizes, config: Config): seq<nat> {
    [s.pcmBlock]
    + (if config.detail then [s.detail] else [])
    + (if config.tempo then [s.onsetBins, s.onsetFlux] else [])
    + (if config.globalGrid then [s.gridState, s.gridBins, s.gridFlux, s.beats] else [])
    + [METADATA_MAX_TOTAL_BYTES]
  }

  function Charged(s: Sizes, config: Config): seq<nat> {
    TableSizes(s, config) + FixedSizes(s, config)
  }

  /** Exact value of the predictor when nothing saturates: the padded session
      object, every charged allocation, and one spare header with its padding. */
  function Requirement(g: Geometry, offset: nat, charged: seq<nat>): nat
    requires g.Valid()
  {
    offset + CostSum(g, charged) + g.blockSize + g.alignment
  }

  // ------------------------------------------------------- the predictor

  function SaturatingAdd(g: Geometry, total: nat, addend: nat): (r: nat)
    ensures r <= g.sizeMax && (r < g.sizeMax ==> r == total + addend)
    ensures r == g.sizeMax ==> g.sizeMax <= total + addend
  {
    if total == g.sizeMax || addend == g.sizeMax || total + addend > g.sizeMax then g.sizeMax
    else total + addend
  }

  /** A size costs at least itself, or everything. */
  ghost predicate Costly(g: Geometry, price: nat -> nat) {
    forall size: nat :: size <= price(size) || g.sizeMax <= price(size)
  }

  /** `total` stands for an exact sum: equal below the largest size, and at the
      largest size only if the sum is that large or a table is beyond counting. */
  predicate Stands(g: Geometry, exact: nat, total: nat, countable: bool) {
    total <= g.sizeMax && (total < g.sizeMax ==> total == exact)
    && (countable && total == g.sizeMax ==> g.sizeMax <= exact)
  }

  method GrowableCost(g: Geometry, price: nat -> nat, needed: nat, entry: nat, initial: nat) returns (cost: nat)
    requires 0 < entry && 0 < initial && Costly(g, price) && 0 < g.sizeMax
    ensures Stands(g, Sum(price, DoublingSizes(needed, entry, initial)), cost, needed <= UINT32_MAX / 2)
  {
    var capacity := initial;
    cost := 0;
    if needed == 0 {
      return;
    }
    while true
      invariant 0 < capacity && cost <= g.sizeMax
      invariant cost + Sum(price, DoublingSizes(needed, entry, capacity))
             == Sum(price, DoublingSizes(needed, entry, initial))
      decreases if capacity >= needed then 0 else needed - capacity
    {
      if capacity > g.sizeMax / entry {
        TooManyEntries(g.sizeMax, capacity, entry);
        return g.sizeMax;
      }
      cost := SaturatingAdd(g, cost, price(capacity * entry));
      if cost == g.sizeMax || capacity >= needed {
        return;
      }
      if capacity > UINT32_MAX / 2 {
        return g.sizeMax;
      }
      assert DoublingSizes(needed, entry, capacity)[1..] == DoublingSizes(needed, entry, capacity * 2);
      capacity := capacity * 2;
    }
  }

  lemma {:induction false} SumConcat(price: nat -> nat, a: seq<nat>, b: seq<nat>)
    ensures Sum(price, a + b) == Sum(price, a) + Sum(price, b)
  {
    if a == [] {
      assert a + b == b;
    } else {
      assert (a + b)[1..] == a[1..] + b;
      SumConcat(price, a[1..], b);
    }
  }

  lemma {:induction false} TooManyEntries(limit: nat, capacity: nat, entry: nat)
    requires 0 < entry && limit / entry < capacity
    ensures limit < capacity * entry
  {
    Between(limit / entry, capacity, entry);
  }

  /** The running total stands for the sum of `base` and the charged sizes. */
  ghost predicate Totals(
    g: Geometry, price: nat -> nat, base: nat, charged: seq<nat>, total: nat, countable: bool) {
    Stands(g, base + Sum(price, charged), total, countable)
  }

  /** One step of the predictor: the cost of a list of sizes joins the total. */
  method Charge(g: Geometry, total: nat, cost: nat,
                ghost price: nat -> nat, ghost base: nat, ghost charged: seq<nat>, ghost sizes: seq<nat>,
                ghost countable: bool)
    returns (r: nat)
    requires Totals(g, price, base, charged, total, countable)
    requires cost < g.sizeMax ==> cost == Sum(price, sizes)
    requires countable && g.sizeMax <= cost ==> g.sizeMax <= Sum(price, sizes)
    ensures Totals(g, price, base, charged + sizes, r, countable)
  {
    SumConcat(price, charged, sizes);
    r := SaturatingAdd(g, total, cost);
  }

  method ChargeAll(g: Geometry, price: nat -> nat, total: nat, sizes: seq<nat>,
                   ghost base: nat, ghost charged: seq<nat>, ghost countable: bool)
    returns (r: nat)
    requires Totals(g, price, base, charged, total, countable)
    ensures Totals(g, price, base, charged + sizes, r, countable)
  {
    r := total;
    assert charged + sizes[..0] == charged;
    for i := 0 to |sizes|
      invariant Totals(g, price, base, charged + sizes[..i], r, countable)
    {
      assert charged + sizes[..i + 1] == charged + sizes[..i] + [sizes[i]];
      r := Charge(g, r, price(sizes[i]), price, base, charged + sizes[..i], [sizes[i]], countable);
    }
    assert charged + sizes == charged + sizes[..|sizes|];
  }

  method WorkspaceRequirement(g: Geometry, s: Sizes, config: Config) returns (total: nat)
    requires g.Valid() && s.Valid()
    ensures Stands(g, Requirement(g, AlignUp(g, s.session), Charged(s, config)), total, Columns(config) <= 0x7FFF_FFFF)
  {
    total := AlignUp(g, s.session);
    if total >= g.sizeMax {
      return g.sizeMax;
    }
    ghost var base := total;
    PriceIsCostly(g);
    total := ChargeTables(g, Price(g), s, config, total);
    var fixed := FixedSizes(s, config);
    total := ChargeAll(g, Price(g), total, fixed, base, TableSizes(s, config), Columns(config) <= UINT32_MAX / 2);
    total := SaturatingAdd(g, total, g.blockSize + g.alignment);
  }

  lemma {:induction false} PriceIsCostly(g: Geometry)
    requires g.Valid()
    ensures Costly(g, Price(g))
  {
    forall size: nat ensures size <= Price(g)(size) || g.sizeMax <= Price(g)(size) {
      RoundUpFacts(Clamp(size), g.alignment);
    }
  }

  method ChargeTables(g: Geometry, price: nat -> nat, s: Sizes, config: Config, base: nat) returns (total: nat)
    requires s.Valid() && base < g.sizeMax && Costly(g, price)
    ensures Totals(g, price, base, TableSizes(s, config), total, Columns(config) <= UINT32_MAX / 2)
  {
    var columns := Columns(config);
    ghost var countable := columns <= UINT32_MAX / 2;
    ghost var charged := DoublingSizes(columns, s.accumulator, 16);
    var cost := GrowableCost(g, price, columns, s.accumulator, 16);
    total := Charge(g, base, cost, price, base, [], charged, countable);
    assert [] + charged == charged;
    if config.bands {
      cost := GrowableCost(g, price, columns, s.bandSums, 16);
      total := Charge(g, total, cost, price, base, charged, DoublingSizes(columns, s.bandSums, 16), countable);
      charged := charged + DoublingSizes(columns, s.bandSums, 16);
    }
    cost := GrowableCost(g, price, MAX_REGION_REQUESTS, s.range, 8);
    total := Charge(g, total, cost, price, base, charged, DoublingSizes(MAX_REGION_REQUESTS, s.range, 8), countable);
    charged := charged + DoublingSizes(MAX_REGION_REQUESTS, s.range, 8);
    assert charged == TableSizes(s, config);
  }

  // --------------------------------------- the predicted buffer is enough

  /** The sizes one operation, and a run, ask for under usable alignments. */
  function RequestOf(g: Geometry, op: Op): seq<nat> {
    if op.Allocate? && UsableAlignment(g, op.alignment) then [op.size] else []
  }

  function Requests(g: Geometry, ops: seq<Op>): seq<nat> {
    if ops == [] then [] else Requests(g, ops[..|ops| - 1]) + RequestOf(g, ops[|ops| - 1])
  }

  lemma OpCostIsPriceOfRequest(g: Geometry, op: Op)
    requires g.Valid()
    ensures OpCost(g, op) == Sum(Price(g), RequestOf(g, op))
  {}

  lemma {:induction false} SpentIsCostOfRequests(g: Geometry, ops: seq<Op>)
    requires g.Valid()
    ensures Spent(g, ops) == Sum(Price(g), Requests(g, ops))
  {
    if ops != [] {
      var before, op := ops[..|ops| - 1], ops[|ops| - 1];
      SpentIsCostOfRequests(g, before);
      OpCostIsPriceOfRequest(g, op);
      SumConcat(Price(g), Requests(g, before), RequestOf(g, op));
    }
  }

  lemma {:induction false} FewerRequestsCostLess(price: nat -> nat, a: seq<nat>, b: seq<nat>)
    requires multiset(a) <= multiset(b)
    ensures Sum(price, a) <= Sum(price, b)
  {
    if a != [] {
      assert a == [a[0]] + a[1..];
      assert a[0] in multiset(b);
      var i :| 0 <= i < |b| && b[i] == a[0];
      var rest := b[..i] + b[i + 1..];
      assert b == b[..i] + [b[i]] + b[i + 1..];
      assert multiset(a[1..]) == multiset(a) - multiset{a[0]};
      assert multiset(rest) == multiset(b) - multiset{a[0]};
      FewerRequestsCostLess(price, a[1..], rest);
      SumConcat(price, b[..i], b[i + 1..]);
      SumConcat(price, b[..i] + [b[i]], b[i + 1..]);
      SumConcat(price, b[..i], [b[i]]);
    }
  }

  // A request may be smaller than the size charged for it.

  lemma {:induction false} RoundUpGrows(x: nat, y: nat, d: nat)
    requires 0 < d && x <= y
    ensures RoundUp(x, d) <= RoundUp(y, d)
  {
    RoundUpFacts(x, d);
    RoundUpFacts(y, d);
    if RoundUp(y, d) < RoundUp(x, d) {
      MultiplesApart(RoundUp(y, d), RoundUp(x, d), d);
    }
  }

  /** A larger size costs no less, unless it costs everything. */
  ghost predicate Grows(g: Geometry, price: nat -> nat) {
    forall x: nat, y: nat :: x <= y ==> price(x) <= price(y) || g.sizeMax <= price(y)
  }

  lemma {:induction false} PriceGrows(g: Geometry)
    requires g.Valid()
    ensures Grows(g, Price(g))
  {
    forall x: nat, y: nat | x <= y ensures Price(g)(x) <= Price(g)(y) || g.sizeMax <= Price(g)(y) {
      RoundUpGrows(Clamp(x), Clamp(y), g.alignment);
    }
  }

  ghost predicate AtMost(a: seq<nat>, own: seq<nat>) {
    |own| == |a| && forall i :: 0 <= i < |a| ==> a[i] <= own[i]
  }

  /** Each request is no larger than a charged size of its own. */
  ghost predicate CoveredBy(a: seq<nat>, own: seq<nat>, charged: seq<nat>) {
    AtMost(a, own) && multiset(own) <= multiset(charged)
  }

  ghost predicate Covered(a: seq<nat>, charged: seq<nat>) {
    exists own :: CoveredBy(a, own, charged)
  }

  lemma {:induction false} SmallerRequestsCostLess(g: Geometry, price: nat -> nat, a: seq<nat>, own: seq<nat>)
    requires Grows(g, price) && AtMost(a, own)
    ensures Sum(price, a) <= Sum(price, own) || g.sizeMax <= Sum(price, own)
  {
    if a != [] {
      SmallerRequestsCostLess(g, price, a[1..], own[1..]);
    }
  }

  /** What is covered costs no more than what is charged, if that is expressible. */
  lemma {:induction false} CoveredRequestsCostLess(g: Geometry, a: seq<nat>, charged: seq<nat>)
    requires g.Valid() && Covered(a, charged) && CostSum(g, charged) < g.sizeMax
    ensures CostSum(g, a) <= CostSum(g, charged)
  {
    var own :| CoveredBy(a, own, charged);
    PriceGrows(g);
    SmallerRequestsCostLess(g, Price(g), a, own);
    FewerRequestsCostLess(Price(g), own, charged);
  }

  /** The order of the requests does not matter. */
  lemma {:induction false} CoverIgnoresOrder(a: seq<nat>, c: seq<nat>, charged: seq<nat>)
    requires Covered(c, charged) && multiset(a) == multiset(c)
    ensures Covered(a, charged)
  {
    var own :| CoveredBy(c, own, charged);
    var mine := OwnInOrder(a, c, own);
    assert CoveredBy(a, mine, charged);
  }

  function Without(c: seq<nat>, i: nat): seq<nat>
    requires i < |c|
  {
    c[..i] + c[i + 1..]
  }

  lemma {:induction false} WithoutOne(c: seq<nat>, i: nat)
    requires i < |c|
    ensures multiset(c) == multiset(Without(c, i)) + multiset{c[i]}
  {
    assert c == c[..i] + [c[i]] + c[i + 1..];
  }

  lemma {:induction false} AtMostWithout(c: seq<nat>, own: seq<nat>, i: nat)
    requires AtMost(c, own) && i < |c|
    ensures AtMost(Without(c, i), Without(own, i))
  {
  }

  lemma {:induction false} Cancel(x: multiset<nat>, y: multiset<nat>, e: nat)
    requires x + multiset{e} == y + multiset{e}
    ensures x == y
  {
    assert x == x + multiset{e} - multiset{e} && y == y + multiset{e} - multiset{e};
  }

  lemma {:induction false} RestMatches(a: seq<nat>, c: seq<nat>, i: nat)
    requires a != [] && multiset(a) == multiset(c) && i < |c| && c[i] == a[0]
    ensures multiset(a[1..]) == multiset(Without(c, i))
  {
    WithoutOne(a, 0);
    WithoutOne(c, i);
    assert Without(a, 0) == a[1..];
    Cancel(multiset(a[1..]), multiset(Without(c, i)), a[0]);
  }

  lemma {:induction false} OwnOneMore(a: seq<nat>, own: seq<nat>, i: nat, rest: seq<nat>)
    requires a != [] && i < |own| && a[0] <= own[i]
    requires AtMost(a[1..], rest) && multiset(rest) == multiset(Without(own, i))
    ensures AtMost(a, [own[i]] + rest) && multiset([own[i]] + rest) == multiset(own)
  {
    WithoutOne(own, i);
    forall k | 0 <= k < |a| ensures a[k] <= ([own[i]] + rest)[k] {
      if k > 0 { assert a[1..][k - 1] <= rest[k - 1]; }
    }
  }

  lemma {:induction false} OwnInOrder(a: seq<nat>, c: seq<nat>, own: seq<nat>) returns (mine: seq<nat>)
    requires AtMost(c, own) && multiset(a) == multiset(c)
    ensures AtMost(a, mine) && multiset(mine) == multiset(own)
    decreases |a|
  {
    if a == [] {
      assert |multiset(c)| == 0;
      mine := [];
    } else {
      assert a[0] in multiset(c);
      var i :| 0 <= i < |c| && c[i] == a[0];
      RestMatches(a, c, i);
      AtMostWithout(c, own, i);
      var rest := OwnInOrder(a[1..], Without(c, i), Without(own, i));
      OwnOneMore(a, own, i, rest);
      mine := [own[i]] + rest;
    }
  }

  lemma {:induction false} CoverConcat(a: seq<nat>, b: seq<nat>, chargedA: seq<nat>, chargedB: seq<nat>)
    requires Covered(a, chargedA) && Covered(b, chargedB)
    ensures Covered(a + b, chargedA + chargedB)
  {
    var x :| CoveredBy(a, x, chargedA);
    var y :| CoveredBy(b, y, chargedB);
    assert CoveredBy(a + b, x + y, chargedA + chargedB);
  }

  lemma {:induction false} EqualIsCovered(a: seq<nat>, charged: seq<nat>)
    requires multiset(a) <= multiset(charged)
    ensures Covered(a, charged)
  {
    assert CoveredBy(a, a, charged);
  }

  lemma {:induction false} ChargedRunFits(g: Geometry, charged: seq<nat>, ops: seq<Op>, op: Op)
    requires g.Valid() && op.Allocate? && UsableAlignment(g, op.alignment)
    requires Covered(Requests(g, ops + [op]), charged) && CostSum(g, charged) < g.sizeMax
    ensures Spent(g, ops) + AllocationCost(g, op.size) <= CostSum(g, charged)
  {
    assert (ops + [op])[..|ops|] == ops;
    SpentIsCostOfRequests(g, ops + [op]);
    CoveredRequestsCostLess(g, Requests(g, ops + [op]), charged);
  }

  lemma AllocationIsNeverCheap(g: Geometry, size: nat)
    requires g.Valid()
    ensures SplitThreshold(g) <= AllocationCost(g, size)
  {
    if Required(g, size).Some? {
      RequiredIsAligned(g, size);
    } else {
      InexpressibleCostsEverything(g, size);
      RoundUpFacts(g.blockSize + g.headerSize, g.alignment);
    }
  }

  /** The session object, padded, keeps an aligned buffer aligned. */
  lemma ArenaStartIsAligned(g: Geometry, session: nat, base: nat)
    requires g.Valid() && base % g.alignment == 0 && AlignUp(g, session) < g.sizeMax
    ensures (base + AlignUp(g, session)) % g.alignment == 0
  {
    RoundUpFacts(session, g.alignment);
    AddMultiples(base, AlignUp(g, session), g.alignment);
  }

  /** The host's buffer: the session object first, the arena behind it. */
  datatype Buffer = Buffer(base: nat, size: nat)

  /** Aligned, addressable, and as large as predicted for what is charged. */
  ghost predicate Provided(g: Geometry, session: nat, charged: seq<nat>, buffer: Buffer)
    requires g.Valid()
  {
    && 0 < session && AlignUp(g, session) < g.sizeMax
    && buffer.base % g.alignment == 0 && buffer.base + buffer.size <= g.sizeMax
    && Requirement(g, AlignUp(g, session), charged) <= buffer.size
  }

  function ArenaStart(g: Geometry, session: nat, buffer: Buffer): nat
    requires g.Valid()
  {
    buffer.base + AlignUp(g, session)
  }

  /** The arena as initialisation leaves it. */
  function FirstBlocks(g: Geometry, session: nat, buffer: Buffer): seq<Block>
    requires g.Valid() && AlignUp(g, session) + g.blockSize <= buffer.size
  {
    Initial(g, ArenaStart(g, session, buffer), buffer.base + buffer.size)
  }

  /** The arena starts aligned, can hold a block, and holds what is charged. */
  lemma {:induction false} ArenaHoldsCharged(
    g: Geometry, session: nat, charged: seq<nat>, buffer: Buffer)
    requires g.Valid() && Provided(g, session, charged, buffer) && SplitThreshold(g) <= CostSum(g, charged)
    ensures
      var start, end := ArenaStart(g, session, buffer), buffer.base + buffer.size;
      && 0 < start && start % g.alignment == 0 && start + SplitThreshold(g) <= end <= g.sizeMax
      && CostSum(g, charged) <= end - start && CostSum(g, charged) < g.sizeMax
  {
    ArenaStartIsAligned(g, session, buffer.base);
    RoundUpFacts(session, g.alignment);
  }

  /** An arena that holds what is charged serves every covered run. */
  lemma {:induction false} ChargedArenaServes(
    g: Geometry, charged: seq<nat>, start: nat, end: nat, blocks: seq<Block>, ops: seq<Op>, op: Op)
    requires g.Valid() && 0 < start && start % g.alignment == 0 && start + SplitThreshold(g) <= end <= g.sizeMax
    requires blocks == Initial(g, start, end)
    requires CostSum(g, charged) <= end - start && CostSum(g, charged) < g.sizeMax
    requires op.Allocate? && UsableAlignment(g, op.alignment) && Covered(Requests(g, ops + [op]), charged)
    ensures AllocateResult(g, Run(g, blocks, ops), op).Some?
  {
    ChargedRunFits(g, charged, ops, op);
    AllocationWithinBudgetSucceeds(g, start, end, ops, op);
  }

  /** In a buffer of the predicted size, every allocation of every run succeeds as
      long as each request has a charged size of its own that is at least as large,
      whatever is released when. */
  lemma {:induction false} PredictedBufferServesChargedRun(
    g: Geometry, session: nat, charged: seq<nat>, buffer: Buffer, ops: seq<Op>, op: Op)
    requires g.Valid() && Provided(g, session, charged, buffer)
    requires op.Allocate? && UsableAlignment(g, op.alignment)
    requires Covered(Requests(g, ops + [op]), charged)
    ensures AllocateResult(g, Run(g, FirstBlocks(g, session, buffer), ops), op).Some?
  {
    ChargeIsNotCheap(g, charged, ops, op);
    ArenaHoldsCharged(g, session, charged, buffer);
    ChargedArenaServes(
      g, charged, ArenaStart(g, session, buffer), buffer.base + buffer.size, FirstBlocks(g, session, buffer), ops, op);
  }

  /** What covers an allocation costs at least a block. */
  lemma {:induction false} ChargeIsNotCheap(g: Geometry, charged: seq<nat>, ops: seq<Op>, op: Op)
    requires g.Valid() && op.Allocate? && UsableAlignment(g, op.alignment)
    requires Covered(Requests(g, ops + [op]), charged) && CostSum(g, charged) < g.sizeMax
    ensures SplitThreshold(g) <= CostSum(g, charged)
  {
    ChargedRunFits(g, charged, ops, op);
    AllocationIsNeverCheap(g, op.size);
  }

  // ------------------------------------------------------ growing tables

  /** Capacity a table doubles to so that it holds `needed` entries. */
  function GrownCapacity(capacity: nat, needed: nat): nat
    requires 0 < capacity
    decreases if capacity >= needed then 0 else needed - capacity
  {
    if capacity >= needed then capacity else GrownCapacity(capacity * 2, needed)
  }

  datatype Growth = Grown(capacity: nat) | LimitExceeded | OutOfMemory

  /** Room for `needed` ranges of `entry` bytes: the capacity doubles, and the larger
      table must be expressible and granted by the allocator. */
  method EnsureRangeCapacity(current: nat, needed: nat, entry: nat, sizeMax: nat, granted: bool) returns (growth: Growth)
    requires current <= UINT32_MAX && needed <= UINT32_MAX && 0 < entry
    ensures growth ==
      if needed <= current then Grown(current)
      else
        var capacity := GrownCapacity(if current == 0 then 8 else current, needed);
        if capacity > UINT32_MAX || capacity * entry > sizeMax then LimitExceeded
        else if granted then Grown(capacity) else OutOfMemory
    ensures growth.Grown? ==> needed <= growth.capacity <= UINT32_MAX
  {
    if current >= needed {
      return Grown(current);
    }
    var next := if current == 0 then 8 else current;
    while next < needed
      invariant 0 < next <= UINT32_MAX
      invariant GrownCapacity(next, needed) == GrownCapacity(if current == 0 then 8 else current, needed)
      decreases if next >= needed then 0 else needed - next
    {
      if next > UINT32_MAX / 2 {
        GrownIsNotBelow(next * 2, needed);
        return LimitExceeded;
      }
      next := next * 2;
    }
    if next > sizeMax / entry {
      TooManyEntries(sizeMax, next, entry);
      return LimitExceeded;
    }
    FewEnoughEntries(sizeMax, next, entry);
    return if granted then Grown(next) else OutOfMemory;
  }

  lemma {:induction false} FewEnoughEntries(limit: nat, capacity: nat, entry: nat)
    requires 0 < entry && capacity <= limit / entry
    ensures capacity * entry <= limit
  {
    assert limit / entry * entry <= limit;
    if capacity < limit / entry { Between(capacity, limit / entry, entry); }
  }

  lemma GrownIsNotBelow(capacity: nat, needed: nat)
    requires 0 < capacity
    ensures capacity <= GrownCapacity(capacity, needed) && needed <= GrownCapacity(capacity, needed)
    decreases if capacity >= needed then 0 else needed - capacity
  {
    if capacity < needed { GrownIsNotBelow(capacity * 2, needed); }
  }

  /** What a table that starts empty asks for as its demand changes. */
  function GrowthRequests(capacity: nat, initial: nat, entry: nat, demands: seq<nat>): seq<nat>
    requires 0 < initial
    decreases |demands|
  {
    if demands == [] then []
    else if capacity >= demands[0] then GrowthRequests(capacity, initial, entry, demands[1..])
    else
      var grown := GrownCapacity(if capacity == 0 then initial else capacity, demands[0]);
      [grown * entry] + GrowthRequests(grown, initial, entry, demands[1..])
  }

  /** A doubling chain contains what is left of it after growing once. */
  lemma {:induction false} ChainContainsGrowth(capacity: nat, needed: nat, limit: nat, entry: nat)
    requires 0 < capacity && 0 < needed <= limit
    ensures var grown := GrownCapacity(capacity, needed);
            && 0 < grown
            && multiset([grown * entry]) + (if grown >= limit then multiset{} else multiset(DoublingSizes(limit, entry, grown * 2)))
               <= multiset(DoublingSizes(limit, entry, capacity))
    decreases if capacity >= needed then 0 else needed - capacity
  {
    if capacity < needed {
      ChainContainsGrowth(capacity * 2, needed, limit, entry);
    }
  }

  /** However the demand rises, a growing table never asks for a size twice nor
      for one outside the doubling chain the predictor charges. */
  lemma {:induction false} GrowthStaysInChain(capacity: nat, initial: nat, entry: nat, demands: seq<nat>, limit: nat)
    requires 0 < initial && forall d :: d in demands ==> d <= limit
    ensures multiset(GrowthRequests(capacity, initial, entry, demands))
         <= if capacity == 0 then multiset(DoublingSizes(limit, entry, initial))
            else if capacity >= limit then multiset{}
            else multiset(DoublingSizes(limit, entry, capacity * 2))
    decreases |demands|
  {
    if demands != [] {
      assert demands[0] in demands && forall d :: d in demands[1..] ==> d in demands;
      if capacity >= demands[0] {
        GrowthStaysInChain(capacity, initial, entry, demands[1..], limit);
      } else {
        var from := if capacity == 0 then initial else capacity;
        var grown := GrownCapacity(from, demands[0]);
        GrownIsNotBelow(from, demands[0]);
        if capacity == 0 {
          ChainContainsGrowth(initial, demands[0], limit, entry);
        } else {
          ChainContainsGrowth(capacity * 2, demands[0], limit, entry);
        }
        GrowthStaysInChain(grown, initial, entry, demands[1..], limit);
      }
    }
  }

  /** A table of d columns reaches no further than a column that begins in the track. */
  predicate InTrack(config: Config, d: nat) {
    var width := if config.overviewFramesPerColumn != 0 then config.overviewFramesPerColumn else 1024;
    0 < d ==> (d - 1) * width < config.totalFrames
  }

  lemma {:induction false} CeilingReaches(total: nat, width: nat, d: nat)
    requires 0 < width && 0 < d
    ensures (d - 1) * width < total <==> d <= (total + width - 1) / width
  {
    var n := (total + width - 1) / width;
    assert n * width <= total + width - 1 < n * width + width;
    if d <= n { AtMostTimes(d, n, width); } else { AtMostTimes(n + 1, d, width); }
    assert (d - 1) * width + width == d * width && n * width + width == (n + 1) * width;
  }

  lemma {:induction false} AtMostTimes(a: nat, b: nat, d: nat)
    requires a <= b
    ensures a * d <= b * d
  {
    if a < b { Between(a, b, d); }
  }

  /** Exactly those tables are within the predicted columns. */
  lemma {:induction false} ColumnsAreThoseInTrack(config: Config, d: nat)
    ensures InTrack(config, d) <==> d <= Columns(config)
  {
    if 0 < d {
      CeilingReaches(
        config.totalFrames,
        if config.overviewFramesPerColumn != 0 then config.overviewFramesPerColumn else DEFAULT_FRAMES_PER_COLUMN, d);
    }
  }

  /** The buffers a session asks for once, if it has the feature they serve. */
  datatype Once = Once(
    pcm: Option<nat>, detail: Option<nat>, onsetBins: Option<nat>, onsetFlux: Option<nat>, gridState: Option<nat>,
    gridBins: Option<nat>, gridFlux: Option<nat>, beats: Option<nat>, metadata: Option<nat>)

  predicate AtMostOne(asked: Option<nat>, feature: bool, limit: nat) {
    asked.Some? ==> feature && asked.value <= limit
  }

  predicate OnceFits(once: Once, s: Sizes, config: Config) {
    && AtMostOne(once.pcm, true, s.pcmBlock) && AtMostOne(once.detail, config.detail, s.detail)
    && AtMostOne(once.onsetBins, config.tempo, s.onsetBins) && AtMostOne(once.onsetFlux, config.tempo, s.onsetFlux)
    && AtMostOne(once.gridState, config.globalGrid, s.gridState)
    && AtMostOne(once.gridBins, config.globalGrid, s.gridBins)
    && AtMostOne(once.gridFlux, config.globalGrid, s.gridFlux) && AtMostOne(once.beats, config.globalGrid, s.beats)
    && AtMostOne(once.metadata, true, 8192)
  }

  function Listed(asked: Option<nat>): seq<nat> {
    if asked.Some? then [asked.value] else []
  }

  function TempoOnce(once: Once): seq<nat> { Listed(once.onsetBins) + Listed(once.onsetFlux) }

  function GridOnce(once: Once): seq<nat> {
    (Listed(once.gridState) + Listed(once.gridBins)) + (Listed(once.gridFlux) + Listed(once.beats))
  }

  function AllOnce(once: Once): seq<nat> {
    Listed(once.pcm) + Listed(once.detail) + TempoOnce(once) + GridOnce(once) + Listed(once.metadata)
  }

  lemma {:induction false} ListedIsCovered(asked: Option<nat>, feature: bool, limit: nat)
    requires AtMostOne(asked, feature, limit)
    ensures Covered(Listed(asked), if feature then [limit] else [])
  {
    assert CoveredBy(Listed(asked), if asked.Some? then [limit] else [], if feature then [limit] else []);
  }

  lemma {:induction false} TwoAreCovered(x: Option<nat>, y: Option<nat>, feature: bool, limitX: nat, limitY: nat)
    requires AtMostOne(x, feature, limitX) && AtMostOne(y, feature, limitY)
    ensures Covered(Listed(x) + Listed(y), if feature then [limitX, limitY] else [])
  {
    ListedIsCovered(x, feature, limitX);
    ListedIsCovered(y, feature, limitY);
    CoverConcat(Listed(x), Listed(y), if feature then [limitX] else [], if feature then [limitY] else []);
    assert [limitX] + [limitY] == [limitX, limitY];
  }

  lemma {:induction false} GridIsCovered(once: Once, s: Sizes, config: Config)
    requires OnceFits(once, s, config)
    ensures Covered(GridOnce(once), if config.globalGrid then [s.gridState, s.gridBins, s.gridFlux, s.beats] else [])
  {
    var a := if config.globalGrid then [s.gridState, s.gridBins] else [];
    var b := if config.globalGrid then [s.gridFlux, s.beats] else [];
    TwoAreCovered(once.gridState, once.gridBins, config.globalGrid, s.gridState, s.gridBins);
    TwoAreCovered(once.gridFlux, once.beats, config.globalGrid, s.gridFlux, s.beats);
    CoverConcat(Listed(once.gridState) + Listed(once.gridBins), Listed(once.gridFlux) + Listed(once.beats), a, b);
    assert a + b == if config.globalGrid then [s.gridState, s.gridBins, s.gridFlux, s.beats] else [];
  }

  /** The predictor's list of fixed buffers has a place for each of them. */
  lemma {:induction false} OnceIsCovered(once: Once, s: Sizes, config: Config)
    requires OnceFits(once, s, config)
    ensures Covered(AllOnce(once), FixedSizes(s, config))
  {
    var detail := if config.detail then [s.detail] else [];
    var tempo := if config.tempo then [s.onsetBins, s.onsetFlux] else [];
    var grid := if config.globalGrid then [s.gridState, s.gridBins, s.gridFlux, s.beats] else [];
    ListedIsCovered(once.pcm, true, s.pcmBlock);
    ListedIsCovered(once.detail, config.detail, s.detail);
    TwoAreCovered(once.onsetBins, once.onsetFlux, config.tempo, s.onsetBins, s.onsetFlux);
    GridIsCovered(once, s, config);
    ListedIsCovered(once.metadata, true, 8192);
    CoverConcat(Listed(once.pcm), Listed(once.detail), [s.pcmBlock], detail);
    CoverConcat(Listed(once.pcm) + Listed(once.detail), TempoOnce(once), [s.pcmBlock] + detail, tempo);
    CoverConcat(
      Listed(once.pcm) + Listed(once.detail) + TempoOnce(once), GridOnce(once), [s.pcmBlock] + detail + tempo, grid);
    CoverConcat(
      Listed(once.pcm) + Listed(once.detail) + TempoOnce(once) + GridOnce(once), Listed(once.metadata),
      [s.pcmBlock] + detail + tempo + grid, [8192]);
  }

  /** What a session asks for: the growth of the overview, band and range tables, as
      far as the track and 16 ranges ask, and each of the other buffers at most once. */
  ghost predicate AsksFor(
    s: Sizes, config: Config, columns: seq<nat>, bands: seq<nat>, ranges: seq<nat>, once: Once, requests: seq<nat>)
  {
    && (forall d :: d in columns ==> InTrack(config, d))
    && (forall d :: d in bands ==> config.bands && InTrack(config, d))
    && (forall d :: d in ranges ==> d <= 16)
    && OnceFits(once, s, config)
    && multiset(requests) ==
         multiset(GrowthRequests(0, 16, s.accumulator, columns)) + multiset(GrowthRequests(0, 16, s.bandSums, bands))
         + multiset(GrowthRequests(0, 8, s.range, ranges)) + multiset(AllOnce(once))
  }

  lemma {:induction false} TableGrowthFits(
    s: Sizes, config: Config, columns: seq<nat>, bands: seq<nat>, ranges: seq<nat>)
    requires forall d :: d in columns ==> InTrack(config, d)
    requires forall d :: d in bands ==> config.bands && InTrack(config, d)
    requires forall d :: d in ranges ==> d <= 16
    ensures multiset(GrowthRequests(0, 16, s.accumulator, columns)) + multiset(GrowthRequests(0, 16, s.bandSums, bands))
          + multiset(GrowthRequests(0, 8, s.range, ranges))
         <= multiset(TableSizes(s, config))
  {
    forall d: nat ensures InTrack(config, d) <==> d <= Columns(config) {
      ColumnsAreThoseInTrack(config, d);
    }
    GrowthStaysInChain(0, 16, s.accumulator, columns, Columns(config));
    GrowthStaysInChain(0, 16, s.bandSums, bands, Columns(config));
    GrowthStaysInChain(0, 8, s.range, ranges, MAX_REGION_REQUESTS);
    if bands != [] { assert bands[0] in bands; }
  }

  /** All of that, in whatever order, is covered by what the predictor charges. */
  lemma {:induction false} TableGrowthIsCharged(
    s: Sizes, config: Config, columns: seq<nat>, bands: seq<nat>, ranges: seq<nat>, once: Once, requests: seq<nat>)
    requires AsksFor(s, config, columns, bands, ranges, once, requests)
    ensures Covered(requests, Charged(s, config))
  {
    var tables := GrowthRequests(0, 16, s.accumulator, columns) + GrowthRequests(0, 16, s.bandSums, bands)
      + GrowthRequests(0, 8, s.range, ranges);
    TableGrowthFits(s, config, columns, bands, ranges);
    EqualIsCovered(tables, TableSizes(s, config));
    OnceIsCovered(once, s, config);
    CoverConcat(tables, AllOnce(once), TableSizes(s, config), FixedSizes(s, config));
    CoverIgnoresOrder(requests, tables + AllOnce(once), Charged(s, config));
  }
}
