/** What releasing gives back: an allocation that is released before the next one is
  made costs nothing, and one that is not may cost its whole place. */
module WorkspaceReuse {
  import opened Common
  import opened Workspace
  import opened WorkspaceSize

  // ------------------------------------------- the list follows from what is used

  lemma {:induction false} EndsGrow(g: Geometry, start: nat, end: nat, blocks: seq<Block>, i: nat)
    requires g.Valid() && Tiled(g, start, end, blocks) && i < |blocks|
    ensures start <= blocks[i].address && End(g, blocks[i]) <= end
    ensures i + 1 < |blocks| ==> End(g, blocks[i]) <= blocks[|blocks| - 1].address
    ensures 0 < i ==> start < blocks[i].address
  {
    if i + 1 < |blocks| { Ordered(g, start, end, blocks, i, |blocks| - 1); }
    if 0 < i { Ordered(g, start, end, blocks, 0, i); }
  }

  /** All blocks but the last tile the arena up to it. */
  lemma {:induction false} PrefixIsTiled(g: Geometry, start: nat, end: nat, blocks: seq<Block>)
    requires g.Valid() && Tiled(g, start, end, blocks) && 1 < |blocks|
    ensures
      var n := |blocks| - 1;
      Tiled(g, start, blocks[n].address, blocks[..n])
  {
    var n := |blocks| - 1;
    assert Linked(g, blocks[n - 1], blocks[n]);
    forall i | 0 < i < n ensures Linked(g, blocks[..n][i - 1], blocks[..n][i]) {
      assert Linked(g, blocks[i - 1], blocks[i]);
    }
    forall i | 0 <= i < n ensures BlockOk(g, blocks[..n][i]) {
      assert BlockOk(g, blocks[i]);
    }
  }

  lemma {:induction false} PrefixUsed(g: Geometry, start: nat, end: nat, blocks: seq<Block>)
    requires g.Valid() && Tiled(g, start, end, blocks)
    ensures
      var n := |blocks| - 1;
      && Used(blocks[..n]) == Used(blocks) - (if blocks[n].free then {} else {blocks[n]})
      && (blocks[n].free ==> blocks[n] !in Used(blocks))
  {
    var n := |blocks| - 1;
    Distinct(g, start, end, blocks);
    assert blocks == blocks[..n] + [blocks[n]];
    UsedConcat(blocks[..n], [blocks[n]]);
    assert blocks[n] !in blocks[..n];
  }

  /** A used block that ends where the arena ends is the last one. */
  lemma {:induction false} LastUsedIsLast(g: Geometry, start: nat, end: nat, blocks: seq<Block>, b: Block)
    requires g.Valid() && Tiled(g, start, end, blocks) && b in Used(blocks) && End(g, b) == end
    ensures b == blocks[|blocks| - 1]
  {
    var i :| 0 <= i < |blocks| && blocks[i] == b;
    EndsGrow(g, start, end, blocks, i);
  }

  /** A used block ends before a free last block begins. */
  lemma {:induction false} UsedBeforeFree(g: Geometry, start: nat, end: nat, blocks: seq<Block>, b: Block)
    requires g.Valid() && Tiled(g, start, end, blocks) && b in Used(blocks) && blocks[|blocks| - 1].free
    ensures End(g, b) <= blocks[|blocks| - 1].address
  {
    var i :| 0 <= i < |blocks| && blocks[i] == b;
    EndsGrow(g, start, end, blocks, i);
  }

  /** In front of a free last block that does not start the arena a used block ends. */
  lemma {:induction false} UsedEndsAtFree(g: Geometry, start: nat, end: nat, blocks: seq<Block>) returns (b: Block)
    requires g.Valid() && Tiled(g, start, end, blocks) && 1 < |blocks| && blocks[|blocks| - 1].free
    ensures b in Used(blocks) && End(g, b) == blocks[|blocks| - 1].address
  {
    var n := |blocks| - 1;
    assert Linked(g, blocks[n - 1], blocks[n]);
    b := blocks[n - 1];
  }

  /** Two free last blocks behind the same used blocks begin at the same place. */
  lemma {:induction false} FreeTailsMeet(g: Geometry, start: nat, end: nat, a: seq<Block>, b: seq<Block>)
    requires g.Valid() && Tiled(g, start, end, a) && Tiled(g, start, end, b) && Used(a) == Used(b)
    requires a[|a| - 1].free && b[|b| - 1].free
    ensures b[|b| - 1].address <= a[|a| - 1].address
  {
    if |b| > 1 {
      var u := UsedEndsAtFree(g, start, end, b);
      UsedBeforeFree(g, start, end, a, u);
    } else {
      EndsGrow(g, start, end, a, |a| - 1);
    }
  }

  lemma {:induction false} SameLast(g: Geometry, start: nat, end: nat, a: seq<Block>, b: seq<Block>)
    requires g.Valid() && Tiled(g, start, end, a) && Tiled(g, start, end, b) && Used(a) == Used(b)
    ensures a[|a| - 1] == b[|b| - 1]
  {
    var x, y := a[|a| - 1], b[|b| - 1];
    assert BlockOk(g, x) && BlockOk(g, y);
    if !x.free {
      LastUsedIsLast(g, start, end, b, x);
    } else if !y.free {
      LastUsedIsLast(g, start, end, a, y);
    } else {
      FreeTailsMeet(g, start, end, a, b);
      FreeTailsMeet(g, start, end, b, a);
    }
  }

  /** The used blocks decide the whole list: what is free is merged to the full. */
  lemma {:induction false} UsedDecidesBlocks(g: Geometry, start: nat, end: nat, a: seq<Block>, b: seq<Block>)
    requires g.Valid() && Tiled(g, start, end, a) && Tiled(g, start, end, b) && Used(a) == Used(b)
    ensures a == b
    decreases |a|
  {
    var n, m := |a| - 1, |b| - 1;
    SameLast(g, start, end, a, b);
    EndsGrow(g, start, end, a, n);
    EndsGrow(g, start, end, b, m);
    PrefixUsed(g, start, end, a);
    PrefixUsed(g, start, end, b);
    if n > 0 && m > 0 {
      PrefixIsTiled(g, start, end, a);
      PrefixIsTiled(g, start, end, b);
      UsedDecidesBlocks(g, start, a[n].address, a[..n], b[..m]);
    }
    assert a == a[..n] + [a[n]] && b == b[..m] + [b[m]];
  }

  // ------------------------------------------------------------------- releases

  function Releases(memories: seq<nat>): seq<Op> {
    if memories == [] then [] else Releases(memories[..|memories| - 1]) + [Deallocate(memories[|memories| - 1])]
  }

  ghost function UsedBut(g: Geometry, used: set<Block>, memories: set<nat>): set<Block>
    requires g.Valid()
  {
    set b | b in used && Payload(g, b) !in memories
  }

  lemma {:induction false} ReleaseUsed(g: Geometry, start: nat, end: nat, blocks: seq<Block>, memory: nat)
    requires g.Valid() && Tiled(g, start, end, blocks)
    ensures Used(Apply(g, blocks, Deallocate(memory))) == UsedBut(g, Used(blocks), {memory})
  {
    var i := Owner(g, blocks, memory);
    Distinct(g, start, end, blocks);
    if i < |blocks| {
      assert forall b :: b in blocks && Payload(g, b) == memory ==> b == blocks[i];
      if !blocks[i].free {
        MergeNextUsed(g, blocks, i);
        MergeNextTiles(g, start, end, blocks, i);
        MergePreviousUsed(g, MergeNext(g, blocks, i), i);
      }
    } else {
      assert forall b :: b in blocks ==> Payload(g, b) != memory;
    }
  }

  lemma {:induction false} RunOneMore(g: Geometry, blocks: seq<Block>, ops: seq<Op>, op: Op)
    requires g.Valid()
    ensures Run(g, blocks, ops + [op]) == Apply(g, Run(g, blocks, ops), op)
  {
    assert (ops + [op])[..|ops|] == ops;
  }

  lemma {:induction false} UsedButTwice(g: Geometry, used: set<Block>, a: set<nat>, b: set<nat>)
    requires g.Valid()
    ensures UsedBut(g, UsedBut(g, used, a), b) == UsedBut(g, used, a + b)
  {
  }

  lemma {:induction false} ReleasesUsed(g: Geometry, start: nat, end: nat, blocks: seq<Block>, memories: seq<nat>)
    requires g.Valid() && Tiled(g, start, end, blocks)
    ensures Tiled(g, start, end, Run(g, blocks, Releases(memories)))
    ensures Used(Run(g, blocks, Releases(memories))) == UsedBut(g, Used(blocks), set m | m in memories)
    decreases |memories|
  {
    if memories != [] {
      var before, last := memories[..|memories| - 1], memories[|memories| - 1];
      var middle := Run(g, blocks, Releases(before));
      assert (set m | m in memories) == (set m | m in before) + {last} by {
        assert memories == before + [last];
      }
      ReleasesUsed(g, start, end, blocks, before);
      RunOneMore(g, blocks, Releases(before), Deallocate(last));
      ReleaseUsed(g, start, end, middle, last);
      ApplyKeepsTiling(g, start, end, middle, Deallocate(last));
      UsedButTwice(g, Used(blocks), set m | m in before, {last});
    }
  }

  // --------------------------------------------------------------- reuse is free

  /** One thing a session does: a single operation, or an allocation that is released
      before the next one is made, with other releases in between. */
  datatype Move = Once(op: Op) | Reused(size: nat, alignment: nat, between: seq<nat>)

  function Play(g: Geometry, blocks: seq<Block>, move: Move): seq<Block>
    requires g.Valid()
  {
    match move
    case Once(op) => Apply(g, blocks, op)
    case Reused(size, alignment, between) =>
      var payload := AllocateResult(g, blocks, Allocate(size, alignment));
      var after := Run(g, Apply(g, blocks, Allocate(size, alignment)), Releases(between));
      if payload.None? then after else Apply(g, after, Deallocate(payload.value))
  }

  function PlayAll(g: Geometry, blocks: seq<Block>, moves: seq<Move>): seq<Block>
    requires g.Valid()
  {
    if moves == [] then blocks else Play(g, PlayAll(g, blocks, moves[..|moves| - 1]), moves[|moves| - 1])
  }

  /** The operations that count: all but the reused allocations. */
  function Kept(move: Move): seq<Op> {
    match move
    case Once(op) => [op]
    case Reused(_, _, between) => Releases(between)
  }

  function AllKept(moves: seq<Move>): seq<Op> {
    if moves == [] then [] else AllKept(moves[..|moves| - 1]) + Kept(moves[|moves| - 1])
  }

  /** A reused allocation leaves the blocks as if it had never been made. */
  lemma {:induction false} ReuseLeavesNothing(
    g: Geometry, start: nat, end: nat, blocks: seq<Block>, size: nat, alignment: nat, between: seq<nat>)
    requires g.Valid() && Tiled(g, start, end, blocks)
    ensures Play(g, blocks, Reused(size, alignment, between)) == Run(g, blocks, Releases(between))
  {
    var op := Allocate(size, alignment);
    var payload := AllocateResult(g, blocks, op);
    if payload.Some? {
      var placed := Apply(g, blocks, op);
      ApplyKeepsTiling(g, start, end, blocks, op);
      ReleasesUsed(g, start, end, placed, between);
      ReleasesUsed(g, start, end, blocks, between);
      var after := Run(g, placed, Releases(between));
      ReleaseUsed(g, start, end, after, payload.value);
      ApplyKeepsTiling(g, start, end, after, Deallocate(payload.value));
      PlacedIsNew(g, start, end, blocks, size, alignment);
      UsedDecidesBlocks(g, start, end, Apply(g, after, Deallocate(payload.value)), Run(g, blocks, Releases(between)));
    }
  }

  /** The new block is the only one at the address handed out. */
  lemma {:induction false} PlacedIsNew(
    g: Geometry, start: nat, end: nat, blocks: seq<Block>, size: nat, alignment: nat)
    requires g.Valid() && Tiled(g, start, end, blocks)
    requires AllocateResult(g, blocks, Allocate(size, alignment)).Some?
    ensures
      var payload := AllocateResult(g, blocks, Allocate(size, alignment)).value;
      UsedBut(g, Used(Apply(g, blocks, Allocate(size, alignment))), {payload}) == Used(blocks)
  {
    var required := Required(g, size).value;
    var i := FirstFit(blocks, required);
    PlaceUsed(g, blocks, i, required, size);
    Distinct(g, start, end, blocks);
    assert forall b :: b in Used(blocks) ==> b.address != blocks[i].address;
  }

  lemma {:induction false} RunConcat(g: Geometry, blocks: seq<Block>, a: seq<Op>, b: seq<Op>)
    requires g.Valid()
    ensures Run(g, blocks, a + b) == Run(g, Run(g, blocks, a), b)
    decreases |b|
  {
    if b == [] {
      assert a + b == a;
    } else {
      assert (a + b)[..|a + b| - 1] == a + b[..|b| - 1];
      RunConcat(g, blocks, a, b[..|b| - 1]);
    }
  }

  /** Over every run: the reused allocations change nothing. */
  lemma {:induction false} ReuseCostsNothing(g: Geometry, start: nat, end: nat, blocks: seq<Block>, moves: seq<Move>)
    requires g.Valid() && Tiled(g, start, end, blocks)
    ensures PlayAll(g, blocks, moves) == Run(g, blocks, AllKept(moves))
    decreases |moves|
  {
    if moves != [] {
      var before, last := moves[..|moves| - 1], moves[|moves| - 1];
      ReuseCostsNothing(g, start, end, blocks, before);
      RunConcat(g, blocks, AllKept(before), Kept(last));
      var middle := Run(g, blocks, AllKept(before));
      RunKeepsTiling(g, start, end, blocks, AllKept(before));
      match last
      case Once(op) =>
        RunOneMore(g, middle, [], op);
        assert [] + [op] == [op];
      case Reused(size, alignment, between) =>
        ReuseLeavesNothing(g, start, end, middle, size, alignment, between);
    }
  }

  /** So in a buffer of the predicted size an allocation, to be reused or not, succeeds
      as long as it and the allocations that were not reused are covered by the charged
      sizes: one charged node serves any number of blocks that are consumed in turn. */
  lemma {:induction false} PredictedBufferServesReuse(
    g: Geometry, session: nat, charged: seq<nat>, buffer: Buffer, moves: seq<Move>, op: Op)
    requires g.Valid() && Provided(g, session, charged, buffer)
    requires op.Allocate? && UsableAlignment(g, op.alignment)
    requires Covered(Requests(g, AllKept(moves) + [op]), charged)
    ensures AllocateResult(g, PlayAll(g, FirstBlocks(g, session, buffer), moves), op).Some?
  {
    var start, end := ArenaStart(g, session, buffer), buffer.base + buffer.size;
    ChargeIsNotCheap(g, charged, AllKept(moves), op);
    ArenaHoldsCharged(g, session, charged, buffer);
    InitialIsTiled(g, start, end);
    ReuseCostsNothing(g, start, end, FirstBlocks(g, session, buffer), moves);
    PredictedBufferServesChargedRun(g, session, charged, buffer, AllKept(moves), op);
  }

  /** The predicted buffer serves a whole session: tables that grow as they must, each
      fixed buffer once and no larger than assumed, and any number of reused nodes. */
  lemma {:induction false} PredictedBufferServesSession(
    g: Geometry, s: Sizes, config: Config, buffer: Buffer, moves: seq<Move>, op: Op,
    columns: seq<nat>, bands: seq<nat>, ranges: seq<nat>, once: WorkspaceSize.Once)
    requires g.Valid() && Provided(g, s.session, Charged(s, config), buffer)
    requires op.Allocate? && UsableAlignment(g, op.alignment)
    requires AsksFor(s, config, columns, bands, ranges, once, Requests(g, AllKept(moves) + [op]))
    ensures AllocateResult(g, PlayAll(g, FirstBlocks(g, s.session, buffer), moves), op).Some?
  {
    TableGrowthIsCharged(s, config, columns, bands, ranges, once, Requests(g, AllKept(moves) + [op]));
    PredictedBufferServesReuse(g, s.session, Charged(s, config), buffer, moves, op);
  }

  // ----------------------------------------------------------- what reuse may cost

  const NODE: nat := 160
  const TABLE: nat := 16

  /** Headers of sixteen bytes, everything aligned to sixteen. */
  ghost predicate Small(g: Geometry) {
    && g.Valid() && g.blockSize == 16 && g.headerSize == 16 && g.alignment == 16 && 0x1000 <= g.sizeMax
    && UsableAlignment(g, 8)
  }

  lemma {:induction false} SmallExists()
    ensures Small(Geometry(16, 16, 16, 8, 0x1000))
  {
  }

  lemma {:induction false} SmallCosts(g: Geometry)
    requires Small(g)
    ensures Prefix(g) == 16 && SplitThreshold(g) == 48
    ensures Required(g, NODE) == Some(176) && Required(g, TABLE) == Some(32)
    ensures AllocationCost(g, NODE) == 192 && AllocationCost(g, TABLE) == 48
  {
  }

  // The arena at its five moments.
  function Empty(at: nat): seq<Block> { [Block(at, 304, 0, true)] }

  function OneNode(at: nat): seq<Block> { [Block(at, 176, NODE, false), Block(at + 192, 112, 0, true)] }

  function WithTable(at: nat): seq<Block> {
    [Block(at, 176, NODE, false), Block(at + 192, 32, TABLE, false), Block(at + 240, 64, 0, true)]
  }

  function Hole(at: nat): seq<Block> {
    [Block(at, 176, 0, true), Block(at + 192, 32, TABLE, false), Block(at + 240, 64, 0, true)]
  }

  function Refilled(at: nat): seq<Block> {
    [Block(at, 32, TABLE, false), Block(at + 48, 128, 0, true), Block(at + 192, 32, TABLE, false),
     Block(at + 240, 64, 0, true)]
  }

  /** A node, a table behind it, then the node is released and a second table takes
      part of its place: what is left of the hole is lost to the next node. */
  function Nodes(at: nat): seq<Op> {
    [Allocate(NODE, 8), Allocate(TABLE, 8), Deallocate(at + 32), Allocate(TABLE, 8)]
  }

  /** An allocation, given the block it is carved from and what is carved. */
  lemma {:induction false} AllocationIs(
    g: Geometry, blocks: seq<Block>, size: nat, alignment: nat, i: nat, required: nat, carved: seq<Block>)
    requires g.Valid() && UsableAlignment(g, alignment) && Required(g, size) == Some(required)
    requires i < |blocks| && blocks[i].free && required <= blocks[i].capacity
    requires forall j :: 0 <= j < i ==> !blocks[j].free
    requires carved == Carve(g, blocks[i], required, size)
    ensures Apply(g, blocks, Allocate(size, alignment)) == blocks[..i] + carved + blocks[i + 1..]
  {
    FirstFitIs(blocks, required, i);
  }

  lemma {:induction false} Allocations(g: Geometry, at: nat)
    requires Small(g)
    ensures Apply(g, Empty(at), Allocate(NODE, 8)) == OneNode(at)
    ensures Apply(g, OneNode(at), Allocate(TABLE, 8)) == WithTable(at)
    ensures Apply(g, Hole(at), Allocate(TABLE, 8)) == Refilled(at)
  {
    SmallCosts(g);
    AllocationIs(g, Empty(at), NODE, 8, 0, 176, OneNode(at));
    AllocationIs(g, OneNode(at), TABLE, 8, 1, 32, WithTable(at)[1..]);
    AllocationIs(g, Hole(at), TABLE, 8, 0, 32, Refilled(at)[..2]);
  }

  lemma {:induction false} NodeReleased(g: Geometry, at: nat)
    requires Small(g)
    ensures Apply(g, WithTable(at), Deallocate(at + 32)) == Hole(at)
  {
    SmallCosts(g);
    OwnerIs(g, WithTable(at), at + 32, 0);
    assert MergeNext(g, WithTable(at), 0) == Hole(at);
  }

  lemma {:induction false} RunIsRefilled(g: Geometry, at: nat)
    requires Small(g)
    ensures Run(g, Empty(at), Nodes(at)) == Refilled(at)
  {
    Allocations(g, at);
    NodeReleased(g, at);
    var ops := Nodes(at);
    assert ops[..1] == [] + [ops[0]] && ops[..2] == ops[..1] + [ops[1]];
    assert ops[..3] == ops[..2] + [ops[2]] && ops == ops[..3] + [ops[3]];
    RunOneMore(g, Empty(at), [], ops[0]);
    RunOneMore(g, Empty(at), ops[..1], ops[1]);
    RunOneMore(g, Empty(at), ops[..2], ops[2]);
    RunOneMore(g, Empty(at), ops[..3], ops[3]);
  }

  lemma {:induction false} RefilledIsFull(g: Geometry, at: nat)
    requires Small(g)
    ensures Live(g, Refilled(at)) == {(at + 32, TABLE), (at + 224, TABLE)}
    ensures AllocateResult(g, Refilled(at), Allocate(NODE, 8)).None?
  {
    SmallCosts(g);
    FirstFitIs(Refilled(at), 176, 4);
    var a, b := Refilled(at)[0], Refilled(at)[2];
    assert Used(Refilled(at)) == {a, b};
    assert Payload(g, a) == at + 32 && Payload(g, b) == at + 224;
  }

  lemma {:induction false} SumOfThree(price: nat -> nat, a: nat, b: nat, c: nat)
    ensures Sum(price, [a, b, c]) == price(a) + price(b) + price(c)
  {
    assert [a, b, c][1..] == [b, c] && [b, c][1..] == [c] && [c][1..] == [];
    assert Sum(price, [c]) == price(c);
    assert Sum(price, [b, c]) == price(b) + Sum(price, [c]);
  }

  lemma {:induction false} HostIsProvided(g: Geometry, buffer: Buffer)
    requires Small(g) && buffer.base % g.alignment == 0 && buffer.size == 336 && buffer.base + 336 <= g.sizeMax
    ensures Provided(g, 16, [NODE, TABLE, TABLE], buffer) && Requirement(g, 16, [NODE, TABLE, TABLE]) == 336
    ensures AlignUp(g, 16) == 16 && FirstBlocks(g, 16, buffer) == Empty(buffer.base + 16)
  {
    SmallCosts(g);
    SumOfThree(Price(g), NODE, TABLE, TABLE);
    assert CostSum(g, [NODE, TABLE, TABLE]) == 288;
  }

  lemma {:induction false} NodeIsRefused(g: Geometry, at: nat)
    requires Small(g)
    ensures
      var blocks := Run(g, Empty(at), Nodes(at));
      Live(g, blocks) == {(at + 32, TABLE), (at + 224, TABLE)} && AllocateResult(g, blocks, Allocate(NODE, 8)).None?
  {
    RunIsRefilled(g, at);
    RefilledIsFull(g, at);
  }

  lemma {:induction false} HoleIsLost(g: Geometry, buffer: Buffer, blocks: seq<Block>)
    requires Small(g) && blocks == Empty(buffer.base + 16)
    ensures
      var after := Run(g, blocks, Nodes(buffer.base + 16));
      && Live(g, after) == {(buffer.base + 48, TABLE), (buffer.base + 240, TABLE)}
      && AllocateResult(g, after, Allocate(NODE, 8)).None?
  {
    NodeIsRefused(g, buffer.base + 16);
  }

  /** What a partly refilled hole costs: a buffer of the predicted size for one node
      and two tables refuses the node, although only the two tables are live. */
  lemma {:induction false} PartlyRefilledHoleIsLost() returns (g: Geometry, buffer: Buffer)
    ensures g == Geometry(16, 16, 16, 8, 0x1000) && buffer == Buffer(1008, 336)
    ensures g.Valid() && Provided(g, 16, [NODE, TABLE, TABLE], buffer) && AlignUp(g, 16) == 16
    ensures Requirement(g, 16, [NODE, TABLE, TABLE]) == buffer.size
    ensures
      var blocks := Run(g, FirstBlocks(g, 16, buffer), Nodes(buffer.base + 16));
      && Live(g, blocks) == {(buffer.base + 48, TABLE), (buffer.base + 240, TABLE)}
      && AllocateResult(g, blocks, Allocate(NODE, 8)).None?
  {
    g, buffer := Geometry(16, 16, 16, 8, 0x1000), Buffer(1008, 336);
    SmallExists();
    HostIsProvided(g, buffer);
    HoleIsLost(g, buffer, FirstBlocks(g, 16, buffer));
  }
}
