/** The allocator that serves a session from one host-supplied buffer.

  The buffer is cut into blocks. Each block has a header, a payload prefix and a
  payload; the headers form a list in address order. Allocation is first fit
  with splitting, release merges with both neighbours. */
module Workspace {
  import opened Common

  /** The sizes the C compiler decides, kept symbolic. */
  datatype Geometry = Geometry(
    blockSize: nat, headerSize: nat, alignment: nat, pointerAlignment: nat, sizeMax: nat)
  {
    predicate Valid() {
      && 0 < alignment
      && 0 < blockSize
      && blockSize % alignment == 0
      && 0 < pointerAlignment <= alignment
      && blockSize + headerSize + 2 * alignment < sizeMax
    }
  }

  datatype Block = Block(address: nat, capacity: nat, requested: nat, free: bool)

  function AlignUp(g: Geometry, value: nat): (r: nat)
    requires g.Valid()
    ensures value <= g.sizeMax ==> value <= r
  {
    if value > g.sizeMax - (g.alignment - 1) then g.sizeMax
    else RoundUp(value, g.alignment)
  }

  function Prefix(g: Geometry): nat
    requires g.Valid()
  {
    AlignUp(g, g.blockSize + g.headerSize) - g.blockSize
  }

  /** The smallest leftover that is turned into a block of its own. */
  function SplitThreshold(g: Geometry): nat
    requires g.Valid()
  {
    g.blockSize + Prefix(g) + g.alignment
  }

  function Clamp(size: nat): nat {
    if size == 0 then 1 else size
  }

  /** What one allocation needs behind its block header, if it is expressible. */
  function Required(g: Geometry, size: nat): Option<nat>
    requires g.Valid()
  {
    var padded := AlignUp(g, Clamp(size));
    if padded == g.sizeMax || Prefix(g) > g.sizeMax - padded then None
    else Some(Prefix(g) + padded)
  }

  /** The predictor's cost of one allocation, block header included. */
  function AllocationCost(g: Geometry, size: nat): nat
    requires g.Valid()
  {
    var padded := AlignUp(g, Clamp(size));
    if padded == g.sizeMax then g.sizeMax
    else g.blockSize + Prefix(g) + padded
  }

  function Payload(g: Geometry, b: Block): nat
    requires g.Valid()
  {
    b.address + g.blockSize + Prefix(g)
  }

  function End(g: Geometry, b: Block): nat {
    b.address + g.blockSize + b.capacity
  }

  // ---------------------------------------------------------------- invariant

  ghost predicate BlockOk(g: Geometry, b: Block)
    requires g.Valid()
  {
    && b.address % g.alignment == 0
    && Prefix(g) + g.alignment <= b.capacity
    && (b.free ==> b.requested == 0)
    && (!b.free ==> 0 < b.requested && Prefix(g) + RoundUp(b.requested, g.alignment) <= b.capacity)
  }

  ghost predicate Linked(g: Geometry, left: Block, right: Block) {
    && right.address == End(g, left)
    && !(left.free && right.free)
  }

  /** The blocks tile [start, end) exactly and no two neighbours are both free. */
  ghost predicate Tiled(g: Geometry, start: nat, end: nat, blocks: seq<Block>)
    requires g.Valid()
  {
    && 0 < |blocks|
    && blocks[0].address == start
    && End(g, blocks[|blocks| - 1]) == end
    && (forall i :: 0 <= i < |blocks| ==> BlockOk(g, blocks[i]))
    && (forall i :: 0 < i < |blocks| ==> Linked(g, blocks[i - 1], blocks[i]))
  }

  function Initial(g: Geometry, start: nat, end: nat): seq<Block>
    requires start + g.blockSize <= end
  {
    [Block(start, end - start - g.blockSize, 0, true)]
  }

  // ---------------------------------------------------------- specification

  function FirstFit(blocks: seq<Block>, required: nat): (i: nat)
    ensures i <= |blocks|
    ensures i < |blocks| ==> blocks[i].free && required <= blocks[i].capacity
    ensures forall j :: 0 <= j < i ==> !(blocks[j].free && required <= blocks[j].capacity)
  {
    if blocks == [] || (blocks[0].free && required <= blocks[0].capacity) then 0
    else 1 + FirstFit(blocks[1..], required)
  }

  /** The block, or the two blocks, a chosen free block is replaced by. */
  function Carve(g: Geometry, b: Block, required: nat, size: nat): seq<Block>
    requires g.Valid() && required <= b.capacity
  {
    if b.capacity - required >= SplitThreshold(g) then
      [Block(b.address, required, Clamp(size), false),
       Block(b.address + g.blockSize + required, b.capacity - required - g.blockSize, 0, true)]
    else
      [Block(b.address, b.capacity, Clamp(size), false)]
  }

  function Place(g: Geometry, blocks: seq<Block>, i: nat, required: nat, size: nat): seq<Block>
    requires g.Valid() && i < |blocks| && required <= blocks[i].capacity
  {
    blocks[..i] + Carve(g, blocks[i], required, size) + blocks[i + 1..]
  }

  /** Index of the block that owns a payload address, or the block count. */
  function Owner(g: Geometry, blocks: seq<Block>, memory: nat): (i: nat)
    requires g.Valid()
    ensures i <= |blocks|
    ensures i < |blocks| ==> Payload(g, blocks[i]) == memory
    ensures forall j :: 0 <= j < i ==> Payload(g, blocks[j]) != memory
  {
    if blocks == [] || Payload(g, blocks[0]) == memory then 0
    else 1 + Owner(g, blocks[1..], memory)
  }

  function Absorb(g: Geometry, left: Block, right: Block): Block {
    left.(capacity := left.capacity + g.blockSize + right.capacity)
  }

  /** Release of block i: first swallow a free successor, then be swallowed by a
      free predecessor. */
  function MergeNext(g: Geometry, blocks: seq<Block>, i: nat): (r: seq<Block>)
    requires i < |blocks|
    ensures i < |r|
  {
    var b := blocks[i].(requested := 0, free := true);
    if i + 1 < |blocks| && blocks[i + 1].free then
      blocks[..i] + [Absorb(g, b, blocks[i + 1])] + blocks[i + 2..]
    else blocks[i := b]
  }

  function MergePrevious(g: Geometry, blocks: seq<Block>, i: nat): seq<Block>
    requires i < |blocks|
  {
    if 0 < i && blocks[i - 1].free then
      blocks[..i - 1] + [Absorb(g, blocks[i - 1], blocks[i])] + blocks[i + 1..]
    else blocks
  }

  function ReleaseAt(g: Geometry, blocks: seq<Block>, i: nat): seq<Block>
    requires i < |blocks|
  {
    MergePrevious(g, MergeNext(g, blocks, i), i)
  }

  datatype Op = Allocate(size: nat, alignment: nat) | Deallocate(memory: nat)

  function UsableAlignment(g: Geometry, alignment: nat): bool {
    var a := if alignment < g.pointerAlignment then g.pointerAlignment else alignment;
    IsPowerOfTwo(a) && a <= g.alignment
  }

  function AllocateResult(g: Geometry, blocks: seq<Block>, op: Op): Option<nat>
    requires g.Valid() && op.Allocate?
  {
    var required := Required(g, op.size);
    if !UsableAlignment(g, op.alignment) || required.None? then None
    else
      var i := FirstFit(blocks, required.value);
      if i == |blocks| then None else Some(Payload(g, blocks[i]))
  }

  function Apply(g: Geometry, blocks: seq<Block>, op: Op): seq<Block>
    requires g.Valid()
  {
    match op
    case Allocate(size, alignment) =>
      var required := Required(g, size);
      if !UsableAlignment(g, alignment) || required.None? then blocks
      else
        var i := FirstFit(blocks, required.value);
        if i == |blocks| then blocks else Place(g, blocks, i, required.value, size)
    case Deallocate(memory) =>
      var i := Owner(g, blocks, memory);
      if i == |blocks| || blocks[i].free then blocks else ReleaseAt(g, blocks, i)
  }

  function Run(g: Geometry, blocks: seq<Block>, ops: seq<Op>): seq<Block>
    requires g.Valid()
  {
    if ops == [] then blocks
    else Apply(g, Run(g, blocks, ops[..|ops| - 1]), ops[|ops| - 1])
  }

  // ----------------------------------------------------------- the allocator

  class Arena {
    const g: Geometry
    const start: nat
    const end: nat
    var blocks: seq<Block>

    ghost predicate Valid()
      reads this
    {
      g.Valid() && end <= g.sizeMax && Tiled(g, start, end, blocks)
    }

    /** Initialisation of the first block behind the session object. */
    constructor (g: Geometry, start: nat, end: nat)
      requires g.Valid() && start % g.alignment == 0
      requires start + SplitThreshold(g) <= end <= g.sizeMax
      ensures Valid()
      ensures this.g == g && this.start == start && this.end == end
      ensures blocks == Initial(g, start, end)
    {
      this.g, this.start, this.end := g, start, end;
      blocks := [Block(start, end - start - g.blockSize, 0, true)];
    }

    method Allocate(size: nat, alignment: nat) returns (payload: Option<nat>)
      requires Valid()
      modifies this
      ensures Valid()
      ensures blocks == Apply(g, old(blocks), Op.Allocate(size, alignment))
      ensures payload == AllocateResult(g, old(blocks), Op.Allocate(size, alignment))
    {
      var fit := Required(g, size);
      if !UsableAlignment(g, alignment) || fit.None? {
        return None;
      }
      var required := fit.value;
      var i := 0;
      while i < |blocks| && (!blocks[i].free || blocks[i].capacity < required)
        invariant 0 <= i <= |blocks|
        invariant forall j :: 0 <= j < i ==> !(blocks[j].free && required <= blocks[j].capacity)
      {
        i := i + 1;
      }
      FirstFitIs(blocks, required, i);
      if i == |blocks| {
        return None;
      }
      payload := Some(Payload(g, blocks[i]));
      PlaceKeepsTiling(g, start, end, blocks, i, size);
      Occupy(i, required, size);
    }

    /** Cut block i down to `required` bytes if the rest can stand alone, and
        mark it used. */
    method Occupy(i: nat, required: nat, size: nat)
      requires g.Valid() && i < |blocks| && required <= blocks[i].capacity
      modifies this
      ensures blocks == Place(g, old(blocks), i, required, size)
    {
      var block := blocks[i];
      var remaining := block.capacity - required;
      if remaining >= g.blockSize + Prefix(g) + g.alignment {
        var next := Block(block.address + g.blockSize + required, remaining - g.blockSize, 0, true);
        block := block.(capacity := required);
        blocks := blocks[..i] + [block, next] + blocks[i + 1..];
      }
      blocks := blocks[i := block.(requested := if size == 0 then 1 else size, free := false)];
    }

    method Deallocate(memory: nat)
      requires Valid()
      modifies this
      ensures Valid()
      ensures blocks == Apply(g, old(blocks), Op.Deallocate(memory))
    {
      ApplyKeepsTiling(g, start, end, blocks, Op.Deallocate(memory));
      var i := 0;
      while i < |blocks| && Payload(g, blocks[i]) != memory
        invariant 0 <= i <= |blocks|
        invariant forall j :: 0 <= j < i ==> Payload(g, blocks[j]) != memory
      {
        i := i + 1;
      }
      OwnerIs(g, blocks, memory, i);
      if i == |blocks| || blocks[i].free {
        return;
      }
      blocks := blocks[i := blocks[i].(requested := 0, free := true)];
      if i + 1 < |blocks| && blocks[i + 1].free {
        blocks := blocks[..i] + [Absorb(g, blocks[i], blocks[i + 1])] + blocks[i + 2..];
      }
      assert blocks == MergeNext(g, old(blocks), i);
      if 0 < i && blocks[i - 1].free {
        blocks := blocks[..i - 1] + [Absorb(g, blocks[i - 1], blocks[i])] + blocks[i + 1..];
      }
    }
  }

  lemma {:induction false} FirstFitIs(blocks: seq<Block>, required: nat, i: nat)
    requires i <= |blocks|
    requires i < |blocks| ==> blocks[i].free && required <= blocks[i].capacity
    requires forall j :: 0 <= j < i ==> !(blocks[j].free && required <= blocks[j].capacity)
    ensures FirstFit(blocks, required) == i
  {
    if i != 0 {
      assert !(blocks[0].free && required <= blocks[0].capacity);
      FirstFitIs(blocks[1..], required, i - 1);
    }
  }

  lemma {:induction false} OwnerIs(g: Geometry, blocks: seq<Block>, memory: nat, i: nat)
    requires g.Valid() && i <= |blocks|
    requires i < |blocks| ==> Payload(g, blocks[i]) == memory
    requires forall j :: 0 <= j < i ==> Payload(g, blocks[j]) != memory
    ensures Owner(g, blocks, memory) == i
  {
    if i != 0 {
      OwnerIs(g, blocks[1..], memory, i - 1);
    }
  }

  // -------------------------------------------------- every step keeps tiling

  lemma RequiredIsAligned(g: Geometry, size: nat)
    requires g.Valid() && Required(g, size).Some?
    ensures (g.blockSize + Prefix(g)) % g.alignment == 0
    ensures (g.blockSize + Required(g, size).value) % g.alignment == 0
    ensures Required(g, size).value == Prefix(g) + RoundUp(Clamp(size), g.alignment)
    ensures Prefix(g) + g.alignment <= Required(g, size).value
    ensures AllocationCost(g, size) == g.blockSize + Required(g, size).value
    ensures SplitThreshold(g) <= AllocationCost(g, size)
  {
    var a := g.alignment;
    RoundUpFacts(g.blockSize + g.headerSize, a);
    RoundUpFacts(Clamp(size), a);
    AddMultiples(RoundUp(g.blockSize + g.headerSize, a), RoundUp(Clamp(size), a), a);
  }

  lemma PlaceKeepsTiling(g: Geometry, start: nat, end: nat, blocks: seq<Block>, i: nat, size: nat)
    requires g.Valid() && Tiled(g, start, end, blocks) && i < |blocks| && blocks[i].free
    requires Required(g, size).Some? && Required(g, size).value <= blocks[i].capacity
    ensures Tiled(g, start, end, Place(g, blocks, i, Required(g, size).value, size))
  {
    var required := Required(g, size).value;
    var b := blocks[i];
    RequiredIsAligned(g, size);
    var r := Place(g, blocks, i, required, size);
    var carved := Carve(g, b, required, size);
    var m := |carved|;
    assert BlockOk(g, b);
    if m == 2 {
      AddMultiples(b.address, g.blockSize + required, g.alignment);
    }
    forall k | 0 <= k < |r| ensures BlockOk(g, r[k]) {
      if k < i { assert r[k] == blocks[k]; }
      else if k < i + m { assert r[k] == carved[k - i]; }
      else { assert r[k] == blocks[k - m + 1]; }
    }
    forall k | 0 < k < |r| ensures Linked(g, r[k - 1], r[k]) {
      if k <= i { assert Linked(g, blocks[k - 1], blocks[k]); }
      else if k < i + m {}
      else { assert Linked(g, blocks[k - m], blocks[k - m + 1]); }
    }
  }

  /** Tiling in which the pair (hole - 1, hole) may both be free. */
  ghost predicate TiledBut(g: Geometry, start: nat, end: nat, blocks: seq<Block>, hole: nat)
    requires g.Valid()
  {
    && hole < |blocks|
    && blocks[0].address == start
    && End(g, blocks[|blocks| - 1]) == end
    && (forall i :: 0 <= i < |blocks| ==> BlockOk(g, blocks[i]))
    && (forall i :: 0 < i < |blocks| && i != hole ==> Linked(g, blocks[i - 1], blocks[i]))
    && (0 < hole ==> blocks[hole].address == End(g, blocks[hole - 1]))
  }

  lemma MergeNextTiles(g: Geometry, start: nat, end: nat, blocks: seq<Block>, i: nat)
    requires g.Valid() && Tiled(g, start, end, blocks) && i < |blocks| && !blocks[i].free
    ensures TiledBut(g, start, end, MergeNext(g, blocks, i), i)
    ensures MergeNext(g, blocks, i)[i].free
  {
    var r := MergeNext(g, blocks, i);
    var m := |blocks| - |r|;
    assert BlockOk(g, blocks[i]);
    if m == 1 { assert Linked(g, blocks[i], blocks[i + 1]); }
    if 0 < i { assert Linked(g, blocks[i - 1], blocks[i]); }
    forall k | 0 <= k < |r| ensures BlockOk(g, r[k]) {
      if k > i { assert r[k] == blocks[k + m]; }
    }
    forall k | 0 < k < |r| && k != i ensures Linked(g, r[k - 1], r[k]) {
      if k < i { assert Linked(g, blocks[k - 1], blocks[k]); }
      else { assert Linked(g, blocks[k + m - 1], blocks[k + m]); }
    }
  }

  lemma MergePreviousTiles(g: Geometry, start: nat, end: nat, blocks: seq<Block>, i: nat)
    requires g.Valid() && TiledBut(g, start, end, blocks, i) && blocks[i].free
    ensures Tiled(g, start, end, MergePrevious(g, blocks, i))
  {
    var r := MergePrevious(g, blocks, i);
    if |r| < |blocks| {
      forall k | 0 <= k < |r| ensures BlockOk(g, r[k]) {
        if k > i - 1 { assert r[k] == blocks[k + 1]; }
      }
      forall k | 0 < k < |r| ensures Linked(g, r[k - 1], r[k]) {
        if k < i { assert Linked(g, blocks[k - 1], blocks[k]); }
        else { assert Linked(g, blocks[k], blocks[k + 1]); }
      }
    }
  }

  lemma ApplyKeepsTiling(g: Geometry, start: nat, end: nat, blocks: seq<Block>, op: Op)
    requires g.Valid() && Tiled(g, start, end, blocks)
    ensures Tiled(g, start, end, Apply(g, blocks, op))
  {
    match op
    case Allocate(size, alignment) =>
      var required := Required(g, size);
      if UsableAlignment(g, alignment) && required.Some? {
        var i := FirstFit(blocks, required.value);
        if i < |blocks| { PlaceKeepsTiling(g, start, end, blocks, i, size); }
      }
    case Deallocate(memory) =>
      var i := Owner(g, blocks, memory);
      if i < |blocks| && !blocks[i].free {
        MergeNextTiles(g, start, end, blocks, i);
        MergePreviousTiles(g, start, end, MergeNext(g, blocks, i), i);
      }
  }

  lemma {:induction false} RunKeepsTiling(g: Geometry, start: nat, end: nat, blocks: seq<Block>, ops: seq<Op>)
    requires g.Valid() && Tiled(g, start, end, blocks)
    ensures Tiled(g, start, end, Run(g, blocks, ops))
  {
    if ops != [] {
      var before := ops[..|ops| - 1];
      RunKeepsTiling(g, start, end, blocks, before);
      ApplyKeepsTiling(g, start, end, Run(g, blocks, before), ops[|ops| - 1]);
    }
  }

  lemma InitialIsTiled(g: Geometry, start: nat, end: nat)
    requires g.Valid() && start % g.alignment == 0 && start + SplitThreshold(g) <= end
    ensures Tiled(g, start, end, Initial(g, start, end))
  {}

  // ------------------------------------------------------- what callers hold

  ghost function Used(blocks: seq<Block>): set<Block> {
    set b | b in blocks && !b.free
  }

  /** The payloads handed out and not yet released, with the size asked for. */
  ghost function Live(g: Geometry, blocks: seq<Block>): set<(nat, nat)>
    requires g.Valid()
  {
    set b | b in Used(blocks) :: (Payload(g, b), b.requested)
  }

  lemma {:induction false} Ordered(g: Geometry, start: nat, end: nat, blocks: seq<Block>, i: nat, j: nat)
    requires g.Valid() && Tiled(g, start, end, blocks) && i < j < |blocks|
    ensures End(g, blocks[i]) <= blocks[j].address
  {
    assert Linked(g, blocks[j - 1], blocks[j]);
    if i < j - 1 { Ordered(g, start, end, blocks, i, j - 1); }
  }

  lemma Distinct(g: Geometry, start: nat, end: nat, blocks: seq<Block>)
    requires g.Valid() && Tiled(g, start, end, blocks)
    ensures forall i, j :: 0 <= i < |blocks| && 0 <= j < |blocks| && blocks[i].address == blocks[j].address ==> i == j
  {
    forall i, j | 0 <= i < j < |blocks| ensures blocks[i].address < blocks[j].address {
      Ordered(g, start, end, blocks, i, j);
    }
  }

  lemma UsedConcat(a: seq<Block>, b: seq<Block>)
    ensures Used(a + b) == Used(a) + Used(b)
  {}

  lemma PlaceUsed(g: Geometry, blocks: seq<Block>, i: nat, required: nat, size: nat)
    requires g.Valid() && i < |blocks| && blocks[i].free && required <= blocks[i].capacity
    ensures Used(Place(g, blocks, i, required, size)) == Used(blocks) + {Carve(g, blocks[i], required, size)[0]}
  {
    var carved := Carve(g, blocks[i], required, size);
    assert blocks == blocks[..i] + [blocks[i]] + blocks[i + 1..];
    UsedConcat(blocks[..i] + [blocks[i]], blocks[i + 1..]);
    UsedConcat(blocks[..i], [blocks[i]]);
    UsedConcat(blocks[..i] + carved, blocks[i + 1..]);
    UsedConcat(blocks[..i], carved);
    assert Used(carved) == {carved[0]};
  }

  lemma MergeNextUsed(g: Geometry, blocks: seq<Block>, i: nat)
    requires i < |blocks| && !blocks[i].free
    requires forall j :: 0 <= j < |blocks| && j != i ==> blocks[j] != blocks[i]
    ensures Used(MergeNext(g, blocks, i)) == Used(blocks) - {blocks[i]}
  {
    var b := blocks[i].(requested := 0, free := true);
    var head, tail := blocks[..i], blocks[i + 1..];
    assert blocks == head + [blocks[i]] + tail;
    UsedConcat(head + [blocks[i]], tail);
    UsedConcat(head, [blocks[i]]);
    assert blocks[i] !in Used(head) + Used(tail);
    if i + 1 < |blocks| && blocks[i + 1].free {
      var merged := Absorb(g, b, blocks[i + 1]);
      assert tail == [blocks[i + 1]] + blocks[i + 2..];
      UsedConcat([blocks[i + 1]], blocks[i + 2..]);
      UsedConcat(head + [merged], blocks[i + 2..]);
      UsedConcat(head, [merged]);
    } else {
      assert blocks[i := b] == head + [b] + tail;
      UsedConcat(head + [b], tail);
      UsedConcat(head, [b]);
    }
  }

  lemma MergePreviousUsed(g: Geometry, blocks: seq<Block>, i: nat)
    requires i < |blocks| && blocks[i].free
    ensures Used(MergePrevious(g, blocks, i)) == Used(blocks)
  {
    if 0 < i && blocks[i - 1].free {
      var head, pair, tail := blocks[..i - 1], [blocks[i - 1], blocks[i]], blocks[i + 1..];
      var merged := Absorb(g, blocks[i - 1], blocks[i]);
      assert blocks == head + pair + tail;
      UsedConcat(head + pair, tail);
      UsedConcat(head, pair);
      UsedConcat(head + [merged], tail);
      UsedConcat(head, [merged]);
    }
  }

  /** A successful allocation adds exactly one live payload and disturbs none. */
  lemma AllocateAddsOnePayload(g: Geometry, start: nat, end: nat, blocks: seq<Block>, op: Op)
    requires g.Valid() && Tiled(g, start, end, blocks) && op.Allocate?
    ensures AllocateResult(g, blocks, op).None? ==> Apply(g, blocks, op) == blocks
    ensures var r := AllocateResult(g, blocks, op);
            r.Some? ==>
              && Live(g, Apply(g, blocks, op)) == Live(g, blocks) + {(r.value, Clamp(op.size))}
              && forall p :: p in Live(g, blocks) ==> p.0 != r.value
  {
    var r := AllocateResult(g, blocks, op);
    if r.Some? {
      var required := Required(g, op.size).value;
      var i := FirstFit(blocks, required);
      PlaceUsed(g, blocks, i, required, op.size);
      Distinct(g, start, end, blocks);
      assert forall b :: b in Used(blocks) ==> b.address != blocks[i].address;
    }
  }

  /** Releasing an address removes that payload and no other; an address that is
      not live changes nothing at all. */
  lemma DeallocateRemovesOnePayload(g: Geometry, start: nat, end: nat, blocks: seq<Block>, memory: nat)
    requires g.Valid() && Tiled(g, start, end, blocks)
    ensures Live(g, Apply(g, blocks, Deallocate(memory))) == set p | p in Live(g, blocks) && p.0 != memory
    ensures (forall p :: p in Live(g, blocks) ==> p.0 != memory) ==> Apply(g, blocks, Deallocate(memory)) == blocks
  {
    var i := Owner(g, blocks, memory);
    Distinct(g, start, end, blocks);
    if i < |blocks| {
      assert forall b :: b in blocks && Payload(g, b) == memory ==> b == blocks[i];
      if !blocks[i].free {
        MergeNextUsed(g, blocks, i);
        MergeNextTiles(g, start, end, blocks, i);
        MergePreviousUsed(g, MergeNext(g, blocks, i), i);
        assert blocks[i] in Used(blocks);
        assert (Payload(g, blocks[i]), blocks[i].requested) in Live(g, blocks);
      }
    } else {
      assert forall b :: b in blocks ==> Payload(g, b) != memory;
    }
  }

  /** In every reachable state live payloads are aligned, lie behind their own
      header inside the arena, and their padded extents do not meet. */
  lemma LivePayloadsAreAlignedAndDisjoint(g: Geometry, start: nat, end: nat, blocks: seq<Block>, i: nat, j: nat)
    requires g.Valid() && Tiled(g, start, end, blocks)
    requires i < j < |blocks| && !blocks[i].free && !blocks[j].free
    ensures Payload(g, blocks[i]) % g.alignment == 0 && Payload(g, blocks[j]) % g.alignment == 0
    ensures start + g.blockSize + g.headerSize <= Payload(g, blocks[i])
    ensures Payload(g, blocks[i]) + RoundUp(blocks[i].requested, g.alignment)
         <= blocks[j].address
         <= Payload(g, blocks[j]) - g.blockSize - g.headerSize
    ensures Payload(g, blocks[j]) + RoundUp(blocks[j].requested, g.alignment) <= end
  {
    RoundUpFacts(g.blockSize + g.headerSize, g.alignment);
    assert BlockOk(g, blocks[i]) && BlockOk(g, blocks[j]);
    AddMultiples(blocks[i].address, g.blockSize + Prefix(g), g.alignment);
    AddMultiples(blocks[j].address, g.blockSize + Prefix(g), g.alignment);
    Ordered(g, start, end, blocks, i, j);
    if 0 < i { Ordered(g, start, end, blocks, 0, i); }
    if j < |blocks| - 1 { Ordered(g, start, end, blocks, j, |blocks| - 1); }
  }

  lemma TwoBlocksAreNotBothFree(g: Geometry, start: nat, end: nat, blocks: seq<Block>)
    requires g.Valid() && Tiled(g, start, end, blocks) && 1 < |blocks|
    ensures !blocks[0].free || !blocks[1].free
  {
    assert Linked(g, blocks[0], blocks[1]);
  }

  /** Once nothing is live, the arena is the single block it started as. */
  lemma NothingLiveIsInitial(g: Geometry, start: nat, end: nat, ops: seq<Op>)
    requires g.Valid() && start % g.alignment == 0 && start + SplitThreshold(g) <= end
    requires Live(g, Run(g, Initial(g, start, end), ops)) == {}
    ensures Run(g, Initial(g, start, end), ops) == Initial(g, start, end)
  {
    InitialIsTiled(g, start, end);
    RunKeepsTiling(g, start, end, Initial(g, start, end), ops);
    var blocks := Run(g, Initial(g, start, end), ops);
    assert forall b :: b in Used(blocks) ==> (Payload(g, b), b.requested) in Live(g, blocks);
    assert forall k :: 0 <= k < |blocks| && !blocks[k].free ==> blocks[k] in Used(blocks);
    if 1 < |blocks| {
      TwoBlocksAreNotBothFree(g, start, end, blocks);
      assert false;
    }
    assert BlockOk(g, blocks[0]);
  }

  // ------------------------------------------------------ budget of a run

  function OpCost(g: Geometry, op: Op): nat
    requires g.Valid()
  {
    if op.Allocate? && UsableAlignment(g, op.alignment) then AllocationCost(g, op.size) else 0
  }

  function Spent(g: Geometry, ops: seq<Op>): nat
    requires g.Valid()
  {
    if ops == [] then 0 else Spent(g, ops[..|ops| - 1]) + OpCost(g, ops[|ops| - 1])
  }

  /** Either the last block is free and still holds the unspent budget, or the
      unspent budget is below the price of any allocation. */
  ghost predicate TailHoldsBudget(g: Geometry, start: nat, end: nat, blocks: seq<Block>, spent: nat)
    requires g.Valid() && 0 < |blocks|
  {
    var last := blocks[|blocks| - 1];
    || end - start - spent < SplitThreshold(g)
    || (last.free && end - start - spent <= g.blockSize + last.capacity)
  }

  lemma {:induction false} AllocationKeepsBudget(
    g: Geometry, start: nat, end: nat, blocks: seq<Block>, spent: nat, size: nat, alignment: nat)
    requires g.Valid() && end <= g.sizeMax && Tiled(g, start, end, blocks)
    requires TailHoldsBudget(g, start, end, blocks, spent)
    ensures
      var op := Allocate(size, alignment);
      |Apply(g, blocks, op)| > 0 && TailHoldsBudget(g, start, end, Apply(g, blocks, op), spent + OpCost(g, op))
  {
    if UsableAlignment(g, alignment) && Required(g, size).Some? {
      RequiredIsAligned(g, size);
    }
  }

  /** A free last block stays free and does not shrink. */
  ghost predicate TailGrows(before: seq<Block>, after: seq<Block>) {
    && 0 < |before| && 0 < |after|
    && (before[|before| - 1].free ==>
      after[|after| - 1].free && before[|before| - 1].capacity <= after[|after| - 1].capacity)
  }

  lemma {:induction false} MergesGrowTail(g: Geometry, blocks: seq<Block>, i: nat)
    requires i < |blocks|
    ensures TailGrows(blocks, MergeNext(g, blocks, i)) && MergeNext(g, blocks, i)[i].free
    ensures blocks[i].free ==> TailGrows(blocks, MergePrevious(g, blocks, i))
  {
  }

  lemma {:induction false} ReleaseKeepsBudget(
    g: Geometry, start: nat, end: nat, blocks: seq<Block>, spent: nat, memory: nat)
    requires g.Valid() && 0 < |blocks| && TailHoldsBudget(g, start, end, blocks, spent)
    ensures
      var after := Apply(g, blocks, Deallocate(memory));
      |after| > 0 && TailHoldsBudget(g, start, end, after, spent)
  {
    var i := Owner(g, blocks, memory);
    if i < |blocks| && !blocks[i].free {
      MergesGrowTail(g, blocks, i);
      MergesGrowTail(g, MergeNext(g, blocks, i), i);
    }
  }

  lemma StepKeepsBudget(g: Geometry, start: nat, end: nat, blocks: seq<Block>, spent: nat, op: Op)
    requires g.Valid() && end <= g.sizeMax && Tiled(g, start, end, blocks)
    requires TailHoldsBudget(g, start, end, blocks, spent)
    ensures Tiled(g, start, end, Apply(g, blocks, op))
    ensures TailHoldsBudget(g, start, end, Apply(g, blocks, op), spent + OpCost(g, op))
  {
    ApplyKeepsTiling(g, start, end, blocks, op);
    match op
    case Allocate(size, alignment) => AllocationKeepsBudget(g, start, end, blocks, spent, size, alignment);
    case Deallocate(memory) => ReleaseKeepsBudget(g, start, end, blocks, spent, memory);
  }

  lemma {:induction false} RunKeepsBudget(g: Geometry, start: nat, end: nat, ops: seq<Op>)
    requires g.Valid() && start % g.alignment == 0 && start + SplitThreshold(g) <= end <= g.sizeMax
    ensures Tiled(g, start, end, Run(g, Initial(g, start, end), ops))
    ensures TailHoldsBudget(g, start, end, Run(g, Initial(g, start, end), ops), Spent(g, ops))
  {
    if ops == [] {
      InitialIsTiled(g, start, end);
    } else {
      var before := ops[..|ops| - 1];
      RunKeepsBudget(g, start, end, before);
      StepKeepsBudget(g, start, end, Run(g, Initial(g, start, end), before), Spent(g, before), ops[|ops| - 1]);
    }
  }

  lemma InexpressibleCostsEverything(g: Geometry, size: nat)
    requires g.Valid() && Required(g, size).None?
    ensures g.sizeMax <= AllocationCost(g, size)
  {
    RoundUpFacts(g.blockSize + g.headerSize, g.alignment);
  }

  /** No interleaving of allocations and releases can fail an allocation while
      the summed cost of every allocation ever made still fits the arena. */
  lemma AllocationWithinBudgetSucceeds(g: Geometry, start: nat, end: nat, ops: seq<Op>, op: Op)
    requires g.Valid() && 0 < start && start % g.alignment == 0 && start + SplitThreshold(g) <= end <= g.sizeMax
    requires op.Allocate? && UsableAlignment(g, op.alignment)
    requires Spent(g, ops) + AllocationCost(g, op.size) <= end - start
    ensures AllocateResult(g, Run(g, Initial(g, start, end), ops), op).Some?
  {
    RunKeepsBudget(g, start, end, ops);
    var blocks := Run(g, Initial(g, start, end), ops);
    if Required(g, op.size).None? {
      InexpressibleCostsEverything(g, op.size);
      assert false;
    }
    RequiredIsAligned(g, op.size);
    var last := |blocks| - 1;
    assert blocks[last].free && Required(g, op.size).value <= blocks[last].capacity;
  }
}
