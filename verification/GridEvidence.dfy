/** The ring of onset bins behind the global grid, and the search for evidence:
  the longest stretch of complete bins the ring still holds. */
module GridEvidence {
  import opened Common

  const FRAMES_PER_BIN: nat := 2048
  const UINT32_MAX: nat := 0xFFFF_FFFF
  const UINT64_MAX: nat := 0xFFFF_FFFF_FFFF_FFFF

  datatype Bin = Bin(occupied: bool, index: nat, samples: nat, sum: nat)

  const EMPTY_BIN := Bin(false, 0, 0, 0)

  type Ring = bins: seq<Bin> | 0 < |bins| witness [EMPTY_BIN]

  /** Each bin lives in the slot its index selects. */
  ghost predicate RingOk(ring: Ring) {
    forall slot :: 0 <= slot < |ring| && ring[slot].occupied ==>
      ring[slot].index % |ring| == slot && ring[slot].index <= UINT32_MAX
  }

  function BinAt(ring: Ring, index: nat): Option<Bin> {
    var bin := ring[index % |ring|];
    if bin.occupied && bin.index == index then Some(bin) else None
  }

  /** Samples a bin needs: a full one, or the stub before a signalled end. */
  function ExpectedSamples(finalEnd: Option<nat>, index: nat): (samples: nat)
    ensures samples <= FRAMES_PER_BIN
    ensures finalEnd.Some? && index <= UINT64_MAX / FRAMES_PER_BIN && 0 < samples ==>
      index * FRAMES_PER_BIN + samples <= finalEnd.value
    ensures finalEnd.None? ==> (0 < samples <==> index <= UINT64_MAX / FRAMES_PER_BIN)
  {
    if index > UINT64_MAX / FRAMES_PER_BIN then 0
    else
      var first := index * FRAMES_PER_BIN;
      if finalEnd.None? || first + FRAMES_PER_BIN <= finalEnd.value then FRAMES_PER_BIN
      else if first >= finalEnd.value then 0
      else finalEnd.value - first
  }

  /** The bin is in the ring with every sample it needs. */
  predicate Complete(ring: Ring, finalEnd: Option<nat>, index: nat) {
    var bin := BinAt(ring, index);
    var expected := ExpectedSamples(finalEnd, index);
    bin.Some? && expected != 0 && bin.value.samples == expected
  }

  /** [first, end) is a non-empty stretch of complete bins. */
  ghost predicate IsRun(ring: Ring, finalEnd: Option<nat>, first: nat, end: nat) {
    first < end && forall i :: first <= i < end ==> Complete(ring, finalEnd, i)
  }

  /** [first, end) beats [a, b): longer, or as long and not later. */
  predicate NotWorse(first: nat, end: nat, a: nat, b: nat) {
    b - a < end - first || (b - a == end - first && first <= a)
  }

  /** One slot holds one bin. */
  lemma SlotIsExclusive(ring: Ring, finalEnd: Option<nat>, i: nat, j: nat)
    requires i != j && i % |ring| == j % |ring|
    ensures !Complete(ring, finalEnd, i) || !Complete(ring, finalEnd, j)
  {
  }

  /** A run never outgrows the ring: its ends would share a slot. */
  lemma RunFitsRing(ring: Ring, finalEnd: Option<nat>, first: nat, end: nat)
    requires IsRun(ring, finalEnd, first, end)
    ensures end - first <= |ring|
  {
    SameSlot(first, |ring|);
    SlotIsExclusive(ring, finalEnd, first, first + |ring|);
  }

  lemma SameSlot(index: nat, capacity: nat)
    requires 0 < capacity
    ensures (index + capacity) % capacity == index % capacity
  {
    DivisionIs(index + capacity, capacity, index / capacity + 1, index % capacity);
  }

  datatype Evidence = Evidence(first: nat, end: nat)

  ghost predicate IsBest(ring: Ring, finalEnd: Option<nat>, e: Evidence) {
    && IsRun(ring, finalEnd, e.first, e.end)
    && forall a: nat, b: nat :: IsRun(ring, finalEnd, a, b) ==> NotWorse(e.first, e.end, a, b)
  }

  /** There is only one answer the search may give. */
  lemma BestIsUnique(ring: Ring, finalEnd: Option<nat>, e: Evidence, f: Evidence)
    requires IsBest(ring, finalEnd, e) && IsBest(ring, finalEnd, f)
    ensures e == f
  {
    assert NotWorse(e.first, e.end, f.first, f.end) && NotWorse(f.first, f.end, e.first, e.end);
  }

  /** Bounds of the complete bins the ring holds. */
  method CompleteBounds(bins: array<Bin>, finalEnd: Option<nat>) returns (have: bool, minimum: nat, maximum: nat)
    requires 0 < bins.Length && RingOk(bins[..])
    ensures have ==> Complete(bins[..], finalEnd, minimum) && Complete(bins[..], finalEnd, maximum)
    ensures forall i: nat :: Complete(bins[..], finalEnd, i) ==> have && minimum <= i <= maximum
  {
    minimum, maximum, have := UINT64_MAX, 0, false;
    ghost var ring: Ring := bins[..];
    for slot := 0 to bins.Length
      invariant have ==> Complete(ring, finalEnd, minimum) && Complete(ring, finalEnd, maximum)
      invariant !have ==> minimum == UINT64_MAX
      invariant forall i: nat :: Complete(ring, finalEnd, i) && i % |ring| < slot ==> have && minimum <= i <= maximum
    {
      var index := bins[slot].index;
      assert bins[slot].occupied ==> index % |ring| == slot;
      if bins[slot].occupied && Complete(bins[..], finalEnd, index) {
        if index < minimum { minimum := index; }
        if !have || index > maximum { maximum := index; }
        have := true;
      }
    }
  }

  /** Everything known about the runs that end by `index`. */
  ghost predicate Scanned(ring: Ring, finalEnd: Option<nat>, index: nat, from: nat, bestFirst: nat, bestEnd: nat) {
    && bestFirst <= bestEnd <= index && bestFirst <= from
    && (bestFirst < bestEnd ==> IsRun(ring, finalEnd, bestFirst, bestEnd))
    && forall a: nat, b: nat :: IsRun(ring, finalEnd, a, b) && b <= index ==>
         from <= a || NotWorse(bestFirst, bestEnd, a, b)
  }

  method FindEvidence(bins: array<Bin>, finalEnd: Option<nat>) returns (found: Option<Evidence>)
    requires 0 < bins.Length && RingOk(bins[..])
    ensures found.Some? ==> IsBest(bins[..], finalEnd, found.value)
    ensures found.Some? ==> found.value.end - found.value.first <= bins.Length
    ensures found.None? ==> forall i :: !Complete(bins[..], finalEnd, i)
  {
    ghost var ring: Ring := bins[..];
    var have, minimum, maximum := CompleteBounds(bins, finalEnd);
    if !have {
      return None;
    }
    forall a: nat, b: nat | IsRun(ring, finalEnd, a, b)
      ensures minimum <= a && b <= maximum + 1
    {
      assert Complete(ring, finalEnd, a) && Complete(ring, finalEnd, b - 1);
    }
    var currentFirst: nat, bestFirst: nat, bestEnd: nat, inRun := 0, 0, 0, false;
    for index := minimum to maximum + 1
      invariant minimum <= index
      invariant inRun ==> IsRun(ring, finalEnd, currentFirst, index)
      invariant !inRun && minimum < index ==> !Complete(ring, finalEnd, index - 1)
      invariant inRun ==> minimum <= currentFirst && (currentFirst == minimum || !Complete(ring, finalEnd, currentFirst - 1))
      invariant Scanned(ring, finalEnd, index, if inRun then currentFirst else index, bestFirst, bestEnd)
    {
      if Complete(bins[..], finalEnd, index) {
        if !inRun {
          currentFirst, inRun := index, true;
        }
      } else if inRun {
        if index - currentFirst > bestEnd - bestFirst {
          bestFirst, bestEnd := currentFirst, index;
        }
        inRun := false;
      }
    }
    if inRun && maximum + 1 - currentFirst > bestEnd - bestFirst {
      bestFirst, bestEnd := currentFirst, maximum + 1;
    }
    if bestEnd <= bestFirst {
      return None;
    }
    RunFitsRing(ring, finalEnd, bestFirst, bestEnd);
    return Some(Evidence(bestFirst, bestEnd));
  }

  // ------------------------------------------------------------------ samples

  /** The ring after one sample of the given magnitude at the given frame. A bin
      index the slot does not hold yet evicts whatever the slot held. */
  function WithSample(ring: Ring, index: nat, magnitude: nat): Ring {
    var slot := index % |ring|;
    var held := ring[slot];
    var bin := if held.occupied && held.index == index then held else Bin(true, index, 0, 0);
    ring[slot := bin.(samples := bin.samples + 1, sum := bin.sum + magnitude)]
  }

  datatype SampleOutcome = Stored | LimitExceeded

  method ProcessSample(bins: array<Bin>, frame: nat, magnitude: nat) returns (outcome: SampleOutcome)
    requires 0 < bins.Length && RingOk(bins[..])
    modifies bins
    ensures RingOk(bins[..])
    ensures outcome.LimitExceeded? <==>
      || frame / FRAMES_PER_BIN > UINT32_MAX
      || (var bin := old(BinAt(bins[..], frame / FRAMES_PER_BIN)); bin.Some? && bin.value.samples == UINT32_MAX)
    ensures bins[..] ==
      if outcome.Stored? then WithSample(old(bins[..]), frame / FRAMES_PER_BIN, magnitude) else old(bins[..])
  {
    var index := frame / FRAMES_PER_BIN;
    if index > UINT32_MAX {
      return LimitExceeded;
    }
    var slot := index % bins.Length;
    if !bins[slot].occupied || bins[slot].index != index {
      bins[slot] := Bin(true, index, 0, 0);
    }
    if bins[slot].samples == UINT32_MAX {
      return LimitExceeded;
    }
    bins[slot] := bins[slot].(sum := bins[slot].sum + magnitude, samples := bins[slot].samples + 1);
    return Stored;
  }

  lemma {:induction false} SampleTouchesItsSlot(
    ring: Ring, finalEnd: Option<nat>, index: nat, magnitude: nat, i: nat)
    requires i % |ring| != index % |ring|
    ensures Complete(WithSample(ring, index, magnitude), finalEnd, i) == Complete(ring, finalEnd, i)
  {
  }

  /** A run that does not hold the sample's bin stays a run exactly when it does not
      hold the bin the sample evicts either. */
  lemma {:induction false} SampleKeepsRun(
    ring: Ring, finalEnd: Option<nat>, index: nat, magnitude: nat, first: nat, end: nat)
    requires RingOk(ring) && IsRun(ring, finalEnd, first, end) && !(first <= index < end)
    ensures
      var held := ring[index % |ring|];
      IsRun(WithSample(ring, index, magnitude), finalEnd, first, end) <==>
        !(held.occupied && first <= held.index < end)
  {
    var after, held := WithSample(ring, index, magnitude), ring[index % |ring|];
    forall i | first <= i < end && (!held.occupied || held.index != i)
      ensures Complete(after, finalEnd, i)
    {
      assert Complete(ring, finalEnd, i);
      SampleTouchesItsSlot(ring, finalEnd, index, magnitude, i);
    }
    if held.occupied && first <= held.index < end {
      assert !Complete(after, finalEnd, held.index);
    }
  }

  /** Feeding in order, a bin is complete exactly when its last sample arrived. */
  lemma {:induction false} FullBinIsComplete(ring: Ring, finalEnd: Option<nat>, index: nat, magnitudes: seq<nat>)
    requires index <= UINT64_MAX / FRAMES_PER_BIN
    requires BinAt(ring, index).None?
    ensures
      var fed := Fed(ring, index, magnitudes);
      && (|magnitudes| > 0 ==> BinAt(fed, index) == Some(Bin(true, index, |magnitudes|, Total(magnitudes))))
      && (Complete(fed, finalEnd, index) <==>
            |magnitudes| == ExpectedSamples(finalEnd, index) && |magnitudes| > 0)
    decreases |magnitudes|
  {
    if |magnitudes| > 0 {
      FullBinIsComplete(ring, finalEnd, index, magnitudes[..|magnitudes| - 1]);
    }
  }

  function Fed(ring: Ring, index: nat, magnitudes: seq<nat>): (fed: Ring)
    ensures |fed| == |ring|
    decreases |magnitudes|
  {
    if |magnitudes| == 0 then ring
    else WithSample(Fed(ring, index, magnitudes[..|magnitudes| - 1]), index, magnitudes[|magnitudes| - 1])
  }

  function Total(magnitudes: seq<nat>): nat
    decreases |magnitudes|
  {
    if |magnitudes| == 0 then 0 else Total(magnitudes[..|magnitudes| - 1]) + magnitudes[|magnitudes| - 1]
  }
}
