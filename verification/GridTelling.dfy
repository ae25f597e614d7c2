/** What the numbers in a committed grid say, told from the windows it was merged from
  and the session's own fields; and that a refresh leaves no stale grid behind. */
module GridTelling {
  import opened Common
  import opened GridEvidence
  import opened GridWindows
  import opened GridBeats
  import opened GridCommit
  import opened GridAcceptance
  import opened GridRefresh

  // ------------------------------------------------------------------- evidence

  /** A bin needs exactly the frames of its 2048 that lie before a signalled end. */
  lemma {:induction false} BinNeedsItsFrames(finalEnd: Option<nat>, index: nat, frame: nat)
    requires index <= 0xFFFF_FFFF_FFFF_FFFF / 2048
    ensures index * 2048 <= frame < index * 2048 + ExpectedSamples(finalEnd, index) <==>
      index * 2048 <= frame < (index + 1) * 2048 && (finalEnd.Some? ==> frame < finalEnd.value)
  {
  }

  /** The energy of a bin is its mean magnitude over full scale, and none without samples. */
  lemma {:induction false} EnergyIsMean(ring: Ring, index: nat)
    ensures
      match BinAt(ring, index)
      case None => Energy(ring, index) == 0.0
      case Some(bin) =>
        if bin.samples == 0 then Energy(ring, index) == 0.0
        else Energy(ring, index) * 32768.0 * (bin.samples as real) == bin.sum as real
  {
    var bin := BinAt(ring, index);
    if bin.Some? && bin.value.samples != 0 {
      RealQuotient(bin.value.sum as real, bin.value.samples as real);
    }
  }

  lemma {:induction false} RealQuotient(sum: real, samples: real)
    requires 0.0 < samples
    ensures sum / (samples * 32768.0) * 32768.0 * samples == sum
  {
    var d := samples * 32768.0;
    assert sum / d * d == sum;
    assert sum / d * 32768.0 * samples == sum / d * d;
  }

  /** The flux is the rise in energy since the bin before, or over nothing for the first
      bin of a stretch, and never a fall. */
  lemma {:induction false} FluxIsRise(ring: Ring, index: nat, first: nat)
    requires first <= index
    ensures
      var before := if first < index then Energy(ring, index - 1) else 0.0;
      && 0.0 <= Flux(ring, index, first)
      && (before <= Energy(ring, index) ==> before + Flux(ring, index, first) == Energy(ring, index))
      && (Energy(ring, index) <= before ==> Flux(ring, index, first) == 0.0)
  {
  }

  /** Without a single estimate the session's own tempo stands in for the whole stretch, and
      the merge is degraded; otherwise the windows decide alone. */
  lemma {:induction false} FallbackStandsIn(fallback: Option<(Tempo, Percent)>, e: Evidence, m: Merge)
    requires m.windows == 0 ==> m.drafts == [] && m.totalConfidence == 0
    ensures WithFallback(fallback, e, m) ==
      if m.windows == 0 && fallback.Some? then
        Merge([Draft(e.first, e.end, e.first, fallback.value.0, fallback.value.1, false, 1)], 1, fallback.value.1, true)
      else m
  {
  }

  // ------------------------------------------------------------------- segments

  /** A period is what 60000 frames a second and 1/1000 beats a minute make, cut off behind
      32 fraction bits. */
  predicate IsPeriod(period: Fixed, sampleRate: nat, tempo: nat) {
    var units := period.whole * 0x1_0000_0000 + period.fraction;
    units * tempo <= sampleRate * 60000 * 0x1_0000_0000 < (units + 1) * tempo
  }

  /** The segment tells its draft in frames. */
  ghost predicate TellsDraft(setting: Setting, m: Merge, i: nat, s: Segment)
    requires i < |m.drafts|
  {
    var d := m.drafts[i];
    var last := i == |m.drafts| - 1;
    && s.first == d.first * 2048 && s.anchor == Fixed(d.anchor * 2048, 0)
    && s.end <= d.end * 2048 && (!last || setting.finalEnd.None? ==> s.end == d.end * 2048)
    && (last && setting.finalEnd.Some? ==>
          s.end <= setting.finalEnd.value && (s.end == d.end * 2048 || s.end == setting.finalEnd.value))
    && IsPeriod(s.period, setting.sampleRate, d.tempo) && s.tempo == d.tempo && s.confidence == d.confidence
    && s.degraded == (d.degraded || m.degraded) && s.dynamic == (|m.drafts| > 1) && s.id == i + 1
  }

  lemma {:induction false} SegmentTellsDraft(setting: Setting, m: Merge, i: nat)
    requires i < |m.drafts|
    ensures TellsDraft(setting, m, i, SegmentsOf(setting, m)[i])
  {
    PeriodIsTruncated(setting.sampleRate, m.drafts[i].tempo);
    SamePeriod(PeriodFromTempo(setting.sampleRate, m.drafts[i].tempo), setting, m, i);
  }

  lemma {:induction false} SamePeriod(period: Fixed, setting: Setting, m: Merge, i: nat)
    requires i < |m.drafts| && period == PeriodFromTempo(setting.sampleRate, m.drafts[i].tempo)
    ensures SegmentsOf(setting, m)[i].period == period
  {
  }

  /** A committed segment is its draft's, but for the numbers given to its beats and the
      stamp. */
  ghost predicate SameButNumbers(a: Segment, b: Segment) {
    a == b.(anchorOrdinal := a.anchorOrdinal, beatCount := a.beatCount, revision := a.revision)
  }

  lemma {:induction false} TellsDraftStill(setting: Setting, m: Merge, i: nat, a: Segment, b: Segment)
    requires i < |m.drafts| && TellsDraft(setting, m, i, b) && SameButNumbers(a, b)
    ensures TellsDraft(setting, m, i, a)
  {
  }

  /** A commit stamps what it put in place. */
  lemma {:induction false} CommitIsStamp(setting: Setting, e: Evidence, m: Merge, before: Grid, g: Grid)
    returns (u: Grid, id: nat, previous: nat)
    requires 0 < |m.drafts| && Commit(setting, e, m, before) == Committed(g)
    ensures u == Unstamped(setting, e, m, before) && g == Stamp(setting, u, before, m.degraded, id, previous)
    ensures u.evidence == g.evidence
  {
    u := Unstamped(setting, e, m, before);
    id, previous := 1, 0;
    if before.revisionId != 0 {
      id, previous := before.revisionId, before.previousId;
      if SignatureOf(setting, u) != before.signature {
        id, previous := before.revisionId + 1, before.revisionId;
      }
    }
  }

  lemma {:induction false} UnstampedSegment(setting: Setting, e: Evidence, m: Merge, before: Grid, i: nat)
    requires i < |m.drafts|
    ensures
      var u := Unstamped(setting, e, m, before);
      |u.segments| == |m.drafts| && SameButNumbers(u.segments[i], SegmentsOf(setting, m)[i])
  {
  }

  lemma {:induction false} StampedSegment(setting: Setting, u: Grid, before: Grid, degraded: bool, id: nat, previous: nat, i: nat)
    requires i < |u.segments|
    ensures
      var g := Stamp(setting, u, before, degraded, id, previous);
      |g.segments| == |u.segments| && SameButNumbers(g.segments[i], u.segments[i])
  {
  }

  lemma {:induction false} CommittedSegment(setting: Setting, e: Evidence, m: Merge, before: Grid, g: Grid, i: nat)
    requires 0 < |m.drafts| && Commit(setting, e, m, before) == Committed(g) && i < |m.drafts|
    ensures |g.segments| == |m.drafts| && SameButNumbers(g.segments[i], SegmentsOf(setting, m)[i])
  {
    var u, id, previous := CommitIsStamp(setting, e, m, before, g);
    UnstampedSegment(setting, e, m, before, i);
    StampedSegment(setting, u, before, m.degraded, id, previous, i);
  }

  /** Every segment of a committed grid is the tempo segment of its draft. */
  lemma {:induction false} CommittedSegmentsTell(setting: Setting, e: Evidence, m: Merge, before: Grid, g: Grid)
    requires 0 < |m.drafts| && Commit(setting, e, m, before) == Committed(g)
    ensures |g.segments| == |m.drafts|
    ensures forall i :: 0 <= i < |m.drafts| ==> TellsDraft(setting, m, i, g.segments[i])
  {
    CommittedSegment(setting, e, m, before, g, 0);
    forall i | 0 <= i < |m.drafts| ensures TellsDraft(setting, m, i, g.segments[i]) {
      CommittedSegment(setting, e, m, before, g, i);
      SegmentTellsDraft(setting, m, i);
      TellsDraftStill(setting, m, i, g.segments[i], SegmentsOf(setting, m)[i]);
    }
  }

  // ---------------------------------------------------------------------- beats

  /** A grid of the plain form counts its beats instead of listing them: how many steps of
      the period, rounded up to whole frames, from the anchor on lie before the end. */
  lemma {:induction false} PlainCountTells(
    setting: Setting, e: Evidence, m: Merge, before: Grid, g: Grid, i: nat, k: nat)
    requires Ready(setting, e, m) && 5 <= setting.sampleRate && Commit(setting, e, m, before) == Committed(g)
    requires !g.hybrid && i < |m.drafts| && e.end * 2048 <= 0xFFFF_FFFF_FFFF_FFFF
    ensures |g.segments| == |m.drafts| && g.beats == []
    ensures
      var s := g.segments[i];
      var step := s.period.whole + if s.period.fraction == 0 then 0 else 1;
      k < s.beatCount <==> k < 0xFFFF_FFFF && s.anchor.whole + k * step < s.end
  {
    var shape := ShapeOf(setting, m, i);
    var u, id, previous := CommitIsStamp(setting, e, m, before, g);
    assert |u.segments| == |m.drafts| && u.segments[i] == SegmentsOf(setting, m)[i] && u.beats == [];
    assert g.segments[i] == u.segments[i].(revision := id) && |g.beats| == 0;
    ShapedSegment(setting, e, m, i);
    assert DraftOk(m.drafts[i]) && m.drafts[i].end <= e.end;
    AnchoredCount(shape, k);
  }

  lemma {:induction false} AnchoredCount(s: Segment, k: nat)
    requires s.first <= s.anchor.whole < s.end && s.period.whole != 0 && s.anchor.whole <= 0xFFFF_FFFF_FFFF_FFFF
    ensures
      var step := s.period.whole + if s.period.fraction == 0 then 0 else 1;
      k < CountedBeats(s) <==> k < 0xFFFF_FFFF && s.anchor.whole + k * step < s.end
  {
    CountIsExact(s.anchor.whole, s.end, WholePeriod(s), k);
  }

  lemma {:induction false} EarlierBeatsStay(segments: seq<Segment>, m: nat, n: nat)
    requires m <= n <= |segments|
    ensures |Generated(segments, m)| <= |Generated(segments, n)|
    ensures Generated(segments, n)[..|Generated(segments, m)|] == Generated(segments, m)
    decreases n
  {
    if m < n { EarlierBeatsStay(segments, m, n - 1); }
  }

  /** The beats of segment s stand at [from, from + count): beat k is k periods behind the
      anchor, numbered on, before the end of the segment. */
  ghost predicate Lists(beats: seq<Beat>, s: Segment, from: nat, count: nat) {
    && from + count <= |beats|
    && forall k :: 0 <= k < count ==> ListsBeat(beats, s, from, k)
  }

  ghost predicate ListsBeat(beats: seq<Beat>, s: Segment, from: nat, k: nat)
    requires from + k < |beats|
  {
    var b := beats[from + k];
    && Q(b.position) == Q(s.anchor) + k * Q(s.period) < s.end * 0x1_0000_0000
    && b.ordinal == from + k && b.confidence == s.confidence && b.degraded == s.degraded && b.dynamic == s.dynamic
  }

  lemma {:induction false} SegmentIsListed(segments: seq<Segment>, i: nat)
    requires i < |segments| && Placeable(segments[i])
    requires segments[i].first <= segments[i].anchor.whole && segments[i].anchor.fraction == 0
    ensures
      var n := Numbered(segments, i);
      && n.anchorOrdinal == |Generated(segments, i)|
      && Lists(Generated(segments, i + 1), segments[i], n.anchorOrdinal, n.beatCount)
  {
    var s, from := segments[i], |Generated(segments, i)|;
    var more := SegmentBeats(s, from, MAX_BEATS - from);
    var beats := Generated(segments, i + 1);
    assert beats == Generated(segments, i) + more;
    forall k | 0 <= k < |more| ensures ListsBeat(beats, s, from, k) {
      assert beats[from + k] == more[k] == BeatOf(s, from, k);
      CountIsExact(FirstBeat(s), s.end * Q32, Q(s.period), k);
    }
  }

  lemma {:induction false} ListedStill(beats: seq<Beat>, more: seq<Beat>, s: Segment, from: nat, count: nat)
    requires Lists(beats, s, from, count) && |beats| <= |more| && more[..|beats|] == beats
    ensures Lists(more, s, from, count)
  {
    forall k | 0 <= k < count ensures ListsBeat(more, s, from, k) {
      assert ListsBeat(beats, s, from, k);
      assert more[from + k] == more[..|beats|][from + k];
    }
  }

  lemma {:induction false} ListedInAll(segments: seq<Segment>, i: nat)
    requires i < |segments| && Placeable(segments[i])
    requires segments[i].first <= segments[i].anchor.whole && segments[i].anchor.fraction == 0
    ensures
      var n := Numbered(segments, i);
      Lists(Generated(segments, |segments|), n, n.anchorOrdinal, n.beatCount)
  {
    var n := Numbered(segments, i);
    SegmentIsListed(segments, i);
    EarlierBeatsStay(segments, i + 1, |segments|);
    ListedStill(Generated(segments, i + 1), Generated(segments, |segments|), segments[i], n.anchorOrdinal, n.beatCount);
    ListedForBoth(Generated(segments, |segments|), segments[i], n, n.anchorOrdinal, n.beatCount);
  }

  lemma {:induction false} UnstampedHasListed(setting: Setting, e: Evidence, m: Merge, before: Grid, i: nat)
    requires i < |m.drafts| && Unstamped(setting, e, m, before).hybrid
    ensures
      var shaped, u := SegmentsOf(setting, m), Unstamped(setting, e, m, before);
      && |u.segments| == |m.drafts| && u.beats == Generated(shaped, |shaped|)
      && u.segments[i] == Numbered(shaped, i)
  {
  }

  lemma {:induction false} UnstampedLists(setting: Setting, e: Evidence, m: Merge, before: Grid, i: nat)
    requires Ready(setting, e, m) && 5 <= setting.sampleRate && i < |m.drafts|
    requires Placeable(SegmentsOf(setting, m)[i]) && Unstamped(setting, e, m, before).hybrid
    ensures
      var u := Unstamped(setting, e, m, before);
      |u.segments| == |m.drafts| && Lists(u.beats, u.segments[i], u.segments[i].anchorOrdinal, u.segments[i].beatCount)
  {
    ShapedSegment(setting, e, m, i);
    ListedInAll(SegmentsOf(setting, m), i);
    UnstampedHasListed(setting, e, m, before, i);
  }

  lemma {:induction false} ListedForBoth(beats: seq<Beat>, s: Segment, n: Segment, from: nat, count: nat)
    requires Lists(beats, s, from, count) && n == s.(anchorOrdinal := n.anchorOrdinal, beatCount := n.beatCount)
    ensures Lists(beats, n, from, count)
  {
    forall k | 0 <= k < count ensures ListsBeat(beats, n, from, k) {
      assert ListsBeat(beats, s, from, k);
    }
  }

  /** A grid of the hybrid form lists the beats its segments announce. */
  lemma {:induction false} ListedBeatsTell(setting: Setting, e: Evidence, m: Merge, before: Grid, g: Grid, i: nat)
    requires Ready(setting, e, m) && 5 <= setting.sampleRate && Commit(setting, e, m, before) == Committed(g)
    requires g.hybrid && i < |m.drafts| && Placeable(SegmentsOf(setting, m)[i])
    ensures
      |g.segments| == |m.drafts| && Lists(g.beats, g.segments[i], g.segments[i].anchorOrdinal, g.segments[i].beatCount)
  {
    var u, id, previous := CommitIsStamp(setting, e, m, before, g);
    UnstampedLists(setting, e, m, before, i);
    StampStillLists(setting, u, before, m.degraded, id, previous, i);
  }

  lemma {:induction false} StampStillLists(
    setting: Setting, u: Grid, before: Grid, degraded: bool, id: nat, previous: nat, i: nat)
    requires i < |u.segments| && Lists(u.beats, u.segments[i], u.segments[i].anchorOrdinal, u.segments[i].beatCount)
    ensures
      var g := Stamp(setting, u, before, degraded, id, previous);
      |g.segments| == |u.segments| && Lists(g.beats, g.segments[i], g.segments[i].anchorOrdinal, g.segments[i].beatCount)
  {
    var g, from, count := Stamp(setting, u, before, degraded, id, previous), u.segments[i].anchorOrdinal, u.segments[i].beatCount;
    forall k | 0 <= k < count ensures ListsBeat(g.beats, g.segments[i], from, k) {
      assert ListsBeat(u.beats, u.segments[i], from, k);
      assert g.beats[from + k] == u.beats[from + k].(revision := id);
    }
  }

  /** The 32-bit form holds segments whose frames and period are 32-bit numbers, the period at
      least one frame. */
  lemma {:induction false} PlaceableExactly(s: Segment)
    ensures Placeable(s) <==>
      && 1 <= s.period.whole < 0x1_0000_0000 && s.anchor.whole < 0x1_0000_0000
      && s.first < 0x1_0000_0000 && s.end < 0x1_0000_0000
  {
  }

  /** A segment that does not fit it keeps the count of the plain form. */
  lemma {:induction false} UnplacedKeepsCount(segments: seq<Segment>, i: nat)
    requires i < |segments| && !Placeable(segments[i])
    ensures Numbered(segments, i) == segments[i]
    ensures Generated(segments, i + 1) == Generated(segments, i)
  {
  }

  /** Only a full list of 3072 beats cuts a segment short that fits the 32-bit form. */
  lemma {:induction false} MissingMeansFull(segments: seq<Segment>, i: nat)
    requires i < |segments| && Placeable(segments[i]) && CutShort(segments, i)
    ensures |Generated(segments, i + 1)| == 3072
  {
  }

  /** The counter of the plain form, whatever the anchor: it counts from the first step at or
      behind the segment's start, unless rounding up to it would wrap 64 bits, and then from
      the anchor itself. */
  lemma {:induction false} CounterTells(s: Segment, steps: nat, k: nat)
    requires FramesFit(s) && s.period.whole != 0 && s.first < s.end
    ensures
      var step := s.period.whole + if s.period.fraction == 0 then 0 else 1;
      var wraps := s.anchor.whole < s.first && 0xFFFF_FFFF_FFFF_FFFF < s.first - s.anchor.whole + step - 1;
      var start := s.anchor.whole + steps * step;
      && (wraps <==> !CountFits(s))
      && (wraps ==> (k < WrappedCount(s) <==> k < 0xFFFF_FFFF && s.anchor.whole + k * step < s.end))
      && (!wraps && s.first <= start <= 0xFFFF_FFFF_FFFF_FFFF && (0 < steps ==> start < s.first + step) ==>
            (k < CountedBeats(s) <==> k < 0xFFFF_FFFF && start + k * step < s.end))
  {
    var step := WholePeriod(s);
    var start := s.anchor.whole + steps * step;
    CountIsExact(s.anchor.whole, s.end, step, k);
    CountIsExact(start, s.end, step, k);
    if s.first <= start && (0 < steps ==> start < s.first + step) { FirstStepIs(s, steps, step); }
  }

  lemma {:induction false} FirstStepIs(s: Segment, steps: nat, step: nat)
    requires 0 < s.period.whole && step == WholePeriod(s)
    requires s.first <= s.anchor.whole + steps * step && (0 < steps ==> s.anchor.whole + steps * step < s.first + step)
    ensures WholeFirst(s) == s.anchor.whole + steps * step
  {
    if 0 < steps { Between(0, steps, step); }
    if s.anchor.whole < s.first {
      var n := CeilDiv(s.first - s.anchor.whole, step);
      assert n * step <= s.first - s.anchor.whole + step - 1 < n * step + step;
      if n < steps { Between(n, steps, step); }
      if steps < n { Between(steps, n, step); }
    }
  }

  /** A beat of the segment is missing: its frames do not fit 32 bits, or one more period
      behind the beats it counts still lies before its end. */
  ghost predicate Misses(s: Segment) {
    !Placeable(s) || Q(s.anchor) + s.beatCount * Q(s.period) < s.end * 0x1_0000_0000
  }

  lemma {:induction false} CutShortMisses(segments: seq<Segment>, i: nat)
    requires i < |segments|
    requires segments[i].first <= segments[i].anchor.whole < segments[i].end && segments[i].anchor.fraction == 0
    ensures CutShort(segments, i) <==> Misses(Numbered(segments, i))
  {
    var s, from := segments[i], |Generated(segments, i)|;
    if Placeable(s) {
      var n := Numbered(segments, i);
      var more := SegmentBeats(s, from, MAX_BEATS - from);
      assert Generated(segments, i + 1) == Generated(segments, i) + more && n.beatCount == |more|;
      CountIsExact(FirstBeat(s), s.end * Q32, Q(s.period), |more|);
    }
  }

  /** The grid is degraded exactly when the merge was, or when it lists its beats and some
      segment misses one. */
  lemma {:induction false} UnstampedDegrades(setting: Setting, e: Evidence, m: Merge, before: Grid)
    requires Ready(setting, e, m) && 5 <= setting.sampleRate
    ensures
      var u := Unstamped(setting, e, m, before);
      u.degraded <==> m.degraded || (u.hybrid && exists i :: 0 <= i < |u.segments| && Misses(u.segments[i]))
  {
    var shaped, u := SegmentsOf(setting, m), Unstamped(setting, e, m, before);
    if u.hybrid {
      assert |u.segments| == |shaped|;
      forall i | 0 <= i < |shaped| ensures CutShort(shaped, i) <==> Misses(u.segments[i]) {
        ShapedSegment(setting, e, m, i);
        CutShortMisses(shaped, i);
      }
    }
  }

  lemma {:induction false} StampMisses(setting: Setting, u: Grid, before: Grid, degraded: bool, id: nat, previous: nat)
    ensures
      var g := Stamp(setting, u, before, degraded, id, previous);
      (exists i :: 0 <= i < |u.segments| && Misses(u.segments[i])) <==>
      (exists i :: 0 <= i < |g.segments| && Misses(g.segments[i]))
  {
    var g := Stamp(setting, u, before, degraded, id, previous);
    assert |g.segments| == |u.segments|;
    forall i | 0 <= i < |u.segments| ensures Misses(u.segments[i]) <==> Misses(g.segments[i]) {
      assert g.segments[i] == u.segments[i].(revision := id);
    }
  }

  lemma {:induction false} DegradedTells(setting: Setting, e: Evidence, m: Merge, before: Grid, g: Grid)
    requires Ready(setting, e, m) && 5 <= setting.sampleRate && Commit(setting, e, m, before) == Committed(g)
    ensures g.degraded <==> m.degraded || (g.hybrid && exists i :: 0 <= i < |g.segments| && Misses(g.segments[i]))
  {
    var u, id, previous := CommitIsStamp(setting, e, m, before, g);
    UnstampedDegrades(setting, e, m, before);
    StampMisses(setting, u, before, m.degraded, id, previous);
  }

  // ------------------------------------------------------------------- the grid

  /** The confidence is the whole part of the mean over the merged windows. */
  predicate IsMeanConfidence(m: Merge, confidence: nat) {
    if m.windows == 0 then confidence == 255
    else confidence * m.windows <= m.totalConfidence < (confidence + 1) * m.windows
  }

  lemma {:induction false} MeanIsMean(m: Merge)
    ensures IsMeanConfidence(m, MeanConfidence(m))
  {
    if m.windows != 0 {
      var q := m.totalConfidence / m.windows;
      assert q * m.windows <= m.totalConfidence < q * m.windows + m.windows;
      assert (q + 1) * m.windows == q * m.windows + m.windows;
    }
  }

  /** A grid is final exactly when it comes from the whole track and the session drains, and
      before that stable once it comes from 256 bins with an average confidence of 50. */
  ghost predicate TellsEvidence(setting: Setting, e: Evidence, m: Merge, g: Grid) {
    var end := e.end * 2048;
    && g.evidence.first == e.first * 2048 && g.evidence.end <= end
    && (setting.finalEnd.None? ==> g.evidence.end == end)
    && (setting.finalEnd.Some? ==>
          g.evidence.end <= setting.finalEnd.value && (g.evidence.end == end || g.evidence.end == setting.finalEnd.value))
    && IsMeanConfidence(m, g.confidence)
    && (g.maturity == Final <==>
          setting.draining && setting.finalEnd.Some? && g.evidence == Range(0, setting.finalEnd.value))
    && (g.maturity == Stable <==> g.maturity != Final && e.first + 256 <= e.end && 50 <= g.confidence)
    && g.requested.first == 0
    && (g.requested.end == if setting.totalFrames.Some? then setting.totalFrames.value else end)
    && g.dynamic == (|m.drafts| > 1) && g.hybrid == (setting.dynamic || |m.drafts| > 1)
    && (m.degraded ==> g.degraded)
  }

  lemma {:induction false} UnstampedTells(setting: Setting, e: Evidence, m: Merge, before: Grid)
    requires 0 < |m.drafts|
    ensures TellsEvidence(setting, e, m, Unstamped(setting, e, m, before))
  {
    MeanIsMean(m);
  }

  ghost predicate SameEvidence(a: Grid, b: Grid) {
    && a.evidence == b.evidence && a.confidence == b.confidence && a.maturity == b.maturity
    && a.requested == b.requested && a.dynamic == b.dynamic && a.hybrid == b.hybrid && a.degraded == b.degraded
    && a.nominalTempo == b.nominalTempo
  }

  lemma {:induction false} StampSaysTheSame(
    setting: Setting, u: Grid, before: Grid, degraded: bool, id: nat, previous: nat)
    ensures SameEvidence(Stamp(setting, u, before, degraded, id, previous), u)
  {
  }

  lemma {:induction false} CommitSaysTheSame(setting: Setting, e: Evidence, m: Merge, before: Grid, g: Grid)
    requires 0 < |m.drafts| && Commit(setting, e, m, before) == Committed(g)
    ensures SameEvidence(g, Unstamped(setting, e, m, before))
  {
    var u, id, previous := CommitIsStamp(setting, e, m, before, g);
    StampSaysTheSame(setting, u, before, m.degraded, id, previous);
  }

  lemma {:induction false} TellsEvidenceStill(setting: Setting, e: Evidence, m: Merge, a: Grid, b: Grid)
    requires SameEvidence(a, b) && TellsEvidence(setting, e, m, b)
    ensures TellsEvidence(setting, e, m, a)
  {
  }

  lemma {:induction false} CommittedGridTells(setting: Setting, e: Evidence, m: Merge, before: Grid, g: Grid)
    requires 0 < |m.drafts| && Commit(setting, e, m, before) == Committed(g)
    ensures TellsEvidence(setting, e, m, g)
  {
    UnstampedTells(setting, e, m, before);
    CommitSaysTheSame(setting, e, m, before, g);
    TellsEvidenceStill(setting, e, m, g, Unstamped(setting, e, m, before));
  }

  function Width(m: Merge, i: nat): int
    requires i < |m.drafts|
  {
    m.drafts[i].end - m.drafts[i].first
  }

  /** The first of the longest segments. */
  ghost predicate IsLongest(m: Merge, i: nat) {
    && i < |m.drafts|
    && (forall k :: 0 <= k < i ==> Width(m, k) < Width(m, i))
    && forall k :: i < k < |m.drafts| ==> Width(m, k) <= Width(m, i)
  }

  ghost predicate AllWide(m: Merge) {
    forall i :: 0 <= i < |m.drafts| ==> m.drafts[i].first < m.drafts[i].end
  }

  lemma {:induction false} WidestIsFirst(m: Merge, n: nat)
    requires n <= |m.drafts| && AllWide(m) && 0 < n
    ensures
      var w := Widest(m, n);
      && w < n && (forall k :: 0 <= k < w ==> Width(m, k) < Width(m, w))
      && forall k :: w < k < n ==> Width(m, k) <= Width(m, w)
  {
    assert forall i :: 0 <= i < |m.drafts| ==> DraftSpan(m, i) == Width(m, i);
    if 1 < n { WidestIsFirst(m, n - 1); }
  }

  /** The nominal tempo is the one of the first of the longest segments. */
  lemma {:induction false} NominalIsLongest(setting: Setting, e: Evidence, m: Merge, before: Grid, g: Grid)
    returns (i: nat)
    requires 0 < |m.drafts| && AllWide(m) && Commit(setting, e, m, before) == Committed(g)
    ensures IsLongest(m, i) && g.nominalTempo == m.drafts[i].tempo
  {
    i := Widest(m, |m.drafts|);
    WidestIsFirst(m, |m.drafts|);
    CommitSaysTheSame(setting, e, m, before, g);
  }

  // ------------------------------------------------------------------- revision

  predicate Within(a: nat, b: nat, tolerance: nat) {
    a <= b + tolerance && b <= a + tolerance
  }

  ghost predicate Holds(first: nat, end: nat, frame: nat) { first <= frame < end }

  /** A segment disputes the locked grid where they share a frame and are more than half a
      beat a minute or one bin apart. */
  ghost predicate Disputes(lock: LocalGrid, s: Segment) {
    && (exists f: nat :: Holds(s.first, s.end, f) && Holds(lock.range.first, lock.range.end, f))
    && !(Within(s.tempo, lock.tempo, 500) && Within(s.anchor.whole, lock.anchor, 2048))
  }

  lemma {:induction false} ConflictIsDispute(lock: LocalGrid, s: Segment)
    requires s.first < s.end && lock.range.first < lock.range.end
    ensures ConflictsWith(s, lock) <==> Disputes(lock, s)
  {
    var f := if s.first < lock.range.first then lock.range.first else s.first;
    if ConflictsWith(s, lock) {
      assert Holds(s.first, s.end, f) && Holds(lock.range.first, lock.range.end, f);
    }
  }

  ghost predicate IsDisputed(setting: Setting, segments: seq<Segment>) {
    setting.locked.Some? && exists i :: 0 <= i < |segments| && Disputes(setting.locked.value, segments[i])
  }

  lemma {:induction false} ConflictExactly(setting: Setting, segments: seq<Segment>)
    requires forall i :: 0 <= i < |segments| ==> segments[i].first < segments[i].end
    requires setting.locked.Some? ==> setting.locked.value.range.first < setting.locked.value.range.end
    ensures LockedConflict(setting, segments) <==> IsDisputed(setting, segments)
  {
    if setting.locked.Some? {
      forall i | 0 <= i < |segments|
        ensures ConflictsWith(segments[i], setting.locked.value) <==> Disputes(setting.locked.value, segments[i])
      {
        ConflictIsDispute(setting.locked.value, segments[i]);
      }
    }
  }

  lemma {:induction false} StampDisputes(setting: Setting, u: Grid, before: Grid, degraded: bool, id: nat, previous: nat)
    requires setting.locked.Some? ==> setting.locked.value.range.first < setting.locked.value.range.end
    requires forall i :: 0 <= i < |u.segments| ==> u.segments[i].first < u.segments[i].end
    ensures
      var g := Stamp(setting, u, before, degraded, id, previous);
      LockedConflict(setting, u.segments) <==> IsDisputed(setting, g.segments)
  {
    var g := Stamp(setting, u, before, degraded, id, previous);
    assert forall i :: 0 <= i < |u.segments| ==> g.segments[i] == u.segments[i].(revision := id);
    ConflictExactly(setting, g.segments);
    ConflictIgnoresRevision(setting, u.segments, g.segments);
  }

  /** The revision of a committed grid: the host decides about it exactly while some segment
      disputes the grid it locked, and then the locked range is what it affects. */
  ghost predicate TellsRevision(setting: Setting, m: Merge, g: Grid) {
    && g.revision.Some?
    && var r := g.revision.value;
    && r.conflict == r.pending == IsDisputed(setting, g.segments)
    && (r.conflict ==> setting.locked.Some? && r.affected == setting.locked.value.range)
    && (!r.conflict ==> r.affected == g.evidence)
    && r.id == g.revisionId && r.previous == g.previousId && r.confidence == g.confidence
    && r.hybrid == g.hybrid && r.dynamic == g.dynamic && r.degraded == m.degraded
    && r.segmentCount == |g.segments| && r.beatCount == |g.beats|
  }

  lemma {:induction false} StampTells(setting: Setting, m: Merge, u: Grid, before: Grid, id: nat, previous: nat)
    requires setting.locked.Some? ==> setting.locked.value.range.first < setting.locked.value.range.end
    requires forall i :: 0 <= i < |u.segments| ==> u.segments[i].first < u.segments[i].end
    ensures TellsRevision(setting, m, Stamp(setting, u, before, m.degraded, id, previous))
  {
    StampDisputes(setting, u, before, m.degraded, id, previous);
  }

  lemma {:induction false} UnstampedIsWide(setting: Setting, e: Evidence, m: Merge, before: Grid)
    requires Ready(setting, e, m)
    ensures
      var u := Unstamped(setting, e, m, before);
      forall i :: 0 <= i < |u.segments| ==> u.segments[i].first < u.segments[i].end
  {
    forall i | 0 <= i < |m.drafts| ensures SegmentsOf(setting, m)[i].first < SegmentsOf(setting, m)[i].end {
      assert DraftOk(m.drafts[i]);
      SegmentEndIsLate(setting, e, m, i);
    }
  }

  lemma {:induction false} RevisionTells(setting: Setting, e: Evidence, m: Merge, before: Grid, g: Grid)
    requires Ready(setting, e, m) && Commit(setting, e, m, before) == Committed(g)
    ensures TellsRevision(setting, m, g)
  {
    var u, id, previous := CommitIsStamp(setting, e, m, before, g);
    UnstampedIsWide(setting, e, m, before);
    StampTells(setting, m, u, before, id, previous);
  }

  /** What is signed tells grids apart by every place, anchor, period and tempo, the number
      of beats, and the form, and by nothing else. */
  lemma {:induction false} SignedTellsApart(a: Grid, b: Grid)
    ensures SignedPart(a.segments, |a.beats|, a.hybrid) == SignedPart(b.segments, |b.beats|, b.hybrid) <==>
      && |a.segments| == |b.segments| && |a.beats| == |b.beats| && a.hybrid == b.hybrid
      && forall i :: 0 <= i < |a.segments| ==>
        && a.segments[i].first == b.segments[i].first && a.segments[i].end == b.segments[i].end
        && a.segments[i].anchor == b.segments[i].anchor && a.segments[i].period == b.segments[i].period
        && a.segments[i].tempo == b.segments[i].tempo
  {
    var x, y := SignedPart(a.segments, |a.beats|, a.hybrid), SignedPart(b.segments, |b.beats|, b.hybrid);
    if x == y {
      assert |x.segments| == |a.segments| && |y.segments| == |b.segments|;
      forall i | 0 <= i < |a.segments|
        ensures a.segments[i].first == b.segments[i].first && a.segments[i].end == b.segments[i].end
        ensures a.segments[i].anchor == b.segments[i].anchor && a.segments[i].period == b.segments[i].period
        ensures a.segments[i].tempo == b.segments[i].tempo
      {
        assert x.segments[i] == y.segments[i];
      }
    }
  }

  /** Did anything change that a reader sees? */
  ghost predicate Changed(before: Grid, g: Grid) {
    || g.signature != before.signature || g.maturity != before.maturity || before.revision.None?
    || (g.revision.Some? && g.revision.value.pending != before.revision.value.pending) || before.serial == 0
  }

  lemma {:induction false} StampCounts(setting: Setting, u: Grid, before: Grid, degraded: bool, id: nat, previous: nat)
    ensures
      var g := Stamp(setting, u, before, degraded, id, previous);
      g.serial == before.serial + if Changed(before, g) then 1 else 0
  {
  }

  /** A result is due exactly when something a reader sees changed, and then the grid's
      serial number steps. */
  lemma {:induction false} SerialTells(setting: Setting, e: Evidence, m: Merge, before: Grid, g: Grid)
    requires 0 < |m.drafts| && Commit(setting, e, m, before) == Committed(g)
    ensures g.serial == before.serial + if Changed(before, g) then 1 else 0
  {
    var u, id, previous := CommitIsStamp(setting, e, m, before, g);
    StampCounts(setting, u, before, m.degraded, id, previous);
  }

  // ------------------------------------------------------------- what is accepted

  /** The reader compares neighbours; so all segments it accepts are apart and in order. */
  lemma {:induction false} AcceptedSegmentsAreApart(segments: seq<Segment>, range: Range, i: nat, j: nat)
    requires SegmentsAccepted(segments, range) && i < j < |segments|
    ensures segments[i].first < segments[i].end <= segments[j].first < segments[j].end
    ensures range.first <= segments[i].first && segments[j].end <= range.end
    ensures segments[i].period.whole != 0 && segments[j].period.whole != 0
    decreases j
  {
    if i + 1 < j { AcceptedSegmentsAreApart(segments, range, i, j - 1); }
  }

  /** And all beats rise in position and ordinal. */
  lemma {:induction false} AcceptedBeatsRise(beats: seq<Beat>, range: Range, i: nat, j: nat)
    requires BeatsAccepted(beats, range) && i < j < |beats|
    ensures Q(beats[i].position) <= Q(beats[j].position) && beats[i].ordinal < beats[j].ordinal
    ensures range.first <= beats[i].position.whole < range.end && range.first <= beats[j].position.whole < range.end
    decreases j
  {
    if i + 1 < j { AcceptedBeatsRise(beats, range, i, j - 1); }
  }

  /** What an accepted grid is known to be. */
  lemma {:induction false} AcceptedGridIs(g: Grid, partial: bool)
    requires GridAccepted(g, partial)
    ensures (partial || g.maturity == Final) && g.confidence <= 100
    ensures g.requested.first < g.requested.end && g.evidence.first < g.evidence.end
    ensures 1 <= |g.segments| <= 8 && |g.beats| <= 3072 && (g.hybrid <==> g.beats != [])
    ensures g.evidence.first <= g.segments[0].first < g.segments[0].end <= g.evidence.end && g.segments[0].period.whole != 0
    ensures SegmentsAccepted(g.segments, g.evidence) && BeatsAccepted(g.beats, g.evidence)
    ensures g.beats != [] ==> g.evidence.first <= g.beats[0].position.whole < g.evidence.end
  {
  }

  /** And an accepted revision. */
  lemma {:induction false} AcceptedRevisionIs(g: Grid, partial: bool)
    requires RevisionAccepted(g, partial)
    ensures g.revision.Some?
    ensures
      var r := g.revision.value;
      && r.id != 0 && r.confidence <= 100 && r.affected.first < r.affected.end
      && (r.pending ==> partial && g.maturity != Final)
      && r.hybrid == g.hybrid && r.segmentCount == |g.segments| && r.beatCount == |g.beats|
      && (forall s :: s in g.segments ==> s.revision == r.id) && (forall b :: b in g.beats ==> b.revision == r.id)
  {
  }

  // ---------------------------------------------------------------- no stale grid

  /** The committed grid is up to date: less than 32 bins of the evidence came since. */
  ghost predicate Fresh(inputs: Inputs, st: State) {
    inputs.evidence.Some? && 64 <= inputs.evidence.value.end - inputs.evidence.value.first ==>
    var e := inputs.evidence.value;
    && st.refreshedEnd <= e.end < st.refreshedEnd + 32
    && (inputs.finalEnd.Some? ==> st.grid.maturity == Final || st.evidence == e)
  }

  lemma {:induction false} RoundIsFresh(inputs: Inputs, st: State, limit: nat, spent: nat, late: Clock, reading: nat)
    requires CanCall(inputs, st) && spent <= limit
    ensures
      var o := Round(inputs, st, limit, spent, late, reading);
      o.status == Status.Ok && !o.state.pending ==> !o.state.working && Fresh(inputs, o.state)
  {
  }

  /** A call that reports nothing more to do, and no newer evidence pending, leaves a grid
      that is up to date. */
  lemma {:induction false} OkLeavesFreshGrid(inputs: Inputs, st: State, limit: nat, spent: nat, late: Clock, reading: nat)
    requires CanCall(inputs, st) && spent <= limit
    ensures
      var o := Refresh(inputs, st, limit, spent, late, reading);
      o.status == Status.Ok && !o.state.pending ==> !o.state.working && Fresh(inputs, o.state)
    decreases limit - spent
  {
    RoundIsFresh(inputs, st, limit, spent, late, reading);
    var o := Round(inputs, st, limit, spent, late, reading);
    if GoesAgain(o, limit, spent) && CanCall(inputs, o.state) {
      OkLeavesFreshGrid(inputs, o.state, limit, o.steps, late, o.readings);
    }
  }

  /** A refresh starts exactly when there are 64 bins of evidence that went back, or are at
      least 32 more, or may finish the grid of a track whose end is known. */
  lemma {:induction false} StartsExactly(inputs: Inputs, st: State)
    ensures StartsWith(inputs, st) <==>
      && inputs.evidence.Some?
      && var e := inputs.evidence.value;
      && e.first + 64 <= e.end
      && (e.end < st.refreshedEnd || 32 <= e.end - st.refreshedEnd
          || (inputs.finalEnd.Some? && st.grid.maturity != Final))
  {
  }

  /** And it is due again exactly when the evidence reached further back or lost its end
      meanwhile, got 32 bins more, or changed at all once the end is known. */
  lemma {:induction false} MovedExactly(inputs: Inputs, st: State)
    requires CanCall(inputs, st) && st.working && st.evidence.end == st.next
    ensures
      var done := Finish(inputs, st).0;
      done.pending <==>
        && inputs.evidence.Some?
        && var e := inputs.evidence.value;
        || e.first < st.evidence.first || e.end < st.evidence.end || 32 <= e.end - st.evidence.end
        || (inputs.finalEnd.Some? && e != st.evidence)
  {
  }
}
