/** Committing a finished refresh: segments, beats and one revision at once. */
module GridCommit {
  import opened Common
  import opened GridEvidence
  import opened GridWindows
  import opened GridBeats

  const STABLE_BINS: nat := 256
  const STABLE_CONFIDENCE: nat := 50
  const LOCK_TEMPO_TOLERANCE: nat := 500

  datatype Range = Range(first: nat, end: nat)

  /** A local grid the host has locked. */
  datatype LocalGrid = LocalGrid(range: Range, tempo: nat, anchor: nat)

  datatype Signed = Signed(segments: seq<(Range, Fixed, Fixed, nat)>, beatCount: nat, hybrid: bool)

  /** What a refresh reads besides the ring; the hash stays uninterpreted. */
  datatype Setting = Setting(
    sampleRate: nat, totalFrames: Option<nat>, finalEnd: Option<nat>, draining: bool,
    fallback: Option<(Tempo, Percent)>, dynamic: bool, locked: Option<LocalGrid>,
    estimator: Estimator, hash: Signed -> nat)

  datatype Maturity = Provisional | Stable | Final

  datatype Revision = Revision(
    id: nat, previous: nat, confidence: nat, affected: Range, hybrid: bool,
    segmentCount: nat, beatCount: nat, dynamic: bool, degraded: bool, conflict: bool, pending: bool)

  /** Everything a snapshot copies, plus the counters that decide its revision. */
  datatype Grid = Grid(
    segments: seq<Segment>, beats: seq<Beat>, hybrid: bool, degraded: bool, dynamic: bool,
    maturity: Maturity, confidence: nat, requested: Range, evidence: Range,
    revisionId: nat, previousId: nat, revision: Option<Revision>,
    signature: nat, serial: nat, nominalTempo: nat)

  const NO_GRID := Grid(
    [], [], false, false, false, Provisional, 0, Range(0, 0), Range(0, 0), 0, 0, None, 0, 0, 0)

  // ----------------------------------------------------------------- segments

  /** Frames from bins, cut at the signalled end for the last segment. */
  function SegmentEnd(setting: Setting, m: Merge, i: nat): nat
    requires i < |m.drafts|
  {
    var end := m.drafts[i].end * FRAMES_PER_BIN;
    if i + 1 == |m.drafts| && setting.finalEnd.Some? then Smaller(end, setting.finalEnd.value) else end
  }

  /** Draft i in frames, with its period. */
  function ShapeOf(setting: Setting, m: Merge, i: nat): Segment
    requires i < |m.drafts|
  {
    var d := m.drafts[i];
    Segment(
      d.first * FRAMES_PER_BIN, SegmentEnd(setting, m, i), Fixed(d.anchor * FRAMES_PER_BIN, 0), 0,
      PeriodFromTempo(setting.sampleRate, d.tempo), d.tempo, d.confidence,
      d.degraded || m.degraded, |m.drafts| > 1, i + 1, 0, 0)
  }

  function SegmentOf(setting: Setting, m: Merge, i: nat): Segment
    requires i < |m.drafts|
  {
    var shape := ShapeOf(setting, m, i);
    shape.(beatCount := CountedBeats(shape))
  }

  function SegmentsOf(setting: Setting, m: Merge): seq<Segment> {
    seq(|m.drafts|, i requires 0 <= i < |m.drafts| => SegmentOf(setting, m, i))
  }

  function DraftSpan(m: Merge, i: nat): nat
    requires i < |m.drafts|
  {
    if m.drafts[i].end > m.drafts[i].first then m.drafts[i].end - m.drafts[i].first else 0
  }

  /** The earliest of the widest segments gives the nominal tempo. */
  method WidestDraft(m: Merge) returns (widest: nat)
    requires |m.drafts| > 0
    ensures widest < |m.drafts| && m.drafts[widest].tempo == NominalTempo(m)
    ensures forall i :: 0 <= i < |m.drafts| ==>
      DraftSpan(m, i) < DraftSpan(m, widest) || (DraftSpan(m, i) == DraftSpan(m, widest) && widest <= i)
  {
    widest := 0;
    var span := 0;
    for i := 0 to |m.drafts|
      invariant widest < |m.drafts| && widest == Widest(m, i)
      invariant span == if i == 0 then 0 else DraftSpan(m, widest)
      invariant forall k :: 0 <= k < i ==>
        DraftSpan(m, k) < span || (DraftSpan(m, k) == span && widest <= k)
    {
      if DraftSpan(m, i) > span {
        span, widest := DraftSpan(m, i), i;
      }
    }
  }

  function Widest(m: Merge, n: nat): (i: nat)
    requires n <= |m.drafts|
    ensures i == 0 || i < n
  {
    if n == 0 then 0
    else
      var before := Widest(m, n - 1);
      if DraftSpan(m, n - 1) > DraftSpan(m, before) then n - 1 else before
  }

  function NominalTempo(m: Merge): nat
    requires |m.drafts| > 0
  {
    m.drafts[Widest(m, |m.drafts|)].tempo
  }

  // ------------------------------------------------------------------- commit

  function FrameEnd(setting: Setting, e: Evidence): nat {
    if setting.finalEnd.Some? then Smaller(e.end * FRAMES_PER_BIN, setting.finalEnd.value)
    else e.end * FRAMES_PER_BIN
  }

  const UNKNOWN_CONFIDENCE: nat := 255

  function MeanConfidence(m: Merge): nat {
    if m.windows != 0 then m.totalConfidence / m.windows else UNKNOWN_CONFIDENCE
  }

  function MaturityOf(setting: Setting, e: Evidence, confidence: nat): Maturity {
    if setting.finalEnd.Some? && e.first == 0 && e.end * FRAMES_PER_BIN >= setting.finalEnd.value && setting.draining
    then Final
    else if e.end >= e.first + STABLE_BINS && confidence >= STABLE_CONFIDENCE then Stable
    else Provisional
  }

  function SignedPart(segments: seq<Segment>, beatCount: nat, hybrid: bool): Signed {
    Signed(seq(|segments|, i requires 0 <= i < |segments| =>
               (Range(segments[i].first, segments[i].end), segments[i].anchor, segments[i].period, segments[i].tempo)),
           beatCount, hybrid)
  }

  predicate Overlaps(a: Range, b: Range) {
    a.first < b.end && b.first < a.end
  }

  predicate ConflictsWith(s: Segment, lock: LocalGrid) {
    && Overlaps(Range(s.first, s.end), lock.range)
    && (Difference(s.tempo, lock.tempo) > LOCK_TEMPO_TOLERANCE
        || Difference(s.anchor.whole, lock.anchor) > FRAMES_PER_BIN)
  }

  predicate LockedConflict(setting: Setting, segments: seq<Segment>) {
    setting.locked.Some? && exists i :: 0 <= i < |segments| && ConflictsWith(segments[i], setting.locked.value)
  }

  /** Only the hybrid form lists its beats; numbering them also numbers segments. */
  function PlacedSegments(shaped: seq<Segment>, hybrid: bool): (r: seq<Segment>)
    ensures |r| == |shaped|
  {
    if hybrid then seq(|shaped|, i requires 0 <= i < |shaped| => Numbered(shaped, i)) else shaped
  }

  function PlacedBeats(shaped: seq<Segment>, hybrid: bool): seq<Beat> {
    if hybrid then Generated(shaped, |shaped|) else []
  }

  /** The grid before it gets its revision. */
  function Unstamped(setting: Setting, e: Evidence, m: Merge, before: Grid): Grid
    requires |m.drafts| > 0
  {
    var shaped := SegmentsOf(setting, m);
    var hybrid := setting.dynamic || |m.drafts| > 1;
    before.(
      segments := PlacedSegments(shaped, hybrid), beats := PlacedBeats(shaped, hybrid), hybrid := hybrid,
      degraded := m.degraded || (hybrid && exists i :: 0 <= i < |shaped| && CutShort(shaped, i)),
      dynamic := |m.drafts| > 1,
      maturity := MaturityOf(setting, e, MeanConfidence(m)), confidence := MeanConfidence(m),
      requested := Range(0, if setting.totalFrames.Some? then setting.totalFrames.value else e.end * FRAMES_PER_BIN),
      evidence := Range(e.first * FRAMES_PER_BIN, FrameEnd(setting, e)),
      nominalTempo := NominalTempo(m))
  }

  datatype Commitment = Committed(grid: Grid) | Broken(grid: Grid)

  function SignatureOf(setting: Setting, g: Grid): nat {
    setting.hash(SignedPart(g.segments, |g.beats|, g.hybrid))
  }

  function StampedSegments(segments: seq<Segment>, id: nat): seq<Segment> {
    seq(|segments|, i requires 0 <= i < |segments| => segments[i].(revision := id))
  }

  function StampedBeats(beats: seq<Beat>, id: nat): seq<Beat> {
    seq(|beats|, i requires 0 <= i < |beats| => beats[i].(revision := id))
  }

  function RevisionOf(setting: Setting, g: Grid, mergeDegraded: bool, id: nat, previous: nat): Revision {
    var conflict := LockedConflict(setting, g.segments);
    Revision(
      id, previous, g.confidence, if conflict then setting.locked.value.range else g.evidence,
      g.hybrid, |g.segments|, |g.beats|, g.dynamic, mergeDegraded, conflict, conflict)
  }

  /** Does a result have to be published for the new grid? */
  predicate Mutated(setting: Setting, g: Grid, before: Grid) {
    || SignatureOf(setting, g) != before.signature || before.maturity != g.maturity
    || before.revision.None? || before.revision.value.pending != LockedConflict(setting, g.segments)
    || before.serial == 0
  }

  function Stamp(setting: Setting, g: Grid, before: Grid, mergeDegraded: bool, id: nat, previous: nat): Grid {
    g.(segments := StampedSegments(g.segments, id), beats := StampedBeats(g.beats, id),
       revisionId := id, previousId := previous,
       revision := Some(RevisionOf(setting, g, mergeDegraded, id, previous)),
       signature := SignatureOf(setting, g), serial := before.serial + One(Mutated(setting, g, before)))
  }

  function One(b: bool): nat { if b then 1 else 0 }

  /** A changed grid gets the next revision number; the 32-bit number running out
      is found only after the segments were replaced. */
  function Commit(setting: Setting, e: Evidence, m: Merge, before: Grid): Commitment {
    if |m.drafts| == 0 then Committed(before)
    else CommitMerge(setting, e, m, before)
  }

  function CommitMerge(setting: Setting, e: Evidence, m: Merge, before: Grid): Commitment
    requires |m.drafts| > 0
  {
    var g := Unstamped(setting, e, m, before);
    if before.revisionId == 0 then Committed(Stamp(setting, g, before, m.degraded, 1, 0))
    else if SignatureOf(setting, g) == before.signature then
      Committed(Stamp(setting, g, before, m.degraded, before.revisionId, before.previousId))
    else if before.revisionId == UINT32_MAX then Broken(g.(previousId := before.revisionId, revisionId := 0))
    else Committed(Stamp(setting, g, before, m.degraded, before.revisionId + 1, before.revisionId))
  }
}
