/** Whatever a refresh commits, the container reader accepts. */
module GridAcceptance {
  import opened Common
  import opened GridEvidence
  import opened GridWindows
  import opened GridBeats
  import opened GridCommit

  // --------------------------------------------------- the reader's conditions

  predicate RangeValid(r: Range) { r.first < r.end }

  predicate MaturityAllowed(maturity: Maturity, partial: bool) {
    partial || maturity.Final?
  }

  ghost predicate SegmentsAccepted(segments: seq<Segment>, applicability: Range) {
    forall i :: 0 <= i < |segments| ==>
      && segments[i].first < segments[i].end && segments[i].period.whole != 0
      && applicability.first <= segments[i].first && segments[i].end <= applicability.end
      && (i != 0 ==> segments[i - 1].end <= segments[i].first)
  }

  ghost predicate BeatsAccepted(beats: seq<Beat>, applicability: Range) {
    forall k :: 0 <= k < |beats| ==>
      && applicability.first <= beats[k].position.whole < applicability.end
      && (k != 0 ==> Q(beats[k - 1].position) <= Q(beats[k].position) && beats[k - 1].ordinal < beats[k].ordinal)
  }

  ghost predicate GridAccepted(g: Grid, partial: bool) {
    && MaturityAllowed(g.maturity, partial)
    && g.confidence <= 100 && RangeValid(g.requested) && RangeValid(g.evidence)
    && 0 < |g.segments| <= MAX_SEGMENTS && |g.beats| <= MAX_BEATS
    && (g.hybrid <==> |g.beats| != 0)
    && SegmentsAccepted(g.segments, g.evidence) && BeatsAccepted(g.beats, g.evidence)
  }

  ghost predicate RevisionAccepted(g: Grid, partial: bool) {
    && g.revision.Some?
    && var r := g.revision.value;
    && (partial || !r.pending) && r.confidence <= 100 && r.id != 0 && RangeValid(r.affected)
    && !(r.pending && g.maturity.Final?)
    && r.hybrid == g.hybrid && r.segmentCount == |g.segments| && r.beatCount == |g.beats|
    && (forall i :: 0 <= i < |g.segments| ==> g.segments[i].revision == r.id)
    && (forall i :: 0 <= i < |g.beats| ==> g.beats[i].revision == r.id)
  }

  // ------------------------------------------------------ what a refresh offers

  /** A finished refresh: real evidence and a merge of it with something in it. */
  ghost predicate Ready(setting: Setting, e: Evidence, m: Merge) {
    && e.first < e.end && MergeOk(m, e.first, e.end) && 0 < |m.drafts|
    && (setting.finalEnd.Some? ==> (e.end - 1) * FRAMES_PER_BIN < setting.finalEnd.value)
    && (setting.totalFrames.Some? ==> 0 < setting.totalFrames.value)
    && (setting.locked.Some? ==> RangeValid(setting.locked.value.range))
  }

  /** The last bin of real evidence starts before a signalled end. */
  lemma EvidenceStartsBeforeEnd(ring: Ring, finalEnd: Option<nat>, e: Evidence)
    requires IsBest(ring, finalEnd, e) && finalEnd.Some?
    ensures (e.end - 1) * FRAMES_PER_BIN < finalEnd.value
  {
    assert Complete(ring, finalEnd, e.end - 1);
  }

  /** The period has a whole frame exactly when the tempo is not beyond the
      sample rate; at 5 Hz and above it always has. */
  lemma PeriodIsWhole(sampleRate: nat, tempo: Tempo)
    ensures PeriodFromTempo(sampleRate, tempo).whole != 0 <==> tempo <= sampleRate * 60000
    ensures 5 <= sampleRate ==> PeriodFromTempo(sampleRate, tempo).whole != 0
  {
    QuotientIsPositive(sampleRate * 60000, tempo);
  }

  lemma QuotientIsPositive(n: nat, d: nat)
    requires 0 < d
    ensures n / d != 0 <==> d <= n
  {
  }

  /** The place of segment i; its period is a parameter to keep it out of sight. */
  ghost predicate PlacedIn(s: Segment, low: nat, high: nat) {
    && low <= s.first <= s.anchor.whole < s.end <= high
    && s.anchor.fraction == 0 && s.period.whole != 0
  }

  lemma SegmentEndIsLate(setting: Setting, e: Evidence, m: Merge, i: nat)
    requires Ready(setting, e, m) && i < |m.drafts|
    ensures m.drafts[i].anchor * FRAMES_PER_BIN < SegmentEnd(setting, m, i)
    ensures SegmentEnd(setting, m, i) <= m.drafts[i].end * FRAMES_PER_BIN
    ensures SegmentEnd(setting, m, i) <= FrameEnd(setting, e)
  {
    var d := m.drafts[i];
    assert DraftOk(d) && d.end <= e.end;
    assert d.anchor + 2 <= d.end;
    if i + 1 < |m.drafts| {
      assert d.end <= m.drafts[i + 1].first;
      assert DraftOk(m.drafts[i + 1]) && m.drafts[i + 1].end <= e.end;
    }
  }

  lemma ShapedSegment(setting: Setting, e: Evidence, m: Merge, i: nat)
    requires Ready(setting, e, m) && 5 <= setting.sampleRate && i < |m.drafts|
    ensures PlacedIn(ShapeOf(setting, m, i), e.first * FRAMES_PER_BIN, FrameEnd(setting, e))
    ensures ShapeOf(setting, m, i).end <= m.drafts[i].end * FRAMES_PER_BIN
  {
    assert DraftOk(m.drafts[i]) && e.first <= m.drafts[i].first;
    PeriodIsWhole(setting.sampleRate, m.drafts[i].tempo);
    SegmentEndIsLate(setting, e, m, i);
  }

  /** Segments in order, each in [low, high) with its anchor inside. */
  ghost predicate Lined(segments: seq<Segment>, low: nat, high: nat) {
    && Ordered(segments)
    && forall i :: 0 <= i < |segments| ==> PlacedIn(segments[i], low, high)
  }

  lemma ShapedSegmentsAreLined(setting: Setting, e: Evidence, m: Merge)
    requires Ready(setting, e, m) && 5 <= setting.sampleRate
    ensures Lined(SegmentsOf(setting, m), e.first * FRAMES_PER_BIN, FrameEnd(setting, e))
  {
    var shaped := SegmentsOf(setting, m);
    forall i | 0 <= i < |shaped| ensures PlacedIn(shaped[i], e.first * FRAMES_PER_BIN, FrameEnd(setting, e)) {
      ShapedSegment(setting, e, m, i);
    }
    forall i, j | 0 <= i < j < |shaped| ensures shaped[i].end <= shaped[j].first {
      ShapedSegment(setting, e, m, i);
      assert m.drafts[i].end <= m.drafts[j].first;
    }
  }

  /** A segment that starts at its anchor has that anchor as its first beat. */
  lemma AnchoredHasBeat(s: Segment)
    requires Q(s.period) > 0 && s.first <= s.anchor.whole < s.end && s.anchor.fraction == 0
    ensures FirstBeat(s) == Q(s.anchor) && ExactCount(s) > 0
  {
    CountIsExact(FirstBeat(s), s.end * Q32, Q(s.period), 0);
  }

  /** Lined-up segments give beats the reader accepts, and at least one as soon
      as one segment fits the 32-bit frames. */
  lemma LinedBeats(segments: seq<Segment>, low: nat, high: nat)
    requires Lined(segments, low, high)
    ensures
      var beats := Generated(segments, |segments|);
      && Rising(beats) && BeatsAccepted(beats, Range(low, high))
      && (|beats| > 0 <==> exists i :: 0 <= i < |segments| && Placeable(segments[i]))
  {
    var beats := Generated(segments, |segments|);
    GeneratedRises(segments, |segments|);
    GeneratedIsNonEmpty(segments, |segments|);
    forall i | 0 <= i < |segments| && Placeable(segments[i]) ensures ExactCount(segments[i]) > 0 {
      AnchoredHasBeat(segments[i]);
    }
    forall k | 0 <= k < |beats| ensures low <= beats[k].position.whole < high {
      WholeIsWithin(beats[k].position, segments[0].first, segments[|segments| - 1].end);
    }
  }

  lemma WholeIsWithin(f: Fixed, low: nat, high: nat)
    requires low * Q32 <= Q(f) < high * Q32
    ensures low <= f.whole < high
  {
    if f.whole < low { Between(f.whole, low, Q32); }
    if high <= f.whole { Scale(high, f.whole, Q32); }
  }

  lemma LinedIsAccepted(segments: seq<Segment>, low: nat, high: nat)
    requires Lined(segments, low, high)
    ensures SegmentsAccepted(segments, Range(low, high))
    ensures SegmentsAccepted(seq(|segments|, i requires 0 <= i < |segments| => Numbered(segments, i)), Range(low, high))
  {
    var numbered := seq(|segments|, i requires 0 <= i < |segments| => Numbered(segments, i));
    forall i | 0 <= i < |segments| ensures SamePlace(numbered[i], segments[i]) {
    }
    assert forall i :: 0 <= i < |segments| ==> PlacedIn(segments[i], low, high);
  }

  ghost predicate SamePlace(a: Segment, b: Segment) {
    a.first == b.first && a.end == b.end && a.period == b.period
  }

  /** What a commit puts in place, stamped or not. */
  lemma UnstampedIsAccepted(setting: Setting, e: Evidence, m: Merge, before: Grid)
    requires Ready(setting, e, m) && 5 <= setting.sampleRate
    ensures
      var g, shaped := Unstamped(setting, e, m, before), SegmentsOf(setting, m);
      GridAccepted(g, true) <==> (g.hybrid ==> exists i :: 0 <= i < |shaped| && Placeable(shaped[i]))
  {
    var g, shaped := Unstamped(setting, e, m, before), SegmentsOf(setting, m);
    ShapedSegmentsAreLined(setting, e, m);
    LinedBeats(shaped, g.evidence.first, g.evidence.end);
    LinedIsAccepted(shaped, g.evidence.first, g.evidence.end);
    EvidenceRangeIsValid(setting, e, m);
    MeanIsPercent(m);
  }

  lemma MeanIsPercent(m: Merge)
    requires m.windows > 0 && m.totalConfidence <= 100 * m.windows
    ensures MeanConfidence(m) <= 100
  {
    QuotientBetween(0, 100, m.totalConfidence, m.windows);
  }

  lemma EvidenceRangeIsValid(setting: Setting, e: Evidence, m: Merge)
    requires Ready(setting, e, m)
    ensures e.first * FRAMES_PER_BIN < FrameEnd(setting, e)
  {
  }

  lemma StampKeepsAccepted(setting: Setting, g: Grid, before: Grid, degraded: bool, id: nat, previous: nat)
    ensures GridAccepted(Stamp(setting, g, before, degraded, id, previous), true) <==> GridAccepted(g, true)
  {
    var stamped := Stamp(setting, g, before, degraded, id, previous);
    assert |stamped.segments| == |g.segments| && |stamped.beats| == |g.beats|;
    assert forall i :: 0 <= i < |g.segments| ==> g.segments[i] == stamped.segments[i].(revision := g.segments[i].revision);
    assert forall i :: 0 <= i < |g.beats| ==> g.beats[i] == stamped.beats[i].(revision := g.beats[i].revision);
  }

  /** The commit passes the reader's checks: in plain form always, in hybrid form
      exactly when some segment fits the 32-bit frames beats are made of. */
  lemma CommitIsAccepted(setting: Setting, e: Evidence, m: Merge, before: Grid)
    requires Ready(setting, e, m) && 5 <= setting.sampleRate
    requires Commit(setting, e, m, before).Committed?
    ensures
      var g := Commit(setting, e, m, before).grid;
      && (GridAccepted(g, true) <==>
            (g.hybrid ==> exists i :: 0 <= i < |m.drafts| && Placeable(SegmentsOf(setting, m)[i])))
      && (GridAccepted(g, false) <==> GridAccepted(g, true) && g.maturity.Final?)
  {
    var u := Unstamped(setting, e, m, before);
    UnstampedIsAccepted(setting, e, m, before);
    CommitKeepsAccepted(setting, e, m, before, u);
    AcceptedWhole(Commit(setting, e, m, before).grid);
  }

  lemma {:induction false} AcceptedWhole(g: Grid)
    ensures GridAccepted(g, false) <==> GridAccepted(g, true) && g.maturity.Final?
  {
  }

  lemma {:induction false} CommitKeepsAccepted(setting: Setting, e: Evidence, m: Merge, before: Grid, u: Grid)
    requires |m.drafts| > 0 && u == Unstamped(setting, e, m, before) && Commit(setting, e, m, before).Committed?
    ensures
      var g := Commit(setting, e, m, before).grid;
      (GridAccepted(g, true) <==> GridAccepted(u, true)) && g.hybrid == u.hybrid
  {
    if before.revisionId == 0 { StampKeepsAccepted(setting, u, before, m.degraded, 1, 0); }
    else if SignatureOf(setting, u) == before.signature {
      StampKeepsAccepted(setting, u, before, m.degraded, before.revisionId, before.previousId);
    } else {
      StampKeepsAccepted(setting, u, before, m.degraded, before.revisionId + 1, before.revisionId);
    }
  }

  /** Tracks whose frames fit 32 bits always get at least one beat. */
  lemma SmallTracksArePlaceable(setting: Setting, e: Evidence, m: Merge, i: nat)
    requires Ready(setting, e, m) && 5 <= setting.sampleRate <= 0x8000_0000
    requires e.end * FRAMES_PER_BIN <= UINT32_MAX && i < |m.drafts|
    ensures Placeable(SegmentsOf(setting, m)[i])
  {
    ShapedSegment(setting, e, m, i);
    var n, tempo := setting.sampleRate * 60000, m.drafts[i].tempo;
    QuotientBetween(0, UINT32_MAX, n, tempo);
  }

  /** The revision passes the reader's checks unless a locked local grid disputes
      a grid that is already final. */
  lemma RevisionIsAccepted(setting: Setting, e: Evidence, m: Merge, before: Grid)
    requires Ready(setting, e, m)
    requires Commit(setting, e, m, before).Committed?
    ensures
      var g := Commit(setting, e, m, before).grid;
      RevisionAccepted(g, true) <==> !(g.maturity.Final? && LockedConflict(setting, g.segments))
  {
    var u := Unstamped(setting, e, m, before);
    EvidenceRangeIsValid(setting, e, m);
    MeanIsPercent(m);
    if before.revisionId == 0 {
      StampIsConsistent(setting, u, before, m.degraded, 1, 0);
    } else if SignatureOf(setting, u) == before.signature {
      StampIsConsistent(setting, u, before, m.degraded, before.revisionId, before.previousId);
    } else {
      StampIsConsistent(setting, u, before, m.degraded, before.revisionId + 1, before.revisionId);
    }
  }

  lemma StampIsConsistent(setting: Setting, g: Grid, before: Grid, degraded: bool, id: nat, previous: nat)
    requires id != 0 && RangeValid(g.evidence) && g.confidence <= 100
    requires setting.locked.Some? ==> RangeValid(setting.locked.value.range)
    ensures
      var stamped := Stamp(setting, g, before, degraded, id, previous);
      RevisionAccepted(stamped, true) <==> !(stamped.maturity.Final? && LockedConflict(setting, stamped.segments))
  {
    var stamped := Stamp(setting, g, before, degraded, id, previous);
    ConflictIgnoresRevision(setting, g.segments, stamped.segments);
  }

  lemma ConflictIgnoresRevision(setting: Setting, a: seq<Segment>, b: seq<Segment>)
    requires |a| == |b|
    requires forall i :: 0 <= i < |a| ==> b[i] == a[i].(revision := b[i].revision)
    ensures LockedConflict(setting, a) == LockedConflict(setting, b)
  {
    if setting.locked.Some? {
      assert forall i :: 0 <= i < |a| ==> ConflictsWith(a[i], setting.locked.value) == ConflictsWith(b[i], setting.locked.value);
    }
  }

  /** All or nothing fails in exactly one place: the revision number is used up
      and the grid changed. Then the new segments stand under no revision. */
  lemma CommitBreaksExactly(setting: Setting, e: Evidence, m: Merge, before: Grid)
    requires Ready(setting, e, m)
    ensures
      var c := Commit(setting, e, m, before);
      && (c.Broken? <==>
            before.revisionId == UINT32_MAX && SignatureOf(setting, Unstamped(setting, e, m, before)) != before.signature)
      && (c.Broken? ==>
            c.grid.segments == Unstamped(setting, e, m, before).segments && c.grid.revision == before.revision
            && c.grid.revisionId == 0)
  {
  }

  /** Revision numbers: the first commit is 1; later ones go up by one exactly
      when the signature changed, and remember the number they replace. */
  lemma RevisionAdvances(setting: Setting, e: Evidence, m: Merge, before: Grid)
    requires Ready(setting, e, m)
    requires Commit(setting, e, m, before).Committed?
    ensures
      var g := Commit(setting, e, m, before).grid;
      var changed := g.signature != before.signature;
      && g.revision == Some(g.revision.value) && g.revision.value.id == g.revisionId
      && (if before.revisionId == 0 then g.revisionId == 1
          else g.revisionId == before.revisionId + (if changed then 1 else 0))
      && (changed && before.revisionId != 0 ==> g.previousId == before.revisionId)
      && (changed ==> g.serial == before.serial + 1)
      && forall i :: 0 <= i < |g.segments| ==> g.segments[i].revision == g.revisionId
  {
    var u := Unstamped(setting, e, m, before);
    StampNumbers(setting, u, before, m.degraded, 1, 0);
    StampNumbers(setting, u, before, m.degraded, before.revisionId, before.previousId);
    StampNumbers(setting, u, before, m.degraded, before.revisionId + 1, before.revisionId);
  }

  /** What a stamp writes. */
  lemma {:induction false} StampNumbers(setting: Setting, u: Grid, before: Grid, degraded: bool, id: nat, previous: nat)
    ensures
      var g := Stamp(setting, u, before, degraded, id, previous);
      && g.revision.Some? && g.revision.value.id == g.revisionId == id && g.previousId == previous
      && g.signature == SignatureOf(setting, u) && (g.signature != before.signature ==> g.serial == before.serial + 1)
      && forall i :: 0 <= i < |g.segments| ==> g.segments[i].revision == id
  {
  }

  // ------------------------------------------------------------ inputs that fail

  /** One window of 128 bins at this tempo. */
  function OneWindow(tempo: Tempo): Merge {
    Merge([Draft(0, 128, 0, tempo, 80, false, 1)], 1, 80, false)
  }

  const ONE_WINDOW := Evidence(0, 128)

  /** A session at 48 kHz; every grid has signature 1. */
  function Session(finalEnd: Option<nat>, locked: Option<LocalGrid>): Setting {
    Setting(48000, finalEnd, finalEnd, finalEnd.Some?, None, false, locked, s => None, s => 1)
  }

  /** A session whose signatures tell tempos apart. */
  function Telling(): Setting {
    Session(None, None).(hash := (s: Signed) => if |s.segments| > 0 then s.segments[0].3 else 0)
  }

  /** Tempos take turns. */
  function TurnTempo(k: nat): Tempo { if k % 2 == 0 then 120000 else 90000 }

  /** What a commit at some tempo leaves. */
  type Turn = (Grid, Tempo) -> Grid

  function TurnOf(): Turn {
    (before: Grid, tempo: Tempo) => Commit(Telling(), ONE_WINDOW, OneWindow(tempo), before).grid
  }

  /** The grid after k commits, each at the other tempo. */
  function Turns(turn: Turn, k: nat): Grid {
    if k == 0 then NO_GRID else turn(Turns(turn, k - 1), TurnTempo(k))
  }

  lemma {:induction false} TurnIsReady(tempo: Tempo, before: Grid)
    ensures Ready(Telling(), ONE_WINDOW, OneWindow(tempo))
    ensures SignatureOf(Telling(), Unstamped(Telling(), ONE_WINDOW, OneWindow(tempo), before)) == tempo
  {
    var u := Unstamped(Telling(), ONE_WINDOW, OneWindow(tempo), before);
    assert |u.segments| == 1 && u.segments[0].tempo == tempo;
    assert SignedPart(u.segments, |u.beats|, u.hybrid).segments[0].3 == tempo;
  }

  /** A grid of one segment at this tempo under this number. */
  ghost predicate Stands(g: Grid, tempo: Tempo, id: nat) {
    && g.signature == tempo && |g.segments| == 1 && g.segments[0].tempo == tempo
    && g.revisionId == id && g.revision.Some? && g.revision.value.id == id
  }

  /** A commit at another tempo takes the next number while there is one left. */
  ghost predicate TakesNext(turn: Turn, before: Grid, tempo: Tempo) {
    before.revisionId < UINT32_MAX && (before.revisionId == 0 || before.signature != tempo)
    ==> Stands(turn(before, tempo), tempo, before.revisionId + 1)
  }

  lemma {:induction false} TurnTakesNext(before: Grid, tempo: Tempo)
    ensures TakesNext(TurnOf(), before, tempo)
  {
    TurnIsReady(tempo, before);
    CommitBreaksExactly(Telling(), ONE_WINDOW, OneWindow(tempo), before);
  }

  /** Every commit of the run takes the next number. */
  lemma {:induction false} TurnsCount(turn: Turn, k: nat)
    requires forall before, tempo :: TakesNext(turn, before, tempo)
    requires k <= UINT32_MAX
    ensures Turns(turn, k).revisionId == k && (0 < k ==> Stands(Turns(turn, k), TurnTempo(k), k))
  {
    if k > 0 {
      TurnsCount(turn, k - 1);
      assert TakesNext(turn, Turns(turn, k - 1), TurnTempo(k));
    }
  }

  /** The last number is taken and the tempo is another one. */
  lemma {:induction false} LastNumberBreaks(before: Grid, tempo: Tempo)
    requires before.revisionId == UINT32_MAX && before.signature != tempo
    ensures
      var c := Commit(Telling(), ONE_WINDOW, OneWindow(tempo), before);
      && c.Broken? && |c.grid.segments| == 1 && c.grid.segments[0].tempo == tempo
      && c.grid.revision == before.revision && c.grid.revisionId == 0
  {
    TurnIsReady(tempo, before);
    CommitBreaksExactly(Telling(), ONE_WINDOW, OneWindow(tempo), before);
  }

  /** It does happen: after 2^32 - 1 commits that took turns the last number is taken,
      and the segment of the next grid stands under the revision of the last one. */
  lemma {:induction false} CommitCanBreak(turn: Turn, last: nat, before: Grid, tempo: Tempo)
    requires turn == TurnOf() && last == UINT32_MAX && before == Turns(turn, last) && tempo == TurnTempo(last + 1)
    ensures Stands(before, TurnTempo(last), last)
    ensures
      var c := Commit(Telling(), ONE_WINDOW, OneWindow(tempo), before);
      && c.Broken? && |c.grid.segments| == 1 && c.grid.segments[0].tempo == tempo
      && c.grid.revision == before.revision && c.grid.revisionId == 0
  {
    LastTurn(turn, last, before);
    TempoTurns(last);
    LastNumberBreaks(before, tempo);
  }

  lemma {:induction false} TempoTurns(k: nat)
    ensures TurnTempo(k) != TurnTempo(k + 1)
  {
  }

  lemma {:induction false} LastTurn(turn: Turn, last: nat, before: Grid)
    requires turn == TurnOf() && last == UINT32_MAX && before == Turns(turn, last)
    ensures Stands(before, TurnTempo(last), last)
  {
    forall b, tempo ensures TakesNext(turn, b, tempo) {
      TurnTakesNext(b, tempo);
    }
    TurnsCount(turn, last);
  }

  lemma {:induction false} LockDisputes(setting: Setting, segments: seq<Segment>, lock: LocalGrid)
    requires |segments| > 0 && setting.locked == Some(lock) && ConflictsWith(segments[0], lock)
    ensures LockedConflict(setting, segments)
  {
  }

  /** And so does this: the whole track is analysed, so the grid is final, but a local
      grid locked at a tempo 1 bpm away disputes it. */
  lemma {:induction false} FinalCanBeDisputed(tempo: Tempo)
    requires tempo < 200000
    ensures
      var setting := Session(Some(128 * FRAMES_PER_BIN), Some(LocalGrid(Range(0, 48000), tempo + 1000, 0)));
      var c := Commit(setting, ONE_WINDOW, OneWindow(tempo), NO_GRID);
      && Ready(setting, ONE_WINDOW, OneWindow(tempo)) && c.Committed?
      && c.grid.maturity.Final? && !RevisionAccepted(c.grid, true)
  {
    var lock := LocalGrid(Range(0, 48000), tempo + 1000, 0);
    var setting := Session(Some(128 * FRAMES_PER_BIN), Some(lock));
    RevisionIsAccepted(setting, ONE_WINDOW, OneWindow(tempo), NO_GRID);
    var g := Commit(setting, ONE_WINDOW, OneWindow(tempo), NO_GRID).grid;
    assert |g.segments| == 1 && g.segments[0].tempo == tempo && g.segments[0].first == 0;
    assert 0 < g.segments[0].end;
    LockDisputes(setting, g.segments, lock);
  }
}
