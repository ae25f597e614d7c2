/** Beats of a tempo segment: positions and periods in frames with a 32-bit
  fraction. */
module GridBeats {
  import opened Common
  import opened GridEvidence
  import opened GridWindows

  const Q32: nat := 0x1_0000_0000
  const MAX_BEATS: nat := 3072

  type Fraction = f: nat | f < Q32

  datatype Fixed = Fixed(whole: nat, fraction: Fraction)

  function Q(f: Fixed): nat {
    f.whole * Q32 + f.fraction
  }

  function FromQ(q: nat): (f: Fixed)
    ensures Q(f) == q
  {
    Fixed(q / Q32, q % Q32)
  }

  datatype Segment = Segment(
    first: nat, end: nat, anchor: Fixed, anchorOrdinal: nat, period: Fixed,
    tempo: Tempo, confidence: Percent, degraded: bool, dynamic: bool,
    id: nat, beatCount: nat, revision: nat)

  datatype Beat = Beat(position: Fixed, ordinal: nat, confidence: Percent, degraded: bool, dynamic: bool, revision: nat)

  // ------------------------------------------------------------------- period

  function PeriodFromTempo(sampleRate: nat, tempo: Tempo): Fixed {
    var numerator := sampleRate * 60000;
    PeriodFraction(numerator % tempo, tempo);
    Fixed(numerator / tempo, numerator % tempo * Q32 / tempo)
  }

  lemma PeriodFraction(remainder: nat, tempo: nat)
    requires remainder < tempo
    ensures remainder * Q32 / tempo < Q32
  {
    var r := remainder * Q32 / tempo;
    assert r * tempo <= remainder * Q32;
    if Q32 <= r { Scale(Q32, r, tempo); }
  }

  /** The period is the exact one, 60000 rate / tempo frames, cut off at 32
      fraction bits. */
  lemma PeriodIsTruncated(sampleRate: nat, tempo: Tempo)
    ensures
      var p := Q(PeriodFromTempo(sampleRate, tempo));
      p * tempo <= sampleRate * 60000 * Q32 < (p + 1) * tempo
  {
    var n := sampleRate * 60000;
    var w, m := n / tempo, n % tempo;
    var f := m * Q32 / tempo;
    assert n == w * tempo + m;
    assert n * Q32 == w * tempo * Q32 + m * Q32;
    assert f * tempo <= m * Q32 < f * tempo + tempo;
    assert (w * Q32 + f) * tempo == w * tempo * Q32 + f * tempo;
  }

  /** Cutting the period off moves beat k < 3072 back by less than 3072 units of
      2^-32 frame. */
  lemma TruncationDrift(sampleRate: nat, tempo: Tempo, k: nat)
    requires k < MAX_BEATS
    ensures
      var exact := k * (sampleRate * 60000 * Q32);
      var placed := k * Q(PeriodFromTempo(sampleRate, tempo)) * tempo;
      placed <= exact < placed + MAX_BEATS * tempo
  {
    var p, n := Q(PeriodFromTempo(sampleRate, tempo)), sampleRate * 60000 * Q32;
    PeriodIsTruncated(sampleRate, tempo);
    assert n == p * tempo + (n - p * tempo) && 0 <= n - p * tempo < tempo;
    Drift(k, p * tempo, n - p * tempo, tempo);
    assert k * (p * tempo) == k * p * tempo;
  }

  lemma Drift(k: nat, whole: nat, rest: nat, tempo: nat)
    requires k < MAX_BEATS && rest < tempo
    ensures k * whole <= k * (whole + rest) < k * whole + MAX_BEATS * tempo
  {
    assert k * (whole + rest) == k * whole + k * rest;
    Scale(rest, tempo, k);
    assert k * rest == rest * k;
    Scale(k, MAX_BEATS - 1, tempo);
    assert MAX_BEATS * tempo == (MAX_BEATS - 1) * tempo + tempo;
  }

  // -------------------------------------------------------------- exact placing

  function CeilDiv(a: nat, d: nat): nat
    requires 0 < d
  {
    (a + d - 1) / d
  }

  /** Start plus whole periods, as far as needed to reach `first`. */
  function Aligned(start: nat, first: nat, period: nat): nat
    requires 0 < period
  {
    if start < first then start + CeilDiv(first - start, period) * period else start
  }

  /** How many of start, start + period, start + 2 period, ... lie before end. */
  function CountBefore(start: nat, end: nat, period: nat): nat
    requires 0 < period
  {
    if start >= end then 0 else 1 + (end - 1 - start) / period
  }

  lemma CountIsExact(start: nat, end: nat, period: nat, k: nat)
    requires 0 < period
    ensures k < CountBefore(start, end, period) <==> start + k * period < end
  {
    if start < end {
      var n := (end - 1 - start) / period;
      assert n * period <= end - 1 - start < n * period + period;
      if k <= n { Scale(k, n, period); } else { Between(n, k, period); }
    } else {
      assert 0 <= k * period;
    }
  }

  /** The aligned start is the earliest step that is not before `first`. */
  lemma AlignedIsEarliest(start: nat, first: nat, period: nat, k: nat)
    requires 0 < period
    ensures first <= Aligned(start, first, period)
    ensures first <= start + k * period ==> Aligned(start, first, period) <= start + k * period
  {
    if start < first {
      var n := CeilDiv(first - start, period);
      assert n * period <= first - start + period - 1 < n * period + period;
      if k < n { Between(k, n, period); } else { Scale(n, k, period); }
    } else {
      assert 0 <= k * period;
    }
  }

  function FirstBeat(s: Segment): nat
    requires 0 < Q(s.period)
  {
    Aligned(Q(s.anchor), s.first * Q32, Q(s.period))
  }

  /** The exact number of beats of the segment. */
  function ExactCount(s: Segment): nat
    requires 0 < Q(s.period)
  {
    CountBefore(FirstBeat(s), s.end * Q32, Q(s.period))
  }

  // ---------------------------------------------------------------- generation

  /** The segment fits the 32-bit frame numbers beat positions are built from. */
  predicate Placeable(s: Segment) {
    && 0 < s.period.whole <= UINT32_MAX && s.anchor.whole <= UINT32_MAX
    && s.first <= UINT32_MAX && s.end <= UINT32_MAX
  }

  /** Rounding the first beat up stays within 64 bits. */
  predicate AlignFits(s: Segment) {
    Q(s.anchor) < s.first * Q32 ==> s.first * Q32 - Q(s.anchor) + Q(s.period) - 1 <= UINT64_MAX
  }

  /** Beat k of the segment lies exactly k periods after its first beat. */
  function BeatOf(s: Segment, ordinal: nat, k: nat): Beat
    requires 0 < Q(s.period)
  {
    Beat(FromQ(FirstBeat(s) + k * Q(s.period)), ordinal + k, s.confidence, s.degraded, s.dynamic, s.revision)
  }

  function Smaller(a: nat, b: nat): nat {
    if a < b then a else b
  }

  function FirstBeats(s: Segment, ordinal: nat, n: nat): seq<Beat>
    requires 0 < Q(s.period)
  {
    seq(n, k requires 0 <= k => BeatOf(s, ordinal, k))
  }

  function SegmentBeats(s: Segment, ordinal: nat, room: nat): seq<Beat>
    requires 0 < Q(s.period)
  {
    FirstBeats(s, ordinal, Smaller(ExactCount(s), room))
  }

  method AlignStart(position: nat, first: nat, period: nat) returns (start: Option<nat>)
    requires 0 < period && position <= UINT64_MAX
    ensures start == if Aligned(position, first, period) > UINT64_MAX && position < first then None
                     else Some(Aligned(position, first, period))
  {
    if position < first {
      var steps := (first - position + period - 1) / period;
      AlignOverflows(position, steps, period);
      if steps > (UINT64_MAX - position) / period {
        return None;
      }
      return Some(position + steps * period);
    }
    return Some(position);
  }

  datatype Placement = Placed(beats: seq<Beat>, truncated: bool) | Overflow

  method PlaceSegment(s: Segment, ordinal: nat, room: nat) returns (placement: Placement)
    requires Placeable(s) && AlignFits(s)
    ensures placement.Overflow? <==> FirstBeat(s) > UINT64_MAX
    ensures placement.Placed? ==>
      placement.beats == SegmentBeats(s, ordinal, room) && (placement.truncated <==> room < ExactCount(s))
  {
    var start := AlignStart(Q(s.anchor), s.first * Q32, Q(s.period));
    if start.None? {
      return Overflow;
    }
    var beats, truncated := PlaceBeats(s, start.value, s.end * Q32, Q(s.period), ordinal, room);
    return Placed(beats, truncated);
  }

  method PlaceBeats(s: Segment, start: nat, end: nat, period: nat, ordinal: nat, room: nat)
    returns (beats: seq<Beat>, truncated: bool)
    requires 0 < period == Q(s.period) && start == FirstBeat(s) <= UINT64_MAX && end <= UINT64_MAX
    ensures beats == FirstBeats(s, ordinal, Smaller(CountBefore(start, end, period), room))
    ensures truncated <==> room < CountBefore(start, end, period)
  {
    var position := start;
    beats := [];
    while position < end
      invariant position == start + |beats| * period
      invariant |beats| <= Smaller(CountBefore(start, end, period), room)
      invariant beats == FirstBeats(s, ordinal, |beats|)
      decreases room - |beats|
    {
      CountIsExact(start, end, period, |beats|);
      if |beats| >= room {
        return beats, true;
      }
      NextStep(start, |beats|, period);
      beats := beats + [BeatOf(s, ordinal, |beats|).(position := FromQ(position))];
      if position > UINT64_MAX - period {
        CountIsExact(start, end, period, |beats|);
        return beats, false;
      }
      position := position + period;
    }
    CountIsExact(start, end, period, |beats|);
    return beats, false;
  }

  lemma NextStep(start: nat, k: nat, period: nat)
    ensures start + (k + 1) * period == start + k * period + period
  {
  }

  lemma AlignOverflows(position: nat, steps: nat, period: nat)
    requires 0 < period && position <= UINT64_MAX
    ensures steps > (UINT64_MAX - position) / period <==> position + steps * period > UINT64_MAX
  {
    var n := (UINT64_MAX - position) / period;
    assert n * period <= UINT64_MAX - position < n * period + period;
    if n < steps { Between(n, steps, period); } else { Scale(steps, n, period); }
  }

  /** The beats of the first n segments, in order. */
  function Generated(segments: seq<Segment>, n: nat): (beats: seq<Beat>)
    requires n <= |segments|
    ensures |beats| <= 3072
  {
    if n == 0 then []
    else
      var before := Generated(segments, n - 1);
      var s := segments[n - 1];
      if Placeable(s) then before + SegmentBeats(s, |before|, MAX_BEATS - |before|) else before
  }

  /** A segment after generation: where its ordinals start, how many beats it got. */
  function Numbered(segments: seq<Segment>, i: nat): Segment
    requires i < |segments|
  {
    var s := segments[i];
    if !Placeable(s) then s
    else s.(anchorOrdinal := |Generated(segments, i)|,
            beatCount := |Generated(segments, i + 1)| - |Generated(segments, i)|)
  }

  predicate CutShort(segments: seq<Segment>, i: nat)
    requires i < |segments|
  {
    !Placeable(segments[i]) || |Generated(segments, i)| + ExactCount(segments[i]) > MAX_BEATS
  }

  datatype Generation = Generation(beats: seq<Beat>, segments: seq<Segment>, degraded: bool)

  method GenerateBeats(segments: seq<Segment>) returns (generation: Option<Generation>)
    requires forall i :: 0 <= i < |segments| && Placeable(segments[i]) ==> AlignFits(segments[i])
    ensures generation.None? <==>
      exists i :: 0 <= i < |segments| && Placeable(segments[i]) && FirstBeat(segments[i]) > UINT64_MAX
    ensures generation.Some? ==>
      && generation.value.beats == Generated(segments, |segments|)
      && generation.value.segments == seq(|segments|, i requires 0 <= i < |segments| => Numbered(segments, i))
      && (generation.value.degraded <==> exists i :: 0 <= i < |segments| && CutShort(segments, i))
  {
    var beats: seq<Beat>, updated: seq<Segment>, degraded := [], [], false;
    for i := 0 to |segments|
      invariant beats == Generated(segments, i)
      invariant updated == seq(i, k requires 0 <= k < i => Numbered(segments, k))
      invariant degraded <==> exists k :: 0 <= k < i && CutShort(segments, k)
      invariant forall k :: 0 <= k < i && Placeable(segments[k]) ==> FirstBeat(segments[k]) <= UINT64_MAX
    {
      var s := segments[i];
      if Placeable(s) {
        var placement := PlaceSegment(s, |beats|, MAX_BEATS - |beats|);
        if placement.Overflow? {
          return None;
        }
        assert CutShort(segments, i) <==> placement.truncated;
        degraded := degraded || placement.truncated;
        updated := updated + [s.(anchorOrdinal := |beats|, beatCount := |placement.beats|)];
        beats := beats + placement.beats;
      } else {
        assert CutShort(segments, i);
        degraded := true;
        updated := updated + [s];
      }
    }
    return Some(Generation(beats, updated, degraded));
  }

  // -------------------------------------------------------- what the beats keep

  ghost predicate Ordered(segments: seq<Segment>) {
    forall i, j :: 0 <= i < j < |segments| ==> segments[i].end <= segments[j].first
  }

  /** Every beat lies in [low, high), in frames. */
  ghost predicate Within(beats: seq<Beat>, low: nat, high: nat) {
    forall k :: 0 <= k < |beats| ==> low * Q32 <= Q(beats[k].position) < high * Q32
  }

  ghost predicate Rising(beats: seq<Beat>) {
    && (forall k :: 0 <= k < |beats| ==> beats[k].ordinal == k)
    && forall j, k :: 0 <= j < k < |beats| ==> Q(beats[j].position) < Q(beats[k].position)
  }

  lemma SegmentBeatsAreWithin(s: Segment, ordinal: nat, room: nat)
    requires Placeable(s)
    ensures Within(SegmentBeats(s, ordinal, room), s.first, s.end)
    ensures forall j, k :: 0 <= j < k < |SegmentBeats(s, ordinal, room)| ==>
      Q(SegmentBeats(s, ordinal, room)[j].position) < Q(SegmentBeats(s, ordinal, room)[k].position)
  {
    var beats, start, period := SegmentBeats(s, ordinal, room), FirstBeat(s), Q(s.period);
    AlignedIsEarliest(Q(s.anchor), s.first * Q32, period, 0);
    forall k | 0 <= k < |beats| ensures s.first * Q32 <= Q(beats[k].position) < s.end * Q32 {
      CountIsExact(start, s.end * Q32, period, k);
      assert 0 <= k * period;
    }
    forall j, k | 0 <= j < k < |beats| ensures Q(beats[j].position) < Q(beats[k].position) {
      Between(j, k, period);
    }
  }

  /** More beats, numbered on, at or after the point the first ones end before. */
  lemma AppendRises(before: seq<Beat>, more: seq<Beat>, low: nat, mid: nat, first: nat, high: nat)
    requires Rising(before) && Within(before, low, mid)
    requires Within(more, first, high) && low <= first && mid <= first < high
    requires forall k :: 0 <= k < |more| ==> more[k].ordinal == |before| + k
    requires forall j, k :: 0 <= j < k < |more| ==> Q(more[j].position) < Q(more[k].position)
    ensures Rising(before + more) && Within(before + more, low, high)
  {
  }

  /** Ordinals run on across segments, positions rise, and every beat lies inside
      the segments. */
  lemma {:induction false} GeneratedRises(segments: seq<Segment>, n: nat)
    requires n <= |segments| && Ordered(segments)
    requires forall i :: 0 <= i < |segments| ==> segments[i].first < segments[i].end
    ensures Rising(Generated(segments, n))
    ensures n > 0 ==> Within(Generated(segments, n), segments[0].first, segments[n - 1].end)
  {
    if n > 0 {
      GeneratedRises(segments, n - 1);
      var before, s := Generated(segments, n - 1), segments[n - 1];
      var mid := if n > 1 then segments[n - 2].end else s.first;
      assert n > 1 ==> mid <= s.first && segments[0].first < s.first;
      if Placeable(s) {
        SegmentBeatsAreWithin(s, |before|, MAX_BEATS - |before|);
        AppendRises(before, SegmentBeats(s, |before|, MAX_BEATS - |before|), segments[0].first, mid, s.first, s.end);
      }
    }
  }

  /** Some beat exists as soon as one segment fits the 32-bit form and is long
      enough for its first beat; otherwise none does. */
  lemma {:induction false} GeneratedIsNonEmpty(segments: seq<Segment>, n: nat)
    requires n <= |segments|
    ensures |Generated(segments, n)| > 0 <==>
      exists i :: 0 <= i < n && Placeable(segments[i]) && ExactCount(segments[i]) > 0
  {
    if n > 0 {
      GeneratedIsNonEmpty(segments, n - 1);
    }
  }

  // ------------------------------------------------------------- counting beats

  /** The period in whole frames, rounded up. */
  function WholePeriod(s: Segment): nat {
    s.period.whole + if s.period.fraction != 0 then 1 else 0
  }

  /** The counter's idea of the first beat: whole frames only. */
  function WholeFirst(s: Segment): nat
    requires 0 < s.period.whole
  {
    Aligned(s.anchor.whole, s.first, WholePeriod(s))
  }

  predicate CountFits(s: Segment) {
    s.anchor.whole <= UINT64_MAX && (s.anchor.whole < s.first ==> s.first - s.anchor.whole + WholePeriod(s) - 1 <= UINT64_MAX)
  }

  function CountedBeats(s: Segment): nat {
    if s.period.whole == 0 || s.first >= s.end || WholeFirst(s) > UINT64_MAX then 0
    else Smaller(CountBefore(WholeFirst(s), s.end, WholePeriod(s)), UINT32_MAX)
  }

  /** Where the rounding wraps it gives no step at all: counting starts at the anchor
      itself, in front of the range. */
  function WrappedCount(s: Segment): nat {
    if s.period.whole == 0 || s.first >= s.end then 0
    else Smaller(CountBefore(s.anchor.whole, s.end, WholePeriod(s)), UINT32_MAX)
  }

  /** Whole frames are 64 bits, and a period that is added still is, rounded up. */
  predicate FramesFit(s: Segment) {
    s.anchor.whole <= UINT64_MAX
    && (s.anchor.whole < s.first ==> s.first <= UINT64_MAX && WholePeriod(s) <= UINT64_MAX)
  }

  const WRAP: nat := UINT64_MAX + 1

  method BeatCount(s: Segment) returns (count: nat)
    requires FramesFit(s)
    ensures count == if CountFits(s) then CountedBeats(s) else WrappedCount(s)
  {
    if s.period.whole == 0 || s.first >= s.end {
      return 0;
    }
    var period := WholePeriod(s);
    var anchor := Some(s.anchor.whole);
    if s.anchor.whole < s.first && s.first - s.anchor.whole + period - 1 > UINT64_MAX {
      var steps := (s.first - s.anchor.whole + period - 1) % WRAP / period;
      WrapsToNothing(s.first - s.anchor.whole, period);
      assert steps == 0;
    } else {
      anchor := AlignStart(s.anchor.whole, s.first, period);
    }
    if anchor.None? || anchor.value >= s.end {
      return 0;
    }
    var exact := CountFrom(anchor.value, s.end, period);
    return if exact > UINT32_MAX then UINT32_MAX else exact;
  }

  lemma {:induction false} WrapsToNothing(distance: nat, period: nat)
    requires 0 < period && distance <= UINT64_MAX && period <= UINT64_MAX && distance + period - 1 > UINT64_MAX
    ensures (distance + period - 1) % WRAP / period == 0
  {
    var x := distance + period - 1;
    DivisionIs(x, WRAP, 1, x - WRAP);
    DivisionIs(x - WRAP, period, 0, x - WRAP);
  }

  method CountFrom(anchor: nat, end: nat, period: nat) returns (count: nat)
    requires 0 < period && anchor < end
    ensures count == CountBefore(anchor, end, period)
  {
    count := 1 + (end - 1 - anchor) / period;
  }

  /** Rounding the period up never catches up with the exact beats: if the first
      beat is not counted early, no beat is. */
  lemma CountNeverExceeds(s: Segment)
    requires 0 < s.period.whole && FirstBeat(s) / Q32 <= WholeFirst(s)
    ensures CountedBeats(s) <= ExactCount(s)
  {
    var n := CountedBeats(s);
    if 0 < n {
      var k := n - 1;
      CountIsExact(WholeFirst(s), s.end, WholePeriod(s), k);
      LaterInQ32(FirstBeat(s), WholeFirst(s), Q(s.period), WholePeriod(s), k, s.end);
      CountIsExact(FirstBeat(s), s.end * Q32, Q(s.period), k);
    }
  }

  lemma LaterInQ32(q: nat, whole: nat, periodQ: nat, period: nat, k: nat, end: nat)
    requires q / Q32 <= whole && periodQ <= period * Q32 && whole + k * period < end
    ensures q + k * periodQ < end * Q32
  {
    assert q < (whole + 1) * Q32;
    Scale(periodQ, period * Q32, k);
    assert period * Q32 * k == k * period * Q32;
    assert (whole + 1 + k * period) * Q32 == (whole + 1) * Q32 + k * period * Q32;
    Scale(whole + 1 + k * period, end, Q32);
  }

  /** A segment that starts at its anchor, as every refresh produces, is counted
      safely. */
  lemma AnchoredCountIsSafe(s: Segment)
    requires 0 < s.period.whole && s.first <= s.anchor.whole
    ensures CountedBeats(s) <= ExactCount(s)
  {
    assert Q(s.anchor) / Q32 == s.anchor.whole;
    CountNeverExceeds(s);
  }

  ghost predicate CountIsSafeFor(s: Segment, end: nat)
    requires 0 < Q(s.period)
  {
    CountedBeats(s.(end := end)) <= ExactCount(s.(end := end))
  }

  /** The counter is safe for every end of the range exactly when its first beat
      is not earlier than the exact first beat (or does not exist). */
  lemma CountIsSafeExactly(s: Segment)
    requires 0 < s.period.whole
    ensures (forall end: nat :: CountIsSafeFor(s, end)) <==>
      WholeFirst(s) > UINT64_MAX || FirstBeat(s) / Q32 <= WholeFirst(s)
  {
    if FirstBeat(s) / Q32 <= WholeFirst(s) || WholeFirst(s) > UINT64_MAX {
      forall end: nat ensures CountIsSafeFor(s, end) {
        var t := s.(end := end);
        assert FirstBeat(t) == FirstBeat(s) && WholeFirst(t) == WholeFirst(s);
        if WholeFirst(s) <= UINT64_MAX { CountNeverExceeds(t); }
      }
    } else {
      EarlyCount(s);
    }
  }

  lemma EarlyCount(s: Segment)
    requires 0 < s.period.whole && WholeFirst(s) <= UINT64_MAX && WholeFirst(s) < FirstBeat(s) / Q32
    ensures !CountIsSafeFor(s, WholeFirst(s) + 1)
  {
    var t := s.(end := WholeFirst(s) + 1);
    AlignedIsEarliest(s.anchor.whole, s.first, WholePeriod(s), 0);
    assert FirstBeat(t) == FirstBeat(s) && WholeFirst(t) == WholeFirst(s);
    assert (WholeFirst(s) + 1) * Q32 <= FirstBeat(s) / Q32 * Q32 <= FirstBeat(s);
  }

  /** It does happen: anchor 0, period 4.5 frames, range [10, 11). The exact beats
      13.5, 18, ... miss the range, the counter sees one at frame 10. */
  lemma CountCanExceed(tempo: Tempo)
    ensures
      var s := Segment(10, 11, Fixed(0, 0), 0, Fixed(4, Q32 / 2), tempo, 0, false, false, 1, 0, 1);
      CountedBeats(s) == 1 && ExactCount(s) == 0
  {
  }
}
