/** Windows of the global grid: the flux each window sees, and the merging of
  window estimates into tempo segments. */
module GridWindows {
  import opened Common
  import opened GridEvidence

  const WINDOW_BINS: nat := 128
  const MIN_BINS: nat := 64
  const MAX_SEGMENTS: nat := 8
  const MERGE_TOLERANCE: nat := 1500
  const MAGNITUDE_SCALE: real := 32768.0

  type Tempo = t: nat | 40000 <= t <= 300000 witness 120000
  type Percent = p: nat | p <= 100
  type Positive = n: nat | 0 < n witness 1

  // --------------------------------------------------------------------- flux

  function Energy(ring: Ring, index: nat): real {
    match BinAt(ring, index)
    case None => 0.0
    case Some(bin) =>
      if bin.samples == 0 then 0.0 else bin.sum as real / (bin.samples as real * MAGNITUDE_SCALE)
  }

  /** The rise in energy over the previous bin; the first bin has no previous. */
  function Flux(ring: Ring, index: nat, first: nat): real {
    var current := Energy(ring, index);
    var previous := if index > first then Energy(ring, index - 1) else 0.0;
    if current > previous then current - previous else 0.0
  }

  /** The flux of a bin within a stretch, given the stretch's first bin. */
  type FluxRule = (nat, nat) -> real

  function FluxRuleOf(ring: Ring): FluxRule {
    (index: nat, first: nat) => Flux(ring, index, first)
  }

  /** Only the first element of a stretch depends on where the stretch starts. */
  ghost predicate Steady(flux: FluxRule) {
    forall index: nat, a: nat, b: nat :: a < index && b < index ==> flux(index, a) == flux(index, b)
  }

  lemma RingFluxIsSteady(ring: Ring)
    ensures Steady(FluxRuleOf(ring))
  {
    var flux := FluxRuleOf(ring);
    forall index: nat, a: nat, b: nat | a < index && b < index ensures flux(index, a) == flux(index, b) {
      assert Flux(ring, index, a) == Flux(ring, index, b);
    }
  }

  /** The flux of [first, end) computed for that stretch alone. */
  function FluxOf(flux: FluxRule, first: nat, end: nat): seq<real>
    requires first <= end
  {
    seq(end - first, i requires 0 <= i => flux(first + i, first))
  }

  // ------------------------------------------------------------------ windows

  /** What the tempo estimator reports about one window. */
  datatype Estimate = Estimate(tempo: Tempo, phase: nat, confidence: Percent)

  predicate EstimateFits(bins: nat, e: Option<Estimate>) {
    e.Some? ==> MIN_BINS <= bins && 2 * e.value.phase < bins
  }

  /** The estimator reads the flux of the window and nothing else. */
  type Estimator = f: seq<real> -> Option<Estimate> | forall s :: EstimateFits(|s|, f(s))
    witness (s => None)

  /** Number of windows a stretch of evidence is cut into. */
  function Windows(e: Evidence): nat
    requires e.first <= e.end
  {
    (e.end - e.first + WINDOW_BINS - 1) / WINDOW_BINS
  }

  function WindowFirst(e: Evidence, k: nat): nat {
    e.first + k * WINDOW_BINS
  }

  function WindowEnd(e: Evidence, k: nat): nat {
    if WindowFirst(e, k) + WINDOW_BINS > e.end then e.end else WindowFirst(e, k) + WINDOW_BINS
  }

  datatype Window = Window(first: nat, end: nat, estimate: Estimate)

  /** The estimate of the window that starts at `first` and has this flux. */
  function CurrentWindow(estimator: Estimator, first: nat, flux: seq<real>): (w: Option<Window>)
    ensures w.Some? ==> WindowOk(w.value) && w.value.first == first && w.value.end == first + |flux|
  {
    var estimate := estimator(flux);
    assert EstimateFits(|flux|, estimate);
    if estimate.None? then None else Some(Window(first, first + |flux|, estimate.value))
  }

  predicate WindowOk(w: Window) {
    w.first + MIN_BINS <= w.end && 2 * w.estimate.phase < w.end - w.first
  }

  // ------------------------------------------------------------------ merging

  /** A tempo segment under construction, in bins; `windows` counts its merges. */
  datatype Draft = Draft(
    first: nat, end: nat, anchor: nat, tempo: Tempo, confidence: Percent, degraded: bool, windows: Positive)

  datatype Merge = Merge(
    drafts: seq<Draft>, windows: nat, totalConfidence: nat, degraded: bool)

  const NOTHING := Merge([], 0, 0, false)

  function Difference(a: nat, b: nat): nat {
    if a > b then a - b else b - a
  }

  /** A running average stays between its old value and the new sample. */
  function Averaged(average: nat, count: Positive, sample: nat): (r: nat)
    ensures average <= sample ==> average <= r <= sample
    ensures sample <= average ==> sample <= r <= average
  {
    AverageIsBetween(average, count, sample);
    (average * count + sample) / (count + 1)
  }

  lemma AverageIsBetween(average: nat, count: Positive, sample: nat)
    ensures
      var r := (average * count + sample) / (count + 1);
      && (average <= sample ==> average <= r <= sample)
      && (sample <= average ==> sample <= r <= average)
  {
    assert average * (count + 1) == average * count + average;
    assert sample * (count + 1) == sample * count + sample;
    if average <= sample {
      Scale(average, sample, count);
      QuotientBetween(average, sample, average * count + sample, count + 1);
    } else {
      Scale(sample, average, count);
      QuotientBetween(sample, average, average * count + sample, count + 1);
    }
  }

  lemma Scale(a: nat, b: nat, d: nat)
    requires a <= b
    ensures a * d <= b * d
  {
  }

  lemma QuotientBetween(low: nat, high: nat, total: nat, d: nat)
    requires 0 < d && low * d <= total <= high * d
    ensures low <= total / d <= high
  {
    var r := total / d;
    assert r * d <= total < r * d + d;
    if r < low { Between(r, low, d); }
    if high < r { Between(high, r, d); }
  }

  /** One more window joins the last draft or opens a new one; beyond the last
      possible draft it only stretches that one. */
  function Added(m: Merge, w: Window): Merge {
    var n := |m.drafts|;
    if n == 0 || Difference(m.drafts[n - 1].tempo, w.estimate.tempo) > MERGE_TOLERANCE then
      if n >= MAX_SEGMENTS then
        m.(drafts := m.drafts[n - 1 := m.drafts[n - 1].(end := w.end, degraded := true)], degraded := true)
      else
        Counted(m, w.estimate.confidence, m.drafts + [
          Draft(w.first, w.end, w.first + w.estimate.phase, w.estimate.tempo, w.estimate.confidence, false, 1)])
    else
      var d := m.drafts[n - 1];
      Counted(m, w.estimate.confidence, m.drafts[n - 1 := d.(
          tempo := Averaged(d.tempo, d.windows, w.estimate.tempo),
          confidence := Averaged(d.confidence, d.windows, w.estimate.confidence),
          end := w.end, windows := d.windows + 1)])
  }

  function Counted(m: Merge, confidence: Percent, drafts: seq<Draft>): Merge {
    Merge(drafts, m.windows + 1, m.totalConfidence + confidence, m.degraded)
  }

  /** What one more window, given by its start and flux, does to a merge. */
  type AbsorbRule = (Merge, nat, seq<real>) -> Merge

  function AbsorbRuleOf(estimator: Estimator): AbsorbRule {
    (m: Merge, first: nat, flux: seq<real>) => MaybeAdded(m, CurrentWindow(estimator, first, flux))
  }

  /** The merge of the first k windows of the evidence. */
  function MergeOf(flux: FluxRule, absorb: AbsorbRule, e: Evidence, k: nat): Merge
    requires e.first <= e.end && (k == 0 || WindowFirst(e, k - 1) < e.end)
  {
    if k == 0 then NOTHING
    else
      var first, end := WindowFirst(e, k - 1), WindowEnd(e, k - 1);
      absorb(MergeOf(flux, absorb, e, k - 1), first, FluxOf(flux, first, end))
  }

  function MaybeAdded(m: Merge, w: Option<Window>): Merge {
    if w.None? then m else Added(m, w.value)
  }

  // ---------------------------------------------------------- what merging keeps

  predicate DraftOk(d: Draft) {
    && d.first <= d.anchor && d.first + MIN_BINS <= d.end
    && 2 * (d.anchor - d.first) < d.end - d.first
  }

  /** Drafts are in order, disjoint and inside [first, end). */
  ghost predicate MergeOk(m: Merge, first: nat, end: nat) {
    && |m.drafts| <= MAX_SEGMENTS
    && (forall i :: 0 <= i < |m.drafts| ==> DraftOk(m.drafts[i]) && first <= m.drafts[i].first && m.drafts[i].end <= end)
    && (forall i, j :: 0 <= i < j < |m.drafts| ==> m.drafts[i].end <= m.drafts[j].first)
    && |m.drafts| <= m.windows && (m.windows > 0 ==> |m.drafts| > 0)
    && m.totalConfidence <= 100 * m.windows
  }

  lemma AddedKeepsMerge(m: Merge, w: Window, first: nat)
    requires MergeOk(m, first, w.first) && WindowOk(w) && first <= w.first
    ensures MergeOk(Added(m, w), first, w.end)
    ensures |Added(m, w).drafts| > 0
  {
  }

  lemma MaybeAddedKeepsMerge(m: Merge, w: Option<Window>, low: nat, first: nat, end: nat)
    requires MergeOk(m, low, first) && low <= first <= end
    requires w.Some? ==> WindowOk(w.value) && w.value.first == first && w.value.end == end
    ensures MergeOk(MaybeAdded(m, w), low, end)
  {
    if w.Some? { AddedKeepsMerge(m, w.value, low); } else { MergeStretches(m, low, first, end); }
  }

  lemma MergeStretches(m: Merge, first: nat, end: nat, later: nat)
    requires MergeOk(m, first, end) && end <= later
    ensures MergeOk(m, first, later)
  {
  }

  /** Whatever the estimator says, the merge stays in order inside the evidence. */
  lemma {:induction false} MergeIsOk(flux: FluxRule, estimator: Estimator, e: Evidence, k: nat)
    requires e.first <= e.end && (k == 0 || WindowFirst(e, k - 1) < e.end)
    ensures MergeOk(MergeOf(flux, AbsorbRuleOf(estimator), e, k), e.first, if k == 0 then e.first else WindowEnd(e, k - 1))
  {
    if k != 0 {
      MergeIsOk(flux, estimator, e, k - 1);
      var first, end := WindowFirst(e, k - 1), WindowEnd(e, k - 1);
      var w := CurrentWindow(estimator, first, FluxOf(flux, first, end));
      MaybeAddedKeepsMerge(MergeOf(flux, AbsorbRuleOf(estimator), e, k - 1), w, e.first, first, end);
    }
  }
}
