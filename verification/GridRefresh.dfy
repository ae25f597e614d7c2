/** The cooperative refresh of the global grid: one call may do any number of
  steps, and the result does not depend on how the steps are split. */
module GridRefresh {
  import opened Common
  import opened GridEvidence
  import opened GridWindows
  import opened GridBeats
  import opened GridCommit
  import opened GridAcceptance

  const MIN_NEW_BINS: nat := 32

  /** The refresh in progress, and the committed grid. */
  datatype State = State(
    working: bool, evidence: Evidence, next: nat, flux: seq<real>, merge: Merge,
    pending: bool, refreshedEnd: nat, grid: Grid)

  /** What a call reads: the ring only through its best evidence and its flux.
      How a window is merged and a grid committed does not matter here. */
  datatype Feed = Feed(
    finalEnd: Option<nat>, capacity: nat, evidence: Option<Evidence>, flux: FluxRule,
    absorb: AbsorbRule, fallback: FallbackRule, commit: CommitRule)

  ghost predicate FeedOk(f: Feed) {
    && (f.evidence.Some? ==>
      f.evidence.value.first < f.evidence.value.end <= f.evidence.value.first + f.capacity)
    && Steady(f.flux)
  }

  type Inputs = f: Feed | FeedOk(f)
    ghost witness Feed(None, 0, None, (i, f) => 0.0, (m, i, flux) => m, (e, m) => m, (e, m, g) => Committed(g))

  ghost function BestEvidence(ring: Ring, finalEnd: Option<nat>): (best: Option<Evidence>)
    ensures best.Some? <==> exists e :: IsBest(ring, finalEnd, e)
    ensures best.Some? ==> IsBest(ring, finalEnd, best.value)
  {
    if e :| IsBest(ring, finalEnd, e) then Some(e) else None
  }

  /** No window gave an estimate: the session's own tempo, if any, stands in. */
  function WithFallback(fallback: Option<(Tempo, Percent)>, e: Evidence, m: Merge): Merge {
    if m.windows == 0 && fallback.Some? then
      Added(m.(degraded := true), Window(e.first, e.end, Estimate(fallback.value.0, 0, fallback.value.1)))
    else m
  }

  type FallbackRule = (Evidence, Merge) -> Merge
  type CommitRule = (Evidence, Merge, Grid) -> Commitment

  function FallbackRuleOf(fallback: Option<(Tempo, Percent)>): FallbackRule {
    (e: Evidence, m: Merge) => WithFallback(fallback, e, m)
  }

  function CommitRuleOf(setting: Setting): CommitRule {
    (e: Evidence, m: Merge, before: Grid) => Commit(setting, e, m, before)
  }

  /** The inputs of a session with this ring. */
  ghost function InputsOf(setting: Setting, ring: Ring): Inputs {
    RingFluxIsSteady(ring);
    BestFitsRing(ring, setting.finalEnd);
    Feed(setting.finalEnd, |ring|, BestEvidence(ring, setting.finalEnd), FluxRuleOf(ring),
         AbsorbRuleOf(setting.estimator), FallbackRuleOf(setting.fallback), CommitRuleOf(setting))
  }

  lemma BestFitsRing(ring: Ring, finalEnd: Option<nat>)
    ensures
      var best := BestEvidence(ring, finalEnd);
      best.Some? ==> best.value.first < best.value.end <= best.value.first + |ring|
  {
    var best := BestEvidence(ring, finalEnd);
    if best.Some? { RunFitsRing(ring, finalEnd, best.value.first, best.value.end); }
  }

  datatype Status = Ok | MoreWork | LimitExceeded

  /** What the clock readings of a call find, in order: is the deadline passed?
      Readings beyond the list find it is not. */
  type Clock = seq<bool>

  predicate Passed(late: Clock, reading: nat) {
    reading < |late| && late[reading]
  }

  datatype Outcome = Outcome(state: State, status: Status, steps: nat, readings: nat)

  ghost predicate Sound(inputs: Inputs, st: State) {
    && |st.flux| == inputs.capacity
    && (st.working ==>
      && st.evidence.first <= st.next <= st.evidence.end
      && st.evidence.first < st.evidence.end <= st.evidence.first + inputs.capacity)
  }

  // -------------------------------------------------------------------- steps

  /** Is there enough new evidence to refresh at all? */
  predicate WorthIt(inputs: Inputs, st: State, e: Evidence) {
    && MIN_BINS <= e.end - e.first
    && (e.end < st.refreshedEnd || (inputs.finalEnd.Some? && !st.grid.maturity.Final?)
        || st.refreshedEnd + MIN_NEW_BINS <= e.end)
  }

  function KeptEnd(st: State, e: Evidence): nat {
    if e.end < st.refreshedEnd then 0 else st.refreshedEnd
  }

  /** Fill the shared flux cache and clear the private merge. */
  function Start(inputs: Inputs, st: State, e: Evidence): State
    requires |st.flux| == inputs.capacity && e.first <= e.end <= e.first + inputs.capacity
  {
    st.(working := true, evidence := e, next := e.first, merge := NOTHING, pending := false,
        refreshedEnd := KeptEnd(st, e),
        flux := FluxOf(inputs.flux, e.first, e.end) + st.flux[e.end - e.first..])
  }

  function NextEnd(st: State): nat {
    if st.next + WINDOW_BINS > st.evidence.end then st.evidence.end else st.next + WINDOW_BINS
  }

  ghost predicate InWindow(inputs: Inputs, st: State) {
    Sound(inputs, st) && st.working && st.next < st.evidence.end
  }

  /** The first element of a window has no predecessor inside the window. */
  function Patched(inputs: Inputs, st: State): (flux: seq<real>)
    requires InWindow(inputs, st)
    ensures |flux| == inputs.capacity
  {
    st.flux[st.next - st.evidence.first := inputs.flux(st.next, st.next)]
  }

  function WindowFlux(inputs: Inputs, st: State): (slice: seq<real>)
    requires InWindow(inputs, st)
    ensures |slice| == NextEnd(st) - st.next
  {
    Patched(inputs, st)[st.next - st.evidence.first..NextEnd(st) - st.evidence.first]
  }

  /** Patch the first element of the window's flux, estimate, merge. */
  function WindowStep(inputs: Inputs, st: State): State
    requires InWindow(inputs, st)
  {
    st.(flux := Patched(inputs, st), next := NextEnd(st), merge := inputs.absorb(st.merge, st.next, WindowFlux(inputs, st)))
  }

  /** Did the evidence move on while the refresh was running? */
  predicate EvidenceMoved(inputs: Inputs, e: Evidence, current: Option<Evidence>) {
    && current.Some?
    && (current.value.first < e.first || current.value.end < e.end
        || (inputs.finalEnd.Some? && current.value != e)
        || e.end + MIN_NEW_BINS <= current.value.end)
  }

  /** Fallback and commit, the last step of a refresh. */
  function Finish(inputs: Inputs, st: State): (State, Status)
    requires Sound(inputs, st) && st.working && st.evidence.first + MIN_BINS <= st.evidence.end == st.next
  {
    var merge := inputs.fallback(st.evidence, st.merge);
    var rested := st.(working := false, merge := merge, refreshedEnd := st.evidence.end,
                      pending := EvidenceMoved(inputs, st.evidence, inputs.evidence));
    var (grid, status) := Committing(inputs.commit, st.evidence, merge, st.grid, rested.pending);
    (rested.(grid := grid), status)
  }

  /** The committed grid and the status; without a single segment nothing changes. */
  function Committing(commit: CommitRule, e: Evidence, merge: Merge, before: Grid, pending: bool): (Grid, Status) {
    if |merge.drafts| == 0 then (before, Ok)
    else match commit(e, merge, before)
      case Broken(g) => (g, Status.LimitExceeded)
      case Committed(g) => (g, if pending then MoreWork else Ok)
  }

  lemma WindowStepIsSound(inputs: Inputs, st: State)
    requires InWindow(inputs, st)
    ensures Sound(inputs, WindowStep(inputs, st)) && WindowStep(inputs, st).working
  {
  }

  // -------------------------------------------------------------------- calls

  /** Window steps until the windows, the budget or the time run out. */
  function RunWindows(inputs: Inputs, st: State, room: nat, late: Clock, reading: nat): (r: (State, nat))
    requires Sound(inputs, st) && st.working
    ensures Sound(inputs, r.0) && r.0.working && r.1 <= room && r.0.evidence == st.evidence
    decreases room
  {
    if st.next >= st.evidence.end || room == 0 then (st, 0)
    else
      WindowStepIsSound(inputs, st);
      var stepped := WindowStep(inputs, st);
      if Passed(late, reading) then (stepped, 1)
      else
        var (end, n) := RunWindows(inputs, stepped, room - 1, late, reading + 1);
        (end, n + 1)
  }

  /** Enough evidence, and enough of it new. */
  predicate StartsWith(inputs: Inputs, st: State) {
    inputs.evidence.Some? && WorthIt(inputs, st, inputs.evidence.value)
  }

  /** A call that starts nothing: there is nothing to do, or no budget for it. */
  function NotStarted(inputs: Inputs, st: State): (State, Status) {
    if StartsWith(inputs, st) then
      (st.(pending := true, refreshedEnd := KeptEnd(st, inputs.evidence.value)), MoreWork)
    else (st.(pending := false), Ok)
  }

  ghost predicate CanCall(inputs: Inputs, st: State) {
    Sound(inputs, st) && (st.working ==> st.evidence.first + MIN_BINS <= st.evidence.end)
  }

  /** A call up to the end of one refresh; `spent` of its steps are gone already. */
  function Round(inputs: Inputs, st: State, limit: nat, spent: nat, late: Clock, reading: nat): (o: Outcome)
    requires CanCall(inputs, st) && spent <= limit
    ensures spent <= o.steps <= limit
  {
    if st.working then Continue(inputs, st, limit, spent, late, reading)
    else if spent < limit && StartsWith(inputs, st) then
      Continue(inputs, Start(inputs, st, inputs.evidence.value), limit, spent + 1, late, reading)
    else
      var (rested, status) := NotStarted(inputs, st);
      Outcome(rested, status, spent, reading)
  }

  /** The windows that fit, then the last step if there is budget for it. */
  function Continue(inputs: Inputs, st: State, limit: nat, spent: nat, late: Clock, reading: nat): (o: Outcome)
    requires CanCall(inputs, st) && st.working && spent <= limit
    ensures spent <= o.steps <= limit
  {
    var (swept, n) := RunWindows(inputs, st, limit - spent, late, reading);
    if swept.next < swept.evidence.end || spent + n >= limit then Outcome(swept, MoreWork, spent + n, reading + n)
    else
      var (done, status) := Finish(inputs, swept);
      Outcome(done, status, spent + n + 1, reading + n)
  }

  /** The commit left budget and found that the evidence moved: go around again. */
  predicate GoesAgain(o: Outcome, limit: nat, spent: nat) {
    o.status.MoreWork? && !o.state.working && spent < o.steps < limit
  }

  /** One call of the refresh. */
  ghost function Refresh(inputs: Inputs, st: State, limit: nat, spent: nat, late: Clock, reading: nat): (o: Outcome)
    requires CanCall(inputs, st) && spent <= limit
    ensures spent <= o.steps <= limit
    decreases limit - spent
  {
    var o := Round(inputs, st, limit, spent, late, reading);
    if GoesAgain(o, limit, spent) && CanCall(inputs, o.state) then
      Refresh(inputs, o.state, limit, o.steps, late, o.readings)
    else o
  }
}
