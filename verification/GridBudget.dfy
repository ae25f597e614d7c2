/** However a refresh is split into calls, it commits the same grid. */
module GridBudget {
  import opened Common
  import opened GridEvidence
  import opened GridWindows
  import opened GridCommit
  import opened GridRefresh

  // ----------------------------------------------------- the shared flux cache

  /** From `next` on, the cache still holds the flux of the whole stretch. */
  ghost predicate FluxReady(inputs: Inputs, st: State)
    requires Sound(inputs, st) && st.working
  {
    forall i :: st.next - st.evidence.first <= i < st.evidence.end - st.evidence.first ==>
      st.flux[i] == inputs.flux(st.evidence.first + i, st.evidence.first)
  }

  lemma StartFillsFlux(inputs: Inputs, st: State, e: Evidence)
    requires |st.flux| == inputs.capacity && e.first < e.end <= e.first + inputs.capacity
    ensures Sound(inputs, Start(inputs, st, e)) && FluxReady(inputs, Start(inputs, st, e))
  {
  }

  /** Shared cache plus one patched element is exactly what a window would get by
      computing its flux alone. */
  lemma PatchedSliceIsWindowFlux(inputs: Inputs, st: State)
    requires InWindow(inputs, st) && FluxReady(inputs, st)
    ensures WindowFlux(inputs, st) == FluxOf(inputs.flux, st.next, NextEnd(st))
  {
    var base, alone := st.evidence.first, FluxOf(inputs.flux, st.next, NextEnd(st));
    forall j | 0 <= j < NextEnd(st) - st.next ensures Patched(inputs, st)[st.next - base + j] == alone[j] {
      if j > 0 {
        assert inputs.flux(st.next + j, base) == inputs.flux(st.next + j, st.next);
      }
    }
    SliceIs(Patched(inputs, st), st.next - base, NextEnd(st) - base, alone);
  }

  lemma SliceIs<T>(s: seq<T>, low: nat, high: nat, t: seq<T>)
    requires low <= high <= |s| && |t| == high - low
    requires forall j :: 0 <= j < |t| ==> s[low + j] == t[j]
    ensures s[low..high] == t
  {
  }

  /** The patch of one window leaves every later window's cache alone. */
  lemma PatchKeepsLaterFlux(inputs: Inputs, st: State)
    requires InWindow(inputs, st) && FluxReady(inputs, st)
    ensures Sound(inputs, WindowStep(inputs, st)) && FluxReady(inputs, WindowStep(inputs, st))
  {
    WindowStepIsSound(inputs, st);
  }

  // ------------------------------------------------------------- window steps

  ghost predicate Startable(inputs: Inputs, st: State) {
    Sound(inputs, st) && st.working && st.evidence.first + MIN_BINS <= st.evidence.end
  }

  function Left(st: State): nat {
    if st.next < st.evidence.end then (st.evidence.end - st.next + WINDOW_BINS - 1) / WINDOW_BINS else 0
  }

  /** Every state a started refresh runs through, window by window. */
  ghost function Path(inputs: Inputs, st: State): (path: seq<State>)
    requires Startable(inputs, st)
    ensures |path| == Left(st) + 1 && path[0] == st
    decreases Left(st)
  {
    if st.next >= st.evidence.end then [st]
    else
      WindowStepIsSound(inputs, st);
      [st] + Path(inputs, WindowStep(inputs, st))
  }

  /** What does not change along the path, and how many windows are left. */
  ghost predicate OnPath(inputs: Inputs, start: State, st: State, k: nat) {
    && Startable(inputs, st) && st.evidence == start.evidence && st.grid == start.grid
    && Left(st) + k == Left(start)
  }

  lemma {:induction false} PathKeeps(inputs: Inputs, st: State, k: nat)
    requires Startable(inputs, st) && k <= Left(st)
    ensures OnPath(inputs, st, Path(inputs, st)[k], k)
    decreases k
  {
    if k != 0 {
      WindowStepIsSound(inputs, st);
      PathKeeps(inputs, WindowStep(inputs, st), k - 1);
    }
  }

  lemma {:induction false} PathSuffix(inputs: Inputs, st: State, k: nat)
    requires Startable(inputs, st) && k <= Left(st)
    ensures Startable(inputs, Path(inputs, st)[k])
    ensures Path(inputs, Path(inputs, st)[k]) == Path(inputs, st)[k..]
    decreases k
  {
    if k != 0 {
      WindowStepIsSound(inputs, st);
      PathSuffix(inputs, WindowStep(inputs, st), k - 1);
    }
  }

  /** A swept budget is that many window steps; it does none only without budget
      or without windows. */
  lemma {:induction false} SweepFollowsPath(
    inputs: Inputs, st: State, room: nat, late: Clock, reading: nat)
    requires Startable(inputs, st)
    ensures
      var (swept, n) := RunWindows(inputs, st, room, late, reading);
      && n <= Left(st) && swept == Path(inputs, st)[n]
      && (n == 0 ==> room == 0 || Left(st) == 0)
    decreases room
  {
    if st.next < st.evidence.end && room != 0 {
      WindowStepIsSound(inputs, st);
      if !Passed(late, reading) {
        SweepFollowsPath(inputs, WindowStep(inputs, st), room - 1, late, reading + 1);
      }
    }
  }

  /** The same, from anywhere on the path. */
  lemma SweepGoesOn(inputs: Inputs, start: State, k: nat, room: nat, late: Clock, reading: nat)
    requires Startable(inputs, start) && k <= Left(start)
    ensures
      var path := Path(inputs, start);
      && OnPath(inputs, start, path[k], k)
      && var (swept, n) := RunWindows(inputs, path[k], room, late, reading);
      && k + n <= Left(start) && swept == path[k + n] && OnPath(inputs, start, swept, k + n)
      && (n == 0 ==> room == 0 || k == Left(start))
  {
    var path := Path(inputs, start);
    PathKeeps(inputs, start, k);
    PathSuffix(inputs, start, k);
    SweepFollowsPath(inputs, path[k], room, late, reading);
    PathKeeps(inputs, start, k + RunWindows(inputs, path[k], room, late, reading).1);
  }

  // ------------------------------------------------------------- one refresh

  /** An idle session with evidence worth a refresh. */
  ghost predicate Due(inputs: Inputs, st: State, e: Evidence) {
    && Sound(inputs, st) && !st.working && inputs.evidence == Some(e) && WorthIt(inputs, st, e)
  }

  lemma StartIsStartable(inputs: Inputs, st: State, e: Evidence)
    requires Due(inputs, st, e)
    ensures |st.flux| == inputs.capacity && e.first <= e.end <= e.first + inputs.capacity
    ensures Startable(inputs, Start(inputs, st, e)) && Left(Start(inputs, st, e)) == Windows(e)
  {
  }

  /** The whole path of one refresh. */
  ghost function Course(inputs: Inputs, st: State, e: Evidence): (course: seq<State>)
    requires Due(inputs, st, e)
    ensures |course| == Windows(e) + 1
    ensures forall k :: 0 <= k < |course| ==> Placed(inputs, st, e, course[k], k)
  {
    StartIsStartable(inputs, st, e);
    var start := Start(inputs, st, e);
    forall k: nat | k < |Path(inputs, start)| ensures Placed(inputs, st, e, Path(inputs, start)[k], k) {
      PathKeeps(inputs, start, k);
    }
    Path(inputs, start)
  }

  ghost predicate Placed(inputs: Inputs, origin: State, e: Evidence, st: State, k: nat) {
    Startable(inputs, st) && st.evidence == e && st.grid == origin.grid && Left(st) + k == Windows(e)
  }

  /** What the refresh commits, however it is split. */
  ghost function Whole(inputs: Inputs, st: State, e: Evidence): (State, Status)
    requires Due(inputs, st, e)
  {
    Finish(inputs, Course(inputs, st, e)[Windows(e)])
  }

  lemma WholeIsDone(inputs: Inputs, st: State, e: Evidence)
    requires Due(inputs, st, e)
    ensures !Whole(inputs, st, e).1.MoreWork? && !Whole(inputs, st, e).0.pending
  {
  }

  /** The state after p steps of the refresh, counting the fill as step one. */
  ghost predicate Reached(inputs: Inputs, origin: State, e: Evidence, st: State, p: nat)
    requires Due(inputs, origin, e)
  {
    if p == 0 then st == origin || st == origin.(pending := true, refreshedEnd := KeptEnd(origin, e))
    else p <= Windows(e) + 1 && st == Course(inputs, origin, e)[p - 1]
  }

  ghost predicate Advanced(inputs: Inputs, origin: State, e: Evidence, p: nat, o: Outcome)
    requires Due(inputs, origin, e)
  {
    if o.status.MoreWork? then Reached(inputs, origin, e, o.state, p)
    else (o.state, o.status) == Whole(inputs, origin, e) && p == Windows(e) + 2
  }

  lemma ReachedIsPrivate(inputs: Inputs, origin: State, e: Evidence, st: State, p: nat)
    requires Due(inputs, origin, e) && Reached(inputs, origin, e, st, p)
    ensures CanCall(inputs, st) && st.grid == origin.grid && p <= Windows(e) + 1
  {
    if p != 0 {
      assert Placed(inputs, origin, e, st, p - 1);
    }
  }

  lemma CourseGoesOn(
    inputs: Inputs, origin: State, e: Evidence, st: State, k: nat, room: nat, late: Clock, reading: nat)
    requires Due(inputs, origin, e) && k <= Windows(e) && st == Course(inputs, origin, e)[k]
    ensures
      var (swept, n) := RunWindows(inputs, st, room, late, reading);
      && k + n <= Windows(e) && swept == Course(inputs, origin, e)[k + n]
      && (n == 0 ==> room == 0 || k == Windows(e))
      && (swept.next < e.end <==> k + n < Windows(e))
  {
    StartIsStartable(inputs, origin, e);
    CourseIsPath(inputs, origin, e);
    SweepGoesOn(inputs, Start(inputs, origin, e), k, room, late, reading);
  }

  lemma {:induction false} CourseIsPath(inputs: Inputs, origin: State, e: Evidence)
    requires Due(inputs, origin, e)
    ensures Startable(inputs, Start(inputs, origin, e))
    ensures Course(inputs, origin, e) == Path(inputs, Start(inputs, origin, e))
  {
    StartIsStartable(inputs, origin, e);
  }

  lemma ContinueSplits(inputs: Inputs, st: State, limit: nat, spent: nat, late: Clock, reading: nat)
    requires Startable(inputs, st) && spent <= limit
    ensures
      var (swept, n) := RunWindows(inputs, st, limit - spent, late, reading);
      var o := Continue(inputs, st, limit, spent, late, reading);
      if swept.next < swept.evidence.end || spent + n >= limit then
        o == Outcome(swept, MoreWork, spent + n, reading + n)
      else
        var (done, status) := Finish(inputs, swept);
        o == Outcome(done, status, spent + n + 1, reading + n)
  {
  }

  /** A sweep that went n windows on and then paused or concluded as it must. */
  ghost predicate SweptTo(
    inputs: Inputs, origin: State, e: Evidence, swept: State, k: nat, limit: nat, spent: nat, o: Outcome)
    requires Due(inputs, origin, e)
  {
    && k <= Windows(e) && swept == Course(inputs, origin, e)[k]
    && if k < Windows(e) || spent >= limit then o.status.MoreWork? && o.state == swept && o.steps == spent
       else (o.state, o.status) == Whole(inputs, origin, e) && !o.status.MoreWork? && o.steps == spent + 1
  }

  lemma SweptIsAdvanced(
    inputs: Inputs, origin: State, e: Evidence, swept: State, k: nat, limit: nat, spent: nat, o: Outcome)
    requires Due(inputs, origin, e) && SweptTo(inputs, origin, e, swept, k, limit, spent, o)
    ensures spent <= o.steps && Advanced(inputs, origin, e, k + 1 + o.steps - spent, o)
    ensures k == Windows(e) && spent < limit ==> spent < o.steps
  {
  }

  lemma ContinueSweeps(
    inputs: Inputs, origin: State, e: Evidence, st: State, k: nat,
    limit: nat, spent: nat, late: Clock, reading: nat) returns (swept: State, n: nat)
    requires Due(inputs, origin, e) && k <= Windows(e) && st == Course(inputs, origin, e)[k] && spent <= limit
    ensures Startable(inputs, st)
    ensures SweptTo(inputs, origin, e, swept, k + n, limit, spent + n, Continue(inputs, st, limit, spent, late, reading))
    ensures n == 0 ==> limit == spent || k == Windows(e)
  {
    assert Placed(inputs, origin, e, st, k);
    var r := RunWindows(inputs, st, limit - spent, late, reading);
    swept, n := r.0, r.1;
    CourseGoesOn(inputs, origin, e, st, k, limit - spent, late, reading);
    ContinueSplits(inputs, st, limit, spent, late, reading);
    PausesOrConcludes(
      inputs, origin, e, swept, k + n, limit, spent + n, Continue(inputs, st, limit, spent, late, reading));
  }

  lemma {:induction false} PausesOrConcludes(
    inputs: Inputs, origin: State, e: Evidence, swept: State, k: nat, limit: nat, spent: nat, o: Outcome)
    requires Due(inputs, origin, e) && k <= Windows(e) && swept == Course(inputs, origin, e)[k]
    requires swept.evidence == e && (swept.next < e.end <==> k < Windows(e))
    requires
      if swept.next < swept.evidence.end || spent >= limit then
        o.status.MoreWork? && o.state == swept && o.steps == spent
      else (o.state, o.status) == Finish(inputs, swept) && o.steps == spent + 1
    ensures SweptTo(inputs, origin, e, swept, k, limit, spent, o)
  {
    if k == Windows(e) && spent < limit {
      WholeIsDone(inputs, origin, e);
    }
  }

  lemma ContinueAdvances(
    inputs: Inputs, origin: State, e: Evidence, st: State, k: nat,
    limit: nat, spent: nat, late: Clock, reading: nat)
    requires Due(inputs, origin, e) && k <= Windows(e) && st == Course(inputs, origin, e)[k] && spent <= limit
    ensures Startable(inputs, st)
    ensures
      var o := Continue(inputs, st, limit, spent, late, reading);
      && spent <= o.steps && Advanced(inputs, origin, e, k + 1 + o.steps - spent, o)
      && (spent < limit ==> spent < o.steps)
  {
    var swept, n := ContinueSweeps(inputs, origin, e, st, k, limit, spent, late, reading);
    var o := Continue(inputs, st, limit, spent, late, reading);
    SweptIsAdvanced(inputs, origin, e, swept, k + n, limit, spent + n, o);
  }

  /** The first call: a limit of zero only notes that work is due. */
  lemma FirstRoundAdvances(inputs: Inputs, origin: State, e: Evidence, st: State, limit: nat, late: Clock)
    requires Due(inputs, origin, e) && Reached(inputs, origin, e, st, 0) && CanCall(inputs, st)
    ensures
      var o := Round(inputs, st, limit, 0, late, 0);
      Advanced(inputs, origin, e, o.steps, o) && (0 < limit ==> 0 < o.steps)
  {
    if limit != 0 {
      var start := Start(inputs, origin, e);
      assert Start(inputs, st, e) == start == Course(inputs, origin, e)[0];
      ContinueAdvances(inputs, origin, e, start, 0, limit, 1, late, 0);
    }
  }

  /** One call, whatever its limit and clock, goes on from where the last one
      stopped; with a budget it always moves. */
  lemma RoundAdvances(inputs: Inputs, origin: State, e: Evidence, st: State, p: nat, limit: nat, late: Clock)
    requires Due(inputs, origin, e) && Reached(inputs, origin, e, st, p) && CanCall(inputs, st)
    ensures
      var o := Round(inputs, st, limit, 0, late, 0);
      Advanced(inputs, origin, e, p + o.steps, o) && (0 < limit ==> 0 < o.steps)
  {
    if p == 0 {
      FirstRoundAdvances(inputs, origin, e, st, limit, late);
    } else {
      assert Placed(inputs, origin, e, st, p - 1);
      ContinueAdvances(inputs, origin, e, st, p - 1, limit, 0, late, 0);
    }
  }

  /** Without new input a call never goes around again. */
  lemma AdvancedNeverGoesAgain(inputs: Inputs, origin: State, e: Evidence, p: nat, o: Outcome, limit: nat)
    requires Due(inputs, origin, e) && Advanced(inputs, origin, e, p, o) && o.steps <= p
    ensures !GoesAgain(o, limit, 0)
  {
    WholeIsDone(inputs, origin, e);
    if o.status.MoreWork? && 0 < p {
      assert Placed(inputs, origin, e, o.state, p - 1);
    }
  }

  lemma CallAdvances(inputs: Inputs, origin: State, e: Evidence, st: State, p: nat, limit: nat, late: Clock)
    requires Due(inputs, origin, e) && Reached(inputs, origin, e, st, p) && CanCall(inputs, st)
    ensures
      var o := Refresh(inputs, st, limit, 0, late, 0);
      Advanced(inputs, origin, e, p + o.steps, o) && (0 < limit ==> 0 < o.steps)
  {
    RoundAdvances(inputs, origin, e, st, p, limit, late);
    var o := Round(inputs, st, limit, 0, late, 0);
    AdvancedNeverGoesAgain(inputs, origin, e, p + o.steps, o, limit);
  }

  // ------------------------------------------------------------ many calls

  datatype Call = Call(limit: nat, late: Clock)

  type Caller = (State, Call) -> Outcome

  ghost function CallerOf(inputs: Inputs): Caller {
    (st: State, call: Call) =>
      if CanCall(inputs, st) then Refresh(inputs, st, call.limit, 0, call.late, 0) else Outcome(st, MoreWork, 0, 0)
  }

  /** Call after call until one does not ask for more. */
  ghost function Drive(caller: Caller, st: State, calls: seq<Call>): Outcome
    decreases |calls|
  {
    if |calls| == 0 then Outcome(st, MoreWork, 0, 0)
    else
      var o := caller(st, calls[0]);
      if !o.status.MoreWork? then o
      else
        var rest := Drive(caller, o.state, calls[1..]);
        rest.(steps := o.steps + rest.steps)
  }

  ghost predicate Budgeted(calls: seq<Call>) {
    forall i :: 0 <= i < |calls| ==> 0 < calls[i].limit
  }

  /** `at(o, p)`: the outcome is what p steps of the refresh may give. */
  ghost predicate Goes(caller: Caller, at: (Outcome, nat) -> bool, st: State, p: nat, call: Call) {
    var o := caller(st, call);
    at(o, p + o.steps) && (0 < call.limit ==> 0 < o.steps)
  }

  ghost predicate Follows(caller: Caller, at: (Outcome, nat) -> bool) {
    forall st, p, call :: at(Outcome(st, MoreWork, 0, 0), p) ==> Goes(caller, at, st, p, call)
  }

  /** Only where a call paused matters to the next one. */
  ghost predicate Resumes(at: (Outcome, nat) -> bool) {
    forall o: Outcome, p: nat {:trigger at(o, p)} ::
      (o.status.MoreWork? ==> at(o, p) == at(Outcome(o.state, MoreWork, 0, 0), p))
      && forall steps: nat :: at(o.(steps := steps), p) == at(o, p)
  }

  lemma {:induction false} DriveFollows(
    caller: Caller, at: (Outcome, nat) -> bool, st: State, p: nat, calls: seq<Call>)
    requires Follows(caller, at) && Resumes(at) && at(Outcome(st, MoreWork, 0, 0), p)
    ensures
      var o := Drive(caller, st, calls);
      && at(o, p + o.steps)
      && (Budgeted(calls) && o.status.MoreWork? ==> |calls| <= o.steps)
    decreases |calls|
  {
    if |calls| != 0 {
      assert Goes(caller, at, st, p, calls[0]);
      var o := caller(st, calls[0]);
      if o.status.MoreWork? {
        DriveFollows(caller, at, o.state, p + o.steps, calls[1..]);
        var rest := Drive(caller, o.state, calls[1..]);
        assert at(rest.(steps := o.steps + rest.steps), p + o.steps + rest.steps);
      }
    }
  }

  lemma DriveAdvances(inputs: Inputs, origin: State, e: Evidence, calls: seq<Call>)
    requires Due(inputs, origin, e)
    ensures
      var o := Drive(CallerOf(inputs), origin, calls);
      && Advanced(inputs, origin, e, o.steps, o)
      && (Budgeted(calls) && o.status.MoreWork? ==> |calls| <= o.steps)
  {
    var at := AdvancedBy(inputs, origin, e);
    CallerFollows(inputs, origin, e);
    AdvancedResumes(inputs, origin, e);
    DriveFollows(CallerOf(inputs), at, origin, 0, calls);
  }

  ghost function AdvancedBy(inputs: Inputs, origin: State, e: Evidence): (Outcome, nat) -> bool
    requires Due(inputs, origin, e)
  {
    (o: Outcome, p: nat) => Advanced(inputs, origin, e, p, o)
  }

  lemma {:induction false} CallerFollows(inputs: Inputs, origin: State, e: Evidence)
    requires Due(inputs, origin, e)
    ensures Follows(CallerOf(inputs), AdvancedBy(inputs, origin, e))
  {
    var caller, at := CallerOf(inputs), AdvancedBy(inputs, origin, e);
    forall st, p, call | at(Outcome(st, MoreWork, 0, 0), p) ensures Goes(caller, at, st, p, call) {
      ReachedIsPrivate(inputs, origin, e, st, p);
      CallAdvances(inputs, origin, e, st, p, call.limit, call.late);
    }
  }

  lemma {:induction false} AdvancedResumes(inputs: Inputs, origin: State, e: Evidence)
    requires Due(inputs, origin, e)
    ensures Resumes(AdvancedBy(inputs, origin, e))
  {
  }

  /** Budget independence. With no input in between, any calls with any limits and
      any deadline breaks either leave the committed grid as it was, or have
      committed exactly the one refresh, in windows + 2 steps altogether. */
  lemma BudgetIndependence(inputs: Inputs, st: State, e: Evidence, calls: seq<Call>)
    requires Due(inputs, st, e)
    ensures
      var o := Drive(CallerOf(inputs), st, calls);
      if o.status.MoreWork? then o.state.grid == st.grid && o.steps <= Windows(e) + 1
      else (o.state, o.status) == Whole(inputs, st, e) && o.steps == Windows(e) + 2
  {
    DriveAdvances(inputs, st, e, calls);
    var o := Drive(CallerOf(inputs), st, calls);
    if o.status.MoreWork? {
      ReachedIsPrivate(inputs, st, e, o.state, o.steps);
    }
  }

  /** Calls with some budget each finish the refresh in at most windows + 2 calls. */
  lemma BudgetedCallsFinish(inputs: Inputs, st: State, e: Evidence, calls: seq<Call>)
    requires Due(inputs, st, e)
    requires Budgeted(calls) && Windows(e) + 2 <= |calls|
    ensures !Drive(CallerOf(inputs), st, calls).status.MoreWork?
  {
    BudgetIndependence(inputs, st, e, calls);
    DriveAdvances(inputs, st, e, calls);
  }

  // --------------------------------------------------- what the windows saw

  /** The private merge is the merge of the windows' own flux. */
  ghost predicate OnTrack(inputs: Inputs, e: Evidence, st: State, k: nat) {
    && Sound(inputs, st) && st.working && st.evidence == e && FluxReady(inputs, st)
    && (k == 0 || WindowFirst(e, k - 1) < e.end)
    && st.next == (if k == 0 then e.first else WindowEnd(e, k - 1))
    && st.merge == MergeOf(inputs.flux, inputs.absorb, e, k)
  }

  lemma TickStaysOnTrack(inputs: Inputs, e: Evidence, st: State, k: nat)
    requires OnTrack(inputs, e, st, k) && st.next < e.end
    ensures OnTrack(inputs, e, WindowStep(inputs, st), k + 1)
  {
    PatchKeepsLaterFlux(inputs, st);
    PatchedSliceIsWindowFlux(inputs, st);
    NextWindow(e, k);
  }

  lemma NextWindow(e: Evidence, k: nat)
    requires e.first < e.end && (k == 0 || WindowEnd(e, k - 1) < e.end)
    ensures WindowFirst(e, k) == (if k == 0 then e.first else WindowEnd(e, k - 1))
  {
  }

  lemma {:induction false} PathIsOnTrack(inputs: Inputs, e: Evidence, st: State, k: nat, n: nat)
    requires OnTrack(inputs, e, st, k) && Startable(inputs, st) && n <= Left(st)
    ensures OnTrack(inputs, e, Path(inputs, st)[n], k + n)
    decreases n
  {
    if n != 0 {
      TickStaysOnTrack(inputs, e, st, k);
      PathIsOnTrack(inputs, e, WindowStep(inputs, st), k + 1, n - 1);
    }
  }

  /** What is committed is the merge of every window of the evidence, each
      estimated from its own flux, with the session's tempo as a last resort. */
  lemma WholeMergesEveryWindow(inputs: Inputs, st: State, e: Evidence)
    requires Due(inputs, st, e)
    ensures Windows(e) > 0 && WindowFirst(e, Windows(e) - 1) < e.end == WindowEnd(e, Windows(e) - 1)
    ensures Course(inputs, st, e)[Windows(e)].merge == MergeOf(inputs.flux, inputs.absorb, e, Windows(e))
  {
    StartIsStartable(inputs, st, e);
    StartFillsFlux(inputs, st, e);
    PathIsOnTrack(inputs, e, Start(inputs, st, e), 0, Windows(e));
  }
}
