/** The global grid of a session, updated in place by the cooperative refresh. */
module GlobalGridSession {
  import opened Common
  import opened GridEvidence
  import opened GridWindows
  import opened GridBeats
  import opened GridCommit
  import opened GridAcceptance
  import opened GridRefresh
  import opened GridBudget

  class GlobalGrid {
    const bins: array<Bin>
    const flux: array<real>
    var working: bool
    var evidence: Evidence
    var next: nat
    var merge: Merge
    var pending: bool
    var refreshedEnd: nat
    var grid: Grid

    ghost predicate Valid()
      reads this, bins, flux
    {
      && 0 < bins.Length == flux.Length
      && (working ==>
        && evidence.first <= next <= evidence.end
        && evidence.first + MIN_BINS <= evidence.end <= evidence.first + bins.Length
        && evidence.end <= UINT32_MAX + 1)
    }

    /** The private merge is in order and inside what has been looked at. */
    ghost predicate Merged()
      reads this
    {
      working ==> MergeOk(merge, evidence.first, next)
    }

    ghost function State(): State
      reads this, flux
    {
      GridRefresh.State(working, evidence, next, flux[..], merge, pending, refreshedEnd, grid)
    }

    constructor (capacity: nat)
      requires 0 < capacity
      ensures Valid() && Merged() && RingOk(bins[..]) && fresh(bins) && fresh(flux) && bins.Length == capacity
      ensures !working && !pending && grid == NO_GRID
    {
      bins := new Bin[capacity](_ => EMPTY_BIN);
      flux := new real[capacity](_ => 0.0);
      working, evidence, next, merge := false, Evidence(0, 0), 0, NOTHING;
      pending, refreshedEnd, grid := false, 0, NO_GRID;
      new;
      assert forall slot :: 0 <= slot < bins.Length ==> bins[..][slot] == EMPTY_BIN;
    }

    method FillFlux(e: Evidence)
      requires Valid() && e.first <= e.end <= e.first + bins.Length
      modifies flux
      ensures flux[..] == FluxOf(FluxRuleOf(bins[..]), e.first, e.end) + old(flux[..])[e.end - e.first..]
    {
      ghost var ring: Ring := bins[..];
      for i := 0 to e.end - e.first
        invariant forall k :: 0 <= k < i ==> flux[k] == Flux(ring, e.first + k, e.first)
        invariant forall k :: i <= k < flux.Length ==> flux[k] == old(flux[k])
      {
        flux[i] := Flux(bins[..], e.first + i, e.first);
      }
    }

    /** Patch the first flux element of the next window and return its flux. */
    method PatchFlux(ghost inputs: Inputs) returns (slice: seq<real>)
      requires Valid() && working && next < evidence.end
      requires inputs.capacity == bins.Length && inputs.flux == FluxRuleOf(bins[..])
      modifies flux
      ensures InWindow(inputs, old(State())) && flux[..] == Patched(inputs, old(State()))
      ensures slice == WindowFlux(inputs, old(State()))
    {
      var end := next + WINDOW_BINS;
      if end > evidence.end {
        end := evidence.end;
      }
      var rule := FluxRuleOf(bins[..]);
      flux[next - evidence.first] := rule(next, next);
      slice := flux[next - evidence.first..end - evidence.first];
    }

    /** One window: patch its first flux element, estimate, merge. */
    method DoWindow(setting: Setting, ghost inputs: Inputs)
      requires Valid() && working && next < evidence.end && FeedsWindows(setting, bins[..], inputs)
      modifies this`next, this`merge, flux
      ensures Valid() && State() == old(WindowStep(inputs, State()))
    {
      ghost var before := State();
      var slice := PatchFlux(inputs);
      Absorb(setting, slice);
      AbsorbIs(setting, inputs, before.merge, before.next, slice);
    }

    method Absorb(setting: Setting, slice: seq<real>)
      requires Valid() && working && next + |slice| <= evidence.end
      modifies this`next, this`merge
      ensures Valid() && next == old(next) + |slice|
      ensures merge == MaybeAdded(old(merge), CurrentWindow(setting.estimator, old(next), slice))
    {
      var w := CurrentWindow(setting.estimator, next, slice);
      merge, next := MaybeAdded(merge, w), next + |slice|;
    }

    /** Shape the merged drafts into segments and count their beats. */
    method ShapeSegments(setting: Setting, m: Merge) returns (segments: seq<Segment>)
      requires forall i :: 0 <= i < |m.drafts| ==> DraftOk(m.drafts[i]) && m.drafts[i].end <= UINT32_MAX + 1
      ensures segments == SegmentsOf(setting, m)
    {
      segments := [];
      for i := 0 to |m.drafts|
        invariant |segments| == i && forall k :: 0 <= k < i ==> segments[k] == SegmentOf(setting, m, k)
      {
        var shape := ShapeOf(setting, m, i);
        var count := BeatCount(shape);
        segments := segments + [shape.(beatCount := count)];
      }
    }

    /** Place the beats if the grid lists them. */
    method PlaceBeats(setting: Setting, m: Merge, hybrid: bool)
      returns (segments: seq<Segment>, beats: seq<Beat>, truncated: bool)
      requires Drafted(m)
      ensures segments == PlacedSegments(SegmentsOf(setting, m), hybrid)
      ensures beats == PlacedBeats(SegmentsOf(setting, m), hybrid)
      ensures truncated <==>
        hybrid && exists i :: 0 <= i < |SegmentsOf(setting, m)| && CutShort(SegmentsOf(setting, m), i)
    {
      segments := ShapeSegments(setting, m);
      beats, truncated := [], false;
      if hybrid {
        AnchorsNeedNoAligning(setting, m);
        var generation := GenerateBeats(segments);
        segments, beats, truncated := generation.value.segments, generation.value.beats, generation.value.degraded;
      }
    }

    /** Replace the visible grid by the merged one, beats included. */
    method ReplaceGrid(setting: Setting, m: Merge)
      requires Drafted(m)
      modifies this`grid
      ensures grid == Unstamped(setting, evidence, m, old(grid))
    {
      var widest := WidestDraft(m);
      var hybrid := setting.dynamic || |m.drafts| > 1;
      var segments, beats, truncated := PlaceBeats(setting, m, hybrid);
      grid := grid.(
        segments := segments, beats := beats, hybrid := hybrid, degraded := m.degraded || truncated,
        dynamic := |m.drafts| > 1,
        maturity := MaturityOf(setting, evidence, MeanConfidence(m)), confidence := MeanConfidence(m),
        requested := Range(0, if setting.totalFrames.Some? then setting.totalFrames.value else evidence.end * FRAMES_PER_BIN),
        evidence := Range(evidence.first * FRAMES_PER_BIN, FrameEnd(setting, evidence)),
        nominalTempo := m.drafts[widest].tempo);
    }

    /** Write the revision number on every segment and beat. */
    method StampAll(id: nat)
      modifies this`grid
      ensures grid == old(grid.(segments := StampedSegments(grid.segments, id), beats := StampedBeats(grid.beats, id)))
    {
      var segments: seq<Segment>, beats: seq<Beat> := [], [];
      for i := 0 to |grid.segments|
        invariant segments == StampedSegments(grid.segments[..i], id)
      {
        segments := segments + [grid.segments[i].(revision := id)];
      }
      for i := 0 to |grid.beats|
        invariant beats == StampedBeats(grid.beats[..i], id)
      {
        beats := beats + [grid.beats[i].(revision := id)];
      }
      assert grid.segments[..|grid.segments|] == grid.segments && grid.beats[..|grid.beats|] == grid.beats;
      grid := grid.(segments := segments, beats := beats);
    }

    method CommitGrid(setting: Setting, m: Merge) returns (broken: bool)
      requires Drafted(m)
      modifies this`grid
      ensures
        var c := Commit(setting, evidence, m, old(grid));
        broken == c.Broken? && grid == c.grid
    {
      var before := grid;
      ReplaceGrid(setting, m);
      var signature := SignatureOf(setting, grid);
      var id, previous := before.revisionId, before.previousId;
      if id == 0 {
        id, previous := 1, 0;
      } else if signature != before.signature {
        previous := id;
        if id == UINT32_MAX {
          grid := grid.(previousId := previous, revisionId := 0);
          return true;
        }
        id := id + 1;
      }
      StampGrid(setting, before, m.degraded, id, previous);
      return false;
    }

    method StampGrid(setting: Setting, before: Grid, degraded: bool, id: nat, previous: nat)
      modifies this`grid
      ensures grid == Stamp(setting, old(grid), before, degraded, id, previous)
    {
      var unstamped := grid;
      StampAll(id);
      grid := grid.(
        revisionId := id, previousId := previous,
        revision := Some(RevisionOf(setting, unstamped, degraded, id, previous)),
        signature := SignatureOf(setting, unstamped),
        serial := before.serial + One(Mutated(setting, unstamped, before)));
    }

    method StartRefresh(e: Evidence, ghost inputs: Inputs)
      requires Valid() && !working && e.first + MIN_BINS <= e.end <= e.first + bins.Length && e.end <= UINT32_MAX + 1
      requires inputs.capacity == bins.Length && inputs.flux == FluxRuleOf(bins[..])
      modifies this, flux
      ensures Valid() && working && State() == old(Start(inputs, State(), e)).(refreshedEnd := old(refreshedEnd))
    {
      FillFlux(e);
      evidence, next, merge, working, pending := e, e.first, NOTHING, true, false;
    }

    /** Begin a refresh if there is something to do. */
    method Begin(setting: Setting, limit: nat, ghost inputs: Inputs) returns (status: Status)
      requires Valid() && RingOk(bins[..]) && !working && Feeds(setting, bins[..], inputs)
      modifies this, flux
      ensures Valid() && bins[..] == old(bins[..])
      ensures (working <==> limit != 0 && old(StartsWith(inputs, State())))
      ensures working ==> State() == old(Start(inputs, State(), inputs.evidence.value))
      ensures !working ==> (State(), status) == old(NotStarted(inputs, State()))
    {
      status := Status.Ok;
      var found := FindEvidence(bins, setting.finalEnd);
      EvidenceIsBest(setting.finalEnd, bins[..], found);
      if found.None? || found.value.end - found.value.first < MIN_BINS {
        pending := false;
        return;
      }
      var e := found.value;
      if e.end < refreshedEnd {
        refreshedEnd := 0;
      } else if !(setting.finalEnd.Some? && !grid.maturity.Final?) && e.end < refreshedEnd + MIN_NEW_BINS {
        pending := false;
        return;
      }
      // The guard against evidence longer than the flux cache never fires.
      if e.end - e.first > flux.Length {
        assert false;
      }
      if limit == 0 {
        pending, status := true, MoreWork;
        return;
      }
      StartRefresh(e, inputs);
    }

    /** Windows until they, the budget or the time run out. */
    method Sweep(setting: Setting, room: nat, late: Clock, reading: nat, ghost inputs: Inputs) returns (done: nat)
      requires Valid() && Merged() && working && FeedsWindows(setting, bins[..], inputs)
      modifies this`next, this`merge, flux
      ensures Valid() && Merged() && bins[..] == old(bins[..])
      ensures (State(), done) == old(RunWindows(inputs, State(), room, late, reading))
    {
      ghost var start := State();
      PathStarts(inputs, start);
      done := SweepPath(setting, room, late, reading, inputs, start, Path(inputs, start));
      SweepIsOnPath(inputs, start, room, late, reading, done);
      PathKeepsMerge(setting.estimator, inputs, start, done);
    }

    method SweepPath(
      setting: Setting, room: nat, late: Clock, reading: nat,
      ghost inputs: Inputs, ghost start: GridRefresh.State, ghost path: seq<GridRefresh.State>) returns (done: nat)
      requires Valid() && working && FeedsWindows(setting, bins[..], inputs)
      requires Startable(inputs, start) && path == Path(inputs, start) && At(path, 0)
      modifies this`next, this`merge, flux
      ensures Valid() && bins[..] == old(bins[..])
      ensures done <= room && At(path, done)
      ensures StopsAt(path[done], done, room, late, reading)
    {
      done := 0;
      var stopped := false;
      ghost var ring: Ring := bins[..];
      assert FeedsWindows(setting, ring, inputs);
      while next < evidence.end && done < room && !stopped
        invariant Valid() && done <= room && bins[..] == ring && At(path, done)
        invariant WatchedClock(late, reading, done, stopped)
        decreases room - done
      {
        stopped := FollowOnce(setting, late, reading, done, inputs, start, path, ring);
        done := done + 1;
      }
      SweepStops(path[done], done, room, late, reading, stopped);
    }

    /** One window further on the path, and one look at the clock. */
    method FollowOnce(
      setting: Setting, late: Clock, reading: nat, done: nat,
      ghost inputs: Inputs, ghost start: GridRefresh.State, ghost path: seq<GridRefresh.State>, ghost ring: Ring)
      returns (stopped: bool)
      requires Valid() && working && next < evidence.end && bins[..] == ring && FeedsWindows(setting, ring, inputs)
      requires Startable(inputs, start) && path == Path(inputs, start) && At(path, done)
      requires WatchedClock(late, reading, done, false)
      modifies this`next, this`merge, flux
      ensures Valid() && At(path, done + 1) && WatchedClock(late, reading, done + 1, stopped)
    {
      FollowPath(setting, inputs, start, path, done, ring);
      stopped := Passed(late, reading + done);
      ReadOnce(late, reading, done + 1);
    }

    /** The session is where the path is after k windows. */
    ghost predicate At(path: seq<GridRefresh.State>, k: nat)
      reads this, flux
    {
      k < |path| && State() == path[k]
    }

    method FollowPath(
      setting: Setting, ghost inputs: Inputs, ghost start: GridRefresh.State, ghost path: seq<GridRefresh.State>, ghost k: nat,
      ghost ring: Ring)
      requires Valid() && working && next < evidence.end && bins[..] == ring && FeedsWindows(setting, ring, inputs)
      requires Startable(inputs, start) && path == Path(inputs, start) && At(path, k)
      modifies this`next, this`merge, flux
      ensures Valid() && At(path, k + 1)
    {
      PathStep(inputs, start, k);
      DoWindow(setting, inputs);
    }

    /** The session's tempo stands in when no window gave an estimate. */
    method FallBack(setting: Setting)
      requires Valid() && Merged() && working && next == evidence.end
      modifies this`merge
      ensures merge == FallbackRuleOf(setting.fallback)(evidence, old(merge))
      ensures MergeOk(merge, evidence.first, evidence.end)
    {
      if merge.windows == 0 && setting.fallback.Some? {
        FallbackKeepsMerge(setting.fallback.value, evidence, merge);
        merge := WithFallback(setting.fallback, evidence, merge);
      }
    }

    /** End the private refresh and note whether the evidence has moved on. */
    method Rest(setting: Setting, ghost inputs: Inputs)
      requires Valid() && RingOk(bins[..]) && working && Feeds(setting, bins[..], inputs)
      modifies this`refreshedEnd, this`working, this`pending
      ensures Valid() && !working && refreshedEnd == evidence.end
      ensures pending == EvidenceMoved(inputs, evidence, inputs.evidence)
    {
      var current := FindEvidence(bins, setting.finalEnd);
      EvidenceIsBest(setting.finalEnd, bins[..], current);
      refreshedEnd, working := evidence.end, false;
      pending := current.Some? &&
        (current.value.first < evidence.first || current.value.end < evidence.end
         || (setting.finalEnd.Some? && current.value != evidence)
         || evidence.end + MIN_NEW_BINS <= current.value.end);
    }

    method CommitMerged(setting: Setting) returns (status: Status)
      requires |merge.drafts| != 0 ==> Drafted(merge)
      modifies this`grid
      ensures (grid, status) == Committing(CommitRuleOf(setting), evidence, merge, old(grid), pending)
    {
      status := Status.Ok;
      if |merge.drafts| != 0 {
        var broken := CommitGrid(setting, merge);
        status := if broken then Status.LimitExceeded else if pending then MoreWork else Status.Ok;
      }
    }

    /** Fallback and commit. */
    method FinishRefresh(setting: Setting, ghost inputs: Inputs) returns (status: Status)
      requires Valid() && Merged() && RingOk(bins[..]) && working && next == evidence.end
      requires Feeds(setting, bins[..], inputs)
      modifies this
      ensures Valid() && !working && bins[..] == old(bins[..])
      ensures (State(), status) == old(Finish(inputs, State()))
    {
      FallBack(setting);
      Rest(setting, inputs);
      MergeIsDrafted(merge, evidence.first, evidence.end);
      status := CommitMerged(setting);
    }

    /** The windows that fit, then the last step if there is budget for it. */
    method ContinueRefresh(setting: Setting, limit: nat, spent: nat, late: Clock, reading: nat, ghost inputs: Inputs)
      returns (status: Status, steps: nat, readings: nat)
      requires Valid() && Merged() && RingOk(bins[..]) && Feeds(setting, bins[..], inputs) && working && spent <= limit
      modifies this, flux
      ensures Valid() && Merged() && bins[..] == old(bins[..])
      ensures Outcome(State(), status, steps, readings) == old(Continue(inputs, State(), limit, spent, late, reading))
    {
      ghost var st := State();
      var n := Sweep(setting, limit - spent, late, reading, inputs);
      ghost var swept := State();
      ContinueIs(inputs, st, limit, spent, late, reading, swept, n);
      if next < evidence.end || spent + n >= limit {
        return MoreWork, spent + n, reading + n;
      }
      status := FinishRefresh(setting, inputs);
      return status, spent + n + 1, reading + n;
    }

    method RefreshRound(setting: Setting, limit: nat, spent: nat, late: Clock, reading: nat, ghost inputs: Inputs)
      returns (status: Status, steps: nat, readings: nat)
      requires Valid() && Merged() && RingOk(bins[..]) && Feeds(setting, bins[..], inputs) && spent <= limit
      modifies this, flux
      ensures Valid() && Merged() && bins[..] == old(bins[..])
      ensures Outcome(State(), status, steps, readings) == old(Round(inputs, State(), limit, spent, late, reading))
    {
      var completed := spent;
      if !working {
        status := Begin(setting, limit - spent, inputs);
        if !working {
          return status, spent, reading;
        }
        completed := spent + 1;
      }
      status, steps, readings := ContinueRefresh(setting, limit, completed, late, reading, inputs);
    }

    /** One call of the refresh: at most `limit` steps, `spent` of them gone. */
    method Refresh(setting: Setting, limit: nat, spent: nat, late: Clock, reading: nat, ghost inputs: Inputs)
      returns (status: Status, steps: nat, readings: nat)
      requires Valid() && Merged() && RingOk(bins[..]) && Feeds(setting, bins[..], inputs) && spent <= limit
      modifies this, flux
      ensures Valid() && Merged() && bins[..] == old(bins[..])
      ensures Outcome(State(), status, steps, readings) ==
        old(GridRefresh.Refresh(inputs, State(), limit, spent, late, reading))
      decreases limit - spent
    {
      status, steps, readings := RefreshRound(setting, limit, spent, late, reading, inputs);
      if status.MoreWork? && !working && spent < steps < limit {
        status, steps, readings := Refresh(setting, limit, steps, late, readings, inputs);
      }
    }
  }

  /** A call goes on from where the windows stopped. */
  lemma {:induction false} ContinueIs(
    inputs: Inputs, st: State, limit: nat, spent: nat, late: Clock, reading: nat, swept: State, n: nat)
    requires CanCall(inputs, st) && st.working && spent <= limit
    requires (swept, n) == RunWindows(inputs, st, limit - spent, late, reading)
    ensures n <= limit - spent
    ensures Continue(inputs, st, limit, spent, late, reading) ==
      if swept.next < swept.evidence.end || spent + n >= limit then Outcome(swept, MoreWork, spent + n, reading + n)
      else Outcome(Finish(inputs, swept).0, Finish(inputs, swept).1, spent + n + 1, reading + n)
  {
  }

  /** Windows keep the merge in order, whatever the estimator says. */
  lemma {:induction false} PathKeepsMerge(estimator: Estimator, inputs: Inputs, st: State, n: nat)
    requires Startable(inputs, st) && inputs.absorb == AbsorbRuleOf(estimator)
    requires MergeOk(st.merge, st.evidence.first, st.next) && n < |Path(inputs, st)|
    ensures
      var end := Path(inputs, st)[n];
      MergeOk(end.merge, end.evidence.first, end.next)
    decreases n
  {
    if n != 0 {
      var slice := WindowFlux(inputs, st);
      MaybeAddedKeepsMerge(st.merge, CurrentWindow(estimator, st.next, slice), st.evidence.first, st.next, NextEnd(st));
      WindowStepIsSound(inputs, st);
      PathKeepsMerge(estimator, inputs, WindowStep(inputs, st), n - 1);
    }
  }

  /** What a window reads from this session. */
  ghost predicate FeedsWindows(setting: Setting, ring: Ring, inputs: Inputs) {
    && inputs.capacity == |ring| && inputs.flux == FluxRuleOf(ring)
    && inputs.absorb == AbsorbRuleOf(setting.estimator)
  }

  /** What a call reads from this session. */
  ghost predicate Feeds(setting: Setting, ring: Ring, inputs: Inputs) {
    && FeedsWindows(setting, ring, inputs)
    && inputs.finalEnd == setting.finalEnd && inputs.evidence == BestEvidence(ring, setting.finalEnd)
    && inputs.fallback == FallbackRuleOf(setting.fallback) && inputs.commit == CommitRuleOf(setting)
  }

  lemma PathStep(inputs: Inputs, start: State, k: nat)
    requires Startable(inputs, start) && k < |Path(inputs, start)|
    ensures
      var path := Path(inputs, start);
      path[k].next < path[k].evidence.end ==>
        InWindow(inputs, path[k]) && k + 1 < |path| && path[k + 1] == WindowStep(inputs, path[k])
  {
    var path := Path(inputs, start);
    PathKeeps(inputs, start, k);
    PathSuffix(inputs, start, k);
    if path[k].next < path[k].evidence.end {
      assert path[k + 1] == Path(inputs, path[k])[1];
    }
  }

  /** A sweep that was stopped was stopped by its last reading and no earlier one. */
  ghost predicate WatchedClock(late: Clock, reading: nat, done: nat, stopped: bool) {
    if stopped then 0 < done && Passed(late, reading + done - 1) && OnTime(late, reading, done - 1)
    else OnTime(late, reading, done)
  }

  lemma {:induction false} PathStarts(inputs: Inputs, start: State)
    requires Startable(inputs, start)
    ensures 0 < |Path(inputs, start)| && Path(inputs, start)[0] == start
  {
  }

  lemma {:induction false} ReadOnce(late: Clock, reading: nat, done: nat)
    requires 0 < done && WatchedClock(late, reading, done - 1, false)
    ensures WatchedClock(late, reading, done, Passed(late, reading + done - 1))
  {
  }

  lemma {:induction false} SweepStops(last: State, n: nat, room: nat, late: Clock, reading: nat, stopped: bool)
    requires WatchedClock(late, reading, n, stopped) && (last.next >= last.evidence.end || n == room || stopped)
    ensures StopsAt(last, n, room, late, reading)
  {
  }

  /** None of n readings from this one on was late. */
  ghost predicate OnTime(late: Clock, reading: nat, n: nat) {
    n == 0 || (OnTime(late, reading, n - 1) && !Passed(late, reading + n - 1))
  }

  lemma {:induction false} OnTimeTail(late: Clock, reading: nat, n: nat)
    requires OnTime(late, reading, n) && 0 < n
    ensures !Passed(late, reading) && OnTime(late, reading + 1, n - 1)
  {
    if 1 < n {
      OnTimeTail(late, reading, n - 1);
    }
  }

  /** After n windows: no earlier reading was late, and there is a reason to stop. */
  ghost predicate StopsAt(last: State, n: nat, room: nat, late: Clock, reading: nat) {
    && (0 < n ==> OnTime(late, reading, n - 1))
    && (last.next >= last.evidence.end || n == room || (0 < n && Passed(late, reading + n - 1)))
  }

  /** Where a sweep stops: out of windows or budget, or at the first late clock. */
  lemma {:induction false} SweepIsOnPath(inputs: Inputs, st: State, room: nat, late: Clock, reading: nat, n: nat)
    requires Startable(inputs, st) && n < |Path(inputs, st)| && n <= room
    requires StopsAt(Path(inputs, st)[n], n, room, late, reading)
    ensures RunWindows(inputs, st, room, late, reading) == (Path(inputs, st)[n], n)
    decreases n
  {
    PathKeeps(inputs, st, n);
    if n != 0 {
      WindowStepIsSound(inputs, st);
      if 1 < n {
        OnTimeTail(late, reading, n - 1);
      }
      if !Passed(late, reading) {
        SweepIsOnPath(inputs, WindowStep(inputs, st), room - 1, late, reading + 1, n - 1);
      }
    }
  }

  lemma AbsorbIs(setting: Setting, inputs: Inputs, m: Merge, first: nat, slice: seq<real>)
    requires inputs.absorb == AbsorbRuleOf(setting.estimator)
    ensures inputs.absorb(m, first, slice) == MaybeAdded(m, CurrentWindow(setting.estimator, first, slice))
  {
  }

  lemma FallbackKeepsMerge(fallback: (Tempo, Percent), e: Evidence, m: Merge)
    requires MergeOk(m, e.first, e.end) && m.windows == 0 && e.first + MIN_BINS <= e.end
    ensures MergeOk(WithFallback(Some(fallback), e, m), e.first, e.end)
  {
    AddedKeepsMerge(m.(degraded := true), Window(e.first, e.end, Estimate(fallback.0, 0, fallback.1)), e.first);
  }

  lemma MergeIsDrafted(m: Merge, first: nat, end: nat)
    requires MergeOk(m, first, end) && end <= UINT32_MAX + 1
    ensures |m.drafts| != 0 ==> Drafted(m)
  {
  }

  /** A merge with something in it, as a refresh produces it. */
  ghost predicate Drafted(m: Merge) {
    && |m.drafts| > 0
    && forall i :: 0 <= i < |m.drafts| ==> DraftOk(m.drafts[i]) && m.drafts[i].end <= UINT32_MAX + 1
  }

  /** Segments start at their anchor, so placing beats can never overflow. */
  lemma AnchorsNeedNoAligning(setting: Setting, m: Merge)
    requires Drafted(m)
    ensures
      var shaped := SegmentsOf(setting, m);
      forall i :: 0 <= i < |shaped| && Placeable(shaped[i]) ==>
        AlignFits(shaped[i]) && FirstBeat(shaped[i]) <= UINT64_MAX
  {
    forall i | 0 <= i < |m.drafts| && Placeable(SegmentsOf(setting, m)[i])
      ensures AlignFits(SegmentsOf(setting, m)[i]) && FirstBeat(SegmentsOf(setting, m)[i]) <= UINT64_MAX
    {
      var s := ShapeOf(setting, m, i);
      assert s.first <= s.anchor.whole;
    }
  }

  /** What the search finds is the one best evidence; none found means none. */
  lemma EvidenceIsBest(finalEnd: Option<nat>, ring: Ring, found: Option<Evidence>)
    requires found.Some? ==> IsBest(ring, finalEnd, found.value)
    requires found.None? ==> forall i: nat :: !Complete(ring, finalEnd, i)
    requires RingOk(ring)
    ensures BestEvidence(ring, finalEnd) == found
    ensures found.Some? ==> found.value.end <= UINT32_MAX + 1
    ensures found.Some? ==> found.value.first < found.value.end <= found.value.first + |ring|
  {
    var best := BestEvidence(ring, finalEnd);
    if found.Some? {
      assert IsBest(ring, finalEnd, found.value);
      BestIsUnique(ring, finalEnd, found.value, best.value);
      assert Complete(ring, finalEnd, found.value.end - 1);
      RunFitsRing(ring, finalEnd, found.value.first, found.value.end);
    } else if best.Some? {
      NoRunWithout(ring, finalEnd, best.value.first, best.value.end);
    }
  }

  lemma NoRunWithout(ring: Ring, finalEnd: Option<nat>, first: nat, end: nat)
    requires forall i: nat :: !Complete(ring, finalEnd, i)
    ensures !IsRun(ring, finalEnd, first, end)
  {
    assert !Complete(ring, finalEnd, first);
  }

  /** The merge a whole refresh ends with: every window from its own flux, or the
      session's tempo when no window has one. */
  function MergedWhole(setting: Setting, ring: Ring, e: Evidence): Merge
    requires e.first < e.end && WindowFirst(e, Windows(e) - 1) < e.end
  {
    WithFallback(setting.fallback, e, MergeOf(FluxRuleOf(ring), AbsorbRuleOf(setting.estimator), e, Windows(e)))
  }

  /** A whole refresh on a fixed ring, however split, commits the merge of all its
      windows, and the merge is fit for the reader. */
  lemma WholeRefreshCommits(setting: Setting, ring: Ring, st: State, e: Evidence)
    requires Due(InputsOf(setting, ring), st, e)
    requires setting.totalFrames.Some? ==> 0 < setting.totalFrames.value
    requires setting.locked.Some? ==> RangeValid(setting.locked.value.range)
    ensures e.first < e.end && WindowFirst(e, Windows(e) - 1) < e.end
    ensures
      var m := MergedWhole(setting, ring, e);
      var grid := Whole(InputsOf(setting, ring), st, e).0.grid;
      grid == Commit(setting, e, m, st.grid).grid && (|m.drafts| > 0 ==> Ready(setting, e, m))
  {
    var inputs := InputsOf(setting, ring);
    WholeMergesEveryWindow(inputs, st, e);
    var m := MergeOf(FluxRuleOf(ring), AbsorbRuleOf(setting.estimator), e, Windows(e));
    MergeIsOk(FluxRuleOf(ring), setting.estimator, e, Windows(e));
    if m.windows == 0 && setting.fallback.Some? {
      FallbackKeepsMerge(setting.fallback.value, e, m);
    }
    if setting.finalEnd.Some? {
      EvidenceStartsBeforeEnd(ring, setting.finalEnd, e);
    }
    assert Course(inputs, st, e)[Windows(e)].merge == m;
  }

  /** So what the refresh leaves behind, if it is a new grid, the reader accepts; and
      its revision too, unless a locked local grid disputes a final grid. */
  lemma WholeRefreshIsAccepted(setting: Setting, ring: Ring, st: State, e: Evidence)
    requires Due(InputsOf(setting, ring), st, e) && 5 <= setting.sampleRate <= 0x8000_0000
    requires setting.totalFrames.Some? ==> 0 < setting.totalFrames.value
    requires setting.locked.Some? ==> RangeValid(setting.locked.value.range)
    requires e.end * FRAMES_PER_BIN <= UINT32_MAX && st.grid.revisionId < UINT32_MAX
    ensures
      var grid := Whole(InputsOf(setting, ring), st, e).0.grid;
      || grid == st.grid
      || (GridAccepted(grid, true)
          && (RevisionAccepted(grid, true) <==> !(grid.maturity.Final? && LockedConflict(setting, grid.segments))))
  {
    WholeRefreshCommits(setting, ring, st, e);
    var m := MergedWhole(setting, ring, e);
    if |m.drafts| > 0 {
      CommitBreaksExactly(setting, e, m, st.grid);
      CommitIsAccepted(setting, e, m, st.grid);
      RevisionIsAccepted(setting, e, m, st.grid);
      SmallTracksArePlaceable(setting, e, m, 0);
    }
  }
}
