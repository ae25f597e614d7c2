/** What the pool guarantees over every interleaving. */
module ResultPoolSafety {
  import opened Common
  import opened ResultPool
  import opened ResultPoolSteps

  /** A thread that cannot move yet waits. */
  function Advance(st: State, step: Step): State {
    match Apply(st, step)
    case None => st
    case Some(next) => next
  }

  function Run(st: State, steps: seq<Step>): State
    decreases |steps|
  {
    if |steps| == 0 then st else Advance(Run(st, steps[..|steps| - 1]), steps[|steps| - 1])
  }

  lemma AdvanceKeepsInv(st: State, step: Step)
    requires Inv(st)
    ensures Inv(Advance(st, step))
  {
    if Apply(st, step).Some? {
      StepKeepsInv(st, step);
    }
  }

  lemma {:induction false} RunKeepsInv(st: State, steps: seq<Step>)
    requires Inv(st)
    ensures Inv(Run(st, steps))
    decreases |steps|
  {
    if |steps| != 0 {
      var before := steps[..|steps| - 1];
      RunKeepsInv(st, before);
      AdvanceKeepsInv(Run(st, before), steps[|steps| - 1]);
    }
  }

  lemma InitialInv()
    ensures Inv(INITIAL)
  {
    forall role ensures Count(map[], role) == 0 {
      assert Players(map[], role) == {};
    }
    assert Successes([]) == 0;
  }

  // ------------------------------------------------------------- a held result

  lemma PoolIsAlive(st: State, s: Slot)
    requires Inv(st) && st.slots[s].active
    ensures st.poolRefs >= 1 && st.frees == 0
  {
    UnretainedIsHosts(st);
    assert PlaceOk(st, HOST);
  }

  /** While a thread holds the result in s, the slot stays marked, counted and
      unclaimed, and the pool is alive. */
  lemma HolderProtects(st: State, t: nat, s: Slot)
    requires Inv(st) && Plays(PcOf(st, t), Holds(s))
    ensures st.slots[s].active && st.slots[s].refs >= 1 && st.frees == 0
    ensures forall u :: !Plays(PcOf(st, u), Claims(s)) && !Plays(PcOf(st, u), Closes(s))
  {
    Counted(st.threads, Holds(s), t);
    forall u ensures !Plays(PcOf(st, u), Claims(s)) && !Plays(PcOf(st, u), Closes(s)) {
      if Plays(PcOf(st, u), Claims(s)) { Counted(st.threads, Claims(s), u); }
      if Plays(PcOf(st, u), Closes(s)) { Counted(st.threads, Closes(s), u); }
    }
    PoolIsAlive(st, s);
  }

  lemma OtherThreadsStand(st: State, step: Step, t: nat)
    requires t != step.thread
    ensures PcOf(Advance(st, step), t) == PcOf(st, t)
  {
  }

  /** Until a reader releases, what it holds survives every interleaving: the same
      generation in an active slot of a pool that was not freed. */
  lemma {:induction false} HeldResultSurvives(st: State, steps: seq<Step>, t: nat)
    requires Inv(st) && PcOf(st, t).Using?
    requires forall i :: 0 <= i < |steps| ==> steps[i].thread != t
    ensures
      var end, s := Run(st, steps), PcOf(st, t).slot;
      && PcOf(end, t) == PcOf(st, t)
      && end.slots[s].active && end.slots[s].refs >= 1 && end.frees == 0
      && end.slots[s].tag == st.slots[s].tag
    decreases |steps|
  {
    var end, s := Run(st, steps), PcOf(st, t).slot;
    if |steps| != 0 {
      var before := steps[..|steps| - 1];
      HeldResultSurvives(st, before, t);
      OtherThreadsStand(Run(st, before), steps[|steps| - 1], t);
    }
    RunKeepsInv(st, steps);
    HolderProtects(end, t, s);
    assert TagOk(st, t) && TagOk(end, t);
  }

  /** What acquire hands out is the generation current at that moment. */
  lemma AcquireGivesCurrent(st: State, t: nat)
    requires Inv(st) && PcOf(st, t).AcquireRetained?
    ensures PcOf(st, t).result == st.current && st.current.Some?
    ensures PcOf(st, t).tag == st.generation
  {
    assert PlaceOk(st, t) && TagOk(st, t);
  }

  // ------------------------------------------------------------------ the pool

  ghost predicate AllIdle(st: State) {
    forall t :: t in st.threads ==> st.threads[t].Idle?
  }

  lemma NobodyPlays(st: State)
    requires Inv(st) && AllIdle(st)
    ensures forall role :: Count(st.threads, role) == 0
  {
    forall role ensures Count(st.threads, role) == 0 {
      if Count(st.threads, role) >= 1 {
        var t := Somebody(st.threads, role);
      }
    }
  }

  /** The pool is freed at most once, and exactly when the session has ended and
      the last thread has let go. */
  lemma PoolIsFreedOnce(steps: seq<Step>)
    ensures
      var end := Run(INITIAL, steps);
      && end.frees <= 1
      && (end.frees == 1 <==> end.phase.Closed? && AllIdle(end))
  {
    var end := Run(INITIAL, steps);
    InitialInv();
    RunKeepsInv(INITIAL, steps);
    if end.phase.Closed? && AllIdle(end) { NobodyPlays(end); UnmarkedWhenQuiet(end); }
    if end.frees == 1 { FreedIsQuiet(end); }
  }

  lemma UnmarkedWhenQuiet(st: State)
    requires Inv(st) && st.phase.Closed? && AllIdle(st)
    ensures st.frees == 1
  {
    NobodyPlays(st);
    assert PcOf(st, HOST).Idle?;
    assert st.current.None?;
  }

  lemma FreedIsQuiet(st: State)
    requires Inv(st) && st.frees >= 1
    ensures st.phase.Closed? && AllIdle(st)
  {
    UnretainedIsHosts(st);
    forall t | t in st.threads ensures st.threads[t].Idle? {
      FreedThreadIsIdle(st, t);
    }
  }

  lemma FreedThreadIsIdle(st: State, t: nat)
    requires Inv(st) && st.frees >= 1 && t in st.threads
    ensures st.threads[t].Idle?
  {
    var pc := st.threads[t];
    UnretainedIsHosts(st);
    assert PlaceOk(st, t);
    if pc.Using? { HolderProtects(st, t, pc.slot); }
    if pc.Closing? { Counted(st.threads, Closes(pc.slot), t); }
    if pc.Dropping? { Counted(st.threads, Drops, t); }
    if pc.Freeing? { Counted(st.threads, Frees, t); }
  }

  /** After the free nobody can take another step, so nothing touches the pool. */
  lemma NothingMovesAfterFree(st: State, step: Step)
    requires Inv(st) && st.frees >= 1
    ensures Apply(st, step).None?
  {
    FreedIsQuiet(st);
    assert PcOf(st, step.thread).Idle?;
  }

  /** With nobody half-way through a claim or a release, the pool references are
      the session's and one per marked slot. */
  lemma PoolReferencesAreOwnerAndSlots(st: State)
    requires Inv(st)
    requires forall t :: t in st.threads ==>
      !st.threads[t].Claimed? && !st.threads[t].Zeroed? && !st.threads[t].Filled? && !st.threads[t].Dropping?
    ensures st.poolRefs == One(!st.phase.Closed?) + One(st.slots[0].active) + One(st.slots[1].active)
  {
    if Count(st.threads, Unretained) >= 1 { var t := Somebody(st.threads, Unretained); }
    if Count(st.threads, Drops) >= 1 { var t := Somebody(st.threads, Drops); }
  }

  // ------------------------------------------------------------- publications

  /** Only the swap under the lock publishes: it raises the generation by one and
      makes the claimed result current. No other step changes the generation, and
      only destroy takes the current result away. */
  lemma OnlySwapPublishes(st: State, step: Step)
    requires Inv(st)
    ensures
      var next, pc := Advance(st, step), PcOf(st, step.thread);
      if pc.SwapLocked? then
        && next.generation == st.generation + 1 && next.current == Some(pc.slot)
        && next.slots[pc.slot].tag == next.generation && next.outcomes == st.outcomes + [true]
      else
        && next.generation == st.generation
        && (next.current == st.current || (pc.EndLocked? && next.current.None?))
        && (next.outcomes == st.outcomes || next.outcomes == st.outcomes + [false])
  {
    var pc := PcOf(st, step.thread);
    if Apply(st, step).Some? && (pc.Idle? || Acquiring(pc) || Releasing(pc)) {
      OthersPublishNothing(st, step);
    } else {
      assert TagOk(st, step.thread);
    }
  }

  /** Starting a call, acquiring and releasing leave what is published alone. */
  lemma {:induction false} OthersPublishNothing(st: State, step: Step)
    requires Apply(st, step).Some?
    requires var pc := PcOf(st, step.thread); pc.Idle? || Acquiring(pc) || Releasing(pc)
    ensures
      var next := Advance(st, step);
      && next.generation == st.generation && next.current == st.current
      && (next.outcomes == st.outcomes || next.outcomes == st.outcomes + [false])
  {
  }

  /** Over a run the generation counts the successful publishes, and an open
      session always shows the newest of them. */
  lemma GenerationCountsSuccesses(steps: seq<Step>)
    ensures
      var end := Run(INITIAL, steps);
      && end.generation == 1 + Successes(end.outcomes) <= GENERATION_MAX
      && (end.phase.Open? ==> end.current.Some? && end.slots[end.current.value].tag == end.generation)
  {
    InitialInv();
    RunKeepsInv(INITIAL, steps);
  }

  // ------------------------------------------------------- finding a free slot

  ghost predicate SupersededIsHeld(st: State) {
    exists t, s: Slot :: st.current != Some(s) && Occupies(PcOf(st, t), s)
  }

  /** A released result occupies its slot until the slot is unmarked. */
  ghost predicate Occupies(pc: Pc, s: Slot) {
    Plays(pc, Holds(s)) || pc == Closing(s)
  }

  ghost predicate GoodScan(st: State) {
    && Inv(st) && !SupersededIsHeld(st)
    && (PcOf(st, HOST) == Scanning(0) || (PcOf(st, HOST) == Scanning(1) && st.current == Some(0)))
  }

  lemma NobodyCounts(threads: map<nat, Pc>, role: Role)
    requires forall t :: t in threads ==> !Plays(threads[t], role)
    ensures Count(threads, role) == 0
  {
    assert Players(threads, role) == {};
  }

  /** A slot that is neither current nor occupied is free while the host scans. */
  lemma UnoccupiedIsFree(st: State, s: Slot)
    requires Inv(st) && PcOf(st, HOST).Scanning? && !SupersededIsHeld(st) && st.current != Some(s)
    ensures !st.slots[s].active
  {
    forall t | t in st.threads
      ensures !Plays(st.threads[t], Holds(s)) && !Plays(st.threads[t], Closes(s)) && !Plays(st.threads[t], Claims(s))
    {
      assert PlaceOk(st, t) && !Occupies(PcOf(st, t), s);
    }
    NobodyCounts(st.threads, Holds(s));
    NobodyCounts(st.threads, Closes(s));
    NobodyCounts(st.threads, Claims(s));
  }

  /** While the host scans, readers can only come to hold the current result. */
  lemma ReadersOccupyCurrent(st: State, step: Step, t: nat, s: Slot)
    requires Inv(st) && PcOf(st, HOST).Scanning? && step.thread != HOST
    requires Occupies(PcOf(Advance(st, step), t), s)
    ensures Occupies(PcOf(st, t), s) || st.current == Some(s)
  {
    assert PlaceOk(st, step.thread);
    if t != step.thread { OtherThreadsStand(st, step, t); }
    else if Acquiring(PcOf(st, t)) { AcquirersOccupyCurrent(st, t, s); }
    else if Releasing(PcOf(st, t)) { ReleasersKeepSlot(st, t, s); }
  }

  lemma AcquirersOccupyCurrent(st: State, t: nat, s: Slot)
    requires PlaceOk(st, t) && Acquiring(PcOf(st, t)) && Occupies(PcOf(AcquireStep(st, t), t), s)
    ensures st.current == Some(s)
  {
  }

  lemma ReleasersKeepSlot(st: State, t: nat, s: Slot)
    requires Releasing(PcOf(st, t)) && Occupies(PcOf(ReleaseStep(st, t), t), s)
    ensures Occupies(PcOf(st, t), s)
  {
  }

  lemma ReadersKeepCurrent(st: State, step: Step)
    requires Inv(st) && PcOf(st, HOST).Scanning? && step.thread != HOST
    ensures Advance(st, step).current == st.current
  {
    assert PlaceOk(st, step.thread);
  }

  lemma HostScans(st: State, next: nat)
    requires GoodScan(st) && PcOf(st, HOST) == Scanning(next)
    ensures
      var after := ScanStep(st, HOST, next);
      || PcOf(after, HOST).Claimed?
      || (next == 0 && after == Move(st, HOST, Scanning(1)) && st.current == Some(0))
  {
    if st.current != Some(0) { UnoccupiedIsFree(st, 0); }
    if st.current != Some(1) { UnoccupiedIsFree(st, 1); }
  }

  lemma ScanningOccupiesNothing(st: State, next: nat)
    requires SupersededIsHeld(Move(st, HOST, Scanning(next)))
    ensures SupersededIsHeld(st)
  {
    var after := Move(st, HOST, Scanning(next));
    var t, s: Slot :| after.current != Some(s) && Occupies(PcOf(after, t), s);
    assert Occupies(PcOf(st, t), s);
  }

  lemma GoodScanStep(st: State, step: Step)
    requires GoodScan(st)
    ensures
      var next := Advance(st, step);
      || PcOf(next, HOST).Claimed?
      || (GoodScan(next) && PcOf(next, HOST).next == PcOf(st, HOST).next + One(step.thread == HOST))
  {
    var next := Advance(st, step);
    AdvanceKeepsInv(st, step);
    if step.thread == HOST {
      HostScans(st, PcOf(st, HOST).next);
      if SupersededIsHeld(Move(st, HOST, Scanning(1))) { ScanningOccupiesNothing(st, 1); }
    } else {
      ReaderRuns(st, step);
    }
  }

  lemma ReaderRuns(st: State, step: Step)
    requires GoodScan(st) && step.thread != HOST
    ensures GoodScan(Advance(st, step)) && PcOf(Advance(st, step), HOST) == PcOf(st, HOST)
  {
    var next := Advance(st, step);
    AdvanceKeepsInv(st, step);
    ReadersKeepCurrent(st, step);
    OtherThreadsStand(st, step, HOST);
    if SupersededIsHeld(next) {
      var t, s: Slot :| next.current != Some(s) && Occupies(PcOf(next, t), s);
      ReadersOccupyCurrent(st, step, t, s);
    }
  }

  ghost predicate ClaimedAfter(st: State, steps: seq<Step>) {
    PcOf(Run(st, steps), HOST).Claimed?
  }

  ghost predicate ClaimsWithin(st: State, steps: seq<Step>) {
    exists k :: 0 < k <= |steps| && ClaimedAfter(st, steps[..k])
  }

  /** How many of the steps are the host's. */
  function HostSteps(steps: seq<Step>): nat
    decreases |steps|
  {
    if |steps| == 0 then 0
    else HostSteps(steps[..|steps| - 1]) + One(steps[|steps| - 1].thread == HOST)
  }

  /** The scan is where as many host steps have brought it. */
  ghost predicate ScannedOn(st: State, steps: seq<Step>) {
    var end := Run(st, steps);
    && GoodScan(end) && PcOf(st, HOST).Scanning?
    && PcOf(end, HOST).next == PcOf(st, HOST).next + HostSteps(steps)
  }

  /** A publish that starts while no superseded result is occupied claims a slot,
      whatever readers do meanwhile: the second step of the host is the latest. */
  lemma {:induction false} ClaimFindsFreeSlot(st: State, steps: seq<Step>)
    requires GoodScan(st)
    ensures ScannedOn(st, steps) || ClaimsWithin(st, steps)
    ensures 2 <= HostSteps(steps) ==> ClaimsWithin(st, steps)
    decreases |steps|
  {
    if |steps| != 0 {
      var before := steps[..|steps| - 1];
      ClaimFindsFreeSlot(st, before);
      if ScannedOn(st, before) {
        GoodScanStep(Run(st, before), steps[|steps| - 1]);
        assert steps[..|steps|] == steps;
      } else {
        ClaimedEarlier(st, steps);
      }
    }
  }

  lemma ClaimedEarlier(st: State, steps: seq<Step>)
    requires |steps| > 0
    requires ClaimsWithin(st, steps[..|steps| - 1])
    ensures ClaimsWithin(st, steps)
  {
    var before := steps[..|steps| - 1];
    var k :| 0 < k <= |before| && ClaimedAfter(st, before[..k]);
    assert steps[..k] == before[..k];
  }

  /** The host is scanning while reader t holds a superseded result. */
  ghost predicate Exhausting(st: State, t: nat) {
    && Inv(st) && t != HOST && PcOf(st, t).Using? && PcOf(st, HOST).Scanning?
    && st.current.Some? && st.current != Some(PcOf(st, t).slot)
  }

  lemma CurrentIsActive(st: State)
    requires Inv(st) && st.current.Some?
    ensures st.slots[st.current.value].active
  {
  }

  lemma ScanOfMarkedSlots(st: State, next: nat)
    requires forall s: Slot :: st.slots[s].active
    ensures
      ScanStep(st, HOST, next) == Move(st, HOST, Scanning(next + 1))
      || ScanStep(st, HOST, next) == Move(Finish(st, false), HOST, Idle)
  {
  }

  /** Conversely, while a reader keeps a superseded result, the scan finds both
      slots marked: it moves on, or the publish fails and changes nothing. */
  lemma HeldSupersededExhausts(st: State, step: Step, t: nat)
    requires Exhausting(st, t) && step.thread != t
    ensures
      || Exhausting(Advance(st, step), t)
      || Advance(st, step) == Move(Finish(st, false), HOST, Idle)
  {
    AdvanceKeepsInv(st, step);
    if step.thread == HOST {
      ExhaustedScan(st, t);
    } else {
      OtherThreadsStand(st, step, t);
      ReadersKeepCurrent(st, step);
      OtherThreadsStand(st, step, HOST);
    }
  }

  lemma ExhaustedScan(st: State, t: nat)
    requires Exhausting(st, t)
    ensures
      var next := PcOf(st, HOST).next;
      ScanStep(st, HOST, next) == Move(st, HOST, Scanning(next + 1))
      || ScanStep(st, HOST, next) == Move(Finish(st, false), HOST, Idle)
  {
    HolderProtects(st, t, PcOf(st, t).slot);
    CurrentIsActive(st);
    ScanOfMarkedSlots(st, PcOf(st, HOST).next);
  }

  // ------------------------------------------------------- over the whole scan

  /** The publish failed at this moment, and that is all its last step did. */
  ghost predicate FailsAt(st: State, steps: seq<Step>, t: nat, k: nat) {
    && 0 < k <= |steps| && Exhausting(Run(st, steps[..k - 1]), t)
    && Run(st, steps[..k]) == Move(Finish(Run(st, steps[..k - 1]), false), HOST, Idle)
  }

  ghost predicate FailsWithin(st: State, steps: seq<Step>, t: nat) {
    exists k: nat :: FailsAt(st, steps, t, k)
  }

  ghost predicate ExhaustedOn(st: State, steps: seq<Step>, t: nat) {
    var end := Run(st, steps);
    && Exhausting(end, t) && PcOf(st, HOST).Scanning?
    && PcOf(end, HOST).next == PcOf(st, HOST).next + HostSteps(steps) <= SLOTS
  }

  /** While a reader keeps a superseded result, the whole scan finds no slot: the host
      goes past both and then fails, and it has failed after three steps at the latest. */
  lemma {:induction false} HeldSupersededFailsPublish(st: State, steps: seq<Step>, t: nat)
    requires Exhausting(st, t) && PcOf(st, HOST).next <= SLOTS
    requires forall i :: 0 <= i < |steps| ==> steps[i].thread != t
    ensures ExhaustedOn(st, steps, t) || FailsWithin(st, steps, t)
    ensures SLOTS < PcOf(st, HOST).next + HostSteps(steps) ==> FailsWithin(st, steps, t)
    decreases |steps|
  {
    if |steps| != 0 {
      var n := |steps| - 1;
      var before := steps[..n];
      HeldSupersededFailsPublish(st, before, t);
      if ExhaustedOn(st, before, t) {
        ExhaustedStep(Run(st, before), steps[n], t);
        assert steps[..|steps|] == steps && steps[..|steps| - 1] == before;
        if Run(st, steps) == Move(Finish(Run(st, before), false), HOST, Idle) {
          assert FailsAt(st, steps, t, |steps|);
        }
      } else {
        FailedEarlier(st, steps, t);
      }
    }
  }

  lemma {:induction false} FailedEarlier(st: State, steps: seq<Step>, t: nat)
    requires |steps| > 0 && FailsWithin(st, steps[..|steps| - 1], t)
    ensures FailsWithin(st, steps, t)
  {
    var before := steps[..|steps| - 1];
    var k: nat :| FailsAt(st, before, t, k);
    assert steps[..k] == before[..k] && steps[..k - 1] == before[..k - 1];
    assert FailsAt(st, steps, t, k);
  }

  /** One step of it: readers leave the host where it is, the host goes on or fails. */
  lemma {:induction false} ExhaustedStep(st: State, step: Step, t: nat)
    requires Exhausting(st, t) && step.thread != t && PcOf(st, HOST).next <= SLOTS
    ensures
      var after := Advance(st, step);
      || after == Move(Finish(st, false), HOST, Idle)
      || (Exhausting(after, t) && PcOf(after, HOST).next == PcOf(st, HOST).next + One(step.thread == HOST) <= SLOTS)
  {
    HeldSupersededExhausts(st, step, t);
    if step.thread == HOST {
      ExhaustedScan(st, t);
    } else {
      OtherThreadsStand(st, step, HOST);
    }
  }
}
