/** What the pool gets done: a publish that finds a slot and builds its result is
  published, a reader left alone gets the current result, and an ended session that
  nobody reads any more frees the pool. */
module ResultPoolProgress {
  import opened Common
  import opened ResultPool
  import opened ResultPoolSteps
  import opened ResultPoolSafety

  // ------------------------------------------------------------------- publishing

  /** How far a publish has come. */
  function Stage(pc: Pc): nat {
    match pc
    case Scanning(next) => if next == 0 then 0 else 1
    case Claimed(_) => 2
    case Zeroed(_) => 3
    case Filled(_) => 4
    case Building(_) => 5
    case SwapLocked(_) => 6
    case _ => 7
  }

  predicate HasSlot(pc: Pc) {
    pc.Claimed? || pc.Zeroed? || pc.Filled? || pc.Building? || pc.SwapLocked?
  }

  /** A host step that does something, that is, is not kept waiting by the lock. */
  predicate HostMoves(st: State, step: Step) {
    step.thread == HOST && Apply(st, step).Some?
  }

  function MovesOfHost(st: State, steps: seq<Step>): nat
    decreases |steps|
  {
    if |steps| == 0 then 0
    else
      var before := steps[..|steps| - 1];
      MovesOfHost(st, before) + One(HostMoves(Run(st, before), steps[|steps| - 1]))
  }

  /** No step of the host lets its build fail. */
  ghost predicate Builds(steps: seq<Step>) {
    forall i :: 0 <= i < |steps| && steps[i].thread == HOST ==> !steps[i].choice.BuildFails?
  }

  /** The publish that began when the generation was `generation` is under way. */
  ghost predicate UnderWay(st: State, generation: nat, outcomes: seq<bool>, slot: Option<Slot>, stage: nat) {
    var pc := PcOf(st, HOST);
    && Inv(st) && st.generation == generation && st.outcomes == outcomes
    && (pc.Scanning? || HasSlot(pc)) && stage <= Stage(pc)
    && (pc.Scanning? ==> GoodScan(st) && slot.None?)
    && (slot.Some? ==> HasSlot(pc) && pc.slot == slot.value)
  }

  /** It has been published: the next generation, current, and logged as a success. */
  ghost predicate Published(st: State, generation: nat, outcomes: seq<bool>, slot: Option<Slot>) {
    && st.generation == generation + 1 && st.outcomes == outcomes + [true]
    && st.current.Some? && st.slots[st.current.value].tag == generation + 1
    && (slot.Some? ==> st.current == slot)
  }

  lemma {:induction false} HostFills(st: State, generation: nat, outcomes: seq<bool>, slot: Option<Slot>, stage: nat)
    requires UnderWay(st, generation, outcomes, slot, stage) && Filling(PcOf(st, HOST))
    ensures UnderWay(Advance(st, Step(HOST, Proceed)), generation, outcomes, slot, stage + 1)
  {
    AdvanceKeepsInv(st, Step(HOST, Proceed));
  }

  lemma {:induction false} FillIgnoresChoice(st: State, a: Choice, b: Choice)
    requires Filling(PcOf(st, HOST)) || PcOf(st, HOST).Scanning?
    ensures Advance(st, Step(HOST, a)) == Advance(st, Step(HOST, b))
  {
  }

  lemma {:induction false} HostSwaps(
    st: State, step: Step, generation: nat, outcomes: seq<bool>, slot: Option<Slot>, stage: nat)
    requires UnderWay(st, generation, outcomes, slot, stage) && HostMoves(st, step) && !step.choice.BuildFails?
    requires PcOf(st, HOST).Building? || PcOf(st, HOST).SwapLocked?
    ensures
      var next := Advance(st, step);
      || UnderWay(next, generation, outcomes, slot, stage + 1)
      || Published(next, generation, outcomes, slot)
  {
    AdvanceKeepsInv(st, step);
    assert TagOk(st, HOST);
  }

  lemma {:induction false} HostScansOn(st: State, step: Step, generation: nat, outcomes: seq<bool>, stage: nat)
    requires UnderWay(st, generation, outcomes, None, stage) && PcOf(st, HOST).Scanning? && step.thread == HOST
    ensures UnderWay(Advance(st, step), generation, outcomes, None, stage + 1)
  {
    GoodScanStep(st, step);
    AdvanceKeepsInv(st, step);
  }

  /** Whatever other threads do, the host's publish stands where it stood. */
  lemma {:induction false} OthersLeavePublish(
    st: State, step: Step, generation: nat, outcomes: seq<bool>, slot: Option<Slot>, stage: nat)
    requires UnderWay(st, generation, outcomes, slot, stage) && step.thread != HOST
    ensures UnderWay(Advance(st, step), generation, outcomes, slot, stage)
  {
    AdvanceKeepsInv(st, step);
    OtherThreadsStand(st, step, HOST);
    assert PlaceOk(st, step.thread);
    ReadersPublishNothing(st, step);
    if PcOf(st, HOST).Scanning? { ReaderRuns(st, step); }
  }

  lemma {:induction false} ReadersPublishNothing(st: State, step: Step)
    requires Inv(st) && step.thread != HOST
    ensures Advance(st, step).generation == st.generation && Advance(st, step).outcomes == st.outcomes
  {
    assert PlaceOk(st, step.thread);
  }

  /** One step: the publish comes a stage further if it was the host's, or is done. */
  lemma {:induction false} PublishStep(
    st: State, step: Step, generation: nat, outcomes: seq<bool>, slot: Option<Slot>, stage: nat)
    requires UnderWay(st, generation, outcomes, slot, stage)
    requires step.thread == HOST ==> !step.choice.BuildFails?
    ensures
      var next := Advance(st, step);
      || UnderWay(next, generation, outcomes, slot, stage + One(HostMoves(st, step)))
      || Published(next, generation, outcomes, slot)
  {
    var pc := PcOf(st, HOST);
    if step.thread != HOST {
      OthersLeavePublish(st, step, generation, outcomes, slot, stage);
    } else if HostMoves(st, step) {
      if pc.Scanning? {
        HostScansOn(st, step, generation, outcomes, stage);
      } else if Filling(pc) {
        HostFills(st, generation, outcomes, slot, stage);
        FillIgnoresChoice(st, step.choice, Proceed);
      } else {
        HostSwaps(st, step, generation, outcomes, slot, stage);
      }
    }
  }

  // From under way, stage by stage, to done, whatever a step is.

  type Mover = (State, Step) -> State
  type MoveTest = (State, Step) -> bool
  type Way = (State, nat) -> bool

  function RunBy(move: Mover, st: State, steps: seq<Step>): State
    decreases |steps|
  {
    if |steps| == 0 then st else move(RunBy(move, st, steps[..|steps| - 1]), steps[|steps| - 1])
  }

  function MovesBy(move: Mover, counted: MoveTest, st: State, steps: seq<Step>): nat
    decreases |steps|
  {
    if |steps| == 0 then 0
    else
      var before := steps[..|steps| - 1];
      MovesBy(move, counted, st, before) + One(counted(RunBy(move, st, before), steps[|steps| - 1]))
  }

  ghost predicate Leads(
    move: Mover, counted: MoveTest, under: Way, done: State -> bool, st: State, step: Step, stage: nat)
  {
    under(st, stage) && (step.thread == HOST ==> !step.choice.BuildFails?) ==>
      under(move(st, step), stage + One(counted(st, step))) || done(move(st, step))
  }

  ghost predicate DoneAt(move: Mover, done: State -> bool, st: State, steps: seq<Step>, k: nat) {
    0 < k <= |steps| && done(RunBy(move, st, steps[..k]))
  }

  ghost predicate DoneWithin(move: Mover, done: State -> bool, st: State, steps: seq<Step>) {
    exists k: nat :: DoneAt(move, done, st, steps, k)
  }

  lemma {:induction false} RunLeads(
    move: Mover, counted: MoveTest, under: Way, done: State -> bool, st: State, steps: seq<Step>, stage: nat)
    requires forall s, step, k: nat :: Leads(move, counted, under, done, s, step, k)
    requires under(st, stage) && Builds(steps)
    ensures
      || under(RunBy(move, st, steps), stage + MovesBy(move, counted, st, steps))
      || DoneWithin(move, done, st, steps)
    decreases |steps|
  {
    if |steps| != 0 {
      var n := |steps| - 1;
      var before := steps[..n];
      RunLeads(move, counted, under, done, st, before, stage);
      assert steps[..|steps|] == steps;
      if DoneWithin(move, done, st, before) {
        var k: nat :| DoneAt(move, done, st, before, k);
        assert steps[..k] == before[..k];
        assert DoneAt(move, done, st, steps, k);
      } else {
        assert Leads(
          move, counted, under, done, RunBy(move, st, before), steps[n], stage + MovesBy(move, counted, st, before));
        if done(RunBy(move, st, steps)) { assert DoneAt(move, done, st, steps, |steps|); }
      }
    }
  }

  function AdvanceRule(): Mover { (st: State, step: Step) => Advance(st, step) }

  function HostRule(): MoveTest { (st: State, step: Step) => HostMoves(st, step) }

  lemma {:induction false} RunIsByRule(st: State, steps: seq<Step>)
    ensures RunBy(AdvanceRule(), st, steps) == Run(st, steps)
    decreases |steps|
  {
    if |steps| != 0 { RunIsByRule(st, steps[..|steps| - 1]); }
  }

  lemma {:induction false} MovesAreByRule(st: State, steps: seq<Step>)
    ensures MovesBy(AdvanceRule(), HostRule(), st, steps) == MovesOfHost(st, steps)
    decreases |steps|
  {
    if |steps| != 0 {
      MovesAreByRule(st, steps[..|steps| - 1]);
      RunIsByRule(st, steps[..|steps| - 1]);
    }
  }

  ghost function UnderWayFrom(st: State, slot: Option<Slot>): Way {
    (s: State, stage: nat) => UnderWay(s, st.generation, st.outcomes, slot, stage)
  }

  ghost function PublishedFrom(st: State, slot: Option<Slot>): State -> bool {
    (s: State) => Published(s, st.generation, st.outcomes, slot)
  }

  lemma {:induction false} PublishLeads(st: State, slot: Option<Slot>)
    ensures forall s, step, k: nat ::
      Leads(AdvanceRule(), HostRule(), UnderWayFrom(st, slot), PublishedFrom(st, slot), s, step, k)
  {
    forall s, step, k: nat
      ensures Leads(AdvanceRule(), HostRule(), UnderWayFrom(st, slot), PublishedFrom(st, slot), s, step, k)
    {
      if UnderWay(s, st.generation, st.outcomes, slot, k) && (step.thread == HOST ==> !step.choice.BuildFails?) {
        PublishStep(s, step, st.generation, st.outcomes, slot, k);
      }
    }
  }

  /** At some moment of the run the publish is done: the next generation, current, in
      this slot if one is named. */
  ghost predicate PublishedAt(st: State, steps: seq<Step>, slot: Option<Slot>, k: nat) {
    0 < k <= |steps| && Published(Run(st, steps[..k]), st.generation, st.outcomes, slot)
  }

  lemma {:induction false} PublishIsDone(st: State, steps: seq<Step>, slot: Option<Slot>, stage: nat) returns (k: nat)
    requires UnderWay(st, st.generation, st.outcomes, slot, stage) && Builds(steps) && 7 <= stage + MovesOfHost(st, steps)
    ensures PublishedAt(st, steps, slot, k)
  {
    PublishLeads(st, slot);
    MovesAreByRule(st, steps);
    k := StagesRunOut(AdvanceRule(), HostRule(), UnderWayFrom(st, slot), PublishedFrom(st, slot), st, steps, stage, 7);
    RunIsByRule(st, steps[..k]);
  }

  /** No run stays under way for more moves than there are stages. */
  lemma {:induction false} StagesRunOut(
    move: Mover, counted: MoveTest, under: Way, done: State -> bool, st: State, steps: seq<Step>, stage: nat, stages: nat)
    returns (k: nat)
    requires forall s, step, k: nat :: Leads(move, counted, under, done, s, step, k)
    requires forall s, k: nat :: under(s, k) ==> k < stages
    requires under(st, stage) && Builds(steps) && stages <= stage + MovesBy(move, counted, st, steps)
    ensures DoneAt(move, done, st, steps, k)
  {
    RunLeads(move, counted, under, done, st, steps, stage);
    k :| DoneAt(move, done, st, steps, k);
  }

  /** A publish that has claimed slot s and whose build does not fail is published there:
      five steps of the host that are not kept waiting suffice, whatever readers do. */
  lemma {:induction false} ClaimedIsPublished(st: State, steps: seq<Step>, s: Slot) returns (k: nat)
    requires Inv(st) && PcOf(st, HOST) == Claimed(s) && Builds(steps) && 5 <= MovesOfHost(st, steps)
    ensures PublishedAt(st, steps, Some(s), k)
  {
    k := PublishIsDone(st, steps, Some(s), 2);
  }

  /** And one that starts to look for a slot while no superseded result is occupied is
      published as well, within seven. */
  lemma {:induction false} UnhinderedIsPublished(st: State, steps: seq<Step>) returns (k: nat)
    requires GoodScan(st) && PcOf(st, HOST) == Scanning(0) && Builds(steps) && 7 <= MovesOfHost(st, steps)
    ensures PublishedAt(st, steps, None, k)
  {
    k := PublishIsDone(st, steps, None, 0);
  }

  // --------------------------------------------------------------------- waiting

  /** Whoever keeps others waiting can go on, and has let go after three steps of its
      own at the latest. */
  lemma {:induction false} LockHolderGoesOn(st: State, t: nat, choice: Choice)
    requires Plays(PcOf(st, t), Locks)
    ensures Apply(st, Step(t, choice)).Some?
    ensures
      var next := Advance(st, Step(t, choice));
      if LockStage(PcOf(st, t)) == 1 then !next.lock
      else Plays(PcOf(next, t), Locks) && LockStage(PcOf(next, t)) + 1 == LockStage(PcOf(st, t))
  {
  }

  function LockStage(pc: Pc): nat {
    match pc
    case AcquireLocked => 3
    case AcquireLoaded(_) => 2
    case SwapLocked(_) => 2
    case EndLocked => 2
    case _ => 1
  }

  // --------------------------------------------------------------------- readers

  function Alone(t: nat, choice: Choice, n: nat): seq<Step> {
    if n == 0 then [Step(t, choice)] else Alone(t, choice, n - 1) + [Step(t, Proceed)]
  }

  lemma {:induction false} RunOneMore(st: State, steps: seq<Step>, step: Step)
    ensures Run(st, steps + [step]) == Advance(Run(st, steps), step)
  {
    assert (steps + [step])[..|steps|] == steps;
  }

  lemma {:induction false} AloneGoesOn(st: State, t: nat, choice: Choice, n: nat, after: State)
    requires Run(st, Alone(t, choice, n)) == after
    ensures Run(st, Alone(t, choice, n + 1)) == Advance(after, Step(t, Proceed))
  {
    RunOneMore(st, Alone(t, choice, n), Step(t, Proceed));
  }

  lemma {:induction false} AloneStarts(st: State, t: nat, choice: Choice)
    ensures Run(st, Alone(t, choice, 0)) == Advance(st, Step(t, choice))
  {
    assert Run(st, []) == st;
    RunOneMore(st, [], Step(t, choice));
    assert [] + [Step(t, choice)] == [Step(t, choice)];
  }

  lemma {:induction false} MovedTwice(st: State, t: nat, a: Pc, b: Pc)
    ensures Move(Move(st, t, a), t, b) == Move(st, t, b)
  {
    assert st.threads[t := a][t := b] == st.threads[t := b];
  }

  lemma {:induction false} AcquireLocks(st: State, t: nat)
    requires st.phase.Open? && !st.lock && PcOf(st, t).Idle?
    ensures Advance(st, Step(t, Acquire)) == Move(st.(lock := true), t, AcquireLocked)
  {
  }

  lemma {:induction false} AcquireLoads(st: State, t: nat, s: Slot)
    requires PcOf(st, t) == AcquireLocked && st.current == Some(s)
    ensures Advance(st, Step(t, Proceed)) == Move(st, t, AcquireLoaded(Some(s)))
  {
  }

  lemma {:induction false} AcquireRetains(st: State, t: nat, s: Slot)
    requires PcOf(st, t) == AcquireLoaded(Some(s))
    ensures Advance(st, Step(t, Proceed)) ==
      Move(SetSlot(st, s, st.slots[s].(refs := st.slots[s].refs + 1)), t, AcquireRetained(Some(s), st.slots[s].tag))
  {
  }

  lemma {:induction false} AcquireUnlocks(st: State, t: nat, s: Slot, tag: nat)
    requires PcOf(st, t) == AcquireRetained(Some(s), tag)
    ensures Advance(st, Step(t, Proceed)) == Move(st.(lock := false), t, Using(s, tag))
  {
  }

  /** A reader left alone on an open session gets the current result, which is held once
      more; nothing else changes. */
  lemma {:induction false} AloneReaderAcquires(st: State, t: nat, s: Slot)
    requires Inv(st) && st.phase.Open? && !st.lock && PcOf(st, t).Idle? && st.current == Some(s)
    ensures Run(st, Alone(t, Acquire, 3)) ==
      Move(SetSlot(st, s, st.slots[s].(refs := st.slots[s].refs + 1)), t, Using(s, st.generation))
  {
    var tag := st.slots[s].tag;
    var locked := Move(st.(lock := true), t, AcquireLocked);
    var loaded := Move(st.(lock := true), t, AcquireLoaded(Some(s)));
    var held := SetSlot(st.(lock := true), s, st.slots[s].(refs := st.slots[s].refs + 1));
    AcquireLocks(st, t);
    AcquireLoads(locked, t, s);
    MovedTwice(st.(lock := true), t, AcquireLocked, AcquireLoaded(Some(s)));
    AcquireRetains(loaded, t, s);
    MovedTwice(held, t, AcquireLoaded(Some(s)), AcquireRetained(Some(s), tag));
    AcquireUnlocks(Move(held, t, AcquireRetained(Some(s), tag)), t, s, tag);
    MovedTwice(held.(lock := false), t, AcquireRetained(Some(s), tag), Using(s, tag));
    AloneStarts(st, t, Acquire);
    AloneGoesOn(st, t, Acquire, 0, locked);
    AloneGoesOn(st, t, Acquire, 1, loaded);
    AloneGoesOn(st, t, Acquire, 2, Move(held, t, AcquireRetained(Some(s), tag)));
  }

  // ----------------------------------------------------------------- letting go

  function ReleaseStage(pc: Pc): nat {
    match pc
    case Using(_, _) => 4
    case Closing(_) => 3
    case Dropping => 2
    case Freeing => 1
    case _ => 0
  }

  /** Whoever releases is never kept waiting and is through after four steps of its own. */
  lemma {:induction false} ReleaserGoesOn(st: State, t: nat, choice: Choice)
    requires Releasing(PcOf(st, t))
    ensures Apply(st, Step(t, choice)).Some?
    ensures
      var next := PcOf(Advance(st, Step(t, choice)), t);
      next.Idle? || (Releasing(next) && ReleaseStage(next) < ReleaseStage(PcOf(st, t)))
  {
  }

  /** How far the end of a session has come. */
  function EndStage(st: State): nat {
    var pc := PcOf(st, HOST);
    if st.phase.Ending? then
      if pc.EndLocked? then 0 else if pc.EndSwapped? then 1 else if pc.Using? then 2 else if pc.Closing? then 3
      else if pc.Dropping? then 4 else 5
    else if pc.Dropping? then 6 else if pc.Freeing? then 7 else 8
  }

  ghost predicate Ends(st: State, stage: nat) {
    var pc := PcOf(st, HOST);
    && Inv(st) && stage <= EndStage(st)
    && (st.phase.Ending? || (st.phase.Closed? && (pc.Dropping? || pc.Freeing?)))
    && (st.phase.Ending? ==> pc.EndLocked? || pc.EndSwapped? || pc.Using? || pc.Closing? || pc.Dropping? || pc.Idle?)
  }

  ghost predicate Ended(st: State) {
    Inv(st) && st.phase.Closed? && PcOf(st, HOST).Idle?
  }

  /** The session's own reference keeps the pool until the session is closed. */
  lemma {:induction false} OwnerKeepsPool(st: State)
    requires Inv(st) && st.phase.Ending? && PcOf(st, HOST).Dropping?
    ensures 1 < st.poolRefs
  {
    Counted(st.threads, Drops, HOST);
    UnretainedIsHosts(st);
  }

  lemma {:induction false} HostEnds(st: State, step: Step, stage: nat)
    requires Ends(st, stage) && HostMoves(st, step)
    ensures Ends(Advance(st, step), stage + 1) || Ended(Advance(st, step))
  {
    AdvanceKeepsInv(st, step);
    if st.phase.Ending? {
      assert PlaceOk(st, HOST);
      if PcOf(st, HOST).Dropping? { OwnerKeepsPool(st); }
      HostEndsOn(st, step);
    } else {
      HostCloses(st, step);
    }
  }

  lemma {:induction false} HostEndsOn(st: State, step: Step)
    requires st.phase.Ending? && HostMoves(st, step) && (PcOf(st, HOST).Dropping? ==> 1 < st.poolRefs)
    requires
      var pc := PcOf(st, HOST);
      pc.EndLocked? || pc.EndSwapped? || pc.Using? || pc.Closing? || pc.Dropping? || pc.Idle?
    ensures
      var next := Advance(st, step);
      var pc := PcOf(next, HOST);
      && EndStage(st) < EndStage(next)
      && if PcOf(st, HOST).Idle? then next.phase.Closed? && pc.Dropping?
         else next.phase.Ending? && (pc.EndSwapped? || pc.Using? || pc.Closing? || pc.Dropping? || pc.Idle?)
  {
  }

  lemma {:induction false} HostCloses(st: State, step: Step)
    requires st.phase.Closed? && HostMoves(st, step) && (PcOf(st, HOST).Dropping? || PcOf(st, HOST).Freeing?)
    ensures
      var next := Advance(st, step);
      && next.phase.Closed? && EndStage(st) < EndStage(next)
      && (PcOf(next, HOST).Freeing? || PcOf(next, HOST).Idle?)
  {
  }

  lemma {:induction false} OthersLeaveEnd(st: State, step: Step, stage: nat)
    requires Ends(st, stage) && step.thread != HOST
    ensures Ends(Advance(st, step), stage)
  {
    AdvanceKeepsInv(st, step);
    OtherThreadsStand(st, step, HOST);
    assert PlaceOk(st, step.thread);
  }

  ghost function EndsWay(): Way { (st: State, stage: nat) => Ends(st, stage) }

  ghost function EndedRule(): State -> bool { (st: State) => Ended(st) }

  lemma {:induction false} EndLeads()
    ensures forall s, step, k: nat :: Leads(AdvanceRule(), HostRule(), EndsWay(), EndedRule(), s, step, k)
  {
    forall s, step, k: nat ensures Leads(AdvanceRule(), HostRule(), EndsWay(), EndedRule(), s, step, k) {
      if Ends(s, k) {
        if step.thread != HOST { OthersLeaveEnd(s, step, k); }
        else if HostMoves(s, step) { HostEnds(s, step, k); }
      }
    }
  }

  /** Ending a session takes the host at most eight steps that are not kept waiting. */
  lemma {:induction false} EndIsReached(st: State, steps: seq<Step>) returns (k: nat)
    requires Inv(st) && PcOf(st, HOST).EndLocked? && Builds(steps) && 8 <= MovesOfHost(st, steps)
    ensures 0 < k <= |steps| && Ended(Run(st, steps[..k]))
  {
    assert PlaceOk(st, HOST);
    EndLeads();
    MovesAreByRule(st, steps);
    k := StagesRunOut(AdvanceRule(), HostRule(), EndsWay(), EndedRule(), st, steps, 0, 8);
    RunIsByRule(st, steps[..k]);
  }

  /** And then, once the last reader is through, the pool has been freed. */
  lemma {:induction false} EndedAndQuietIsFreed(st: State)
    requires Ended(st) && AllIdle(st)
    ensures st.frees == 1
  {
    UnmarkedWhenQuiet(st);
  }

  // ------------------------------------------------------------ a build that fails

  lemma {:induction false} BuildFailing(st: State, s: Slot)
    requires PcOf(st, HOST) == Building(s)
    ensures Advance(st, Step(HOST, BuildFails)) ==
      Move(st.(outcomes := st.outcomes + [false]), HOST, Using(s, st.slots[s].tag))
  {
  }

  lemma {:induction false} LastReferenceGoes(st: State, s: Slot, tag: nat)
    requires PcOf(st, HOST) == Using(s, tag) && st.slots[s].refs == 1
    ensures Advance(st, Step(HOST, Proceed)) == Move(SetSlot(st, s, st.slots[s].(refs := 0)), HOST, Closing(s))
  {
  }

  lemma {:induction false} MarkGoes(st: State, s: Slot)
    requires PcOf(st, HOST) == Closing(s) && st.slots[s].active
    ensures Advance(st, Step(HOST, Proceed)) == Move(SetSlot(st, s, st.slots[s].(active := false)), HOST, Dropping)
  {
  }

  lemma {:induction false} PoolReferenceGoes(st: State)
    requires PcOf(st, HOST) == Dropping && 1 < st.poolRefs
    ensures Advance(st, Step(HOST, Proceed)) == Move(st.(poolRefs := st.poolRefs - 1), HOST, Idle)
  {
  }

  lemma {:induction false} SlotSetTwice(st: State, s: Slot, a: SlotState, b: SlotState)
    ensures SetSlot(SetSlot(st, s, a), s, b) == SetSlot(st, s, b)
  {
  }

  /** A publish whose build fails reports it, gives its slot and its pool reference back,
      and leaves the current result and the generation alone. */
  lemma {:induction false} FailedBuildGivesBack(st: State, s: Slot, slot: SlotState)
    requires PcOf(st, HOST) == Building(s) && st.slots[s] == slot && slot.refs == 1 && slot.active && 1 < st.poolRefs
    ensures
      Advance(Advance(Advance(Advance(st, Step(HOST, BuildFails)), Step(HOST, Proceed)), Step(HOST, Proceed)), Step(HOST, Proceed))
      == Move(
           SetSlot(st, s, slot.(refs := 0, active := false)).(outcomes := st.outcomes + [false], poolRefs := st.poolRefs - 1),
           HOST, Idle)
  {
    var told := st.(outcomes := st.outcomes + [false]);
    BuildFailing(st, s);
    var first := Move(told, HOST, Using(s, slot.tag));
    LastReferenceGoes(first, s, slot.tag);
    MovedTwice(SetSlot(told, s, slot.(refs := 0)), HOST, Using(s, slot.tag), Closing(s));
    var second := Move(SetSlot(told, s, slot.(refs := 0)), HOST, Closing(s));
    MarkGoes(second, s);
    SlotSetTwice(told, s, slot.(refs := 0), slot.(refs := 0, active := false));
    var closed := SetSlot(told, s, slot.(refs := 0, active := false));
    MovedTwice(closed, HOST, Closing(s), Dropping);
    PoolReferenceGoes(Move(closed, HOST, Dropping));
    MovedTwice(closed.(poolRefs := st.poolRefs - 1), HOST, Dropping, Idle);
  }

  /** Inside a call or an end the host can always take its next step, but for the one that
      waits for the lock. */
  lemma {:induction false} HostIsNeverStuck(st: State)
    requires Inv(st) && (!PcOf(st, HOST).Idle? || st.phase.Ending?)
    ensures Apply(st, Step(HOST, Proceed)).Some? <==> !(PcOf(st, HOST).Building? && st.lock)
  {
  }

  /** A publish starts by looking for a slot, unless the numbers are used up. */
  lemma {:induction false} PublishStarts(st: State)
    requires Inv(st) && st.phase.Open? && PcOf(st, HOST).Idle?
    ensures Advance(st, Step(HOST, Publish)) ==
      if st.generation == 0xFFFF_FFFF_FFFF_FFFF then Finish(st, false) else Move(st, HOST, Scanning(0))
  {
  }

  lemma {:induction false} UnhinderedStarts(st: State)
    requires Inv(st) && st.phase.Open? && PcOf(st, HOST).Idle? && st.generation < GENERATION_MAX && !SupersededIsHeld(st)
    ensures GoodScan(Advance(st, Step(HOST, Publish)))
  {
    PublishStarts(st);
    AdvanceKeepsInv(st, Step(HOST, Publish));
    if SupersededIsHeld(Move(st, HOST, Scanning(0))) { ScanningOccupiesNothing(st, 0); }
  }

  /** A destroy starts by taking the lock. */
  lemma {:induction false} DestroyStarts(st: State)
    requires st.phase.Open? && PcOf(st, HOST).Idle? && !st.lock
    requires forall t :: t in st.threads ==> !Acquiring(st.threads[t])
    ensures Advance(st, Step(HOST, Destroy)) == Move(st.(lock := true, phase := Ending), HOST, EndLocked)
  {
  }
}
