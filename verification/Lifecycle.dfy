/** The session as an object whose calls update its fields, and what holds over
  every sequence of calls. */
module Lifecycle {
  import opened Common
  import opened LifecycleRules

  class Session {
    var phase: Phase
    var generation: nat
    var mode: Mode
    var totalFrames: Option<nat>
    var finalEnd: nat
    var signalled: bool
    var acceptedEnd: nat
    var queued: bool
    var locked: bool
    var cancel: bool
    var hasSource: bool
    const overview: bool

    ghost function Now(): Fields
      reads this
    {
      Fields(phase, generation, mode, totalFrames, finalEnd, signalled, acceptedEnd, queued, locked, cancel, hasSource, overview)
    }

    constructor (mode: Mode, totalFrames: Option<nat>, overview: bool)
      ensures Now() == NewSession(mode, totalFrames, overview)
    {
      this.phase, this.generation, this.mode, this.totalFrames := Created, 1, mode, totalFrames;
      this.finalEnd, this.signalled, this.acceptedEnd := 0, false, 0;
      this.queued, this.locked, this.cancel, this.hasSource, this.overview := false, false, false, false, overview;
    }

    /** Store the new state, publish, take it back if that failed. */
    method Transition(target: Phase, publish: Answer) returns (status: Status)
      modifies this`phase, this`generation
      ensures (Now(), status) == old(Change(Now(), target, publish))
    {
      if !Allowed(phase, target) {
        return Fail(InvalidState);
      }
      if phase == target {
        return Ok;
      }
      var before := phase;
      phase := target;
      if publish.Some? {
        phase := before;
        return Fail(publish.value);
      }
      generation := generation + 1;
      return Ok;
    }

    method AcceptPcm(block: Block, accept: Accept) returns (status: Status)
      modifies this`queued, this`acceptedEnd
      ensures (Now(), status) == old(Queue(Now(), block, accept))
    {
      if accept.error.Some? {
        return Fail(accept.error.value);
      }
      if accept.frames > 0 {
        var end := block.first + Smaller(accept.frames, block.count);
        queued := true;
        if end > acceptedEnd {
          acceptedEnd := end;
        }
      }
      return Ok;
    }

    method CheckBlock(block: Block) returns (status: Status)
      ensures status == ValidateBlock(Now(), block)
    {
      if block.count == 0 || block.first == UINT64_MAX || block.first + block.count > UINT64_MAX {
        return Fail(InvalidArgument);
      }
      var end := block.first + block.count;
      if signalled && end > finalEnd {
        return Fail(Conflict);
      }
      if totalFrames.Some? && end > totalFrames.value {
        return Fail(Conflict);
      }
      if !block.planes {
        return Fail(InvalidArgument);
      }
      return Ok;
    }

    method Push(block: Block, publish: Answer, accept: Accept) returns (status: Status)
      modifies this
      ensures (Now(), status) == old(PushPcm(Now(), block, publish, accept))
    {
      if mode != Mode.Push {
        return Fail(InvalidState);
      }
      if phase == Cancelled {
        return Fail(CancelledError);
      }
      if phase == Draining || phase == Completed || phase == Failed {
        return Fail(InvalidState);
      }
      status := CheckBlock(block);
      if status.Fail? {
        return;
      }
      if phase == Created {
        status := Transition(Active, publish);
        if status.Fail? {
          return;
        }
      }
      if overview {
        status := AcceptPcm(block, accept);
      }
    }

    /** Set the three end-of-input fields, drain, restore them if that failed. */
    method SignalEndOfInput(end: nat, activate: Answer, drain: Answer) returns (status: Status)
      modifies this
      ensures (Now(), status) == old(SignalEnd(Now(), end, activate, drain))
    {
      if signalled {
        return if finalEnd == end then Ok else Fail(Conflict);
      }
      if totalFrames.Some? && totalFrames.value != end {
        return Fail(Conflict);
      }
      if acceptedEnd > end {
        return Fail(Conflict);
      }
      if phase == Completed || phase == Cancelled || phase == Failed || phase == Draining {
        return Fail(InvalidState);
      }
      if phase == Created {
        status := Transition(Active, activate);
        if status.Fail? {
          return;
        }
      }
      status := DrainTo(end, drain);
    }

    method DrainTo(end: nat, drain: Answer) returns (status: Status)
      modifies this
      ensures (Now(), status) == old(Drain(Now(), end, drain))
    {
      var oldTotal, oldFinal, oldSignalled := totalFrames, finalEnd, signalled;
      totalFrames, finalEnd, signalled := Some(end), end, true;
      status := Transition(Draining, drain);
      if status.Fail? {
        totalFrames, finalEnd, signalled := oldTotal, oldFinal, oldSignalled;
      }
    }

    method FailSource(w: World) returns (status: Status)
      modifies this`phase, this`generation
      ensures (Now(), status) == old(SourceFailure(Now(), w))
    {
      status := Transition(Failed, w.fail);
      return if status.Fail? then status else Fail(SourceError);
    }

    method TakePulledBlock(w: World, block: Block, frames: nat) returns (status: Status)
      requires w.request.Wanted? && (phase == Created || phase == Active)
      modifies this
      ensures (Now(), status) == old(TakeBlock(Now(), w, block, frames))
    {
      status := CheckBlock(block);
      if status.Ok? && !BlockMatches(w, block, frames) {
        status := Fail(SourceError);
      }
      if !status.Fail? && phase == Created {
        status := Transition(Active, w.activate);
      }
      if !status.Fail? && overview {
        status := AcceptPcm(block, w.accept);
      }
      if status.Fail? && !Recoverable(status.error) {
        status := FailSource(w);
      }
    }

    /** Ask the source for the next stretch and act on its answer. */
    method Pull(w: World) returns (status: Status)
      modifies this
      ensures (Now(), status) == old(PullStep(Now(), w))
    {
      if !hasSource {
        return Fail(InvalidState);
      }
      if phase == Draining || phase == Completed {
        return Ok;
      }
      if phase == Cancelled {
        return Fail(CancelledError);
      }
      if phase == Failed {
        return Fail(SourceError);
      }
      if queued {
        return Ok;
      }
      if w.request.NotAvailable? {
        if totalFrames.Some? {
          status := SignalEndOfInput(totalFrames.value, w.activate, w.drain);
          return;
        }
        return WouldBlock;
      }
      if w.request.RequestFails? {
        return Fail(w.request.error);
      }
      if FramesWanted(w).None? {
        status := FailSource(w);
        return;
      }
      match w.reading
      case ReadBlocks =>
        return WouldBlock;
      case ReadEnds =>
        if totalFrames.Some? && w.request.first != totalFrames.value {
          status := FailSource(w);
        } else {
          status := SignalEndOfInput(w.request.first, w.activate, w.drain);
        }
      case ReadFails =>
        status := FailSource(w);
      case ReadBlock(block) =>
        status := TakePulledBlock(w, block, FramesWanted(w).value);
    }

    /** Process with the lock held; every path gives it back. */
    method ProcessHeld(w: World) returns (status: Status)
      requires locked
      modifies this
      ensures (Now(), status) == old(Unlocked(ProcessLocked(Now(), w)))
    {
      if cancel {
        status := Transition(Cancelled, w.cancelled);
        locked := false;
        return if status.Fail? then status else Fail(CancelledError);
      }
      if phase == Completed {
        locked := false;
        return EndOfInput;
      }
      if phase == Cancelled {
        locked := false;
        return Fail(CancelledError);
      }
      if phase == Failed {
        locked := false;
        return Fail(Internal);
      }
      if overview {
        generation := generation + w.published;
        queued := queued && !w.emptied;
        if w.work.Some? {
          locked := false;
          return Fail(w.work.value);
        }
      }
      if phase == Draining && !queued && !w.pending {
        status := Transition(Completed, w.finish);
        locked := false;
        return if status.Fail? then status else EndOfInput;
      }
      locked := false;
      return if overview && (w.didWork || w.workStatus.MoreWork?) then w.workStatus else WouldBlock;
    }

    /** The public call: take the lock, pull if the session pulls, process. */
    method ProcessCall(w: World, valid: bool) returns (status: Status)
      modifies this
      ensures (Now(), status) == old(Process(Now(), w, valid))
    {
      if !valid {
        return Fail(IncompatibleVersion);
      }
      if locked {
        return Fail(Busy);
      }
      locked := true;
      if mode == Mode.Push || cancel {
        status := ProcessHeld(w);
        return;
      }
      status := Pull(w);
      if status.Fail? {
        locked := false;
        return;
      }
      PullKeepsLock(old(Now()).(locked := true), w);
      status := ProcessHeld(w);
    }
  }

  // ------------------------------------------------------------- all the calls

  function Rank(p: Phase): nat {
    match p
    case Created => 0
    case Active => 1
    case Draining => 2
    case _ => 3
  }

  /** Along the transition relation, any number of steps. */
  predicate Forward(a: Phase, b: Phase) {
    a == b || Rank(a) < Rank(b)
  }

  /** How many changes of state it takes at least to get from one to the other. */
  function Changes(a: Phase, b: Phase): nat {
    if a == b then 0
    else if b.Cancelled? || b.Failed? then 1
    else if Rank(a) < Rank(b) then Rank(b) - Rank(a) else 0
  }

  /** What a call may do to the fields it does not answer for: every change of state
      on the way was published. */
  ghost predicate Advances(a: Fields, b: Fields) {
    && Forward(a.phase, b.phase) && a.generation + Changes(a.phase, b.phase) <= b.generation
    && a.mode == b.mode && a.overview == b.overview && a.locked == b.locked && a.cancel == b.cancel
  }

  /** A change persists exactly when it was published, and then follows the relation. */
  lemma ChangePersistsIffPublished(s: Fields, target: Phase, publish: Answer)
    requires s.phase != target
    ensures
      var (after, status) := Change(s, target, publish);
      && (after.phase == target <==> Allowed(s.phase, target) && publish.None?)
      && (after.phase != target ==> after == s && status.Fail?)
      && (after.phase == target ==> status.Ok? && after.generation == s.generation + 1)
  {
  }

  lemma ChangeAdvances(s: Fields, target: Phase, publish: Answer)
    ensures Advances(s, Change(s, target, publish).0)
  {
    if s.phase != target {
      ChangePersistsIffPublished(s, target, publish);
    }
  }

  lemma PullKeepsLock(s: Fields, w: World)
    ensures Advances(s, PullStep(s, w).0)
  {
    ChangeAdvances(s, Failed, w.fail);
    if s.totalFrames.Some? { SignalEndAdvances(s, s.totalFrames.value, w.activate, w.drain); }
    if w.request.Wanted? { SignalEndAdvances(s, w.request.first, w.activate, w.drain); }
    if w.request.Wanted? && w.reading.ReadBlock? && FramesWanted(w).Some? {
      TakeBlockAdvances(s, w, w.reading.block, FramesWanted(w).value);
    }
  }

  lemma AdvancesOn(a: Fields, b: Fields, c: Fields)
    requires Advances(a, b) && Advances(b, c)
    ensures Advances(a, c)
  {
  }

  lemma QueueAdvances(s: Fields, block: Block, accept: Accept)
    ensures Advances(s, Queue(s, block, accept).0) && Queue(s, block, accept).0.phase == s.phase
  {
  }

  lemma TakeBlockAdvances(s: Fields, w: World, block: Block, frames: nat)
    requires w.request.Wanted?
    ensures Advances(s, TakeBlock(s, w, block, frames).0)
  {
    ChangeAdvances(s, Failed, w.fail);
    var active := Change(s, Active, w.activate).0;
    ChangeAdvances(s, Active, w.activate);
    QueueAdvances(active, block, w.accept);
    var queued := Queue(active, block, w.accept).0;
    AdvancesOn(s, active, queued);
    ChangeAdvances(active, Failed, w.fail);
    ChangeAdvances(queued, Failed, w.fail);
    AdvancesOn(s, active, Change(active, Failed, w.fail).0);
    AdvancesOn(s, queued, Change(queued, Failed, w.fail).0);
    TakeBlockIs(s, w, block, frames);
  }

  /** The fields a taken block can end with. */
  lemma TakeBlockIs(s: Fields, w: World, block: Block, frames: nat)
    requires w.request.Wanted?
    ensures
      var active := Change(s, Active, w.activate).0;
      var queued := Queue(active, block, w.accept).0;
      var after := TakeBlock(s, w, block, frames).0;
      || after == Change(s, Failed, w.fail).0 || after == active || after == queued
      || after == Change(active, Failed, w.fail).0 || after == Change(queued, Failed, w.fail).0
  {
  }

  lemma DrainAdvances(s: Fields, finalEnd: nat, drain: Answer)
    ensures Advances(s, Drain(s, finalEnd, drain).0)
  {
  }

  lemma SignalEndAdvances(s: Fields, finalEnd: nat, activate: Answer, drain: Answer)
    ensures Advances(s, SignalEnd(s, finalEnd, activate, drain).0)
  {
    var active := Change(s, Active, activate).0;
    ChangeAdvances(s, Active, activate);
    DrainAdvances(active, finalEnd, drain);
    AdvancesOn(s, active, Drain(active, finalEnd, drain).0);
  }

  lemma FailedDrainRestores(s: Fields, finalEnd: nat, drain: Answer)
    ensures Drain(s, finalEnd, drain).1.Fail? ==> Drain(s, finalEnd, drain).0 == s
  {
  }

  /** A failed end of input leaves all three saved fields as they were; only the
      activation that was published on the way remains. */
  lemma FailedEndRestoresFields(s: Fields, finalEnd: nat, activate: Answer, drain: Answer)
    requires SignalEnd(s, finalEnd, activate, drain).1.Fail?
    ensures
      var after := SignalEnd(s, finalEnd, activate, drain).0;
      && after.totalFrames == s.totalFrames && after.finalEnd == s.finalEnd && after.signalled == s.signalled
      && (after == s || (s.phase.Created? && activate.None? && after == s.(phase := Active, generation := s.generation + 1)))
  {
    var active := Change(s, Active, activate).0;
    FailedDrainRestores(active, finalEnd, drain);
  }

  lemma ProcessAdvances(s: Fields, w: World)
    ensures Advances(s, ProcessLocked(s, w).0)
  {
  }

  lemma {:induction false} PushAdvances(s: Fields, block: Block, publish: Answer, accept: Accept)
    ensures Advances(s, PushPcm(s, block, publish, accept).0)
  {
    var active := Change(s, Active, publish).0;
    ChangeAdvances(s, Active, publish);
    QueueAdvances(active, block, accept);
    AdvancesOn(s, active, Queue(active, block, accept).0);
  }

  /** Every call moves the state only forward, publishes every change, and gives
      back the lock it took. */
  lemma CallAdvances(s: Fields, call: Call)
    ensures
      var after := Do(s, call).0;
      && Forward(s.phase, after.phase) && s.generation + Changes(s.phase, after.phase) <= after.generation
      && after.locked == s.locked
  {
    match call
    case DoPush(block, publish, accept) => PushAdvances(s, block, publish, accept);
    case DoSignal(finalEnd, activate, drain) => SignalEndAdvances(s, finalEnd, activate, drain);
    case DoProcess(w, valid) =>
      ProcessCallAdvances(s, w, valid);
    case DoSetSource(total) =>
    case DoCancel =>
  }

  /** The whole process call keeps the lock as it found it, on every path. */
  lemma ProcessCallAdvances(s: Fields, w: World, valid: bool)
    ensures Advances(s, Process(s, w, valid).0)
  {
    if valid && !s.locked {
      var held := s.(locked := true);
      PullKeepsLock(held, w);
      var pulled := PullStep(held, w).0;
      ProcessAdvances(held, w);
      ProcessAdvances(pulled, w);
      AdvancesOn(held, pulled, ProcessLocked(pulled, w).0);
      UnlockingAdvances(s, held, PullStep(held, w));
      UnlockingAdvances(s, held, ProcessLocked(held, w));
      UnlockingAdvances(s, held, ProcessLocked(pulled, w));
    }
  }

  /** Giving the lock back. */
  lemma {:induction false} UnlockingAdvances(s: Fields, held: Fields, r: (Fields, Status))
    requires !s.locked && held == s.(locked := true) && Advances(held, r.0)
    ensures Advances(s, Unlocked(r).0)
  {
  }

  /** Over every run: only forward, never out of a final state, a publication for
      every change, and the lock as it was. */
  lemma {:induction false} RunAdvances(s: Fields, calls: seq<Call>)
    ensures
      var after := Run(s, calls);
      && Forward(s.phase, after.phase) && (Rank(s.phase) == 3 ==> after.phase == s.phase)
      && s.generation + Changes(s.phase, after.phase) <= after.generation
      && after.locked == s.locked
    decreases |calls|
  {
    if calls != [] {
      CallAdvances(s, calls[0]);
      RunAdvances(Do(s, calls[0]).0, calls[1..]);
    }
  }

  // ------------------------------------------------------------- the end of input

  /** Draining and completed sessions know their end, and nothing was accepted
      beyond it. */
  ghost predicate EndKnown(s: Fields) {
    && (s.signalled ==> s.totalFrames == Some(s.finalEnd) && s.acceptedEnd <= s.finalEnd)
    && (s.phase.Draining? || s.phase.Completed? ==> s.signalled)
    && (s.signalled ==> !s.phase.Created? && !s.phase.Active?)
  }

  lemma PushKeepsEnd(s: Fields, block: Block, publish: Answer, accept: Accept)
    requires EndKnown(s)
    ensures EndKnown(PushPcm(s, block, publish, accept).0)
  {
  }

  lemma SignalKeepsEnd(s: Fields, finalEnd: nat, activate: Answer, drain: Answer)
    requires EndKnown(s)
    ensures EndKnown(SignalEnd(s, finalEnd, activate, drain).0)
  {
  }

  lemma PullKeepsEnd(s: Fields, w: World)
    requires EndKnown(s)
    ensures EndKnown(PullStep(s, w).0)
  {
    if s.totalFrames.Some? { SignalKeepsEnd(s, s.totalFrames.value, w.activate, w.drain); }
    if w.request.Wanted? { SignalKeepsEnd(s, w.request.first, w.activate, w.drain); }
    if w.request.Wanted? && w.reading.ReadBlock? && FramesWanted(w).Some? && (s.phase.Created? || s.phase.Active?) {
      TakeKeepsEnd(s, w, w.reading.block, FramesWanted(w).value);
    }
  }

  /** A session that knows no end and has not drained. */
  ghost predicate EndOpen(s: Fields) {
    !s.signalled && !s.phase.Draining? && !s.phase.Completed?
  }

  lemma {:induction false} StaysOpen(s: Fields, publish: Answer, fail: Answer, block: Block, accept: Accept)
    requires EndOpen(s)
    ensures EndOpen(Change(s, Active, publish).0) && EndOpen(Change(s, Failed, fail).0)
    ensures EndOpen(Queue(s, block, accept).0)
  {
  }

  lemma TakeKeepsEnd(s: Fields, w: World, block: Block, frames: nat)
    requires EndKnown(s) && (s.phase.Created? || s.phase.Active?) && w.request.Wanted?
    ensures EndKnown(TakeBlock(s, w, block, frames).0)
  {
    var active := Change(s, Active, w.activate).0;
    var queued := Queue(active, block, w.accept).0;
    StaysOpen(s, w.activate, w.fail, block, w.accept);
    StaysOpen(active, w.activate, w.fail, block, w.accept);
    StaysOpen(queued, w.activate, w.fail, block, w.accept);
    TakeBlockIs(s, w, block, frames);
    OneOfOpen(TakeBlock(s, w, block, frames).0, [Change(s, Failed, w.fail).0, active, queued,
      Change(active, Failed, w.fail).0, Change(queued, Failed, w.fail).0]);
  }

  lemma {:induction false} OneOfOpen(after: Fields, all: seq<Fields>)
    requires after in all && forall i :: 0 <= i < |all| ==> EndOpen(all[i])
    ensures EndKnown(after)
  {
  }

  lemma ProcessKeepsEnd(s: Fields, w: World)
    requires EndKnown(s)
    ensures EndKnown(ProcessLocked(s, w).0)
  {
  }

  lemma CallKeepsEnd(s: Fields, call: Call)
    requires EndKnown(s)
    ensures EndKnown(Do(s, call).0)
  {
    match call
    case DoPush(block, publish, accept) => PushKeepsEnd(s, block, publish, accept);
    case DoSignal(finalEnd, activate, drain) => SignalKeepsEnd(s, finalEnd, activate, drain);
    case DoProcess(w, valid) => ProcessCallKeepsEnd(s, w, valid);
    case DoSetSource(total) =>
    case DoCancel =>
  }

  lemma ProcessCallKeepsEnd(s: Fields, w: World, valid: bool)
    requires EndKnown(s)
    ensures EndKnown(Process(s, w, valid).0)
  {
    var held := s.(locked := true);
    ProcessKeepsEnd(held, w);
    PullKeepsEnd(held, w);
    ProcessKeepsEnd(PullStep(held, w).0, w);
  }

  /** Over every run, whoever completes has an end of input, accepted nothing beyond
      it, and completed with an empty queue. */
  lemma {:induction false} EveryRunKnowsItsEnd(s: Fields, calls: seq<Call>)
    requires EndKnown(s) && (s.phase.Completed? ==> !s.queued)
    ensures EndKnown(Run(s, calls)) && (Run(s, calls).phase.Completed? ==> !Run(s, calls).queued)
    decreases |calls|
  {
    if calls != [] {
      CallKeepsEnd(s, calls[0]);
      CallKeepsEmpty(s, calls[0]);
      EveryRunKnowsItsEnd(Do(s, calls[0]).0, calls[1..]);
    }
  }

  /** So it is for every session from its creation on. */
  lemma {:induction false} EverySessionKnowsItsEnd(
    mode: Mode, totalFrames: Option<nat>, overview: bool, calls: seq<Call>)
    ensures
      var end := Run(NewSession(mode, totalFrames, overview), calls);
      end.phase.Completed? ==>
        end.signalled && end.totalFrames == Some(end.finalEnd) && end.acceptedEnd <= end.finalEnd && !end.queued
  {
    EveryRunKnowsItsEnd(NewSession(mode, totalFrames, overview), calls);
  }

  lemma CallKeepsEmpty(s: Fields, call: Call)
    requires s.phase.Completed? ==> !s.queued
    ensures Do(s, call).0.phase.Completed? ==> !Do(s, call).0.queued
  {
    match call
    case DoPush(block, publish, accept) =>
    case DoSignal(finalEnd, activate, drain) =>
    case DoProcess(w, valid) => ProcessCallKeepsEmpty(s, w, valid);
    case DoSetSource(total) =>
    case DoCancel =>
  }

  lemma ProcessCallKeepsEmpty(s: Fields, w: World, valid: bool)
    requires s.phase.Completed? ==> !s.queued
    ensures Process(s, w, valid).0.phase.Completed? ==> !Process(s, w, valid).0.queued
  {
    PullNeverCompletes(s.(locked := true), w);
  }

  lemma SignalNeverCompletes(s: Fields, finalEnd: nat, activate: Answer, drain: Answer)
    ensures SignalEnd(s, finalEnd, activate, drain).0.phase.Completed? ==> s.phase.Completed?
  {
  }

  lemma TakeNeverCompletes(s: Fields, w: World, block: Block, frames: nat)
    requires w.request.Wanted?
    ensures TakeBlock(s, w, block, frames).0.phase.Completed? ==> s.phase.Completed?
  {
    TakeBlockIs(s, w, block, frames);
  }

  lemma PullNeverCompletes(s: Fields, w: World)
    ensures PullStep(s, w).0.phase.Completed? ==> s.phase.Completed?
    ensures s.phase.Completed? ==> PullStep(s, w).0 == s
  {
    if s.totalFrames.Some? { SignalNeverCompletes(s, s.totalFrames.value, w.activate, w.drain); }
    if w.request.Wanted? {
      SignalNeverCompletes(s, w.request.first, w.activate, w.drain);
      if w.reading.ReadBlock? && FramesWanted(w).Some? {
        TakeNeverCompletes(s, w, w.reading.block, FramesWanted(w).value);
      }
    }
  }

  // ------------------------------------------------------------------ completing

  /** The fields a process call works on: pulled first if the session pulls. */
  function Pulled(s: Fields, w: World): Fields {
    var held := s.(locked := true);
    if s.mode.Push? || s.cancel then held else PullStep(held, w).0
  }

  /** A process call on a draining session that finds the queue empty and no
      analysis pending, and whose publication succeeds. */
  ghost predicate FinishesBy(s: Fields, call: Call) {
    && call.DoProcess? && call.valid && !s.cancel
    && Pulled(s, call.world).phase.Draining? && !AfterWork(Pulled(s, call.world), call.world).queued
    && !call.world.pending && call.world.finish.None?
    && Do(s, call).1 == EndOfInput
  }

  /** COMPLETED is entered by no other call than that. */
  lemma {:induction false} CompletedOnlyWhenDone(s: Fields, call: Call)
    requires !s.phase.Completed? && Do(s, call).0.phase.Completed?
    ensures FinishesBy(s, call)
  {
    match call
    case DoPush(block, publish, accept) =>
      assert false;
    case DoSignal(finalEnd, activate, drain) =>
      SignalNeverCompletes(s, finalEnd, activate, drain);
      assert false;
    case DoProcess(w, valid) =>
      PullNeverCompletes(s.(locked := true), w);
      ProcessCompletes(Pulled(s, w), w);
    case DoSetSource(total) =>
      assert false;
    case DoCancel =>
      assert false;
  }

  lemma {:induction false} ProcessCompletes(s: Fields, w: World)
    requires !s.phase.Completed? && ProcessLocked(s, w).0.phase.Completed?
    ensures s.phase.Draining? && !AfterWork(s, w).queued && !w.pending && !s.cancel && w.finish.None?
    ensures ProcessLocked(s, w).1 == EndOfInput
  {
  }

  /** Over every run: a session that is completed in the end became so by one such
      call, having been anything but completed before it. */
  lemma {:induction false} EveryCompletionIsDone(s: Fields, calls: seq<Call>) returns (k: nat)
    requires !s.phase.Completed? && Run(s, calls).phase.Completed?
    ensures k < |calls| && !Run(s, calls[..k]).phase.Completed? && FinishesBy(Run(s, calls[..k]), calls[k])
    ensures Run(s, calls[..k + 1]).phase.Completed?
    decreases |calls|
  {
    var next := Do(s, calls[0]).0;
    if next.phase.Completed? {
      CompletedOnlyWhenDone(s, calls[0]);
      k := 0;
      assert calls[..1][1..] == [];
    } else {
      var later := EveryCompletionIsDone(next, calls[1..]);
      k := later + 1;
      RunOfFirst(s, calls, k);
      RunOfFirst(s, calls, k + 1);
    }
  }

  lemma {:induction false} RunOfFirst(s: Fields, calls: seq<Call>, k: nat)
    requires 0 < k <= |calls|
    ensures Run(s, calls[..k]) == Run(Do(s, calls[0]).0, calls[1..][..k - 1])
  {
    assert calls[..k][1..] == calls[1..][..k - 1];
  }

  // ---------------------------------------------------- refused publications

  /** None of the publications a call may need for a change of state succeeds. */
  ghost predicate Refused(call: Call) {
    match call
    case DoPush(_, publish, _) => publish.Some?
    case DoSignal(_, activate, drain) => activate.Some? && drain.Some?
    case DoProcess(w, _) =>
      w.activate.Some? && w.drain.Some? && w.fail.Some? && w.finish.Some? && w.cancelled.Some?
    case _ => true
  }

  lemma {:induction false} RefusedSignalStays(s: Fields, finalEnd: nat, activate: Answer, drain: Answer)
    requires activate.Some? && drain.Some?
    ensures SignalEnd(s, finalEnd, activate, drain).0 == s
  {
  }

  ghost predicate Stays(a: Fields, b: Fields) {
    a.phase == b.phase && a.generation == b.generation
  }

  lemma {:induction false} RefusedTakeStays(s: Fields, w: World, block: Block, frames: nat)
    requires w.request.Wanted? && w.activate.Some? && w.fail.Some?
    ensures Stays(s, TakeBlock(s, w, block, frames).0)
  {
    TakeBlockIs(s, w, block, frames);
  }

  lemma {:induction false} RefusedPullStays(s: Fields, w: World)
    requires w.activate.Some? && w.drain.Some? && w.fail.Some?
    ensures Stays(s, PullStep(s, w).0)
  {
    if s.totalFrames.Some? { RefusedSignalStays(s, s.totalFrames.value, w.activate, w.drain); }
    if w.request.Wanted? {
      RefusedSignalStays(s, w.request.first, w.activate, w.drain);
      if w.reading.ReadBlock? && FramesWanted(w).Some? {
        RefusedTakeStays(s, w, w.reading.block, FramesWanted(w).value);
      }
    }
  }

  /** What the analysis itself may publish in a call. */
  function Analysed(call: Call): nat {
    if call.DoProcess? then call.world.published else 0
  }

  lemma {:induction false} RefusedProcessStays(s: Fields, w: World)
    requires w.finish.Some? && w.cancelled.Some?
    ensures
      var after := ProcessLocked(s, w).0;
      after.phase == s.phase && s.generation <= after.generation <= s.generation + w.published
  {
  }

  lemma {:induction false} RefusedCallStays(s: Fields, call: Call)
    requires Refused(call)
    ensures
      var after := Do(s, call).0;
      after.phase == s.phase && s.generation <= after.generation <= s.generation + Analysed(call)
  {
    match call
    case DoPush(block, publish, accept) =>
    case DoSignal(finalEnd, activate, drain) => RefusedSignalStays(s, finalEnd, activate, drain);
    case DoProcess(w, valid) =>
      RefusedPullStays(s.(locked := true), w);
      RefusedProcessStays(Pulled(s, w), w);
    case DoSetSource(total) =>
    case DoCancel =>
  }

  function TotalAnalysed(calls: seq<Call>): nat {
    if calls == [] then 0 else Analysed(calls[0]) + TotalAnalysed(calls[1..])
  }

  /** Over every run: while no change of state can be published none persists, and
      only the analysis moves the generation. */
  lemma {:induction false} RefusedRunStays(s: Fields, calls: seq<Call>)
    requires forall i :: 0 <= i < |calls| ==> Refused(calls[i])
    ensures
      var after := Run(s, calls);
      after.phase == s.phase && s.generation <= after.generation <= s.generation + TotalAnalysed(calls)
    decreases |calls|
  {
    if calls != [] {
      RefusedCallStays(s, calls[0]);
      RefusedRunStays(Do(s, calls[0]).0, calls[1..]);
    }
  }
}
