/** What a caller gets from each call on a session, told from the session's fields and
  the arguments, and that a session which is served well completes. */
module LifecycleOutcomes {
  import opened Common
  import opened LifecycleRules
  import opened Lifecycle

  // -------------------------------------------------------------------- blocks

  /** A block of at least one frame whose numbers fit 64 bits, from the track as far as its
      length is known, with the planes its format asks for. */
  predicate Sensible(s: Fields, block: Block) {
    InRange(block) && InTrack(s, block) && block.planes
  }

  predicate InRange(block: Block) {
    0 < block.count && block.first + block.count <= 0xFFFF_FFFF_FFFF_FFFF
  }

  predicate InTrack(s: Fields, block: Block) {
    var end := block.first + block.count;
    (s.signalled ==> end <= s.finalEnd) && (s.totalFrames.Some? ==> end <= s.totalFrames.value)
  }

  predicate Open(s: Fields) { s.phase == Created || s.phase == Active }

  lemma {:induction false} ValidBlocksAreSensible(s: Fields, block: Block)
    ensures ValidateBlock(s, block).Ok? <==> Sensible(s, block)
    ensures ValidateBlock(s, block) == Fail(Conflict) <==> InRange(block) && !InTrack(s, block)
    ensures !ValidateBlock(s, block).Ok? ==> ValidateBlock(s, block) in {Fail(Conflict), Fail(InvalidArgument)}
  {
  }

  /** What became of the session's input fields when a block was taken in. */
  ghost predicate TookIn(s: Fields, after: Fields, block: Block, accept: Accept) {
    var part := if block.count < accept.frames then block.count else accept.frames;
    var end := block.first + part;
    if s.overview && 0 < accept.frames then
      && after.queued && s.acceptedEnd <= after.acceptedEnd && end <= after.acceptedEnd
      && (after.acceptedEnd == s.acceptedEnd || after.acceptedEnd == end)
    else after.queued == s.queued && after.acceptedEnd == s.acceptedEnd
  }

  /** Nothing else of the input changed. */
  ghost predicate SameTrack(s: Fields, after: Fields) {
    && after.totalFrames == s.totalFrames && after.finalEnd == s.finalEnd && after.signalled == s.signalled
    && after.mode == s.mode && after.hasSource == s.hasSource && after.cancel == s.cancel && after.overview == s.overview
  }

  /** The session is active now and published that if it was not before. */
  ghost predicate IsActivated(s: Fields, after: Fields) {
    after.phase == Active && after.generation == s.generation + if s.phase == Created then 1 else 0
  }

  /** A push is taken exactly when the session takes pushes, the block makes sense, and
      nothing it needs on the way fails. */
  lemma {:induction false} PushIsTakenExactly(s: Fields, block: Block, publish: Answer, accept: Accept)
    ensures
      PushPcm(s, block, publish, accept).1 == Ok <==>
        && s.mode == Mode.Push && Open(s) && Sensible(s, block)
        && (s.phase == Created ==> publish.None?) && (s.overview ==> accept.error.None?)
    ensures
      var (after, status) := PushPcm(s, block, publish, accept);
      && (status == Ok ==> IsActivated(s, after) && TookIn(s, after, block, accept) && SameTrack(s, after))
      && (status != Ok ==> status.Fail? && after.queued == s.queued && after.acceptedEnd == s.acceptedEnd && SameTrack(s, after))
  {
  }

  /** Why a push is refused, if publishing and queueing would have worked. */
  lemma {:induction false} PushRefusalIs(s: Fields, block: Block, frames: nat)
    ensures
      var (after, status) := PushPcm(s, block, None, Accept(None, frames));
      && (status != Ok ==> after == s)
      && (status == Fail(CancelledError) <==> s.mode == Mode.Push && s.phase == Cancelled)
      && (status == Fail(InvalidState) <==>
            s.mode == Mode.Pull || s.phase == Draining || s.phase == Completed || s.phase == Failed)
      && (status == Fail(Conflict) <==> s.mode == Mode.Push && Open(s) && InRange(block) && !InTrack(s, block))
      && (status == Fail(InvalidArgument) <==>
            s.mode == Mode.Push && Open(s) && (!InRange(block) || (InTrack(s, block) && !block.planes)))
  {
  }

  // --------------------------------------------------------------- end of input

  /** The end agrees with all the session knows and has taken. */
  predicate Agrees(s: Fields, end: nat) {
    (s.totalFrames.Some? ==> s.totalFrames.value == end) && s.acceptedEnd <= end
  }

  /** An end is accepted exactly when it is the one signalled before, or the session is
      open, the end agrees, and the changes of state on the way are published. */
  lemma {:induction false} EndIsAcceptedExactly(s: Fields, end: nat, activate: Answer, drain: Answer)
    ensures
      SignalEnd(s, end, activate, drain).1 == Ok <==>
        if s.signalled then s.finalEnd == end
        else Agrees(s, end) && Open(s) && (s.phase == Created ==> activate.None?) && drain.None?
    ensures
      var (after, status) := SignalEnd(s, end, activate, drain);
      && (status == Ok && s.signalled ==> after == s)
      && (status == Ok && !s.signalled ==>
            after == s.(phase := Draining, signalled := true, finalEnd := end, totalFrames := Some(end),
                        generation := s.generation + if s.phase == Created then 2 else 1))
      && (status != Ok ==> status.Fail?)
  {
  }

  lemma {:induction false} EndRefusalIs(s: Fields, end: nat)
    ensures
      var (after, status) := SignalEnd(s, end, None, None);
      && (status != Ok ==> after == s)
      && (status == Fail(Conflict) <==> if s.signalled then s.finalEnd != end else !Agrees(s, end))
      && (status == Fail(InvalidState) <==> !s.signalled && Agrees(s, end) && !Open(s))
  {
  }

  /** When a change of state cannot be published, its error is the answer: the session stays
      as it was, or active once that was published. */
  lemma {:induction false} EndErrorIs(s: Fields, end: nat, activate: Answer, drain: Answer)
    requires !s.signalled && Open(s) && Agrees(s, end)
    ensures s.phase == Created && activate.Some? ==> SignalEnd(s, end, activate, drain) == (s, Fail(activate.value))
    ensures (s.phase == Created ==> activate.None?) && drain.Some? ==>
      var (after, status) := SignalEnd(s, end, activate, drain);
      status == Fail(drain.value) && after == s.(phase := Active, generation := after.generation) && IsActivated(s, after)
  {
  }

  /** Only a session that is pushed takes an end of input from its caller. */
  lemma {:induction false} EndNeedsPushMode(s: Fields, end: nat, activate: Answer, drain: Answer)
    ensures s.mode == Mode.Pull ==> Do(s, DoSignal(end, activate, drain)) == (s, Fail(InvalidState))
    ensures s.mode == Mode.Push ==> Do(s, DoSignal(end, activate, drain)) == SignalEnd(s, end, activate, drain)
  {
  }

  // --------------------------------------------------------------------- source

  /** A source is taken before the session starts, if it does not contradict a length that
      is known; a length it brings is kept. */
  lemma {:induction false} SourceIsTakenExactly(s: Fields, total: Option<nat>)
    ensures
      var (after, status) := SetSource(s, total);
      && (status == Ok <==>
            s.mode == Mode.Pull && s.phase == Created && (total.None? || s.totalFrames.None? || total == s.totalFrames))
      && (status == Fail(InvalidState) <==> s.mode == Mode.Push || s.phase != Created)
      && (status == Ok ==> after == s.(hasSource := true, totalFrames := after.totalFrames))
      && (status == Ok ==> after.totalFrames == if total.Some? then total else s.totalFrames)
      && (status != Ok ==> status in {Fail(InvalidState), Fail(Conflict)} && after == s)
  {
  }

  // ------------------------------------------------------------------------ pull

  /** How much is asked of the source: as much as was requested, but no more than the
      budget of the call when it has one. */
  lemma {:induction false} FramesWantedAre(w: World)
    requires w.request.Wanted?
    ensures FramesWanted(w).None? <==> w.request.end <= w.request.first || 0xFFFF_FFFF < w.request.end - w.request.first
    ensures FramesWanted(w).Some? ==>
      var n := FramesWanted(w).value;
      && 0 < n <= w.request.end - w.request.first && (w.budget != 0 ==> n <= w.budget)
      && (n == w.request.end - w.request.first || n == w.budget)
  {
  }

  /** The source's block answers what was asked. */
  predicate Answers(w: World, block: Block)
    requires w.request.Wanted?
  {
    && block.first == w.request.first && block.first + block.count <= w.request.end
    && (w.budget != 0 ==> block.count <= w.budget)
  }

  /** The session is ready to pull and asks the source. */
  predicate Asks(s: Fields, w: World) {
    s.hasSource && Open(s) && !s.queued && w.request.Wanted?
    && w.request.first < w.request.end && w.request.end - w.request.first <= 0xFFFF_FFFF
  }

  predicate RunsOutOfRoom(error: Error) {
    error == SlotsExhausted || error == OutOfMemory || error == LimitExceeded
  }

  /** Failed by its source: in the failed state, published, or, if that cannot be published,
      left with the error of that. */
  ghost predicate FailedBySource(s: Fields, w: World, after: Fields, status: Status) {
    if w.fail.None? then status == Fail(SourceError) && after.phase == Failed && after.generation == s.generation + 1
    else status == Fail(w.fail.value) && after == s
  }

  /** A block from the source is taken in exactly when it answers what was asked, makes
      sense, and nothing on the way fails; one that does not fails the session. */
  lemma {:induction false} PulledBlockIsTakenExactly(s: Fields, w: World, block: Block)
    requires Asks(s, w) && w.reading == ReadBlock(block)
    ensures
      var (after, status) := PullStep(s, w);
      && (status == Ok <==>
            && Sensible(s, block) && Answers(w, block)
            && (s.phase == Created ==> w.activate.None?) && (s.overview ==> w.accept.error.None?))
      && (status == Ok ==> IsActivated(s, after) && TookIn(s, after, block, w.accept) && SameTrack(s, after))
      && (!Sensible(s, block) || !Answers(w, block) ==> FailedBySource(s, w, after, status))
  {
    FramesWantedAre(w);
    ValidBlocksAreSensible(s, block);
  }

  /** Of the errors on the way only running out of room leaves the session alive. */
  lemma {:induction false} OnlyRoomIsForgiven(s: Fields, w: World, block: Block)
    requires Asks(s, w) && w.reading == ReadBlock(block) && Sensible(s, block) && Answers(w, block)
    requires s.phase == Active && s.overview && w.accept.error.Some?
    ensures
      var (after, status) := PullStep(s, w);
      if RunsOutOfRoom(w.accept.error.value) then status == Fail(w.accept.error.value) && after == s
      else FailedBySource(s, w, after, status)
  {
    FramesWantedAre(w);
    ValidBlocksAreSensible(s, block);
  }

  lemma {:induction false} OnlyRoomIsForgivenAtStart(s: Fields, w: World, block: Block)
    requires Asks(s, w) && w.reading == ReadBlock(block) && Sensible(s, block) && Answers(w, block)
    requires s.phase == Created && w.activate.Some?
    ensures
      var (after, status) := PullStep(s, w);
      if RunsOutOfRoom(w.activate.value) then status == Fail(w.activate.value) && after == s
      else FailedBySource(s, w, after, status)
  {
    FramesWantedAre(w);
    ValidBlocksAreSensible(s, block);
  }

  /** The source's other answers. */
  lemma {:induction false} OtherReadingsAre(s: Fields, w: World)
    requires Asks(s, w)
    ensures w.reading == ReadBlocks ==> PullStep(s, w) == (s, WouldBlock)
    ensures w.reading == ReadFails ==> FailedBySource(s, w, PullStep(s, w).0, PullStep(s, w).1)
    ensures w.reading == ReadEnds ==>
      if s.totalFrames.Some? && s.totalFrames.value != w.request.first
      then FailedBySource(s, w, PullStep(s, w).0, PullStep(s, w).1)
      else PullStep(s, w) == SignalEnd(s, w.request.first, w.activate, w.drain)
  {
    FramesWantedAre(w);
  }

  /** When a pulling session asks nothing of its source, and what it does then. */
  lemma {:induction false} WithoutAskingPullIs(s: Fields, w: World)
    ensures
      var r := PullStep(s, w);
      && (!s.hasSource ==> r == (s, Fail(InvalidState)))
      && (s.hasSource && (s.phase == Draining || s.phase == Completed) ==> r == (s, Ok))
      && (s.hasSource && s.phase == Cancelled ==> r == (s, Fail(CancelledError)))
      && (s.hasSource && s.phase == Failed ==> r == (s, Fail(SourceError)))
      && (s.hasSource && Open(s) && s.queued ==> r == (s, Ok))
      && (s.hasSource && Open(s) && !s.queued ==>
            && (w.request == NotAvailable && s.totalFrames.None? ==> r == (s, WouldBlock))
            && (w.request == NotAvailable && s.totalFrames.Some? ==>
                  r == SignalEnd(s, s.totalFrames.value, w.activate, w.drain))
            && (w.request.RequestFails? ==> r == (s, Fail(w.request.error)))
            && (w.request.Wanted? && !Asks(s, w) ==> FailedBySource(s, w, r.0, r.1)))
  {
    if w.request.Wanted? { FramesWantedAre(w); }
  }

  // --------------------------------------------------------------------- process

  /** A process call that gets past its gates: an open lock, and a pull that did not fail. */
  predicate Enters(s: Fields, w: World, valid: bool) {
    valid && !s.locked && (s.mode == Mode.Pull && !s.cancel ==> !PullStep(s.(locked := true), w).1.Fail?)
  }

  lemma {:induction false} GatesAre(s: Fields, w: World, valid: bool)
    ensures !valid ==> Process(s, w, valid) == (s, Fail(IncompatibleVersion))
    ensures valid && s.locked ==> Process(s, w, valid) == (s, Fail(Busy))
    ensures valid && !s.locked && !Enters(s, w, valid) ==>
      var pulled := PullStep(s.(locked := true), w);
      Process(s, w, valid).1 == pulled.1 && Process(s, w, valid).0 == pulled.0.(locked := false)
  {
  }

  /** What the analysis leaves in the queue. */
  predicate StillQueued(p: Fields, w: World) {
    p.queued && !(p.overview && w.emptied)
  }

  function Published(p: Fields, w: World): nat {
    if p.overview then w.published else 0
  }

  /** Behind its gates the call processes what the pull left. */
  lemma {:induction false} EnteredIs(s: Fields, w: World)
    requires Enters(s, w, true)
    ensures Process(s, w, true) == Unlocked(ProcessLocked(Pulled(s, w), w))
  {
  }

  lemma {:induction false} LockedCompletesExactly(p: Fields, w: World)
    ensures
      var (after, status) := ProcessLocked(p, w);
      && (after.phase == Completed && p.phase != Completed <==>
            && !p.cancel && p.phase == Draining && (p.overview ==> w.work.None?)
            && !StillQueued(p, w) && !w.pending && w.finish.None?)
      && (after.phase == Completed && p.phase != Completed ==>
            status == EndOfInput && after.generation == p.generation + Published(p, w) + 1)
  {
  }

  /** The process call completes the session exactly when it is not cancelled, drains, the
      analysis did not fail and left nothing queued or pending, and the completion is
      published; p is what the pull left. */
  lemma {:induction false} ProcessCompletesExactly(s: Fields, w: World, p: Fields)
    requires Enters(s, w, true) && p == Pulled(s, w)
    ensures
      var (after, status) := Process(s, w, true);
      && (after.phase == Completed && p.phase != Completed <==>
            && !p.cancel && p.phase == Draining && (p.overview ==> w.work.None?)
            && !StillQueued(p, w) && !w.pending && w.finish.None?)
      && (after.phase == Completed && p.phase != Completed ==>
            status == EndOfInput && after.generation == p.generation + Published(p, w) + 1)
  {
    EnteredIs(s, w);
    LockedCompletesExactly(p, w);
  }

  /** If only the publication is missing, its error is the answer and the work is kept. */
  lemma {:induction false} UnpublishedCompletionIs(s: Fields, w: World, p: Fields)
    requires Enters(s, w, true) && p == Pulled(s, w) && !p.cancel && p.phase == Draining
    requires (p.overview ==> w.work.None?) && !StillQueued(p, w) && !w.pending && w.finish.Some?
    ensures Process(s, w, true) ==
      (p.(locked := false, generation := p.generation + Published(p, w), queued := false), Fail(w.finish.value))
  {
    EnteredIs(s, w);
  }

  /** A cancelled session that has not ended ends as cancelled, if that can be published. */
  lemma {:induction false} CancelIsReported(s: Fields, w: World, p: Fields)
    requires Enters(s, w, true) && p == Pulled(s, w) && p.cancel
    ensures
      var (after, status) := Process(s, w, true);
      && !after.locked
      && (p.phase in {Created, Active, Draining} ==>
            if w.cancelled.None? then status == Fail(CancelledError) && after.phase == Cancelled && after.generation == p.generation + 1
            else status == Fail(w.cancelled.value) && after.phase == p.phase)
      && (p.phase == Cancelled ==> status == Fail(CancelledError) && after.phase == Cancelled)
      && (p.phase in {Completed, Failed} ==> status == Fail(InvalidState) && after.phase == p.phase)
  {
    EnteredIs(s, w);
  }

  /** An ended one stays as it is. */
  lemma {:induction false} EndIsReported(s: Fields, w: World, p: Fields)
    requires Enters(s, w, true) && p == Pulled(s, w) && !p.cancel
    ensures
      var r := Process(s, w, true);
      && (p.phase == Completed ==> r == (p.(locked := false), EndOfInput))
      && (p.phase == Cancelled ==> r == (p.(locked := false), Fail(CancelledError)))
      && (p.phase == Failed ==> r == (p.(locked := false), Fail(Internal)))
  {
    EnteredIs(s, w);
  }

  /** A call that only works on the queue: its analysis is kept, its status is handed on
      if it did anything, and else there is nothing to do yet. */
  lemma {:induction false} WorkIsReported(s: Fields, w: World, p: Fields)
    requires Enters(s, w, true) && p == Pulled(s, w) && !p.cancel && p.phase in {Created, Active, Draining}
    requires p.phase == Draining && (p.overview ==> w.work.None?) ==> StillQueued(p, w) || w.pending
    ensures
      var (after, status) := Process(s, w, true);
      && after == p.(locked := false, generation := p.generation + Published(p, w), queued := StillQueued(p, w))
      && (status ==
            if p.overview && w.work.Some? then Fail(w.work.value)
            else if p.overview && (w.didWork || w.workStatus == MoreWork) then w.workStatus
            else WouldBlock)
  {
    EnteredIs(s, w);
  }

  /** A cancel that was asked for is obeyed by the next process call. */
  lemma {:induction false} CancelIsObeyed(s: Fields, w: World)
    requires !s.locked && s.phase in {Created, Active, Draining} && w.cancelled.None?
    ensures Run(s, [DoCancel, DoProcess(w, true)]) ==
      s.(cancel := true, phase := Cancelled, generation := s.generation + 1)
  {
    var asked := Do(s, DoCancel).0;
    assert [DoCancel, DoProcess(w, true)][1..] == [DoProcess(w, true)];
    assert [DoProcess(w, true)][1..] == [];
    assert Run(asked, [DoProcess(w, true)]) == Do(asked, DoProcess(w, true)).0;
  }

  /** A new session that pulls asks its source for the first stretch that is wanted. */
  lemma {:induction false} NewSessionAsks(total: Option<nat>, told: Option<nat>, overview: bool, w: World)
    requires w.request.Wanted? && w.request.first < w.request.end <= w.request.first + 0xFFFF_FFFF
    requires total.None? || told.None? || total == told
    ensures
      var s := Do(NewSession(Mode.Pull, total, overview), DoSetSource(told)).0;
      && Asks(s, w) && s.generation == 1 && s.acceptedEnd == 0 && !s.signalled && !s.locked && !s.cancel
      && s.totalFrames == (if told.Some? then told else total) && s.overview == overview
  {
  }

  // ---------------------------------------------------------- a session that completes

  /** A call that only pushes a sensible block, all of it queued. */
  ghost predicate Feeds(s: Fields, call: Call) {
    && call.DoPush? && call.publish.None? && call.accept == Accept(None, call.block.count)
    && Sensible(s, call.block)
  }

  /** How far blocks reach. */
  function Reach(start: nat, calls: seq<Call>): nat {
    if calls == [] then start
    else
      var before := Reach(start, calls[..|calls| - 1]);
      var call := calls[|calls| - 1];
      var end := if call.DoPush? then call.block.first + call.block.count else 0;
      if before < end then end else before
  }

  lemma {:induction false} RunLast(s: Fields, calls: seq<Call>, call: Call)
    ensures Run(s, calls + [call]) == Do(Run(s, calls), call).0
    decreases |calls|
  {
    if calls == [] {
      assert calls + [call] == [call] && [call][1..] == [];
    } else {
      assert (calls + [call])[1..] == calls[1..] + [call];
      RunLast(Do(s, calls[0]).0, calls[1..], call);
    }
  }

  /** A pushed session that is only fed has taken in everything. */
  lemma {:induction false} FedSessionHasAll(s: Fields, calls: seq<Call>)
    requires s == NewSession(Mode.Push, s.totalFrames, true)
    requires forall i :: 0 <= i < |calls| ==> Feeds(s, calls[i])
    ensures Run(s, calls) ==
      if calls == [] then s
      else s.(phase := Active, generation := 2, queued := true, acceptedEnd := Reach(0, calls))
  {
    if calls != [] {
      var n := |calls| - 1;
      FedSessionHasAll(s, calls[..n]);
      assert calls == calls[..n] + [calls[n]];
      RunLast(s, calls[..n], calls[n]);
    }
  }

  /** A pushed session that is fed sensible blocks, told an end that agrees with them, and
      analysed until its queue is empty completes: four results published besides what the
      analysis published, and all it was fed before its end. */
  lemma {:induction false} FedSessionCompletes(total: Option<nat>, calls: seq<Call>, end: nat, w: World)
    requires
      var s := NewSession(Mode.Push, total, true);
      forall i :: 0 <= i < |calls| ==> Feeds(s, calls[i])
    requires (total.Some? ==> total.value == end) && Reach(0, calls) <= end
    requires w.work.None? && w.emptied && !w.pending && w.finish.None?
    ensures Run(NewSession(Mode.Push, total, true), calls + [DoSignal(end, None, None)] + [DoProcess(w, true)]) ==
      Fields(Completed, 4 + w.published, Mode.Push, Some(end), end, true, Reach(0, calls), false, false, false, false, true)
  {
    var s := NewSession(Mode.Push, total, true);
    FedSessionHasAll(s, calls);
    RunLast(s, calls, DoSignal(end, None, None));
    RunLast(s, calls + [DoSignal(end, None, None)], DoProcess(w, true));
  }
}
