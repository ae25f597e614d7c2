/** The session's life as functions on its fields: what each call does to them,
  given what the publication, the source and the analysis answer. */
module LifecycleRules {
  import opened Common

  datatype Phase = Created | Active | Draining | Completed | Cancelled | Failed
  datatype Mode = Push | Pull

  datatype Error =
    | InvalidArgument | InvalidState | Conflict | CancelledError | Internal | SourceError | Busy
    | OutOfMemory | SlotsExhausted | LimitExceeded | IncompatibleVersion

  datatype Status = Ok | WouldBlock | MoreWork | EndOfInput | Fail(error: Error)

  /** The answer of a call the model does not look into: none means success. */
  type Answer = Option<Error>

  datatype Fields = Fields(
    phase: Phase, generation: nat, mode: Mode, totalFrames: Option<nat>, finalEnd: nat, signalled: bool,
    acceptedEnd: nat, queued: bool, locked: bool, cancel: bool, hasSource: bool, overview: bool)

  predicate Allowed(a: Phase, b: Phase) {
    || a == b
    || (a.Created? && (b.Active? || b.Cancelled? || b.Failed?))
    || (a.Active? && (b.Draining? || b.Cancelled? || b.Failed?))
    || (a.Draining? && (b.Completed? || b.Cancelled? || b.Failed?))
  }

  /** A state change is stored first and taken back if it cannot be published. */
  function Change(s: Fields, target: Phase, publish: Answer): (Fields, Status) {
    if !Allowed(s.phase, target) then (s, Fail(InvalidState))
    else if s.phase == target then (s, Ok)
    else match publish
      case Some(error) => (s, Fail(error))
      case None => (s.(phase := target, generation := s.generation + 1), Ok)
  }

  // -------------------------------------------------------------------- input

  const UINT64_MAX: nat := 0xFFFF_FFFF_FFFF_FFFF

  /** A block of frames; `planes`: its pointers are those its format asks for. */
  datatype Block = Block(first: nat, count: nat, planes: bool)

  /** The checks on a block against what the session knows of the track. */
  function ValidateBlock(s: Fields, block: Block): Status {
    if block.count == 0 || block.first == UINT64_MAX || block.first + block.count > UINT64_MAX then Fail(InvalidArgument)
    else if s.signalled && block.first + block.count > s.finalEnd then Fail(Conflict)
    else if s.totalFrames.Some? && block.first + block.count > s.totalFrames.value then Fail(Conflict)
    else if !block.planes then Fail(InvalidArgument)
    else Ok
  }

  /** The waveform's answer to a block: an error, or how much of it was queued. */
  datatype Accept = Accept(error: Answer, frames: nat)

  function Queue(s: Fields, block: Block, accept: Accept): (Fields, Status) {
    if accept.error.Some? then (s, Fail(accept.error.value))
    else
      var end := block.first + (if accept.frames <= block.count then accept.frames else block.count);
      (s.(queued := s.queued || accept.frames > 0,
          acceptedEnd := if accept.frames > 0 && end > s.acceptedEnd then end else s.acceptedEnd), Ok)
  }

  function PushPcm(s: Fields, block: Block, publish: Answer, accept: Accept): (Fields, Status) {
    if !s.mode.Push? then (s, Fail(InvalidState))
    else if s.phase.Cancelled? then (s, Fail(CancelledError))
    else if !s.phase.Created? && !s.phase.Active? then (s, Fail(InvalidState))
    else if !ValidateBlock(s, block).Ok? then (s, ValidateBlock(s, block))
    else
      var (active, status) := Change(s, Active, publish);
      if status.Fail? then (active, status)
      else if s.overview then Queue(active, block, accept)
      else (active, Ok)
  }

  /** The three fields an end of input sets together. */
  function WithEnd(s: Fields, finalEnd: nat): Fields {
    s.(totalFrames := Some(finalEnd), finalEnd := finalEnd, signalled := true)
  }

  function EndOfInputCheck(s: Fields, finalEnd: nat): Option<Status> {
    if s.signalled then Some(if s.finalEnd == finalEnd then Ok else Fail(Conflict))
    else if s.totalFrames.Some? && s.totalFrames.value != finalEnd then Some(Fail(Conflict))
    else if s.acceptedEnd > finalEnd then Some(Fail(Conflict))
    else if !s.phase.Created? && !s.phase.Active? then Some(Fail(InvalidState))
    else None
  }

  /** End of input: activate if need be, set the fields, drain; a failed drain takes
      the fields back but leaves the session active. */
  function SignalEnd(s: Fields, finalEnd: nat, activate: Answer, drain: Answer): (Fields, Status) {
    var early := EndOfInputCheck(s, finalEnd);
    if early.Some? then (s, early.value)
    else
      var (active, status) := Change(s, Active, activate);
      if status.Fail? then (active, status)
      else Drain(active, finalEnd, drain)
  }

  /** Set the end, try to drain, take the end back if that failed. */
  function Drain(s: Fields, finalEnd: nat, drain: Answer): (Fields, Status) {
    var (drained, result) := Change(WithEnd(s, finalEnd), Draining, drain);
    if result.Fail? then
      (drained.(totalFrames := s.totalFrames, finalEnd := s.finalEnd, signalled := s.signalled), result)
    else (drained, result)
  }

  // --------------------------------------------------------------------- pull

  datatype Request = NotAvailable | RequestFails(error: Error) | Wanted(first: nat, end: nat)
  datatype Reading = ReadBlocks | ReadEnds | ReadFails | ReadBlock(block: Block)

  /** What the world answers during one process call. */
  datatype World = World(
    request: Request, budget: nat, reading: Reading, accept: Accept,
    activate: Answer, drain: Answer, fail: Answer, finish: Answer, cancelled: Answer,
    work: Answer, workStatus: Status, didWork: bool, published: nat, emptied: bool, pending: bool)

  function SourceFailure(s: Fields, w: World): (Fields, Status) {
    var (failed, status) := Change(s, Failed, w.fail);
    (failed, if status.Fail? then status else Fail(SourceError))
  }

  predicate Recoverable(error: Error) {
    error.SlotsExhausted? || error.OutOfMemory? || error.LimitExceeded?
  }

  function Smaller(a: nat, b: nat): nat { if a < b then a else b }

  const UINT32_MAX: nat := 0xFFFF_FFFF

  /** How many frames to ask for; none if the request makes no sense. */
  function FramesWanted(w: World): Option<nat> {
    match w.request
    case Wanted(first, end) =>
      if end <= first || end - first > UINT32_MAX then None
      else Some(if w.budget != 0 then Smaller(end - first, w.budget) else end - first)
    case _ => None
  }

  predicate BlockMatches(w: World, block: Block, frames: nat)
    requires w.request.Wanted?
  {
    block.first == w.request.first && block.count <= frames && block.first + block.count <= w.request.end
  }

  /** A block the source delivered: check, activate, queue; only running out of room
      leaves the session as it is, everything else fails it. */
  function TakeBlock(s: Fields, w: World, block: Block, frames: nat): (Fields, Status)
    requires w.request.Wanted?
  {
    if !ValidateBlock(s, block).Ok? || !BlockMatches(w, block, frames) then
      SourceFailure(s, w)
    else
      var (active, status) := Change(s, Active, w.activate);
      var (queued, result) := if status.Fail? then (active, status)
                              else if s.overview then Queue(active, block, w.accept) else (active, Ok);
      if result.Fail? && !Recoverable(result.error) then SourceFailure(queued, w) else (queued, result)
  }

  /** One pull before processing. */
  function PullStep(s: Fields, w: World): (Fields, Status) {
    if !s.hasSource then (s, Fail(InvalidState))
    else if s.phase.Draining? || s.phase.Completed? then (s, Ok)
    else if s.phase.Cancelled? then (s, Fail(CancelledError))
    else if s.phase.Failed? then (s, Fail(SourceError))
    else if s.queued then (s, Ok)
    else if w.request.NotAvailable? then
      if s.totalFrames.Some? then SignalEnd(s, s.totalFrames.value, w.activate, w.drain) else (s, WouldBlock)
    else if w.request.RequestFails? then (s, Fail(w.request.error))
    else if FramesWanted(w).None? then SourceFailure(s, w)
    else match w.reading
      case ReadBlocks => (s, WouldBlock)
      case ReadEnds =>
        if s.totalFrames.Some? && w.request.first != s.totalFrames.value then SourceFailure(s, w)
        else SignalEnd(s, w.request.first, w.activate, w.drain)
      case ReadFails => SourceFailure(s, w)
      case ReadBlock(block) => TakeBlock(s, w, block, FramesWanted(w).value)
  }

  // ------------------------------------------------------------------ process

  /** What analysis does to the fields: publish, and maybe empty the queue. */
  function AfterWork(s: Fields, w: World): Fields {
    if s.overview then s.(generation := s.generation + w.published, queued := s.queued && !w.emptied) else s
  }

  /** What a call reports when it changed no state: the analysis' own status if it
      did something, else whether there is more to do. */
  function WorkResult(s: Fields, w: World): Status {
    if s.overview && (w.didWork || w.workStatus.MoreWork?) then w.workStatus else WouldBlock
  }

  /** The process call once it owns the lock. */
  function ProcessLocked(s: Fields, w: World): (Fields, Status) {
    if s.cancel then
      var (cancelled, status) := Change(s, Cancelled, w.cancelled);
      (cancelled, if status.Fail? then status else Fail(CancelledError))
    else if s.phase.Completed? then (s, EndOfInput)
    else if s.phase.Cancelled? then (s, Fail(CancelledError))
    else if s.phase.Failed? then (s, Fail(Internal))
    else if s.overview && w.work.Some? then (AfterWork(s, w), Fail(w.work.value))
    else
      var worked := AfterWork(s, w);
      if worked.phase.Draining? && !worked.queued && !w.pending then
        var (completed, status) := Change(worked, Completed, w.finish);
        (completed, if status.Fail? then status else EndOfInput)
      else (worked, WorkResult(s, w))
  }

  function Unlocked(r: (Fields, Status)): (Fields, Status) {
    (r.0.(locked := false), r.1)
  }

  /** The whole process call. */
  function Process(s: Fields, w: World, valid: bool): (Fields, Status) {
    if !valid then (s, Fail(IncompatibleVersion))
    else if s.locked then (s, Fail(Busy))
    else if s.mode.Push? || s.cancel then Unlocked(ProcessLocked(s.(locked := true), w))
    else
      var (pulled, status) := PullStep(s.(locked := true), w);
      if status.Fail? then Unlocked((pulled, status))
      else Unlocked(ProcessLocked(pulled, w))
  }

  // ------------------------------------------------------------------- calls

  datatype Call =
    | DoPush(block: Block, publish: Answer, accept: Accept)
    | DoSignal(finalEnd: nat, activate: Answer, drain: Answer)
    | DoProcess(world: World, valid: bool)
    | DoSetSource(total: Option<nat>)
    | DoCancel

  /** The source may fix the total, if it does not contradict the configured one. */
  function SetSource(s: Fields, total: Option<nat>): (Fields, Status) {
    if !s.mode.Pull? || !s.phase.Created? then (s, Fail(InvalidState))
    else if total.Some? && s.totalFrames.Some? && total != s.totalFrames then (s, Fail(Conflict))
    else (s.(hasSource := true, totalFrames := if total.Some? then total else s.totalFrames), Ok)
  }

  function Do(s: Fields, call: Call): (Fields, Status) {
    match call
    case DoPush(block, publish, accept) => PushPcm(s, block, publish, accept)
    case DoSignal(finalEnd, activate, drain) =>
      if s.mode.Push? then SignalEnd(s, finalEnd, activate, drain) else (s, Fail(InvalidState))
    case DoProcess(world, valid) => Process(s, world, valid)
    case DoSetSource(total) => SetSource(s, total)
    case DoCancel => (s.(cancel := true), Ok)
  }

  function Run(s: Fields, calls: seq<Call>): Fields
    decreases |calls|
  {
    if calls == [] then s else Run(Do(s, calls[0]).0, calls[1..])
  }

  /** A session as creation leaves it; generation 1 is its first result. */
  function NewSession(mode: Mode, totalFrames: Option<nat>, overview: bool): Fields {
    Fields(Created, 1, mode, totalFrames, 0, false, 0, false, false, false, false, overview)
  }
}
