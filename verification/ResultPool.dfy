/** Publication through the two-slot result pool, as interleaved atomic steps.

  The host thread publishes results and finally destroys the session. Any number
  of threads acquire the current result under the result lock and release it
  later, possibly after the session is gone. Each step below is one atomic
  operation of the program, and any thread may take the next one. */
module ResultPool {
  import opened Common

  const SLOTS: nat := 2
  const HOST: nat := 0
  const GENERATION_MAX: nat := 0xFFFF_FFFF_FFFF_FFFF

  type Slot = s: nat | s < SLOTS

  /** Where a thread is. `tag` remembers the generation of the result it got. */
  datatype Pc =
    | Idle
    // acquire
    | AcquireLocked
    | AcquireLoaded(result: Option<Slot>)
    | AcquireRetained(result: Option<Slot>, tag: nat)
    // holding a result, then releasing it
    | Using(slot: Slot, tag: nat)
    | Closing(slot: Slot)
    | Dropping
    | Freeing
    // publish
    | Scanning(next: nat)
    | Claimed(slot: Slot)
    | Zeroed(slot: Slot)
    | Filled(slot: Slot)
    | Building(slot: Slot)
    | SwapLocked(slot: Slot)
    | Swapped(previous: Option<Slot>, tag: nat)
    // destroy
    | EndLocked
    | EndSwapped(previous: Option<Slot>, tag: nat)

  datatype Phase = Open | Ending | Closed

  datatype SlotState = SlotState(active: bool, refs: int, tag: nat)

  type Slots = slots: seq<SlotState> | |slots| == SLOTS
    witness [SlotState(false, 0, 0), SlotState(false, 0, 0)]

  /** `outcomes` logs how each finished publish ended, oldest first. */
  datatype State = State(
    slots: Slots, poolRefs: int, frees: nat,
    current: Option<Slot>, generation: nat, outcomes: seq<bool>,
    lock: bool, phase: Phase, threads: map<nat, Pc>)

  datatype Choice = Acquire | Publish | Destroy | BuildFails | Proceed

  datatype Step = Step(thread: nat, choice: Choice)

  function PcOf(st: State, t: nat): Pc {
    if t in st.threads then st.threads[t] else Idle
  }

  function Move(st: State, t: nat, pc: Pc): State {
    st.(threads := st.threads[t := pc])
  }

  function SetSlot(st: State, s: Slot, slot: SlotState): State {
    st.(slots := st.slots[s := slot])
  }

  function Finish(st: State, success: bool): State {
    st.(outcomes := st.outcomes + [success])
  }

  predicate Acquiring(pc: Pc) {
    pc.AcquireLocked? || pc.AcquireLoaded? || pc.AcquireRetained?
  }

  /** The host does not destroy the session during another call on it. */
  predicate MayDestroy(st: State) {
    st.phase.Open? && forall t :: t in st.threads ==> !Acquiring(st.threads[t])
  }

  // ------------------------------------------------------------------ steps

  function StartFromIdle(st: State, t: nat, choice: Choice): Option<State> {
    if choice.Acquire? && st.phase.Open? && !st.lock then
      Some(Move(st.(lock := true), t, AcquireLocked))
    else if t != HOST then None
    else if choice.Publish? && st.phase.Open? then
      if st.generation == GENERATION_MAX then Some(Finish(st, false))
      else Some(Move(st, t, Scanning(0)))
    else if choice.Destroy? && MayDestroy(st) && !st.lock then
      Some(Move(st.(lock := true, phase := Ending), t, EndLocked))
    else if choice.Proceed? && st.phase.Ending? then
      Some(Move(st.(phase := Closed), t, Dropping))
    else None
  }

  /** Acquire: read the pointer, add a reference, unlock. */
  function AcquireStep(st: State, t: nat): State
    requires Acquiring(PcOf(st, t)) {
    match PcOf(st, t)
    case AcquireLoaded(Some(s)) =>
      var slot := st.slots[s];
      Move(SetSlot(st, s, slot.(refs := slot.refs + 1)), t, AcquireRetained(Some(s), slot.tag))
    case AcquireLoaded(None) => Move(st, t, AcquireRetained(None, 0))
    case AcquireRetained(Some(s), tag) => Move(st.(lock := false), t, Using(s, tag))
    case AcquireRetained(None, _) => Move(st.(lock := false), t, Idle)
    case _ => Move(st, t, AcquireLoaded(st.current))
  }

  /** Release: drop the result, close its slot, drop the pool, free the pool. */
  function ReleaseStep(st: State, t: nat): State {
    match PcOf(st, t)
    case Using(s, _) =>
      var slot := st.slots[s];
      Move(SetSlot(st, s, slot.(refs := slot.refs - 1)), t, if slot.refs == 1 then Closing(s) else Idle)
    case Closing(s) =>
      var slot := st.slots[s];
      Move(SetSlot(st, s, slot.(active := false)), t, if slot.active then Dropping else Idle)
    case Dropping =>
      Move(st.(poolRefs := st.poolRefs - 1), t, if st.poolRefs == 1 then Freeing else Idle)
    case _ => Move(st.(frees := st.frees + 1), t, Idle)
  }

  /** Look for a free slot in slot order and claim it by compare-and-swap. */
  function ScanStep(st: State, t: nat, next: nat): State {
    if next >= SLOTS then Move(Finish(st, false), t, Idle)
    else if st.slots[next].active then Move(st, t, Scanning(next + 1))
    else Move(SetSlot(st, next, st.slots[next].(active := true)), t, Claimed(next))
  }

  /** Zero the claimed slot, fill it in, retain the pool. */
  function FillStep(st: State, t: nat): State {
    match PcOf(st, t)
    case Claimed(s) => Move(SetSlot(st, s, st.slots[s].(refs := 0, tag := 0)), t, Zeroed(s))
    case Zeroed(s) =>
      Move(SetSlot(st, s, st.slots[s].(refs := 1, tag := st.generation + 1)), t, Filled(s))
    case Filled(s) => Move(st.(poolRefs := st.poolRefs + 1), t, Building(s))
    case _ => st
  }

  /** Swap the new result in under the lock, or give its slot back. */
  function SwapStep(st: State, t: nat, choice: Choice): Option<State> {
    match PcOf(st, t)
    case Building(s) =>
      if choice.BuildFails? then Some(Move(Finish(st, false), t, Using(s, st.slots[s].tag)))
      else if st.lock then None
      else Some(Move(st.(lock := true), t, SwapLocked(s)))
    case SwapLocked(s) =>
      Some(Move(Finish(st.(current := Some(s), generation := st.generation + 1), true), t,
                Swapped(st.current, st.generation)))
    case Swapped(previous, tag) =>
      Some(Move(st.(lock := false), t, if previous.None? then Idle else Using(previous.value, tag)))
    case EndLocked => Some(Move(st.(current := None), t, EndSwapped(st.current, st.generation)))
    case EndSwapped(previous, tag) =>
      Some(Move(st.(lock := false), t, if previous.None? then Idle else Using(previous.value, tag)))
    case _ => None
  }

  function Apply(st: State, step: Step): Option<State>
  {
    var pc := PcOf(st, step.thread);
    if pc.Idle? then StartFromIdle(st, step.thread, step.choice)
    else if Acquiring(pc) then Some(AcquireStep(st, step.thread))
    else if Releasing(pc) then Some(ReleaseStep(st, step.thread))
    else if pc.Scanning? then Some(ScanStep(st, step.thread, pc.next))
    else if Filling(pc) then Some(FillStep(st, step.thread))
    else SwapStep(st, step.thread, step.choice)
  }

  /** The session as creation leaves it: generation 1 in slot 0, one pool
      reference for the session and one for the slot. */
  const INITIAL := State(
    [SlotState(true, 1, 1), SlotState(false, 0, 0)], 2, 0, Some(0), 1, [], false, Open, map[])

  // -------------------------------------------------------------- invariant

  /** What a thread can be doing that the counters must account for. */
  datatype Role =
    | Holds(slot: Slot)    // owns one reference to the result in the slot
    | Closes(slot: Slot)   // dropped the last reference, slot still marked
    | Claims(slot: Slot)   // claimed the slot, no reference yet
    | Unretained           // claimed a slot, pool reference not yet added
    | Drops
    | Frees
    | Locks

  predicate Plays(pc: Pc, role: Role) {
    match role
    case Holds(s) =>
      || pc == Filled(s) || pc == Building(s) || pc == SwapLocked(s)
      || (pc.Using? && pc.slot == s) || (pc.AcquireRetained? && pc.result == Some(s))
      || (pc.Swapped? && pc.previous == Some(s)) || (pc.EndSwapped? && pc.previous == Some(s))
    case Closes(s) => pc == Closing(s)
    case Claims(s) => pc == Claimed(s) || pc == Zeroed(s)
    case Unretained => pc.Claimed? || pc.Zeroed? || pc.Filled?
    case Drops => pc.Dropping?
    case Frees => pc.Freeing?
    case Locks => Acquiring(pc) || pc.SwapLocked? || pc.Swapped? || pc.EndLocked? || pc.EndSwapped?
  }

  ghost function Who<T>(m: map<nat, T>, p: T -> bool): set<nat> {
    set t | t in m && p(m[t])
  }

  ghost function Players(threads: map<nat, Pc>, role: Role): set<nat> {
    Who(threads, (pc: Pc) => Plays(pc, role))
  }

  ghost function Count(threads: map<nat, Pc>, role: Role): nat {
    |Players(threads, role)|
  }

  function One(b: bool): nat { if b then 1 else 0 }

  /** How many threads play each role. */
  type Tally = Role -> nat

  ghost function TallyOf(st: State): Tally {
    (role: Role) => Count(st.threads, role)
  }

  /** References to the result in slot s: the session's and the threads'. */
  ghost function Held(st: State, n: Tally, s: Slot): nat {
    One(st.current == Some(s)) + n(Holds(s))
  }

  ghost predicate SlotOk(st: State, n: Tally, s: Slot)
  {
    && st.slots[s].refs == Held(st, n, s)
    && One(Held(st, n, s) > 0) + n(Claims(s)) + n(Closes(s)) == One(st.slots[s].active)
  }

  ghost predicate PoolOk(st: State, n: Tally)
  {
    && st.poolRefs + n(Unretained)
         == One(!st.phase.Closed?) + One(st.slots[0].active) + One(st.slots[1].active) + n(Drops)
    && st.frees + n(Frees) == One(st.poolRefs == 0)
  }

  ghost predicate CountsOk(st: State, n: Tally)
  {
    SlotOk(st, n, 0) && SlotOk(st, n, 1) && PoolOk(st, n) && n(Locks) == One(st.lock)
  }

  predicate Releasing(pc: Pc) {
    pc.Using? || pc.Closing? || pc.Dropping? || pc.Freeing?
  }

  predicate Filling(pc: Pc) {
    pc.Claimed? || pc.Zeroed? || pc.Filled?
  }

  predicate Publishing(pc: Pc) {
    || pc.Scanning? || pc.Claimed? || pc.Zeroed? || pc.Filled?
    || pc.Building? || pc.SwapLocked? || pc.Swapped?
  }

  predicate Destroying(pc: Pc) {
    pc.EndLocked? || pc.EndSwapped?
  }

  ghost predicate PlaceOk(st: State, t: nat) {
    var pc := PcOf(st, t);
    && (Publishing(pc) ==> t == HOST && st.phase.Open?)
    && (Destroying(pc) ==> t == HOST && st.phase.Ending?)
    && (Acquiring(pc) ==> st.phase.Open?)
    && (pc.AcquireLoaded? || pc.AcquireRetained? ==> pc.result == st.current)
    && (Publishing(pc) && !pc.Swapped? ==> st.generation < GENERATION_MAX)
  }

  /** What a thread holds still carries the generation the thread saw. */
  ghost predicate TagOk(st: State, t: nat) {
    match PcOf(st, t)
    case Filled(s) => st.slots[s].tag == st.generation + 1
    case Building(s) => st.slots[s].tag == st.generation + 1
    case SwapLocked(s) => st.slots[s].tag == st.generation + 1
    case Using(s, tag) => st.slots[s].tag == tag
    case AcquireRetained(Some(s), tag) => st.slots[s].tag == tag
    case Swapped(Some(s), tag) => st.slots[s].tag == tag
    case EndSwapped(Some(s), tag) => st.slots[s].tag == tag
    case _ => true
  }

  ghost predicate ThreadsOk(st: State)
  {
    forall t :: PlaceOk(st, t) && TagOk(st, t)
  }

  function Successes(outcomes: seq<bool>): nat {
    if outcomes == [] then 0
    else Successes(outcomes[..|outcomes| - 1]) + One(outcomes[|outcomes| - 1])
  }

  ghost predicate SessionOk(st: State)
  {
    && (st.current.Some? ==> st.slots[st.current.value].tag == st.generation)
    && (st.current.Some? <==> st.phase.Open? || PcOf(st, HOST).EndLocked?)
    && st.generation == 1 + Successes(st.outcomes)
    && st.generation <= GENERATION_MAX
  }

  ghost predicate Inv(st: State) {
    && CountsOk(st, TallyOf(st)) && SessionOk(st)
    && ThreadsOk(st)
  }

  // --------------------------------------------------------------- counting

  /** When one thread moves, each role gains or loses at most that thread. */
  lemma MoveCounts(threads: map<nat, Pc>, t: nat, pc: Pc, role: Role)
    ensures
      var before := if t in threads then threads[t] else Idle;
      Count(threads[t := pc], role) + One(Plays(before, role)) == Count(threads, role) + One(Plays(pc, role))
  {
    WhoAfter(threads, t, pc, (pc: Pc) => Plays(pc, role));
  }

  lemma WhoAfter<T>(m: map<nat, T>, t: nat, x: T, p: T -> bool)
    ensures |Who(m[t := x], p)| + One(t in m && p(m[t])) == |Who(m, p)| + One(p(x))
  {
    var before, after := Who(m, p), Who(m[t := x], p);
    assert after - {t} == before - {t};
    Without(before, t);
    Without(after, t);
  }

  lemma Without(p: set<nat>, t: nat)
    ensures |p| == |p - {t}| + One(t in p)
  {
    assert p == p - {t} + if t in p then {t} else {};
  }

  lemma AllMoveCounts(threads: map<nat, Pc>, t: nat, pc: Pc)
    ensures
      var before := if t in threads then threads[t] else Idle;
      forall role :: Count(threads[t := pc], role) + One(Plays(before, role)) == Count(threads, role) + One(Plays(pc, role))
  {
    forall role {
      MoveCounts(threads, t, pc, role);
    }
  }

  lemma Counted(threads: map<nat, Pc>, role: Role, t: nat)
    requires t in threads && Plays(threads[t], role)
    ensures 1 <= Count(threads, role)
  {
    assert t in Players(threads, role);
  }

  lemma CountedTwice(threads: map<nat, Pc>, role: Role, t: nat, u: nat)
    requires t != u && t in threads && u in threads
    requires Plays(threads[t], role) && Plays(threads[u], role)
    ensures 2 <= Count(threads, role)
  {
    assert {t, u} <= Players(threads, role);
    var rest := Players(threads, role) - {t, u};
    assert Players(threads, role) == rest + {t, u};
  }

  lemma Somebody(threads: map<nat, Pc>, role: Role) returns (t: nat)
    requires 1 <= Count(threads, role)
    ensures t in threads && Plays(threads[t], role)
  {
    t :| t in Players(threads, role);
  }
}
