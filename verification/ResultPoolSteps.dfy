/** Every atomic step of every thread keeps the pool's invariant. */
module ResultPoolSteps {
  import opened Common
  import opened ResultPool

  /** The tally after one thread moved from `pc` to `next`, at one role. */
  ghost predicate Shift(n: Tally, pc: Pc, next: Pc, m: Tally, role: Role) {
    m(role) + One(Plays(pc, role)) == n(role) + One(Plays(next, role))
  }

  ghost predicate SlotShift(n: Tally, pc: Pc, next: Pc, m: Tally, s: Slot) {
    Shift(n, pc, next, m, Holds(s)) && Shift(n, pc, next, m, Closes(s)) && Shift(n, pc, next, m, Claims(s))
  }

  ghost predicate PoolShift(n: Tally, pc: Pc, next: Pc, m: Tally) {
    && Shift(n, pc, next, m, Unretained) && Shift(n, pc, next, m, Drops)
    && Shift(n, pc, next, m, Frees) && Shift(n, pc, next, m, Locks)
  }

  lemma LockIsExclusive(st: State, t: nat, u: nat)
    requires Inv(st) && t != u && Plays(PcOf(st, t), Locks)
    ensures !Plays(PcOf(st, u), Locks) && st.lock
  {
    Counted(st.threads, Locks, t);
    if Plays(PcOf(st, u), Locks) {
      CountedTwice(st.threads, Locks, t, u);
    }
  }

  /** A slot being claimed is held by nobody, so writing it disturbs nobody. */
  lemma ClaimedIsUnheld(st: State, t: nat, u: nat, s: Slot)
    requires Inv(st) && Plays(PcOf(st, t), Claims(s))
    ensures st.current != Some(s) && !Plays(PcOf(st, u), Holds(s))
  {
    Counted(st.threads, Claims(s), t);
    if Plays(PcOf(st, u), Holds(s)) {
      Counted(st.threads, Holds(s), u);
    }
  }

  /** Only the host claims slots, and only while the session is open. */
  lemma UnretainedIsHosts(st: State)
    requires Inv(st)
    ensures Count(st.threads, Unretained) == One(Plays(PcOf(st, HOST), Unretained)) <= One(!st.phase.Closed?)
  {
    forall t | t in Players(st.threads, Unretained) ensures t == HOST {
      assert PlaceOk(st, t);
    }
    assert PlaceOk(st, HOST);
    assert Players(st.threads, Unretained) == if Plays(PcOf(st, HOST), Unretained) then {HOST} else {};
  }

  lemma ShiftsHold(st: State, t: nat, pc: Pc)
    ensures
      var n, m := TallyOf(st), TallyOf(Move(st, t, pc));
      && PoolShift(n, PcOf(st, t), pc, m)
      && SlotShift(n, PcOf(st, t), pc, m, 0) && SlotShift(n, PcOf(st, t), pc, m, 1)
  {
    AllMoveCounts(st.threads, t, pc);
  }

  ghost predicate FillReady(st: State, t: nat, n: Tally)
  {
    var pc := PcOf(st, t);
    && (pc.Claimed? || pc.Zeroed? ==> n(Claims(pc.slot)) > 0)
    && (pc.Filled? ==> st.phase.Open? && n(Unretained) == 1 && st.slots[pc.slot].active)
  }

  lemma IsFillReady(st: State, t: nat)
    requires Inv(st) && Filling(PcOf(st, t))
    ensures FillReady(st, t, TallyOf(st))
  {
    var pc := PcOf(st, t);
    assert PlaceOk(st, t);
    if pc.Filled? {
      UnretainedIsHosts(st);
      Counted(st.threads, Holds(pc.slot), t);
    } else {
      Counted(st.threads, Claims(pc.slot), t);
    }
  }

  lemma IdleSlot(st: State, t: nat, choice: Choice, n: Tally, m: Tally, s: Slot)
    requires SlotOk(st, n, s)
    requires PcOf(st, t).Idle? && StartFromIdle(st, t, choice).Some?
    requires SlotShift(n, PcOf(st, t), PcOf(StartFromIdle(st, t, choice).value, t), m, s)
    ensures SlotOk(StartFromIdle(st, t, choice).value, m, s)
  {
  }

  lemma IdlePool(st: State, t: nat, choice: Choice, n: Tally, m: Tally)
    requires PoolOk(st, n) && n(Locks) == One(st.lock)
    requires PcOf(st, t).Idle? && StartFromIdle(st, t, choice).Some?
    requires PoolShift(n, PcOf(st, t), PcOf(StartFromIdle(st, t, choice).value, t), m)
    ensures PoolOk(StartFromIdle(st, t, choice).value, m) && m(Locks) == One(StartFromIdle(st, t, choice).value.lock)
  {
  }

  lemma IdleSlots(st: State, t: nat, choice: Choice)
    requires Inv(st) && PcOf(st, t).Idle? && StartFromIdle(st, t, choice).Some?
    ensures SlotOk(StartFromIdle(st, t, choice).value, TallyOf(StartFromIdle(st, t, choice).value), 0) && SlotOk(StartFromIdle(st, t, choice).value, TallyOf(StartFromIdle(st, t, choice).value), 1)
  {
    var after := StartFromIdle(st, t, choice).value;
    var n, m := TallyOf(st), TallyOf(after);
    ShiftsHold(st, t, PcOf(after, t));
    assert PlaceOk(st, t);
    IdleSlot(st, t, choice, n, m, 0);
    IdleSlot(st, t, choice, n, m, 1);
  }

  lemma IdleCounts(st: State, t: nat, choice: Choice)
    requires Inv(st) && PcOf(st, t).Idle? && StartFromIdle(st, t, choice).Some?
    ensures CountsOk(StartFromIdle(st, t, choice).value, TallyOf(StartFromIdle(st, t, choice).value))
  {
    IdleSlots(st, t, choice);
    IdlePools(st, t, choice);
  }

  lemma {:induction false} IdlePools(st: State, t: nat, choice: Choice)
    requires Inv(st) && PcOf(st, t).Idle? && StartFromIdle(st, t, choice).Some?
    ensures
      var after := StartFromIdle(st, t, choice).value;
      PoolOk(after, TallyOf(after)) && TallyOf(after)(Locks) == One(after.lock)
  {
    var after := StartFromIdle(st, t, choice).value;
    ShiftsHold(st, t, PcOf(after, t));
    assert PlaceOk(st, t);
    IdlePool(st, t, choice, TallyOf(st), TallyOf(after));
  }

  lemma IdlePlace(st: State, t: nat, choice: Choice, u: nat)
    requires Inv(st) && PcOf(st, t).Idle? && StartFromIdle(st, t, choice).Some?
    ensures PlaceOk(StartFromIdle(st, t, choice).value, u)
  {
    assert PlaceOk(st, u) && PlaceOk(st, t);
  }

  lemma IdleTag(st: State, t: nat, choice: Choice, u: nat)
    requires Inv(st) && PcOf(st, t).Idle? && StartFromIdle(st, t, choice).Some?
    ensures TagOk(StartFromIdle(st, t, choice).value, u)
  {
    assert TagOk(st, u) && TagOk(st, t) && PlaceOk(st, t) && PlaceOk(st, u);
  }

  lemma IdleSession(st: State, t: nat, choice: Choice)
    requires Inv(st) && PcOf(st, t).Idle? && StartFromIdle(st, t, choice).Some?
    ensures SessionOk(StartFromIdle(st, t, choice).value)
  {
    assert PlaceOk(st, t) && TagOk(st, t);
  }

  lemma IdleThreads(st: State, t: nat, choice: Choice)
    requires Inv(st) && PcOf(st, t).Idle? && StartFromIdle(st, t, choice).Some?
    ensures ThreadsOk(StartFromIdle(st, t, choice).value)
  {
    forall u ensures PlaceOk(StartFromIdle(st, t, choice).value, u) && TagOk(StartFromIdle(st, t, choice).value, u) {
      IdlePlace(st, t, choice, u);
      IdleTag(st, t, choice, u);
    }
  }

  lemma AcquireSlot(st: State, t: nat, n: Tally, m: Tally, s: Slot)
    requires SlotOk(st, n, s)
    requires Acquiring(PcOf(st, t))
    requires PcOf(st, t).AcquireLoaded? ==> PcOf(st, t).result == st.current
    requires SlotShift(n, PcOf(st, t), PcOf(AcquireStep(st, t), t), m, s)
    ensures SlotOk(AcquireStep(st, t), m, s)
  {
  }

  lemma AcquirePool(st: State, t: nat, n: Tally, m: Tally)
    requires PoolOk(st, n) && n(Locks) == One(st.lock)
    requires Acquiring(PcOf(st, t))
    requires PcOf(st, t).AcquireLoaded? ==> PcOf(st, t).result == st.current
    requires PoolShift(n, PcOf(st, t), PcOf(AcquireStep(st, t), t), m)
    ensures PoolOk(AcquireStep(st, t), m) && m(Locks) == One(AcquireStep(st, t).lock)
  {
  }

  lemma AcquireCounts(st: State, t: nat)
    requires Inv(st) && Acquiring(PcOf(st, t))
    ensures CountsOk(AcquireStep(st, t), TallyOf(AcquireStep(st, t)))
  {
    var after := AcquireStep(st, t);
    var n, m := TallyOf(st), TallyOf(after);
    ShiftsHold(st, t, PcOf(after, t));
    assert PlaceOk(st, t);
    AcquireSlot(st, t, n, m, 0);
    AcquireSlot(st, t, n, m, 1);
    AcquirePool(st, t, n, m);
  }

  lemma AcquirePlace(st: State, t: nat, u: nat)
    requires Inv(st) && Acquiring(PcOf(st, t))
    ensures PlaceOk(AcquireStep(st, t), u)
  {
    assert PlaceOk(st, u) && PlaceOk(st, t);
  }

  lemma AcquireTag(st: State, t: nat, u: nat)
    requires Inv(st) && Acquiring(PcOf(st, t))
    ensures TagOk(AcquireStep(st, t), u)
  {
    assert TagOk(st, u) && TagOk(st, t) && PlaceOk(st, t) && PlaceOk(st, u);
  }

  lemma AcquireSession(st: State, t: nat)
    requires Inv(st) && Acquiring(PcOf(st, t))
    ensures SessionOk(AcquireStep(st, t))
  {
    assert PlaceOk(st, t) && TagOk(st, t);
  }

  lemma AcquireThreads(st: State, t: nat)
    requires Inv(st) && Acquiring(PcOf(st, t))
    ensures ThreadsOk(AcquireStep(st, t))
  {
    forall u ensures PlaceOk(AcquireStep(st, t), u) && TagOk(AcquireStep(st, t), u) {
      AcquirePlace(st, t, u);
      AcquireTag(st, t, u);
    }
  }

  lemma ReleaseSlot(st: State, t: nat, n: Tally, m: Tally, s: Slot)
    requires SlotOk(st, n, s)
    requires Releasing(PcOf(st, t))
    requires n(Drops) >= One(PcOf(st, t).Dropping?) && n(Unretained) <= One(!st.phase.Closed?)
    requires SlotShift(n, PcOf(st, t), PcOf(ReleaseStep(st, t), t), m, s)
    ensures SlotOk(ReleaseStep(st, t), m, s)
  {
  }

  lemma ReleasePool(st: State, t: nat, n: Tally, m: Tally)
    requires PoolOk(st, n) && n(Locks) == One(st.lock)
    requires Releasing(PcOf(st, t))
    requires n(Drops) >= One(PcOf(st, t).Dropping?) && n(Unretained) <= One(!st.phase.Closed?)
    requires PoolShift(n, PcOf(st, t), PcOf(ReleaseStep(st, t), t), m)
    ensures PoolOk(ReleaseStep(st, t), m) && m(Locks) == One(ReleaseStep(st, t).lock)
  {
    if PcOf(st, t).Using? || PcOf(st, t).Closing? {
      ReleaseFromSlot(st, t, n, m);
    } else {
      ReleaseFromPool(st, t, n, m);
    }
  }

  /** The result and its slot are let go. */
  lemma {:induction false} ReleaseFromSlot(st: State, t: nat, n: Tally, m: Tally)
    requires PoolOk(st, n) && n(Locks) == One(st.lock)
    requires PcOf(st, t).Using? || PcOf(st, t).Closing?
    requires PoolShift(n, PcOf(st, t), PcOf(ReleaseStep(st, t), t), m)
    ensures PoolOk(ReleaseStep(st, t), m) && m(Locks) == One(ReleaseStep(st, t).lock)
  {
  }

  /** Then the pool itself. */
  lemma {:induction false} ReleaseFromPool(st: State, t: nat, n: Tally, m: Tally)
    requires PoolOk(st, n) && n(Locks) == One(st.lock)
    requires PcOf(st, t).Dropping? || PcOf(st, t).Freeing?
    requires n(Drops) >= One(PcOf(st, t).Dropping?) && n(Unretained) <= One(!st.phase.Closed?)
    requires PoolShift(n, PcOf(st, t), PcOf(ReleaseStep(st, t), t), m)
    ensures PoolOk(ReleaseStep(st, t), m) && m(Locks) == One(ReleaseStep(st, t).lock)
  {
  }

  lemma ReleaseCounts(st: State, t: nat)
    requires Inv(st) && Releasing(PcOf(st, t))
    ensures CountsOk(ReleaseStep(st, t), TallyOf(ReleaseStep(st, t)))
  {
    var after := ReleaseStep(st, t);
    var n, m := TallyOf(st), TallyOf(after);
    ShiftsHold(st, t, PcOf(after, t));
    assert PlaceOk(st, t);
    UnretainedIsHosts(st);
    if PcOf(st, t).Dropping? {
      Counted(st.threads, Drops, t);
    }
    ReleaseSlot(st, t, n, m, 0);
    ReleaseSlot(st, t, n, m, 1);
    ReleasePool(st, t, n, m);
  }

  lemma ReleasePlace(st: State, t: nat, u: nat)
    requires PlaceOk(st, u) && Releasing(PcOf(st, t))
    ensures PlaceOk(ReleaseStep(st, t), u)
  {
  }

  lemma ReleaseTag(st: State, t: nat, u: nat)
    requires TagOk(st, u) && Releasing(PcOf(st, t))
    ensures TagOk(ReleaseStep(st, t), u)
  {
  }

  lemma ReleaseSession(st: State, t: nat)
    requires Inv(st) && Releasing(PcOf(st, t))
    ensures SessionOk(ReleaseStep(st, t))
  {
    assert PlaceOk(st, t) && TagOk(st, t);
  }

  lemma ReleaseThreads(st: State, t: nat)
    requires Inv(st) && Releasing(PcOf(st, t))
    ensures ThreadsOk(ReleaseStep(st, t))
  {
    forall u ensures PlaceOk(ReleaseStep(st, t), u) && TagOk(ReleaseStep(st, t), u) {
      ReleasePlace(st, t, u);
      ReleaseTag(st, t, u);
    }
  }

  lemma ScanSlot(st: State, t: nat, next: nat, n: Tally, m: Tally, s: Slot)
    requires SlotOk(st, n, s)
    requires PcOf(st, t) == Scanning(next)
    requires SlotShift(n, PcOf(st, t), PcOf(ScanStep(st, t, next), t), m, s)
    ensures SlotOk(ScanStep(st, t, next), m, s)
  {
  }

  lemma ScanPool(st: State, t: nat, next: nat, n: Tally, m: Tally)
    requires PoolOk(st, n) && n(Locks) == One(st.lock)
    requires PcOf(st, t) == Scanning(next)
    requires PoolShift(n, PcOf(st, t), PcOf(ScanStep(st, t, next), t), m)
    ensures PoolOk(ScanStep(st, t, next), m) && m(Locks) == One(ScanStep(st, t, next).lock)
  {
  }

  lemma ScanOneSlot(st: State, t: nat, next: nat, s: Slot)
    requires SlotOk(st, TallyOf(st), s) && PcOf(st, t) == Scanning(next)
    ensures SlotOk(ScanStep(st, t, next), TallyOf(ScanStep(st, t, next)), s)
  {
    var after := ScanStep(st, t, next);
    SlotShiftHolds(st, t, PcOf(after, t), s);
    assert after.threads == st.threads[t := PcOf(after, t)];
    ScanSlot(st, t, next, TallyOf(st), TallyOf(after), s);
  }

  lemma PoolShiftHolds(st: State, t: nat, pc: Pc)
    ensures PoolShift(TallyOf(st), PcOf(st, t), pc, TallyOf(Move(st, t, pc)))
  {
    AllMoveCounts(st.threads, t, pc);
  }

  lemma SlotShiftHolds(st: State, t: nat, pc: Pc, s: Slot)
    ensures SlotShift(TallyOf(st), PcOf(st, t), pc, TallyOf(Move(st, t, pc)), s)
  {
    AllMoveCounts(st.threads, t, pc);
  }

  lemma ScanCounts(st: State, t: nat, next: nat)
    requires Inv(st) && PcOf(st, t) == Scanning(next)
    ensures CountsOk(ScanStep(st, t, next), TallyOf(ScanStep(st, t, next)))
  {
    ScanOneSlot(st, t, next, 0);
    ScanOneSlot(st, t, next, 1);
    ScanPoolCounts(st, t, next);
  }

  lemma ScanPoolCounts(st: State, t: nat, next: nat)
    requires PoolOk(st, TallyOf(st)) && TallyOf(st)(Locks) == One(st.lock)
    requires PcOf(st, t) == Scanning(next)
    ensures PoolOk(ScanStep(st, t, next), TallyOf(ScanStep(st, t, next)))
    ensures TallyOf(ScanStep(st, t, next))(Locks) == One(ScanStep(st, t, next).lock)
  {
    var after := ScanStep(st, t, next);
    PoolShiftHolds(st, t, PcOf(after, t));
    assert after.threads == st.threads[t := PcOf(after, t)];
    ScanPool(st, t, next, TallyOf(st), TallyOf(after));
  }

  lemma ScanPlace(st: State, t: nat, next: nat, u: nat)
    requires Inv(st) && PcOf(st, t) == Scanning(next)
    ensures PlaceOk(ScanStep(st, t, next), u)
  {
    assert PlaceOk(st, u) && PlaceOk(st, t);
  }

  lemma ScanTag(st: State, t: nat, next: nat, u: nat)
    requires TagOk(st, u) && PcOf(st, t) == Scanning(next)
    ensures TagOk(ScanStep(st, t, next), u)
  {
    TagsStand(st, ScanStep(st, t, next), u);
  }

  /** A step that leaves tags, generation and a thread alone keeps its tag. */
  lemma TagsStand(st: State, after: State, u: nat)
    requires TagOk(st, u) && after.generation == st.generation
    requires forall s: Slot :: after.slots[s].tag == st.slots[s].tag
    requires PcOf(after, u) == PcOf(st, u) || PcOf(after, u).Scanning? || PcOf(after, u).Claimed? || PcOf(after, u).Idle?
    ensures TagOk(after, u)
  {
  }

  lemma ScanSession(st: State, t: nat, next: nat)
    requires Inv(st) && PcOf(st, t) == Scanning(next)
    ensures SessionOk(ScanStep(st, t, next))
  {
    assert PlaceOk(st, t) && TagOk(st, t);
  }

  lemma ScanThreads(st: State, t: nat, next: nat)
    requires Inv(st) && PcOf(st, t) == Scanning(next)
    ensures ThreadsOk(ScanStep(st, t, next))
  {
    forall u ensures PlaceOk(ScanStep(st, t, next), u) && TagOk(ScanStep(st, t, next), u) {
      ScanPlace(st, t, next, u);
      ScanTag(st, t, next, u);
    }
  }

  lemma FillSlot(st: State, t: nat, n: Tally, m: Tally, s: Slot)
    requires SlotOk(st, n, s)
    requires Filling(PcOf(st, t))
    requires FillReady(st, t, n)
    requires SlotShift(n, PcOf(st, t), PcOf(FillStep(st, t), t), m, s)
    ensures SlotOk(FillStep(st, t), m, s)
  {
  }

  lemma FillPool(st: State, t: nat, n: Tally, m: Tally)
    requires PoolOk(st, n) && n(Locks) == One(st.lock)
    requires Filling(PcOf(st, t))
    requires FillReady(st, t, n)
    requires PoolShift(n, PcOf(st, t), PcOf(FillStep(st, t), t), m)
    ensures PoolOk(FillStep(st, t), m) && m(Locks) == One(FillStep(st, t).lock)
  {
    if PcOf(st, t).Filled? {
      FillRetains(st, t, n, m, PcOf(st, t).slot);
    } else {
      FillClaims(st, t, n, m);
    }
  }

  /** The pool is retained for the slot. */
  lemma {:induction false} FillRetains(st: State, t: nat, n: Tally, m: Tally, s: Slot)
    requires PoolOk(st, n) && n(Locks) == One(st.lock)
    requires PcOf(st, t) == Filled(s) && FillReady(st, t, n) && PoolShift(n, Filled(s), Building(s), m)
    ensures PoolOk(FillStep(st, t), m) && m(Locks) == One(FillStep(st, t).lock)
  {
  }

  /** The slot is written; the pool does not notice. */
  lemma {:induction false} FillClaims(st: State, t: nat, n: Tally, m: Tally)
    requires PoolOk(st, n) && n(Locks) == One(st.lock)
    requires (PcOf(st, t).Claimed? || PcOf(st, t).Zeroed?) && FillReady(st, t, n)
    requires PoolShift(n, PcOf(st, t), PcOf(FillStep(st, t), t), m)
    ensures PoolOk(FillStep(st, t), m) && m(Locks) == One(FillStep(st, t).lock)
  {
  }

  lemma FillCounts(st: State, t: nat)
    requires Inv(st) && Filling(PcOf(st, t))
    ensures CountsOk(FillStep(st, t), TallyOf(FillStep(st, t)))
  {
    var after := FillStep(st, t);
    var n, m := TallyOf(st), TallyOf(after);
    ShiftsHold(st, t, PcOf(after, t));
    assert PlaceOk(st, t);
    IsFillReady(st, t);
    FillSlot(st, t, n, m, 0);
    FillSlot(st, t, n, m, 1);
    FillPool(st, t, n, m);
  }

  lemma FillPlace(st: State, t: nat, u: nat)
    requires Inv(st) && Filling(PcOf(st, t))
    ensures PlaceOk(FillStep(st, t), u)
  {
    assert PlaceOk(st, u) && PlaceOk(st, t);
  }

  lemma FillTag(st: State, t: nat, u: nat)
    requires Inv(st) && Filling(PcOf(st, t))
    ensures TagOk(FillStep(st, t), u)
  {
    assert TagOk(st, u) && TagOk(st, t) && PlaceOk(st, t) && PlaceOk(st, u);
    if !PcOf(st, t).Filled? {
      ClaimedIsUnheld(st, t, u, PcOf(st, t).slot);
    }
  }

  lemma FillSession(st: State, t: nat)
    requires Inv(st) && Filling(PcOf(st, t))
    ensures SessionOk(FillStep(st, t))
  {
    assert PlaceOk(st, t) && TagOk(st, t);
    if !PcOf(st, t).Filled? {
      ClaimedIsUnheld(st, t, t, PcOf(st, t).slot);
    }
  }

  lemma FillThreads(st: State, t: nat)
    requires Inv(st) && Filling(PcOf(st, t))
    ensures ThreadsOk(FillStep(st, t))
  {
    forall u ensures PlaceOk(FillStep(st, t), u) && TagOk(FillStep(st, t), u) {
      FillPlace(st, t, u);
      FillTag(st, t, u);
    }
  }

  lemma SwapSlot(st: State, t: nat, choice: Choice, n: Tally, m: Tally, s: Slot)
    requires SlotOk(st, n, s)
    requires SwapStep(st, t, choice).Some?
    requires SlotShift(n, PcOf(st, t), PcOf(SwapStep(st, t, choice).value, t), m, s)
    ensures SlotOk(SwapStep(st, t, choice).value, m, s)
  {
  }

  lemma SwapPool(st: State, t: nat, choice: Choice, n: Tally, m: Tally)
    requires PoolOk(st, n) && n(Locks) == One(st.lock)
    requires SwapStep(st, t, choice).Some?
    requires PoolShift(n, PcOf(st, t), PcOf(SwapStep(st, t, choice).value, t), m)
    ensures PoolOk(SwapStep(st, t, choice).value, m) && m(Locks) == One(SwapStep(st, t, choice).value.lock)
  {
  }

  lemma SwapOneSlot(st: State, t: nat, choice: Choice, s: Slot)
    requires SlotOk(st, TallyOf(st), s) && SwapStep(st, t, choice).Some?
    ensures SlotOk(SwapStep(st, t, choice).value, TallyOf(SwapStep(st, t, choice).value), s)
  {
    var after := SwapStep(st, t, choice).value;
    SlotShiftHolds(st, t, PcOf(after, t), s);
    assert after.threads == st.threads[t := PcOf(after, t)];
    SwapSlot(st, t, choice, TallyOf(st), TallyOf(after), s);
  }

  lemma SwapCounts(st: State, t: nat, choice: Choice)
    requires Inv(st) && SwapStep(st, t, choice).Some?
    ensures CountsOk(SwapStep(st, t, choice).value, TallyOf(SwapStep(st, t, choice).value))
  {
    SwapOneSlot(st, t, choice, 0);
    SwapOneSlot(st, t, choice, 1);
    SwapPoolCounts(st, t, choice);
  }

  lemma SwapPoolCounts(st: State, t: nat, choice: Choice)
    requires PoolOk(st, TallyOf(st)) && TallyOf(st)(Locks) == One(st.lock)
    requires SwapStep(st, t, choice).Some?
    ensures PoolOk(SwapStep(st, t, choice).value, TallyOf(SwapStep(st, t, choice).value))
    ensures TallyOf(SwapStep(st, t, choice).value)(Locks) == One(SwapStep(st, t, choice).value.lock)
  {
    var after := SwapStep(st, t, choice).value;
    PoolShiftHolds(st, t, PcOf(after, t));
    assert after.threads == st.threads[t := PcOf(after, t)];
    SwapPool(st, t, choice, TallyOf(st), TallyOf(after));
  }

  lemma SwapPlace(st: State, t: nat, choice: Choice, u: nat)
    requires PlaceOk(st, u) && PlaceOk(st, t) && SwapStep(st, t, choice).Some?
    requires u != t && Plays(PcOf(st, t), Locks) ==> !Plays(PcOf(st, u), Locks)
    ensures PlaceOk(SwapStep(st, t, choice).value, u)
  {
  }

  lemma SwapTag(st: State, t: nat, choice: Choice, u: nat)
    requires Inv(st) && SwapStep(st, t, choice).Some?
    ensures TagOk(SwapStep(st, t, choice).value, u)
  {
    assert TagOk(st, u) && TagOk(st, t) && PlaceOk(st, t) && PlaceOk(st, u);
  }

  lemma SwapSession(st: State, t: nat, choice: Choice)
    requires Inv(st) && SwapStep(st, t, choice).Some?
    ensures SessionOk(SwapStep(st, t, choice).value)
  {
    assert PlaceOk(st, t) && TagOk(st, t);
  }

  lemma SwapThreads(st: State, t: nat, choice: Choice)
    requires Inv(st) && SwapStep(st, t, choice).Some?
    ensures ThreadsOk(SwapStep(st, t, choice).value)
  {
    forall u ensures PlaceOk(SwapStep(st, t, choice).value, u) && TagOk(SwapStep(st, t, choice).value, u) {
      if u != t && Plays(PcOf(st, t), Locks) {
        LockIsExclusive(st, t, u);
      }
      SwapPlace(st, t, choice, u);
      SwapTag(st, t, choice, u);
    }
  }

  lemma StepKeepsCounts(st: State, step: Step)
    requires Inv(st) && Apply(st, step).Some?
    ensures CountsOk(Apply(st, step).value, TallyOf(Apply(st, step).value))
  {
    var t := step.thread;
    var pc := PcOf(st, t);
    if pc.Idle? { IdleCounts(st, t, step.choice); }
    else if Acquiring(pc) { AcquireCounts(st, t); }
    else if Releasing(pc) { ReleaseCounts(st, t); }
    else if pc.Scanning? { ScanCounts(st, t, pc.next); }
    else if Filling(pc) { FillCounts(st, t); }
    else { SwapCounts(st, t, step.choice); }
  }

  lemma StepKeepsSession(st: State, step: Step)
    requires Inv(st) && Apply(st, step).Some?
    ensures SessionOk(Apply(st, step).value)
  {
    var t := step.thread;
    var pc := PcOf(st, t);
    if pc.Idle? { IdleSession(st, t, step.choice); }
    else if Acquiring(pc) { AcquireSession(st, t); }
    else if Releasing(pc) { ReleaseSession(st, t); }
    else if pc.Scanning? { ScanSession(st, t, pc.next); }
    else if Filling(pc) { FillSession(st, t); }
    else { SwapSession(st, t, step.choice); }
  }

  lemma StepKeepsThreads(st: State, step: Step)
    requires Inv(st) && Apply(st, step).Some?
    ensures ThreadsOk(Apply(st, step).value)
  {
    var t := step.thread;
    var pc := PcOf(st, t);
    if pc.Idle? { IdleThreads(st, t, step.choice); }
    else if Acquiring(pc) { AcquireThreads(st, t); }
    else if Releasing(pc) { ReleaseThreads(st, t); }
    else if pc.Scanning? { ScanThreads(st, t, pc.next); }
    else if Filling(pc) { FillThreads(st, t); }
    else { SwapThreads(st, t, step.choice); }
  }

  /** Every step of every thread keeps the invariant. */
  lemma StepKeepsInv(st: State, step: Step)
    requires Inv(st) && Apply(st, step).Some?
    ensures Inv(Apply(st, step).value)
  {
    StepKeepsCounts(st, step);
    StepKeepsSession(st, step);
    StepKeepsThreads(st, step);
  }
}
