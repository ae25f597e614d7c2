/** Accounting of context memory: any number of threads go through the
  compare-and-swap loop, the host allocator and the give-back, one atomic step
  at a time, in any order. */
module Memory {
  import opened Common

  /** Where a thread is inside allocate or deallocate. */
  datatype Pc =
    | Idle
    | Loading(size: nat)                  // about to read the counter
    | Comparing(size: nat, current: int)  // has seen `current`
    | Reserved(size: nat)                 // counted, the allocator not asked yet
    | Undoing(size: nat)                  // the allocator refused
    | Freeing(size: nat)                  // freed, still counted

  /** `blocks[i]` is the size of block i while it lives, 0 afterwards. */
  datatype State = State(limit: nat, counter: int, blocks: seq<nat>, threads: seq<Pc>)

  datatype Step =
    | Begin(thread: nat, size: nat)
    | Load(thread: nat)
    | Compare(thread: nat, spurious: bool)
    | Allocator(thread: nat, granted: bool)
    | Undo(thread: nat)
    | Free(thread: nat, block: nat)
    | FinishFree(thread: nat)

  function Move(st: State, t: nat, pc: Pc): State
    requires t < |st.threads|
  {
    st.(threads := st.threads[t := pc])
  }

  function Clamp(size: nat): nat {
    if size == 0 then 1 else size
  }

  /** Without a limit the counter is simply raised. */
  function Enter(st: State, t: nat, size: nat): State
    requires t < |st.threads|
  {
    if st.limit == 0 then Move(st.(counter := st.counter + size), t, Reserved(size))
    else if size > st.limit then st
    else Move(st, t, Loading(size))
  }

  /** One round of the loop: give up, swap, or go around with the value seen. */
  function Round(st: State, t: nat, size: nat, current: int, spurious: bool): State
    requires t < |st.threads|
  {
    if current > st.limit - size then Move(st, t, Idle)
    else if !spurious && st.counter == current then
      Move(st.(counter := current + size), t, Reserved(size))
    else Move(st, t, Comparing(size, st.counter))
  }

  function Apply(st: State, step: Step): State {
    if step.thread >= |st.threads| then st
    else match (step, st.threads[step.thread])
      case (Begin(t, size), Idle) => Enter(st, t, Clamp(size))
      case (Load(t), Loading(size)) => Move(st, t, Comparing(size, st.counter))
      case (Compare(t, spurious), Comparing(size, current)) => Round(st, t, size, current, spurious)
      case (Allocator(t, granted), Reserved(size)) =>
        if granted then Move(st.(blocks := st.blocks + [size]), t, Idle) else Move(st, t, Undoing(size))
      case (Undo(t), Undoing(size)) => Move(st.(counter := st.counter - size), t, Idle)
      case (Free(t, block), Idle) =>
        if block < |st.blocks| && st.blocks[block] > 0
        then Move(st.(blocks := st.blocks[block := 0]), t, Freeing(st.blocks[block])) else st
      case (FinishFree(t), Freeing(size)) => Move(st.(counter := st.counter - size), t, Idle)
      case _ => st
  }

  function Run(st: State, steps: seq<Step>): State
    decreases |steps|
  {
    if steps == [] then st else Run(Apply(st, steps[0]), steps[1..])
  }

  // -------------------------------------------------------------- conservation

  /** What a thread holds in the counter besides live blocks. */
  function InFlight(pc: Pc): nat {
    match pc
    case Reserved(size) => size
    case Undoing(size) => size
    case Freeing(size) => size
    case _ => 0
  }

  function Sum(values: seq<nat>): nat {
    if values == [] then 0 else values[0] + Sum(values[1..])
  }

  function InFlightSum(threads: seq<Pc>): nat {
    if threads == [] then 0 else InFlight(threads[0]) + InFlightSum(threads[1..])
  }

  lemma {:induction false} SumUpdate(values: seq<nat>, i: nat, v: nat)
    requires i < |values|
    ensures Sum(values[i := v]) + values[i] == Sum(values) + v
  {
    if i > 0 {
      SumUpdate(values[1..], i - 1, v);
      assert values[i := v][1..] == values[1..][i - 1 := v];
    }
  }

  lemma {:induction false} SumAppend(values: seq<nat>, v: nat)
    ensures Sum(values + [v]) == Sum(values) + v
  {
    if values == [] {
      assert values + [v] == [v];
    } else {
      SumAppend(values[1..], v);
      assert (values + [v])[1..] == values[1..] + [v];
    }
  }

  lemma {:induction false} InFlightUpdate(threads: seq<Pc>, t: nat, pc: Pc)
    requires t < |threads|
    ensures InFlightSum(threads[t := pc]) + InFlight(threads[t]) == InFlightSum(threads) + InFlight(pc)
  {
    if t > 0 {
      InFlightUpdate(threads[1..], t - 1, pc);
      assert threads[t := pc][1..] == threads[1..][t - 1 := pc];
    }
  }

  /** The counter is what lives plus what is in flight, within the limit. */
  ghost predicate Balanced(st: State) {
    && st.counter == Sum(st.blocks) + InFlightSum(st.threads)
    && (st.limit != 0 ==> st.counter <= st.limit)
    && forall t :: 0 <= t < |st.threads| ==> Within(st.limit, st.threads[t])
  }

  /** Only sizes that fit the limit get into the loop. */
  predicate Within(limit: nat, pc: Pc) {
    match pc
    case Loading(size) => 0 < size <= limit
    case Comparing(size, _) => 0 < size <= limit
    case Reserved(size) => 0 < size
    case _ => true
  }

  lemma StepKeepsBalance(st: State, step: Step)
    requires Balanced(st)
    ensures Balanced(Apply(st, step)) && Apply(st, step).limit == st.limit
  {
    if step.thread < |st.threads| {
      StepKeepsSums(st, step);
      assert Within(st.limit, st.threads[step.thread]);
    }
  }

  lemma {:induction false} StepKeepsSums(st: State, step: Step)
    requires step.thread < |st.threads|
    requires st.counter == Sum(st.blocks) + InFlightSum(st.threads)
    ensures
      var next := Apply(st, step);
      next.counter == Sum(next.blocks) + InFlightSum(next.threads)
  {
    var t, next := step.thread, Apply(st, step);
    InFlightUpdate(st.threads, t, next.threads[t]);
    assert st.threads[t := st.threads[t]] == st.threads;
    if step.Allocator? && step.granted && st.threads[t].Reserved? {
      SumAppend(st.blocks, st.threads[t].size);
    }
    if step.Free? && step.block < |st.blocks| {
      SumUpdate(st.blocks, step.block, 0);
    }
  }

  /** In every interleaving the counter equals the live blocks plus what is in
      flight, and a non-zero limit is never exceeded. */
  lemma {:induction false} EveryRunIsBalanced(limit: nat, threads: nat, steps: seq<Step>)
    ensures Balanced(Run(Start(limit, threads), steps))
    ensures Run(Start(limit, threads), steps).limit == limit
  {
    StartIsBalanced(limit, threads);
    RunKeepsBalance(Start(limit, threads), steps);
  }

  function Repeat(n: nat): (s: seq<Pc>)
    ensures |s| == n && forall i :: 0 <= i < n ==> s[i] == Idle
  {
    if n == 0 then [] else [Idle] + Repeat(n - 1)
  }

  function Start(limit: nat, threads: nat): State {
    State(limit, 0, [], Repeat(threads))
  }

  lemma {:induction false} IdleHoldsNothing(threads: seq<Pc>)
    requires forall t :: 0 <= t < |threads| ==> threads[t].Idle?
    ensures InFlightSum(threads) == 0
  {
    if threads != [] {
      IdleHoldsNothing(threads[1..]);
    }
  }

  lemma StartIsBalanced(limit: nat, threads: nat)
    ensures Balanced(Start(limit, threads))
  {
    IdleHoldsNothing(Repeat(threads));
  }

  lemma {:induction false} RunKeepsBalance(st: State, steps: seq<Step>)
    requires Balanced(st)
    ensures Balanced(Run(st, steps)) && Run(st, steps).limit == st.limit
    decreases |steps|
  {
    if steps != [] {
      StepKeepsBalance(st, steps[0]);
      RunKeepsBalance(Apply(st, steps[0]), steps[1..]);
    }
  }

  /** When no thread is inside a call, the counter is the live blocks alone; when
      every block was freed too, it is zero again. */
  lemma QuietCounterIsLive(limit: nat, threads: nat, steps: seq<Step>)
    requires forall t :: 0 <= t < |Run(Start(limit, threads), steps).threads| ==>
      Run(Start(limit, threads), steps).threads[t].Idle?
    ensures
      var end := Run(Start(limit, threads), steps);
      && end.counter == Sum(end.blocks)
      && ((forall i :: 0 <= i < |end.blocks| ==> end.blocks[i] == 0) ==> end.counter == 0)
  {
    var end := Run(Start(limit, threads), steps);
    EveryRunIsBalanced(limit, threads, steps);
    IdleHoldsNothing(end.threads);
    if forall i :: 0 <= i < |end.blocks| ==> end.blocks[i] == 0 {
      ZerosSumToZero(end.blocks);
    }
  }

  lemma {:induction false} ZerosSumToZero(values: seq<nat>)
    requires forall i :: 0 <= i < |values| ==> values[i] == 0
    ensures Sum(values) == 0
  {
    if values != [] {
      ZerosSumToZero(values[1..]);
    }
  }

  // ------------------------------------------------------- what a thread has seen

  function ThreadOf(st: State, t: nat): Pc {
    if t < |st.threads| then st.threads[t] else Idle
  }

  /** The state after the first m steps. */
  function Moment(st: State, steps: seq<Step>, m: nat): State
    requires m <= |steps|
  {
    Run(st, steps[..m])
  }

  /** A thread in the loop for this many bytes. */
  predicate InLoop(pc: Pc, size: nat) {
    pc == Loading(size) || (pc.Comparing? && pc.size == size)
  }

  /** Thread t has been in the loop ever since moment j. */
  ghost predicate LoopsSince(st: State, steps: seq<Step>, t: nat, size: nat, j: nat) {
    j <= |steps| && forall m :: j <= m <= |steps| ==> InLoop(ThreadOf(Moment(st, steps, m), t), size)
  }

  lemma {:induction false} RunOneMore(st: State, steps: seq<Step>)
    requires steps != []
    ensures Run(st, steps) == Apply(Run(st, steps[..|steps| - 1]), steps[|steps| - 1])
    decreases |steps|
  {
    if |steps| > 1 {
      RunOneMore(Apply(st, steps[0]), steps[1..]);
      assert steps[..|steps| - 1][1..] == steps[1..][..|steps| - 2];
    } else {
      assert steps[..0] == [];
    }
  }

  lemma {:induction false} MomentAfter(st: State, steps: seq<Step>, m: nat)
    requires m < |steps|
    ensures Moment(st, steps, m + 1) == Apply(Moment(st, steps, m), steps[m])
  {
    assert steps[..m + 1][..m] == steps[..m];
    RunOneMore(st, steps[..m + 1]);
  }

  lemma {:induction false} EarlierMoments(st: State, steps: seq<Step>)
    requires steps != []
    ensures forall m :: 0 <= m < |steps| ==> Moment(st, steps, m) == Moment(st, steps[..|steps| - 1], m)
    ensures Moment(st, steps, |steps|) == Run(st, steps)
  {
    forall m | 0 <= m < |steps| ensures Moment(st, steps, m) == Moment(st, steps[..|steps| - 1], m) {
      assert steps[..m] == steps[..|steps| - 1][..m];
    }
    assert steps[..|steps|] == steps;
  }

  /** Where a value being compared comes from: it was seen before, or just now. */
  lemma {:induction false} ComparedValueIsSeen(st: State, step: Step, t: nat, size: nat, current: int)
    requires ThreadOf(Apply(st, step), t) == Comparing(size, current)
    ensures
      || ThreadOf(st, t) == Comparing(size, current)
      || (InLoop(ThreadOf(st, t), size) && st.counter == current)
  {
  }

  /** The value a thread compares with was the counter's at a moment since which the
      thread has not left the loop. */
  lemma {:induction false} SeenValueWasHeld(st: State, steps: seq<Step>, t: nat, size: nat, current: int)
    returns (j: nat)
    requires !ThreadOf(st, t).Comparing? && ThreadOf(Run(st, steps), t) == Comparing(size, current)
    ensures LoopsSince(st, steps, t, size, j) && Moment(st, steps, j).counter == current
    decreases |steps|
  {
    var n := |steps| - 1;
    EarlierMoments(st, steps);
    MomentAfter(st, steps, n);
    ComparedValueIsSeen(Moment(st, steps, n), steps[n], t, size, current);
    if ThreadOf(Moment(st, steps, n), t) == Comparing(size, current) {
      assert steps[..n][..n] == steps[..n];
      j := SeenValueWasHeld(st, steps[..n], t, size, current);
      assert forall m :: j <= m <= n ==> InLoop(ThreadOf(Moment(st, steps[..n], m), t), size);
    } else {
      j := n;
    }
  }

  /** In every interleaving a thread that is refused had been in the loop at a moment
      when the live blocks and what was in flight left no room for what it asked. */
  lemma {:induction false} RefusalHasCause(limit: nat, threads: nat, steps: seq<Step>, t: nat, spurious: bool)
    returns (j: nat)
    requires ThreadOf(Run(Start(limit, threads), steps), t).Comparing?
    requires ThreadOf(Apply(Run(Start(limit, threads), steps), Compare(t, spurious)), t).Idle?
    ensures
      var st := Start(limit, threads);
      var size := ThreadOf(Run(st, steps), t).size;
      && LoopsSince(st, steps, t, size, j)
      && limit < Sum(Moment(st, steps, j).blocks) + InFlightSum(Moment(st, steps, j).threads) + size
  {
    var st := Start(limit, threads);
    var pc := ThreadOf(Run(st, steps), t);
    j := SeenValueWasHeld(st, steps, t, pc.size, pc.current);
    EveryRunIsBalanced(limit, threads, steps);
    EveryRunIsBalanced(limit, threads, steps[..j]);
  }

  /** A thread's own steps in the loop leave the counter alone. */
  lemma {:induction false} LoopingCountsNothing(st: State, step: Step, size: nat)
    requires InLoop(ThreadOf(st, step.thread), size) && InLoop(ThreadOf(Apply(st, step), step.thread), size)
    ensures Apply(st, step).counter == st.counter
  {
  }

  lemma {:induction false} CounterMovedAt(st: State, steps: seq<Step>, j: nat) returns (m: nat)
    requires j <= |steps| && Moment(st, steps, j).counter != Run(st, steps).counter
    ensures j <= m < |steps| && Moment(st, steps, m).counter != Moment(st, steps, m + 1).counter
    decreases |steps|
  {
    var n := |steps| - 1;
    assert steps[..|steps|] == steps;
    if Moment(st, steps, n).counter != Moment(st, steps, n + 1).counter {
      m := n;
    } else {
      EarlierMoments(st, steps);
      assert steps[..n][..n] == steps[..n];
      m := CounterMovedAt(st, steps[..n], j);
      assert steps[..n][..m + 1] == steps[..m + 1];
    }
  }

  /** A swap that fails, and not spuriously, fails because another thread moved the
      counter since the value was seen. */
  lemma {:induction false} FailedSwapHasRival(limit: nat, threads: nat, steps: seq<Step>, t: nat)
    returns (j: nat, m: nat)
    requires ThreadOf(Run(Start(limit, threads), steps), t).Comparing?
    requires ThreadOf(Apply(Run(Start(limit, threads), steps), Compare(t, false)), t).Comparing?
    ensures
      var st := Start(limit, threads);
      var pc := ThreadOf(Run(st, steps), t);
      && LoopsSince(st, steps, t, pc.size, j) && Moment(st, steps, j).counter == pc.current
      && j <= m < |steps| && steps[m].thread != t
      && Moment(st, steps, m).counter != Moment(st, steps, m + 1).counter
  {
    var st := Start(limit, threads);
    var pc := ThreadOf(Run(st, steps), t);
    j := SeenValueWasHeld(st, steps, t, pc.size, pc.current);
    m := CounterMovedAt(st, steps, j);
    MomentAfter(st, steps, m);
    if steps[m].thread == t {
      LoopingCountsNothing(Moment(st, steps, m), steps[m], pc.size);
    }
  }

  lemma {:induction false} RunFirst(st: State, steps: seq<Step>)
    requires steps != []
    ensures Run(st, steps) == Run(Apply(st, steps[0]), steps[1..])
  {
  }

  lemma {:induction false} RunThree(st: State, a: Step, b: Step, c: Step)
    ensures Run(st, [a, b, c]) == Apply(Apply(Apply(st, a), b), c)
  {
    RunFirst(st, [a, b, c]);
    RunTwo(Apply(st, a), b, c);
    assert [a, b, c][1..] == [b, c];
  }

  lemma {:induction false} RunTwo(st: State, a: Step, b: Step)
    ensures Run(st, [a, b]) == Apply(Apply(st, a), b)
  {
    RunFirst(st, [a, b]);
    RunFirst(Apply(st, a), [b]);
    assert [a, b][1..] == [b] && [b][1..] == [];
  }

  /** Left alone, a thread gets its reservation exactly when there is no limit or room
      below it, for one byte when it asks for none, and otherwise leaves everything as it
      was. */
  lemma {:induction false} AloneIsServedIfRoom(st: State, t: nat, size: nat)
    requires Balanced(st) && t < |st.threads| && st.threads[t].Idle?
    ensures
      var need := if size == 0 then 1 else size;
      Run(st, [Begin(t, size), Load(t), Compare(t, false)]) ==
        if st.limit == 0 || st.counter + need <= st.limit
        then st.(counter := st.counter + need, threads := st.threads[t := Reserved(need)])
        else st
  {
    RunThree(st, Begin(t, size), Load(t), Compare(t, false));
    assert st.threads[t := st.threads[t]] == st.threads;
  }

  /** What the host allocator grants becomes a block of the reserved size; when it
      refuses, the reservation is taken back. */
  lemma {:induction false} GrantDecides(st: State, t: nat, granted: bool)
    requires t < |st.threads| && st.threads[t].Reserved?
    ensures
      var need, idle := st.threads[t].size, st.threads[t := Idle];
      Run(st, [Allocator(t, granted), Undo(t)]) ==
        if granted then st.(blocks := st.blocks + [need], threads := idle)
        else st.(counter := st.counter - need, threads := idle)
  {
    RunTwo(st, Allocator(t, granted), Undo(t));
  }

  /** Freeing gives back exactly what the block holds, once. */
  lemma {:induction false} FreeGivesBack(st: State, t: nat, block: nat)
    requires t < |st.threads| && st.threads[t].Idle? && block < |st.blocks|
    ensures Run(st, [Free(t, block), FinishFree(t)]) ==
      st.(counter := st.counter - st.blocks[block], blocks := st.blocks[block := 0])
  {
    RunTwo(st, Free(t, block), FinishFree(t));
    assert st.threads[t := st.threads[t]] == st.threads;
    assert st.blocks[block := st.blocks[block]] == st.blocks;
  }

  // ---------------------------------------------------------- inside the block

  /** The returned address is aligned, behind the header, and the payload ends
      inside the memory asked of the host allocator. */
  lemma PayloadIsInside(raw: nat, size: nat, header: nat, alignment: nat)
    requires 0 < alignment
    ensures
      var aligned := RoundUp(raw + header, alignment);
      && aligned % alignment == 0 && raw + header <= aligned
      && aligned + size <= raw + (size + header + alignment - 1)
  {
    RoundUpFacts(raw + header, alignment);
  }
}
