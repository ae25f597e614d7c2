/** Region requests: registration, the aging score, and the choice it makes. */
module Scheduler {
  import opened Common
  import opened Sorting

  const MAX_REGION_REQUESTS: nat := 16
  const AGE_STEP: nat := 8
  const MAX_SKIPS: nat := 32
  const UINT8_MAX: nat := 255
  const UINT32_MAX: nat := 0xFFFF_FFFF
  const UINT64_MAX: nat := 0xFFFF_FFFF_FFFF_FFFF

  type Priority = p: nat | p <= UINT8_MAX
  type SkipCount = k: nat | k <= MAX_SKIPS

  datatype State = Queued | WaitingForPcm | Runnable | PartiallySatisfied | Satisfied | Cancelled | Failed

  datatype Request = Request(
    id: nat, priority: Priority, deadline: nat, wanted: bool, state: State, skips: SkipCount, serial: nat)
  {
    predicate Active() {
      id != 0 && !state.Cancelled? && !state.Failed? && !state.Satisfied?
    }

    /** An active request whose feature mask covers the feature being served. */
    predicate Eligible() {
      wanted && Active()
    }
  }

  const EMPTY_SLOT := Request(0, 0, 0, false, Queued, 0, 0)

  datatype Score = Score(effective: nat, id: nat, deadline: nat, serial: nat)

  function ScoreRequest(r: Request): Score {
    if !r.Active() then Score(0, 0, 0, UINT64_MAX)
    else
      var remaining := UINT8_MAX - r.priority;
      var boost := if r.skips * AGE_STEP > remaining then remaining else r.skips * AGE_STEP;
      Score(r.priority + boost, r.id, r.deadline, r.serial)
  }

  predicate ScoreBetter(a: Score, b: Score) {
    if a.effective != b.effective then a.effective > b.effective
    else if (a.deadline != 0) != (b.deadline != 0) then a.deadline != 0
    else if a.deadline != 0 && a.deadline != b.deadline then a.deadline < b.deadline
    else if a.serial != b.serial then a.serial < b.serial
    else a.id < b.id
  }

  predicate Better(a: Request, b: Request) {
    if a.Eligible() != b.Eligible() then a.Eligible()
    else a.Eligible() && ScoreBetter(ScoreRequest(a), ScoreRequest(b))
  }

  lemma BetterIsStrictWeak()
    ensures StrictWeak(Better)
  {}

  lemma BetterIsTotal(a: Request, b: Request)
    requires a.Eligible() && b.Eligible() && (a.serial != b.serial || a.id != b.id)
    ensures Better(a, b) || Better(b, a)
  {}

  /** Who competes, in the requests' own fields. */
  ghost predicate Waits(r: Request) {
    r.id != 0 && r.wanted && r.state in {Queued, WaitingForPcm, Runnable, PartiallySatisfied}
  }

  /** What is served before what, in the requests' own fields. */
  ghost predicate ServedFirst(a: Request, b: Request) {
    var agedA := if a.priority + 8 * a.skips > 255 then 255 else a.priority + 8 * a.skips;
    var agedB := if b.priority + 8 * b.skips > 255 then 255 else b.priority + 8 * b.skips;
    && agedB <= agedA
    && (agedA == agedB ==>
         && (b.deadline != 0 ==> a.deadline != 0 && a.deadline <= b.deadline)
         && ((a.deadline == b.deadline) ==> a.serial <= b.serial && (a.serial == b.serial ==> a.id <= b.id)))
  }

  /** Of the competing requests the one of the highest aged priority is served; among
      those the one of the earliest deadline, and one without only if none has any; among
      those the one that came first. */
  lemma {:induction false} PickIsMostUrgent(reqs: seq<Request>, j: nat)
    requires j < |reqs| && Waits(reqs[j])
    ensures Waits(reqs[Pick(reqs)]) && ServedFirst(reqs[Pick(reqs)], reqs[j])
  {
    NothingBeatsPick(reqs);
    assert !Better(reqs[j], reqs[Pick(reqs)]);
  }

  /** The request the scheduler serves: the head of the serving order. */
  function Pick(reqs: seq<Request>): (i: nat)
    requires reqs != []
    ensures i < |reqs|
  {
    if |reqs| == 1 then 0
    else
      var last, p := |reqs| - 1, Pick(reqs[..|reqs| - 1]);
      if Better(reqs[last], reqs[p]) then last else p
  }

  lemma {:induction false} NothingBeatsPick(reqs: seq<Request>)
    requires reqs != []
    ensures forall j :: 0 <= j < |reqs| ==> !Better(reqs[j], reqs[Pick(reqs)])
  {
    BetterIsStrictWeak();
    if 1 < |reqs| {
      var front := reqs[..|reqs| - 1];
      NothingBeatsPick(front);
      assert forall j :: 0 <= j < |front| ==> reqs[j] == front[j];
    }
  }

  /** A competing request is staged with the priority it has aged to. */
  function StagedRequest(r: Request): Request {
    if r.Eligible() then r.(priority := ScoreRequest(r).effective) else r
  }

  lemma {:induction false} StagedTells(r: Request)
    ensures
      var staged, aged := StagedRequest(r), r.priority + 8 * r.skips;
      staged == r.(priority := if !Waits(r) then r.priority else if aged > 255 then 255 else aged)
  {
  }

  function Staged(reqs: seq<Request>): (r: seq<Request>)
    ensures |r| == |reqs|
  {
    var sorted := Sort(Better, reqs);
    seq(|sorted|, i requires 0 <= i < |sorted| => StagedRequest(sorted[i]))
  }

  /** Staging the table: an insertion sort, then aged priorities for base ones. */
  method StageRequests(requests: array<Request>)
    modifies requests
    ensures requests[..] == Staged(old(requests[..]))
  {
    ghost var sorted := Sort(Better, requests[..]);
    InsertionSort(requests, Better);
    for index := 0 to requests.Length
      invariant forall i :: 0 <= i < index ==> requests[i] == StagedRequest(sorted[i])
      invariant forall i :: index <= i < requests.Length ==> requests[i] == sorted[i]
    {
      if requests[index].Eligible() {
        requests[index] := requests[index].(priority := ScoreRequest(requests[index]).effective);
      }
    }
  }

  /** The choice of the head, if it competes at all; token 0 means no request. */
  function HeadToken(reqs: seq<Request>): nat {
    if reqs != [] && reqs[0].Eligible() then reqs[0].id else 0
  }

  /** Competing requests come first in a staged table, and priorities never rise. */
  ghost predicate Descending(staged: seq<Request>) {
    forall j :: 0 <= j < |staged| && staged[j].Eligible() ==>
      staged[0].Eligible() && staged[j].priority <= staged[0].priority
  }

  lemma {:induction false} StagedDescends(reqs: seq<Request>)
    ensures Descending(Staged(reqs))
  {
    var sorted, staged := Sort(Better, reqs), Staged(reqs);
    BetterIsStrictWeak();
    SortIsCorrect(Better, reqs);
    forall j | 0 <= j < |staged| && staged[j].Eligible()
      ensures staged[0].Eligible() && staged[j].priority <= staged[0].priority
    {
      if j > 0 { assert !Better(sorted[j], sorted[0]); }
    }
  }

  /** Request i is the first competing one of the largest priority. */
  ghost predicate FirstLargest(reqs: seq<Request>, i: nat) {
    && i < |reqs| && reqs[i].Eligible()
    && forall j :: 0 <= j < |reqs| && reqs[j].Eligible() ==>
         reqs[j].priority < reqs[i].priority || (reqs[j].priority == reqs[i].priority && i <= j)
  }

  /** Its token, or 0 if nobody competes. */
  ghost predicate IsFirstLargest(reqs: seq<Request>, token: nat) {
    if token == 0 then forall i :: 0 <= i < |reqs| ==> !reqs[i].Eligible()
    else exists i: nat :: FirstLargest(reqs, i) && reqs[i].id == token
  }

  /** The pick loop. */
  method PickToken(requests: array<Request>) returns (token: nat)
    ensures IsFirstLargest(requests[..], token)
  {
    token := 0;
    var priority: nat := 0;
    ghost var best := 0;
    for slot := 0 to requests.Length
      invariant token == 0 ==> forall i :: 0 <= i < slot ==> !requests[..slot][i].Eligible()
      invariant token != 0 ==> FirstLargest(requests[..slot], best) && requests[best].id == token
      invariant token != 0 ==> requests[best].priority == priority
    {
      var candidate := requests[slot];
      assert requests[..slot + 1] == requests[..slot] + [candidate];
      if candidate.Eligible() && (token == 0 || candidate.priority > priority) {
        priority, token, best := candidate.priority, candidate.id, slot;
      }
    }
    assert requests[..requests.Length] == requests[..];
  }

  /** In a staged table that is the head. */
  lemma {:induction false} FirstLargestIsHead(reqs: seq<Request>, token: nat)
    requires IsFirstLargest(Staged(reqs), token)
    ensures token == HeadToken(Staged(reqs))
  {
    var staged := Staged(reqs);
    StagedDescends(reqs);
    if token != 0 {
      var i: nat :| FirstLargest(staged, i) && staged[i].id == token;
      assert staged[i].priority <= staged[0].priority;
    }
  }

  /** Which request the host is asked to feed; `missing` says whether the frames that
      are wanted for a token are missing, else nothing is asked. Afterwards the table is
      as it was, but for the choice noted. */
  method NextPcmRequest(requests: array<Request>, missing: nat -> bool) returns (picked: Option<nat>)
    modifies requests
    ensures
      var token := HeadToken(Staged(old(requests[..])));
      && picked == (if missing(token) then Some(token) else None)
      && requests[..] == if missing(token) then Noted(old(requests[..]), token) else old(requests[..])
  {
    var saved := requests[..];
    StageRequests(requests);
    var token := PickToken(requests);
    FirstLargestIsHead(saved, token);
    for slot := 0 to requests.Length
      invariant requests[..slot] == saved[..slot]
    {
      requests[slot] := saved[slot];
    }
    assert requests[..] == saved;
    if !missing(token) {
      return None;
    }
    NoteChoice(requests, token);
    return Some(token);
  }

  /** Serving the head of the staged table is one decision of the scheduler. */
  lemma {:induction false} HeadIsDecision(reqs: seq<Request>)
    requires reqs != []
    ensures HeadToken(Staged(reqs)) == if reqs[Pick(reqs)].Eligible() then reqs[Pick(reqs)].id else 0
    ensures HeadToken(Staged(reqs)) != 0 ==> Noted(reqs, HeadToken(Staged(reqs))) == Decide(reqs)
  {
    StagedHeadIsPicked(reqs);
  }

  /** So the token the host is asked to feed is that of the most urgent request, and it is
      0 only if nobody competes. */
  lemma {:induction false} TokenIsMostUrgent(reqs: seq<Request>) returns (i: nat)
    ensures HeadToken(Staged(reqs)) == 0 ==> forall j :: 0 <= j < |reqs| ==> !Waits(reqs[j])
    ensures HeadToken(Staged(reqs)) != 0 ==>
      && i < |reqs| && Waits(reqs[i]) && reqs[i].id == HeadToken(Staged(reqs))
      && forall j :: 0 <= j < |reqs| && Waits(reqs[j]) ==> ServedFirst(reqs[i], reqs[j])
  {
    i := 0;
    if reqs != [] {
      HeadIsDecision(reqs);
      i := Pick(reqs);
      forall j | 0 <= j < |reqs| && Waits(reqs[j]) ensures Waits(reqs[i]) && ServedFirst(reqs[i], reqs[j])
      {
        PickIsMostUrgent(reqs, j);
      }
    }
  }

  lemma InsertHead(s: seq<Request>, r: Request)
    requires Sorted(Better, s)
    ensures Insert(Better, s, r) != []
    ensures Insert(Better, s, r)[0] == if s == [] || Better(r, s[0]) then r else s[0]
  {
    BetterIsStrictWeak();
    if s != [] && Better(r, s[|s| - 1]) { InsertHead(s[..|s| - 1], r); }
  }

  lemma {:induction false} StagedHeadIsPicked(reqs: seq<Request>)
    requires reqs != []
    ensures Sort(Better, reqs)[0] == reqs[Pick(reqs)]
  {
    BetterIsStrictWeak();
    var front := reqs[..|reqs| - 1];
    SortIsCorrect(Better, front);
    InsertHead(Sort(Better, front), reqs[|reqs| - 1]);
    if front != [] { StagedHeadIsPicked(front); }
  }

  /** Choosing one request: its skip counter starts again, every other active
      request is one decision older. */
  function Age(r: Request, chosen: nat): Request {
    if !r.Active() then r
    else if r.id == chosen then r.(skips := 0)
    else if r.skips < MAX_SKIPS then r.(skips := r.skips + 1)
    else r
  }

  function Noted(reqs: seq<Request>, chosen: nat): (r: seq<Request>)
    ensures |r| == |reqs| && forall i :: 0 <= i < |r| ==> r[i] == Age(reqs[i], chosen)
  {
    seq(|reqs|, i requires 0 <= i < |reqs| => Age(reqs[i], chosen))
  }

  /** What a choice does to each request, in its own fields. */
  lemma {:induction false} ChoiceTells(reqs: seq<Request>, chosen: nat, i: nat)
    requires i < |reqs|
    ensures
      var before, after := reqs[i], Noted(reqs, chosen)[i];
      && after == before.(skips := after.skips)
      && after.skips ==
           if before.id == 0 || before.state in {Cancelled, Failed, Satisfied} then before.skips
           else if before.id == chosen then 0
           else if before.skips == 32 then 32 else before.skips + 1
  {
  }

  /** An ended request never scores better than one that still waits. */
  lemma {:induction false} EndedScoresLast(waiting: Request, ended: Request)
    requires Waits(waiting) && waiting.serial < 0xFFFF_FFFF_FFFF_FFFF
    requires ended.id == 0 || ended.state in {Cancelled, Failed, Satisfied}
    ensures ScoreBetter(ScoreRequest(waiting), ScoreRequest(ended))
  {
  }

  method NoteChoice(requests: array<Request>, chosen: nat)
    modifies requests
    ensures requests[..] == Noted(old(requests[..]), chosen)
  {
    for slot := 0 to requests.Length
      invariant forall i :: 0 <= i < slot ==> requests[i] == Age(old(requests[i]), chosen)
      invariant forall i :: slot <= i < requests.Length ==> requests[i] == old(requests[i])
    {
      var request := requests[slot];
      if !request.Active() {
        continue;
      }
      if request.id == chosen {
        requests[slot] := request.(skips := 0);
      } else if request.skips < MAX_SKIPS {
        requests[slot] := request.(skips := request.skips + 1);
      }
    }
  }

  // ------------------------------------------------------ bounded waiting

  /** The slots of the table that compete for the feature being served. */
  ghost function Members(reqs: seq<Request>): set<nat> {
    set i: nat | i < |reqs| && reqs[i].Eligible()
  }

  /** A request table in which no two competing requests share id or serial. */
  ghost predicate Contest(reqs: seq<Request>) {
    && (forall i, j :: 0 <= i < j < |reqs| && reqs[i].Eligible() && reqs[j].Eligible() ==>
          reqs[i].id != reqs[j].id && reqs[i].serial != reqs[j].serial)
  }

  /** Decisions a request of this base priority waits before it scores 255. */
  function Saturation(priority: Priority): nat {
    (UINT8_MAX - priority + AGE_STEP - 1) / AGE_STEP
  }

  function Decide(reqs: seq<Request>): seq<Request> {
    if reqs == [] then [] else Noted(reqs, reqs[Pick(reqs)].id)
  }

  function Rounds(reqs: seq<Request>, t: nat): (r: seq<Request>)
    ensures |r| == |reqs|
  {
    if t == 0 then reqs else Decide(Rounds(reqs, t - 1))
  }

  function Picked(reqs: seq<Request>, t: nat): (i: nat)
    requires reqs != []
    ensures i < |reqs|
  {
    Pick(Rounds(reqs, t))
  }

  ghost predicate SameButSkips(a: Request, b: Request) {
    a == b.(skips := a.skips)
  }

  ghost predicate OnlySkipsDiffer(a: seq<Request>, b: seq<Request>) {
    |a| == |b| && forall i :: 0 <= i < |b| ==> SameButSkips(a[i], b[i])
  }

  lemma SkipsDoNotMatter(a: seq<Request>, b: seq<Request>)
    requires OnlySkipsDiffer(a, b) && Contest(b)
    ensures Members(a) == Members(b) && Contest(a)
  {
    assert forall i :: 0 <= i < |a| ==> SameButSkips(a[i], b[i]);
  }

  lemma {:induction false} RoundsKeepContest(reqs: seq<Request>, t: nat)
    requires Contest(reqs)
    ensures OnlySkipsDiffer(Rounds(reqs, t), reqs)
    ensures Contest(Rounds(reqs, t)) && Members(Rounds(reqs, t)) == Members(reqs)
  {
    if t != 0 {
      RoundsKeepContest(reqs, t - 1);
      var before := Rounds(reqs, t - 1);
      forall i | 0 <= i < |reqs| ensures SameButSkips(Decide(before)[i], reqs[i]) {
        assert SameButSkips(before[i], reqs[i]);
      }
    }
    SkipsDoNotMatter(Rounds(reqs, t), reqs);
  }

  /** If anybody competes, a competitor is picked. */
  lemma PickIsMember(reqs: seq<Request>, x: nat)
    requires x in Members(reqs)
    ensures Pick(reqs) in Members(reqs)
  {
    NothingBeatsPick(reqs);
  }

  /** One decision: the picked request restarts, each other one ages by one. */
  lemma SkipsAfter(reqs: seq<Request>, t: nat, i: nat)
    requires Contest(reqs) && i in Members(reqs)
    ensures Rounds(reqs, t + 1)[i].skips ==
      if i == Picked(reqs, t) then 0
      else if Rounds(reqs, t)[i].skips < MAX_SKIPS then Rounds(reqs, t)[i].skips + 1
      else MAX_SKIPS
  {
    RoundsKeepContest(reqs, t);
    var before := Rounds(reqs, t);
    PickIsMember(before, i);
    assert i != Picked(reqs, t) ==> before[i].id != before[Picked(reqs, t)].id;
  }

  lemma SaturatedScores255(r: Request)
    requires r.Active()
    ensures ScoreRequest(r).effective == UINT8_MAX <==> Saturation(r.priority) <= r.skips
    ensures Saturation(r.priority) <= MAX_SKIPS
  {}

  /** Only a saturated request can be preferred to a saturated one. */
  lemma PickIsSaturatedIfAnyIs(reqs: seq<Request>, x: nat)
    requires x in Members(reqs) && Saturation(reqs[x].priority) <= reqs[x].skips
    ensures Saturation(reqs[Pick(reqs)].priority) <= reqs[Pick(reqs)].skips
  {
    var w := Pick(reqs);
    NothingBeatsPick(reqs);
    SaturatedScores255(reqs[x]);
    SaturatedScores255(reqs[w]);
  }

  /** What matters of a contest: who is picked when, how long each request has
      been passed over, and how long it takes to saturate. */
  datatype Trace = Trace(members: set<nat>, picks: nat -> nat, skips: (nat, nat) -> nat, saturation: nat -> nat)
  {
    ghost predicate StepOk(t: nat, i: nat) {
      && skips(t, i) <= MAX_SKIPS
      && skips(t + 1, i) == (if i == picks(t) then 0
                             else if skips(t, i) < MAX_SKIPS then skips(t, i) + 1
                             else MAX_SKIPS)
      && (saturation(i) <= skips(t, i) ==> saturation(picks(t)) <= skips(t, picks(t)))
    }

    ghost predicate Valid() {
      && (forall t: nat :: picks(t) in members)
      && (forall t: nat, i: nat :: i in members ==> StepOk(t, i))
      && (forall i: nat :: i in members ==> saturation(i) <= MAX_SKIPS)
    }
  }

  ghost function TraceOf(reqs: seq<Request>): Trace
    requires reqs != []
  {
    Trace(Members(reqs),
          (t: nat) => Picked(reqs, t),
          (t: nat, i: nat) => if i < |reqs| then Rounds(reqs, t)[i].skips else 0,
          (i: nat) => if i < |reqs| then Saturation(reqs[i].priority) else 0)
  }

  lemma TraceOfIsValid(reqs: seq<Request>, x: nat)
    requires Contest(reqs) && x in Members(reqs)
    ensures TraceOf(reqs).Valid()
  {
    var tr := TraceOf(reqs);
    forall t: nat ensures tr.picks(t) in Members(reqs) {
      RoundsKeepContest(reqs, t);
      PickIsMember(Rounds(reqs, t), x);
    }
    forall t: nat, i: nat | i in Members(reqs) ensures tr.StepOk(t, i) {
      TraceStep(reqs, t, i);
    }
    forall i: nat | i in Members(reqs) ensures tr.saturation(i) <= MAX_SKIPS {
      SaturatedScores255(reqs[i]);
    }
  }

  lemma TraceStep(reqs: seq<Request>, t: nat, i: nat)
    requires Contest(reqs) && i in Members(reqs)
    ensures TraceOf(reqs).StepOk(t, i)
  {
    SkipsAfter(reqs, t, i);
    SaturationCarries(reqs, t, i);
    var tr, w := TraceOf(reqs), Picked(reqs, t);
    assert tr.picks(t) == w;
    assert tr.skips(t, i) == Rounds(reqs, t)[i].skips && tr.skips(t, w) == Rounds(reqs, t)[w].skips;
    assert tr.skips(t + 1, i) == Rounds(reqs, t + 1)[i].skips;
  }

  lemma SaturationCarries(reqs: seq<Request>, t: nat, i: nat)
    requires Contest(reqs) && i in Members(reqs)
    ensures Saturation(reqs[i].priority) <= Rounds(reqs, t)[i].skips
            ==> Saturation(reqs[Picked(reqs, t)].priority) <= Rounds(reqs, t)[Picked(reqs, t)].skips
  {
    RoundsKeepContest(reqs, t);
    var now := Rounds(reqs, t);
    assert SameButSkips(now[i], reqs[i]) && SameButSkips(now[Pick(now)], reqs[Pick(now)]);
    if Saturation(now[i].priority) <= now[i].skips {
      PickIsSaturatedIfAnyIs(now, i);
    }
  }

  lemma {:induction false} UnpickedAges(tr: Trace, first: nat, t: nat, i: nat)
    requires tr.Valid() && i in tr.members && first <= t
    requires forall u :: first <= u < t ==> tr.picks(u) != i
    ensures var s := tr.skips(first, i) + (t - first);
            tr.skips(t, i) == if s < MAX_SKIPS then s else MAX_SKIPS
    decreases t - first
  {
    if first < t {
      UnpickedAges(tr, first, t - 1, i);
      assert tr.StepOk(t - 1, i);
    } else {
      assert tr.StepOk(t, i);
    }
  }

  /** While x is saturated and loses, the request picked at u was not picked in
      the `least` decisions before. */
  lemma {:induction false} WinnerIsNew(tr: Trace, x: nat, t: nat, u: nat, least: nat)
    requires tr.Valid() && x in tr.members && t <= u <= t + least
    requires forall i: nat :: i in tr.members ==> least <= tr.saturation(i)
    requires tr.skips(u, x) == MAX_SKIPS && tr.picks(u) != x
    ensures forall v :: t <= v < u ==> tr.picks(v) != tr.picks(u)
    decreases u - t
  {
    if t < u {
      WinnerIsNew(tr, x, t + 1, u, least);
      var w := tr.picks(u);
      assert tr.StepOk(t, w) && tr.StepOk(u, x);
      if tr.picks(t) == w {
        UnpickedAges(tr, t + 1, u, w);
        assert false;
      }
    }
  }

  ghost function PickSet(tr: Trace, first: nat, until: nat): set<nat> {
    set t: nat | first <= t < until :: tr.picks(t)
  }

  lemma {:induction false} PicksAreDistinct(tr: Trace, x: nat, first: nat, until: nat)
    requires tr.Valid() && x in tr.members && first <= until <= first + |tr.members|
    requires forall i: nat :: i in tr.members ==> |tr.members| - 1 <= tr.saturation(i)
    requires forall t :: first <= t < until ==> tr.picks(t) != x
    requires tr.skips(first, x) == MAX_SKIPS
    ensures |PickSet(tr, first, until)| == until - first
    decreases until
  {
    if first < until {
      var last := until - 1;
      PicksAreDistinct(tr, x, first, last);
      UnpickedAges(tr, first, last, x);
      WinnerIsNew(tr, x, first, last, |tr.members| - 1);
      assert PickSet(tr, first, until) == PickSet(tr, first, last) + {tr.picks(last)};
    }
  }

  lemma SubsetIsNoLarger(a: set<nat>, b: set<nat>)
    requires a <= b
    ensures |a| <= |b|
  {
    assert b == a + (b - a);
  }

  lemma TracePicksEverybody(tr: Trace, x: nat)
    requires tr.Valid() && x in tr.members
    requires forall i: nat :: i in tr.members ==> |tr.members| - 1 <= tr.saturation(i)
    ensures exists t :: 0 <= t < MAX_SKIPS + |tr.members| && tr.picks(t) == x
  {
    var n := |tr.members|;
    if forall t :: 0 <= t < MAX_SKIPS + n ==> tr.picks(t) != x {
      UnpickedAges(tr, 0, MAX_SKIPS, x);
      PicksAreDistinct(tr, x, MAX_SKIPS, MAX_SKIPS + n);
      SubsetIsNoLarger(PickSet(tr, MAX_SKIPS, MAX_SKIPS + n), tr.members - {x});
      assert false;
    }
  }

  ghost predicate PickedWithin(reqs: seq<Request>, x: nat, bound: nat)
    requires x < |reqs|
  {
    exists t :: 0 <= t < bound && Picked(reqs, t) == x
  }

  /** If re-saturating takes at least n - 1 decisions for each of the n competing
      requests, each of them is picked within 32 + n decisions, whatever else
      the table holds. */
  lemma EveryRequestIsPicked(reqs: seq<Request>, x: nat)
    requires Contest(reqs) && x in Members(reqs)
    requires forall i :: i in Members(reqs) ==> |Members(reqs)| - 1 <= Saturation(reqs[i].priority)
    ensures PickedWithin(reqs, x, 32 + |Members(reqs)|)
  {
    TraceOfIsValid(reqs, x);
    var tr := TraceOf(reqs);
    TracePicksEverybody(tr, x);
    var t :| 0 <= t < MAX_SKIPS + |tr.members| && tr.picks(t) == x;
    assert Picked(reqs, t) == x;
  }

  // --------------------------------------- when starvation is possible

  /** n equal requests in arrival order, all freshly registered. */
  function Rivals(n: nat, priority: Priority): seq<Request> {
    seq(n, i requires 0 <= i < n => Request(i + 1, priority, 0, true, Queued, 0, i + 1))
  }

  ghost predicate AreRivals(reqs: seq<Request>, priority: Priority) {
    forall i :: 0 <= i < |reqs| ==>
      reqs[i] == Request(i + 1, priority, 0, true, Queued, reqs[i].skips, i + 1)
  }

  /** The first m rivals take turns; `turn` is next. Waiters only grow older. */
  ghost predicate Rotation(reqs: seq<Request>, priority: Priority, m: nat, turn: nat) {
    && turn < m <= |reqs|
    && AreRivals(reqs, priority)
    && (forall i :: 0 <= i < turn ==> reqs[i].skips == turn - 1 - i)
    && (forall i :: turn <= i < m ==> reqs[i].skips == turn - 1 - i + m)
  }

  /** The first round: nobody from `turn` on has been served yet. */
  ghost predicate FirstRound(reqs: seq<Request>, priority: Priority, m: nat, turn: nat) {
    && turn < m <= |reqs|
    && AreRivals(reqs, priority)
    && (forall i :: 0 <= i < turn ==> reqs[i].skips == turn - 1 - i)
    && (forall i :: turn <= i < |reqs| ==> reqs[i].skips == turn)
  }

  lemma RivalWins(a: Request, b: Request)
    requires a.Eligible() && b.Eligible() && a.deadline == b.deadline == 0
    requires a.priority == b.priority
    requires || (b.skips < a.skips && b.skips < Saturation(b.priority))
             || (a.serial < b.serial && (b.skips <= a.skips || Saturation(a.priority) <= a.skips))
    ensures Better(a, b)
  {}

  lemma WinnerDecides(reqs: seq<Request>, priority: Priority, i: nat)
    requires AreRivals(reqs, priority) && i < |reqs|
    requires forall j :: 0 <= j < |reqs| && j != i ==> Better(reqs[i], reqs[j])
    ensures Pick(reqs) == i
    ensures forall j :: 0 <= j < |reqs| ==> Decide(reqs)[j] == reqs[j].(skips :=
      if j == i then 0 else if reqs[j].skips < MAX_SKIPS then reqs[j].skips + 1 else MAX_SKIPS)
    ensures AreRivals(Decide(reqs), priority)
  {
    NothingBeatsPick(reqs);
    assert !Better(reqs[i], reqs[Pick(reqs)]);
  }

  lemma SaturationIsCapped(priority: Priority)
    ensures Saturation(priority) <= MAX_SKIPS
  {}

  lemma RotationTurns(reqs: seq<Request>, priority: Priority, m: nat, turn: nat)
    requires m == Saturation(priority) + 1 && Rotation(reqs, priority, m, turn)
    ensures Pick(reqs) == turn
    ensures Rotation(Decide(reqs), priority, m, if turn + 1 == m then 0 else turn + 1)
  {
    forall j | 0 <= j < |reqs| && j != turn ensures Better(reqs[turn], reqs[j]) {
      RivalWins(reqs[turn], reqs[j]);
    }
    SaturationIsCapped(priority);
    WinnerDecides(reqs, priority, turn);
  }

  lemma FirstRoundTurns(reqs: seq<Request>, priority: Priority, m: nat, turn: nat)
    requires m == Saturation(priority) + 1 && FirstRound(reqs, priority, m, turn)
    ensures Pick(reqs) == turn
    ensures turn + 1 < m ==> FirstRound(Decide(reqs), priority, m, turn + 1)
    ensures turn + 1 == m ==> Rotation(Decide(reqs), priority, m, 0)
  {
    forall j | 0 <= j < |reqs| && j != turn ensures Better(reqs[turn], reqs[j]) {
      RivalWins(reqs[turn], reqs[j]);
    }
    SaturationIsCapped(priority);
    WinnerDecides(reqs, priority, turn);
  }

  ghost predicate Rotating(reqs: seq<Request>, priority: Priority, t: nat)
  {
    var m := Saturation(priority) + 1;
    || (t < m && FirstRound(reqs, priority, m, t))
    || (m <= t && exists turn :: Rotation(reqs, priority, m, turn))
  }

  lemma RotatingStep(reqs: seq<Request>, priority: Priority, t: nat)
    requires Rotating(reqs, priority, t)
    ensures reqs != [] && Pick(reqs) <= Saturation(priority)
    ensures Rotating(Decide(reqs), priority, t + 1)
  {
    var m := Saturation(priority) + 1;
    if t < m {
      FirstRoundTurns(reqs, priority, m, t);
    } else {
      var turn :| Rotation(reqs, priority, m, turn);
      RotationTurns(reqs, priority, m, turn);
    }
  }

  lemma {:induction false} RivalsRotate(reqs: seq<Request>, priority: Priority, t: nat)
    requires Rotating(reqs, priority, 0)
    ensures Rotating(Rounds(reqs, t), priority, t)
  {
    if t != 0 {
      var u: nat := t - 1;
      RivalsRotate(reqs, priority, u);
      var before := Rounds(reqs, u);
      RotatingStep(before, priority, u);
      assert Rounds(reqs, t) == Decide(before);
    }
  }

  /** Freshly registered equals: when the requests ahead of the last one
      saturate in turn, it is never picked at all. */
  lemma LastRivalStarves(n: nat, priority: Priority, bound: nat)
    requires Saturation(priority) < n - 1
    ensures Contest(Rivals(n, priority))
    ensures !PickedWithin(Rivals(n, priority), n - 1, bound)
  {
    var reqs := Rivals(n, priority);
    assert FirstRound(reqs, priority, Saturation(priority) + 1, 0);
    forall t: nat ensures Picked(reqs, t) != n - 1 {
      RivalsRotate(reqs, priority, t);
      RotatingStep(Rounds(reqs, t), priority, t);
    }
  }

  /** Every table with n competitors at or below a priority limit serves each
      competitor within 32 + n decisions. */
  ghost predicate LimitPreventsStarvation(n: nat, limit: Priority) {
    forall reqs: seq<Request> ::
      Contest(reqs) && |Members(reqs)| == n && (forall i :: i in Members(reqs) ==> reqs[i].priority <= limit)
      ==> ServesAll(reqs, 32 + n)
  }

  ghost predicate ServesAll(reqs: seq<Request>, bound: nat)
  {
    forall x :: x in Members(reqs) ==> PickedWithin(reqs, x, bound)
  }

  lemma {:induction false} RivalsAllCompete(n: nat, priority: Priority)
    ensures |Members(Rivals(n, priority))| == n
  {
    if n != 0 {
      RivalsAllCompete(n - 1, priority);
      var reqs, fewer := Rivals(n, priority), Rivals(n - 1, priority);
      forall i: nat | i < n - 1 ensures i in Members(reqs) <==> i in Members(fewer) {
        assert reqs[i] == fewer[i];
      }
      assert Members(reqs) == Members(fewer) + {n - 1};
    }
  }

  /** The limit is exact: it prevents starvation if and only if saturating from
      it takes at least n - 1 decisions. */
  lemma PriorityLimitIsExact(n: nat, limit: Priority)
    requires 0 < n
    ensures LimitPreventsStarvation(n, limit) <==> n - 1 <= Saturation(limit)
  {
    if n - 1 <= Saturation(limit) {
      forall reqs: seq<Request> |
        Contest(reqs) && |Members(reqs)| == n && (forall i :: i in Members(reqs) ==> reqs[i].priority <= limit)
        ensures ServesAll(reqs, 32 + n)
      {
        forall x | x in Members(reqs) ensures PickedWithin(reqs, x, 32 + n) {
          EveryRequestIsPicked(reqs, x);
        }
      }
    } else {
      LastRivalStarves(n, limit, 32 + n);
      RivalsAllCompete(n, limit);
      assert n - 1 in Members(Rivals(n, limit));
      assert !ServesAll(Rivals(n, limit), 32 + n);
    }
  }

  /** Two requests at priority 250 shut out a third for ever. */
  lemma TwoCriticalRequestsStarveAThird(bound: nat)
    ensures Contest(Rivals(3, 250)) && !PickedWithin(Rivals(3, 250), 2, bound)
  {
    LastRivalStarves(3, 250, bound);
  }
}
