/** What merging windows means: which windows a tempo segment is made of, and that its
  tempo and confidence are their running means. */
module GridMerging {
  import opened Common
  import opened GridEvidence
  import opened GridWindows

  // ---------------------------------------------------------------- running means

  /** The mean of n numbers kept as a whole number, one number at a time. */
  function RunningMean(xs: seq<nat>): nat
    requires xs != []
  {
    var n := |xs|;
    if n == 1 then xs[0] else OneMore(RunningMean(xs[..n - 1]), n - 1, xs[n - 1])
  }

  /** The mean of one number more, cut to a whole number. */
  function OneMore(mean: nat, count: nat, x: nat): nat {
    (mean * count + x) / (count + 1)
  }

  function Sum(xs: seq<nat>): nat {
    if xs == [] then 0 else Sum(xs[..|xs| - 1]) + xs[|xs| - 1]
  }

  /** It falls behind the exact mean by less than half the count. */
  lemma {:induction false} RunningMeanIsNear(xs: seq<nat>)
    requires xs != []
    ensures
      var n := |xs|;
      0 <= 2 * (Sum(xs) - n * RunningMean(xs)) <= n * (n - 1)
  {
    var n := |xs|;
    if n == 1 {
      assert Sum(xs[..0]) == 0;
    } else {
      RunningMeanIsNear(xs[..n - 1]);
      LosesLittle(Sum(xs[..n - 1]), RunningMean(xs[..n - 1]), xs[n - 1], n);
    }
  }

  lemma {:induction false} LosesLittle(sum: nat, mean: nat, x: nat, n: nat)
    requires 1 < n && 0 <= 2 * (sum - (n - 1) * mean) <= (n - 1) * (n - 2)
    ensures 0 <= 2 * (sum + x - n * ((mean * (n - 1) + x) / n)) <= n * (n - 1)
  {
    var total := mean * (n - 1) + x;
    var r := total / n;
    assert n * r <= total <= n * r + n - 1;
    assert mean * (n - 1) == (n - 1) * mean;
    assert n * (n - 1) == (n - 1) * (n - 2) + 2 * (n - 1);
  }

  // ------------------------------------------------------------------- the groups

  /** The windows a segment is the mean of, how far it reaches, and whether it was only
      stretched over some windows. */
  datatype Group = Group(merged: seq<Window>, end: nat, stretched: bool)

  function Tempos(ws: seq<Window>): (ts: seq<nat>)
    ensures |ts| == |ws|
  {
    seq(|ws|, i requires 0 <= i < |ws| => ws[i].estimate.tempo)
  }

  function Confidences(ws: seq<Window>): (cs: seq<nat>)
    ensures |cs| == |ws|
  {
    seq(|ws|, i requires 0 <= i < |ws| => ws[i].estimate.confidence)
  }

  /** The last group takes the window: its mean is at most 1.5 bpm away. */
  predicate TakesIn(groups: seq<Group>, w: Window) {
    groups != [] && groups[|groups| - 1].merged != [] &&
    var mean := RunningMean(Tempos(groups[|groups| - 1].merged));
    mean <= w.estimate.tempo + 1500 && w.estimate.tempo <= mean + 1500
  }

  /** Grouping by hand: join the last group, start another, or, when there are eight,
      only stretch the last one. */
  function Grouped(groups: seq<Group>, w: Window): seq<Group> {
    var n := |groups|;
    if TakesIn(groups, w) then
      groups[..n - 1] + [Group(groups[n - 1].merged + [w], w.end, groups[n - 1].stretched)]
    else if n < 8 then groups + [Group([w], w.end, false)]
    else groups[..n - 1] + [Group(groups[n - 1].merged, w.end, true)]
  }

  function GroupsOf(ws: seq<Window>): seq<Group> {
    if ws == [] then [] else Grouped(GroupsOf(ws[..|ws| - 1]), ws[|ws| - 1])
  }

  /** A draft is the mean of its group. */
  ghost predicate IsMean(d: Draft, g: Group) {
    && g.merged != []
    && d.first == g.merged[0].first && d.anchor == g.merged[0].first + g.merged[0].estimate.phase && d.end == g.end
    && d.windows == |g.merged| && d.degraded == g.stretched
    && d.tempo == RunningMean(Tempos(g.merged)) && d.confidence == RunningMean(Confidences(g.merged))
  }

  ghost predicate AreMeans(drafts: seq<Draft>, groups: seq<Group>) {
    |drafts| == |groups| && forall i :: 0 <= i < |drafts| ==> IsMean(drafts[i], groups[i])
  }

  // ---------------------------------------------------- the merge is the grouping

  lemma {:induction false} OneMoreMean(ws: seq<Window>, w: Window)
    requires ws != []
    ensures RunningMean(Tempos(ws + [w])) == (RunningMean(Tempos(ws)) * |ws| + w.estimate.tempo) / (|ws| + 1)
    ensures
      RunningMean(Confidences(ws + [w])) == (RunningMean(Confidences(ws)) * |ws| + w.estimate.confidence) / (|ws| + 1)
  {
    assert Tempos(ws + [w])[..|ws|] == Tempos(ws);
    assert Confidences(ws + [w])[..|ws|] == Confidences(ws);
  }

  lemma {:induction false} JoinedIsMean(d: Draft, g: Group, w: Window)
    requires IsMean(d, g)
    ensures
      IsMean(
        d.(tempo := Averaged(d.tempo, d.windows, w.estimate.tempo),
           confidence := Averaged(d.confidence, d.windows, w.estimate.confidence),
           end := w.end, windows := d.windows + 1),
        Group(g.merged + [w], w.end, g.stretched))
  {
    OneMoreMean(g.merged, w);
  }

  lemma {:induction false} OpenedIsMean(w: Window)
    ensures IsMean(
      Draft(w.first, w.end, w.first + w.estimate.phase, w.estimate.tempo, w.estimate.confidence, false, 1),
      Group([w], w.end, false))
  {
  }

  lemma {:induction false} AddedIsGrouped(m: Merge, groups: seq<Group>, w: Window)
    requires AreMeans(m.drafts, groups)
    ensures AreMeans(Added(m, w).drafts, Grouped(groups, w))
  {
    var n := |groups|;
    if n > 0 {
      assert IsMean(m.drafts[n - 1], groups[n - 1]);
      JoinedIsMean(m.drafts[n - 1], groups[n - 1], w);
    }
    OpenedIsMean(w);
  }

  /** All windows that were merged, in order. */
  function AllMerged(groups: seq<Group>): seq<Window> {
    if groups == [] then [] else AllMerged(groups[..|groups| - 1]) + groups[|groups| - 1].merged
  }

  /** The merge is its groups: the drafts are their means, the totals count every merged
      window, and the merge is degraded exactly when a group was stretched. */
  ghost predicate Describes(m: Merge, groups: seq<Group>) {
    && AreMeans(m.drafts, groups)
    && m.windows == |AllMerged(groups)| && m.totalConfidence == Sum(Confidences(AllMerged(groups)))
    && (m.degraded <==> exists i :: 0 <= i < |groups| && groups[i].stretched)
  }

  lemma {:induction false} OneMoreConfidence(ws: seq<Window>, w: Window)
    ensures Sum(Confidences(ws + [w])) == Sum(Confidences(ws)) + w.estimate.confidence
  {
    assert Confidences(ws + [w])[..|ws|] == Confidences(ws);
  }

  lemma {:induction false} LastGroupCounts(before: seq<Group>, g: Group)
    ensures AllMerged(before + [g]) == AllMerged(before) + g.merged
  {
    assert (before + [g])[..|before|] == before;
  }

  lemma {:induction false} GroupedMergesOne(groups: seq<Group>, w: Window)
    ensures
      AllMerged(Grouped(groups, w)) == AllMerged(groups) + if TakesIn(groups, w) || |groups| < 8 then [w] else []
  {
    var n := |groups|;
    if n != 0 {
      var before, last := groups[..n - 1], groups[n - 1];
      LastGroupCounts(before, Group(last.merged + [w], w.end, last.stretched));
      LastGroupCounts(before, Group(last.merged, w.end, true));
    }
    LastGroupCounts(groups, Group([w], w.end, false));
  }

  /** One more window is counted exactly if it does not only stretch the last group. */
  lemma {:induction false} AddedIsCounted(m: Merge, groups: seq<Group>, w: Window)
    requires Describes(m, groups)
    ensures
      var kept := TakesIn(groups, w) || |groups| < 8;
      && Added(m, w).windows == m.windows + (if kept then 1 else 0)
      && Added(m, w).totalConfidence == m.totalConfidence + (if kept then w.estimate.confidence else 0)
      && Added(m, w).degraded == (m.degraded || !kept)
  {
    var n := |groups|;
    if n != 0 {
      assert IsMean(m.drafts[n - 1], groups[n - 1]);
    }
  }

  lemma {:induction false} AddedIsDescribed(m: Merge, groups: seq<Group>, w: Window)
    requires Describes(m, groups)
    ensures Describes(Added(m, w), Grouped(groups, w))
  {
    AddedIsGrouped(m, groups, w);
    AddedIsCounted(m, groups, w);
    GroupedMergesOne(groups, w);
    OneMoreConfidence(AllMerged(groups), w);
    StretchedAfter(groups, w);
  }

  lemma {:induction false} StretchedAfter(groups: seq<Group>, w: Window)
    ensures
      (exists i :: 0 <= i < |Grouped(groups, w)| && Grouped(groups, w)[i].stretched) <==>
      (exists i :: 0 <= i < |groups| && groups[i].stretched) || !(TakesIn(groups, w) || |groups| < 8)
  {
    var after := Grouped(groups, w);
    forall i | 0 <= i < |groups| && groups[i].stretched
      ensures after[i].stretched {
    }
    if !(TakesIn(groups, w) || |groups| < 8) {
      assert after[|groups| - 1].stretched;
    }
  }

  /** The windows found in a stretch, none or one. */
  type AnswerRule = (nat, nat) -> seq<Window>

  /** What the estimator says of [first, end) from its own flux. */
  function Answer(flux: FluxRule, estimator: Estimator, first: nat, end: nat): seq<Window> {
    var answer := estimator(seq(if first <= end then end - first else 0, i requires 0 <= i => flux(first + i, first)));
    if answer.None? then [] else [Window(first, end, answer.value)]
  }

  function AnswerRuleOf(flux: FluxRule, estimator: Estimator): AnswerRule {
    (first: nat, end: nat) => Answer(flux, estimator, first, end)
  }

  /** The windows with an answer among the first k stretches of 128 bins, in order. */
  function Seen(answer: AnswerRule, e: Evidence, k: nat): seq<Window> {
    if k == 0 then []
    else
      var first := e.first + (k - 1) * 128;
      Seen(answer, e, k - 1) + answer(first, if first + 128 > e.end then e.end else first + 128)
  }

  /** How a merge stands to the windows seen so far. */
  type Relation = (Merge, seq<Window>) -> bool

  /** One step of the merge keeps its relation to what was found. */
  ghost predicate Absorbs(flux: FluxRule, absorb: AbsorbRule, answer: AnswerRule, fits: Relation) {
    forall m, seen, first: nat, end: nat | first <= end :: AbsorbsOne(flux, absorb, answer, fits, m, seen, first, end)
  }

  ghost predicate AbsorbsOne(
    flux: FluxRule, absorb: AbsorbRule, answer: AnswerRule, fits: Relation,
    m: Merge, seen: seq<Window>, first: nat, end: nat)
    requires first <= end
  {
    fits(m, seen) ==> fits(absorb(m, first, FluxOf(flux, first, end)), seen + answer(first, end))
  }

  ghost function Grouping(): Relation {
    (m: Merge, seen: seq<Window>) => Describes(m, GroupsOf(seen))
  }

  lemma {:induction false} StepIsGrouping(m: Merge, seen: seq<Window>, w: Option<Window>, found: seq<Window>)
    requires Describes(m, GroupsOf(seen)) && found == if w.None? then [] else [w.value]
    ensures Describes(MaybeAdded(m, w), GroupsOf(seen + found))
  {
    if w.Some? {
      AddedIsDescribed(m, GroupsOf(seen), w.value);
      assert (seen + found)[..|seen|] == seen;
    } else {
      assert seen + found == seen;
    }
  }

  lemma {:induction false} AnswerIsWindow(flux: FluxRule, estimator: Estimator, first: nat, end: nat)
    requires first <= end
    ensures
      var w := CurrentWindow(estimator, first, FluxOf(flux, first, end));
      Answer(flux, estimator, first, end) == if w.None? then [] else [w.value]
  {
    assert FluxOf(flux, first, end) ==
      seq(if first <= end then end - first else 0, i requires 0 <= i => flux(first + i, first));
  }

  lemma {:induction false} EstimatesAreAbsorbed(flux: FluxRule, estimator: Estimator)
    ensures Absorbs(flux, AbsorbRuleOf(estimator), AnswerRuleOf(flux, estimator), Grouping())
  {
    forall m, seen, first: nat, end: nat | first <= end
      ensures AbsorbsOne(flux, AbsorbRuleOf(estimator), AnswerRuleOf(flux, estimator), Grouping(), m, seen, first, end)
    {
      if Describes(m, GroupsOf(seen)) {
        AnswerIsWindow(flux, estimator, first, end);
        StepIsGrouping(
          m, seen, CurrentWindow(estimator, first, FluxOf(flux, first, end)), Answer(flux, estimator, first, end));
      }
    }
  }

  lemma {:induction false} StepsKeepRelation(
    flux: FluxRule, absorb: AbsorbRule, answer: AnswerRule, fits: Relation, e: Evidence, k: nat)
    requires e.first <= e.end && (k == 0 || WindowFirst(e, k - 1) < e.end)
    requires Absorbs(flux, absorb, answer, fits) && fits(NOTHING, [])
    ensures fits(MergeOf(flux, absorb, e, k), Seen(answer, e, k))
  {
    if k != 0 {
      StepsKeepRelation(flux, absorb, answer, fits, e, k - 1);
      assert AbsorbsOne(flux, absorb, answer, fits, MergeOf(flux, absorb, e, k - 1), Seen(answer, e, k - 1),
        WindowFirst(e, k - 1), WindowEnd(e, k - 1));
    }
  }

  /** Merging all windows is grouping the ones that were estimated. */
  lemma {:induction false} MergeIsGrouping(flux: FluxRule, estimator: Estimator, e: Evidence, k: nat)
    requires e.first <= e.end && (k == 0 || WindowFirst(e, k - 1) < e.end)
    ensures Describes(
      MergeOf(flux, AbsorbRuleOf(estimator), e, k), GroupsOf(Seen(AnswerRuleOf(flux, estimator), e, k)))
  {
    EstimatesAreAbsorbed(flux, estimator);
    StepsKeepRelation(flux, AbsorbRuleOf(estimator), AnswerRuleOf(flux, estimator), Grouping(), e, k);
  }
}
