/** The pooled overview: complete columns are packed into spans in two passes, and
  readers ask which frames the spans cover. */
module Overview {
  import opened Common

  datatype Accumulator = Accumulator(column: nat, complete: bool)

  datatype Run = Run(first: nat, count: nat)

  datatype Span = Span(firstColumn: nat, count: nat, output: nat, first: nat, end: nat)

  // ------------------------------------------------------------- complete columns

  /** The columns of the complete accumulators, in order. */
  function Columns(accumulators: seq<Accumulator>, n: nat): seq<nat>
    requires n <= |accumulators|
  {
    if n == 0 then []
    else if accumulators[n - 1].complete then Columns(accumulators, n - 1) + [accumulators[n - 1].column]
    else Columns(accumulators, n - 1)
  }

  ghost predicate Ascending(s: seq<nat>) {
    forall i, j :: 0 <= i < j < |s| ==> s[i] < s[j]
  }

  /** The session keeps its accumulators sorted, distinct and within the track. */
  ghost predicate Ordered(accumulators: seq<Accumulator>, capacity: nat) {
    && (forall i, j :: 0 <= i < j < |accumulators| ==> accumulators[i].column < accumulators[j].column)
    && forall i :: 0 <= i < |accumulators| ==> accumulators[i].column < capacity
  }

  lemma {:induction false} ColumnsAscend(accumulators: seq<Accumulator>, capacity: nat, n: nat)
    requires Ordered(accumulators, capacity) && n <= |accumulators|
    ensures Ascending(Columns(accumulators, n))
    ensures forall i :: 0 <= i < |Columns(accumulators, n)| ==>
      Columns(accumulators, n)[i] < capacity && exists k :: 0 <= k < n && accumulators[k].column == Columns(accumulators, n)[i]
  {
    if n > 0 {
      ColumnsAscend(accumulators, capacity, n - 1);
      var before := Columns(accumulators, n - 1);
      forall i | 0 <= i < |before| ensures before[i] < accumulators[n - 1].column {
        var k :| 0 <= k < n - 1 && accumulators[k].column == before[i];
      }
    }
  }

  /** Distinct columns below the capacity are at most as many. */
  lemma {:induction false} AscendingIsShort(s: seq<nat>, capacity: nat)
    requires Ascending(s) && forall i :: 0 <= i < |s| ==> s[i] < capacity
    ensures |s| <= capacity
    decreases |s|
  {
    if |s| > 0 {
      var last := |s| - 1;
      if last > 0 {
        assert forall i :: 0 <= i < last ==> s[..last][i] < s[last];
      }
      AscendingIsShort(s[..last], s[last]);
    }
  }

  // -------------------------------------------------------------------- runs

  function End(r: Run): nat { r.first + r.count }

  /** One more column: it lengthens the last run when it follows it, else starts one. */
  function Joined(runs: seq<Run>, c: nat): seq<Run> {
    if runs == [] || End(runs[|runs| - 1]) != c then runs + [Run(c, 1)]
    else
      var last := runs[|runs| - 1];
      runs[..|runs| - 1] + [Run(last.first, last.count + 1)]
  }

  /** The runs of consecutive columns, in order. */
  function Runs(columns: seq<nat>): seq<Run> {
    if columns == [] then [] else Joined(Runs(columns[..|columns| - 1]), columns[|columns| - 1])
  }

  ghost predicate Holds(r: Run, column: nat) {
    r.first <= column < End(r)
  }

  /** Runs are non-empty, in order, and a column is missing between any two. */
  ghost predicate Separated(runs: seq<Run>) {
    && (forall k :: 0 <= k < |runs| ==> 0 < runs[k].count)
    && forall k, m :: 0 <= k < m < |runs| ==> End(runs[k]) < runs[m].first
  }

  ghost predicate InSome(runs: seq<Run>, column: nat) {
    exists k :: 0 <= k < |runs| && Holds(runs[k], column)
  }

  /** The runs end where the columns end. */
  ghost predicate EndWith(runs: seq<Run>, columns: seq<nat>) {
    && (runs == [] <==> columns == [])
    && (runs != [] ==> End(runs[|runs| - 1]) == columns[|columns| - 1] + 1)
  }

  lemma {:induction false} JoinedIsSeparated(runs: seq<Run>, c: nat)
    requires Separated(runs) && (runs != [] ==> End(runs[|runs| - 1]) <= c)
    ensures Separated(Joined(runs, c)) && |Joined(runs, c)| <= |runs| + 1
    ensures Joined(runs, c) != [] && End(Joined(runs, c)[|Joined(runs, c)| - 1]) == c + 1
  {
    var more := Joined(runs, c);
    forall k, m | 0 <= k < m < |more| ensures End(more[k]) < more[m].first {
      if m < |runs| {
        assert End(runs[k]) < runs[m].first;
      } else if k < |runs| - 1 {
        assert End(runs[k]) < runs[|runs| - 1].first;
      }
    }
  }

  lemma {:induction false} JoinedHoldsOneMore(runs: seq<Run>, c: nat, x: nat)
    requires Separated(runs)
    ensures InSome(Joined(runs, c), x) <==> InSome(runs, x) || x == c
  {
    var more := Joined(runs, c);
    if InSome(runs, x) {
      var k :| 0 <= k < |runs| && Holds(runs[k], x);
      assert Holds(more[k], x);
    }
    assert Holds(more[|more| - 1], c);
    if InSome(more, x) && x != c {
      var k :| 0 <= k < |more| && Holds(more[k], x);
      assert Holds(runs[k], x);
    }
  }

  lemma {:induction false} RunsAreSeparated(columns: seq<nat>)
    requires Ascending(columns)
    ensures Separated(Runs(columns)) && |Runs(columns)| <= |columns| && EndWith(Runs(columns), columns)
  {
    if columns != [] {
      var n := |columns| - 1;
      var before := columns[..n];
      RunsAreSeparated(before);
      if n > 0 {
        assert before[n - 1] < columns[n];
      }
      JoinedIsSeparated(Runs(before), columns[n]);
    }
  }

  /** The runs hold the columns and no others. */
  lemma {:induction false} RunsHoldColumns(columns: seq<nat>, c: nat)
    requires Ascending(columns)
    ensures InSome(Runs(columns), c) <==> c in columns
  {
    if columns != [] {
      var n := |columns| - 1;
      RunsHoldColumns(columns[..n], c);
      RunsAreSeparated(columns[..n]);
      JoinedHoldsOneMore(Runs(columns[..n]), columns[n], c);
      assert columns == columns[..n] + [columns[n]];
    }
  }

  /** Exactly the maximal runs: separated, and together the columns and no others. */
  lemma {:induction false} RunsAreMaximal(columns: seq<nat>)
    requires Ascending(columns)
    ensures Separated(Runs(columns)) && |Runs(columns)| <= |columns|
    ensures forall c: nat :: InSome(Runs(columns), c) <==> c in columns
  {
    RunsAreSeparated(columns);
    forall c: nat ensures InSome(Runs(columns), c) <==> c in columns {
      RunsHoldColumns(columns, c);
    }
  }

  // ------------------------------------------------------------- the two passes

  /** The session's sorted, distinct, in-range accumulators read up to n. */
  lemma {:induction false} ReadSoFar(accumulators: seq<Accumulator>, capacity: nat, n: nat)
    requires Ordered(accumulators, capacity) && n <= |accumulators|
    ensures
      var columns := Columns(accumulators, n);
      Separated(Runs(columns)) && EndWith(Runs(columns), columns)
  {
    ColumnsAscend(accumulators, capacity, n);
    RunsAreSeparated(Columns(accumulators, n));
  }

  lemma RunsGrow(accumulators: seq<Accumulator>, i: nat)
    requires i < |accumulators|
    ensures
      Runs(Columns(accumulators, i + 1)) ==
        if accumulators[i].complete then Joined(Runs(Columns(accumulators, i)), accumulators[i].column)
        else Runs(Columns(accumulators, i))
  {
    if accumulators[i].complete {
      var columns := Columns(accumulators, i + 1);
      assert columns[..|columns| - 1] == Columns(accumulators, i);
    }
  }

  /** First pass: count the spans. */
  method CountSpans(accumulators: seq<Accumulator>, ghost capacity: nat) returns (spans: nat)
    requires Ordered(accumulators, capacity)
    ensures spans == |Runs(Columns(accumulators, |accumulators|))|
  {
    spans := 0;
    var previous, have := 0, false;
    for i := 0 to |accumulators|
      invariant spans == |Runs(Columns(accumulators, i))|
      invariant have <==> Columns(accumulators, i) != []
      invariant have ==> previous == Columns(accumulators, i)[|Columns(accumulators, i)| - 1]
    {
      ReadSoFar(accumulators, capacity, i);
      RunsGrow(accumulators, i);
      if accumulators[i].complete {
        if !have || accumulators[i].column != previous + 1 {
          spans := spans + 1;
        }
        previous, have := accumulators[i].column, true;
      }
    }
  }

  function Smaller(a: nat, b: nat): nat { if a < b then a else b }

  /** Where columns begin and end in frames; abstract for the span builder. */
  datatype Axis = Axis(first: nat -> nat, end: nat -> nat)

  /** Columns of equal width, the last one cut at a signalled end. */
  function AxisOf(framesPerColumn: nat, finalEnd: Option<nat>): Axis {
    Axis((c: nat) => c * framesPerColumn,
         (c: nat) => if finalEnd.Some? then Smaller((c + 1) * framesPerColumn, finalEnd.value) else (c + 1) * framesPerColumn)
  }

  /** Columns written for some runs. */
  function Total(runs: seq<Run>): nat {
    if runs == [] then 0 else Total(runs[..|runs| - 1]) + runs[|runs| - 1].count
  }

  /** The span of a run whose first column is written at `output`. */
  function SpanOf(r: Run, output: nat, axis: Axis): Span {
    Span(r.first, r.count, output, axis.first(r.first), axis.end(if r.count == 0 then r.first else End(r) - 1))
  }

  /** One span for each run, each pointing behind the columns of the earlier ones. */
  function Spans(runs: seq<Run>, axis: Axis): seq<Span> {
    if runs == [] then []
    else
      var before := runs[..|runs| - 1];
      Spans(before, axis) + [SpanOf(runs[|runs| - 1], Total(before), axis)]
  }

  /** All spans but the last are closed; the last one is still growing. */
  ghost predicate Growing(spans: seq<Span>, runs: seq<Run>, axis: Axis) {
    && |spans| == |runs|
    && (runs != [] ==>
      var n := |runs| - 1;
      && spans[..n] == Spans(runs[..n], axis)
      && spans[n] == Span(runs[n].first, 0, Total(runs[..n]), axis.first(runs[n].first), 0))
  }

  /** Every complete column is written once. */
  lemma {:induction false} AllColumnsOut(columns: seq<nat>)
    ensures Total(Runs(columns)) == |columns|
  {
    if columns != [] {
      var n := |columns| - 1;
      AllColumnsOut(columns[..n]);
      var before, runs := Runs(columns[..n]), Runs(columns);
      assert runs[..|runs| - 1] == if |runs| == |before| then before[..|before| - 1] else before;
    }
  }

  /** The open span closes over the columns written since it started. */
  method CloseSpan(span: Span, previous: nat, output: nat, axis: Axis) returns (closed: Span)
    requires span.output <= output
    ensures closed == span.(count := output - span.output, end := axis.end(previous))
  {
    closed := span.(count := output - span.output, end := axis.end(previous));
  }

  /** Closing the last span at a break leaves exactly the spans of the runs. */
  method CloseLast(spans: seq<Span>, ghost runs: seq<Run>, previous: nat, output: nat, axis: Axis)
    returns (closed: seq<Span>)
    requires Growing(spans, runs, axis) && runs != [] && Separated(runs)
    requires output == Total(runs) && End(runs[|runs| - 1]) == previous + 1
    ensures closed == Spans(runs, axis)
  {
    var last := |spans| - 1;
    var span := CloseSpan(spans[last], previous, output, axis);
    closed := spans[..last] + [span];
  }

  /** What the second pass knows after some columns. */
  ghost predicate Built(spans: seq<Span>, runs: seq<Run>, previous: nat, have: bool, output: nat, axis: Axis) {
    && Growing(spans, runs, axis) && Separated(runs) && output == Total(runs)
    && (have <==> runs != [])
    && (have ==> End(runs[|runs| - 1]) == previous + 1)
  }

  /** A run started in front of a growing list. */
  lemma {:induction false} StartsRun(closed: seq<Span>, runs: seq<Run>, c: nat, axis: Axis)
    requires closed == Spans(runs, axis)
    ensures Growing(closed + [Span(c, 0, Total(runs), axis.first(c), 0)], runs + [Run(c, 1)], axis)
    ensures Total(runs + [Run(c, 1)]) == Total(runs) + 1
  {
    SpansAreRuns(runs, axis);
    assert (runs + [Run(c, 1)])[..|runs|] == runs;
  }

  lemma {:induction false} LengthensRun(spans: seq<Span>, runs: seq<Run>, axis: Axis)
    requires Growing(spans, runs, axis) && runs != []
    ensures Growing(spans, Joined(runs, End(runs[|runs| - 1])), axis)
    ensures Total(Joined(runs, End(runs[|runs| - 1]))) == Total(runs) + 1
  {
    assert Joined(runs, End(runs[|runs| - 1]))[..|runs| - 1] == runs[..|runs| - 1];
  }

  /** One complete column is added to the spans. */
  method AddColumn(
    spans: seq<Span>, ghost runs: seq<Run>, c: nat, previous: nat, have: bool, output: nat, axis: Axis)
    returns (more: seq<Span>)
    requires Built(spans, runs, previous, have, output, axis)
    requires runs != [] ==> End(runs[|runs| - 1]) <= c
    ensures Built(more, Joined(runs, c), c, true, output + 1, axis)
  {
    JoinedIsSeparated(runs, c);
    more := spans;
    if !have || c != previous + 1 {
      if have {
        more := CloseLast(spans, runs, previous, output, axis);
      }
      StartsRun(more, runs, c, axis);
      more := more + [Span(c, 0, output, axis.first(c), 0)];
    } else {
      LengthensRun(spans, runs, axis);
    }
  }

  lemma {:induction false} SpansAreRuns(runs: seq<Run>, axis: Axis)
    ensures |Spans(runs, axis)| == |runs|
  {
    if runs != [] {
      SpansAreRuns(runs[..|runs| - 1], axis);
    }
  }

  /** The next complete column lies behind all runs so far. */
  lemma {:induction false} NextRuns(accumulators: seq<Accumulator>, capacity: nat, i: nat) returns (more: seq<Run>)
    requires Ordered(accumulators, capacity) && i < |accumulators|
    ensures more == Runs(Columns(accumulators, i + 1))
    ensures
      var runs := Runs(Columns(accumulators, i));
      && more == (if accumulators[i].complete then Joined(runs, accumulators[i].column) else runs)
      && (runs != [] ==> End(runs[|runs| - 1]) <= accumulators[i].column)
  {
    ReadSoFar(accumulators, capacity, i);
    ColumnsAscend(accumulators, capacity, i);
    RunsGrow(accumulators, i);
    more := Runs(Columns(accumulators, i + 1));
  }

  /** Second pass: one span for each maximal run of complete columns, in order, each
      pointing at its first written column. */
  method BuildSpans(accumulators: seq<Accumulator>, axis: Axis, ghost capacity: nat)
    returns (spans: seq<Span>, output: nat)
    requires Ordered(accumulators, capacity)
    ensures spans == Spans(Runs(Columns(accumulators, |accumulators|)), axis)
    ensures output == |Columns(accumulators, |accumulators|)|
  {
    spans, output := [], 0;
    var previous, have := 0, false;
    ghost var runs: seq<Run> := [];
    for i := 0 to |accumulators|
      invariant runs == Runs(Columns(accumulators, i))
      invariant Built(spans, runs, previous, have, output, axis)
    {
      ghost var next := NextRuns(accumulators, capacity, i);
      if accumulators[i].complete {
        spans := AddColumn(spans, runs, accumulators[i].column, previous, have, output, axis);
        output, previous, have := output + 1, accumulators[i].column, true;
      }
      runs := next;
    }
    AllColumnsOut(Columns(accumulators, |accumulators|));
    if have {
      spans := CloseLast(spans, runs, previous, output, axis);
    }
  }

  /** For sorted, distinct, in-range accumulators neither pass overruns its region. */
  lemma {:induction false} PassesFit(accumulators: seq<Accumulator>, capacity: nat)
    requires Ordered(accumulators, capacity)
    ensures
      var columns := Columns(accumulators, |accumulators|);
      |columns| <= capacity && |Runs(columns)| <= |columns|
  {
    ColumnsAscend(accumulators, capacity, |accumulators|);
    AscendingIsShort(Columns(accumulators, |accumulators|), capacity);
    RunsAreSeparated(Columns(accumulators, |accumulators|));
  }

  // -------------------------------------------------------------- what is covered

  ghost predicate Inside(span: Span, frame: nat) {
    span.first <= frame < span.end
  }

  ghost predicate Covered(spans: seq<Span>, frame: nat) {
    exists k :: 0 <= k < |spans| && Inside(spans[k], frame)
  }

  /** Spans lie behind one another and hold at least one frame each. */
  ghost predicate InOrder(spans: seq<Span>) {
    && (forall k :: 0 <= k < |spans| ==> spans[k].first < spans[k].end)
    && forall k, m :: 0 <= k < m < |spans| ==> spans[k].end < spans[m].first
  }

  /** A column is a stretch of frames. */
  ghost predicate InColumn(c: nat, frame: nat, framesPerColumn: nat) {
    c * framesPerColumn <= frame < c * framesPerColumn + framesPerColumn
  }

  lemma {:induction false} SpanAt(runs: seq<Run>, axis: Axis, k: nat)
    requires k < |runs|
    ensures |Spans(runs, axis)| == |runs| && Spans(runs, axis)[k] == SpanOf(runs[k], Total(runs[..k]), axis)
  {
    SpansAreRuns(runs, axis);
    var n := |runs| - 1;
    SpansAreRuns(runs[..n], axis);
    if k < n {
      SpanAt(runs[..n], axis, k);
      assert runs[..n][..k] == runs[..k];
    }
  }

  lemma {:induction false} TimesGrows(a: nat, b: nat, d: nat)
    requires a < b
    ensures a * d + d <= b * d
  {
    Between(a, b, d);
  }

  /** A frame between two column borders lies in a column between them, and back. */
  lemma {:induction false} ColumnsOfStretch(first: nat, end: nat, frame: nat, d: nat)
    requires 0 < d
    ensures first * d <= frame < end * d <==> exists c: nat :: first <= c < end && InColumn(c, frame, d)
  {
    if first * d <= frame < end * d {
      var c := frame / d;
      assert c * d <= frame < c * d + d;
      if c < first { TimesGrows(c, first, d); }
      if end < c { TimesGrows(end, c, d); }
      assert InColumn(c, frame, d);
    }
    if c: nat :| first <= c < end && InColumn(c, frame, d) {
      if first < c { TimesGrows(first, c, d); }
      TimesGrows(c, end, d);
    }
  }

  ghost predicate BeforeEnd(frame: nat, finalEnd: Option<nat>) {
    finalEnd.Some? ==> frame < finalEnd.value
  }

  lemma {:induction false} SpanHoldsColumns(r: Run, output: nat, framesPerColumn: nat, finalEnd: Option<nat>, frame: nat)
    requires 0 < framesPerColumn && 0 < r.count
    ensures Inside(SpanOf(r, output, AxisOf(framesPerColumn, finalEnd)), frame) <==>
      BeforeEnd(frame, finalEnd) && exists c: nat :: Holds(r, c) && InColumn(c, frame, framesPerColumn)
  {
    ColumnsOfStretch(r.first, End(r), frame, framesPerColumn);
    if c: nat :| r.first <= c < End(r) && InColumn(c, frame, framesPerColumn) {
      assert Holds(r, c) && InColumn(c, frame, framesPerColumn);
    }
    if c: nat :| Holds(r, c) && InColumn(c, frame, framesPerColumn) {
      assert r.first <= c < End(r) && InColumn(c, frame, framesPerColumn);
    }
  }

  ghost predicate HasColumn(columns: seq<nat>, c: nat, frame: nat, framesPerColumn: nat) {
    c in columns && InColumn(c, frame, framesPerColumn)
  }

  /** The spans cover exactly the frames of complete columns before a signalled end. */
  lemma {:induction false} SpansCoverColumns(
    columns: seq<nat>, framesPerColumn: nat, finalEnd: Option<nat>, frame: nat)
    requires Ascending(columns) && 0 < framesPerColumn
    ensures Covered(Spans(Runs(columns), AxisOf(framesPerColumn, finalEnd)), frame) <==>
      BeforeEnd(frame, finalEnd) && exists c: nat :: HasColumn(columns, c, frame, framesPerColumn)
  {
    var runs, axis := Runs(columns), AxisOf(framesPerColumn, finalEnd);
    RunsAreMaximal(columns);
    SpansAreRuns(runs, axis);
    if Covered(Spans(runs, axis), frame) {
      var k :| 0 <= k < |runs| && Inside(Spans(runs, axis)[k], frame);
      SpanAt(runs, axis, k);
      SpanHoldsColumns(runs[k], Total(runs[..k]), framesPerColumn, finalEnd, frame);
      var c: nat :| Holds(runs[k], c) && InColumn(c, frame, framesPerColumn);
      assert InSome(runs, c);
      assert HasColumn(columns, c, frame, framesPerColumn);
    }
    if c: nat :| BeforeEnd(frame, finalEnd) && HasColumn(columns, c, frame, framesPerColumn) {
      assert InSome(runs, c);
      var k :| 0 <= k < |runs| && Holds(runs[k], c);
      SpanAt(runs, axis, k);
      SpanHoldsColumns(runs[k], Total(runs[..k]), framesPerColumn, finalEnd, frame);
      assert Inside(Spans(runs, axis)[k], frame);
    }
  }

  /** Every complete column starts before a signalled end. */
  ghost predicate StartBeforeEnd(columns: seq<nat>, framesPerColumn: nat, finalEnd: Option<nat>) {
    forall i :: 0 <= i < |columns| ==> BeforeEnd(columns[i] * framesPerColumn, finalEnd)
  }

  lemma {:induction false} SpansAreInOrder(columns: seq<nat>, framesPerColumn: nat, finalEnd: Option<nat>)
    requires Ascending(columns) && 0 < framesPerColumn && StartBeforeEnd(columns, framesPerColumn, finalEnd)
    ensures InOrder(Spans(Runs(columns), AxisOf(framesPerColumn, finalEnd)))
  {
    var runs, axis := Runs(columns), AxisOf(framesPerColumn, finalEnd);
    var spans := Spans(runs, axis);
    RunsAreMaximal(columns);
    SpansAreRuns(runs, axis);
    forall k | 0 <= k < |spans| ensures spans[k].first < spans[k].end {
      SpanAt(runs, axis, k);
      RunStarts(columns, k);
      SpanIsStretch(runs[k], Total(runs[..k]), framesPerColumn, finalEnd);
    }
    forall k, m | 0 <= k < m < |spans| ensures spans[k].end < spans[m].first {
      SpanAt(runs, axis, k);
      SpanAt(runs, axis, m);
      SpansApart(runs[k], Total(runs[..k]), runs[m], framesPerColumn, finalEnd);
    }
  }

  lemma {:induction false} RunStarts(columns: seq<nat>, k: nat)
    requires Ascending(columns) && k < |Runs(columns)|
    ensures 0 < Runs(columns)[k].count && Runs(columns)[k].first in columns
  {
    RunsAreMaximal(columns);
    assert Holds(Runs(columns)[k], Runs(columns)[k].first);
    assert InSome(Runs(columns), Runs(columns)[k].first);
  }

  lemma {:induction false} SpanIsStretch(r: Run, output: nat, framesPerColumn: nat, finalEnd: Option<nat>)
    requires 0 < framesPerColumn && 0 < r.count && BeforeEnd(r.first * framesPerColumn, finalEnd)
    ensures
      var span := SpanOf(r, output, AxisOf(framesPerColumn, finalEnd));
      span.first < span.end
  {
    TimesGrows(r.first, End(r), framesPerColumn);
  }

  lemma {:induction false} SpansApart(r: Run, output: nat, next: Run, framesPerColumn: nat, finalEnd: Option<nat>)
    requires 0 < framesPerColumn && 0 < r.count && End(r) < next.first
    ensures
      SpanOf(r, output, AxisOf(framesPerColumn, finalEnd)).end < next.first * framesPerColumn
  {
    TimesGrows(End(r), next.first, framesPerColumn);
  }

  // ----------------------------------------------------------------- the queries

  /** Walks the spans with a cursor: true exactly when no frame of the range is
      missing. For an empty range it answers for the frame at its start. */
  method FullyCovered(spans: seq<Span>, first: nat, end: nat) returns (covered: bool)
    requires InOrder(spans)
    ensures covered <==> forall f: nat :: first <= f < end || f == first ==> Covered(spans, f)
  {
    var cursor := first;
    for index := 0 to |spans|
      invariant first <= cursor && (cursor == first || cursor < end)
      invariant forall k :: 0 <= k < index ==> spans[k].end <= cursor
      invariant forall f: nat :: first <= f < cursor ==> Covered(spans, f)
    {
      if cursor < spans[index].end {
        if cursor < spans[index].first {
          assert !Covered(spans, cursor);
          return false;
        }
        forall f: nat | first <= f < spans[index].end ensures Covered(spans, f) {
          if cursor <= f {
            assert Inside(spans[index], f);
          }
        }
        cursor := spans[index].end;
        if end <= cursor {
          return true;
        }
      }
    }
    assert !Covered(spans, cursor);
    return false;
  }

  /** True exactly when some frame of a non-empty range is there. */
  method HasCoverage(spans: seq<Span>, first: nat, end: nat) returns (some: bool)
    requires InOrder(spans) && first < end
    ensures some <==> exists f: nat :: first <= f < end && Covered(spans, f)
  {
    for index := 0 to |spans|
      invariant forall k, f: nat :: 0 <= k < index && Inside(spans[k], f) ==> f < first || end <= f
    {
      if spans[index].first < end && first < spans[index].end {
        ghost var f := if first < spans[index].first then spans[index].first else first;
        assert Inside(spans[index], f);
        assert Covered(spans, f);
        return true;
      }
    }
    return false;
  }

  datatype FeatureState = Invalid | Unavailable | Partial | Stable | Final

  /** What a range query answers. */
  method RangeState(spans: seq<Span>, overview: FeatureState, first: nat, end: nat) returns (state: FeatureState)
    requires InOrder(spans)
    ensures state == Invalid <==> end <= first
    ensures state == Stable || state == Final <==> first < end && forall f: nat :: first <= f < end ==> Covered(spans, f)
    ensures state == Final <==>
      overview == Final && first < end && forall f: nat :: first <= f < end ==> Covered(spans, f)
    ensures state == Partial <==>
      && first < end
      && (exists f: nat :: first <= f < end && Covered(spans, f))
      && !(forall f: nat :: first <= f < end ==> Covered(spans, f))
    ensures state == Unavailable <==> first < end && forall f: nat :: first <= f < end ==> !Covered(spans, f)
  {
    if end <= first {
      return Invalid;
    }
    var covered := FullyCovered(spans, first, end);
    if covered {
      assert Covered(spans, first);
      return if overview == Final then Final else Stable;
    }
    var some := HasCoverage(spans, first, end);
    return if some then Partial else Unavailable;
  }

  /** The test that makes an overview stable. */
  predicate FullCoverage(spans: seq<Span>, finalEnd: Option<nat>) {
    finalEnd.Some? && |spans| == 1 && spans[0].first == 0 && spans[0].end == finalEnd.value
  }

  lemma {:induction false} GapIsOpen(spans: seq<Span>)
    requires InOrder(spans) && |spans| > 1
    ensures spans[0].end < spans[1].end && !Covered(spans, spans[0].end)
  {
  }

  /** That test finds exactly the overviews with no frame missing. */
  lemma {:induction false} FullCoverageIsEveryFrame(spans: seq<Span>, finalEnd: nat)
    requires InOrder(spans) && 0 < finalEnd
    requires forall k :: 0 <= k < |spans| ==> spans[k].end <= finalEnd
    ensures FullCoverage(spans, Some(finalEnd)) <==> forall f: nat :: f < finalEnd ==> Covered(spans, f)
  {
    if FullCoverage(spans, Some(finalEnd)) {
      forall f: nat | f < finalEnd ensures Covered(spans, f) {
        assert Inside(spans[0], f);
      }
    }
    if forall f: nat :: f < finalEnd ==> Covered(spans, f) {
      assert Covered(spans, 0);
      if |spans| > 1 {
        GapIsOpen(spans);
      } else {
        assert Covered(spans, finalEnd - 1);
      }
    }
  }
}
