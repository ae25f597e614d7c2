/** The TEMP and LGRD payloads: fields of fixed width in a fixed order. What the
  writer puts there comes back exactly when the reader's extra rules hold. */
module S4Payloads {
  import opened Common
  import opened Bytes
  import opened Container

  const PROVISIONAL: nat := 2
  const FINAL: nat := 4
  const MAX_CONFIDENCE: nat := 100
  const MIN_TEMPO: nat := 40000
  const MAX_TEMPO: nat := 300000
  const MAX_CANDIDATES: nat := 3
  const LAST_RELATION: nat := 8

  // -------------------------------------------------------- fields in sequence

  /** Widths of consecutive fields. */
  type Schema = seq<nat>

  function Width(schema: Schema): nat {
    if schema == [] then 0 else schema[0] + Width(schema[1..])
  }

  function Encode(fmt: Format, schema: Schema, values: seq<nat>): (b: bytes)
    requires |schema| == |values|
    ensures |b| == Width(schema)
  {
    if schema == [] then [] else fmt.digits(values[0], schema[0]) + Encode(fmt, schema[1..], values[1..])
  }

  function Decode(fmt: Format, schema: Schema, b: bytes): (values: seq<nat>)
    requires |b| == Width(schema)
    ensures |values| == |schema|
  {
    if schema == [] then [] else [fmt.number(b[..schema[0]])] + Decode(fmt, schema[1..], b[schema[0]..])
  }

  ghost predicate InRange(schema: Schema, values: seq<nat>) {
    |schema| == |values| && forall i :: 0 <= i < |schema| ==> values[i] < FieldLimit(schema[i])
  }

  lemma {:induction false} EncodedIsDecoded(fmt: Format, schema: Schema, values: seq<nat>)
    requires InRange(schema, values)
    ensures Decode(fmt, schema, Encode(fmt, schema, values)) == values
    decreases |schema|
  {
    if schema != [] {
      assert InRange(schema[1..], values[1..]);
      EncodedIsDecoded(fmt, schema[1..], values[1..]);
      assert Encode(fmt, schema, values)[..schema[0]] == fmt.digits(values[0], schema[0]);
      assert Encode(fmt, schema, values)[schema[0]..] == Encode(fmt, schema[1..], values[1..]);
      assert values == [values[0]] + values[1..];
    }
  }

  // ---------------------------------------------------------------------- TEMP

  datatype Range = Range(first: nat, end: nat)

  predicate RangeValid(r: Range) { r.first < r.end }

  predicate TempoValid(tempo: nat) { MIN_TEMPO <= tempo <= MAX_TEMPO }

  predicate StateAllowed(state: nat, partial: bool) {
    PROVISIONAL <= state <= FINAL && (partial || state == FINAL)
  }

  datatype Candidate = Candidate(tempo: nat, score: nat, confidence: nat, relation: nat, flags: nat)

  datatype Temp = Temp(
    state: nat, confidence: nat, flags: nat, tempo: nat, candidateSet: nat,
    evidence: Range, applicability: Range, candidates: seq<Candidate>)

  /** Version, state, confidence, flags, tempo, set, four frames, count, reserved. */
  const TEMP_HEADER: Schema := [SHORT, BYTE, BYTE, WORD, WORD, WORD, LONG, LONG, LONG, LONG, WORD, WORD]
  /** Tempo, score, confidence, relation, flags, reserved. */
  const CANDIDATE: Schema := [WORD, SHORT, BYTE, BYTE, WORD, WORD]

  /** rest[k] is the width of the fields from k on. */
  lemma {:induction false} WidthIs(schema: Schema, rest: seq<nat>)
    requires |rest| == |schema| + 1 && rest[|schema|] == 0
    requires forall k :: 0 <= k < |schema| ==> Suffix(schema, rest, k)
    ensures Width(schema) == rest[0]
    decreases |schema|
  {
    if schema != [] {
      assert Suffix(schema, rest, 0);
      forall k | 0 <= k < |schema| - 1 ensures Suffix(schema[1..], rest[1..], k) {
        assert Suffix(schema, rest, k + 1);
      }
      WidthIs(schema[1..], rest[1..]);
    }
  }

  ghost predicate Suffix(schema: Schema, rest: seq<nat>, k: nat)
    requires |rest| == |schema| + 1 && k < |schema|
  {
    rest[k] == schema[k] + rest[k + 1]
  }

  lemma TempWidths()
    ensures Width(TEMP_HEADER) == 56 && Width(CANDIDATE) == 16
  {
    WidthIs(TEMP_HEADER, [56, 54, 53, 52, 48, 44, 40, 32, 24, 16, 8, 4, 0]);
    WidthIs(CANDIDATE, [16, 12, 10, 9, 8, 4, 0]);
  }

  /** The relation is written as one byte, whatever it is. */
  function CandidateValues(c: Candidate): seq<nat> {
    [c.tempo, c.score, c.confidence, c.relation % BYTE_LIMIT, c.flags, 0]
  }

  function TempValues(t: Temp): seq<nat> {
    [1, t.state % BYTE_LIMIT, t.confidence, t.flags, t.tempo, t.candidateSet, t.evidence.first, t.evidence.end,
     t.applicability.first, t.applicability.end, |t.candidates|, 0]
  }

  function WriteCandidates(fmt: Format, candidates: seq<Candidate>): (b: bytes)
    ensures |b| == |candidates| * Width(CANDIDATE)
  {
    if candidates == [] then []
    else Encode(fmt, CANDIDATE, CandidateValues(candidates[0])) + WriteCandidates(fmt, candidates[1..])
  }

  function WriteTemp(fmt: Format, t: Temp): bytes {
    Encode(fmt, TEMP_HEADER, TempValues(t)) + WriteCandidates(fmt, t.candidates)
  }

  function CandidateFrom(v: seq<nat>): Candidate
    requires |v| == 6
  {
    Candidate(v[0], v[1], v[2], v[3], v[4])
  }

  /** What the reader asks of a candidate: scores never rise. */
  predicate CandidateAccepted(c: Candidate, previous: Option<nat>) {
    && TempoValid(c.tempo) && c.confidence <= MAX_CONFIDENCE && c.relation <= LAST_RELATION
    && (previous.Some? ==> c.score <= previous.value)
  }

  function ParseCandidates(fmt: Format, b: bytes, count: nat, previous: Option<nat>, strict: bool): Option<seq<Candidate>>
    requires |b| == count * Width(CANDIDATE)
    decreases count
  {
    if count == 0 then Some([])
    else
      var values := Decode(fmt, CANDIDATE, b[..Width(CANDIDATE)]);
      var c := CandidateFrom(values);
      if !CandidateAccepted(c, previous) || (strict && values[5] != 0) then None
      else match ParseCandidates(fmt, b[Width(CANDIDATE)..], count - 1, Some(c.score), strict)
        case None => None
        case Some(rest) => Some([c] + rest)
  }

  function ParseTemp(fmt: Format, b: bytes, strict: bool, partial: bool): Option<Temp> {
    if |b| < Width(TEMP_HEADER) then None
    else
      TempFrom(fmt, Decode(fmt, TEMP_HEADER, b[..Width(TEMP_HEADER)]), b[Width(TEMP_HEADER)..], strict, partial)
  }

  /** A section from the numbers of its header and the bytes behind it. */
  function TempFrom(fmt: Format, v: seq<nat>, rest: bytes, strict: bool, partial: bool): Option<Temp>
    requires |v| == 12
  {
    var count := v[10];
    if v[0] != 1 || !StateAllowed(v[1], partial) || v[2] > MAX_CONFIDENCE || !TempoValid(v[4])
      || !RangeValid(Range(v[6], v[7])) || !RangeValid(Range(v[8], v[9])) || (strict && v[11] != 0)
      || count == 0 || count > MAX_CANDIDATES || |rest| != count * Width(CANDIDATE)
    then None
    else match ParseCandidates(fmt, rest, count, None, strict)
      case None => None
      case Some(candidates) =>
        Some(Temp(v[1], v[2], v[3], v[4], v[5], Range(v[6], v[7]), Range(v[8], v[9]), candidates))
  }

  predicate RangeFits(r: Range) { r.first < LONG_LIMIT && r.end < LONG_LIMIT }

  predicate CandidateTyped(c: Candidate) {
    c.tempo < WORD_LIMIT && c.score < SHORT_LIMIT && c.confidence < BYTE_LIMIT && c.flags < WORD_LIMIT
  }

  /** The numbers fit the struct's fields. */
  predicate TempTyped(t: Temp) {
    && t.confidence < BYTE_LIMIT && t.flags < WORD_LIMIT && t.tempo < WORD_LIMIT && t.candidateSet < WORD_LIMIT
    && RangeFits(t.evidence) && RangeFits(t.applicability)
    && forall i :: 0 <= i < |t.candidates| ==> CandidateTyped(t.candidates[i])
  }

  /** What the writer checks before it writes a TEMP section. */
  predicate TempWritable(t: Temp) {
    && 0 < |t.candidates| <= MAX_CANDIDATES && TempoValid(t.tempo) && t.confidence <= MAX_CONFIDENCE
    && PROVISIONAL <= t.state <= FINAL && RangeValid(t.evidence) && RangeValid(t.applicability)
    && forall i :: 0 <= i < |t.candidates| ==>
         TempoValid(t.candidates[i].tempo) && t.candidates[i].confidence <= MAX_CONFIDENCE
  }

  /** The reader's own rules on the list: known relations, scores never rising. */
  predicate Ranked(candidates: seq<Candidate>, previous: Option<nat>) {
    candidates == [] ||
    (candidates[0].relation <= LAST_RELATION && (previous.Some? ==> candidates[0].score <= previous.value)
     && Ranked(candidates[1..], Some(candidates[0].score)))
  }

  lemma CandidateComesBack(fmt: Format, c: Candidate)
    requires CandidateTyped(c)
    ensures Decode(fmt, CANDIDATE, Encode(fmt, CANDIDATE, CandidateValues(c))) == CandidateValues(c)
    ensures CandidateFrom(CandidateValues(c)) == c.(relation := c.relation % BYTE_LIMIT)
  {
    EncodedIsDecoded(fmt, CANDIDATE, CandidateValues(c));
  }

  /** What the reader makes of a written candidate and the bytes behind it. */
  lemma {:induction false} FirstIsParsed(
    fmt: Format, c: Candidate, rest: bytes, count: nat, previous: Option<nat>, strict: bool)
    requires CandidateTyped(c) && |rest| == count * Width(CANDIDATE)
    ensures
      var b := Encode(fmt, CANDIDATE, CandidateValues(c)) + rest;
      var read := c.(relation := c.relation % BYTE_LIMIT);
      && |b| == (count + 1) * Width(CANDIDATE)
      && ParseCandidates(fmt, b, count + 1, previous, strict) ==
        if !CandidateAccepted(read, previous) then None
        else
          var more := ParseCandidates(fmt, rest, count, Some(c.score), strict);
          if more.None? then None else Some([read] + more.value)
  {
    var b, w := Encode(fmt, CANDIDATE, CandidateValues(c)) + rest, Width(CANDIDATE);
    assert b[..w] == Encode(fmt, CANDIDATE, CandidateValues(c)) && b[w..] == rest;
    CandidateComesBack(fmt, c);
  }

  lemma {:induction false} CandidatesComeBack(fmt: Format, cs: seq<Candidate>, previous: Option<nat>, strict: bool)
    requires forall i :: 0 <= i < |cs| ==>
      CandidateTyped(cs[i]) && TempoValid(cs[i].tempo) && cs[i].confidence <= MAX_CONFIDENCE
    ensures ParseCandidates(fmt, WriteCandidates(fmt, cs), |cs|, previous, strict) == Some(cs) <==> Ranked(cs, previous)
    decreases |cs|
  {
    if cs != [] {
      FirstIsParsed(fmt, cs[0], WriteCandidates(fmt, cs[1..]), |cs| - 1, previous, strict);
      CandidatesComeBack(fmt, cs[1..], Some(cs[0].score), strict);
      assert cs == [cs[0]] + cs[1..];
    }
  }

  /** A written TEMP section comes back unchanged exactly when its candidates are
      ranked and, in a complete result, its state is final. */
  lemma TempComesBack(fmt: Format, t: Temp, strict: bool, partial: bool)
    requires TempTyped(t) && TempWritable(t)
    ensures ParseTemp(fmt, WriteTemp(fmt, t), strict, partial) == Some(t) <==>
      StateAllowed(t.state, partial) && Ranked(t.candidates, None)
  {
    HeaderComesBack(fmt, t);
    TempFromValues(fmt, t, WriteCandidates(fmt, t.candidates), strict, partial);
  }

  lemma {:induction false} HeaderComesBack(fmt: Format, t: Temp)
    requires TempTyped(t) && TempWritable(t)
    ensures
      var b, w := WriteTemp(fmt, t), Width(TEMP_HEADER);
      |b| >= w && Decode(fmt, TEMP_HEADER, b[..w]) == TempValues(t) && b[w..] == WriteCandidates(fmt, t.candidates)
  {
    var b, w, values := WriteTemp(fmt, t), Width(TEMP_HEADER), TempValues(t);
    assert b[..w] == Encode(fmt, TEMP_HEADER, values) && b[w..] == WriteCandidates(fmt, t.candidates);
    EncodedIsDecoded(fmt, TEMP_HEADER, values);
  }

  lemma {:induction false} TempFromValues(fmt: Format, t: Temp, rest: bytes, strict: bool, partial: bool)
    requires TempTyped(t) && TempWritable(t) && rest == WriteCandidates(fmt, t.candidates)
    ensures TempFrom(fmt, TempValues(t), rest, strict, partial) == Some(t) <==>
      StateAllowed(t.state, partial) && Ranked(t.candidates, None)
  {
    CandidatesComeBack(fmt, t.candidates, None, strict);
  }

  /** A section the writer writes and the reader refuses: the second candidate scores
      higher than the first. */
  lemma {:induction false} RisingScoresAreRefused(fmt: Format, strict: bool, partial: bool)
    ensures
      var range := Range(0, 48000);
      var first := Candidate(120000, 10, 80, 0, 0);
      var t := Temp(FINAL, 80, 0, 120000, 1, range, range, [first, first.(tempo := 60000, score := 20)]);
      TempTyped(t) && TempWritable(t) && ParseTemp(fmt, WriteTemp(fmt, t), strict, partial) != Some(t)
  {
    var range := Range(0, 48000);
    var first := Candidate(120000, 10, 80, 0, 0);
    var second := first.(tempo := 60000, score := 20);
    var t := Temp(FINAL, 80, 0, 120000, 1, range, range, [first, second]);
    RisingIsNotRanked(first, second);
    TempComesBack(fmt, t, strict, partial);
  }

  lemma {:induction false} RisingIsNotRanked(first: Candidate, second: Candidate)
    requires first.score < second.score
    ensures !Ranked([first, second], None)
  {
    assert [first, second][1..] == [second];
  }

  // ---------------------------------------------------------------------- LGRD

  datatype Position = Position(whole: nat, fraction: nat)

  datatype Segment = Segment(
    range: Range, anchor: Position, ordinal: int, period: Position, beatCount: nat, tempo: nat, id: nat,
    revision: nat, flags: nat, state: nat, confidence: nat)

  datatype Grid = Grid(
    state: nat, confidence: nat, flags: nat, requested: Range, evidence: Range, applicability: Range,
    coverage: Range, segment: Segment)

  const SEGMENTS: nat := 1

  /** Version, state, confidence, flags, representation, segment count, four ranges,
      anchor, reserved, ordinal, period, beat count, tempo, id, revision, flags,
      state, confidence, reserved. */
  const LGRD: Schema := [
    SHORT, BYTE, BYTE, WORD, WORD, WORD, LONG, LONG, LONG, LONG, LONG, LONG, LONG, LONG,
    LONG, WORD, WORD, LONG, LONG, WORD, WORD, WORD, WORD, WORD, WORD, BYTE, BYTE, BYTE, BYTE, WORD]

  lemma GridWidth()
    ensures Width(LGRD) == 144
  {
    WidthIs(LGRD, [144, 142, 141, 140, 136, 132, 128, 120, 112, 104, 96, 88, 80, 72, 64, 56, 52, 48, 40, 32, 28,
                   24, 20, 16, 12, 8, 7, 6, 5, 4, 0]);
  }

  /** A signed ordinal in 64 bits, two's complement. */
  function Unsigned(ordinal: int): nat
    requires -(LONG_LIMIT / 2) <= ordinal < LONG_LIMIT / 2
  {
    if ordinal < 0 then ordinal + LONG_LIMIT else ordinal
  }

  function Signed(value: nat): int {
    if value >= LONG_LIMIT / 2 then value - LONG_LIMIT else value
  }

  predicate PositionFits(p: Position) { p.whole < LONG_LIMIT && p.fraction < WORD_LIMIT }

  /** The numbers fit the struct's fields. */
  predicate GridTyped(g: Grid) {
    var s := g.segment;
    && g.confidence < BYTE_LIMIT && g.flags < WORD_LIMIT && RangeFits(g.requested) && RangeFits(g.evidence)
    && RangeFits(g.applicability) && RangeFits(g.coverage) && PositionFits(s.anchor) && PositionFits(s.period)
    && -(LONG_LIMIT / 2) <= s.ordinal < LONG_LIMIT / 2 && s.beatCount < WORD_LIMIT && s.tempo < WORD_LIMIT
    && s.id < WORD_LIMIT && s.revision < WORD_LIMIT && s.flags < WORD_LIMIT && s.confidence < BYTE_LIMIT
  }

  function GridValues(g: Grid): seq<nat>
    requires GridTyped(g)
  {
    var s := g.segment;
    [1, g.state % BYTE_LIMIT, g.confidence, g.flags, SEGMENTS, 1,
     g.requested.first, g.requested.end, g.evidence.first, g.evidence.end,
     g.applicability.first, g.applicability.end, g.coverage.first, g.coverage.end,
     s.anchor.whole, s.anchor.fraction, 0, Unsigned(s.ordinal), s.period.whole, s.period.fraction,
     s.beatCount, s.tempo, s.id, s.revision, s.flags, s.state % BYTE_LIMIT, s.confidence, 0, 0, 0]
  }

  function WriteGrid(fmt: Format, g: Grid): bytes
    requires GridTyped(g)
  {
    Encode(fmt, LGRD, GridValues(g))
  }

  /** The segment takes the grid's applicability; its own range is not stored. */
  function GridFrom(v: seq<nat>): Grid
    requires |v| == 30
  {
    Grid(v[1], v[2], v[3], Range(v[6], v[7]), Range(v[8], v[9]), Range(v[10], v[11]), Range(v[12], v[13]),
         Segment(Range(v[10], v[11]), Position(v[14], v[15]), Signed(v[17]), Position(v[18], v[19]),
                 v[20], v[21], v[22], v[23], v[24], v[25], v[26]))
  }

  predicate GridAccepted(g: Grid, partial: bool, selectedTempo: nat) {
    && StateAllowed(g.state, partial) && g.confidence <= MAX_CONFIDENCE
    && RangeValid(g.requested) && RangeValid(g.evidence) && RangeValid(g.applicability) && RangeValid(g.coverage)
    && g.segment.period.whole != 0 && TempoValid(g.segment.tempo)
    && StateAllowed(g.segment.state, partial) && g.segment.confidence <= MAX_CONFIDENCE
    && g.segment.tempo == selectedTempo
  }

  function ParseGrid(fmt: Format, b: bytes, strict: bool, partial: bool, selectedTempo: nat): Option<Grid> {
    if |b| != Width(LGRD) then None else CheckedGrid(Decode(fmt, LGRD, b), strict, partial, selectedTempo)
  }

  function CheckedGrid(v: seq<nat>, strict: bool, partial: bool, selectedTempo: nat): Option<Grid>
    requires |v| == 30
  {
    if v[0] != 1 || v[4] != SEGMENTS || v[5] != 1 || !GridAccepted(GridFrom(v), partial, selectedTempo)
      || (strict && (v[16] != 0 || v[27] != 0 || v[28] != 0 || v[29] != 0))
    then None
    else Some(GridFrom(v))
  }

  /** What the writer checks before it writes an LGRD section. */
  predicate GridWritable(g: Grid) {
    && PROVISIONAL <= g.state <= FINAL && g.confidence <= MAX_CONFIDENCE
    && RangeValid(g.requested) && RangeValid(g.evidence) && RangeValid(g.applicability) && RangeValid(g.coverage)
    && g.segment.period.whole != 0 && TempoValid(g.segment.tempo)
    && PROVISIONAL <= g.segment.state <= FINAL && g.segment.confidence <= MAX_CONFIDENCE
  }

  lemma GridValuesComeBack(fmt: Format, g: Grid)
    requires GridTyped(g) && GridWritable(g)
    ensures Decode(fmt, LGRD, WriteGrid(fmt, g)) == GridValues(g)
    ensures GridFrom(GridValues(g)) == g.(segment := g.segment.(range := g.applicability))
  {
    GridValuesFit(g);
    EncodedIsDecoded(fmt, LGRD, GridValues(g));
  }

  lemma GridValuesFit(g: Grid)
    requires GridTyped(g)
    ensures InRange(LGRD, GridValues(g))
  {
    var v := GridValues(g);
    assert forall i :: 0 <= i < 14 ==> v[i] < FieldLimit(LGRD[i]);
    assert forall i :: 14 <= i < 30 ==> v[i] < FieldLimit(LGRD[i]);
  }

  /** A written LGRD section comes back unchanged exactly when its segment covers
      the grid's range, has the selected tempo, and states are final where needed. */
  lemma GridComesBack(fmt: Format, g: Grid, strict: bool, partial: bool, selectedTempo: nat)
    requires GridTyped(g) && GridWritable(g)
    ensures ParseGrid(fmt, WriteGrid(fmt, g), strict, partial, selectedTempo) == Some(g) <==>
      && StateAllowed(g.state, partial) && StateAllowed(g.segment.state, partial)
      && g.segment.tempo == selectedTempo && g.segment.range == g.applicability
  {
    GridValuesComeBack(fmt, g);
    ValuesAreChecked(g, GridValues(g), strict, partial, selectedTempo);
  }

  lemma {:induction false} ValuesAreChecked(g: Grid, v: seq<nat>, strict: bool, partial: bool, selectedTempo: nat)
    requires GridTyped(g) && GridWritable(g) && v == GridValues(g)
    requires GridFrom(v) == g.(segment := g.segment.(range := g.applicability))
    ensures CheckedGrid(v, strict, partial, selectedTempo) == Some(g) <==>
      && StateAllowed(g.state, partial) && StateAllowed(g.segment.state, partial)
      && g.segment.tempo == selectedTempo && g.segment.range == g.applicability
  {
  }
}
