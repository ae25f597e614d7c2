/** Which TEMP and LGRD payloads the reader accepts, for every byte string, and what it
  reads from them. */
module S4Exact {
  import opened Common
  import opened Bytes
  import opened Container
  import opened S4Payloads
  import ResultFile
  import Crc32c

  // ------------------------------------------------------------ numbers and bytes

  /** A field of a known width is the digits of the number it is read as. */
  ghost predicate IsExact(fmt: Format, s: bytes) {
    FieldLimit(|s|) != 0 ==> fmt.digits(fmt.number(s), |s|) == s && fmt.number(s) < FieldLimit(|s|)
  }

  ghost predicate Exact(fmt: Format) {
    forall s :: IsExact(fmt, s)
  }

  lemma {:induction false} FromLittleEndianRoundTrip(s: bytes)
    ensures FromLittleEndian(s) < Power256(|s|) && LittleEndian(FromLittleEndian(s), |s|) == s
  {
    if s != [] {
      FromLittleEndianRoundTrip(s[1..]);
      LowByte(s[0], FromLittleEndian(s[1..]));
      assert s == [s[0]] + s[1..];
    }
  }

  /** The format of result files is one. */
  lemma {:induction false} ResultFormatIsExact()
    ensures Exact(ResultFile.ResultFormat())
  {
    forall s ensures IsExact(ResultFile.ResultFormat(), s) {
      FromLittleEndianRoundTrip(s);
      LimitsArePowers();
    }
  }

  ghost predicate Plain(schema: Schema) {
    forall i :: 0 <= i < |schema| ==> schema[i] == 1 || schema[i] == 2 || schema[i] == 4 || schema[i] == 8
  }

  lemma {:induction false} DecodedIsEncoded(fmt: Format, schema: Schema, b: bytes)
    requires Exact(fmt) && Plain(schema) && |b| == Width(schema)
    ensures Encode(fmt, schema, Decode(fmt, schema, b)) == b && InRange(schema, Decode(fmt, schema, b))
    decreases |schema|
  {
    if schema != [] {
      var first, rest := b[..schema[0]], b[schema[0]..];
      assert IsExact(fmt, first) && b == first + rest;
      DecodedIsEncoded(fmt, schema[1..], rest);
      var values := Decode(fmt, schema, b);
      assert values[1..] == Decode(fmt, schema[1..], rest);
      forall i | 0 <= i < |schema| ensures values[i] < FieldLimit(schema[i]) {
        if 0 < i { assert values[i] == values[1..][i - 1] && schema[i] == schema[1..][i - 1]; }
      }
    }
  }

  // ------------------------------------------------------------------- candidates

  predicate IsTempo(tempo: nat) { 40000 <= tempo <= 300000 }

  /** A result that is not partial holds final values only. */
  predicate IsState(state: nat, partial: bool) {
    state == 4 || (partial && (state == 2 || state == 3))
  }

  predicate CandidateSound(c: Candidate) {
    && IsTempo(c.tempo) && c.score <= 0xFFFF && c.confidence <= 100 && c.relation <= 8 && c.flags <= 0xFFFF_FFFF
  }

  /** Known tempi and relations, scores that never rise. */
  predicate AllSound(cs: seq<Candidate>) {
    && (forall i :: 0 <= i < |cs| ==> CandidateSound(cs[i]))
    && forall i :: 0 < i < |cs| ==> cs[i].score <= cs[i - 1].score
  }

  /** Each candidate with something in its last, reserved field. */
  function CandidateBytes(fmt: Format, cs: seq<Candidate>, reserved: seq<nat>): bytes
    requires |reserved| == |cs|
  {
    if cs == [] then []
    else Encode(fmt, CANDIDATE, CandidateValues(cs[0])[5 := reserved[0]]) + CandidateBytes(fmt, cs[1..], reserved[1..])
  }

  predicate Reserved(values: seq<nat>, strict: bool) {
    forall i :: 0 <= i < |values| ==> values[i] <= 0xFFFF_FFFF && (strict ==> values[i] == 0)
  }

  lemma {:induction false} CandidateFieldsFit(c: Candidate, reserved: nat)
    requires CandidateSound(c) && reserved <= 0xFFFF_FFFF
    ensures InRange(CANDIDATE, CandidateValues(c)[5 := reserved])
    ensures CandidateFrom(CandidateValues(c)[5 := reserved]) == c
  {
  }

  lemma {:induction false} CandidateIsRead(fmt: Format, c: Candidate, reserved: nat, rest: bytes)
    requires CandidateSound(c) && reserved <= 0xFFFF_FFFF
    ensures
      var b := Encode(fmt, CANDIDATE, CandidateValues(c)[5 := reserved]) + rest;
      && |b| == Width(CANDIDATE) + |rest| && b[Width(CANDIDATE)..] == rest
      && Decode(fmt, CANDIDATE, b[..Width(CANDIDATE)]) == CandidateValues(c)[5 := reserved]
  {
    var first := Encode(fmt, CANDIDATE, CandidateValues(c)[5 := reserved]);
    CandidateFieldsFit(c, reserved);
    EncodedIsDecoded(fmt, CANDIDATE, CandidateValues(c)[5 := reserved]);
    assert (first + rest)[..Width(CANDIDATE)] == first;
  }

  lemma {:induction false} SoundRest(cs: seq<Candidate>)
    requires cs != [] && AllSound(cs)
    ensures AllSound(cs[1..]) && (1 < |cs| ==> cs[1].score <= cs[0].score)
  {
  }

  lemma {:induction false} FirstCandidateIsRead(
    fmt: Format, c: Candidate, reserved: nat, rest: bytes, count: nat, previous: Option<nat>, strict: bool)
    requires CandidateSound(c) && reserved <= 0xFFFF_FFFF && (strict ==> reserved == 0)
    requires |rest| == count * Width(CANDIDATE) && (previous.Some? ==> c.score <= previous.value)
    ensures
      var b := Encode(fmt, CANDIDATE, CandidateValues(c)[5 := reserved]) + rest;
      && |b| == (count + 1) * Width(CANDIDATE)
      && ParseCandidates(fmt, b, count + 1, previous, strict) ==
        match ParseCandidates(fmt, rest, count, Some(c.score), strict)
        case None => None
        case Some(more) => Some([c] + more)
  {
    CandidateIsRead(fmt, c, reserved, rest);
    CandidateFieldsFit(c, reserved);
  }

  lemma {:induction false} CandidatesAreRead(
    fmt: Format, cs: seq<Candidate>, reserved: seq<nat>, previous: Option<nat>, strict: bool)
    requires |reserved| == |cs| && AllSound(cs) && Reserved(reserved, strict)
    requires cs != [] && previous.Some? ==> cs[0].score <= previous.value
    ensures |CandidateBytes(fmt, cs, reserved)| == |cs| * Width(CANDIDATE)
    ensures ParseCandidates(fmt, CandidateBytes(fmt, cs, reserved), |cs|, previous, strict) == Some(cs)
    decreases |cs|
  {
    if cs != [] {
      SoundRest(cs);
      CandidatesAreRead(fmt, cs[1..], reserved[1..], Some(cs[0].score), strict);
      FirstCandidateIsRead(
        fmt, cs[0], reserved[0], CandidateBytes(fmt, cs[1..], reserved[1..]), |cs| - 1, previous, strict);
      assert cs == [cs[0]] + cs[1..];
    }
  }

  lemma {:induction false} ReadIsCandidate(fmt: Format, b: bytes, values: seq<nat>, c: Candidate)
    requires Exact(fmt) && |b| == Width(CANDIDATE) && values == Decode(fmt, CANDIDATE, b) && c == CandidateFrom(values)
    requires CandidateAccepted(c, None)
    ensures |values| == 6 && values[5] <= 0xFFFF_FFFF && CandidateSound(c)
    ensures b == Encode(fmt, CANDIDATE, CandidateValues(c)[5 := values[5]])
  {
    DecodedIsEncoded(fmt, CANDIDATE, b);
    assert values == CandidateValues(c)[5 := values[5]];
  }

  lemma {:induction false} FirstTells(
    fmt: Format, b: bytes, count: nat, previous: Option<nat>, strict: bool, cs: seq<Candidate>)
    requires 0 < count && |b| == count * Width(CANDIDATE)
    requires ParseCandidates(fmt, b, count, previous, strict) == Some(cs)
    ensures
      var values := Decode(fmt, CANDIDATE, b[..Width(CANDIDATE)]);
      var c := CandidateFrom(values);
      && CandidateAccepted(c, None) && (strict ==> values[5] == 0) && (previous.Some? ==> c.score <= previous.value)
      && cs != [] && cs[0] == c
      && ParseCandidates(fmt, b[Width(CANDIDATE)..], count - 1, Some(c.score), strict) == Some(cs[1..])
  {
  }

  lemma {:induction false} JoinedIsSound(c: Candidate, cs: seq<Candidate>)
    requires CandidateSound(c) && AllSound(cs) && (cs != [] ==> cs[0].score <= c.score)
    ensures AllSound([c] + cs)
  {
  }

  /** The bytes are these candidates, sound, with these reserved fields. */
  ghost predicate AreCandidates(
    fmt: Format, b: bytes, cs: seq<Candidate>, reserved: seq<nat>, previous: Option<nat>, strict: bool)
  {
    && |reserved| == |cs| && AllSound(cs) && Reserved(reserved, strict) && b == CandidateBytes(fmt, cs, reserved)
    && (cs != [] && previous.Some? ==> cs[0].score <= previous.value)
  }

  lemma {:induction false} OneMoreCandidate(
    fmt: Format, first: bytes, rest: bytes, c: Candidate, r: nat, tail: seq<Candidate>, more: seq<nat>,
    previous: Option<nat>, strict: bool)
    requires AreCandidates(fmt, rest, tail, more, Some(c.score), strict) && CandidateSound(c)
    requires r <= 0xFFFF_FFFF && (strict ==> r == 0) && (previous.Some? ==> c.score <= previous.value)
    requires first == Encode(fmt, CANDIDATE, CandidateValues(c)[5 := r])
    ensures AreCandidates(fmt, first + rest, [c] + tail, [r] + more, previous, strict)
  {
    JoinedIsSound(c, tail);
    JoinedCandidates(fmt, first, rest, c, r, tail, more, strict);
  }

  lemma {:induction false} ReadAreCandidates(
    fmt: Format, b: bytes, count: nat, previous: Option<nat>, strict: bool, cs: seq<Candidate>)
    returns (reserved: seq<nat>)
    requires Exact(fmt) && Width(CANDIDATE) == 16 && |b| == count * 16
    requires ParseCandidates(fmt, b, count, previous, strict) == Some(cs)
    ensures |cs| == count && AreCandidates(fmt, b, cs, reserved, previous, strict)
    decreases count
  {
    if count == 0 {
      reserved := [];
      NoCandidates(fmt, b, cs, previous, strict);
    } else {
      var c, r := SplitFirst(fmt, b, count, previous, strict, cs);
      var more := ReadAreCandidates(fmt, b[16..], count - 1, Some(c.score), strict, cs[1..]);
      reserved := [r] + more;
      OneMoreCandidate(fmt, b[..16], b[16..], c, r, cs[1..], more, previous, strict);
      assert b == b[..16] + b[16..] && cs == [c] + cs[1..];
    }
  }

  lemma {:induction false} SplitFirst(
    fmt: Format, b: bytes, count: nat, previous: Option<nat>, strict: bool, cs: seq<Candidate>)
    returns (c: Candidate, r: nat)
    requires Exact(fmt) && Width(CANDIDATE) == 16 && |b| == count * 16 && 0 < count
    requires ParseCandidates(fmt, b, count, previous, strict) == Some(cs)
    ensures cs != [] && cs[0] == c && CandidateSound(c) && r <= 0xFFFF_FFFF && (strict ==> r == 0)
    ensures previous.Some? ==> c.score <= previous.value
    ensures b[..16] == Encode(fmt, CANDIDATE, CandidateValues(c)[5 := r])
    ensures ParseCandidates(fmt, b[16..], count - 1, Some(c.score), strict) == Some(cs[1..])
  {
    var values := Decode(fmt, CANDIDATE, b[..16]);
    c, r := CandidateFrom(values), values[5];
    FirstTells(fmt, b, count, previous, strict, cs);
    ReadIsCandidate(fmt, b[..16], values, c);
  }

  lemma {:induction false} NoCandidates(fmt: Format, b: bytes, cs: seq<Candidate>, previous: Option<nat>, strict: bool)
    requires b == [] && cs == []
    ensures AreCandidates(fmt, b, cs, [], previous, strict)
  {
  }

  lemma {:induction false} JoinedCandidates(
    fmt: Format, first: bytes, rest: bytes, c: Candidate, r: nat, tail: seq<Candidate>, more: seq<nat>, strict: bool)
    requires |tail| == |more| && Reserved(more, strict) && r <= 0xFFFF_FFFF && (strict ==> r == 0)
    requires first == Encode(fmt, CANDIDATE, CandidateValues(c)[5 := r]) && rest == CandidateBytes(fmt, tail, more)
    ensures first + rest == CandidateBytes(fmt, [c] + tail, [r] + more) && Reserved([r] + more, strict)
  {
    assert ([c] + tail)[1..] == tail && ([r] + more)[1..] == more;
  }

  // ------------------------------------------------------------------------ TEMP

  predicate IsRange(r: Range) { r.first < r.end <= 0xFFFF_FFFF_FFFF_FFFF }

  predicate TempSound(t: Temp, partial: bool) {
    && IsState(t.state, partial) && t.confidence <= 100 && t.flags <= 0xFFFF_FFFF && IsTempo(t.tempo)
    && t.candidateSet <= 0xFFFF_FFFF && IsRange(t.evidence) && IsRange(t.applicability)
    && 1 <= |t.candidates| <= 3 && AllSound(t.candidates)
  }

  /** A section with something in its reserved fields. */
  function TempBytes(fmt: Format, t: Temp, last: nat, reserved: seq<nat>): bytes
    requires |reserved| == |t.candidates|
  {
    Encode(fmt, TEMP_HEADER, TempValues(t)[11 := last]) + CandidateBytes(fmt, t.candidates, reserved)
  }

  ghost predicate IsTemp(fmt: Format, b: bytes, strict: bool, partial: bool, t: Temp, last: nat, reserved: seq<nat>) {
    && TempSound(t, partial) && |reserved| == |t.candidates|
    && Reserved([last], strict) && Reserved(reserved, strict) && b == TempBytes(fmt, t, last, reserved)
  }

  lemma {:induction false} TempFieldsFit(t: Temp, last: nat, partial: bool)
    requires TempSound(t, partial) && last <= 0xFFFF_FFFF
    ensures InRange(TEMP_HEADER, TempValues(t)[11 := last])
  {
  }

  lemma {:induction false} TempIsRead(
    fmt: Format, b: bytes, strict: bool, partial: bool, t: Temp, last: nat, reserved: seq<nat>)
    requires IsTemp(fmt, b, strict, partial, t, last, reserved)
    ensures ParseTemp(fmt, b, strict, partial) == Some(t)
  {
    var w, values, rest := Width(TEMP_HEADER), TempValues(t)[11 := last], CandidateBytes(fmt, t.candidates, reserved);
    assert [last][0] == last;
    TempFieldsFit(t, last, partial);
    EncodedIsDecoded(fmt, TEMP_HEADER, values);
    assert b[..w] == Encode(fmt, TEMP_HEADER, values) && b[w..] == rest;
    CandidatesAreRead(fmt, t.candidates, reserved, None, strict);
    HeaderDecides(fmt, values, rest, strict, partial, t);
  }

  lemma {:induction false} HeaderDecides(fmt: Format, v: seq<nat>, rest: bytes, strict: bool, partial: bool, t: Temp)
    requires TempSound(t, partial) && |v| == 12 && v == TempValues(t)[11 := v[11]] && (strict ==> v[11] == 0)
    requires |rest| == |t.candidates| * Width(CANDIDATE)
    requires ParseCandidates(fmt, rest, |t.candidates|, None, strict) == Some(t.candidates)
    ensures TempFrom(fmt, v, rest, strict, partial) == Some(t)
  {
  }

  lemma {:induction false} ReadIsTemp(fmt: Format, b: bytes, strict: bool, partial: bool, t: Temp)
    returns (last: nat, reserved: seq<nat>)
    requires Exact(fmt) && ParseTemp(fmt, b, strict, partial) == Some(t)
    ensures IsTemp(fmt, b, strict, partial, t, last, reserved)
  {
    var w := Width(TEMP_HEADER);
    var v, rest := Decode(fmt, TEMP_HEADER, b[..w]), b[w..];
    DecodedIsEncoded(fmt, TEMP_HEADER, b[..w]);
    TempWidths();
    reserved := ReadAreCandidates(fmt, rest, v[10], None, strict, t.candidates);
    last := v[11];
    HeaderTells(fmt, v, rest, strict, partial, t);
    assert b == b[..w] + b[w..];
  }

  lemma {:induction false} HeaderTells(fmt: Format, v: seq<nat>, rest: bytes, strict: bool, partial: bool, t: Temp)
    requires InRange(TEMP_HEADER, v) && |v| == 12 && TempFrom(fmt, v, rest, strict, partial) == Some(t)
    requires AllSound(t.candidates) && |t.candidates| == v[10]
    ensures TempSound(t, partial) && v == TempValues(t)[11 := v[11]] && Reserved([v[11]], strict)
  {
    assert v[11] < FieldLimit(TEMP_HEADER[11]) && v[3] < FieldLimit(TEMP_HEADER[3]) && v[5] < FieldLimit(TEMP_HEADER[5]);
    assert v[7] < FieldLimit(TEMP_HEADER[7]) && v[9] < FieldLimit(TEMP_HEADER[9]);
  }

  /** For every byte string: it is read as this TEMP section if and only if it is that
      section, sound in all its fields, with anything in the reserved fields, or zeros when
      the reader is strict. */
  lemma {:induction false} TempIsReadExactly(fmt: Format, b: bytes, strict: bool, partial: bool, t: Temp)
    requires Exact(fmt)
    ensures ParseTemp(fmt, b, strict, partial) == Some(t) <==>
      exists last, reserved :: IsTemp(fmt, b, strict, partial, t, last, reserved)
  {
    if ParseTemp(fmt, b, strict, partial) == Some(t) {
      var last, reserved := ReadIsTemp(fmt, b, strict, partial, t);
    }
    if last, reserved :| IsTemp(fmt, b, strict, partial, t, last, reserved) {
      TempIsRead(fmt, b, strict, partial, t, last, reserved);
    }
  }

  // ------------------------------------------------------------------------ LGRD

  predicate IsPosition(p: Position) { p.whole <= 0xFFFF_FFFF_FFFF_FFFF && p.fraction <= 0xFFFF_FFFF }

  predicate SegmentSound(s: Segment, partial: bool, selectedTempo: nat) {
    && IsPosition(s.anchor) && -0x8000_0000_0000_0000 <= s.ordinal < 0x8000_0000_0000_0000
    && IsPosition(s.period) && s.period.whole != 0 && s.beatCount <= 0xFFFF_FFFF
    && IsTempo(s.tempo) && s.tempo == selectedTempo && s.id <= 0xFFFF_FFFF && s.revision <= 0xFFFF_FFFF
    && s.flags <= 0xFFFF_FFFF && IsState(s.state, partial) && s.confidence <= 100
  }

  predicate GridSound(g: Grid, partial: bool, selectedTempo: nat) {
    && IsState(g.state, partial) && g.confidence <= 100 && g.flags <= 0xFFFF_FFFF
    && IsRange(g.requested) && IsRange(g.evidence) && IsRange(g.applicability) && IsRange(g.coverage)
    && g.segment.range == g.applicability && SegmentSound(g.segment, partial, selectedTempo)
  }

  /** The four reserved fields: a word, two bytes, a word. */
  datatype Blanks = Blanks(word: nat, one: nat, two: nat, last: nat)

  predicate BlanksFit(r: Blanks, strict: bool) {
    && r.word <= 0xFFFF_FFFF && r.one <= 0xFF && r.two <= 0xFF && r.last <= 0xFFFF_FFFF
    && (strict ==> r == Blanks(0, 0, 0, 0))
  }

  lemma {:induction false} SoundIsTyped(g: Grid, partial: bool, selectedTempo: nat)
    requires GridSound(g, partial, selectedTempo)
    ensures GridTyped(g)
  {
  }

  function GridFields(g: Grid, r: Blanks): (v: seq<nat>)
    requires GridTyped(g)
    ensures |v| == 30
  {
    GridValues(g)[16 := r.word][27 := r.one][28 := r.two][29 := r.last]
  }

  ghost predicate IsGrid(fmt: Format, b: bytes, strict: bool, partial: bool, selectedTempo: nat, g: Grid, r: Blanks) {
    && GridSound(g, partial, selectedTempo) && BlanksFit(r, strict) && GridTyped(g)
    && b == Encode(fmt, LGRD, GridFields(g, r))
  }

  lemma {:induction false} GridFieldsFit(g: Grid, r: Blanks, partial: bool, selectedTempo: nat)
    requires GridSound(g, partial, selectedTempo) && BlanksFit(r, false) && GridTyped(g)
    ensures InRange(LGRD, GridFields(g, r))
  {
    GridValuesFit(g);
    var v, w := GridValues(g), GridFields(g, r);
    assert forall i :: 0 <= i < 30 ==> v[i] < FieldLimit(LGRD[i]);
    forall i | 0 <= i < 30 ensures w[i] < FieldLimit(LGRD[i]) {
      if i != 16 && i < 27 { assert w[i] == v[i]; }
    }
  }

  lemma {:induction false} FieldsMakeGrid(g: Grid, r: Blanks)
    requires GridTyped(g) && g.segment.range == g.applicability && g.state < 256 && g.segment.state < 256
    ensures GridFrom(GridFields(g, r)) == g
  {
  }

  lemma {:induction false} GridIsRead(
    fmt: Format, b: bytes, strict: bool, partial: bool, selectedTempo: nat, g: Grid, r: Blanks)
    requires IsGrid(fmt, b, strict, partial, selectedTempo, g, r)
    ensures ParseGrid(fmt, b, strict, partial, selectedTempo) == Some(g)
  {
    GridFieldsFit(g, r, partial, selectedTempo);
    EncodedIsDecoded(fmt, LGRD, GridFields(g, r));
    FieldsMakeGrid(g, r);
    FieldsPass(g, r, GridFields(g, r), strict, partial, selectedTempo);
  }

  lemma {:induction false} FieldsPass(g: Grid, r: Blanks, v: seq<nat>, strict: bool, partial: bool, selectedTempo: nat)
    requires GridSound(g, partial, selectedTempo) && BlanksFit(r, strict) && GridTyped(g) && v == GridFields(g, r)
    requires GridFrom(v) == g
    ensures CheckedGrid(v, strict, partial, selectedTempo) == Some(g)
  {
  }

  lemma {:induction false} ReadIsGrid(fmt: Format, b: bytes, strict: bool, partial: bool, selectedTempo: nat, g: Grid)
    returns (r: Blanks)
    requires Exact(fmt) && ParseGrid(fmt, b, strict, partial, selectedTempo) == Some(g)
    ensures IsGrid(fmt, b, strict, partial, selectedTempo, g, r)
  {
    var v := Decode(fmt, LGRD, b);
    DecodedIsEncoded(fmt, LGRD, b);
    r := Blanks(v[16], v[27], v[28], v[29]);
    GridTells(v, strict, partial, selectedTempo, g);
    SoundIsTyped(g, partial, selectedTempo);
    FieldsComeBack(v, g, r);
  }

  lemma {:induction false} RangesTell(v: seq<nat>)
    requires InRange(LGRD, v) && |v| == 30
    ensures v[3] <= 0xFFFF_FFFF && v[7] <= 0xFFFF_FFFF_FFFF_FFFF && v[9] <= 0xFFFF_FFFF_FFFF_FFFF
    ensures v[11] <= 0xFFFF_FFFF_FFFF_FFFF && v[13] <= 0xFFFF_FFFF_FFFF_FFFF
  {
    assert v[3] < FieldLimit(LGRD[3]) && v[7] < FieldLimit(LGRD[7]) && v[9] < FieldLimit(LGRD[9]);
    assert v[11] < FieldLimit(LGRD[11]) && v[13] < FieldLimit(LGRD[13]);
  }

  lemma {:induction false} PlacesTell(v: seq<nat>)
    requires InRange(LGRD, v) && |v| == 30
    ensures IsPosition(Position(v[14], v[15])) && IsPosition(Position(v[18], v[19]))
    ensures -0x8000_0000_0000_0000 <= Signed(v[17]) < 0x8000_0000_0000_0000
  {
    assert v[14] < FieldLimit(LGRD[14]) && v[15] < FieldLimit(LGRD[15]) && v[17] < FieldLimit(LGRD[17]);
    assert v[18] < FieldLimit(LGRD[18]) && v[19] < FieldLimit(LGRD[19]);
  }

  lemma {:induction false} NumbersTell(v: seq<nat>)
    requires InRange(LGRD, v) && |v| == 30
    ensures v[20] <= 0xFFFF_FFFF && v[22] <= 0xFFFF_FFFF && v[23] <= 0xFFFF_FFFF && v[24] <= 0xFFFF_FFFF
    ensures v[16] <= 0xFFFF_FFFF && v[27] <= 0xFF && v[28] <= 0xFF && v[29] <= 0xFFFF_FFFF
  {
    assert v[20] < FieldLimit(LGRD[20]) && v[22] < FieldLimit(LGRD[22]) && v[23] < FieldLimit(LGRD[23]);
    assert v[24] < FieldLimit(LGRD[24]) && v[16] < FieldLimit(LGRD[16]) && v[27] < FieldLimit(LGRD[27]);
    assert v[28] < FieldLimit(LGRD[28]) && v[29] < FieldLimit(LGRD[29]);
  }

  lemma {:induction false} GridTells(v: seq<nat>, strict: bool, partial: bool, selectedTempo: nat, g: Grid)
    requires InRange(LGRD, v) && |v| == 30 && CheckedGrid(v, strict, partial, selectedTempo) == Some(g)
    ensures g == GridFrom(v) && v[0] == 1 && v[4] == 1 && v[5] == 1
    ensures GridSound(g, partial, selectedTempo) && BlanksFit(Blanks(v[16], v[27], v[28], v[29]), strict)
  {
    RangesTell(v);
    PlacesTell(v);
    NumbersTell(v);
  }

  lemma {:induction false} FieldsComeBack(v: seq<nat>, g: Grid, r: Blanks)
    requires InRange(LGRD, v) && |v| == 30 && g == GridFrom(v) && v[0] == 1 && v[4] == 1 && v[5] == 1 && GridTyped(g)
    requires r == Blanks(v[16], v[27], v[28], v[29])
    ensures v == GridFields(g, r)
  {
    BytesTell(v);
    var w := GridFields(g, r);
    assert forall i :: 0 <= i < 14 ==> v[i] == w[i];
    assert forall i :: 14 <= i < 30 ==> v[i] == w[i];
  }

  lemma {:induction false} BytesTell(v: seq<nat>)
    requires InRange(LGRD, v) && |v| == 30
    ensures v[1] <= 0xFF && v[25] <= 0xFF && v[17] <= 0xFFFF_FFFF_FFFF_FFFF
  {
    assert v[1] < FieldLimit(LGRD[1]) && v[25] < FieldLimit(LGRD[25]) && v[17] < FieldLimit(LGRD[17]);
  }

  /** For every byte string likewise: read as this LGRD section if and only if it is that
      section, sound in all its fields and at the selected tempo. */
  lemma {:induction false} GridIsReadExactly(
    fmt: Format, b: bytes, strict: bool, partial: bool, selectedTempo: nat, g: Grid)
    requires Exact(fmt)
    ensures ParseGrid(fmt, b, strict, partial, selectedTempo) == Some(g) <==>
      exists r :: IsGrid(fmt, b, strict, partial, selectedTempo, g, r)
  {
    if ParseGrid(fmt, b, strict, partial, selectedTempo) == Some(g) {
      var r := ReadIsGrid(fmt, b, strict, partial, selectedTempo, g);
    }
    if r :| IsGrid(fmt, b, strict, partial, selectedTempo, g, r) {
      GridIsRead(fmt, b, strict, partial, selectedTempo, g, r);
    }
  }

  /** Whatever the reader accepts the writer would write: its own checks ask no more. */
  lemma {:induction false} SoundIsWritable(t: Temp, g: Grid, partial: bool, selectedTempo: nat)
    ensures TempSound(t, partial) ==> TempTyped(t) && TempWritable(t)
    ensures GridSound(g, partial, selectedTempo) ==> GridTyped(g) && GridWritable(g)
  {
  }
}
