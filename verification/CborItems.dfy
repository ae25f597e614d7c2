/** CBOR data items (section 2 of RFC 8949) with their deterministic encoding, and what
  skipping one of them means. */
module CborItems {
  import opened Common
  import opened Bytes
  import opened Cbor

  /** Numbers, byte and text strings, items that hold other items, simple values and
      floating-point numbers. */
  datatype Data =
    | Number(negative: bool, value: Argument)
    | String(text: bool, content: bytes)
    | Holding(kind: Kind, items: List)
    | Simple(number: nat)
    | Float(bits: bytes)

  /** A map holds its keys and values in turn, a tag its one item. */
  datatype Kind = ArrayOf | MapOf | TagOf(tag: Argument)

  datatype List = End | Then(head: Data, tail: List)

  function Length(l: List): nat {
    if l.End? then 0 else 1 + Length(l.tail)
  }

  /** What an item must be to have an encoding at all. */
  predicate Sound(d: Data) {
    match d
    case Number(_, _) => true
    case String(_, content) => |content| < 0x1_0000_0000_0000_0000
    case Holding(kind, items) => CanHold(kind, Length(items)) && AllSound(items)
    case Simple(number) => number < 24 || 32 <= number < 256
    case Float(bits) => |bits| == 2 || |bits| == 4 || |bits| == 8
  }

  predicate CanHold(kind: Kind, count: nat) {
    match kind
    case ArrayOf => count < 0x1_0000_0000_0000_0000
    case MapOf => count % 2 == 0 && count / 2 < 0x1_0000_0000_0000_0000
    case TagOf(_) => count == 1
  }

  predicate AllSound(l: List) {
    l.Then? ==> Sound(l.head) && AllSound(l.tail)
  }

  function Encode(d: Data): bytes
    requires Sound(d)
  {
    match d
    case Number(negative, value) => Head(if negative then 1 else 0, value)
    case String(text, content) => Head(if text then 3 else 2, |content|) + content
    case Holding(kind, items) => Opening(kind, Length(items)) + EncodeAll(items)
    case Simple(number) => if number < 24 then [0xE0 + number] else [0xF8, number]
    case Float(bits) => [if |bits| == 2 then 0xF9 else if |bits| == 4 then 0xFA else 0xFB] + bits
  }

  function Opening(kind: Kind, count: nat): bytes
    requires CanHold(kind, count)
  {
    match kind
    case ArrayOf => Head(4, count)
    case MapOf => Head(5, count / 2)
    case TagOf(tag) => Head(6, tag)
  }

  function EncodeAll(l: List): bytes
    requires AllSound(l)
  {
    if l.End? then [] else Encode(l.head) + EncodeAll(l.tail)
  }

  /** Items in all, the item itself and everything inside it. */
  function Nodes(d: Data): (n: nat)
    ensures 0 < n
  {
    if d.Holding? then 1 + AllNodes(d.items) else 1
  }

  function AllNodes(l: List): (n: nat)
    ensures Length(l) <= n
  {
    if l.End? then 0 else Nodes(l.head) + AllNodes(l.tail)
  }

  /** How deep items stand inside each other. */
  function Height(d: Data): (h: nat)
    ensures 0 < h
  {
    if d.Holding? then 1 + AllHeight(d.items) else 1
  }

  function AllHeight(l: List): nat {
    if l.End? then 0
    else if Height(l.head) > AllHeight(l.tail) then Height(l.head) else AllHeight(l.tail)
  }

  /** No string in it is longer than 8192 bytes. */
  predicate Short(d: Data) {
    match d
    case String(_, content) => |content| <= 8192
    case Holding(_, items) => AllShort(items)
    case _ => true
  }

  predicate AllShort(l: List) {
    l.Then? ==> Short(l.head) && AllShort(l.tail)
  }

  /** The reader's limits: nine levels, 256 items in all, short strings. */
  predicate Within(d: Data, depth: nat, visited: nat) {
    depth + Height(d) <= 9 && visited + Nodes(d) <= 256 && Short(d)
  }

  predicate AllWithin(l: List, depth: nat, visited: nat) {
    depth + AllHeight(l) <= 9 && visited + AllNodes(l) <= 256 && AllShort(l)
  }

  /** The answer for an item that ends at `next`. */
  function Answer(d: Data, depth: nat, visited: nat, next: nat): Option<Skipped> {
    if Within(d, depth, visited) then Some(Skipped(next, visited + Nodes(d))) else None
  }

  function AllAnswer(l: List, depth: nat, visited: nat, next: nat): Option<Skipped> {
    if AllWithin(l, depth, visited) then Some(Skipped(next, visited + AllNodes(l))) else None
  }

  lemma {:induction false} AllAnswerSplits(l: List, depth: nat, visited: nat, after: nat, next: nat)
    requires l.Then?
    ensures AllAnswer(l, depth, visited, next) ==
      if Answer(l.head, depth, visited, after).None? then None
      else AllAnswer(l.tail, depth, visited + Nodes(l.head), next)
  {
  }

  lemma {:induction false} HoldingMeasures(kind: Kind, l: List)
    ensures Nodes(Holding(kind, l)) == 1 + AllNodes(l) && Height(Holding(kind, l)) == 1 + AllHeight(l)
    ensures Short(Holding(kind, l)) == AllShort(l) && Length(l) <= AllNodes(l)
  {
  }

  lemma {:induction false} AnswerOpens(kind: Kind, l: List, depth: nat, visited: nat, next: nat)
    ensures Answer(Holding(kind, l), depth, visited, next) ==
      if depth <= 8 && visited < 256 && Length(l) <= 256 then AllAnswer(l, depth + 1, visited + 1, next) else None
  {
    var d := Holding(kind, l);
    HoldingMeasures(kind, l);
    assert Within(d, depth, visited) <==> depth <= 8 && visited < 256 && AllWithin(l, depth + 1, visited + 1);
  }

  // ------------------------------------------------------------ one item is read

  lemma {:induction false} SplitStands(data: bytes, at: nat, a: bytes, b: bytes)
    ensures StandsAt(data, at, a + b) <==> StandsAt(data, at, a) && StandsAt(data, at + |a|, b)
  {
    if at + |a + b| <= |data| {
      assert data[at..at + |a|] == data[at..at + |a + b|][..|a|];
      assert data[at + |a|..at + |a| + |b|] == data[at..at + |a + b|][|a|..];
      assert data[at..at + |a + b|] == data[at..at + |a|] + data[at + |a|..at + |a| + |b|];
    }
  }

  /** What `Skip` reads first of anything but a simple value. */
  lemma {:induction false} HeadIsTaken(data: bytes, at: nat, major: Major, value: Argument)
    requires major < 7 && StandsAt(data, at, Head(major, value))
    ensures at < |data| && data[at] / 32 == major
    ensures ReadArgument(data, at + 1, data[at] % 32) == Some((value, at + |Head(major, value)|))
  {
    WrittenHeadIsRead(data, at, major, value);
  }

  lemma {:induction false} NumberIsSkipped(data: bytes, at: nat, major: Major, value: Argument, depth: nat, visited: nat)
    requires major <= 1 && StandsAt(data, at, Head(major, value))
    ensures Skip(data, at, depth, visited) ==
      if depth <= 8 && visited < 256 then Some(Skipped(at + |Head(major, value)|, visited + 1)) else None
  {
    HeadIsTaken(data, at, major, value);
  }

  lemma {:induction false} StringIsSkipped(
    data: bytes, at: nat, major: Major, content: bytes, depth: nat, visited: nat)
    requires 2 <= major <= 3 && |content| < 0x1_0000_0000_0000_0000
    requires StandsAt(data, at, Head(major, |content|) + content)
    ensures Skip(data, at, depth, visited) ==
      if depth <= 8 && visited < 256 && |content| <= 8192
      then Some(Skipped(at + |Head(major, |content|) + content|, visited + 1)) else None
  {
    SplitStands(data, at, Head(major, |content|), content);
    HeadIsTaken(data, at, major, |content|);
  }

  lemma {:induction false} FirstByte(data: bytes, at: nat, s: bytes)
    requires s != [] && StandsAt(data, at, s)
    ensures at < |data| && data[at] == s[0] && StandsAt(data, at + 1, s[1..])
  {
    assert data[at] == data[at..at + |s|][0];
    assert data[at + 1..at + |s|] == data[at..at + |s|][1..];
  }

  lemma {:induction false} SimpleIsSkipped(data: bytes, at: nat, d: Data, depth: nat, visited: nat)
    requires (d.Simple? || d.Float?) && Sound(d) && StandsAt(data, at, Encode(d))
    ensures Skip(data, at, depth, visited) ==
      if depth <= 8 && visited < 256 then Some(Skipped(at + |Encode(d)|, visited + 1)) else None
  {
    FirstByte(data, at, Encode(d));
    if d.Simple? && 32 <= d.number {
      FirstByte(data, at + 1, Encode(d)[1..]);
    }
  }

  /** What holds others is skipped by its opening and then those. */
  lemma {:induction false} HoldingIsOpened(data: bytes, at: nat, kind: Kind, count: nat, depth: nat, visited: nat)
    requires CanHold(kind, count) && StandsAt(data, at, Opening(kind, count))
    ensures Skip(data, at, depth, visited) ==
      if depth <= 8 && visited < 256 && count <= 256
      then SkipMany(data, at + |Opening(kind, count)|, depth + 1, visited + 1, count) else None
  {
    match kind
    case ArrayOf => HeadIsTaken(data, at, 4, count);
    case MapOf => HeadIsTaken(data, at, 5, count / 2);
    case TagOf(tag) => HeadIsTaken(data, at, 6, tag);
  }

  // ------------------------------------------------------- an encoding is skipped

  /** Two ways to skip: one item, and a number of items. */
  type SkipRule = (nat, nat, nat) -> Option<Skipped>
  type ManyRule = (nat, nat, nat, nat) -> Option<Skipped>

  /** An item that holds no other is skipped at once. */
  ghost predicate SkipsPlain(data: bytes, skip: SkipRule) {
    forall d: Data, at: nat, depth: nat, visited: nat :: SkipsThis(data, skip, d, at, depth, visited)
  }

  ghost predicate SkipsThis(data: bytes, skip: SkipRule, d: Data, at: nat, depth: nat, visited: nat) {
    !d.Holding? && Sound(d) && StandsAt(data, at, Encode(d)) ==>
    skip(at, depth, visited) == Answer(d, depth, visited, at + |Encode(d)|)
  }

  /** One that holds others is skipped by its opening and then those. */
  ghost predicate SkipsInside(data: bytes, skip: SkipRule, many: ManyRule) {
    forall kind: Kind, count: nat, at: nat, depth: nat, visited: nat ::
      Opens(data, skip, many, kind, count, at, depth, visited)
  }

  ghost predicate Opens(
    data: bytes, skip: SkipRule, many: ManyRule, kind: Kind, count: nat, at: nat, depth: nat, visited: nat)
  {
    CanHold(kind, count) && StandsAt(data, at, Opening(kind, count)) ==>
    skip(at, depth, visited) ==
      if depth <= 8 && visited < 256 && count <= 256
      then many(at + |Opening(kind, count)|, depth + 1, visited + 1, count) else None
  }

  /** Many items are skipped one by one. */
  ghost predicate SkipsInTurn(data: bytes, skip: SkipRule, many: ManyRule) {
    forall at: nat, depth: nat, visited: nat, count: nat :: SkipsFirst(data, skip, many, at, depth, visited, count)
  }

  ghost predicate SkipsFirst(
    data: bytes, skip: SkipRule, many: ManyRule, at: nat, depth: nat, visited: nat, count: nat)
  {
    at <= |data| && visited <= 256 ==>
    many(at, depth, visited, count) ==
      if count == 0 then Some(Skipped(at, visited))
      else match skip(at, depth, visited)
        case None => None
        case Some(s) => many(s.next, depth, s.visited, count - 1)
  }

  ghost predicate Skips(data: bytes, skip: SkipRule, many: ManyRule) {
    SkipsPlain(data, skip) && SkipsInside(data, skip, many) && SkipsInTurn(data, skip, many)
  }

  ghost function SkipRuleOf(data: bytes): SkipRule {
    (at: nat, depth: nat, visited: nat) => Skip(data, at, depth, visited)
  }

  ghost function ManyRuleOf(data: bytes): ManyRule {
    (at: nat, depth: nat, visited: nat, count: nat) =>
      if at <= |data| && visited <= 256 then SkipMany(data, at, depth, visited, count) else None
  }

  lemma {:induction false} ReaderSkipsInTurn(data: bytes)
    ensures SkipsInTurn(data, SkipRuleOf(data), ManyRuleOf(data))
  {
    forall at: nat, depth: nat, visited: nat, count: nat
      ensures SkipsFirst(data, SkipRuleOf(data), ManyRuleOf(data), at, depth, visited, count)
    {
    }
  }

  lemma {:induction false} ReaderSkipsInside(data: bytes)
    ensures SkipsInside(data, SkipRuleOf(data), ManyRuleOf(data))
  {
    forall kind: Kind, count: nat, at: nat, depth: nat, visited: nat
      ensures Opens(data, SkipRuleOf(data), ManyRuleOf(data), kind, count, at, depth, visited)
    {
      ReaderOpens(data, kind, count, at, depth, visited);
    }
  }

  lemma {:induction false} ReaderOpens(data: bytes, kind: Kind, count: nat, at: nat, depth: nat, visited: nat)
    ensures Opens(data, SkipRuleOf(data), ManyRuleOf(data), kind, count, at, depth, visited)
  {
    if CanHold(kind, count) && StandsAt(data, at, Opening(kind, count)) {
      HoldingIsOpened(data, at, kind, count, depth, visited);
    }
  }

  lemma {:induction false} ReaderSkipsPlain(data: bytes)
    ensures SkipsPlain(data, SkipRuleOf(data))
  {
    forall d: Data, at: nat, depth: nat, visited: nat
      ensures SkipsThis(data, SkipRuleOf(data), d, at, depth, visited)
    {
      if !d.Holding? && Sound(d) && StandsAt(data, at, Encode(d)) {
        PlainIsSkipped(data, d, at, depth, visited);
      }
    }
  }

  lemma {:induction false} PlainIsSkipped(data: bytes, d: Data, at: nat, depth: nat, visited: nat)
    requires !d.Holding? && Sound(d) && StandsAt(data, at, Encode(d))
    ensures Skip(data, at, depth, visited) == Answer(d, depth, visited, at + |Encode(d)|)
  {
    match d
    case Number(negative, value) => NumberIsSkipped(data, at, if negative then 1 else 0, value, depth, visited);
    case String(text, content) => StringIsSkipped(data, at, if text then 3 else 2, content, depth, visited);
    case _ => SimpleIsSkipped(data, at, d, depth, visited);
  }

  lemma {:induction false} ItemIsSkipped(
    data: bytes, skip: SkipRule, many: ManyRule, at: nat, d: Data, depth: nat, visited: nat)
    requires Skips(data, skip, many) && Sound(d) && StandsAt(data, at, Encode(d))
    ensures skip(at, depth, visited) == Answer(d, depth, visited, at + |Encode(d)|)
    decreases d, 1
  {
    match d
    case Holding(kind, l) =>
      assert Encode(d) == Opening(kind, Length(l)) + EncodeAll(l);
      SplitStands(data, at, Opening(kind, Length(l)), EncodeAll(l));
      HoldingIsSkipped(data, skip, many, at, kind, l, depth, visited);
    case _ =>
      assert SkipsThis(data, skip, d, at, depth, visited);
  }

  lemma {:induction false} HoldingIsSkipped(
    data: bytes, skip: SkipRule, many: ManyRule, at: nat, kind: Kind, l: List, depth: nat, visited: nat)
    requires Skips(data, skip, many) && CanHold(kind, Length(l)) && AllSound(l)
    requires StandsAt(data, at, Opening(kind, Length(l)))
    requires StandsAt(data, at + |Opening(kind, Length(l))|, EncodeAll(l))
    ensures skip(at, depth, visited) ==
      Answer(Holding(kind, l), depth, visited, at + |Opening(kind, Length(l))| + |EncodeAll(l)|)
    decreases l, 2
  {
    var start := at + |Opening(kind, Length(l))|;
    AnswerOpens(kind, l, depth, visited, start + |EncodeAll(l)|);
    assert Opens(data, skip, many, kind, Length(l), at, depth, visited);
    if depth <= 8 && visited < 256 {
      ItemsAreSkipped(data, skip, many, start, l, depth + 1, visited + 1);
    }
  }

  lemma {:induction false} ItemsAreSkipped(
    data: bytes, skip: SkipRule, many: ManyRule, at: nat, l: List, depth: nat, visited: nat)
    requires Skips(data, skip, many) && AllSound(l) && StandsAt(data, at, EncodeAll(l)) && depth <= 9 && visited <= 256
    ensures many(at, depth, visited, Length(l)) == AllAnswer(l, depth, visited, at + |EncodeAll(l)|)
    decreases l, 1
  {
    assert SkipsFirst(data, skip, many, at, depth, visited, Length(l));
    if l.Then? {
      var after := at + |Encode(l.head)|;
      SplitStands(data, at, Encode(l.head), EncodeAll(l.tail));
      ItemIsSkipped(data, skip, many, at, l.head, depth, visited);
      AllAnswerSplits(l, depth, visited, after, at + |EncodeAll(l)|);
      if Within(l.head, depth, visited) {
        ItemsAreSkipped(data, skip, many, after, l.tail, depth, visited + Nodes(l.head));
      }
    }
  }

  /** Wherever the encoding of an item stands, skipping goes past exactly that encoding and
      counts exactly its items, or is refused, and it is refused exactly beyond the limits. */
  lemma {:induction false} EncodingIsSkipped(data: bytes, at: nat, d: Data, depth: nat, visited: nat)
    requires Sound(d) && StandsAt(data, at, Encode(d))
    ensures Skip(data, at, depth, visited) ==
      if Within(d, depth, visited) then Some(Skipped(at + |Encode(d)|, visited + Nodes(d))) else None
  {
    ReaderSkipsPlain(data);
    ReaderSkipsInside(data);
    ReaderSkipsInTurn(data);
    ItemIsSkipped(data, SkipRuleOf(data), ManyRuleOf(data), at, d, depth, visited);
  }

  // ------------------------------------------------------ what is skipped is one

  /** Whatever is skipped is the encoding of an item, and within the limits. */
  lemma {:induction false} SkippedIsEncoding(data: bytes, at: nat, depth: nat, visited: nat) returns (d: Data)
    requires Skip(data, at, depth, visited).Some?
    ensures Sound(d) && Within(d, depth, visited) && StandsAt(data, at, Encode(d))
    ensures Skip(data, at, depth, visited) == Some(Skipped(at + |Encode(d)|, visited + Nodes(d)))
    decreases 256 - visited, 2
  {
    d := ItemAt(data, at, depth, visited);
    EncodingIsSkipped(data, at, d, depth, visited);
  }

  lemma {:induction false} ItemAt(data: bytes, at: nat, depth: nat, visited: nat) returns (d: Data)
    requires Skip(data, at, depth, visited).Some?
    ensures Sound(d) && StandsAt(data, at, Encode(d))
    decreases 256 - visited, 1
  {
    var major := data[at] / 32;
    if major == 7 {
      d := SimpleAt(data, at, depth, visited);
    } else {
      var head := ReadHead(data, at).value;
      ReadHeadIsWritten(data, at);
      var value, next := head.value, head.next;
      if major <= 1 {
        d := Number(major == 1, value);
      } else if major <= 3 {
        var content := data[next..next + value];
        SplitStands(data, at, Head(major, value), content);
        d := String(major == 3, content);
      } else if major == 4 {
        d := HoldingAt(data, at, ArrayOf, value, depth, visited);
      } else if major == 5 {
        d := HoldingAt(data, at, MapOf, 2 * value, depth, visited);
      } else {
        d := HoldingAt(data, at, TagOf(value), 1, depth, visited);
      }
    }
  }

  lemma {:induction false} HoldingAt(data: bytes, at: nat, kind: Kind, count: nat, depth: nat, visited: nat)
    returns (d: Data)
    requires CanHold(kind, count) && StandsAt(data, at, Opening(kind, count))
    requires Skip(data, at, depth, visited).Some?
    ensures Sound(d) && StandsAt(data, at, Encode(d))
    decreases 256 - visited, 0
  {
    HoldingIsOpened(data, at, kind, count, depth, visited);
    var l := ItemsAt(data, at + |Opening(kind, count)|, depth + 1, visited + 1, count);
    d := Holding(kind, l);
    SplitStands(data, at, Opening(kind, count), EncodeAll(l));
  }

  lemma {:induction false} SimpleAt(data: bytes, at: nat, depth: nat, visited: nat) returns (d: Data)
    requires Skip(data, at, depth, visited).Some? && data[at] / 32 == 7
    ensures Sound(d) && StandsAt(data, at, Encode(d))
  {
    var additional := data[at] % 32;
    if additional < 24 {
      d := Simple(additional);
    } else if additional == 24 {
      d := Simple(data[at + 1]);
    } else {
      var next := Skip(data, at, depth, visited).value.next;
      d := Float(data[at + 1..next]);
      assert data[at..next] == [data[at]] + data[at + 1..next];
    }
  }

  lemma {:induction false} ItemsAt(data: bytes, at: nat, depth: nat, visited: nat, count: nat) returns (l: List)
    requires at <= |data| && visited <= 256 && SkipMany(data, at, depth, visited, count).Some?
    ensures AllSound(l) && Length(l) == count && StandsAt(data, at, EncodeAll(l))
    decreases 256 - visited, count + 3
  {
    if count == 0 {
      l := End;
    } else {
      var one := Skip(data, at, depth, visited).value;
      var head := SkippedIsEncoding(data, at, depth, visited);
      var tail := ItemsAt(data, one.next, depth, one.visited, count - 1);
      SplitStands(data, at, Encode(head), EncodeAll(tail));
      l := Then(head, tail);
    }
  }
}
