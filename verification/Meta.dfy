/** The META payload: a deterministic CBOR map from small keys to descriptive
  fields. What is written is read back, and what is read is what was written. */
module Meta {
  import opened Common
  import opened Bytes
  import opened Cbor
  import opened Utf8

  const FIELDS: nat := 7
  const CREATION_TIME: nat := 5
  const SOURCE_ID: nat := 6
  const MAX_MAP_ITEMS: nat := 64
  const MAX_TOTAL: nat := 8192

  /** 1 and 2 name and version of the producer, 3 and 4 of the backend, 5 the
      creation time, 6 the application's source id, 7 comments. */
  type Key = k: nat | 1 <= k <= FIELDS witness 1

  type Chunk = s: bytes | |s| <= UINT32_MAX

  datatype Field = Absent | Text(content: Chunk) | Binary(content: Chunk) | Number(value: Argument)

  type Fields = f: seq<Field> | |f| == FIELDS
    witness [Absent, Absent, Absent, Absent, Absent, Absent, Absent]

  /** A view keeps a number for the creation time even while it has none. */
  datatype View = View(fields: Fields, idleTime: Argument)

  const NO_FIELDS: Fields := [Absent, Absent, Absent, Absent, Absent, Absent, Absent]

  function Limit(k: Key): nat {
    if k == 1 || k == 3 then 255 else if k == 2 || k == 4 then 127 else if k == SOURCE_ID then 1024 else 4096
  }

  /** The field has the kind and size its key asks for. */
  predicate FieldFits(k: Key, f: Field) {
    match f
    case Absent => true
    case Number(_) => k == CREATION_TIME
    case Binary(content) => k == SOURCE_ID && |content| <= Limit(k)
    case Text(content) => k != CREATION_TIME && |content| <= Limit(k)
  }

  predicate Fits(fields: Fields) {
    forall i :: 0 <= i < FIELDS ==> FieldFits(i + 1, fields[i])
  }

  function Size(f: Field): nat {
    if f.Text? || f.Binary? then |f.content| else 0
  }

  function Total(fields: Fields, n: nat): nat
    requires n <= FIELDS
  {
    if n == 0 then 0 else Total(fields, n - 1) + Size(fields[n - 1])
  }

  /** What the session accepts as metadata. */
  predicate ValidView(v: View) {
    && Fits(v.fields)
    && (forall i :: 0 <= i < FIELDS && v.fields[i].Text? ==> WellFormed(v.fields[i].content))
    && Total(v.fields, FIELDS) <= MAX_TOTAL
  }

  /** The limit on the sum never bites: the single limits already keep it. */
  lemma TotalAlwaysFits(fields: Fields)
    requires Fits(fields)
    ensures Total(fields, FIELDS) <= MAX_TOTAL
  {
    assert forall i :: 0 <= i < FIELDS ==> FieldFits(i + 1, fields[i]);
    assert Total(fields, 2) == Total(fields, 1) + Size(fields[1]) <= 382;
    assert Total(fields, 4) == Total(fields, 3) + Size(fields[3]);
    assert Total(fields, 6) == Total(fields, 5) + Size(fields[5]);
    assert Total(fields, 3) == Total(fields, 2) + Size(fields[2]);
    assert Total(fields, 5) == Total(fields, 4) + Size(fields[4]);
  }

  // ------------------------------------------------------------------- payload

  function MajorOf(f: Field): Major {
    if f.Text? then 3 else if f.Binary? then 2 else 0
  }

  function Item(k: Key, f: Field): bytes {
    match f
    case Absent => []
    case Number(value) => [k] + Head(0, value)
    case Text(content) => [k] + Head(3, |content|) + content
    case Binary(content) => [k] + Head(2, |content|) + content
  }

  /** How one item is written, and how one is read. */
  type ItemRule = (Key, Field) -> bytes
  type ReadRule = (bytes, Progress) -> Option<Progress>

  /** The items of the keys above k, in ascending order. */
  function ItemsAbove(item: ItemRule, fields: Fields, k: nat): bytes
    requires k <= FIELDS
    decreases FIELDS - k
  {
    if k == FIELDS then [] else item(k + 1, fields[k]) + ItemsAbove(item, fields, k + 1)
  }

  function Present(f: Field): nat {
    if f.Absent? then 0 else 1
  }

  function CountAbove(fields: Fields, k: nat): (n: nat)
    requires k <= FIELDS
    ensures n <= FIELDS - k
    decreases FIELDS - k
  {
    if k == FIELDS then 0 else Present(fields[k]) + CountAbove(fields, k + 1)
  }

  function Payload(fields: Fields): bytes {
    Head(5, CountAbove(fields, 0)) + ItemsAbove(Item, fields, 0)
  }

  // ------------------------------------------------------------------- reading

  function ReadField(data: bytes, at: nat, k: Key): Option<(Field, nat)> {
    match ReadHead(data, at)
    case None => None
    case Some(head) =>
      if k == CREATION_TIME then
        if head.major == 0 then Some((Number(head.value), head.next)) else None
      else if head.value > Limit(k) || head.next + head.value > |data| then None
      else if head.major == 3 then Some((Text(data[head.next..head.next + head.value]), head.next + head.value))
      else if head.major == 2 && k == SOURCE_ID then
        Some((Binary(data[head.next..head.next + head.value]), head.next + head.value))
      else None
  }

  /** The fields found, and how many items had a key of their own. */
  datatype Parsed = Parsed(fields: Fields, unknown: nat)

  /** Where the reader stands between two items. */
  datatype Progress = Progress(at: nat, visited: nat, previous: Option<nat>, parsed: Parsed)

  function ParseItem(data: bytes, p: Progress): Option<Progress> {
    match ReadHead(data, p.at)
    case None => None
    case Some(head) =>
      var key := head.value;
      if head.major != 0 || (p.previous.Some? && key <= p.previous.value) then None
      else if 1 <= key <= FIELDS then
        match ReadField(data, head.next, key)
        case None => None
        case Some((field, next)) =>
          Some(Progress(next, p.visited, Some(key), p.parsed.(fields := p.parsed.fields[key - 1 := field])))
      else match Skip(data, head.next, 1, p.visited)
        case None => None
        case Some(skipped) =>
          Some(Progress(skipped.next, skipped.visited, Some(key), p.parsed.(unknown := p.parsed.unknown + 1)))
  }

  function ParseItems(read: ReadRule, data: bytes, p: Progress, count: nat): Option<Parsed>
    decreases count
  {
    if count == 0 then if p.at == |data| then Some(p.parsed) else None
    else match read(data, p)
      case None => None
      case Some(next) => ParseItems(read, data, next, count - 1)
  }

  function Parse(data: bytes): Option<Parsed> {
    match ReadHead(data, 0)
    case None => None
    case Some(head) =>
      if head.major != 5 || head.value > MAX_MAP_ITEMS then None
      else ParseItems(ParseItem, data, Progress(head.next, 0, None, Parsed(NO_FIELDS, 0)), head.value)
  }

  // ------------------------------------------------------- written is read back

  lemma StandsSplit(data: bytes, at: nat, a: bytes, b: bytes)
    requires StandsAt(data, at, a + b)
    ensures StandsAt(data, at, a) && StandsAt(data, at + |a|, b)
  {
    assert data[at..at + |a|] == data[at..at + |a + b|][..|a|];
    assert data[at + |a|..at + |a| + |b|] == data[at..at + |a + b|][|a|..];
  }

  lemma WrittenFieldIsRead(data: bytes, at: nat, k: Key, f: Field)
    requires !f.Absent? && FieldFits(k, f) && StandsAt(data, at, Item(k, f))
    ensures ReadHead(data, at) == Some(HeadRead(0, k, at + 1))
    ensures ReadField(data, at + 1, k) == Some((f, at + |Item(k, f)|))
  {
    ItemIsKeyAndValue(k, f);
    KeyAndValueAreRead(data, at, k, f, Item(k, f), ItemValue(f));
  }

  lemma {:induction false} KeyAndValueAreRead(data: bytes, at: nat, k: Key, f: Field, item: bytes, value: bytes)
    requires !f.Absent? && FieldFits(k, f) && item == [k] + value && value == ItemValue(f) && StandsAt(data, at, item)
    ensures ReadHead(data, at) == Some(HeadRead(0, k, at + 1))
    ensures ReadField(data, at + 1, k) == Some((f, at + |item|))
  {
    StandsSplit(data, at, [k], value);
    WrittenKeyIsRead(data, at, k);
    WrittenValueIsRead(data, at + 1, k, f);
  }

  lemma {:induction false} ItemIsKeyAndValue(k: Key, f: Field)
    requires !f.Absent?
    ensures Item(k, f) == [k] + ItemValue(f)
  {
  }

  lemma {:induction false} WrittenKeyIsRead(data: bytes, at: nat, k: Key)
    requires StandsAt(data, at, [k])
    ensures ReadHead(data, at) == Some(HeadRead(0, k, at + 1))
  {
    assert Head(0, k) == [k];
    WrittenHeadIsRead(data, at, 0, k);
  }

  lemma {:induction false} WrittenValueIsRead(data: bytes, at: nat, k: Key, f: Field)
    requires !f.Absent? && FieldFits(k, f) && StandsAt(data, at, ItemValue(f))
    ensures ReadField(data, at, k) == Some((f, at + |ItemValue(f)|))
  {
    if f.Number? {
      WrittenNumberIsRead(data, at, k, f);
    } else {
      WrittenContentIsRead(data, at, k, f);
    }
  }

  /** An item without its key. */
  function ItemValue(f: Field): bytes {
    match f
    case Absent => []
    case Number(value) => Head(0, value)
    case Text(content) => Head(3, |content|) + content
    case Binary(content) => Head(2, |content|) + content
  }

  lemma {:induction false} WrittenNumberIsRead(data: bytes, at: nat, k: Key, f: Field)
    requires f.Number? && FieldFits(k, f) && StandsAt(data, at, ItemValue(f))
    ensures ReadField(data, at, k) == Some((f, at + |ItemValue(f)|))
  {
    WrittenHeadIsRead(data, at, 0, f.value);
  }

  lemma {:induction false} WrittenContentIsRead(data: bytes, at: nat, k: Key, f: Field)
    requires !f.Absent? && !f.Number? && FieldFits(k, f) && StandsAt(data, at, ItemValue(f))
    ensures ReadField(data, at, k) == Some((f, at + |ItemValue(f)|))
  {
    var head := Head(MajorOf(f), |f.content|);
    StandsSplit(data, at, head, f.content);
    WrittenHeadIsRead(data, at, MajorOf(f), |f.content|);
  }

  /** The fields up to k are found already, the items above k are still to come. */
  ghost predicate Halfway(fields: Fields, found: Fields, k: nat) {
    && k <= FIELDS
    && (forall i :: 0 <= i < k ==> found[i] == fields[i])
    && (forall i :: k <= i < FIELDS ==> found[i] == Absent)
  }

  /** A written item is read as its field, whatever was read before. */
  ghost predicate ReadsBack(item: ItemRule, read: ReadRule) {
    forall data, at: nat, previous: Option<nat>, parsed, k: Key, f ::
      ReadsOne(item, read, data, at, previous, parsed, k, f)
  }

  ghost predicate ReadsOne(
    item: ItemRule, read: ReadRule, data: bytes, at: nat, previous: Option<nat>, parsed: Parsed, k: Key, f: Field)
  {
    (!f.Absent? && FieldFits(k, f) && StandsAt(data, at, item(k, f)) && (previous.Some? ==> previous.value < k))
    ==>
    read(data, Progress(at, 0, previous, parsed)) ==
      Some(Progress(at + |item(k, f)|, 0, Some(k), parsed.(fields := parsed.fields[k - 1 := f])))
  }

  lemma ItemsReadBack()
    ensures ReadsBack(Item, ParseItem)
  {
    forall data, at: nat, previous: Option<nat>, parsed, k: Key, f
      ensures ReadsOne(Item, ParseItem, data, at, previous, parsed, k, f)
    {
      if !f.Absent? && FieldFits(k, f) && StandsAt(data, at, Item(k, f)) && (previous.Some? ==> previous.value < k) {
        WrittenFieldIsRead(data, at, k, f);
        WrittenItemIsParsed(data, at, previous, parsed, k, f);
      }
    }
  }

  lemma WrittenItemIsParsed(data: bytes, at: nat, previous: Option<nat>, parsed: Parsed, k: Key, f: Field)
    requires ReadHead(data, at) == Some(HeadRead(0, k, at + 1))
    requires ReadField(data, at + 1, k) == Some((f, at + |Item(k, f)|))
    requires previous.Some? ==> previous.value < k
    ensures ParseItem(data, Progress(at, 0, previous, parsed)) ==
      Some(Progress(at + |Item(k, f)|, 0, Some(k), parsed.(fields := parsed.fields[k - 1 := f])))
  {
  }

  lemma RestOf(data: bytes, at: nat, a: bytes, b: bytes)
    requires at <= |data| && data[at..] == a + b
    ensures StandsAt(data, at, a) && data[at + |a|..] == b
  {
    assert data[at..at + |a|] == data[at..][..|a|];
    assert data[at + |a|..] == data[at..][|a|..];
  }

  lemma {:induction false} WrittenItemsAreRead(
    item: ItemRule, read: ReadRule, data: bytes, at: nat, k: nat, previous: Option<nat>,
    fields: Fields, found: Fields, unknown: nat)
    requires ReadsBack(item, read) && forall key: Key :: item(key, Absent) == []
    requires Fits(fields) && Halfway(fields, found, k) && (previous.Some? ==> previous.value <= k)
    requires at <= |data| && data[at..] == ItemsAbove(item, fields, k)
    ensures ParseItems(read, data, Progress(at, 0, previous, Parsed(found, unknown)), CountAbove(fields, k))
      == Some(Parsed(fields, unknown))
    decreases FIELDS - k
  {
    if k == FIELDS {
      assert found == fields;
    } else {
      var f := fields[k];
      var written := item(k + 1, f);
      RestOf(data, at, written, ItemsAbove(item, fields, k + 1));
      if f.Absent? {
        WrittenItemsAreRead(item, read, data, at, k + 1, previous, fields, found, unknown);
      } else {
        assert ReadsOne(item, read, data, at, previous, Parsed(found, unknown), k + 1, f);
        WrittenItemsAreRead(item, read, data, at + |written|, k + 1, Some(k + 1), fields, found[k := f], unknown);
      }
    }
  }

  /** Reading what was written gives every field back. */
  lemma WrittenIsRead(fields: Fields)
    requires Fits(fields)
    ensures Parse(Payload(fields)) == Some(Parsed(fields, 0))
  {
    PayloadHeadIsRead(fields);
    ItemsReadBack();
    WrittenItemsAreRead(
      Item, ParseItem, Payload(fields), ReadHead(Payload(fields), 0).value.next, 0, None, fields, NO_FIELDS, 0);
  }

  lemma PayloadHeadIsRead(fields: Fields)
    ensures
      var r := ReadHead(Payload(fields), 0);
      && r.Some? && r.value.major == 5 && r.value.value == CountAbove(fields, 0)
      && r.value.next <= |Payload(fields)| && Payload(fields)[r.value.next..] == ItemsAbove(Item, fields, 0)
  {
    var head, items := Head(5, CountAbove(fields, 0)), ItemsAbove(Item, fields, 0);
    StandsFirst(head, items);
    WrittenHeadIsRead(head + items, 0, 5, CountAbove(fields, 0));
  }

  lemma StandsFirst(a: bytes, b: bytes)
    ensures StandsAt(a + b, 0, a) && (a + b)[|a|..] == b
  {
  }

  /** Every field of a valid view comes back; a creation time it does not claim to have
      is not written and comes back as 0. */
  lemma ViewRoundTrip(v: View)
    requires ValidView(v)
    ensures Parse(Payload(v.fields)).Some?
    ensures View(Parse(Payload(v.fields)).value.fields, 0) == v.(idleTime := 0)
  {
    WrittenIsRead(v.fields);
  }

  lemma PayloadIsInjective(a: Fields, b: Fields)
    requires Fits(a) && Fits(b) && Payload(a) == Payload(b)
    ensures a == b
  {
    WrittenIsRead(a);
    WrittenIsRead(b);
  }

  // ------------------------------------------------------- read is as written

  lemma ReadFieldIsWritten(data: bytes, at: nat, k: Key)
    requires ReadHead(data, at) == Some(HeadRead(0, k, at + 1)) && ReadField(data, at + 1, k).Some?
    ensures
      var (f, next) := ReadField(data, at + 1, k).value;
      && !f.Absent? && FieldFits(k, f) && next == at + |Item(k, f)| <= |data|
      && data[at..next] == Item(k, f)
  {
    var (f, next) := ReadField(data, at + 1, k).value;
    ReadHeadIsWritten(data, at);
    ReadHeadIsWritten(data, at + 1);
    var head := ReadHead(data, at + 1).value;
    assert Head(0, k) == [k] && data[at..at + 1] == [k];
    assert data[at..next] == data[at..at + 1] + data[at + 1..head.next] + data[head.next..next];
  }

  function Reached(p: Progress): nat {
    if p.previous.Some? then p.previous.value else 0
  }

  /** The reader has keys up to some point, and nothing above it. */
  ghost predicate InOrder(p: Progress) {
    && (p.previous.Some? ==> 1 <= p.previous.value <= FIELDS)
    && forall i :: Reached(p) <= i < FIELDS ==> p.parsed.fields[i] == Absent
  }

  /** A known item that was read: one field, written as the writer would. */
  ghost predicate WritesOne(item: ItemRule, read: ReadRule, data: bytes, p: Progress) {
    (p.at <= |data| && InOrder(p) && read(data, p).Some?)
    ==>
    var q := read(data, p).value;
    && p.parsed.unknown <= q.parsed.unknown
    && (q.parsed.unknown == p.parsed.unknown ==>
         && InOrder(q) && Reached(p) < Reached(q) <= FIELDS
         && OneMore(p.parsed.fields, q.parsed.fields, Reached(q))
         && var written := item(Reached(q), q.parsed.fields[Reached(q) - 1]);
            q.at == p.at + |written| <= |data| && data[p.at..q.at] == written)
  }

  ghost predicate OneMore(before: Fields, after: Fields, k: Key) {
    var f := after[k - 1];
    after == before[k - 1 := f] && !f.Absent? && FieldFits(k, f)
  }

  ghost predicate WritesBack(item: ItemRule, read: ReadRule) {
    forall data, p :: WritesOne(item, read, data, p)
  }

  lemma ItemsWriteBack()
    ensures WritesBack(Item, ParseItem)
  {
    forall data, p ensures WritesOne(Item, ParseItem, data, p) {
      if p.at <= |data| && InOrder(p) && ParseItem(data, p).Some? {
        KnownItemIsWritten(data, p);
      }
    }
  }

  lemma KnownItemIsWritten(data: bytes, p: Progress)
    requires p.at <= |data| && InOrder(p) && ParseItem(data, p).Some?
    ensures WritesOne(Item, ParseItem, data, p)
  {
    ReadHeadIsWritten(data, p.at);
    var key := ReadHead(data, p.at).value.value;
    if 1 <= key <= FIELDS {
      assert |Head(0, key)| == 1;
      ReadFieldIsWritten(data, p.at, key);
    }
  }

  lemma {:induction false} UnknownOnlyGrows(read: ReadRule, data: bytes, p: Progress, count: nat)
    requires Follows(read) && ParseItems(read, data, p, count).Some?
    ensures p.parsed.unknown <= ParseItems(read, data, p, count).value.unknown
    decreases count
  {
    if count != 0 {
      var q := read(data, p).value;
      UnknownOnlyGrows(read, data, q, count - 1);
    }
  }

  /** Reading an item never forgets an unknown key. */
  ghost predicate Follows(read: ReadRule) {
    forall data, p :: read(data, p).Some? ==> p.parsed.unknown <= read(data, p).value.parsed.unknown
  }

  lemma {:induction false} AbsentItemsAreEmpty(item: ItemRule, fields: Fields, low: nat, high: nat)
    requires forall key: Key :: item(key, Absent) == []
    requires low <= high <= FIELDS && forall i :: low <= i < high ==> fields[i] == Absent
    ensures ItemsAbove(item, fields, low) == ItemsAbove(item, fields, high)
    ensures CountAbove(fields, low) == CountAbove(fields, high)
    decreases high - low
  {
    if low < high {
      AbsentItemsAreEmpty(item, fields, low + 1, high);
    }
  }

  /** What is known of the fields once the rest of the items has been accepted. */
  ghost predicate RestIs(item: ItemRule, data: bytes, p: Progress, count: nat, fields: Fields) {
    && p.at <= |data| && Reached(p) <= FIELDS
    && (forall i :: 0 <= i < Reached(p) ==> fields[i] == p.parsed.fields[i])
    && (forall i :: Reached(p) <= i < FIELDS ==> FieldFits(i + 1, fields[i]))
    && data[p.at..] == ItemsAbove(item, fields, Reached(p)) && count == CountAbove(fields, Reached(p))
  }

  lemma RestGrows(item: ItemRule, data: bytes, p: Progress, q: Progress, count: nat, fields: Fields)
    requires forall key: Key :: item(key, Absent) == []
    requires p.at <= q.at <= |data| && InOrder(p) && Reached(p) < Reached(q) <= FIELDS
    requires RestIs(item, data, q, count, fields) && OneMore(p.parsed.fields, q.parsed.fields, Reached(q))
    requires data[p.at..q.at] == item(Reached(q), q.parsed.fields[Reached(q) - 1])
    ensures RestIs(item, data, p, count + 1, fields)
  {
    AbsentItemsAreEmpty(item, fields, Reached(p), Reached(q) - 1);
    Split(data, p.at, q.at);
  }

  lemma Split(data: bytes, low: nat, high: nat)
    requires low <= high <= |data|
    ensures data[low..] == data[low..high] + data[high..]
  {
  }

  /** An accepted rest with known keys only is exactly the items above the last key. */
  lemma {:induction false} ReadItemsAreWritten(item: ItemRule, read: ReadRule, data: bytes, p: Progress, count: nat)
    requires WritesBack(item, read) && Follows(read) && forall key: Key :: item(key, Absent) == []
    requires p.at <= |data| && InOrder(p) && ParseItems(read, data, p, count).Some?
    requires ParseItems(read, data, p, count).value.unknown == p.parsed.unknown
    ensures RestIs(item, data, p, count, ParseItems(read, data, p, count).value.fields)
    decreases count
  {
    if count == 0 {
      AbsentItemsAreEmpty(item, p.parsed.fields, Reached(p), FIELDS);
      assert data[p.at..] == [];
    } else {
      var q := read(data, p).value;
      UnknownOnlyGrows(read, data, q, count - 1);
      assert WritesOne(item, read, data, p);
      ReadItemsAreWritten(item, read, data, q, count - 1);
      RestGrows(item, data, p, q, count - 1, ParseItems(read, data, q, count - 1).value.fields);
    }
  }

  /** An accepted payload whose keys are all known is the deterministic encoding
      of the fields read from it: writing them again gives the same bytes. */
  lemma ReadIsWritten(data: bytes)
    requires Parse(data).Some? && Parse(data).value.unknown == 0
    ensures Fits(Parse(data).value.fields) && Payload(Parse(data).value.fields) == data
  {
    ReadHeadIsWritten(data, 0);
    var head := ReadHead(data, 0).value;
    var p := Progress(head.next, 0, None, Parsed(NO_FIELDS, 0));
    ItemsWriteBack();
    ReadItemsAreWritten(Item, ParseItem, data, p, head.value);
    assert data == data[0..head.next] + data[head.next..];
    var fields := Parse(data).value.fields;
    assert forall i :: 0 <= i < FIELDS ==> FieldFits(i + 1, fields[i]);
  }

  /** So the reader accepts, without unknown keys, exactly the writer's outputs. */
  lemma ReaderAcceptsWriter(data: bytes, fields: Fields)
    ensures (Fits(fields) && Payload(fields) == data) <==> Parse(data) == Some(Parsed(fields, 0))
  {
    if Fits(fields) && Payload(fields) == data { WrittenIsRead(fields); }
    if Parse(data) == Some(Parsed(fields, 0)) { ReadIsWritten(data); }
  }
}
