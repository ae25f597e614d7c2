/** The META writer and reader: they fill a buffer and move a cursor. */
module MetaCodec {
  import opened Common
  import opened Bytes
  import opened Buffers
  import opened Cbor
  import opened CborCursor
  import opened Meta

  // ------------------------------------------------------------------- writing

  method ItemCount(fields: Fields) returns (count: nat)
    ensures count == CountAbove(fields, 0)
  {
    count := 0;
    var k := FIELDS;
    while k > 0
      invariant 0 <= k <= FIELDS && count == CountAbove(fields, k)
    {
      k := k - 1;
      if !fields[k].Absent? {
        count := count + 1;
      }
    }
  }

  method MeasureItem(f: Field) returns (size: nat)
    ensures forall k: Key :: size == |Item(k, f)|
  {
    match f
    case Absent =>
      size := 0;
    case Number(value) =>
      var head := HeadSize(value);
      size := 1 + head;
    case Text(content) =>
      var head := HeadSize(|content|);
      size := 1 + head + |content|;
    case Binary(content) =>
      var head := HeadSize(|content|);
      size := 1 + head + |content|;
  }

  /** The measured size is the size of what will be written. */
  method MeasurePayload(fields: Fields) returns (size: nat)
    ensures size == |Payload(fields)|
  {
    var count := ItemCount(fields);
    var head := HeadSize(count);
    size := 0;
    var k := FIELDS;
    while k > 0
      invariant 0 <= k <= FIELDS && size == |ItemsAbove(Item, fields, k)|
    {
      k := k - 1;
      var item := MeasureItem(fields[k]);
      size := size + item;
    }
    size := size + head;
  }

  method WriteItem(output: array<byte>, at: nat, k: Key, f: Field) returns (next: nat)
    requires at + |Item(k, f)| <= output.Length
    modifies output
    ensures next == at + |Item(k, f)|
    ensures output[..] == Splice(old(output[..]), at, Item(k, f))
  {
    if f.Absent? {
      return at;
    }
    ghost var before := output[..];
    var value := if f.Number? then f.value else |f.content|;
    output[at] := k;
    assert output[..] == Splice(before, at, [k]);
    next := WriteHead(output, at + 1, MajorOf(f), value);
    SpliceTwice(before, at, [k], Head(MajorOf(f), value));
    if !f.Number? {
      Copy(output, next, f.content);
      SpliceTwice(before, at, [k] + Head(MajorOf(f), value), f.content);
      next := next + |f.content|;
    }
  }

  /** Writing fills exactly the measured bytes, and no other byte of the buffer. */
  method WritePayload(output: array<byte>, at: nat, fields: Fields) returns (next: nat)
    requires at + |Payload(fields)| <= output.Length
    modifies output
    ensures next == at + |Payload(fields)|
    ensures output[..] == Splice(old(output[..]), at, Payload(fields))
  {
    var count := ItemCount(fields);
    ghost var items := ItemsOf(fields);
    ItemsAreConcatenated(fields, items, 0);
    next := WriteCounted(output, at, fields, count, items, Concatenated(items, 0));
  }

  ghost function ItemsOf(fields: Fields): (items: seq<bytes>)
    ensures |items| == FIELDS && forall k :: 0 <= k < FIELDS ==> items[k] == Item(k + 1, fields[k])
  {
    seq(FIELDS, k requires 0 <= k < FIELDS => Item(k + 1, fields[k]))
  }

  /** The head with the count, then the items. */
  method WriteCounted(
    output: array<byte>, at: nat, fields: Fields, count: nat, ghost items: seq<bytes>, ghost all: bytes) returns (next: nat)
    requires |items| == FIELDS && forall k :: 0 <= k < FIELDS ==> items[k] == Item(k + 1, fields[k])
    requires all == Concatenated(items, 0) && count <= FIELDS && at + |Head(5, count) + all| <= output.Length
    modifies output
    ensures next == at + |Head(5, count) + all|
    ensures output[..] == Splice(old(output[..]), at, Head(5, count) + all)
  {
    ghost var before := output[..];
    next := WriteHead(output, at, 5, count);
    next := WriteItems(output, next, fields, items);
    SpliceTwice(before, at, Head(5, count), all);
  }

  ghost function Concatenated(items: seq<bytes>, k: nat): bytes
    requires k <= |items|
    decreases |items| - k
  {
    if k == |items| then [] else items[k] + Concatenated(items, k + 1)
  }

  lemma {:induction false} ItemsAreConcatenated(fields: Fields, items: seq<bytes>, k: nat)
    requires |items| == FIELDS && k <= FIELDS
    requires forall i :: 0 <= i < FIELDS ==> items[i] == Item(i + 1, fields[i])
    ensures Concatenated(items, k) == ItemsAbove(Item, fields, k)
    decreases FIELDS - k
  {
    if k < FIELDS {
      ItemsAreConcatenated(fields, items, k + 1);
    }
  }

  method WriteItems(output: array<byte>, at: nat, fields: Fields, ghost items: seq<bytes>) returns (next: nat)
    requires |items| == FIELDS && forall k :: 0 <= k < FIELDS ==> items[k] == Item(k + 1, fields[k])
    requires at + |Concatenated(items, 0)| <= output.Length
    modifies output
    ensures next == at + |Concatenated(items, 0)|
    ensures output[..] == Splice(old(output[..]), at, Concatenated(items, 0))
  {
    ghost var before, all := output[..], Concatenated(items, 0);
    ghost var done: bytes := [];
    next := at;
    for k := 0 to FIELDS
      invariant next == at + |done| && all == done + Concatenated(items, k)
      invariant output[..] == Splice(before, at, done)
    {
      next, done := WriteNext(output, next, k + 1, fields[k], items[k], before, at, done, all, Concatenated(items, k + 1));
    }
  }

  /** One more item behind the part of `all` that is written already. */
  method WriteNext(
    output: array<byte>, next: nat, k: Key, f: Field, ghost item: bytes, ghost before: bytes, ghost at: nat,
    ghost done: bytes, ghost all: bytes, ghost rest: bytes) returns (end: nat, ghost more: bytes)
    requires next == at + |done| && at + |all| <= |before| == output.Length && item == Item(k, f)
    requires all == done + (item + rest) && output[..] == Splice(before, at, done)
    modifies output
    ensures more == done + item && all == more + rest && end == at + |more|
    ensures output[..] == Splice(before, at, more)
  {
    end := WriteItem(output, next, k, f);
    SpliceTwice(before, at, done, item);
    more := done + item;
  }

  // ------------------------------------------------------------------- reading

  method ParseField(cursor: Cursor, k: Key) returns (field: Option<Field>)
    requires cursor.Valid()
    modifies cursor
    ensures cursor.Valid() && cursor.visited == old(cursor.visited)
    ensures
      var spec := ReadField(cursor.data, old(cursor.at), k);
      if spec.Some? then field == Some(spec.value.0) && cursor.at == spec.value.1 else field.None?
  {
    var head := cursor.ReadHead();
    if head.None? {
      return None;
    }
    var (major, value) := head.value;
    if k == CREATION_TIME {
      return if major == 0 then Some(Number(value)) else None;
    }
    if (major != 3 && !(major == 2 && k == SOURCE_ID)) || value > Limit(k) {
      return None;
    }
    var content := cursor.Take(value);
    if content.None? {
      return None;
    }
    return Some(if major == 3 then Text(content.value) else Binary(content.value));
  }

  /** Read a payload: keys in strictly ascending order, unknown ones skipped. */
  method ParsePayload(data: bytes) returns (parsed: Option<Parsed>)
    ensures parsed == Parse(data)
  {
    var cursor := new Cursor(data);
    var head := cursor.ReadHead();
    if head.None? || head.value.0 != 5 || head.value.1 > MAX_MAP_ITEMS {
      return None;
    }
    parsed := ParseEntries(cursor, Progress(cursor.at, 0, None, Parsed(NO_FIELDS, 0)), head.value.1);
  }

  method ParseEntries(cursor: Cursor, start: Progress, count: nat) returns (parsed: Option<Parsed>)
    requires cursor.Valid() && start.at == cursor.at && start.visited == cursor.visited
    modifies cursor
    ensures parsed == ParseItems(ParseItem, cursor.data, start, count)
  {
    ghost var read: ReadRule, data := ParseItem, cursor.data;
    ghost var whole := ParseItems(read, data, start, count);
    var p := start;
    for index := 0 to count
      invariant cursor.Valid() && p.at == cursor.at && p.visited == cursor.visited
      invariant whole == ParseItems(read, data, p, count - index)
    {
      var step := ParseOne(cursor, p);
      assert step == read(data, p);
      if step.None? {
        return None;
      }
      p := step.value;
    }
    return if cursor.at == |cursor.data| then Some(p.parsed) else None;
  }

  method ParseOne(cursor: Cursor, p: Progress) returns (step: Option<Progress>)
    requires cursor.Valid() && p.at == cursor.at && p.visited == cursor.visited
    modifies cursor
    ensures cursor.Valid() && step == ParseItem(cursor.data, p)
    ensures step.Some? ==> step.value.at == cursor.at && step.value.visited == cursor.visited
  {
    var head := cursor.ReadHead();
    if head.None? || head.value.0 != 0 || (p.previous.Some? && head.value.1 <= p.previous.value) {
      return None;
    }
    var key := head.value.1;
    if 1 <= key <= FIELDS {
      var field := ParseField(cursor, key);
      if field.None? {
        return None;
      }
      return Some(Progress(cursor.at, cursor.visited, Some(key), p.parsed.(fields := p.parsed.fields[key - 1 := field.value])));
    }
    var skipped := cursor.SkipItem(1);
    if !skipped {
      return None;
    }
    return Some(Progress(cursor.at, cursor.visited, Some(key), p.parsed.(unknown := p.parsed.unknown + 1)));
  }
}
