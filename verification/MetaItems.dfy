/** META payloads as CBOR maps: which maps the reader accepts, unknown keys and all, and
  what it makes of them. */
module MetaItems {
  import opened Common
  import opened Bytes
  import opened Cbor
  import opened CborItems
  import Utf8
  import Meta

  /** One key of the map and its value. */
  datatype Entry = Entry(key: Argument, item: Data)

  predicate IsText(d: Data) {
    d.String? && d.text
  }

  predicate IsKnown(e: Entry) {
    1 <= e.key <= 7
  }

  /** Each known key asks for its own kind and size; any other may have anything that can
      be skipped. */
  predicate Admitted(e: Entry) {
    if e.key == 5 then e.item.Number? && !e.item.negative
    else if e.key == 1 || e.key == 3 then IsText(e.item) && |e.item.content| <= 255
    else if e.key == 2 || e.key == 4 then IsText(e.item) && |e.item.content| <= 127
    else if e.key == 6 then e.item.String? && |e.item.content| <= 1024
    else if e.key == 7 then IsText(e.item) && |e.item.content| <= 4096
    else Sound(e.item) && Height(e.item) <= 8 && Short(e.item)
  }

  function FieldOf(e: Entry): Meta.Field
    requires Admitted(e) && IsKnown(e)
  {
    match e.item
    case Number(_, value) => Meta.Number(value)
    case String(text, content) => if text then Meta.Text(content) else Meta.Binary(content)
  }

  function SkippedNodes(e: Entry): nat {
    if IsKnown(e) then 0 else Nodes(e.item)
  }

  function AllSkippedNodes(es: seq<Entry>): nat {
    if es == [] then 0 else SkippedNodes(es[0]) + AllSkippedNodes(es[1..])
  }

  function Unknown(es: seq<Entry>): nat {
    if es == [] then 0 else (if IsKnown(es[0]) then 0 else 1) + Unknown(es[1..])
  }

  /** At most 64 keys, strictly ascending, and at most 256 items to skip in all. */
  ghost predicate Acceptable(es: seq<Entry>) {
    && |es| <= 64
    && (forall i :: 0 <= i < |es| ==> Admitted(es[i]))
    && (forall i, j :: 0 <= i < j < |es| ==> es[i].key < es[j].key)
    && AllSkippedNodes(es) <= 256
  }

  predicate HasKey(es: seq<Entry>, k: Meta.Key) {
    exists i :: 0 <= i < |es| && es[i].key == k
  }

  /** A known key that is there has its value, one that is not is absent, and the unknown
      ones are counted. */
  ghost predicate Tells(es: seq<Entry>, parsed: Meta.Parsed) {
    TellsFrom(Meta.Parsed(Meta.NO_FIELDS, 0), es, parsed)
  }

  /** What the entries change in what was read before them. */
  ghost predicate TellsFrom(before: Meta.Parsed, es: seq<Entry>, after: Meta.Parsed) {
    && (forall i :: 0 <= i < |es| && Admitted(es[i]) && IsKnown(es[i]) ==>
          after.fields[es[i].key - 1] == FieldOf(es[i]))
    && (forall k: Meta.Key :: !HasKey(es, k) ==> after.fields[k - 1] == before.fields[k - 1])
    && after.unknown == before.unknown + Unknown(es)
  }

  // ------------------------------------------------------------------- the bytes

  function EntryBytes(e: Entry): (s: bytes)
    requires Admitted(e)
  {
    Head(0, e.key) + Encode(e.item)
  }

  function EntriesBytes(es: seq<Entry>): bytes
    requires forall i :: 0 <= i < |es| ==> Admitted(es[i])
  {
    if es == [] then [] else EntryBytes(es[0]) + EntriesBytes(es[1..])
  }

  /** The map with these entries, as one CBOR item. */
  function Flat(es: seq<Entry>): List {
    if es == [] then End else Then(Number(false, es[0].key), Then(es[0].item, Flat(es[1..])))
  }

  lemma {:induction false} PairIsEntry(e: Entry, rest: List)
    requires Admitted(e) && AllSound(rest)
    ensures
      var pair := Then(Number(false, e.key), Then(e.item, rest));
      AllSound(pair) && Length(pair) == 2 + Length(rest) && EncodeAll(pair) == EntryBytes(e) + EncodeAll(rest)
  {
    var tail := Then(e.item, rest);
    assert EncodeAll(tail) == Encode(e.item) + EncodeAll(rest);
    assert EncodeAll(Then(Number(false, e.key), tail)) == Head(0, e.key) + EncodeAll(tail);
  }

  lemma {:induction false} FlatIsEntries(es: seq<Entry>)
    requires forall i :: 0 <= i < |es| ==> Admitted(es[i])
    ensures AllSound(Flat(es)) && Length(Flat(es)) == 2 * |es| && EncodeAll(Flat(es)) == EntriesBytes(es)
  {
    if es != [] {
      FlatIsEntries(es[1..]);
      PairIsEntry(es[0], Flat(es[1..]));
    }
  }

  // ---------------------------------------------------------------- one entry

  /** The reader may go on to this entry. */
  predicate Takes(p: Meta.Progress, e: Entry) {
    && Admitted(e) && (p.previous.Some? ==> p.previous.value < e.key)
    && p.visited <= 256 && p.visited + SkippedNodes(e) <= 256
  }

  function After(p: Meta.Progress, e: Entry): Meta.Progress
    requires Admitted(e)
  {
    Meta.Progress(
      p.at + |EntryBytes(e)|, p.visited + SkippedNodes(e), Some(e.key),
      if IsKnown(e) then p.parsed.(fields := p.parsed.fields[e.key - 1 := FieldOf(e)])
      else p.parsed.(unknown := p.parsed.unknown + 1))
  }

  lemma {:induction false} KnownIsRead(data: bytes, at: nat, e: Entry)
    requires Admitted(e) && IsKnown(e) && StandsAt(data, at, Encode(e.item))
    ensures Meta.ReadField(data, at, e.key) == Some((FieldOf(e), at + |Encode(e.item)|))
  {
    match e.item
    case Number(_, value) => WrittenHeadIsRead(data, at, 0, value);
    case String(text, content) =>
      SplitStands(data, at, Head(if text then 3 else 2, |content|), content);
      WrittenHeadIsRead(data, at, if text then 3 else 2, |content|);
  }

  lemma {:induction false} KeyIsRead(data: bytes, p: Meta.Progress, e: Entry) returns (at: nat)
    requires Admitted(e) && StandsAt(data, p.at, EntryBytes(e))
    ensures ReadHead(data, p.at) == Some(HeadRead(0, e.key, at))
    ensures StandsAt(data, at, Encode(e.item)) && at + |Encode(e.item)| == p.at + |EntryBytes(e)|
  {
    at := p.at + |Head(0, e.key)|;
    SplitStands(data, p.at, Head(0, e.key), Encode(e.item));
    WrittenHeadIsRead(data, p.at, 0, e.key);
  }

  lemma {:induction false} KnownEntryIsRead(data: bytes, p: Meta.Progress, e: Entry, at: nat)
    requires Takes(p, e) && IsKnown(e) && ReadHead(data, p.at) == Some(HeadRead(0, e.key, at))
    requires StandsAt(data, at, Encode(e.item)) && at + |Encode(e.item)| == p.at + |EntryBytes(e)|
    ensures Meta.ParseItem(data, p) == Some(After(p, e))
  {
    KnownIsRead(data, at, e);
  }

  lemma {:induction false} SkippedEntryIsRead(data: bytes, p: Meta.Progress, e: Entry, at: nat, end: nat)
    requires Takes(p, e) && !IsKnown(e) && ReadHead(data, p.at) == Some(HeadRead(0, e.key, at))
    requires Skip(data, at, 1, p.visited) == Some(Skipped(end, p.visited + Nodes(e.item)))
    requires end == p.at + |EntryBytes(e)|
    ensures Meta.ParseItem(data, p) == Some(After(p, e))
  {
  }

  lemma {:induction false} UnknownIsSkipped(data: bytes, at: nat, e: Entry, visited: nat, end: nat)
    requires Admitted(e) && !IsKnown(e) && visited + Nodes(e.item) <= 256
    requires StandsAt(data, at, Encode(e.item)) && at + |Encode(e.item)| == end
    ensures Skip(data, at, 1, visited) == Some(Skipped(end, visited + Nodes(e.item)))
  {
    EncodingIsSkipped(data, at, e.item, 1, visited);
  }

  lemma {:induction false} UnknownEntryIsRead(data: bytes, p: Meta.Progress, e: Entry, at: nat, end: nat)
    requires Takes(p, e) && !IsKnown(e) && ReadHead(data, p.at) == Some(HeadRead(0, e.key, at))
    requires StandsAt(data, at, Encode(e.item)) && at + |Encode(e.item)| == end == p.at + |EntryBytes(e)|
    ensures Meta.ParseItem(data, p) == Some(After(p, e))
  {
    UnknownIsSkipped(data, at, e, p.visited, end);
    SkippedEntryIsRead(data, p, e, at, end);
  }

  lemma {:induction false} EntryIsRead(data: bytes, p: Meta.Progress, e: Entry)
    requires Takes(p, e) && StandsAt(data, p.at, EntryBytes(e))
    ensures Meta.ParseItem(data, p) == Some(After(p, e))
  {
    var at := KeyIsRead(data, p, e);
    if IsKnown(e) { KnownEntryIsRead(data, p, e, at); } else { UnknownEntryIsRead(data, p, e, at, p.at + |EntryBytes(e)|); }
  }

  lemma {:induction false} ReadIsKnown(data: bytes, at: nat, k: Meta.Key) returns (e: Entry)
    requires Meta.ReadField(data, at, k).Some?
    ensures e.key == k && Admitted(e) && StandsAt(data, at, Encode(e.item))
  {
    var head := ReadHead(data, at).value;
    ReadHeadIsWritten(data, at);
    if k == 5 {
      e := Entry(k, Number(false, head.value));
    } else {
      var content := data[head.next..head.next + head.value];
      SplitStands(data, at, Head(head.major, head.value), content);
      e := Entry(k, String(head.major == 3, content));
    }
  }

  lemma {:induction false} ReadIsEntry(data: bytes, p: Meta.Progress) returns (e: Entry)
    requires p.visited <= 256 && Meta.ParseItem(data, p).Some?
    ensures Takes(p, e) && StandsAt(data, p.at, EntryBytes(e)) && Meta.ParseItem(data, p) == Some(After(p, e))
  {
    var head := ReadHead(data, p.at).value;
    ReadHeadIsWritten(data, p.at);
    if 1 <= head.value <= 7 {
      e := ReadIsKnown(data, head.next, head.value);
    } else {
      var item := SkippedIsEncoding(data, head.next, 1, p.visited);
      e := Entry(head.value, item);
    }
    SplitStands(data, p.at, Head(0, e.key), Encode(e.item));
    EntryIsRead(data, p, e);
  }

  // --------------------------------------------------------------- all entries

  /** The reader takes an entry exactly as it stands there. */
  ghost predicate ReadsEntries(data: bytes, read: Meta.ReadRule) {
    && (forall p, e :: ReadsEntry(data, read, p, e))
    && (forall p :: FindsEntry(data, read, p))
  }

  ghost predicate ReadsEntry(data: bytes, read: Meta.ReadRule, p: Meta.Progress, e: Entry) {
    Takes(p, e) && StandsAt(data, p.at, EntryBytes(e)) ==> read(data, p) == Some(After(p, e))
  }

  ghost predicate FindsEntry(data: bytes, read: Meta.ReadRule, p: Meta.Progress) {
    p.visited <= 256 && read(data, p).Some? ==>
    exists e :: Takes(p, e) && StandsAt(data, p.at, EntryBytes(e)) && read(data, p) == Some(After(p, e))
  }

  lemma {:induction false} ParserReadsEntries(data: bytes)
    ensures ReadsEntries(data, Meta.ParseItem)
  {
    forall p, e ensures ReadsEntry(data, Meta.ParseItem, p, e) {
      if Takes(p, e) && StandsAt(data, p.at, EntryBytes(e)) { EntryIsRead(data, p, e); }
    }
    forall p ensures FindsEntry(data, Meta.ParseItem, p) {
      if p.visited <= 256 && Meta.ParseItem(data, p).Some? {
        var e := ReadIsEntry(data, p);
      }
    }
  }

  predicate TakesAll(p: Meta.Progress, es: seq<Entry>)
    decreases |es|
  {
    es != [] ==> Takes(p, es[0]) && TakesAll(After(p, es[0]), es[1..])
  }

  function AfterAll(p: Meta.Progress, es: seq<Entry>): Meta.Progress
    requires TakesAll(p, es)
    decreases |es|
  {
    if es == [] then p else AfterAll(After(p, es[0]), es[1..])
  }

  lemma {:induction false} EntriesAreRead(data: bytes, read: Meta.ReadRule, p: Meta.Progress, es: seq<Entry>)
    requires ReadsEntries(data, read) && TakesAll(p, es) && p.at <= |data|
    requires forall i :: 0 <= i < |es| ==> Admitted(es[i])
    requires data[p.at..] == EntriesBytes(es)
    ensures Meta.ParseItems(read, data, p, |es|) == Some(AfterAll(p, es).parsed)
    decreases |es|
  {
    if es != [] {
      var q := After(p, es[0]);
      Meta.RestOf(data, p.at, EntryBytes(es[0]), EntriesBytes(es[1..]));
      assert ReadsEntry(data, read, p, es[0]);
      EntriesAreRead(data, read, q, es[1..]);
    }
  }

  lemma {:induction false} ReadAreEntries(data: bytes, read: Meta.ReadRule, p: Meta.Progress, count: nat)
    returns (es: seq<Entry>)
    requires ReadsEntries(data, read) && p.visited <= 256 && p.at <= |data|
    requires Meta.ParseItems(read, data, p, count).Some?
    ensures |es| == count && TakesAll(p, es) && forall i :: 0 <= i < |es| ==> Admitted(es[i])
    ensures data[p.at..] == EntriesBytes(es)
    decreases count
  {
    if count == 0 {
      es := [];
    } else {
      assert FindsEntry(data, read, p);
      var e :| Takes(p, e) && StandsAt(data, p.at, EntryBytes(e)) && read(data, p) == Some(After(p, e));
      var rest := ReadAreEntries(data, read, After(p, e), count - 1);
      es := [e] + rest;
      assert es[1..] == rest;
      assert data[p.at..] == data[p.at..p.at + |EntryBytes(e)|] + data[p.at + |EntryBytes(e)|..];
    }
  }

  // ------------------------------------------------- which maps and what they tell

  /** From this place on, the reader takes exactly entries in order within the limits. */
  lemma {:induction false} TakesAllExactly(p: Meta.Progress, es: seq<Entry>)
    requires p.visited <= 256
    ensures TakesAll(p, es) <==>
      && (forall i :: 0 <= i < |es| ==> Admitted(es[i]))
      && (forall i :: 0 <= i < |es| && p.previous.Some? ==> p.previous.value < es[i].key)
      && (forall i, j :: 0 <= i < j < |es| ==> es[i].key < es[j].key)
      && p.visited + AllSkippedNodes(es) <= 256
    decreases |es|
  {
    if es != [] && Takes(p, es[0]) {
      var rest := es[1..];
      TakesAllExactly(After(p, es[0]), rest);
      assert forall i :: 0 < i < |es| ==> es[i] == rest[i - 1];
      assert forall i :: 0 <= i < |rest| ==> rest[i] == es[i + 1];
    }
  }

  lemma {:induction false} KeysOfRest(es: seq<Entry>, k: Meta.Key)
    requires es != []
    ensures HasKey(es, k) <==> es[0].key == k || HasKey(es[1..], k)
  {
    assert forall i :: 0 < i < |es| ==> es[i] == es[1..][i - 1];
    if HasKey(es[1..], k) {
      var i :| 0 <= i < |es[1..]| && es[1..][i].key == k;
      assert es[i + 1].key == k;
    }
  }

  lemma {:induction false} TakenIsTold(p: Meta.Progress, es: seq<Entry>)
    requires p.visited <= 256 && TakesAll(p, es)
    ensures TellsFrom(p.parsed, es, AfterAll(p, es).parsed)
    decreases |es|
  {
    if es != [] {
      var q, rest, told := After(p, es[0]), es[1..], AfterAll(p, es).parsed;
      TakenIsTold(q, rest);
      TakesAllExactly(p, es);
      FirstIsTold(p, es, q, told);
    }
  }

  lemma {:induction false} FirstIsTold(p: Meta.Progress, es: seq<Entry>, q: Meta.Progress, told: Meta.Parsed)
    requires es != [] && Admitted(es[0]) && q == After(p, es[0]) && TellsFrom(q.parsed, es[1..], told)
    requires forall j :: 0 < j < |es| ==> es[0].key < es[j].key
    ensures TellsFrom(p.parsed, es, told)
  {
    var rest := es[1..];
    assert forall i :: 0 < i < |es| ==> es[i] == rest[i - 1];
    forall k: Meta.Key | !HasKey(es, k) ensures told.fields[k - 1] == p.parsed.fields[k - 1] {
      KeysOfRest(es, k);
    }
    if IsKnown(es[0]) {
      assert !HasKey(rest, es[0].key);
    }
  }

  lemma {:induction false} ToldOnce(es: seq<Entry>, a: Meta.Parsed, b: Meta.Parsed)
    requires Acceptable(es) && Tells(es, a) && Tells(es, b)
    ensures a == b
  {
    forall i | 0 <= i < 7 ensures a.fields[i] == b.fields[i] {
      var k: Meta.Key := i + 1;
      if HasKey(es, k) {
        var j :| 0 <= j < |es| && es[j].key == k;
        assert IsKnown(es[j]) && Admitted(es[j]);
      }
    }
    assert a.fields == b.fields;
  }

  ghost predicate IsMapOf(data: bytes, es: seq<Entry>) {
    Acceptable(es) && data == Head(5, |es|) + EntriesBytes(es)
  }

  lemma {:induction false} MapIsRead(data: bytes, es: seq<Entry>)
    requires IsMapOf(data, es)
    ensures Meta.Parse(data).Some? && Tells(es, Meta.Parse(data).value)
  {
    var p := Meta.Progress(|Head(5, |es|)|, 0, None, Meta.Parsed(Meta.NO_FIELDS, 0));
    Meta.StandsFirst(Head(5, |es|), EntriesBytes(es));
    WrittenHeadIsRead(data, 0, 5, |es|);
    TakesAllExactly(p, es);
    ParserReadsEntries(data);
    EntriesAreRead(data, Meta.ParseItem, p, es);
    TakenIsTold(p, es);
  }

  lemma {:induction false} ReadIsMap(data: bytes) returns (es: seq<Entry>)
    requires Meta.Parse(data).Some?
    ensures IsMapOf(data, es)
  {
    var head := ReadHead(data, 0).value;
    ReadHeadIsWritten(data, 0);
    var p := Meta.Progress(head.next, 0, None, Meta.Parsed(Meta.NO_FIELDS, 0));
    es := RestIsEntries(data, p, head.value);
    assert data == data[0..head.next] + data[head.next..];
  }

  lemma {:induction false} RestIsEntries(data: bytes, p: Meta.Progress, count: nat) returns (es: seq<Entry>)
    requires p.visited == 0 && p.previous == None && p.at <= |data| && count <= 64
    requires Meta.ParseItems(Meta.ParseItem, data, p, count).Some?
    ensures Acceptable(es) && |es| == count && data[p.at..] == EntriesBytes(es)
  {
    ParserReadsEntries(data);
    es := ReadAreEntries(data, Meta.ParseItem, p, count);
    TakesAllExactly(p, es);
  }

  /** The reader accepts exactly the maps within the rules, and reads from each what its
      entries tell. */
  lemma {:induction false} ReadsExactlyMaps(data: bytes, parsed: Meta.Parsed)
    ensures Meta.Parse(data) == Some(parsed) <==> exists es :: IsMapOf(data, es) && Tells(es, parsed)
  {
    if Meta.Parse(data).Some? {
      var es := ReadIsMap(data);
      MapIsRead(data, es);
    }
    if es :| IsMapOf(data, es) && Tells(es, parsed) {
      MapIsRead(data, es);
      ToldOnce(es, parsed, Meta.Parse(data).value);
    }
  }

  lemma {:induction false} MapEncoding(l: List, n: nat)
    requires AllSound(l) && Length(l) == 2 * n && n <= 64
    ensures Sound(Holding(MapOf, l)) && Encode(Holding(MapOf, l)) == Head(5, n) + EncodeAll(l)
  {
  }

  /** Such a payload is the encoding of one map, in the sense of RFC 8949. */
  lemma {:induction false} MapIsOneItem(data: bytes, es: seq<Entry>)
    requires IsMapOf(data, es)
    ensures Sound(Holding(MapOf, Flat(es))) && data == Encode(Holding(MapOf, Flat(es)))
  {
    FlatIsEntries(es);
    MapEncoding(Flat(es), |es|);
  }

  /** What was read passes the check on texts exactly when every text under a known key is
      a sequence of encoded scalar values; texts under unknown keys are not looked at. */
  lemma {:induction false} ValidExactlyWithValidTexts(es: seq<Entry>, parsed: Meta.Parsed)
    requires Acceptable(es) && Tells(es, parsed)
    ensures Meta.ValidView(Meta.View(parsed.fields, 0)) <==>
      forall i :: 0 <= i < |es| && IsKnown(es[i]) && IsText(es[i].item) ==> Utf8.WellFormed(es[i].item.content)
  {
    forall i | 0 <= i < 7
      ensures Meta.FieldFits(i + 1, parsed.fields[i])
      ensures parsed.fields[i].Absent? || exists j :: 0 <= j < |es| && es[j].key == i + 1 && FieldOf(es[j]) == parsed.fields[i]
    {
      var k: Meta.Key := i + 1;
      if HasKey(es, k) {
        var j :| 0 <= j < |es| && es[j].key == k;
        assert IsKnown(es[j]) && Admitted(es[j]);
      }
    }
    assert Meta.Fits(parsed.fields);
    Meta.TotalAlwaysFits(parsed.fields);
    if Meta.ValidView(Meta.View(parsed.fields, 0)) {
      forall i | 0 <= i < |es| && IsKnown(es[i]) && IsText(es[i].item)
        ensures Utf8.WellFormed(es[i].item.content)
      {
        assert Admitted(es[i]);
        assert parsed.fields[es[i].key - 1] == FieldOf(es[i]);
      }
    }
  }
}
