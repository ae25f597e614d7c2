/** The cursor that reads CBOR from a payload. */
module CborCursor {
  import opened Common
  import opened Bytes
  import opened Cbor

  class Cursor {
    const data: bytes
    var at: nat
    var visited: nat

    ghost predicate Valid()
      reads this
    {
      at <= |data| && visited <= MAX_ITEMS
    }

    constructor (data: bytes)
      ensures this.data == data && at == 0 && visited == 0 && Valid()
    {
      this.data, at, visited := data, 0, 0;
    }

    /** Hand out the next `size` bytes and move past them. */
    method Take(size: nat) returns (taken: Option<bytes>)
      requires Valid()
      modifies this`at
      ensures Valid()
      ensures if size > |data| - old(at) then taken.None? && at == old(at)
              else at == old(at) + size && taken == Some(data[old(at)..at])
    {
      if size > |data| - at {
        return None;
      }
      taken := Some(data[at..at + size]);
      at := at + size;
    }

    method ReadArgument(additional: nat) returns (value: Option<Argument>)
      requires Valid()
      modifies this`at
      ensures Valid()
      ensures
        var spec := Cbor.ReadArgument(data, old(at), additional);
        if spec.Some? then value == Some(spec.value.0) && at == spec.value.1 else value.None?
    {
      if additional < 24 {
        return Some(additional);
      }
      if additional > 27 {
        return None;
      }
      var width := if additional == 24 then 1 else if additional == 25 then 2 else if additional == 26 then 4 else 8;
      var least := if additional == 24 then 24 else if additional == 25 then UINT8_MAX + 1
                   else if additional == 26 then UINT16_MAX + 1 else UINT32_MAX + 1;
      var taken := Take(width);
      if taken.None? {
        return None;
      }
      WideFits(taken.value);
      var number := FromBigEndian(taken.value);
      return if number < least then None else Some(number);
    }

    method ReadHead() returns (head: Option<(Major, Argument)>)
      requires Valid()
      modifies this`at
      ensures Valid()
      ensures
        var spec := Cbor.ReadHead(data, old(at));
        if spec.Some? then head == Some((spec.value.major, spec.value.value)) && at == spec.value.next
        else head.None?
    {
      if at == |data| {
        return None;
      }
      var initial := data[at];
      at := at + 1;
      var value := ReadArgument(initial % 32);
      return if value.None? then None else Some((initial / 32, value.value));
    }

    /** Skip one item, recursing into arrays, maps and tags. */
    method SkipItem(depth: nat) returns (ok: bool)
      requires Valid()
      modifies this
      ensures Valid()
      ensures
        var spec := Skip(data, old(at), depth, old(visited));
        ok == spec.Some? && (ok ==> Skipped(at, visited) == spec.value)
      decreases MAX_ITEMS + 1 - visited, 0
    {
      if depth > MAX_DEPTH || at == |data| || visited >= MAX_ITEMS {
        return false;
      }
      visited := visited + 1;
      var initial := data[at];
      at := at + 1;
      var major, additional := initial / 32, initial % 32;
      if major == 7 {
        ok := SkipSimpleValue(additional);
        return;
      }
      var argument := ReadArgument(additional);
      if argument.None? {
        return false;
      }
      var value := argument.value;
      if major <= 1 {
        return true;
      }
      if major <= 3 {
        if value > MAX_STRING {
          return false;
        }
        var taken := Take(value);
        return taken.Some?;
      }
      if (major == 4 && value > MAX_ITEMS) || (major == 5 && value > MAX_ITEMS / 2) {
        return false;
      }
      ok := SkipItems(depth + 1, if major == 4 then value else if major == 5 then 2 * value else 1);
    }

    method SkipSimpleValue(additional: nat) returns (ok: bool)
      requires Valid()
      modifies this`at
      ensures Valid()
      ensures
        var spec := SkipSimple(data, old(at), additional);
        ok == spec.Some? && (ok ==> at == spec.value)
    {
      if SimpleWidth(additional).None? {
        return false;
      }
      var taken := Take(SimpleWidth(additional).value);
      return taken.Some? && (additional == 24 ==> taken.value[0] >= 32);
    }

    method SkipItems(depth: nat, count: nat) returns (ok: bool)
      requires Valid()
      modifies this
      ensures Valid()
      ensures
        var spec := SkipMany(data, old(at), depth, old(visited), count);
        ok == spec.Some? && (ok ==> Skipped(at, visited) == spec.value)
      decreases MAX_ITEMS + 1 - visited, count + 1
    {
      ghost var goal := SkipMany(data, at, depth, visited, count);
      for index := 0 to count
        invariant Valid() && old(visited) <= visited
        invariant goal == SkipMany(data, at, depth, visited, count - index)
      {
        var skipped := SkipItem(depth);
        if !skipped {
          return false;
        }
      }
      return true;
    }
  }
}
