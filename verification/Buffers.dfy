/** Copying and moving bytes inside a buffer. */
module Buffers {
  import opened Bytes

  method Copy(output: array<byte>, at: nat, content: bytes)
    requires at + |content| <= output.Length
    modifies output
    ensures output[..] == Splice(old(output[..]), at, content)
  {
    ghost var before := output[..];
    assert Splice(before, at, content[..0]) == before;
    for i := 0 to |content|
      invariant output[..] == Splice(before, at, content[..i])
    {
      SpliceOneMore(before, at, content, i);
      output[at + i] := content[i];
    }
    assert content[..|content|] == content;
  }

  /** Move [first, size) up by `gap`, last byte first, as the regions overlap. */
  method MoveUp(buffer: array<byte>, first: nat, size: nat, gap: nat)
    requires first <= size && size + gap <= buffer.Length
    modifies buffer
    ensures buffer[..] == Splice(old(buffer[..]), first + gap, old(buffer[first..size]))
  {
    ghost var before := buffer[..];
    var i := size;
    while i > first
      invariant first <= i <= size
      invariant buffer[..i] == before[..i]
      invariant buffer[i + gap..size + gap] == before[i..size]
      invariant buffer[..first + gap] == before[..first + gap] && buffer[size + gap..] == before[size + gap..]
    {
      i := i - 1;
      MoveOne(buffer, i, gap, before, first, size);
    }
    assert buffer[..] == buffer[..first + gap] + buffer[first + gap..size + gap] + buffer[size + gap..];
  }

  method MoveOne(buffer: array<byte>, i: nat, gap: nat, ghost before: bytes, ghost first: nat, ghost size: nat)
    requires first <= i < size && size + gap <= buffer.Length == |before|
    requires buffer[..i + 1] == before[..i + 1] && buffer[i + 1 + gap..size + gap] == before[i + 1..size]
    requires buffer[..first + gap] == before[..first + gap] && buffer[size + gap..] == before[size + gap..]
    modifies buffer
    ensures buffer[..i] == before[..i] && buffer[i + gap..size + gap] == before[i..size]
    ensures buffer[..first + gap] == before[..first + gap] && buffer[size + gap..] == before[size + gap..]
  {
    assert buffer[i] == buffer[..i + 1][i] == before[i];
    buffer[i + gap] := buffer[i];
    assert buffer[i + gap..size + gap] == [before[i]] + buffer[i + 1 + gap..size + gap];
    assert before[i..size] == [before[i]] + before[i + 1..size];
  }
}
