/** Writing big-endian fields and byte runs into a caller's buffer, front to back. */
module WireBuffer {
  import opened Bytes

  /** `after` is `before` with `data` written at `at`: all before it, and all behind it, is kept. */
  predicate WrittenAt(before: seq<U8>, after: seq<U8>, at: nat, data: seq<U8>) {
    && |after| == |before| && at + |data| <= |before|
    && after[..at + |data|] == before[..at] + data
    && (forall i :: at + |data| <= i < |before| ==> after[i] == before[i])
  }

  method Write8(buffer: array<U8>, at: nat, v: U8)
    requires at < buffer.Length
    modifies buffer
    ensures WrittenAt(old(buffer[..]), buffer[..], at, [v])
  {
    ghost var before := buffer[..];
    buffer[at] := v;
    assert buffer[..] == before[..at] + [v] + before[at + 1..];
  }

  /** write_u16_be. */
  method Write16(buffer: array<U8>, at: nat, v: U16)
    requires at + 2 <= buffer.Length
    modifies buffer
    ensures WrittenAt(old(buffer[..]), buffer[..], at, BE16(v))
  {
    ghost var before := buffer[..];
    buffer[at] := v / 0x100;
    buffer[at + 1] := v % 0x100;
    assert buffer[..] == before[..at] + BE16(v) + before[at + 2..];
  }

  /** write_u32_be. */
  method Write32(buffer: array<U8>, at: nat, v: U32)
    requires at + 4 <= buffer.Length
    modifies buffer
    ensures WrittenAt(old(buffer[..]), buffer[..], at, BE32(v))
  {
    ghost var before := buffer[..];
    buffer[at], buffer[at + 1] := v / 0x1_0000 / 0x100, v / 0x1_0000 % 0x100;
    buffer[at + 2], buffer[at + 3] := v % 0x1_0000 / 0x100, v % 0x1_0000 % 0x100;
    assert buffer[..] == before[..at] + BE32(v) + before[at + 4..];
  }

  /** memcpy into the buffer. */
  method Copy(buffer: array<U8>, at: nat, data: seq<U8>)
    requires at + |data| <= buffer.Length
    modifies buffer
    ensures WrittenAt(old(buffer[..]), buffer[..], at, data)
  {
    ghost var before := buffer[..];
    forall i | 0 <= i < |data| {
      buffer[at + i] := data[i];
    }
    assert buffer[..] == before[..at] + data + before[at + |data|..];
  }

  /** Overwriting a field of what was written at the front leaves the patched bytes at the front. */
  lemma PatchWritten(b0: seq<U8>, b1: seq<U8>, b2: seq<U8>, data: seq<U8>, at: nat, v: U16)
    requires WrittenAt(b0, b1, 0, data) && at + 2 <= |data| && WrittenAt(b1, b2, at, BE16(v))
    ensures WrittenAt(b0, b2, 0, Patched(data, at, v))
  {
    assert b1[..|data|] == data;
    assert forall i :: 0 <= i < at ==> b2[i] == b2[..at + 2][i] == b1[i];
    assert b2[at] == b2[..at + 2][at] && b2[at + 1] == b2[..at + 2][at + 1];
    assert b2[..|data|] == Patched(data, at, v);
  }

  /** Writing right behind what was written at the front extends it. */
  lemma AppendWritten(b0: seq<U8>, b1: seq<U8>, b2: seq<U8>, front: seq<U8>, data: seq<U8>)
    requires WrittenAt(b0, b1, 0, front) && WrittenAt(b1, b2, |front|, data)
    ensures WrittenAt(b0, b2, 0, front + data)
  {
    assert b1[..|front|] == front;
    assert b2[..|front| + |data|] == front + data;
  }

  /** memcpy right behind what was written at the front. */
  method CopyBehind(buffer: array<U8>, at: nat, data: seq<U8>, ghost start: seq<U8>, ghost front: seq<U8>)
    requires WrittenAt(start, buffer[..], 0, front) && at == |front| && at + |data| <= buffer.Length
    modifies buffer
    ensures WrittenAt(start, buffer[..], 0, front + data)
  {
    ghost var before := buffer[..];
    Copy(buffer, at, data);
    AppendWritten(start, before, buffer[..], front, data);
  }

  /** write_u16_be there. */
  method Write16Behind(buffer: array<U8>, at: nat, v: U16, ghost start: seq<U8>, ghost front: seq<U8>)
    requires WrittenAt(start, buffer[..], 0, front) && at == |front| && at + 2 <= buffer.Length
    modifies buffer
    ensures WrittenAt(start, buffer[..], 0, front + BE16(v))
  {
    ghost var before := buffer[..];
    Write16(buffer, at, v);
    AppendWritten(start, before, buffer[..], front, BE16(v));
  }
}
