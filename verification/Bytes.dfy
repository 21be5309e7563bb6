/**
 Machine integers of the stack, big-endian fields, and the small failure type shared by
 the protocol modules.
 */
module Bytes {

  type U8 = x: int | 0 <= x < 0x100
  type U16 = x: int | 0 <= x < 0x1_0000
  type U32 = x: int | 0 <= x < 0x1_0000_0000

  datatype Option<+T> = None | Some(value: T)

  /** A C function that fills an out-parameter and returns 0, or returns a negative code. */
  datatype Result<+T> = Ok(value: T) | Err(code: int)

  function BE16(v: U16): seq<U8> {
    [v / 0x100, v % 0x100]
  }

  function BE32(v: U32): seq<U8> {
    BE16(v / 0x1_0000) + BE16(v % 0x1_0000)
  }

  function Read16(data: seq<U8>, at: nat): U16
    requires at + 2 <= |data|
  {
    data[at] as int * 0x100 + data[at + 1] as int
  }

  function Read32(data: seq<U8>, at: nat): U32
    requires at + 4 <= |data|
  {
    Read16(data, at) as int * 0x1_0000 + Read16(data, at + 2) as int
  }

  /** `data` with the 16-bit field at `at` replaced. */
  function Patched(data: seq<U8>, at: nat, v: U16): seq<U8>
    requires at + 2 <= |data|
  {
    data[..at] + BE16(v) + data[at + 2..]
  }

  lemma FieldReads16(data: seq<U8>, at: nat, v: U16)
    requires at + 2 <= |data|
    ensures data[at..at + 2] == BE16(v) <==> Read16(data, at) == v
  {
    assert data[at] == data[at..at + 2][0] && data[at + 1] == data[at..at + 2][1];
  }

  lemma FieldReads32(data: seq<U8>, at: nat, v: U32)
    requires at + 4 <= |data|
    ensures data[at..at + 4] == BE32(v) <==> Read32(data, at) == v
  {
    var high, low := v / 0x1_0000, v % 0x1_0000;
    FieldReads16(data, at, high);
    FieldReads16(data, at + 2, low);
    assert data[at..at + 4] == data[at..at + 2] + data[at + 2..at + 4];
    assert BE32(v)[..2] == BE16(high) && BE32(v)[2..] == BE16(low);
    assert data[at..at + 4][..2] == data[at..at + 2] && data[at..at + 4][2..] == data[at + 2..at + 4];
  }
}
