/** Bytes, fixed-width words and their big-endian encodings, as Go's encoding/binary writes them, and results. */
module Bytes {

  type byte = x: int | 0 <= x < 0x100
  type Word16 = x: int | 0 <= x < 0x1_0000
  type Word32 = x: int | 0 <= x < 0x1_0000_0000

  const WRAP32: int := 0x1_0000_0000

  /** An IPv4 address: the [4]byte arrays of the flow keys. */
  type IPv4 = s: seq<byte> | |s| == 4 witness [0, 0, 0, 0]

  datatype Option<+T> = None | Some(value: T)

  datatype Result<+T, +E> = Ok(value: T) | Err(error: E)

  function Get16(s: seq<byte>, i: nat): Word16
    requires i + 2 <= |s|
  {
    s[i] as int * 0x100 + s[i + 1]
  }

  function Put16(s: seq<byte>, i: nat, v: Word16): (r: seq<byte>)
    requires i + 2 <= |s|
    ensures |r| == |s|
    ensures Get16(r, i) == v
    ensures forall k :: 0 <= k < |s| && k != i && k != i + 1 ==> r[k] == s[k]
  {
    s[i := v / 0x100][i + 1 := v % 0x100]
  }

  function BE16(v: Word16): seq<byte> {
    [v / 0x100, v % 0x100]
  }

  function BE32(v: Word32): (r: seq<byte>)
    ensures |r| == 4
  {
    BE16(v / 0x1_0000) + BE16(v % 0x1_0000)
  }

  function Get32(s: seq<byte>, i: nat): Word32
    requires i + 4 <= |s|
  {
    Get16(s, i) as int * 0x1_0000 + Get16(s, i + 2)
  }

  lemma BE16RoundTrip(v: Word16)
    ensures Get16(BE16(v), 0) == v
  {
  }

  lemma BE32RoundTrip(v: Word32)
    ensures Get32(BE32(v), 0) == v
  {
  }

  lemma Get32RoundTrip(s: seq<byte>, i: nat)
    requires i + 4 <= |s|
    ensures BE32(Get32(s, i)) == s[i..i + 4]
  {
  }

  /** The first byte is the most significant one. */
  lemma BigEndian(a: byte, b: byte, c: byte, d: byte)
    ensures Get16([a, b], 0) == a as int * 0x100 + b && BE16(a as int * 0x100 + b) == [a, b]
    ensures Get32([a, b, c, d], 0) == ((a as int * 0x100 + b) * 0x100 + c) * 0x100 + d
    ensures BE32(((a as int * 0x100 + b) * 0x100 + c) * 0x100 + d) == [a, b, c, d]
  {
    var hi, lo: Word16 := a as int * 0x100 + b, c as int * 0x100 + d;
    var v: Word32 := hi * 0x1_0000 + lo;
    assert v / 0x1_0000 == hi && v % 0x1_0000 == lo;
  }
}
