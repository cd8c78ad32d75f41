/** Fixed-width little-endian integers, and the growable byte buffer the codec reads and writes. */
module LittleEndian {
  import opened Frames

  function PutU16(x: U16): (b: Bytes)
    ensures |b| == 2
  {
    [x % 0x100, x / 0x100]
  }

  function PutU32(x: U32): (b: Bytes)
    ensures |b| == 4
  {
    [x % 0x100, x / 0x100 % 0x100, x / 0x1_0000 % 0x100, x / 0x100_0000]
  }

  function GetU16(b: Bytes): U16
    requires |b| == 2
  {
    b[0] as int + 0x100 * (b[1] as int)
  }

  function GetU32(b: Bytes): U32
    requires |b| == 4
  {
    var lo: int, hi: int := b[0] as int + 0x100 * (b[1] as int), b[2] as int + 0x100 * (b[3] as int);
    lo + 0x1_0000 * hi
  }

  lemma U16RoundTrip(x: U16, b: Bytes)
    requires |b| == 2
    ensures GetU16(PutU16(x)) == x
    ensures PutU16(GetU16(b)) == b
  {
  }

  lemma U32RoundTrip(x: U32, b: Bytes)
    requires |b| == 4
    ensures GetU32(PutU32(x)) == x
    ensures PutU32(GetU32(b)) == b
  {
    var y: int := GetU32(b);
    var b1: int, b2: int, b3: int := b[1], b[2], b[3];
    assert y / 0x100 == b1 + 0x100 * b2 + 0x1_0000 * b3;
    assert y / 0x1_0000 == b2 + 0x100 * b3;
    assert x / 0x1_0000 == x / 0x100 / 0x100;
    assert x / 0x100_0000 == x / 0x100 / 0x100 / 0x100;
  }

  /** `bytes::BytesMut` with the cursor operations the codec uses. */
  class BytesMut {
    var data: Bytes

    constructor (initial: Bytes)
      ensures data == initial
    {
      data := initial;
    }

    method GetU8() returns (x: Byte)
      requires |data| >= 1
      modifies this
      ensures x == old(data)[0] && data == old(data)[1..]
    {
      x := data[0];
      data := data[1..];
    }

    method GetU16Le() returns (x: U16)
      requires |data| >= 2
      modifies this
      ensures x == GetU16(old(data)[..2]) && data == old(data)[2..]
    {
      x := GetU16(data[..2]);
      data := data[2..];
    }

    method GetU32Le() returns (x: U32)
      requires |data| >= 4
      modifies this
      ensures x == GetU32(old(data)[..4]) && data == old(data)[4..]
    {
      x := GetU32(data[..4]);
      data := data[4..];
    }

    method SplitTo(n: nat) returns (front: Bytes)
      requires n <= |data|
      modifies this
      ensures front + data == old(data) && |front| == n
    {
      front := data[..n];
      data := data[n..];
    }

    method PutSlice(b: Bytes)
      modifies this
      ensures data == old(data) + b
    {
      data := data + b;
    }

    method PutU8(x: Byte)
      modifies this
      ensures data == old(data) + [x]
    {
      data := data + [x];
    }

    method PutU16Le(x: U16)
      modifies this
      ensures data == old(data) + PutU16(x)
    {
      data := data + PutU16(x);
    }

    method PutU32Le(x: U32)
      modifies this
      ensures data == old(data) + PutU32(x)
    {
      data := data + PutU32(x);
    }
  }
}
