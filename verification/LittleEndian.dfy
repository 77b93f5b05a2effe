/** Little-endian fields of a byte string, as packed structures lay them out. */
module LittleEndian {
  import opened Words

  function Get16(b: Bytes, i: nat): u16
    requires i + 2 <= |b|
  {
    b[i] + U8 * b[i + 1]
  }

  function Get32(b: Bytes, i: nat): u32
    requires i + 4 <= |b|
  {
    Get16(b, i) + U16 * Get16(b, i + 2)
  }

  function Get64(b: Bytes, i: nat): u64
    requires i + 8 <= |b|
  {
    Get32(b, i) + U32 * Get32(b, i + 4)
  }

  function Put16(x: u16): (b: Bytes)
    ensures |b| == 2
  {
    [x % U8, x / U8]
  }

  function Put32(x: u32): (b: Bytes)
    ensures |b| == 4
  {
    Put16(x % U16) + Put16(x / U16)
  }

  function Put64(x: u64): (b: Bytes)
    ensures |b| == 8
  {
    Put32(x % U32) + Put32(x / U32)
  }

  /** Reading a field depends only on the bytes it covers. */
  lemma Get32Slice(b: Bytes, i: nat, x: u32)
    requires i + 4 <= |b| && b[i..i + 4] == Put32(x)
    ensures Get32(b, i) == x
  {
    var p := Put32(x);
    assert b[i] == b[i..i + 4][0] && b[i + 1] == b[i..i + 4][1];
    assert b[i + 2] == b[i..i + 4][2] && b[i + 3] == b[i..i + 4][3];
    assert p[0] == x % U16 % U8 && p[1] == x % U16 / U8 && p[2] == x / U16 % U8 && p[3] == x / U16 / U8;
  }

  lemma Get16Slice(b: Bytes, i: nat, x: u16)
    requires i + 2 <= |b| && b[i..i + 2] == Put16(x)
    ensures Get16(b, i) == x
  {
    assert b[i] == b[i..i + 2][0] && b[i + 1] == b[i..i + 2][1];
  }

  lemma Get64Slice(b: Bytes, i: nat, x: u64)
    requires i + 8 <= |b| && b[i..i + 8] == Put64(x)
    ensures Get64(b, i) == x
  {
    assert b[i..i + 4] == b[i..i + 8][..4] == Put32(x % U32);
    assert b[i + 4..i + 8] == b[i..i + 8][4..] == Put32(x / U32);
    Get32Slice(b, i, x % U32);
    Get32Slice(b, i + 4, x / U32);
  }
}
