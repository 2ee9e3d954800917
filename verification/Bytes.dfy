/** Bytes, big-endian words and the text constants of the wire protocol. */
module Bytes {

  type Byte = b: int | 0 <= b < 0x100

  type Uint32 = w: int | 0 <= w < 0x1_0000_0000

  /** binary.BigEndian.PutUint32: the four bytes of w, most significant first. */
  function PutUint32(w: Uint32): (b: seq<Byte>)
    ensures |b| == 4
  {
    [w / 0x100_0000, w / 0x1_0000 % 0x100, w / 0x100 % 0x100, w % 0x100]
  }

  /** binary.BigEndian.Uint32 on the first four bytes of b. */
  function GetUint32(b: seq<Byte>): Uint32
    requires |b| >= 4
  {
    var b0: int, b1: int, b2: int := b[0], b[1], b[2];
    b0 * 0x100_0000 + b1 * 0x1_0000 + b2 * 0x100 + b[3]
  }

  lemma GetPut(w: Uint32)
    ensures GetUint32(PutUint32(w)) == w
  {
    var q1 := w / 0x100;
    var q2 := w / 0x1_0000;
    assert q2 == q1 / 0x100 && w / 0x100_0000 == q2 / 0x100;
    assert w == q1 * 0x100 + w % 0x100;
    assert q1 == q2 * 0x100 + q1 % 0x100;
    assert q2 == (q2 / 0x100) * 0x100 + q2 % 0x100;
  }

  lemma PutGet(b: seq<Byte>)
    requires |b| == 4
    ensures PutUint32(GetUint32(b)) == b
  {
    var w := GetUint32(b);
    var b0: int, b1: int := b[0], b[1];
    assert w / 0x100 == b0 * 0x1_0000 + b1 * 0x100 + b[2];
    assert w / 0x1_0000 == b0 * 0x100 + b[1];
    assert w / 0x100_0000 == b[0];
  }

  /** Two words that are encoded alike are equal. */
  lemma PutInjective(v: Uint32, w: Uint32)
    requires PutUint32(v) == PutUint32(w)
    ensures v == w
  {
    GetPut(v);
    GetPut(w);
  }

  /** The bytes of a Go string; each character of the model stands for one byte. */
  function Text(s: string): (b: seq<Byte>)
    ensures |b| == |s|
  {
    seq(|s|, i requires 0 <= i < |s| => s[i] as int % 0x100)
  }

  /** As many bytes of b as the limit n lets through. */
  function Clip(b: seq<Byte>, n: nat): (c: seq<Byte>)
    ensures c <= b
  {
    if |b| <= n then b else b[..n]
  }
}
