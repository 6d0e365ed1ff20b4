/** Bytes and 32-bit words, as the C sources use them. */
module Bytes {
  type byte = x: int | 0 <= x < 0x100
  type word = x: int | 0 <= x < 0x1_0000_0000

  function Zeros(n: nat): (z: seq<byte>)
    ensures |z| == n && forall i :: 0 <= i < n ==> z[i] == 0
  {
    seq(n, _ => 0)
  }

  /** The byte at offset `i`; memory past the end of the message reads as zero. */
  function ByteAt(b: seq<byte>, i: nat): byte {
    if i < |b| then b[i] else 0
  }

  /** The little-endian 32-bit word at byte offset `off`. */
  function WordAt(b: seq<byte>, off: nat): word {
    ByteAt(b, off) + 0x100 * ByteAt(b, off + 1) + 0x1_0000 * ByteAt(b, off + 2) + 0x100_0000 * ByteAt(b, off + 3)
  }

  /** A word as it lies in memory. */
  function WordBytes(w: word): (b: seq<byte>)
    ensures |b| == 4
  {
    [w % 0x100, w / 0x100 % 0x100, w / 0x1_0000 % 0x100, w / 0x100_0000]
  }

  /** A word that stands at an offset is read there, and no other is. */
  lemma WordStands(b: seq<byte>, off: nat, w: word)
    requires off + 4 <= |b|
    ensures WordAt(b, off) == w <==> b[off..off + 4] == WordBytes(w)
  {
    assert w / 0x1_0000 == w / 0x100 / 0x100;
    assert w / 0x100_0000 == w / 0x1_0000 / 0x100;
    var v := b[off..off + 4];
    assert v[0] == b[off] && v[1] == b[off + 1] && v[2] == b[off + 2] && v[3] == b[off + 3];
    if WordAt(b, off) == w {
      WordDigits(b[off], b[off + 1], b[off + 2], b[off + 3]);
      assert v == WordBytes(w);
    }
  }

  lemma WordDigits(b0: byte, b1: byte, b2: byte, b3: byte)
    ensures var w := b0 + 0x100 * b1 + 0x1_0000 * b2 + 0x100_0000 * b3;
            WordBytes(w) == [b0, b1, b2, b3]
  {
    var w := b0 + 0x100 * b1 + 0x1_0000 * b2 + 0x100_0000 * b3;
    assert w / 0x100 == b1 + 0x100 * b2 + 0x1_0000 * b3;
    assert w / 0x1_0000 == b2 + 0x100 * b3;
    assert w / 0x100_0000 == b3;
  }

  /** `b` with the word at byte offset `off` overwritten by `w`. */
  function PutWord(b: seq<byte>, off: nat, w: word): (r: seq<byte>)
    requires off + 4 <= |b|
    ensures |r| == |b|
    ensures forall i :: 0 <= i < |b| && !(off <= i < off + 4) ==> r[i] == b[i]
  {
    b[off := w % 0x100][off + 1 := w / 0x100 % 0x100][off + 2 := w / 0x1_0000 % 0x100][off + 3 := w / 0x100_0000]
  }

  lemma PutWordReadsBack(b: seq<byte>, off: nat, w: word)
    requires off + 4 <= |b|
    ensures WordAt(PutWord(b, off, w), off) == w
  {
    var b0, b1, b2 := w % 0x100, w / 0x100 % 0x100, w / 0x1_0000 % 0x100;
    assert w / 0x1_0000 == w / 0x100 / 0x100;
    assert w / 0x100_0000 == w / 0x1_0000 / 0x100;
  }
}
