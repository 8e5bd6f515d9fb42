/** Bytes and big-endian 32-bit words, as read by `binary.BigEndian.Uint32`. */
module Bytes {
  type Byte = b: int | 0 <= b < 256
  type U32 = w: int | 0 <= w < 0x1_0000_0000

  /** The word stored in bytes 4*i .. 4*i+3. */
  function Word(data: seq<Byte>, i: nat): (w: U32)
    requires 4 * i + 4 <= |data|
  {
    var b0: int, b1: int, b2: int, b3: int := data[4 * i], data[4 * i + 1], data[4 * i + 2], data[4 * i + 3];
    b0 * 0x100_0000 + b1 * 0x1_0000 + b2 * 0x100 + b3
  }

  /** All complete words of `data`; up to three trailing bytes are ignored. */
  function Words(data: seq<Byte>): (ws: seq<U32>)
    ensures |ws| == |data| / 4
    ensures forall i :: 0 <= i < |ws| ==> ws[i] == Word(data, i)
  {
    seq(|data| / 4, i requires 0 <= i < |data| / 4 => Word(data, i))
  }

  /** Byte k (0 is the most significant) of a word. */
  function ByteOf(w: U32, k: nat): (b: Byte)
    requires k < 4
  {
    if k == 0 then w / 0x100_0000
    else if k == 1 then w / 0x1_0000 % 0x100
    else if k == 2 then w / 0x100 % 0x100
    else w % 0x100
  }

  /** The big-endian image of a word list: what a writer of the format emits. */
  function Encode(ws: seq<U32>): (data: seq<Byte>)
    ensures |data| == 4 * |ws|
  {
    seq(4 * |ws|, i requires 0 <= i < 4 * |ws| => ByteOf(ws[i / 4], i % 4))
  }

  lemma {:induction false} WordOfEncode(ws: seq<U32>, i: nat)
    requires i < |ws|
    ensures Word(Encode(ws), i) == ws[i]
  {
    var data := Encode(ws);
    var w := ws[i];
    forall k | 0 <= k < 4
      ensures data[4 * i + k] == ByteOf(w, k)
    {
      assert (4 * i + k) / 4 == i && (4 * i + k) % 4 == k;
    }
    assert data[4 * i + 0] == ByteOf(w, 0);
    assert data[4 * i + 1] == ByteOf(w, 1);
    assert data[4 * i + 2] == ByteOf(w, 2);
    assert data[4 * i + 3] == ByteOf(w, 3);
    WordFromBytes(w);
  }

  lemma {:induction false} WordFromBytes(w: U32)
    ensures ByteOf(w, 0) * 0x100_0000 + ByteOf(w, 1) * 0x1_0000 + ByteOf(w, 2) * 0x100 + ByteOf(w, 3) == w
  {
  }

  /** Reading back what was written, whatever trails after the last full word. */
  lemma {:induction false} WordsOfEncode(ws: seq<U32>, trailing: seq<Byte>)
    requires |trailing| < 4
    ensures Words(Encode(ws) + trailing) == ws
  {
    var data := Encode(ws) + trailing;
    forall i | 0 <= i < |ws|
      ensures Words(data)[i] == ws[i]
    {
      WordOfEncode(ws, i);
      assert Word(data, i) == Word(Encode(ws), i);
    }
  }
}
