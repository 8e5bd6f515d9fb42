/** Numbers on disk, byte by byte: the ground that the layouts of directories and files stand on. */
module AdfBytes {
  import opened Bytes
  import opened AdfImage

  /** The four bytes from offset p on, most significant first. */
  function Number(image: seq<Byte>, p: nat): nat
    requires p + 4 <= |image|
  {
    var b0: nat, b1: nat, b2: nat, b3: nat := image[p], image[p + 1], image[p + 2], image[p + 3];
    ((b0 * 256 + b1) * 256 + b2) * 256 + b3
  }

  predicate Inside(image: seq<Byte>, n: nat) {
    512 * n + 512 <= |image|
  }

  lemma {:induction false} WordIsNumber(data: seq<Byte>, i: nat)
    requires 4 * i + 4 <= |data|
    ensures Word(data, i) == Number(data, 4 * i)
  {
  }

  lemma {:induction false} BlockWordIsNumber(image: seq<Byte>, n: nat, word: nat)
    requires Inside(image, n) && word < 128
    ensures InImage(image, n) && BlockWord(image, n, word) == Number(image, 512 * n + 4 * word)
  {
    WordIsNumber(image, n * 128 + word);
    assert 4 * (n * 128 + word) == 512 * n + 4 * word;
  }
}
