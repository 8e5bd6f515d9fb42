/** Sector images of Amiga disks: geometry and block access (internal/adf/adf.go, filesystem.go). */
module AdfImage {
  import opened Common
  import opened Bytes

  const BLOCK_SIZE := 512
  const WORDS_PER_BLOCK := 128
  const DD_SIZE := 901120
  const HD_SIZE := 1802240

  const PRIMARY_HEADER := 2
  const SECONDARY_ROOT := 1
  const SECONDARY_DIRECTORY := 2
  const SECONDARY_FILE := -3

  const SECONDARY_TYPE_WORD := 127

  /** `geometry`: the sizes the reader accepts. */
  predicate KnownSize(image: seq<Byte>) {
    |image| == DD_SIZE || |image| == HD_SIZE
  }

  function BlockCount(image: seq<Byte>): nat {
    |image| / BLOCK_SIZE
  }

  function ExpectedRoot(image: seq<Byte>): U32 {
    if |image| == DD_SIZE then 880 else 1760
  }

  /** `block` returns nil exactly when this is false. */
  predicate InImage(image: seq<Byte>, number: nat) {
    number * BLOCK_SIZE + BLOCK_SIZE <= |image|
  }

  lemma {:induction false} InImageIsBelowCount(image: seq<Byte>, number: nat)
    ensures InImage(image, number) <==> number < BlockCount(image)
  {
  }

  /** `be32(block(image, number), word)`. */
  function BlockWord(image: seq<Byte>, number: nat, word: nat): U32
    requires InImage(image, number) && word < WORDS_PER_BLOCK
  {
    Word(image, number * WORDS_PER_BLOCK + word)
  }

  /** `int32(v)`: two's complement. */
  function Signed(v: U32): int {
    if v < 0x8000_0000 then v else v - 0x1_0000_0000
  }

  function SecondaryType(image: seq<Byte>, number: nat): int
    requires InImage(image, number)
  {
    Signed(BlockWord(image, number, SECONDARY_TYPE_WORD))
  }

  /** The block numbers of an image. */
  ghost function Blocks(image: seq<Byte>): set<nat> {
    Below(BlockCount(image))
  }

  lemma {:induction false} SubsetSize<T>(a: set<T>, b: set<T>)
    requires a <= b
    ensures |a| <= |b|
  {
    if x :| x in a {
      SubsetSize(a - {x}, b - {x});
    }
  }

  /** A set of block numbers has at most as many members as the image has blocks. */
  lemma {:induction false} Pigeonhole(image: seq<Byte>, seen: set<nat>)
    requires forall n :: n in seen ==> InImage(image, n)
    ensures |seen| <= BlockCount(image)
  {
    forall n | n in seen ensures n in Blocks(image) {
      InImageIsBelowCount(image, n);
    }
    SubsetSize(seen, Blocks(image));
  }

  /** The blocks of an image not yet in a set. */
  ghost function Unseen(image: seq<Byte>, seen: set<nat>): set<nat> {
    Blocks(image) - seen
  }

  lemma {:induction false} UnseenShrinks(image: seq<Byte>, seen: set<nat>, current: nat)
    requires InImage(image, current) && current !in seen
    ensures |Unseen(image, seen + {current})| < |Unseen(image, seen)|
  {
    InImageIsBelowCount(image, current);
    assert Unseen(image, seen + {current}) == Unseen(image, seen) - {current};
  }
}
