/**
 A reference writer for OFS and FFS files: header block, extension blocks, data blocks.  Its image
 reads back as the bytes that were written.
 */
module AdfFileWriter {
  import opened Common
  import opened Bytes
  import opened AdfImage
  import opened AdfPayload
  import opened AdfFileChain

  /** Where a file goes: metadata blocks (the header first) and data blocks, in order. */
  datatype Plan = Plan(chain: seq<U32>, datas: seq<U32>)

  /** Where chunk k starts in the file: 488 bytes per OFS block, 512 per FFS block. */
  function Offset(dosType: Byte, k: nat): nat {
    if Ofs(dosType) then 488 * k else 512 * k
  }

  function ChunkEnd(dosType: Byte, content: seq<Byte>, k: nat): (e: nat)
    requires Offset(dosType, k) <= |content|
    ensures Offset(dosType, k) <= e <= |content| && e - Offset(dosType, k) <= 512
    ensures Ofs(dosType) ==> e - Offset(dosType, k) <= 488
  {
    if Offset(dosType, k + 1) < |content| then Offset(dosType, k + 1) else |content|
  }

  ghost predicate Fits(image: seq<Byte>, dosType: Byte, plan: Plan, content: seq<Byte>) {
    && KnownSize(image)
    && 0 < |content| < 0x1_0000_0000
    && 0 < |plan.datas| && Offset(dosType, |plan.datas| - 1) < |content| <= Offset(dosType, |plan.datas|)
    && 0 < |plan.chain| && 72 * (|plan.chain| - 1) < |plan.datas| <= 72 * |plan.chain|
    && Usable(image, plan.chain) && Usable(image, plan.datas)
    && forall i, j :: 0 <= i < |plan.chain| && 0 <= j < |plan.datas| ==> plan.chain[i] != plan.datas[j]
  }

  ghost predicate Usable(image: seq<Byte>, blocks: seq<nat>) {
    && Distinct(blocks)
    && forall i :: 0 <= i < |blocks| ==> 0 < blocks[i] < BlockCount(image)
  }

  function Find(s: seq<nat>, x: nat): (r: Option<nat>)
    ensures r == None ==> forall i :: 0 <= i < |s| ==> s[i] != x
    ensures r.Some? ==> r.value < |s| && s[r.value] == x
  {
    if s == [] then None
    else if s[0] == x then Some(0)
    else
      match Find(s[1..], x)
      case None => None
      case Some(i) => Some(i + 1)
  }

  /** How many data blocks metadata block j lists. */
  function Share(plan: Plan, j: nat): nat
    requires 72 * j <= |plan.datas|
  {
    if |plan.datas| - 72 * j < 72 then |plan.datas| - 72 * j else 72
  }

  /** Word w of metadata block j; words the format leaves to others keep their old value. */
  ghost function MetaWord(image: seq<Byte>, dosType: Byte, plan: Plan, content: seq<Byte>, j: nat, w: nat,
      was: U32): U32
    requires Fits(image, dosType, plan, content) && j < |plan.chain|
  {
    if w == 0 then (if j == 0 then 2 else 16)
    else if w == 2 then Share(plan, j)
    else if 6 <= w < 78 && 77 - w < Share(plan, j) then
      plan.datas[72 * j + 77 - w]
    else if w == 81 && j == 0 then |content|
    else if w == 126 then (if j + 1 < |plan.chain| then plan.chain[j + 1] else 0)
    else if w == 127 then 0xFFFF_FFFD
    else was
  }

  /** Byte o of data block k. */
  ghost function DataByte(image: seq<Byte>, dosType: Byte, plan: Plan, content: seq<Byte>, k: nat, o: nat,
      was: Byte): Byte
    requires Fits(image, dosType, plan, content) && k < |plan.datas| && o < 512
  {
    var start, end := Offset(dosType, k), ChunkEnd(dosType, content, k);
    var lead := if Ofs(dosType) then 24 else 0;
    if Ofs(dosType) && o / 4 == 0 then ByteOf(8, o % 4)
    else if Ofs(dosType) && o / 4 == 3 then ByteOf(end - start, o % 4)
    else if lead <= o < lead + end - start then content[start + o - lead]
    else was
  }

  ghost function WrittenByte(image: seq<Byte>, dosType: Byte, plan: Plan, content: seq<Byte>, b: nat): Byte
    requires Fits(image, dosType, plan, content) && b < |image|
  {
    var n, o := b / 512, b % 512;
    match Find(plan.chain, n)
    case Some(j) => ByteOf(MetaWord(image, dosType, plan, content, j, o / 4, Word(image, b / 4)), o % 4)
    case None =>
      match Find(plan.datas, n)
      case Some(k) => DataByte(image, dosType, plan, content, k, o, image[b])
      case None => image[b]
  }

  ghost function Write(image: seq<Byte>, dosType: Byte, plan: Plan, content: seq<Byte>): (out: seq<Byte>)
    requires Fits(image, dosType, plan, content)
    ensures |out| == |image|
  {
    seq(|image|, b requires 0 <= b < |image| => WrittenByte(image, dosType, plan, content, b))
  }

  // ------------------------------------------------ what the written blocks say

  lemma {:induction false} MetaReads(image: seq<Byte>, dosType: Byte, plan: Plan, content: seq<Byte>, j: nat, w: nat)
    requires Fits(image, dosType, plan, content) && j < |plan.chain| && w < WORDS_PER_BLOCK
    ensures var out := Write(image, dosType, plan, content);
            && InImage(out, plan.chain[j])
            && BlockWord(out, plan.chain[j], w)
               == MetaWord(image, dosType, plan, content, j, w, Word(image, WORDS_PER_BLOCK * plan.chain[j] + w))
  {
    hide MetaWord, DataByte, ByteOf, Word;
    var out := Write(image, dosType, plan, content);
    var n := plan.chain[j];
    var i := WORDS_PER_BLOCK * n + w;
    var v := MetaWord(image, dosType, plan, content, j, w, Word(image, i));
    assert Find(plan.chain, n) == Some(j);
    forall k | 0 <= k < 4
      ensures out[4 * i + k] == ByteOf(v, k)
    {
      var b := 4 * i + k;
      assert b / BLOCK_SIZE == n && b % BLOCK_SIZE == 4 * w + k && b / 4 == i;
    }
    WordFromItsBytes(out, i, v);
  }

  lemma {:induction false} WordFromItsBytes(data: seq<Byte>, i: nat, v: U32)
    requires 4 * i + 4 <= |data|
    requires forall k :: 0 <= k < 4 ==> data[4 * i + k] == ByteOf(v, k)
    ensures Word(data, i) == v
  {
    assert data[4 * i + 0] == ByteOf(v, 0);
    assert data[4 * i + 1] == ByteOf(v, 1);
    assert data[4 * i + 2] == ByteOf(v, 2);
    assert data[4 * i + 3] == ByteOf(v, 3);
    WordFromBytes(v);
  }

  lemma {:induction false} DataReads(image: seq<Byte>, dosType: Byte, plan: Plan, content: seq<Byte>, k: nat, o: nat)
    requires Fits(image, dosType, plan, content) && k < |plan.datas| && o < BLOCK_SIZE
    ensures var out := Write(image, dosType, plan, content);
            && InImage(out, plan.datas[k])
            && out[BLOCK_SIZE * plan.datas[k] + o]
               == DataByte(image, dosType, plan, content, k, o, image[BLOCK_SIZE * plan.datas[k] + o])
  {
    hide MetaWord, DataByte, ByteOf, Word, Offset;
    var n := plan.datas[k];
    var b := BLOCK_SIZE * n + o;
    assert b / BLOCK_SIZE == n && b % BLOCK_SIZE == o;
    assert Find(plan.datas, n) == Some(k);
    assert Find(plan.chain, n) == None;
  }

  lemma {:induction false} MetaIsGood(image: seq<Byte>, dosType: Byte, plan: Plan, content: seq<Byte>, j: nat)
    requires Fits(image, dosType, plan, content) && j < |plan.chain|
    ensures var out := Write(image, dosType, plan, content);
            && GoodMeta(out, plan.chain[0], plan.chain[j])
            && (j + 1 < |plan.chain| ==> Next(out, plan.chain[0], plan.chain[j]) == plan.chain[j + 1])
            && Used(out, plan.chain[j]) == Share(plan, j)
            && Pointers(out, plan.chain[j]) == plan.datas[DATA_SLOTS * j..DATA_SLOTS * j + Share(plan, j)]
  {
    hide BlockWord, Write, InImage;
    var out := Write(image, dosType, plan, content);
    MetaReads(image, dosType, plan, content, j, 0);
    MetaReads(image, dosType, plan, content, j, 2);
    MetaReads(image, dosType, plan, content, j, EXTENSION_WORD);
    MetaReads(image, dosType, plan, content, j, SECONDARY_TYPE_WORD);
    forall i | 0 <= i < Share(plan, j)
      ensures Pointer(out, plan.chain[j], i) == plan.datas[DATA_SLOTS * j + i]
    {
      MetaReads(image, dosType, plan, content, j, DATA_BASE_WORD + DATA_SLOTS - 1 - i);
    }
  }

  lemma {:induction false} ChunkStartsInside(dosType: Byte, plan: Plan, content: seq<Byte>, k: nat)
    requires 0 < |plan.datas| && Offset(dosType, |plan.datas| - 1) < |content| && k < |plan.datas|
    ensures Offset(dosType, k) < |content|
  {
  }

  function ChunkLength(dosType: Byte, content: seq<Byte>, k: nat): (n: nat)
    requires Offset(dosType, k) <= |content|
    ensures n <= 512 && (Ofs(dosType) ==> n <= 488)
    ensures Offset(dosType, k) + n <= |content|
  {
    ChunkEnd(dosType, content, k) - Offset(dosType, k)
  }

  /** Where the file bytes of data block k start in the image. */
  function DataStart(dosType: Byte, plan: Plan, k: nat): nat
    requires k < |plan.datas|
  {
    BLOCK_SIZE * plan.datas[k] + if Ofs(dosType) then OFS_HEADER else 0
  }

  lemma {:induction false} OfsHeaderByte(image: seq<Byte>, dosType: Byte, plan: Plan, content: seq<Byte>, k: nat,
      w: nat, t: nat)
    requires Fits(image, dosType, plan, content) && k < |plan.datas| && Ofs(dosType) && (w == 0 || w == 3) && t < 4
    requires Offset(dosType, k) < |content|
    ensures var out := Write(image, dosType, plan, content);
            && InImage(out, plan.datas[k])
            && out[4 * (WORDS_PER_BLOCK * plan.datas[k] + w) + t]
               == ByteOf(if w == 0 then PRIMARY_DATA else ChunkLength(dosType, content, k), t)
  {
    hide Write, Fits, Offset, ByteOf, ChunkEnd;
    DataReads(image, dosType, plan, content, k, 4 * w + t);
    assert BLOCK_SIZE * plan.datas[k] + (4 * w + t) == 4 * (WORDS_PER_BLOCK * plan.datas[k] + w) + t;
    assert (4 * w + t) / 4 == w && (4 * w + t) % 4 == t;
  }

  lemma {:induction false} OfsWord(image: seq<Byte>, dosType: Byte, plan: Plan, content: seq<Byte>, k: nat, w: nat)
    requires Fits(image, dosType, plan, content) && k < |plan.datas| && Ofs(dosType) && (w == 0 || w == 3)
    requires Offset(dosType, k) < |content|
    ensures var out := Write(image, dosType, plan, content);
            && InImage(out, plan.datas[k])
            && BlockWord(out, plan.datas[k], w) == if w == 0 then PRIMARY_DATA else ChunkLength(dosType, content, k)
  {
    hide Write, Fits, Offset, ByteOf, ChunkLength, Word;
    var out := Write(image, dosType, plan, content);
    var v := if w == 0 then PRIMARY_DATA else ChunkLength(dosType, content, k);
    OfsHeaderByte(image, dosType, plan, content, k, w, 0);
    OfsHeaderByte(image, dosType, plan, content, k, w, 1);
    OfsHeaderByte(image, dosType, plan, content, k, w, 2);
    OfsHeaderByte(image, dosType, plan, content, k, w, 3);
    var i := WORDS_PER_BLOCK * plan.datas[k] + w;
    WordFromItsBytes(out, i, v);
  }

  lemma {:induction false} FileByte(image: seq<Byte>, dosType: Byte, plan: Plan, content: seq<Byte>, k: nat, t: nat)
    requires Fits(image, dosType, plan, content) && k < |plan.datas|
    requires Offset(dosType, k) < |content| && t < ChunkLength(dosType, content, k)
    ensures var out := Write(image, dosType, plan, content);
            && DataStart(dosType, plan, k) + t < |out|
            && out[DataStart(dosType, plan, k) + t] == content[Offset(dosType, k) + t]
  {
    hide Write, Fits, Offset, ByteOf;
    var lead := if Ofs(dosType) then OFS_HEADER else 0;
    DataReads(image, dosType, plan, content, k, lead + t);
    assert BLOCK_SIZE * plan.datas[k] + (lead + t) == DataStart(dosType, plan, k) + t;
  }

  lemma {:induction false} DataBytesWritten(image: seq<Byte>, dosType: Byte, plan: Plan, content: seq<Byte>, k: nat)
    requires Fits(image, dosType, plan, content) && k < |plan.datas|
    requires Offset(dosType, k) < |content|
    ensures var out := Write(image, dosType, plan, content);
            var off, n := DataStart(dosType, plan, k), ChunkLength(dosType, content, k);
            && off + n <= |out|
            && out[off..off + n] == content[Offset(dosType, k)..Offset(dosType, k) + n]
  {
    hide Write, Fits, Offset, ChunkLength;
    var out := Write(image, dosType, plan, content);
    var off, n := DataStart(dosType, plan, k), ChunkLength(dosType, content, k);
    DataReads(image, dosType, plan, content, k, 0);
    assert off + n <= |out|;
    hide DataStart, InImage;
    var a, b := out[off..off + n], content[Offset(dosType, k)..Offset(dosType, k) + n];
    forall t | 0 <= t < |a|
      ensures a[t] == b[t]
    {
      FileByte(image, dosType, plan, content, k, t);
    }
  }

  lemma {:induction false} DataIsGood(image: seq<Byte>, dosType: Byte, plan: Plan, content: seq<Byte>, k: nat)
    requires Fits(image, dosType, plan, content) && k < |plan.datas|
    requires Offset(dosType, k) < |content|
    ensures var out := Write(image, dosType, plan, content);
            var n := ChunkLength(dosType, content, k);
            && GoodData(out, dosType, plan.datas[k])
            && n <= |Chunk(out, dosType, plan.datas[k])|
            && Chunk(out, dosType, plan.datas[k])[..n] == content[Offset(dosType, k)..Offset(dosType, k) + n]
            && (Ofs(dosType) ==> |Chunk(out, dosType, plan.datas[k])| == n)
  {
    hide Write, Offset, BlockWord, ChunkLength, KnownSize;
    DataBytesWritten(image, dosType, plan, content, k);
    DataReads(image, dosType, plan, content, k, 0);
    if Ofs(dosType) {
      OfsWord(image, dosType, plan, content, k, 0);
      OfsWord(image, dosType, plan, content, k, 3);
    }
  }

  // ------------------------------------------------ reading the file back

  lemma {:induction false} ChainFrom(image: seq<Byte>, dosType: Byte, plan: Plan, content: seq<Byte>, j: nat)
    requires Fits(image, dosType, plan, content) && j <= |plan.chain|
    ensures var out := Write(image, dosType, plan, content);
            && Linked(out, plan.chain[0], plan.chain[j..])
            && ChainPointers(out, plan.chain[0], plan.chain[j..])
               == if j == |plan.chain| then [] else plan.datas[DATA_SLOTS * j..]
    decreases |plan.chain| - j
  {
    hide Write, GoodMeta, Next, Pointers, Used;
    var out := Write(image, dosType, plan, content);
    if j < |plan.chain| {
      ChainFrom(image, dosType, plan, content, j + 1);
      MetaIsGood(image, dosType, plan, content, j);
      assert plan.chain[j..][1..] == plan.chain[j + 1..];
      assert plan.chain[j..][0] == plan.chain[j];
      hide Fits;
      var cut := DATA_SLOTS * j + Share(plan, j);
      assert plan.datas[DATA_SLOTS * j..] == plan.datas[DATA_SLOTS * j..cut] + plan.datas[cut..];
    }
  }

  lemma {:induction false} ChunkLengths(image: seq<Byte>, dosType: Byte, plan: Plan, content: seq<Byte>, k: nat)
    requires Fits(image, dosType, plan, content) && k < |plan.datas|
    ensures Offset(dosType, k) < |content|
    ensures Offset(dosType, k) + ChunkLength(dosType, content, k)
            == if k + 1 < |plan.datas| then Offset(dosType, k + 1) else |content|
    ensures k + 1 < |plan.datas| ==> ChunkLength(dosType, content, k) == if Ofs(dosType) then 488 else 512
  {
    ChunkStartsInside(dosType, plan, content, k);
    if k + 1 < |plan.datas| {
      ChunkStartsInside(dosType, plan, content, k + 1);
    }
  }

  /** Data blocks k onwards hold the content from chunk k onwards, then perhaps the slack of the last block. */
  ghost predicate HoldsFrom(out: seq<Byte>, dosType: Byte, plan: Plan, content: seq<Byte>, k: nat)
    requires k < |plan.datas|
  {
    var o := Offset(dosType, k);
    && o < |content|
    && AllGood(out, dosType, plan.datas[k..])
    && var c := Contents(out, dosType, plan.datas[k..]);
       |c| >= |content| - o && c[..|content| - o] == content[o..]
  }

  lemma {:induction false} HoldsStep(out: seq<Byte>, dosType: Byte, plan: Plan, content: seq<Byte>, k: nat, n: nat)
    requires k + 1 < |plan.datas| && HoldsFrom(out, dosType, plan, content, k + 1)
    requires GoodData(out, dosType, plan.datas[k])
    requires Offset(dosType, k) + n == Offset(dosType, k + 1)
    requires Chunk(out, dosType, plan.datas[k]) == content[Offset(dosType, k)..Offset(dosType, k + 1)]
    ensures HoldsFrom(out, dosType, plan, content, k)
  {
    hide Chunk, GoodData, Offset;
    var rest := Contents(out, dosType, plan.datas[k + 1..]);
    var o, p := Offset(dosType, k), Offset(dosType, k + 1);
    assert plan.datas[k..][1..] == plan.datas[k + 1..];
    assert Contents(out, dosType, plan.datas[k..]) == content[o..p] + rest;
    assert content[o..] == content[o..p] + content[p..];
    assert (content[o..p] + rest)[..|content| - o] == content[o..p] + rest[..|content| - p];
  }

  lemma {:induction false} HoldsLast(out: seq<Byte>, dosType: Byte, plan: Plan, content: seq<Byte>, k: nat)
    requires k + 1 == |plan.datas| && Offset(dosType, k) < |content|
    requires GoodData(out, dosType, plan.datas[k])
    requires var chunk := Chunk(out, dosType, plan.datas[k]);
             |content| - Offset(dosType, k) <= |chunk| && chunk[..|content| - Offset(dosType, k)] == content[Offset(dosType, k)..]
    ensures HoldsFrom(out, dosType, plan, content, k)
  {
    hide Chunk, GoodData, Offset;
    var ps := plan.datas[k..];
    assert ps == [plan.datas[k]] && ps[1..] == [];
    assert Contents(out, dosType, ps) == Chunk(out, dosType, ps[0]) + Contents(out, dosType, ps[1..]);
  }

  lemma {:induction false} ContentsFrom(image: seq<Byte>, dosType: Byte, plan: Plan, content: seq<Byte>, k: nat)
    requires Fits(image, dosType, plan, content) && k < |plan.datas|
    ensures HoldsFrom(Write(image, dosType, plan, content), dosType, plan, content, k)
    decreases |plan.datas| - k
  {
    hide Write, GoodData, Chunk, ChunkLength, Fits, Offset, HoldsFrom;
    var out := Write(image, dosType, plan, content);
    ChunkLengths(image, dosType, plan, content, k);
    var n := ChunkLength(dosType, content, k);
    DataIsGood(image, dosType, plan, content, k);
    var chunk := Chunk(out, dosType, plan.datas[k]);
    if k + 1 < |plan.datas| {
      ContentsFrom(image, dosType, plan, content, k + 1);
      assert chunk == chunk[..n];
      HoldsStep(out, dosType, plan, content, k, n);
    } else {
      HoldsLast(out, dosType, plan, content, k);
    }
  }

  /**
   Writing then reading: whatever was in the image before, the reader reports the file complete,
   with its size and exactly its bytes.
   */
  lemma {:induction false} ReadsBackWhatWasWritten(image: seq<Byte>, dosType: Byte, plan: Plan, content: seq<Byte>)
    requires Fits(image, dosType, plan, content)
    ensures var r := PayloadSpec(Write(image, dosType, plan, content), plan.chain[0], dosType);
            r.complete && r.warning == None && r.size == |content| && r.data == content
  {
    var out := Write(image, dosType, plan, content);
    ChainFrom(image, dosType, plan, content, 0);
    ContentsFrom(image, dosType, plan, content, 0);
    assert plan.chain[0..] == plan.chain && plan.datas[0..] == plan.datas;
    MetaReads(image, dosType, plan, content, 0, BYTE_SIZE_WORD);
    hide Write, Linked, ChainPointers, Contents, AllGood, BlockWord, InImage, PayloadSpec;
    assert Evidence(out, dosType, plan.chain[0], |content|, plan.chain, plan.datas);
    CompleteExactly(out, plan.chain[0], dosType);
    SizeReported(out, plan.chain[0], dosType);
    CompleteOrWarned(out, plan.chain[0], dosType);
    assert content[Offset(dosType, 0)..] == content;
  }

  lemma {:induction false} SizeReported(image: seq<Byte>, header: nat, dosType: Byte)
    requires InImage(image, header)
    ensures PayloadSpec(image, header, dosType).size == BlockWord(image, header, BYTE_SIZE_WORD)
  {
    hide ReadChain, BlockWord, InImage;
  }
}
