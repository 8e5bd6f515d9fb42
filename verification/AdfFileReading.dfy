/**
 What reading a file off a disk ends in, from the bytes alone: for every disk and every header block there
 is one point at which the reader stops, and the bytes there say which result or warning it gives.
 */
module AdfFileReading {
  import opened Common
  import opened Bytes
  import opened AdfImage
  import opened AdfBytes
  import opened AdfPayload
  import AdfFileChain

  // ------------------------------------------------ blocks

  /** The type word of the header is 2, that of extension blocks 16; both are of kind "file". */
  predicate TypedMeta(image: seq<Byte>, header: nat, n: nat)
    requires Inside(image, n)
  {
    Number(image, 512 * n) == (if n == header then 2 else 16) && Number(image, 512 * n + 508) == 0xFFFF_FFFD
  }

  function CountAt(image: seq<Byte>, n: nat): nat
    requires Inside(image, n)
  {
    Number(image, 512 * n + 8)
  }

  predicate MetaOk(image: seq<Byte>, header: nat, n: nat) {
    n != 0 && Inside(image, n) && TypedMeta(image, header, n) && CountAt(image, n) <= 72
  }

  function NextAt(image: seq<Byte>, n: nat): nat
    requires Inside(image, n)
  {
    Number(image, 512 * n + 504)
  }

  /** Pointer i of a metadata block; the table is filled from byte 308 downwards. */
  function PointerAt(image: seq<Byte>, n: nat, i: nat): nat
    requires Inside(image, n) && i < 72
  {
    Number(image, 512 * n + 308 - 4 * i)
  }

  predicate DataOk(image: seq<Byte>, dosType: Byte, p: nat) {
    p != 0 && Inside(image, p) && (dosType % 2 == 0 ==> Number(image, 512 * p) == 8 && Number(image, 512 * p + 12) <= 488)
  }

  /** The file bytes in a data block: after a 24-byte header in OFS, all of it in FFS. */
  function ChunkAt(image: seq<Byte>, dosType: Byte, p: nat): seq<Byte> {
    if !DataOk(image, dosType, p) then []
    else if dosType % 2 == 0 then image[512 * p + 24..512 * p + 24 + Number(image, 512 * p + 12)] else image[512 * p..512 * p + 512]
  }

  /** The first k pointers of a metadata block. */
  function PointersAt(image: seq<Byte>, n: nat, k: nat): (ps: seq<nat>)
    requires Inside(image, n) && k <= 72
    ensures |ps| == k
  {
    seq(k, i requires 0 <= i < k => PointerAt(image, n, i))
  }

  ghost predicate AllOk(image: seq<Byte>, dosType: Byte, ps: seq<nat>) {
    forall p :: p in ps ==> DataOk(image, dosType, p)
  }

  function ChunksOf(image: seq<Byte>, dosType: Byte, ps: seq<nat>): seq<Byte> {
    if ps == [] then [] else ChunksOf(image, dosType, ps[..|ps| - 1]) + ChunkAt(image, dosType, ps[|ps| - 1])
  }

  // ------------------------------------------------ where the reader stands

  /** Metadata blocks from the header on, each naming the next. */
  ghost predicate Trail(image: seq<Byte>, header: nat, chain: seq<nat>) {
    && Distinct(chain)
    && (forall j :: 0 <= j < |chain| ==> MetaOk(image, header, chain[j]))
    && (forall j :: 0 <= j < |chain| ==> chain[j] == Here(image, header, chain, j))
  }

  /** The block after the first j of a trail. */
  function Here(image: seq<Byte>, header: nat, chain: seq<nat>, j: nat): nat
    requires j <= |chain|
  {
    if j == 0 then header else if Inside(image, chain[j - 1]) then NextAt(image, chain[j - 1]) else 0
  }

  function TrailPointers(image: seq<Byte>, header: nat, chain: seq<nat>): seq<nat> {
    if chain == [] then []
    else
      var last := |chain| - 1;
      TrailPointers(image, header, chain[..last])
      + if MetaOk(image, header, chain[last]) then PointersAt(image, chain[last], CountAt(image, chain[last])) else []
  }

  /** The reader has passed these blocks, found good data through all their pointers, and is still short of the size. */
  ghost predicate Passed(image: seq<Byte>, dosType: Byte, header: nat, size: nat, chain: seq<nat>) {
    && Trail(image, header, chain)
    && AllOk(image, dosType, TrailPointers(image, header, chain))
    && |ChunksOf(image, dosType, TrailPointers(image, header, chain))| < size
  }

  /** And k more pointers of the block it stands at. */
  ghost predicate PassedInside(image: seq<Byte>, dosType: Byte, header: nat, size: nat, chain: seq<nat>, k: nat) {
    && Passed(image, dosType, header, size, chain)
    && var here := Here(image, header, chain, |chain|);
       && here !in chain && MetaOk(image, header, here) && k < CountAt(image, here)
       && AllOk(image, dosType, TrailPointers(image, header, chain) + PointersAt(image, here, k))
       && |ChunksOf(image, dosType, TrailPointers(image, header, chain) + PointersAt(image, here, k))| < size
  }

  // ------------------------------------------------ the same, as the reader computes it

  lemma {:induction false} MetaByBytes(image: seq<Byte>, header: nat, n: nat)
    requires n != 0
    ensures MetadataFault(image, header, n) == None <==> MetaOk(image, header, n)
    ensures Inside(image, n) ==>
              InImage(image, n) && BlockWord(image, n, 2) == CountAt(image, n) && BlockWord(image, n, EXTENSION_WORD) == NextAt(image, n)
    ensures !Inside(image, n) ==> MetadataFault(image, header, n) == Some(MetadataOutsideImage(n))
    ensures Inside(image, n) && !TypedMeta(image, header, n) ==>
              MetadataFault(image, header, n) == Some(if n == header then NotAFileHeader(n) else NotAFileExtension(n))
    ensures Inside(image, n) && TypedMeta(image, header, n) && CountAt(image, n) > 72 ==>
              MetadataFault(image, header, n) == Some(InvalidBlockCount(n, CountAt(image, n)))
  {
    hide Number, BlockWord;
    if Inside(image, n) {
      BlockWordIsNumber(image, n, 0);
      BlockWordIsNumber(image, n, 2);
      BlockWordIsNumber(image, n, 126);
      BlockWordIsNumber(image, n, 127);
    }
  }

  lemma {:induction false} PointerByBytes(image: seq<Byte>, n: nat, i: nat)
    requires Inside(image, n) && i < 72
    ensures InImage(image, n) && Pointer(image, n, i) == PointerAt(image, n, i)
  {
    hide Number, BlockWord;
    BlockWordIsNumber(image, n, 77 - i);
  }

  lemma {:induction false} DataByBytes(image: seq<Byte>, dosType: Byte, number: nat, p: U32)
    ensures DataFault(image, dosType, number, p) == None <==> DataOk(image, dosType, p)
    ensures DataOk(image, dosType, p) ==> GoodData(image, dosType, p) && Chunk(image, dosType, p) == ChunkAt(image, dosType, p)
    ensures p == 0 ==> DataFault(image, dosType, number, p) == Some(ZeroDataPointer(number))
    ensures p != 0 && !Inside(image, p) ==> DataFault(image, dosType, number, p) == Some(DataOutsideImage(p))
    ensures p != 0 && Inside(image, p) && dosType % 2 == 0 && Number(image, 512 * p) != 8 ==>
              DataFault(image, dosType, number, p) == Some(InvalidOfsType(p))
    ensures p != 0 && Inside(image, p) && dosType % 2 == 0 && Number(image, 512 * p) == 8 && Number(image, 512 * p + 12) > 488 ==>
              DataFault(image, dosType, number, p) == Some(InvalidOfsSize(p, Number(image, 512 * p + 12)))
  {
    hide Number, BlockWord;
    if Inside(image, p) {
      BlockWordIsNumber(image, p, 0);
      BlockWordIsNumber(image, p, 3);
    }
  }

  // ------------------------------------------------ forward along the trail

  lemma {:induction false} ChunksConcat(image: seq<Byte>, dosType: Byte, a: seq<nat>, p: nat)
    requires AllOk(image, dosType, a + [p])
    ensures AllOk(image, dosType, a) && DataOk(image, dosType, p)
    ensures ChunksOf(image, dosType, a + [p]) == ChunksOf(image, dosType, a) + ChunkAt(image, dosType, p)
  {
    hide DataOk, ChunkAt;
    var all := a + [p];
    assert all[..|all| - 1] == a && all[|all| - 1] == p;
    assert forall q :: q in a ==> q in all;
    assert p in all;
  }

  lemma {:induction false} ChunksSnoc(image: seq<Byte>, dosType: Byte, a: seq<nat>, p: nat)
    ensures ChunksOf(image, dosType, a + [p]) == ChunksOf(image, dosType, a) + ChunkAt(image, dosType, p)
  {
    hide ChunkAt;
    assert (a + [p])[..|a|] == a;
  }

  /** The first pointers of a block, when they are good and leave the file short. */
  lemma {:induction false} SlotsStep(image: seq<Byte>, dosType: Byte, n: nat, size: nat, before: seq<nat>, k: nat)
    requires Inside(image, n) && k <= CountAt(image, n) <= 72
    requires AllOk(image, dosType, before + PointersAt(image, n, k))
    requires |ChunksOf(image, dosType, before + PointersAt(image, n, k))| < size
    ensures AllOk(image, dosType, before)
    ensures InImage(image, n) && Used(image, n) == CountAt(image, n)
    ensures ReadSlots(image, dosType, n, 0, size, ChunksOf(image, dosType, before), |before|)
         == ReadSlots(image, dosType, n, k, size, ChunksOf(image, dosType, before + PointersAt(image, n, k)), |before| + k)
    decreases k
  {
    hide Number, BlockWord, ChunkAt, Chunk, DataFault, GoodData, DataOk, PointerAt, Pointer;
    assert Used(image, n) == CountAt(image, n) by { CountByBytes(image, n); }
    if k == 0 {
      assert before + PointersAt(image, n, 0) == before;
    } else {
      var shorter := before + PointersAt(image, n, k - 1);
      var p := PointerAt(image, n, k - 1);
      assert before + PointersAt(image, n, k) == shorter + [p];
      ChunksConcat(image, dosType, shorter, p);
      SlotsStep(image, dosType, n, size, before, k - 1);
      PointerByBytes(image, n, k - 1);
      DataByBytes(image, dosType, n, p);
    }
  }

  lemma {:induction false} CountByBytes(image: seq<Byte>, n: nat)
    requires Inside(image, n)
    ensures InImage(image, n) && Used(image, n) == CountAt(image, n)
  {
    hide Number, BlockWord;
    BlockWordIsNumber(image, n, 2);
  }

  ghost function Elements(chain: seq<nat>): set<nat> {
    set n | n in chain
  }

  lemma {:induction false} TrailLast(image: seq<Byte>, header: nat, chain: seq<nat>)
    requires Trail(image, header, chain) && chain != []
    ensures var last := |chain| - 1;
            && Trail(image, header, chain[..last])
            && chain[last] == Here(image, header, chain[..last], last) && MetaOk(image, header, chain[last])
            && chain[last] !in chain[..last]
  {
    hide MetaOk, NextAt;
    var last := |chain| - 1;
    var front := chain[..last];
    forall j | 0 <= j < |front| ensures front[j] == Here(image, header, front, j) { assert chain[j] == Here(image, header, chain, j); }
    assert chain[last] == Here(image, header, chain, last);
  }

  lemma {:induction false} PassedPrefix(image: seq<Byte>, dosType: Byte, header: nat, size: nat, chain: seq<nat>)
    requires Passed(image, dosType, header, size, chain) && chain != []
    ensures var last := |chain| - 1;
            && Passed(image, dosType, header, size, chain[..last])
            && chain[last] == Here(image, header, chain[..last], last) && MetaOk(image, header, chain[last])
            && chain[last] !in chain[..last] && Inside(image, chain[last]) && CountAt(image, chain[last]) <= 72
            && TrailPointers(image, header, chain)
               == TrailPointers(image, header, chain[..last]) + PointersAt(image, chain[last], CountAt(image, chain[last]))
  {
    TrailLast(image, header, chain);
    var last := |chain| - 1;
    MetaInside(image, header, chain[last]);
    hide MetaOk, DataOk, ChunkAt, CountAt, Trail, Here, AllOk, Inside, PointersAt, ChunksOf;
    ChunksPrefix(image, dosType, TrailPointers(image, header, chain[..last]), PointersAt(image, chain[last], CountAt(image, chain[last])));
  }

  lemma {:induction false} ChunksPrefix(image: seq<Byte>, dosType: Byte, a: seq<nat>, b: seq<nat>)
    requires AllOk(image, dosType, a + b)
    ensures AllOk(image, dosType, a) && |ChunksOf(image, dosType, a)| <= |ChunksOf(image, dosType, a + b)|
    decreases |b|
  {
    hide DataOk, ChunkAt;
    if b == [] {
      assert a + b == a;
    } else {
      var front := b[..|b| - 1];
      assert a + b == (a + front) + [b[|b| - 1]];
      ChunksConcat(image, dosType, a + front, b[|b| - 1]);
      ChunksPrefix(image, dosType, a, front);
    }
  }

  /** Reading from the header comes to where the trail ends, with what its data blocks held. */
  lemma {:induction false} TrailStep(image: seq<Byte>, dosType: Byte, header: nat, size: nat, chain: seq<nat>)
    requires Passed(image, dosType, header, size, chain)
    ensures var ps := TrailPointers(image, header, chain);
            ReadChain(image, dosType, header, header, {}, size, [], 0)
            == ReadChain(image, dosType, header, Here(image, header, chain, |chain|), Elements(chain), size,
                         ChunksOf(image, dosType, ps), |ps|)
    decreases |chain|
  {
    hide MetaOk, ReadChain, ChunksOf, TrailPointers, Passed, PointersAt, AllOk, Here, CountAt, Inside;
    if chain == [] {
      assert Elements([]) == {};
      NoTrail(image, dosType, header);
    } else {
      var last := |chain| - 1;
      var front, n := chain[..last], chain[last];
      PassedPrefix(image, dosType, header, size, chain);
      TrailStep(image, dosType, header, size, front);
      assert Elements(chain) == Elements(front) + {n} by { assert chain == front + [n]; }
      PassedFacts(image, dosType, header, size, chain);
      BlockStep(image, dosType, header, size, n, Elements(front), TrailPointers(image, header, front));
      HereIsNext(image, header, chain);
    }
  }

  lemma {:induction false} NoTrail(image: seq<Byte>, dosType: Byte, header: nat)
    ensures TrailPointers(image, header, []) == [] && ChunksOf(image, dosType, []) == [] && Here(image, header, [], 0) == header
  {
  }

  lemma {:induction false} HereIsNext(image: seq<Byte>, header: nat, chain: seq<nat>)
    requires chain != [] && Inside(image, chain[|chain| - 1])
    ensures Here(image, header, chain, |chain|) == NextAt(image, chain[|chain| - 1])
  {
  }

  lemma {:induction false} PassedFacts(image: seq<Byte>, dosType: Byte, header: nat, size: nat, chain: seq<nat>)
    requires Passed(image, dosType, header, size, chain)
    ensures AllOk(image, dosType, TrailPointers(image, header, chain))
    ensures |ChunksOf(image, dosType, TrailPointers(image, header, chain))| < size
  {
    hide AllOk, ChunksOf, TrailPointers, Trail;
  }

  /** One whole block. */
  lemma {:induction false} BlockStep(image: seq<Byte>, dosType: Byte, header: nat, size: nat, n: nat, seen: set<nat>, before: seq<nat>)
    requires MetaOk(image, header, n) && n !in seen
    requires AllOk(image, dosType, before + PointersAt(image, n, CountAt(image, n)))
    requires |ChunksOf(image, dosType, before + PointersAt(image, n, CountAt(image, n)))| < size
    ensures AllOk(image, dosType, before)
    ensures var after := before + PointersAt(image, n, CountAt(image, n));
            ReadChain(image, dosType, header, n, seen, size, ChunksOf(image, dosType, before), |before|)
            == ReadChain(image, dosType, header, NextAt(image, n), seen + {n}, size, ChunksOf(image, dosType, after), |after|)
  {
    hide AllOk, ChunksOf, MetadataFault, BlockWord, TypedMeta, ReadSlots, Unseen, PointersAt, CountAt, NextAt, Inside;
    MetaByBytes(image, header, n);
    UnseenShrinks(image, seen, n);
    SlotsStep(image, dosType, n, size, before, CountAt(image, n));
    AllSlots(image, dosType, n, size, before + PointersAt(image, n, CountAt(image, n)));
  }

  lemma {:induction false} AllSlots(image: seq<Byte>, dosType: Byte, n: nat, size: nat, ps: seq<nat>)
    requires Inside(image, n) && CountAt(image, n) <= 72
    ensures InImage(image, n) && Used(image, n) == CountAt(image, n)
    ensures ReadSlots(image, dosType, n, CountAt(image, n), size, ChunksOf(image, dosType, ps), |ps|)
         == More(ChunksOf(image, dosType, ps), |ps|)
  {
    hide ChunksOf, Number, BlockWord;
    CountByBytes(image, n);
  }

  // ------------------------------------------------ where it stops

  /** Where the reader stops: at the block after `chain`, at pointer k of it, or with pointer k of it completing the file. */
  datatype End =
    | AtBlock(chain: seq<nat>, w: Warning)
    | AtPointer(chain: seq<nat>, k: nat, w: Warning)
    | Complete(chain: seq<nat>, k: nat)

  /** The block after `chain` is none, seen before, outside the disk, of another type, or has too many pointers. */
  predicate BadBlock(image: seq<Byte>, header: nat, size: nat, got: nat, chain: seq<nat>, n: nat, w: Warning) {
    match w
    case EndedEarly(g, expected) => n == 0 && expected == size && g == got
    case ExtensionLoop(m) => m == n && n != 0 && n in chain
    case MetadataOutsideImage(m) => m == n && n != 0 && n !in chain && !Inside(image, n)
    case NotAFileHeader(m) => m == n == header && n != 0 && n !in chain && Inside(image, n) && !TypedMeta(image, header, n)
    case NotAFileExtension(m) => m == n != header && n != 0 && n !in chain && Inside(image, n) && !TypedMeta(image, header, n)
    case InvalidBlockCount(m, used) =>
      && m == n && n != 0 && n !in chain && Inside(image, n) && TypedMeta(image, header, n)
      && used == CountAt(image, n) > 72
    case _ => false
  }

  /** The data block a pointer names is none, outside the disk, or no OFS data block. */
  predicate BadPointer(image: seq<Byte>, dosType: Byte, n: nat, p: nat, w: Warning) {
    match w
    case ZeroDataPointer(m) => m == n && p == 0
    case DataOutsideImage(q) => q == p && p != 0 && !Inside(image, p)
    case InvalidOfsType(q) => q == p && p != 0 && Inside(image, p) && dosType % 2 == 0 && Number(image, 512 * p) != 8
    case InvalidOfsSize(q, length) =>
      && q == p && p != 0 && Inside(image, p) && dosType % 2 == 0 && Number(image, 512 * p) == 8
      && length == Number(image, 512 * p + 12) > 488
    case _ => false
  }

  ghost predicate Ends(image: seq<Byte>, dosType: Byte, header: nat, size: nat, e: End) {
    var n := Here(image, header, e.chain, |e.chain|);
    var before := TrailPointers(image, header, e.chain);
    match e
    case AtBlock(chain, w) =>
      Passed(image, dosType, header, size, chain) && BadBlock(image, header, size, |ChunksOf(image, dosType, before)|, chain, n, w)
    case AtPointer(chain, k, w) =>
      PassedInside(image, dosType, header, size, chain, k) && BadPointer(image, dosType, n, PointerAt(image, n, k), w)
    case Complete(chain, k) =>
      && PassedInside(image, dosType, header, size, chain, k)
      && DataOk(image, dosType, PointerAt(image, n, k))
      && |ChunksOf(image, dosType, before + PointersAt(image, n, k + 1))| >= size
  }

  /** What is reported then. */
  function Report(image: seq<Byte>, dosType: Byte, header: nat, size: U32, e: End): Payload {
    var n := Here(image, header, e.chain, |e.chain|);
    var before := TrailPointers(image, header, e.chain);
    match e
    case AtBlock(_, w) => Payload(size, |before|, false, Some(w), [])
    case AtPointer(_, k, w) => Payload(size, |before| + k, false, Some(w), [])
    case Complete(_, k) =>
      if !Inside(image, n) || k >= 72 then Payload(size, 0, false, None, [])
      else
        var data := ChunksOf(image, dosType, before + PointersAt(image, n, k + 1));
        Payload(size, |before| + k + 1, true, None, if size <= |data| then data[..size] else data)
  }

  /** The header block of a file that is not empty. */
  predicate Sized(image: seq<Byte>, header: nat, size: nat) {
    Inside(image, header) && size == Number(image, 512 * header + 324) && size > 0
  }

  lemma {:induction false} PayloadOfSized(image: seq<Byte>, dosType: Byte, header: nat, size: nat)
    requires Sized(image, header, size)
    ensures size < 0x1_0000_0000
    ensures PayloadSpec(image, header, dosType) == Finish(size, ReadChain(image, dosType, header, header, {}, size, [], 0))
  {
    hide Number, BlockWord, ReadChain;
    BlockWordIsNumber(image, header, 81);
  }

  lemma {:induction false} BlockIsReported(image: seq<Byte>, dosType: Byte, header: nat, size: U32, chain: seq<nat>, w: Warning)
    requires Sized(image, header, size) && Ends(image, dosType, header, size, AtBlock(chain, w))
    ensures PayloadSpec(image, header, dosType) == Report(image, dosType, header, size, AtBlock(chain, w))
  {
    hide MetaOk, DataOk, ChunkAt, ChunksOf, TrailPointers, MetadataFault, ReadSlots, Number, PayloadSpec, Passed, TypedMeta, Sized, Here;
    PayloadOfSized(image, dosType, header, size);
    TrailStep(image, dosType, header, size, chain);
    var n := Here(image, header, chain, |chain|);
    if n != 0 {
      MetaByBytes(image, header, n);
    }
  }

  /** Where the reader stands inside a block. */
  lemma {:induction false} InsideStep(image: seq<Byte>, dosType: Byte, header: nat, size: nat, chain: seq<nat>, k: nat)
    requires PassedInside(image, dosType, header, size, chain, k)
    ensures var n := Here(image, header, chain, |chain|);
            var before := TrailPointers(image, header, chain);
            var ps := before + PointersAt(image, n, k);
            && InImage(image, n) && Used(image, n) == CountAt(image, n)
            && var p := ReadSlots(image, dosType, n, k, size, ChunksOf(image, dosType, ps), |ps|);
               !p.More? ==> ReadChain(image, dosType, header, header, {}, size, [], 0) == p
  {
    hide DataOk, ChunkAt, ChunksOf, TrailPointers, MetadataFault, ReadSlots, Number, Trail, TypedMeta;
    var n := Here(image, header, chain, |chain|);
    var before := TrailPointers(image, header, chain);
    TrailStep(image, dosType, header, size, chain);
    SlotsStep(image, dosType, n, size, before, k);
    MetaByBytes(image, header, n);
    UnseenShrinks(image, Elements(chain), n);
  }

  lemma {:induction false} PointerIsReported(image: seq<Byte>, dosType: Byte, header: nat, size: U32, e: End)
    requires Sized(image, header, size) && Ends(image, dosType, header, size, e) && !e.AtBlock?
    ensures PayloadSpec(image, header, dosType) == Report(image, dosType, header, size, e)
  {
    hide MetaOk, DataOk, ChunkAt, ChunksOf, TrailPointers, DataFault, Number, PayloadSpec, Passed, ReadChain, PointerAt, Pointer, Chunk,
         Sized, Here, AllOk;
    PayloadOfSized(image, dosType, header, size);
    InsideStep(image, dosType, header, size, e.chain, e.k);
    var n := Here(image, header, e.chain, |e.chain|);
    MetaInside(image, header, n);
    var p := PointerAt(image, n, e.k);
    PointerByBytes(image, n, e.k);
    DataByBytes(image, dosType, n, p);
    if e.Complete? {
      var ps := TrailPointers(image, header, e.chain) + PointersAt(image, n, e.k);
      assert TrailPointers(image, header, e.chain) + PointersAt(image, n, e.k + 1) == ps + [p];
      ChunksSnoc(image, dosType, ps, p);
    }
  }

  // ------------------------------------------------ it stops somewhere

  lemma {:induction false} EndFrom(image: seq<Byte>, dosType: Byte, header: nat, size: nat, chain: seq<nat>) returns (e: End)
    requires Passed(image, dosType, header, size, chain)
    ensures Ends(image, dosType, header, size, e)
    decreases |Unseen(image, Elements(chain))|
  {
    hide DataOk, ChunkAt, ChunksOf, TrailPointers, Number, Passed, Unseen, PointersAt, TypedMeta, CountAt, Here;
    var n := Here(image, header, chain, |chain|);
    if n == 0 {
      e := AtBlock(chain, EndedEarly(|ChunksOf(image, dosType, TrailPointers(image, header, chain))|, size));
    } else if n in chain {
      e := AtBlock(chain, ExtensionLoop(n));
    } else if !Inside(image, n) {
      e := AtBlock(chain, MetadataOutsideImage(n));
    } else if !TypedMeta(image, header, n) {
      e := AtBlock(chain, if n == header then NotAFileHeader(n) else NotAFileExtension(n));
    } else if CountAt(image, n) > 72 {
      e := AtBlock(chain, InvalidBlockCount(n, CountAt(image, n)));
    } else {
      StandsInside(image, dosType, header, size, chain);
      var longer;
      longer, e := EndInBlock(image, dosType, header, size, chain, 0);
      if longer {
        UnseenShrinks(image, Elements(chain), n);
        assert Elements(chain + [n]) == Elements(chain) + {n};
        e := EndFrom(image, dosType, header, size, chain + [n]);
      }
    }
  }

  /** All conditions for standing at pointer k of the block after the trail, but that there is such a pointer. */
  ghost predicate Stands(image: seq<Byte>, dosType: Byte, header: nat, size: nat, chain: seq<nat>, k: nat) {
    && Passed(image, dosType, header, size, chain)
    && var n := Here(image, header, chain, |chain|);
       && n !in chain && MetaOk(image, header, n) && k <= CountAt(image, n)
       && AllOk(image, dosType, TrailPointers(image, header, chain) + PointersAt(image, n, k))
       && |ChunksOf(image, dosType, TrailPointers(image, header, chain) + PointersAt(image, n, k))| < size
  }

  lemma {:induction false} StandsInside(image: seq<Byte>, dosType: Byte, header: nat, size: nat, chain: seq<nat>)
    requires Passed(image, dosType, header, size, chain)
    requires var n := Here(image, header, chain, |chain|); n !in chain && MetaOk(image, header, n)
    ensures Stands(image, dosType, header, size, chain, 0)
  {
    hide DataOk, ChunksOf, TrailPointers, Trail, TypedMeta, Number;
    var before, n := TrailPointers(image, header, chain), Here(image, header, chain, |chain|);
    assert before + PointersAt(image, n, 0) == before;
  }

  /** Within a block: it stops there, or passes it whole. */
  lemma {:induction false} EndInBlock(image: seq<Byte>, dosType: Byte, header: nat, size: nat, chain: seq<nat>, k: nat)
    returns (longer: bool, e: End)
    requires Stands(image, dosType, header, size, chain, k)
    ensures if longer then Passed(image, dosType, header, size, chain + [Here(image, header, chain, |chain|)])
            else Ends(image, dosType, header, size, e)
    decreases 72 - k
  {
    hide DataOk, ChunksOf, TrailPointers, Number, Passed, PointersAt, MetaOk, PointerAt, AllOk, Here, Inside;
    var n := Here(image, header, chain, |chain|);
    MetaInside(image, header, n);
    var before := TrailPointers(image, header, chain);
    e := Complete(chain, k);
    longer := false;
    if k == CountAt(image, n) {
      WholeBlock(image, dosType, header, size, chain);
      longer := true;
    } else if !DataOk(image, dosType, PointerAt(image, n, k)) {
      var w := Badness(image, dosType, n, PointerAt(image, n, k));
      e := AtPointer(chain, k, w);
    } else if |ChunksOf(image, dosType, before + PointersAt(image, n, k + 1))| < size {
      OnePointerMore(image, dosType, n, before, k);
      longer, e := EndInBlock(image, dosType, header, size, chain, k + 1);
    }
  }

  lemma {:induction false} OnePointerMore(image: seq<Byte>, dosType: Byte, n: nat, before: seq<nat>, k: nat)
    requires Inside(image, n) && k < 72 && AllOk(image, dosType, before + PointersAt(image, n, k))
    requires DataOk(image, dosType, PointerAt(image, n, k))
    ensures AllOk(image, dosType, before + PointersAt(image, n, k + 1))
  {
    hide DataOk, PointerAt;
    assert before + PointersAt(image, n, k + 1) == before + PointersAt(image, n, k) + [PointerAt(image, n, k)];
  }

  lemma {:induction false} Badness(image: seq<Byte>, dosType: Byte, n: nat, p: nat) returns (w: Warning)
    requires !DataOk(image, dosType, p)
    ensures BadPointer(image, dosType, n, p, w)
  {
    hide Number;
    w := if p == 0 then ZeroDataPointer(n)
         else if !Inside(image, p) then DataOutsideImage(p)
         else if Number(image, 512 * p) != 8 then InvalidOfsType(p)
         else InvalidOfsSize(p, Number(image, 512 * p + 12));
  }

  lemma {:induction false} MetaInside(image: seq<Byte>, header: nat, n: nat)
    requires MetaOk(image, header, n)
    ensures Inside(image, n) && CountAt(image, n) <= 72
  {
  }

  lemma {:induction false} WholeBlock(image: seq<Byte>, dosType: Byte, header: nat, size: nat, chain: seq<nat>)
    requires Inside(image, Here(image, header, chain, |chain|))
    requires Stands(image, dosType, header, size, chain, CountAt(image, Here(image, header, chain, |chain|)))
    ensures Passed(image, dosType, header, size, chain + [Here(image, header, chain, |chain|)])
  {
    hide DataOk, ChunkAt, ChunksOf, MetaOk, PointersAt, Number, CountAt;
    var n := Here(image, header, chain, |chain|);
    var longer := chain + [n];
    assert longer[..|longer| - 1] == chain && longer[|longer| - 1] == n;
    forall j | 0 <= j < |longer| ensures longer[j] == Here(image, header, longer, j) {
      if j < |chain| { assert chain[j] == Here(image, header, chain, j); }
    }
  }

  /**
   Reading any file of any disk stops at some point of its chain of blocks, and what the bytes there are
   fixes the whole result: the data and the number of blocks read, or the warning.
   */
  lemma {:induction false} ReadingEnds(image: seq<Byte>, dosType: Byte, header: nat, size: U32)
    requires Sized(image, header, size)
    ensures exists e :: Ends(image, dosType, header, size, e)
    ensures forall e :: Ends(image, dosType, header, size, e) ==>
              PayloadSpec(image, header, dosType) == Report(image, dosType, header, size, e)
  {
    hide Ends, PayloadSpec, Report, Sized;
    NothingPassed(image, dosType, header, size);
    var e := EndFrom(image, dosType, header, size, []);
    forall e | Ends(image, dosType, header, size, e)
      ensures PayloadSpec(image, header, dosType) == Report(image, dosType, header, size, e)
    {
      if e.AtBlock? {
        BlockIsReported(image, dosType, header, size, e.chain, e.w);
      } else {
        PointerIsReported(image, dosType, header, size, e);
      }
    }
  }

  lemma {:induction false} NothingPassed(image: seq<Byte>, dosType: Byte, header: nat, size: nat)
    requires Sized(image, header, size)
    ensures Passed(image, dosType, header, size, [])
  {
  }

  /** And the rest: an empty file is complete, and a header outside the disk is reported. */
  lemma {:induction false} OtherReadings(image: seq<Byte>, dosType: Byte, header: nat)
    ensures !Inside(image, header) ==>
              PayloadSpec(image, header, dosType) == Payload(0, 0, false, Some(HeaderOutsideImage(header)), [])
    ensures Inside(image, header) && Number(image, 512 * header + 324) == 0 ==>
              PayloadSpec(image, header, dosType) == Payload(0, 0, true, None, [])
  {
    hide Number, BlockWord;
    if Inside(image, header) {
      BlockWordIsNumber(image, header, 81);
    }
  }
}
