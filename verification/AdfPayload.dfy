/**
 Reconstruction of file contents from OFS and FFS block chains (internal/adf/payload.go).
 */
module AdfPayload {
  import opened Common
  import opened Bytes
  import opened AdfImage

  const BYTE_SIZE_WORD := 81
  const EXTENSION_WORD := 126
  const DATA_BASE_WORD := 6
  const DATA_SLOTS := 72
  const PRIMARY_DATA := 8
  const PRIMARY_LIST := 16
  const OFS_HEADER := 24

  // No block holds more than this many bytes of file data per metadata block.
  const CHAIN_BLOCK_BYTES := 36864

  datatype Warning =
    | HeaderOutsideImage(number: nat)
    | ExtensionLoop(number: nat)
    | MetadataOutsideImage(number: nat)
    | NotAFileHeader(number: nat)
    | NotAFileExtension(number: nat)
    | InvalidBlockCount(number: nat, used: nat)
    | ZeroDataPointer(number: nat)
    | DataOutsideImage(number: nat)
    | InvalidOfsType(number: nat)
    | InvalidOfsSize(number: nat, size: nat)
    | EndedEarly(got: nat, expected: nat)

  datatype Payload = Payload(size: U32, dataBlocks: nat, complete: bool, warning: Option<Warning>, data: seq<Byte>)

  // ------------------------------------------------ one block at a time

  predicate Ofs(dosType: Byte) {
    dosType % 2 == 0
  }

  /** What is wrong with metadata block `number` of the file at `header`, if anything. */
  function MetadataFault(image: seq<Byte>, header: nat, number: nat): (w: Option<Warning>)
    ensures w == None ==> InImage(image, number) && BlockWord(image, number, 2) <= DATA_SLOTS
  {
    if !InImage(image, number) then Some(MetadataOutsideImage(number))
    else if number == header && (BlockWord(image, number, 0) != PRIMARY_HEADER || SecondaryType(image, number) != SECONDARY_FILE) then
      Some(NotAFileHeader(number))
    else if number != header && (BlockWord(image, number, 0) != PRIMARY_LIST || SecondaryType(image, number) != SECONDARY_FILE) then
      Some(NotAFileExtension(number))
    else if BlockWord(image, number, 2) > DATA_SLOTS then Some(InvalidBlockCount(number, BlockWord(image, number, 2)))
    else None
  }

  function Used(image: seq<Byte>, number: nat): nat
    requires InImage(image, number)
  {
    BlockWord(image, number, 2)
  }

  /** Data pointer i: slots are filled from word 77 downwards. */
  function Pointer(image: seq<Byte>, number: nat, i: nat): U32
    requires InImage(image, number) && i < DATA_SLOTS
  {
    BlockWord(image, number, DATA_BASE_WORD + DATA_SLOTS - 1 - i)
  }

  predicate GoodData(image: seq<Byte>, dosType: Byte, pointer: U32) {
    && pointer != 0 && InImage(image, pointer)
    && (Ofs(dosType) ==>
          BlockWord(image, pointer, 0) == PRIMARY_DATA && BlockWord(image, pointer, 3) <= BLOCK_SIZE - OFS_HEADER)
  }

  /** What is wrong with the data block that metadata block `number` points to, if anything. */
  function DataFault(image: seq<Byte>, dosType: Byte, number: nat, pointer: U32): (w: Option<Warning>)
    ensures w == None <==> GoodData(image, dosType, pointer)
  {
    if pointer == 0 then Some(ZeroDataPointer(number))
    else if !InImage(image, pointer) then Some(DataOutsideImage(pointer))
    else if Ofs(dosType) && BlockWord(image, pointer, 0) != PRIMARY_DATA then Some(InvalidOfsType(pointer))
    else if Ofs(dosType) && BlockWord(image, pointer, 3) > BLOCK_SIZE - OFS_HEADER then
      Some(InvalidOfsSize(pointer, BlockWord(image, pointer, 3)))
    else None
  }

  /** The file bytes in one data block. */
  function Chunk(image: seq<Byte>, dosType: Byte, pointer: U32): (chunk: seq<Byte>)
    requires GoodData(image, dosType, pointer)
    ensures |chunk| <= BLOCK_SIZE
  {
    var off := pointer * BLOCK_SIZE;
    if Ofs(dosType) then image[off + OFS_HEADER..off + OFS_HEADER + BlockWord(image, pointer, 3)]
    else image[off..off + BLOCK_SIZE]
  }

  // ------------------------------------------------ the traversal as recursion

  datatype Progress =
    | Failed(warning: Warning, blocks: nat)
    | Filled(data: seq<Byte>, blocks: nat)
    | More(payload: seq<Byte>, blocks: nat)

  function ReadSlots(image: seq<Byte>, dosType: Byte, number: nat, i: nat, size: nat, payload: seq<Byte>,
      blocks: nat): Progress
    requires InImage(image, number) && i <= Used(image, number) <= DATA_SLOTS
    decreases DATA_SLOTS - i
  {
    if i == Used(image, number) then More(payload, blocks)
    else
      var pointer := Pointer(image, number, i);
      match DataFault(image, dosType, number, pointer)
      case Some(w) => Failed(w, blocks)
      case None =>
        var longer := payload + Chunk(image, dosType, pointer);
        if |longer| >= size then Filled(longer[..size], blocks + 1)
        else ReadSlots(image, dosType, number, i + 1, size, longer, blocks + 1)
  }

  ghost function ReadChain(image: seq<Byte>, dosType: Byte, header: nat, current: nat, seen: set<nat>,
                           size: nat, payload: seq<Byte>, blocks: nat): Progress
    decreases |Unseen(image, seen)|
  {
    if current == 0 then Failed(EndedEarly(|payload|, size), blocks)
    else if current in seen then Failed(ExtensionLoop(current), blocks)
    else
      match MetadataFault(image, header, current)
      case Some(w) => Failed(w, blocks)
      case None =>
        UnseenShrinks(image, seen, current);
        match ReadSlots(image, dosType, current, 0, size, payload, blocks)
        case More(longer, count) =>
          ReadChain(image, dosType, header, BlockWord(image, current, EXTENSION_WORD), seen + {current}, size, longer, count)
        case done => done
  }

  function Finish(size: U32, p: Progress): Payload {
    match p
    case Filled(data, blocks) => Payload(size, blocks, true, None, data)
    case Failed(w, blocks) => Payload(size, blocks, false, Some(w), [])
    case More(payload, blocks) => Payload(size, blocks, false, Some(EndedEarly(|payload|, size)), [])
  }

  ghost function PayloadSpec(image: seq<Byte>, header: nat, dosType: Byte): Payload {
    if !InImage(image, header) then Payload(0, 0, false, Some(HeaderOutsideImage(header)), [])
    else
      var size := BlockWord(image, header, BYTE_SIZE_WORD);
      if size == 0 then Payload(0, 0, true, None, [])
      else Finish(size, ReadChain(image, dosType, header, header, {}, size, [], 0))
  }

  // ------------------------------------------------ the reader itself

  /** The data-slot loop of one metadata block. */
  method AppendDataBlocks(image: seq<Byte>, dosType: Byte, number: nat, size: U32, before: seq<Byte>, count: nat)
    returns (p: Progress)
    requires KnownSize(image)
    requires InImage(image, number) && Used(image, number) <= DATA_SLOTS
    requires |before| < size && |before| + CHAIN_BLOCK_BYTES < 0x1_0000_0000
    ensures p == ReadSlots(image, dosType, number, 0, size, before, count)
    ensures p.More? ==> |p.payload| < size && |p.payload| <= |before| + CHAIN_BLOCK_BYTES
  {
    hide DataFault, GoodData, Chunk, BlockWord, InImage;
    var payload, blocks := before, count;
    var used := BlockWord(image, number, 2);
    var i := 0;
    while i < used
      invariant 0 <= i <= used
      invariant |payload| < size && |payload| <= |before| + i * BLOCK_SIZE
      invariant ReadSlots(image, dosType, number, i, size, payload, blocks) == ReadSlots(image, dosType, number, 0, size, before, count)
    {
      var pointer := BlockWord(image, number, DATA_BASE_WORD + DATA_SLOTS - 1 - i);
      var fault := DataFault(image, dosType, number, pointer);
      if fault.Some? {
        return Failed(fault.value, blocks);
      }
      payload := payload + Chunk(image, dosType, pointer);
      blocks := blocks + 1;
      // The source compares the length truncated to 32 bits.
      if |payload| % 0x1_0000_0000 >= size {
        return Filled(payload[..size], blocks);
      }
      i := i + 1;
    }
    return More(payload, blocks);
  }

  /** The bytes gathered so far stay far below 2^32, so the truncated comparison is exact. */
  lemma {:induction false} GatheredBytesFit(image: seq<Byte>, seen: set<nat>)
    requires KnownSize(image)
    requires forall n :: n in seen ==> InImage(image, n)
    ensures |seen| * CHAIN_BLOCK_BYTES + CHAIN_BLOCK_BYTES < 0x1_0000_0000
  {
    Pigeonhole(image, seen);
  }

  /** The metadata-chain loop. */
  method ReadMetadataChain(image: seq<Byte>, header: nat, dosType: Byte, size: U32) returns (p: Progress)
    requires KnownSize(image) && size > 0
    ensures p == ReadChain(image, dosType, header, header, {}, size, [], 0)
    ensures !p.More?
  {
    hide MetadataFault, ReadSlots, BlockWord, Unseen, KnownSize, InImage;
    var payload: seq<Byte>, blocks := [], 0;
    var current: nat := header;
    var seen: set<nat> := {};
    while current != 0
      invariant forall n :: n in seen ==> InImage(image, n)
      invariant |payload| < size && |payload| <= |seen| * CHAIN_BLOCK_BYTES
      invariant ReadChain(image, dosType, header, current, seen, size, payload, blocks)
             == ReadChain(image, dosType, header, header, {}, size, [], 0)
      decreases |Unseen(image, seen)|
    {
      if current in seen {
        return Failed(ExtensionLoop(current), blocks);
      }
      var fault := MetadataFault(image, header, current);
      if fault.Some? {
        return Failed(fault.value, blocks);
      }
      GatheredBytesFit(image, seen);
      UnseenShrinks(image, seen, current);
      p := AppendDataBlocks(image, dosType, current, size, payload, blocks);
      if !p.More? {
        return;
      }
      seen := seen + {current};
      payload, blocks := p.payload, p.blocks;
      current := BlockWord(image, current, EXTENSION_WORD);
    }
    p := Failed(EndedEarly(|payload|, size), blocks);
  }

  /** `analyzeFilePayload`. */
  method AnalyzeFilePayload(image: seq<Byte>, header: nat, dosType: Byte) returns (result: Payload)
    requires KnownSize(image)
    ensures result == PayloadSpec(image, header, dosType)
  {
    if !InImage(image, header) {
      return Payload(0, 0, false, Some(HeaderOutsideImage(header)), []);
    }
    var size := BlockWord(image, header, BYTE_SIZE_WORD);
    if size == 0 {
      return Payload(0, 0, true, None, []);
    }
    var p := ReadMetadataChain(image, header, dosType, size);
    return Finish(size, p);
  }
}
