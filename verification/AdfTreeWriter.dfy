/**
 A reference writer for directory trees.  Its disk lays out the tree that was written, so that the
 reader lists exactly that tree, in preorder, with every name and path.
 */
module AdfTreeWriter {
  import opened Common
  import opened Bytes
  import opened AdfBytes
  import opened AdfImage
  import opened AdfFilesystem
  import opened AdfTree
  import opened AdfLayout
  import Paths

  // ------------------------------------------------ the listing of a laid out tree

  datatype Row = Row(name: Paths.Name, isFile: bool, header: nat)

  /** What a tree should be listed as: every node before what is below it, chain by chain and slot by slot. */
  function RowsOfNode(node: Node): seq<Row> {
    match node
    case File(name, header) => [Row(name, true, header)]
    case Dir(name, header, slots) => [Row(name, false, header)] + RowsOfSlots(slots)
  }

  function RowsOfChain(chain: Chain): seq<Row> {
    match chain
    case End => []
    case Link(node, rest) => RowsOfNode(node) + RowsOfChain(rest)
  }

  function RowsOfSlots(slots: Slots): seq<Row> {
    match slots
    case NoSlots => []
    case Slot(chain, rest) => RowsOfChain(chain) + RowsOfSlots(rest)
  }

  function Rows(es: seq<Entry>): seq<Row> {
    seq(|es|, i requires 0 <= i < |es| => Row(es[i].name, es[i].isFile, es[i].header))
  }

  lemma {:induction false} RowsConcat(a: seq<Entry>, b: seq<Entry>)
    ensures Rows(a + b) == Rows(a) + Rows(b)
  {
  }

  lemma {:induction false} NodeRows(image: seq<Byte>, dosType: Byte, parent: Paths.Name, node: Node)
    ensures Rows(ListNode(image, dosType, parent, node)) == RowsOfNode(node)
    decreases node
  {
    hide Paths.JoinPath;
    if node.Dir? {
      var path := Paths.JoinPath(parent, node.name);
      SlotsRows(image, dosType, path, node.slots);
      RowsConcat([DirectoryEntry(path, node.name, node.header)], ListSlots(image, dosType, path, node.slots));
    }
  }

  lemma {:induction false} ChainRows(image: seq<Byte>, dosType: Byte, parent: Paths.Name, chain: Chain)
    ensures Rows(ListChain(image, dosType, parent, chain)) == RowsOfChain(chain)
    decreases chain
  {
    hide ListNode, RowsOfNode;
    if chain.Link? {
      NodeRows(image, dosType, parent, chain.node);
      ChainRows(image, dosType, parent, chain.rest);
      RowsConcat(ListNode(image, dosType, parent, chain.node), ListChain(image, dosType, parent, chain.rest));
    }
  }

  lemma {:induction false} SlotsRows(image: seq<Byte>, dosType: Byte, parent: Paths.Name, slots: Slots)
    ensures Rows(ListSlots(image, dosType, parent, slots)) == RowsOfSlots(slots)
    decreases slots
  {
    hide ListChain, RowsOfChain;
    if slots.Slot? {
      ChainRows(image, dosType, parent, slots.chain);
      SlotsRows(image, dosType, parent, slots.rest);
      RowsConcat(ListChain(image, dosType, parent, slots.chain), ListSlots(image, dosType, parent, slots.rest));
    }
  }

  /**
   A disk whose bytes lay out a tree is listed as that tree: its names, kinds and header blocks in
   preorder, its paths spelled out when the names are ordinary, and no warning but about file contents.
   */
  lemma {:induction false} LaidTreeIsListed(image: seq<Byte>, slots: Slots)
    requires KnownSize(image) && LaysTree(image, slots)
    ensures var st := AnalyzeSpec(image);
            && Rows(st.entries) == RowsOfSlots(slots)
            && (OrdinarySlots(slots) ==> PathsOf(st.entries) == SpelledSlots([], slots))
            && (forall w :: w in st.warnings ==> AboutContents(w))
            && st.expanded == [Root(image)] + DirsOfSlots(slots)
  {
    hide AnalyzeSpec, ListSlots, RowsOfSlots, SpelledSlots, HoldsTree, LaysTree, OrdinarySlots, DirsOfSlots, RootBlock, Root, Notes;
    HeldExactlyWhenLaid(image, slots);
    TreeListedInPreorder(image, slots);
    RootIsThere(image);
    SlotsRows(image, image[3], [], slots);
    if OrdinarySlots(slots) {
      TreePathsSpelled(image, slots);
    }
    var st := AnalyzeSpec(image);
    forall w | w in st.warnings ensures AboutContents(w) {
      var i :| 0 <= i < |st.warnings| && st.warnings[i] == w;
      NotesAboutContents(st.entries, i);
    }
  }

  /** And no other disk is listed without such a warning. */
  lemma {:induction false} QuietExactlyWhenLaid(image: seq<Byte>)
    requires KnownSize(image)
    ensures (forall i :: 0 <= i < |AnalyzeSpec(image).warnings| ==> AboutContents(AnalyzeSpec(image).warnings[i]))
            <==> exists slots :: LaysTree(image, slots)
  {
    hide AnalyzeSpec, HoldsTree, LaysTree;
    QuietExactlyOnTrees(image);
    if slots :| HoldsTree(image, slots) {
      HeldExactlyWhenLaid(image, slots);
      assert LaysTree(image, slots);
    }
    if slots :| LaysTree(image, slots) {
      HeldExactlyWhenLaid(image, slots);
      assert HoldsTree(image, slots);
    }
  }

  // ------------------------------------------------ the writer

  /** A node and the header that follows it in its hash chain. */
  datatype Placed = Placed(node: Node, next: nat)

  function HeadOf(chain: Chain): nat {
    match chain
    case End => 0
    case Link(node, _) => node.header
  }

  function HeadsOf(slots: Slots): (heads: seq<nat>)
    ensures |heads| == SlotCount(slots)
  {
    match slots
    case NoSlots => []
    case Slot(chain, rest) => [HeadOf(chain)] + HeadsOf(rest)
  }

  function PlacedNode(node: Node, next: nat): seq<Placed>
    decreases node
  {
    [Placed(node, next)] + if node.Dir? then PlacedSlots(node.slots) else []
  }

  function PlacedChain(chain: Chain): seq<Placed>
    decreases chain
  {
    match chain
    case End => []
    case Link(node, rest) => PlacedNode(node, HeadOf(rest)) + PlacedChain(rest)
  }

  function PlacedSlots(slots: Slots): seq<Placed>
    decreases slots
  {
    match slots
    case NoSlots => []
    case Slot(chain, rest) => PlacedChain(chain) + PlacedSlots(rest)
  }

  /** Names, hash tables and nesting that the format has room for. */
  predicate WritableNode(node: Node, depth: nat)
    decreases node
  {
    1 <= |node.name| <= 30 && (node.Dir? ==> WritableDirectory(node.slots, depth + 1))
  }

  predicate WritableChain(chain: Chain, depth: nat)
    decreases chain
  {
    chain.Link? ==> WritableNode(chain.node, depth) && WritableChain(chain.rest, depth)
  }

  predicate WritableSlots(slots: Slots, depth: nat)
    decreases slots, 0
  {
    slots.Slot? ==> WritableChain(slots.chain, depth) && WritableSlots(slots.rest, depth)
  }

  predicate WritableDirectory(slots: Slots, depth: nat)
    decreases slots, 1
  {
    depth <= 64 && 1 <= SlotCount(slots) <= 72 && WritableSlots(slots, depth)
  }

  /** Every header has a block of its own, neither the bootblock nor the root block. */
  ghost predicate Allocated(placed: seq<Placed>, root: nat, blocks: nat) {
    && 0 < root < blocks
    && (forall p :: p in placed ==> 0 < p.node.header < blocks && p.node.header != root)
    && (forall i, j :: 0 <= i < j < |placed| ==> placed[i].node.header != placed[j].node.header)
  }

  ghost predicate Writable(image: seq<Byte>, slots: Slots) {
    && KnownSize(image)
    && WritableDirectory(slots, 0)
    && Allocated(PlacedSlots(slots), Root(image), |image| / 512)
  }

  function Find(placed: seq<Placed>, n: nat): Option<Placed> {
    if placed == [] then None
    else if placed[0].node.header == n then Some(placed[0])
    else Find(placed[1..], n)
  }

  /** Byte k of a big-endian number. */
  function Digit256(v: nat, k: nat): Byte
    requires k < 4
  {
    if k == 0 then v / 16777216 % 256 else if k == 1 then v / 65536 % 256 else if k == 2 then v / 256 % 256 else v % 256
  }

  /** Byte o of a header block; what the format leaves to others keeps its value. */
  function HeaderByte(kind: nat, heads: seq<nat>, next: nat, name: Paths.Name, o: nat, was: Byte): Byte
    requires |heads| <= 72 && |name| <= 30
  {
    if o == 432 && name != [] then |name|
    else if 433 <= o < 433 + |name| then name[o - 433]
    else if o < 4 then Digit256(2, o)
    else if 12 <= o < 16 && heads != [] then Digit256(|heads|, o - 12)
    else if 24 <= o < 24 + 4 * |heads| then Digit256(heads[(o - 24) / 4], (o - 24) % 4)
    else if 496 <= o < 500 then Digit256(next, o - 496)
    else if 508 <= o < 512 then Digit256(kind, o - 508)
    else was
  }

  /** A file's header or a directory's. */
  function PlacedByte(p: Placed, o: nat, was: Byte): Byte
    requires |p.node.name| <= 30 && (p.node.Dir? ==> SlotCount(p.node.slots) <= 72)
  {
    if p.node.File? then HeaderByte(0xFFFF_FFFD, [], p.next, p.node.name, o, was)
    else HeaderByte(2, HeadsOf(p.node.slots), p.next, p.node.name, o, was)
  }

  predicate Sized(p: Placed) {
    1 <= |p.node.name| <= 30 && (p.node.Dir? ==> SlotCount(p.node.slots) <= 72)
  }

  lemma {:induction false} NodeSized(node: Node, next: nat, depth: nat)
    requires WritableNode(node, depth)
    ensures forall p :: p in PlacedNode(node, next) ==> Sized(p)
    decreases node
  {
    if node.Dir? {
      SlotsSized(node.slots, depth + 1);
    }
  }

  lemma {:induction false} ChainSized(chain: Chain, depth: nat)
    requires WritableChain(chain, depth)
    ensures forall p :: p in PlacedChain(chain) ==> Sized(p)
    decreases chain
  {
    hide Sized;
    if chain.Link? {
      NodeSized(chain.node, HeadOf(chain.rest), depth);
      ChainSized(chain.rest, depth);
    }
  }

  lemma {:induction false} SlotsSized(slots: Slots, depth: nat)
    requires WritableSlots(slots, depth)
    ensures forall p :: p in PlacedSlots(slots) ==> Sized(p)
    decreases slots
  {
    hide Sized;
    if slots.Slot? {
      ChainSized(slots.chain, depth);
      SlotsSized(slots.rest, depth);
    }
  }

  lemma {:induction false} FoundIsPlaced(placed: seq<Placed>, n: nat)
    ensures Find(placed, n).Some? ==> Find(placed, n).value in placed && Find(placed, n).value.node.header == n
  {
    if placed != [] && placed[0].node.header != n {
      FoundIsPlaced(placed[1..], n);
    }
  }

  lemma {:induction false} PlacedIsFound(placed: seq<Placed>, i: nat)
    requires i < |placed| && forall i, j :: 0 <= i < j < |placed| ==> placed[i].node.header != placed[j].node.header
    ensures Find(placed, placed[i].node.header) == Some(placed[i])
  {
    if i > 0 {
      assert placed[0].node.header != placed[i].node.header;
      PlacedIsFound(placed[1..], i - 1);
    }
  }

  ghost function WrittenByte(image: seq<Byte>, slots: Slots, b: nat): Byte
    requires Writable(image, slots) && b < |image|
  {
    SlotsSized(slots, 0);
    FoundIsPlaced(PlacedSlots(slots), b / 512);
    if b / 512 == Root(image) then HeaderByte(1, HeadsOf(slots), 0, [], b % 512, image[b])
    else
      match Find(PlacedSlots(slots), b / 512)
      case Some(p) => PlacedByte(p, b % 512, image[b])
      case None => image[b]
  }

  /** The disk with the headers of the tree written over it. */
  ghost function Write(image: seq<Byte>, slots: Slots): (out: seq<Byte>)
    requires Writable(image, slots)
    ensures |out| == |image|
  {
    seq(|image|, b requires 0 <= b < |image| => WrittenByte(image, slots, b))
  }

  // ------------------------------------------------ what was written is laid out

  predicate Fits32(v: nat) {
    v < 0x1_0000_0000
  }

  lemma {:induction false} NumberOfDigits(data: seq<Byte>, p: nat, v: nat)
    requires p + 4 <= |data| && Fits32(v) && forall k :: 0 <= k < 4 ==> data[p + k] == Digit256(v, k)
    ensures Number(data, p) == v
  {
    var b0: nat, b1: nat, b2: nat, b3: nat := data[p + 0], data[p + 1], data[p + 2], data[p + 3];
    DigitsOf(v, b0, b1, b2, b3);
  }

  lemma {:induction false} DigitsOf(v: nat, b0: nat, b1: nat, b2: nat, b3: nat)
    requires Fits32(v) && b0 == Digit256(v, 0) && b1 == Digit256(v, 1) && b2 == Digit256(v, 2) && b3 == Digit256(v, 3)
    ensures ((b0 * 256 + b1) * 256 + b2) * 256 + b3 == v
  {
    var q1 := v / 256;
    var q2 := q1 / 256;
    var q3 := q2 / 256;
    assert v / 65536 == q2 && v / 16777216 == q3;
    assert q1 % 256 == b2 && q2 % 256 == b1 && q3 == b0;
  }

  /** Block n was given this header, the rest of it left as it was. */
  ghost predicate HeaderAt(image: seq<Byte>, out: seq<Byte>, n: nat, kind: nat, heads: seq<nat>, next: nat, name: Paths.Name)
    requires |heads| <= 72 && |name| <= 30
  {
    && |image| == |out| && Inside(out, n)
    && forall o :: 0 <= o < 512 ==> ByteAt(out, n, o) == HeaderByte(kind, heads, next, name, o, ByteAt(image, n, o))
  }

  function ByteAt(image: seq<Byte>, n: nat, o: nat): Byte
    requires o < 512 && Inside(image, n)
  {
    image[512 * n + o]
  }

  lemma {:induction false} ReadsAt(image: seq<Byte>, out: seq<Byte>, n: nat, kind: nat, heads: seq<nat>, next: nat, name: Paths.Name,
      o: nat, v: nat)
    requires |heads| <= 72 && |name| <= 30 && HeaderAt(image, out, n, kind, heads, next, name) && Fits32(v) && o + 4 <= 512
    requires || (o == 0 && v == 2) || (o == 496 && v == next) || (o == 508 && v == kind) || (o == 12 && v == |heads| && heads != [])
             || (24 <= o < 24 + 4 * |heads| && o % 4 == 0 && v == heads[(o - 24) / 4])
    ensures Number(out, 512 * n + o) == v
  {
    hide Digit256, Number;
    forall k | 0 <= k < 4 ensures out[512 * n + o + k] == Digit256(v, k) {
      assert ByteAt(out, n, o + k) == HeaderByte(kind, heads, next, name, o + k, ByteAt(image, n, o + k));
    }
    NumberOfDigits(out, 512 * n + o, v);
  }

  lemma {:induction false} NameReads(image: seq<Byte>, out: seq<Byte>, n: nat, kind: nat, heads: seq<nat>, next: nat, name: Paths.Name)
    requires |heads| <= 72 && 1 <= |name| <= 30 && HeaderAt(image, out, n, kind, heads, next, name)
    ensures Named(out, n, name)
  {
    hide Digit256;
    assert ByteAt(out, n, 432) == HeaderByte(kind, heads, next, name, 432, ByteAt(image, n, 432));
    forall i | 0 <= i < |name| ensures out[512 * n + 433 + i] == name[i] {
      assert ByteAt(out, n, 433 + i) == HeaderByte(kind, heads, next, name, 433 + i, ByteAt(image, n, 433 + i));
    }
  }

  ghost predicate DistinctHeaders(placed: seq<Placed>) {
    forall i, j :: 0 <= i < j < |placed| ==> placed[i].node.header != placed[j].node.header
  }

  /** These are some of the nodes that were written. */
  ghost predicate Part(part: seq<Placed>, whole: seq<Placed>) {
    DistinctHeaders(part) && forall p :: p in part ==> p in whole
  }

  lemma {:induction false} PartSplit(a: seq<Placed>, b: seq<Placed>, whole: seq<Placed>)
    requires Part(a + b, whole)
    ensures Part(a, whole) && Part(b, whole)
    ensures forall p, q :: p in a && q in b ==> p.node.header != q.node.header
  {
    var s := a + b;
    assert forall i :: 0 <= i < |a| ==> a[i] == s[i];
    assert forall i :: 0 <= i < |b| ==> b[i] == s[|a| + i];
    assert (forall p :: p in a ==> p in s) && (forall p :: p in b ==> p in s);
  }

  lemma {:induction false} WrittenBlock(image: seq<Byte>, slots: Slots, p: Placed, o: nat)
    requires Writable(image, slots) && p in PlacedSlots(slots) && o < 512
    ensures Sized(p) && 512 * p.node.header + o < |image|
    ensures Write(image, slots)[512 * p.node.header + o] == PlacedByte(p, o, image[512 * p.node.header + o])
  {
    hide HeaderByte, WritableSlots, HeadsOf, Root, PlacedSlots, PlacedByte;
    SlotsSized(slots, 0);
    var placed := PlacedSlots(slots);
    var i :| 0 <= i < |placed| && placed[i] == p;
    PlacedIsFound(placed, i);
    var b := 512 * p.node.header + o;
    assert b / 512 == p.node.header && b % 512 == o;
  }

  lemma {:induction false} PlacedIsWritten(image: seq<Byte>, slots: Slots, p: Placed)
    requires Writable(image, slots) && p in PlacedSlots(slots)
    ensures Sized(p)
    ensures HeaderAt(image, Write(image, slots), p.node.header, if p.node.File? then 0xFFFF_FFFD else 2,
                     if p.node.File? then [] else HeadsOf(p.node.slots), p.next, p.node.name)
  {
    hide HeaderByte, Writable, HeadsOf, PlacedSlots, Write;
    var n := p.node.header;
    WrittenBlock(image, slots, p, 511);
    forall o | 0 <= o < 512
      ensures ByteAt(Write(image, slots), n, o)
           == HeaderByte(if p.node.File? then 0xFFFF_FFFD else 2, if p.node.File? then [] else HeadsOf(p.node.slots), p.next,
                         p.node.name, o, ByteAt(image, n, o))
    {
      WrittenBlock(image, slots, p, o);
    }
  }

  lemma {:induction false} RootIsWritten(image: seq<Byte>, slots: Slots)
    requires Writable(image, slots)
    ensures HeaderAt(image, Write(image, slots), Root(image), 1, HeadsOf(slots), 0, [])
    ensures Root(Write(image, slots)) == Root(image)
  {
    hide HeaderByte, WritableSlots, HeadsOf, PlacedSlots;
    var out, n := Write(image, slots), Root(image);
    forall o | 0 <= o < 512 ensures ByteAt(out, n, o) == HeaderByte(1, HeadsOf(slots), 0, [], o, ByteAt(image, n, o)) {
      var b := 512 * n + o;
      assert b / 512 == n && b % 512 == o;
    }
    FoundIsPlaced(PlacedSlots(slots), 0);
    forall b | 8 <= b < 12 ensures out[b] == image[b] {
      assert b / 512 == 0;
    }
    assert Number(out, 8) == Number(image, 8);
  }

  /** Block numbers that were written, or none. */
  lemma {:induction false} HeadsArePlaced(slots: Slots, whole: seq<Placed>, blocks: nat)
    requires Part(PlacedSlots(slots), whole) && forall p :: p in whole ==> 0 < p.node.header < blocks
    ensures forall i :: 0 <= i < SlotCount(slots) ==> HeadsOf(slots)[i] == 0 || HeadsOf(slots)[i] < blocks
    decreases slots
  {
    hide DistinctHeaders;
    if slots.Slot? {
      PartSplit(PlacedChain(slots.chain), PlacedSlots(slots.rest), whole);
      HeadsArePlaced(slots.rest, whole, blocks);
      HeadIsPlaced(slots.chain, whole, blocks);
    }
  }

  lemma {:induction false} HeadIsPlaced(chain: Chain, whole: seq<Placed>, blocks: nat)
    requires Part(PlacedChain(chain), whole) && forall p :: p in whole ==> 0 < p.node.header < blocks
    ensures if chain.End? then HeadOf(chain) == 0 else 0 < HeadOf(chain) < blocks
  {
    hide DistinctHeaders;
    if chain.Link? {
      assert PlacedNode(chain.node, HeadOf(chain.rest))[0] in PlacedChain(chain);
    }
  }

  // ------------------------------------------------ by induction over the tree

  lemma {:induction false} NodeLaysOut(image: seq<Byte>, slots: Slots, node: Node, next: nat, depth: nat)
    requires Writable(image, slots) && Part(PlacedNode(node, next), PlacedSlots(slots))
    requires WritableNode(node, depth) && next <= |image| / 512
    ensures var out := Write(image, slots);
            && 0 < node.header && Inside(out, node.header) && LaysNode(out, node.header, node, depth)
            && Number(out, 512 * node.header + 496) == next
    decreases node
  {
    hide Write, PlacedSlots, HeadsOf, HeaderAt, Number, Named, DistinctHeaders, Find, LaysSlots, Root, WritableSlots, SlotCount;
    var p := Placed(node, next);
    assert p == PlacedNode(node, next)[0];
    PlacedIsWritten(image, slots, p);
    var out, n := Write(image, slots), node.header;
    var heads := if node.File? then [] else HeadsOf(node.slots);
    var kind := if node.File? then 0xFFFF_FFFD else 2;
    BlockIsInside(image, slots, p);
    ReadsAt(image, out, n, kind, heads, next, node.name, 0, 2);
    ReadsAt(image, out, n, kind, heads, next, node.name, 496, next);
    ReadsAt(image, out, n, kind, heads, next, node.name, 508, kind);
    NameReads(image, out, n, kind, heads, next, node.name);
    if node.Dir? {
      PartSplit([p], PlacedSlots(node.slots), PlacedSlots(slots));
      DirectoryLaysOut(image, slots, n, 2, node.slots, next, node.name, depth + 1);
    }
  }

  lemma {:induction false} BlockIsInside(image: seq<Byte>, slots: Slots, p: Placed)
    requires Writable(image, slots) && p in PlacedSlots(slots)
    ensures 0 < p.node.header && Inside(Write(image, slots), p.node.header)
  {
    hide WritableDirectory, PlacedSlots, Root;
  }

  lemma {:induction false} DirectoryLaysOut(image: seq<Byte>, slots: Slots, n: nat, kind: nat, inner: Slots, next: nat,
      name: Paths.Name, depth: nat)
    requires Writable(image, slots) && Part(PlacedSlots(inner), PlacedSlots(slots)) && WritableDirectory(inner, depth)
    requires |name| <= 30 && HeaderAt(image, Write(image, slots), n, kind, HeadsOf(inner), next, name)
    ensures Inside(Write(image, slots), n) && LaysDirectory(Write(image, slots), n, inner, depth)
    decreases inner, 2
  {
    hide Write, PlacedSlots, Number, DistinctHeaders, Find, LaysSlots, Root, WritableSlots, HeaderByte;
    var out := Write(image, slots);
    HeadsFit(image, slots, inner);
    TableReads(image, out, n, kind, HeadsOf(inner), next, name);
    hide HeaderAt, Writable, Part, HeadsOf;
    SlotsLayOut(image, slots, n, 0, inner, depth);
  }

  lemma {:induction false} TableReads(image: seq<Byte>, out: seq<Byte>, n: nat, kind: nat, heads: seq<nat>, next: nat, name: Paths.Name)
    requires 1 <= |heads| <= 72 && |name| <= 30 && HeaderAt(image, out, n, kind, heads, next, name)
    requires forall i :: 0 <= i < |heads| ==> Fits32(heads[i])
    ensures Number(out, 512 * n + 12) == |heads|
    ensures forall i :: 0 <= i < |heads| ==> Number(out, 512 * n + 24 + 4 * i) == heads[i]
  {
    hide Number, HeaderByte;
    ReadsAt(image, out, n, kind, heads, next, name, 12, |heads|);
    forall i | 0 <= i < |heads| ensures Number(out, 512 * n + 24 + 4 * i) == heads[i] {
      ReadsAt(image, out, n, kind, heads, next, name, 24 + 4 * i, heads[i]);
    }
  }

  lemma {:induction false} HeadsFit(image: seq<Byte>, slots: Slots, inner: Slots)
    requires Writable(image, slots) && Part(PlacedSlots(inner), PlacedSlots(slots))
    ensures forall i :: 0 <= i < SlotCount(inner) ==> Fits32(HeadsOf(inner)[i])
  {
    hide PlacedSlots, DistinctHeaders, WritableDirectory, Root;
    HeadsArePlaced(inner, PlacedSlots(slots), |image| / 512);
  }

  lemma {:induction false} SlotsLayOut(image: seq<Byte>, slots: Slots, n: nat, i: nat, inner: Slots, depth: nat)
    requires Writable(image, slots) && Inside(image, n) && i + SlotCount(inner) <= 72
    requires Part(PlacedSlots(inner), PlacedSlots(slots)) && WritableSlots(inner, depth)
    requires forall k :: 0 <= k < SlotCount(inner) ==> Number(Write(image, slots), 512 * n + 24 + 4 * (i + k)) == HeadsOf(inner)[k]
    ensures LaysSlots(Write(image, slots), n, i, inner, depth)
    decreases inner, 1
  {
    hide Write, PlacedChain, Number, DistinctHeaders, Find, LaysChain, Root, WritableChain, WritableDirectory, Writable, PlacedSlots;
    if inner.Slot? {
      SlotsPlaced(inner);
      PartSplit(PlacedChain(inner.chain), PlacedSlots(inner.rest), PlacedSlots(slots));
      assert Number(Write(image, slots), 512 * n + 24 + 4 * (i + 0)) == HeadsOf(inner)[0];
      ChainLaysOut(image, slots, {}, inner.chain, depth);
      forall k | 0 <= k < SlotCount(inner.rest)
        ensures Number(Write(image, slots), 512 * n + 24 + 4 * (i + 1 + k)) == HeadsOf(inner.rest)[k]
      {
        assert HeadsOf(inner)[k + 1] == HeadsOf(inner.rest)[k];
        assert Number(Write(image, slots), 512 * n + 24 + 4 * (i + (k + 1))) == HeadsOf(inner)[k + 1];
      }
      SlotsLayOut(image, slots, n, i + 1, inner.rest, depth);
    }
  }

  lemma {:induction false} SlotsPlaced(inner: Slots)
    requires inner.Slot?
    ensures PlacedSlots(inner) == PlacedChain(inner.chain) + PlacedSlots(inner.rest)
  {
  }

  lemma {:induction false} ChainPlaced(chain: Chain)
    requires chain.Link?
    ensures PlacedChain(chain) == PlacedNode(chain.node, HeadOf(chain.rest)) + PlacedChain(chain.rest)
    ensures Placed(chain.node, HeadOf(chain.rest)) in PlacedNode(chain.node, HeadOf(chain.rest))
  {
    assert PlacedNode(chain.node, HeadOf(chain.rest))[0] == Placed(chain.node, HeadOf(chain.rest));
  }

  lemma {:induction false} ChainLaysOut(image: seq<Byte>, slots: Slots, before: set<nat>, chain: Chain, depth: nat)
    requires Writable(image, slots) && Part(PlacedChain(chain), PlacedSlots(slots)) && WritableChain(chain, depth)
    requires forall p :: p in PlacedChain(chain) ==> p.node.header !in before
    ensures LaysChain(Write(image, slots), HeadOf(chain), before, chain, depth)
    decreases chain
  {
    hide Write, PlacedChain, PlacedNode, Number, DistinctHeaders, Find, LaysNode, Root, WritableNode, Writable, PlacedSlots;
    if chain.Link? {
      var node, rest := chain.node, chain.rest;
      ChainPlaced(chain);
      var p := Placed(node, HeadOf(rest));
      assert p in PlacedChain(chain);
      PartSplit(PlacedNode(node, HeadOf(rest)), PlacedChain(rest), PlacedSlots(slots));
      NextFits(image, slots, rest);
      NodeLaysOut(image, slots, node, HeadOf(rest), depth);
      assert forall q :: q in PlacedChain(rest) ==> q in PlacedChain(chain);
      assert forall q :: q in PlacedChain(rest) ==> q.node.header != p.node.header;
      ChainLaysOut(image, slots, before + {node.header}, rest, depth);
    }
  }

  lemma {:induction false} NextFits(image: seq<Byte>, slots: Slots, rest: Chain)
    requires Writable(image, slots) && Part(PlacedChain(rest), PlacedSlots(slots))
    ensures HeadOf(rest) <= |image| / 512
  {
    hide PlacedSlots, PlacedChain, DistinctHeaders, WritableDirectory, Root;
    HeadIsPlaced(rest, PlacedSlots(slots), |image| / 512);
  }

  // ------------------------------------------------ each directory once

  lemma {:induction false} DirsArePlaced(node: Node, next: nat, whole: seq<Placed>)
    requires Part(PlacedNode(node, next), whole)
    ensures Distinct(DirsOfNode(node)) && forall d :: d in DirsOfNode(node) ==> exists p :: p in PlacedNode(node, next) && p.node.header == d
    decreases node
  {
    if node.Dir? {
      var p := Placed(node, next);
      PartSplit([p], PlacedSlots(node.slots), whole);
      DirsInSlots(node.slots, whole);
      assert p in PlacedNode(node, next) by { assert PlacedNode(node, next)[0] == p; }
      forall d | d in DirsOfSlots(node.slots) ensures exists q :: q in PlacedNode(node, next) && q.node.header == d {
        var q :| q in PlacedSlots(node.slots) && q.node.header == d;
        assert q in PlacedNode(node, next);
      }
      forall d | d in DirsOfSlots(node.slots) ensures d != node.header {
        var q :| q in PlacedSlots(node.slots) && q.node.header == d;
        assert p in [p];
      }
      RootFirst(node.header, DirsOfSlots(node.slots));
    }
  }

  lemma {:induction false} DirsInChain(chain: Chain, whole: seq<Placed>)
    requires Part(PlacedChain(chain), whole)
    ensures Distinct(DirsOfChain(chain)) && forall d :: d in DirsOfChain(chain) ==> exists p :: p in PlacedChain(chain) && p.node.header == d
    decreases chain
  {
    hide DirsOfNode, PlacedNode, DistinctHeaders;
    if chain.Link? {
      var a, b := PlacedNode(chain.node, HeadOf(chain.rest)), PlacedChain(chain.rest);
      PartSplit(a, b, whole);
      DirsArePlaced(chain.node, HeadOf(chain.rest), whole);
      DirsInChain(chain.rest, whole);
      DirsJoin(DirsOfNode(chain.node), DirsOfChain(chain.rest), a, b);
    }
  }

  lemma {:induction false} DirsJoin(ds: seq<nat>, es: seq<nat>, a: seq<Placed>, b: seq<Placed>)
    requires Distinct(ds) && Distinct(es)
    requires forall d :: d in ds ==> exists p :: p in a && p.node.header == d
    requires forall d :: d in es ==> exists p :: p in b && p.node.header == d
    requires forall p, q :: p in a && q in b ==> p.node.header != q.node.header
    ensures Distinct(ds + es) && forall d :: d in ds + es ==> exists p :: p in a + b && p.node.header == d
  {
    forall d | d in ds + es ensures exists p :: p in a + b && p.node.header == d {
      if d in ds {
        var p :| p in a && p.node.header == d;
        assert p in a + b;
      } else {
        var p :| p in b && p.node.header == d;
        assert p in a + b;
      }
    }
    var all := ds + es;
    forall i, j | 0 <= i < j < |all| ensures all[i] != all[j] {
      if i < |ds| <= j {
        assert ds[i] in ds && es[j - |ds|] in es;
        var p :| p in a && p.node.header == ds[i];
        var q :| q in b && q.node.header == es[j - |ds|];
      }
    }
  }

  lemma {:induction false} DirsInSlots(slots: Slots, whole: seq<Placed>)
    requires Part(PlacedSlots(slots), whole)
    ensures Distinct(DirsOfSlots(slots)) && forall d :: d in DirsOfSlots(slots) ==> exists p :: p in PlacedSlots(slots) && p.node.header == d
    decreases slots
  {
    hide DirsOfChain, PlacedChain, DistinctHeaders;
    if slots.Slot? {
      var a, b := PlacedChain(slots.chain), PlacedSlots(slots.rest);
      PartSplit(a, b, whole);
      DirsInChain(slots.chain, whole);
      DirsInSlots(slots.rest, whole);
      DirsJoin(DirsOfChain(slots.chain), DirsOfSlots(slots.rest), a, b);
    }
  }

  /** The written disk lays out the tree. */
  lemma {:induction false} WrittenIsLaidOut(image: seq<Byte>, slots: Slots)
    requires Writable(image, slots)
    ensures KnownSize(Write(image, slots)) && LaysTree(Write(image, slots), slots)
  {
    hide Write, PlacedSlots, HeadsOf, HeaderAt, Number, LaysDirectory, Root, WritableSlots, DirsOfSlots, DistinctHeaders;
    var out, root := Write(image, slots), Root(image);
    var placed := PlacedSlots(slots);
    assert Part(placed, placed) by { WholeIsPart(image, slots); }
    RootIsWritten(image, slots);
    ReadsAt(image, out, root, 1, HeadsOf(slots), 0, [], 0, 2);
    ReadsAt(image, out, root, 1, HeadsOf(slots), 0, [], 508, 1);
    DirectoryLaysOut(image, slots, root, 1, slots, 0, [], 0);
    DirsInSlots(slots, placed);
    forall d | d in DirsOfSlots(slots) ensures d != root {
      var p :| p in placed && p.node.header == d;
    }
    RootFirst(root, DirsOfSlots(slots));
  }

  lemma {:induction false} RootFirst(root: nat, dirs: seq<nat>)
    requires Distinct(dirs) && root !in dirs
    ensures Distinct([root] + dirs)
  {
  }

  lemma {:induction false} WholeIsPart(image: seq<Byte>, slots: Slots)
    requires Writable(image, slots)
    ensures Part(PlacedSlots(slots), PlacedSlots(slots))
  {
    hide PlacedSlots;
  }

  /**
   Writing then reading: whatever was on the disk before, the reader lists the tree that was written,
   node by node in preorder, and has nothing to warn about but the contents of files.
   */
  lemma {:induction false} TreeReadsBack(image: seq<Byte>, slots: Slots)
    requires Writable(image, slots)
    ensures KnownSize(Write(image, slots))
    ensures var st := AnalyzeSpec(Write(image, slots));
            && Rows(st.entries) == RowsOfSlots(slots)
            && (OrdinarySlots(slots) ==> PathsOf(st.entries) == SpelledSlots([], slots))
            && (forall w :: w in st.warnings ==> AboutContents(w))
  {
    hide Write, AnalyzeSpec, LaysTree, RowsOfSlots, SpelledSlots, OrdinarySlots, DirsOfSlots, Root, Writable;
    WrittenIsLaidOut(image, slots);
    LaidTreeIsListed(Write(image, slots), slots);
  }
}
