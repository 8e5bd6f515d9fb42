/**
 Directory trees byte by byte: where on the disk every number and name of a tree lies, without the
 reader's own functions.  The reader sees a tree exactly where the bytes lay one out.
 */
module AdfLayout {
  import opened Common
  import opened Bytes
  import opened AdfBytes
  import opened AdfImage
  import opened AdfFilesystem
  import opened AdfTree
  import AdfPayload
  import HunkFile
  import Paths

  // ------------------------------------------------ the layout

  /** The name in header block n: its length at byte 432, its characters from byte 433. */
  predicate Named(image: seq<Byte>, n: nat, name: Paths.Name)
    requires Inside(image, n)
  {
    && 1 <= |name| <= 30
    && image[512 * n + 432] == |name|
    && forall i :: 0 <= i < |name| ==> image[512 * n + 433 + i] == name[i]
  }

  ghost predicate LaysNode(image: seq<Byte>, n: nat, node: Node, depth: nat)
    requires Inside(image, n)
    decreases node
  {
    && node.header == n
    && Number(image, 512 * n) == 2
    && Named(image, n, node.name)
    && match node
       case File(_, _) => Number(image, 512 * n + 508) == 0xFFFF_FFFD
       case Dir(_, _, slots) => Number(image, 512 * n + 508) == 2 && LaysDirectory(image, n, slots, depth + 1)
  }

  ghost predicate LaysDirectory(image: seq<Byte>, n: nat, slots: Slots, depth: nat)
    requires Inside(image, n)
    decreases slots, 1
  {
    && depth <= 64
    && 1 <= SlotCount(slots) <= 72
    && Number(image, 512 * n + 12) == SlotCount(slots)
    && LaysSlots(image, n, 0, slots, depth)
  }

  ghost predicate LaysSlots(image: seq<Byte>, n: nat, i: nat, slots: Slots, depth: nat)
    requires Inside(image, n) && i + SlotCount(slots) <= 72
    decreases slots, 0
  {
    match slots
    case NoSlots => true
    case Slot(chain, rest) =>
      && LaysChain(image, Number(image, 512 * n + 24 + 4 * i), {}, chain, depth)
      && LaysSlots(image, n, i + 1, rest, depth)
  }

  ghost predicate LaysChain(image: seq<Byte>, n: nat, before: set<nat>, chain: Chain, depth: nat)
    decreases chain
  {
    match chain
    case End => n == 0
    case Link(node, rest) =>
      && n != 0 && n !in before && Inside(image, n)
      && LaysNode(image, n, node, depth)
      && LaysChain(image, Number(image, 512 * n + 496), before + {n}, rest, depth)
  }

  /** The root block: named at byte 8 of the disk, and otherwise in its middle. */
  function Root(image: seq<Byte>): nat
    requires KnownSize(image)
  {
    if Number(image, 8) != 0 then Number(image, 8) else |image| / 1024
  }

  /** The bytes of the disk lay out this tree, reaching no directory twice. */
  ghost predicate LaysTree(image: seq<Byte>, slots: Slots)
    requires KnownSize(image)
  {
    && Inside(image, Root(image))
    && Number(image, 512 * Root(image)) == 2
    && Number(image, 512 * Root(image) + 508) == 1
    && LaysDirectory(image, Root(image), slots, 0)
    && Distinct([Root(image)] + DirsOfSlots(slots))
  }

  // ------------------------------------------------ the reader finds everything there

  lemma {:induction false} TypeIsNumber(image: seq<Byte>, n: nat)
    requires Inside(image, n)
    ensures InImage(image, n)
    ensures SecondaryType(image, n) == SECONDARY_FILE <==> Number(image, 512 * n + 508) == 0xFFFF_FFFD
    ensures SecondaryType(image, n) == SECONDARY_DIRECTORY <==> Number(image, 512 * n + 508) == 2
    ensures SecondaryType(image, n) == SECONDARY_ROOT <==> Number(image, 512 * n + 508) == 1
  {
    hide Number;
    BlockWordIsNumber(image, n, 127);
  }

  lemma {:induction false} NameIsNamed(image: seq<Byte>, n: nat, name: Paths.Name)
    requires Inside(image, n)
    ensures InImage(image, n)
    ensures BstrName(image, n) == Some(name) <==> Named(image, n, name)
    ensures BstrName(image, n) == None <==> image[512 * n + 432] == 0 || image[512 * n + 432] > 30
  {
    if Named(image, n, name) {
      assert image[512 * n + 433..512 * n + 433 + |name|] == name;
    }
  }

  lemma {:induction false} NodeLaid(image: seq<Byte>, n: nat, node: Node, depth: nat)
    requires Inside(image, n)
    ensures InImage(image, n) && (HoldsNode(image, n, node, depth) <==> LaysNode(image, n, node, depth))
    decreases node
  {
    hide Number, BlockWord, SecondaryType, BstrName, Named, HoldsDirectory, LaysDirectory;
    BlockWordIsNumber(image, n, 0);
    TypeIsNumber(image, n);
    NameIsNamed(image, n, node.name);
    if node.Dir? {
      DirectoryLaid(image, n, node.slots, depth + 1);
    }
  }

  lemma {:induction false} DirectoryLaid(image: seq<Byte>, n: nat, slots: Slots, depth: nat)
    requires Inside(image, n)
    ensures InImage(image, n) && (HoldsDirectory(image, n, slots, depth) <==> LaysDirectory(image, n, slots, depth))
    decreases slots, 1
  {
    hide Number, BlockWord, HoldsSlots, LaysSlots;
    BlockWordIsNumber(image, n, 3);
    if SlotCount(slots) <= 72 {
      SlotsLaid(image, n, 0, slots, depth);
    }
  }

  lemma {:induction false} SlotsLaid(image: seq<Byte>, n: nat, i: nat, slots: Slots, depth: nat)
    requires Inside(image, n) && i + SlotCount(slots) <= 72
    ensures InImage(image, n) && (HoldsSlots(image, n, i, slots, depth) <==> LaysSlots(image, n, i, slots, depth))
    decreases slots, 0
  {
    hide Number, BlockWord, HoldsChain, LaysChain;
    if slots.Slot? {
      BlockWordIsNumber(image, n, 6 + i);
      ChainLaid(image, Number(image, 512 * n + 24 + 4 * i), {}, slots.chain, depth);
      SlotsLaid(image, n, i + 1, slots.rest, depth);
    }
  }

  lemma {:induction false} ChainLaid(image: seq<Byte>, n: nat, before: set<nat>, chain: Chain, depth: nat)
    ensures HoldsChain(image, n, before, chain, depth) <==> LaysChain(image, n, before, chain, depth)
    decreases chain
  {
    hide Number, BlockWord, HoldsNode, LaysNode;
    if chain.Link? && Inside(image, n) {
      BlockWordIsNumber(image, n, 124);
      NodeLaid(image, n, chain.node, depth);
      ChainLaid(image, Number(image, 512 * n + 496), before + {n}, chain.rest, depth);
    }
  }

  lemma {:induction false} RootIsThere(image: seq<Byte>)
    requires KnownSize(image)
    ensures RootBlock(image) == Root(image)
    ensures ValidRoot(image, Root(image)) <==>
            Inside(image, Root(image)) && Number(image, 512 * Root(image)) == 2 && Number(image, 512 * Root(image) + 508) == 1
  {
    WordIsNumber(image, 2);
    hide Number, BlockWord, SecondaryType;
    if Inside(image, Root(image)) {
      BlockWordIsNumber(image, Root(image), 0);
      TypeIsNumber(image, Root(image));
    }
  }

  lemma {:induction false} OnceFromRoot(root: nat, dirs: seq<nat>)
    ensures Once(dirs, {root}) <==> Distinct([root] + dirs)
  {
    OnceSplit([root], dirs, {});
    assert Elements([root]) == {root} && {} + {root} == {root};
    assert Once([root], {});
    OnceIsDistinct([root] + dirs);
  }

  lemma {:induction false} OnceIsDistinct(s: seq<nat>)
    ensures Once(s, {}) <==> Distinct(s)
  {
  }

  /** The reader's idea of a tree on the disk is what the bytes say. */
  lemma {:induction false} HeldExactlyWhenLaid(image: seq<Byte>, slots: Slots)
    requires KnownSize(image)
    ensures HoldsTree(image, slots) <==> LaysTree(image, slots)
  {
    hide Number, ValidRoot, HoldsDirectory, LaysDirectory, Once, Distinct, RootBlock, Root;
    RootIsThere(image);
    OnceFromRoot(Root(image), DirsOfSlots(slots));
    if Inside(image, Root(image)) {
      DirectoryLaid(image, Root(image), slots, 0);
    }
  }

  // ------------------------------------------------ everything listed is on the disk

  /** What a listing says about file contents. */
  ghost predicate ContentsTrue(image: seq<Byte>, e: Entry)
    requires |image| >= 4
  {
    if e.isFile then
      && e.payload == Some(AdfPayload.PayloadSpec(image, e.header, image[3]))
      && var a := HunkFile.AnalyzeSpec(e.payload.value.data);
         e.hunk == if e.payload.value.complete && a.recognized then Some(a) else None
    else e.payload == None && e.hunk == None
  }

  /** An entry is a header block of its kind, under the name that lies there. */
  ghost predicate EntryTrue(image: seq<Byte>, e: Entry)
    requires KnownSize(image)
  {
    && Inside(image, e.header)
    && Number(image, 512 * e.header) == 2
    && Named(image, e.header, e.name)
    && Number(image, 512 * e.header + 508) == (if e.isFile then 0xFFFF_FFFD else 2)
    && ContentsTrue(image, e)
  }

  /** A remark about contents belongs to an entry. */
  ghost predicate RemarkOf(w: Warning, e: Entry) {
    match w
    case InFileHunk(path, hunk) => e.path == path && e.hunk.Some? && hunk in e.hunk.value.warnings
    case InFilePayload(path, payload) => e.path == path && e.payload.Some? && e.payload.value.warning == Some(payload)
    case _ => false
  }

  /** A warning tells what is wrong at the place it names. */
  ghost predicate WarningTrue(image: seq<Byte>, w: Warning, es: seq<Entry>)
    requires KnownSize(image)
  {
    match w
    case RootOutsideImage(n) => n == Root(image) && !Inside(image, n)
    case NotARootHeader(n) =>
      n == Root(image) && Inside(image, n) && !(Number(image, 512 * n) == 2 && Number(image, 512 * n + 508) == 1)
    case InvalidHashSize(size) => size == 0 || size > 72
    case EntryOutsideImage(n) => !Inside(image, n)
    case NotAHeader(n) => Inside(image, n) && Number(image, 512 * n) != 2
    case InvalidName(n) =>
      Inside(image, n) && Number(image, 512 * n) == 2 && (image[512 * n + 432] == 0 || image[512 * n + 432] > 30)
    case UnsupportedType(n, typ) =>
      && Inside(image, n)
      && var v := Number(image, 512 * n + 508);
         v != 2 && v != 0xFFFF_FFFD && typ == if v < 0x8000_0000 then v else v - 0x1_0000_0000
    case DirectoryLoop(n) => Inside(image, n) && Number(image, 512 * n) == 2 && Number(image, 512 * n + 508) == 2
    case InFileHunk(_, _) => exists e :: e in es && RemarkOf(w, e)
    case InFilePayload(_, _) => exists e :: e in es && RemarkOf(w, e)
    case _ => true
  }

  /** Where an entry's path comes from: the root, or a directory listed before it. */
  ghost predicate PathTrue(es: seq<Entry>, i: nat)
    requires i < |es|
  {
    || es[i].path == Paths.JoinPath([], es[i].name)
    || exists j :: 0 <= j < i && !es[j].isFile && es[i].path == Paths.JoinPath(es[j].path, es[i].name)
  }

  ghost predicate AllRemarked(e: Entry, ws: seq<Warning>) {
    forall w :: RemarkOf(w, e) ==> w in ws
  }

  /** The result so far tells nothing that is not on the disk, and everything about the contents listed. */
  ghost predicate Truthful(image: seq<Byte>, st: Walk)
    requires KnownSize(image)
  {
    && (forall i :: 0 <= i < |st.entries| ==> EntryTrue(image, st.entries[i]) && PathTrue(st.entries, i)
                                              && AllRemarked(st.entries[i], st.warnings))
    && (forall i :: 0 <= i < |st.warnings| ==> WarningTrue(image, st.warnings[i], st.entries))
  }

  /** The directory whose entries are being listed is the root or an entry. */
  ghost predicate Parent(st: Walk, parent: Paths.Name) {
    parent == [] || exists j :: 0 <= j < |st.entries| && !st.entries[j].isFile && st.entries[j].path == parent
  }

  ghost predicate Longer(st: Walk, next: Walk) {
    st.entries <= next.entries && st.visited <= next.visited
  }

  lemma {:induction false} ParentStays(st: Walk, next: Walk, parent: Paths.Name)
    requires Longer(st, next) && Parent(st, parent)
    ensures Parent(next, parent)
  {
    if parent != [] {
      var j :| 0 <= j < |st.entries| && !st.entries[j].isFile && st.entries[j].path == parent;
      assert next.entries[j] == st.entries[j];
    }
  }

  lemma {:induction false} MoreEntries(image: seq<Byte>, w: Warning, es: seq<Entry>, fs: seq<Entry>)
    requires KnownSize(image) && WarningTrue(image, w, es)
    ensures WarningTrue(image, w, es + fs)
  {
    hide EntryTrue, Number, RemarkOf;
    if w.InFileHunk? || w.InFilePayload? {
      var e :| e in es && RemarkOf(w, e);
      assert e in es + fs;
    }
  }

  lemma {:induction false} WarnTrue(image: seq<Byte>, st: Walk, w: Warning)
    requires KnownSize(image) && Truthful(image, st) && WarningTrue(image, w, st.entries)
    ensures Truthful(image, Warn(st, w))
  {
    hide EntryTrue, WarningTrue, PathTrue, RemarkOf;
  }

  lemma {:induction false} AddTrue(image: seq<Byte>, st: Walk, parent: Paths.Name, e: Entry)
    requires KnownSize(image) && Truthful(image, st) && Parent(st, parent)
    requires EntryTrue(image, e) && e.path == Paths.JoinPath(parent, e.name)
    ensures Truthful(image, AddEntry(st, e)) && Longer(st, AddEntry(st, e))
  {
    hide EntryTrue, WarningTrue, PathTrue, AllRemarked, Number;
    assert ContentsTrue(image, e) by { EntryContents(image, e); }
    var next := AddEntry(st, e);
    var added := if e.isFile then HunkWarnings(e.path, e.hunk) + PayloadWarnings(e.path, e.payload.value) else [];
    assert next.warnings == st.warnings + added && next.entries == st.entries + [e];
    forall i | 0 <= i < |next.entries|
      ensures EntryTrue(image, next.entries[i]) && PathTrue(next.entries, i) && AllRemarked(next.entries[i], next.warnings)
    {
      if i < |st.entries| {
        PathStays(st.entries, [e], i);
        RemarksStay(st.entries[i], st.warnings, added);
      } else {
        PathOfNew(st, parent, e);
        RemarksOfNew(image, e, st.warnings, added);
      }
    }
    forall i | 0 <= i < |next.warnings| ensures WarningTrue(image, next.warnings[i], next.entries) {
      if i < |st.warnings| {
        MoreEntries(image, st.warnings[i], st.entries, [e]);
      } else {
        NewRemark(image, e, added, i - |st.warnings|, st.entries);
      }
    }
  }

  lemma {:induction false} EntryContents(image: seq<Byte>, e: Entry)
    requires KnownSize(image) && EntryTrue(image, e)
    ensures ContentsTrue(image, e)
  {
  }

  lemma {:induction false} PathStays(es: seq<Entry>, fs: seq<Entry>, i: nat)
    requires i < |es| && PathTrue(es, i)
    ensures PathTrue(es + fs, i)
  {
    var all := es + fs;
    if es[i].path != Paths.JoinPath([], es[i].name) {
      var j :| 0 <= j < i && !es[j].isFile && es[i].path == Paths.JoinPath(es[j].path, es[i].name);
      assert all[j] == es[j];
    }
  }

  lemma {:induction false} RemarksStay(e: Entry, ws: seq<Warning>, more: seq<Warning>)
    requires AllRemarked(e, ws)
    ensures AllRemarked(e, ws + more)
  {
  }

  lemma {:induction false} PathOfNew(st: Walk, parent: Paths.Name, e: Entry)
    requires Parent(st, parent) && e.path == Paths.JoinPath(parent, e.name)
    ensures PathTrue(st.entries + [e], |st.entries|)
  {
    if parent != [] {
      var j :| 0 <= j < |st.entries| && !st.entries[j].isFile && st.entries[j].path == parent;
      assert (st.entries + [e])[j] == st.entries[j];
    }
  }

  lemma {:induction false} RemarksOfNew(image: seq<Byte>, e: Entry, ws: seq<Warning>, added: seq<Warning>)
    requires |image| >= 4 && ContentsTrue(image, e)
    requires added == if e.isFile then HunkWarnings(e.path, e.hunk) + PayloadWarnings(e.path, e.payload.value) else []
    ensures AllRemarked(e, ws + added)
  {
    hide AdfPayload.PayloadSpec, HunkFile.AnalyzeSpec;
    forall w | RemarkOf(w, e) ensures w in ws + added {
      if w.InFileHunk? {
        var k :| 0 <= k < |e.hunk.value.warnings| && e.hunk.value.warnings[k] == w.hunk;
        assert HunkWarnings(e.path, e.hunk)[k] == w;
        assert added[k] == w;
      } else {
        assert PayloadWarnings(e.path, e.payload.value) == [w];
        assert added[|added| - 1] == w;
      }
    }
  }

  lemma {:induction false} NewRemark(image: seq<Byte>, e: Entry, added: seq<Warning>, k: nat, es: seq<Entry>)
    requires KnownSize(image) && ContentsTrue(image, e) && k < |added|
    requires added == if e.isFile then HunkWarnings(e.path, e.hunk) + PayloadWarnings(e.path, e.payload.value) else []
    ensures WarningTrue(image, added[k], es + [e])
  {
    hide AdfPayload.PayloadSpec, HunkFile.AnalyzeSpec;
    var hs := HunkWarnings(e.path, e.hunk);
    assert e in es + [e];
    if k < |hs| {
      assert added[k] == hs[k] && e.hunk.Some? && e.hunk.value.warnings[k] in e.hunk.value.warnings;
    }
    assert RemarkOf(added[k], e);
  }

  // ------------------------------------------------ along the walk

  lemma {:induction false} DirectoryTrue(image: seq<Byte>, dir: nat, parent: Paths.Name, depth: nat, st: Walk)
    requires KnownSize(image) && InImage(image, dir) && Truthful(image, st) && Parent(st, parent)
    ensures var next := WalkDirectory(image, image[3], dir, parent, depth, st);
            Truthful(image, next) && Longer(st, next)
    decreases if depth > MAX_DEPTH then 0 else MAX_DEPTH + 1 - depth, 3, 0
  {
    hide InImage, BlockWord, KnownSize, WalkSlots, Truthful, Parent;
    var entered := st.(expanded := st.expanded + [dir]);
    EnteredTrue(image, st, dir, parent);
    var size := BlockWord(image, dir, HASH_SIZE_WORD);
    if depth > MAX_DEPTH {
      WarnTrue(image, entered, DepthLimit);
    } else if size == 0 || size > MAX_HASH_TABLE {
      WarnTrue(image, entered, InvalidHashSize(size));
    } else {
      SlotsTrue(image, dir, parent, depth, 0, size, entered);
    }
  }

  lemma {:induction false} EnteredTrue(image: seq<Byte>, st: Walk, dir: nat, parent: Paths.Name)
    requires KnownSize(image) && Truthful(image, st) && Parent(st, parent)
    ensures Truthful(image, st.(expanded := st.expanded + [dir])) && Parent(st.(expanded := st.expanded + [dir]), parent)
  {
    hide EntryTrue, WarningTrue, PathTrue, RemarkOf;
  }

  lemma {:induction false} MarkedTrue(image: seq<Byte>, st: Walk, dir: nat)
    requires KnownSize(image) && Truthful(image, st)
    ensures Truthful(image, st.(visited := st.visited + {dir}))
  {
    hide EntryTrue, WarningTrue, PathTrue, RemarkOf;
  }

  lemma {:induction false} SlotsTrue(image: seq<Byte>, dir: nat, parent: Paths.Name, depth: nat, i: nat, size: nat, st: Walk)
    requires KnownSize(image) && InImage(image, dir) && depth <= MAX_DEPTH && i <= size <= MAX_HASH_TABLE
    requires Truthful(image, st) && Parent(st, parent)
    ensures var next := WalkSlots(image, image[3], dir, parent, depth, i, size, st);
            Truthful(image, next) && Longer(st, next)
    decreases MAX_DEPTH + 1 - depth, 2, size - i
  {
    hide InImage, BlockWord, WalkChain, Truthful, Parent;
    if i < size {
      var first := BlockWord(image, dir, HASH_TABLE_WORD + i);
      ChainTrue(image, parent, depth, first, {}, st);
      var mid := WalkChain(image, image[3], parent, depth, first, {}, st);
      ParentStays(st, mid, parent);
      SlotsTrue(image, dir, parent, depth, i + 1, size, mid);
    }
  }

  lemma {:induction false} ChainTrue(image: seq<Byte>, parent: Paths.Name, depth: nat, current: nat, chainSeen: set<nat>, st: Walk)
    requires KnownSize(image) && depth <= MAX_DEPTH && Truthful(image, st) && Parent(st, parent)
    ensures var next := WalkChain(image, image[3], parent, depth, current, chainSeen, st);
            Truthful(image, next) && Longer(st, next)
    decreases MAX_DEPTH + 1 - depth, 1, |Unseen(image, chainSeen)|
  {
    hide BlockWord, KnownSize, Visit, Truthful, Parent, Unseen, Number;
    if current == 0 {
    } else if current in chainSeen {
      WarnTrue(image, st, HashChainLoop(current));
    } else if !InImage(image, current) {
      WarnTrue(image, st, EntryOutsideImage(current));
    } else {
      UnseenShrinks(image, chainSeen, current);
      var mid := Visit(image, image[3], parent, depth, current, st);
      VisitTrue(image, parent, depth, current, st);
      ParentStays(st, mid, parent);
      ChainTrue(image, parent, depth, BlockWord(image, current, HASH_CHAIN_WORD), chainSeen + {current}, mid);
    }
  }

  lemma {:induction false} VisitTrue(image: seq<Byte>, parent: Paths.Name, depth: nat, current: nat, st: Walk)
    requires KnownSize(image) && depth <= MAX_DEPTH && InImage(image, current) && Truthful(image, st) && Parent(st, parent)
    ensures var next := Visit(image, image[3], parent, depth, current, st);
            Truthful(image, next) && Longer(st, next)
    decreases MAX_DEPTH + 1 - depth, 0, 1
  {
    hide KnownSize, WalkDirectory, Truthful, Parent, Number, BlockWord, BstrName, Named, AddEntry, Paths.JoinPath, ContentsTrue,
         FileEntry, SecondaryType;
    BlockWordIsNumber(image, current, 0);
    TypeIsNumber(image, current);
    var named := BstrName(image, current);
    if named.Some? {
      NameIsNamed(image, current, named.value);
    } else {
      NameIsNamed(image, current, []);
    }
    var typ := SecondaryType(image, current);
    if BlockWord(image, current, 0) != PRIMARY_HEADER {
      WarnTrue(image, st, NotAHeader(current));
    } else if named.None? {
      WarnTrue(image, st, InvalidName(current));
    } else if typ == SECONDARY_FILE {
      var e := FileEntry(image, image[3], Paths.JoinPath(parent, named.value), named.value, current);
      FileEntryTrue(image, Paths.JoinPath(parent, named.value), named.value, current);
      AddTrue(image, st, parent, e);
    } else if typ == SECONDARY_DIRECTORY {
      DirectoryVisitTrue(image, parent, depth, current, st, named.value);
    } else {
      UnsupportedTrue(image, current, st.entries);
      WarnTrue(image, st, UnsupportedType(current, typ));
    }
  }

  lemma {:induction false} FileEntryTrue(image: seq<Byte>, path: Paths.Name, name: Paths.Name, header: nat)
    requires |image| >= 4
    ensures var e := FileEntry(image, image[3], path, name, header);
            e.isFile && e.path == path && e.name == name && e.header == header && ContentsTrue(image, e)
  {
    hide AdfPayload.PayloadSpec, HunkFile.AnalyzeSpec;
  }

  lemma {:induction false} UnsupportedTrue(image: seq<Byte>, n: nat, es: seq<Entry>)
    requires KnownSize(image) && Inside(image, n)
    requires Number(image, 512 * n + 508) != 2 && Number(image, 512 * n + 508) != 0xFFFF_FFFD
    ensures InImage(image, n) && WarningTrue(image, UnsupportedType(n, SecondaryType(image, n)), es)
  {
    hide Number;
    BlockWordIsNumber(image, n, 127);
  }

  lemma {:induction false} DirectoryVisitTrue(image: seq<Byte>, parent: Paths.Name, depth: nat, current: nat, st: Walk, name: Paths.Name)
    requires KnownSize(image) && depth <= MAX_DEPTH && Inside(image, current) && Truthful(image, st) && Parent(st, parent)
    requires Number(image, 512 * current) == 2 && Number(image, 512 * current + 508) == 2 && Named(image, current, name)
    ensures InImage(image, current)
    ensures var path := Paths.JoinPath(parent, name);
            var listed := AddEntry(st, DirectoryEntry(path, name, current));
            var next := if current in st.visited then Warn(listed, DirectoryLoop(current))
                        else WalkDirectory(image, image[3], current, path, depth + 1, listed.(visited := st.visited + {current}));
            Truthful(image, next) && Longer(st, next)
    decreases MAX_DEPTH + 1 - depth, 0, 0
  {
    hide KnownSize, WalkDirectory, Truthful, Number, Named, Paths.JoinPath, Parent;
    var path := Paths.JoinPath(parent, name);
    var e := DirectoryEntry(path, name, current);
    AddTrue(image, st, parent, e);
    var listed := AddEntry(st, e);
    if current in st.visited {
      WarnTrue(image, listed, DirectoryLoop(current));
    } else {
      var marked := listed.(visited := st.visited + {current});
      MarkedTrue(image, listed, current);
      assert marked == listed.(visited := listed.visited + {current});
      ListedIsParent(st, e, marked);
      DirectoryTrue(image, current, path, depth + 1, marked);
    }
  }

  lemma {:induction false} ListedIsParent(st: Walk, e: Entry, marked: Walk)
    requires !e.isFile && marked.entries == st.entries + [e]
    ensures Parent(marked, e.path)
  {
    assert marked.entries[|st.entries|] == e;
  }

  /**
   For every disk image, however corrupt: each entry is a header block with exactly that name, kind and
   contents, its path continues the root or a directory listed before it, every remark about its
   contents is among the warnings, and every warning is true of the place it names.
   */
  lemma {:induction false} ListingIsTrue(image: seq<Byte>)
    requires KnownSize(image)
    ensures Truthful(image, AnalyzeSpec(image))
  {
    hide WalkDirectory, Number, BlockWord, SecondaryType, ValidRoot, RootBlock, Root;
    var start := Walk({RootBlock(image)}, [], 0, 0, 0, [], []);
    assert Truthful(image, start);
    hide Truthful;
    RootIsThere(image);
    var root := Root(image);
    InImageIsBelowCount(image, root);
    if root >= BlockCount(image) {
      WarnTrue(image, start, RootOutsideImage(root));
    } else if !ValidRoot(image, root) {
      WarnTrue(image, start, NotARootHeader(root));
    } else {
      DirectoryTrue(image, root, [], 0, start);
    }
  }

  // ------------------------------------------------ what a block on a chain amounts to

  datatype Verdict = NoHeader | NoName | AFile(name: Paths.Name) | ADirectory(name: Paths.Name) | Unsupported

  ghost predicate Amounts(image: seq<Byte>, n: nat, v: Verdict)
    requires Inside(image, n)
  {
    match v
    case NoHeader => Number(image, 512 * n) != 2
    case NoName => Number(image, 512 * n) == 2 && !(1 <= image[512 * n + 432] <= 30)
    case AFile(name) => Number(image, 512 * n) == 2 && Named(image, n, name) && Number(image, 512 * n + 508) == 0xFFFF_FFFD
    case ADirectory(name) => Number(image, 512 * n) == 2 && Named(image, n, name) && Number(image, 512 * n + 508) == 2
    case Unsupported =>
      && Number(image, 512 * n) == 2 && 1 <= image[512 * n + 432] <= 30
      && Number(image, 512 * n + 508) != 2 && Number(image, 512 * n + 508) != 0xFFFF_FFFD
  }

  /** What the walk does with a block, by what the block amounts to: one entry, or one warning. */
  lemma {:induction false} VisitByBytes(image: seq<Byte>, parent: Paths.Name, depth: nat, n: nat, st: Walk, v: Verdict)
    requires KnownSize(image) && depth <= 64 && Inside(image, n) && Amounts(image, n, v)
    requires Truthful(image, st) && Parent(st, parent)
    ensures InImage(image, n)
    ensures var next := Visit(image, image[3], parent, depth, n, st);
            match v
            case NoHeader => next == st.(warnings := st.warnings + [NotAHeader(n)])
            case NoName => next == st.(warnings := st.warnings + [InvalidName(n)])
            case AFile(name) =>
              && |next.entries| == |st.entries| + 1 && st.entries == next.entries[..|st.entries|]
              && var e := next.entries[|st.entries|];
                 e.isFile && e.name == name && e.header == n && e.path == Paths.JoinPath(parent, name)
            case ADirectory(name) =>
              && Longer(st, next) && |next.entries| > |st.entries|
              && next.entries[|st.entries|] == Entry(Paths.JoinPath(parent, name), name, false, n, None, None)
              && n in next.visited
            case Unsupported => next.entries == st.entries && |next.warnings| == |st.warnings| + 1
  {
    hide KnownSize, WalkDirectory, Number, BlockWord, BstrName, Named, Paths.JoinPath, FileEntry, SecondaryType, Truthful, Parent;
    BlockWordIsNumber(image, n, 0);
    TypeIsNumber(image, n);
    NameIsNamed(image, n, []);
    match v
    case AFile(name) =>
      NameIsNamed(image, n, name);
      FileEntryTrue(image, Paths.JoinPath(parent, name), name, n);
    case ADirectory(name) =>
      NameIsNamed(image, n, name);
      VisitTrue(image, parent, depth, n, st);
      var e := DirectoryEntry(Paths.JoinPath(parent, name), name, n);
      var listed := AddEntry(st, e);
      AddTrue(image, st, parent, e);
      if n !in st.visited {
        var marked := listed.(visited := st.visited + {n});
        MarkedTrue(image, listed, n);
        assert marked == listed.(visited := listed.visited + {n});
        ListedIsParent(st, e, marked);
        DirectoryTrue(image, n, e.path, depth + 1, marked);
        FirstAdded(st, marked, WalkDirectory(image, image[3], n, e.path, depth + 1, marked), e);
      }
    case _ =>
  }

  lemma {:induction false} FirstAdded(st: Walk, marked: Walk, next: Walk, e: Entry)
    requires marked.entries == st.entries + [e] && Longer(marked, next)
    ensures |next.entries| > |st.entries| && next.entries[|st.entries|] == e
  {
    assert marked.entries[|st.entries|] == e;
  }

  /** A disk is opened exactly for the two sizes of a disk that starts with "DOS" and a version of at most 7. */
  lemma {:induction false} OpenedExactly(image: seq<Byte>)
    ensures KnownSize(image) <==> |image| == 901120 || |image| == 1802240
    ensures KnownSize(image) ==>
              (RecognisedBoot(image) <==> image[0] == 68 && image[1] == 79 && image[2] == 83 && image[3] <= 7)
  {
  }
}
