/**
 Directory trees on disk.  The traversal lists a tree in preorder, slot by slot and chain by chain,
 and it emits no traversal warning exactly when the image holds a tree.
 */
module AdfTree {
  import opened Common
  import opened Bytes
  import opened AdfImage
  import opened AdfFilesystem
  import AdfPayload
  import HunkFile
  import Paths

  datatype Node =
    | File(name: Paths.Name, header: nat)
    | Dir(name: Paths.Name, header: nat, slots: Slots)

  /** The entries of one hash slot, in chain order. */
  datatype Chain = End | Link(node: Node, rest: Chain)

  /** The hash slots of a directory, in slot order. */
  datatype Slots = NoSlots | Slot(chain: Chain, rest: Slots)

  function SlotCount(slots: Slots): nat {
    match slots
    case NoSlots => 0
    case Slot(_, rest) => 1 + SlotCount(rest)
  }

  // ------------------------------------------------ when an image holds a tree

  /** Block `number` is the header of `node`. */
  ghost predicate HoldsNode(image: seq<Byte>, number: nat, node: Node, depth: nat)
    requires InImage(image, number)
    decreases node
  {
    && node.header == number
    && BlockWord(image, number, 0) == PRIMARY_HEADER
    && BstrName(image, number) == Some(node.name)
    && match node
       case File(_, _) => SecondaryType(image, number) == SECONDARY_FILE
       case Dir(_, _, slots) =>
         SecondaryType(image, number) == SECONDARY_DIRECTORY && HoldsDirectory(image, number, slots, depth + 1)
  }

  ghost predicate HoldsDirectory(image: seq<Byte>, dir: nat, slots: Slots, depth: nat)
    requires InImage(image, dir)
    decreases slots, 1
  {
    && depth <= MAX_DEPTH
    && 1 <= BlockWord(image, dir, HASH_SIZE_WORD) <= MAX_HASH_TABLE
    && SlotCount(slots) == BlockWord(image, dir, HASH_SIZE_WORD)
    && HoldsSlots(image, dir, 0, slots, depth)
  }

  ghost predicate HoldsSlots(image: seq<Byte>, dir: nat, i: nat, slots: Slots, depth: nat)
    requires InImage(image, dir) && i + SlotCount(slots) <= MAX_HASH_TABLE
    decreases slots, 0
  {
    match slots
    case NoSlots => true
    case Slot(chain, rest) =>
      && HoldsChain(image, BlockWord(image, dir, HASH_TABLE_WORD + i), {}, chain, depth)
      && HoldsSlots(image, dir, i + 1, rest, depth)
  }

  /** The chain starting at block `current`, none of whose blocks is in `before` or occurs twice. */
  ghost predicate HoldsChain(image: seq<Byte>, current: nat, before: set<nat>, chain: Chain, depth: nat)
    decreases chain
  {
    match chain
    case End => current == 0
    case Link(node, rest) =>
      && current != 0 && current !in before && InImage(image, current)
      && HoldsNode(image, current, node, depth)
      && HoldsChain(image, BlockWord(image, current, HASH_CHAIN_WORD), before + {current}, rest, depth)
  }

  /** The header blocks of all directories, in preorder. */
  function DirsOfNode(node: Node): seq<nat> {
    match node
    case File(_, _) => []
    case Dir(_, header, slots) => [header] + DirsOfSlots(slots)
  }

  function DirsOfChain(chain: Chain): seq<nat> {
    match chain
    case End => []
    case Link(node, rest) => DirsOfNode(node) + DirsOfChain(rest)
  }

  function DirsOfSlots(slots: Slots): seq<nat> {
    match slots
    case NoSlots => []
    case Slot(chain, rest) => DirsOfChain(chain) + DirsOfSlots(rest)
  }

  ghost predicate Avoids(s: seq<nat>, seen: set<nat>) {
    forall i :: 0 <= i < |s| ==> s[i] !in seen
  }

  ghost function Elements(s: seq<nat>): set<nat> {
    set x | x in s
  }

  /** No directory is reached twice, or reached again from below. */
  ghost predicate Once(dirs: seq<nat>, visited: set<nat>) {
    Distinct(dirs) && Avoids(dirs, visited)
  }

  lemma {:induction false} OnceSplit(a: seq<nat>, b: seq<nat>, visited: set<nat>)
    ensures Once(a + b, visited) <==> Once(a, visited) && Once(b, visited + Elements(a))
  {
    var s := a + b;
    if Once(s, visited) {
      forall i | 0 <= i < |a| ensures a[i] !in visited { assert a[i] == s[i]; }
      forall i, j | 0 <= i < j < |a| ensures a[i] != a[j] { assert a[i] == s[i] && a[j] == s[j]; }
      forall i | 0 <= i < |b| ensures b[i] !in visited + Elements(a) {
        assert b[i] == s[|a| + i];
        forall k | 0 <= k < |a| ensures a[k] != b[i] { assert a[k] == s[k]; }
      }
      forall i, j | 0 <= i < j < |b| ensures b[i] != b[j] { assert b[i] == s[|a| + i] && b[j] == s[|a| + j]; }
    }
  }

  // ------------------------------------------------ the listing of a tree

  ghost function ListNode(image: seq<Byte>, dosType: Byte, parent: Paths.Name, node: Node): seq<Entry>
    decreases node
  {
    var path := Paths.JoinPath(parent, node.name);
    match node
    case File(name, header) => [FileEntry(image, dosType, path, name, header)]
    case Dir(name, header, slots) => [DirectoryEntry(path, name, header)] + ListSlots(image, dosType, path, slots)
  }

  ghost function ListChain(image: seq<Byte>, dosType: Byte, parent: Paths.Name, chain: Chain): seq<Entry>
    decreases chain
  {
    match chain
    case End => []
    case Link(node, rest) => ListNode(image, dosType, parent, node) + ListChain(image, dosType, parent, rest)
  }

  ghost function ListSlots(image: seq<Byte>, dosType: Byte, parent: Paths.Name, slots: Slots): seq<Entry>
    decreases slots
  {
    match slots
    case NoSlots => []
    case Slot(chain, rest) => ListChain(image, dosType, parent, chain) + ListSlots(image, dosType, parent, rest)
  }

  function NotesOf(e: Entry): seq<Warning> {
    if e.isFile && e.payload.Some? then HunkWarnings(e.path, e.hunk) + PayloadWarnings(e.path, e.payload.value) else []
  }

  /** The warnings about file contents that go with a listing. */
  function Notes(es: seq<Entry>): seq<Warning> {
    if es == [] then [] else NotesOf(es[0]) + Notes(es[1..])
  }

  lemma {:induction false} NotesConcat(a: seq<Entry>, b: seq<Entry>)
    ensures Notes(a + b) == Notes(a) + Notes(b)
  {
    if a == [] {
      assert a + b == b;
    } else {
      assert (a + b)[1..] == a[1..] + b;
      NotesConcat(a[1..], b);
    }
  }

  /** The walk went from st to next by listing `es` and walking the directories `dirs`. */
  ghost predicate Listed(st: Walk, next: Walk, es: seq<Entry>, dirs: seq<nat>) {
    && next.entries == st.entries + es
    && next.warnings == st.warnings + Notes(es)
    && next.visited == st.visited + Elements(dirs)
    && next.expanded == st.expanded + dirs
  }

  lemma {:induction false} ListedTwice(a: Walk, b: Walk, c: Walk, es: seq<Entry>, fs: seq<Entry>, ds: seq<nat>,
      gs: seq<nat>)
    requires Listed(a, b, es, ds) && Listed(b, c, fs, gs)
    ensures Listed(a, c, es + fs, ds + gs)
  {
    hide Notes, Elements;
    NotesConcat(es, fs);
    ElementsConcat(ds, gs);
    Append(a.entries, es, fs);
    Append(a.warnings, Notes(es), Notes(fs));
    Append(a.expanded, ds, gs);
  }

  lemma {:induction false} Append<T>(s: seq<T>, x: seq<T>, y: seq<T>)
    ensures s + x + y == s + (x + y)
  {
  }

  lemma {:induction false} ElementsConcat(a: seq<nat>, b: seq<nat>)
    ensures Elements(a + b) == Elements(a) + Elements(b)
  {
  }

  lemma {:induction false} FileListed(st: Walk, e: Entry)
    requires e.isFile && e.payload.Some?
    ensures Listed(st, AddEntry(st, e), [e], [])
  {
    assert Notes([e]) == NotesOf(e) + Notes([e][1..]);
    assert Elements([]) == {};
  }

  // ------------------------------------------------ a tree is listed in preorder

  lemma {:induction false} SlotsListed(image: seq<Byte>, dosType: Byte, dir: nat, parent: Paths.Name, depth: nat,
                                       i: nat, slots: Slots, st: Walk)
    requires InImage(image, dir) && depth <= MAX_DEPTH && i + SlotCount(slots) <= MAX_HASH_TABLE
    requires HoldsSlots(image, dir, i, slots, depth) && Once(DirsOfSlots(slots), st.visited)
    ensures Listed(st, WalkSlots(image, dosType, dir, parent, depth, i, i + SlotCount(slots), st),
                   ListSlots(image, dosType, parent, slots), DirsOfSlots(slots))
    decreases slots, 0
  {
    hide InImage, BlockWord, Once, WalkChain, ListChain, HoldsChain;
    match slots
    case NoSlots =>
      assert Elements([]) == {};
    case Slot(chain, rest) =>
      var first := BlockWord(image, dir, HASH_TABLE_WORD + i);
      OnceSplit(DirsOfChain(chain), DirsOfSlots(rest), st.visited);
      ChainListed(image, dosType, parent, depth, first, {}, chain, st);
      var mid := WalkChain(image, dosType, parent, depth, first, {}, st);
      SlotsListed(image, dosType, dir, parent, depth, i + 1, rest, mid);
      hide Listed;
      ListedTwice(st, mid, WalkSlots(image, dosType, dir, parent, depth, i + 1, i + SlotCount(slots), mid),
                  ListChain(image, dosType, parent, chain), ListSlots(image, dosType, parent, rest),
                  DirsOfChain(chain), DirsOfSlots(rest));
  }

  lemma {:induction false} ChainListed(image: seq<Byte>, dosType: Byte, parent: Paths.Name, depth: nat,
                                       current: nat, chainSeen: set<nat>, chain: Chain, st: Walk)
    requires depth <= MAX_DEPTH
    requires HoldsChain(image, current, chainSeen, chain, depth) && Once(DirsOfChain(chain), st.visited)
    ensures Listed(st, WalkChain(image, dosType, parent, depth, current, chainSeen, st),
                   ListChain(image, dosType, parent, chain), DirsOfChain(chain))
    decreases chain, 0
  {
    hide InImage, BlockWord, Once, Visit, ListNode, HoldsNode, DirsOfNode, Unseen;
    match chain
    case End =>
      assert Elements([]) == {};
    case Link(node, rest) =>
      OnceSplit(DirsOfNode(node), DirsOfChain(rest), st.visited);
      NodeListed(image, dosType, parent, depth, current, node, st);
      var mid := Visit(image, dosType, parent, depth, current, st);
      var next := BlockWord(image, current, HASH_CHAIN_WORD);
      UnseenShrinks(image, chainSeen, current);
      ChainListed(image, dosType, parent, depth, next, chainSeen + {current}, rest, mid);
      hide Listed;
      ListedTwice(st, mid, WalkChain(image, dosType, parent, depth, next, chainSeen + {current}, mid),
                  ListNode(image, dosType, parent, node), ListChain(image, dosType, parent, rest),
                  DirsOfNode(node), DirsOfChain(rest));
  }

  lemma {:induction false} NodeListed(image: seq<Byte>, dosType: Byte, parent: Paths.Name, depth: nat,
                                      current: nat, node: Node, st: Walk)
    requires depth <= MAX_DEPTH && InImage(image, current)
    requires HoldsNode(image, current, node, depth) && Once(DirsOfNode(node), st.visited)
    ensures Listed(st, Visit(image, dosType, parent, depth, current, st),
                   ListNode(image, dosType, parent, node), DirsOfNode(node))
    decreases node
  {
    hide InImage, BlockWord, Once, WalkSlots, ListSlots, HoldsSlots, DirsOfSlots, BstrName, SecondaryType, Paths.JoinPath;
    var path := Paths.JoinPath(parent, node.name);
    match node
    case File(name, header) =>
      FileListed(st, FileEntry(image, dosType, path, name, header));
    case Dir(name, header, slots) =>
      var e := DirectoryEntry(path, name, header);
      OnceSplit([header], DirsOfSlots(slots), st.visited);
      assert Elements([header]) == {header};
      assert header !in st.visited by { OnceOne(header, st.visited); }
      var marked := AddEntry(st, e).(visited := st.visited + {header});
      var entered := marked.(expanded := st.expanded + [header]);
      assert Listed(st, entered, [e], [header]) by {
        assert Notes([e]) == NotesOf(e) + Notes([e][1..]);
      }
      SlotsListed(image, dosType, header, path, depth + 1, 0, slots, entered);
      hide Listed;
      ListedTwice(st, entered, WalkSlots(image, dosType, header, path, depth + 1, 0, SlotCount(slots), entered),
                  [e], ListSlots(image, dosType, path, slots), [header], DirsOfSlots(slots));
  }

  lemma {:induction false} OnceOne(n: nat, visited: set<nat>)
    requires Once([n], visited)
    ensures n !in visited
  {
    assert [n][0] !in visited;
  }

  /** The tree the disk's root directory holds. */
  ghost predicate HoldsTree(image: seq<Byte>, slots: Slots)
    requires KnownSize(image)
  {
    && ValidRoot(image, RootBlock(image))
    && HoldsDirectory(image, RootBlock(image), slots, 0)
    && Once(DirsOfSlots(slots), {RootBlock(image)})
  }

  /**
   A disk that holds a tree is listed in preorder, each directory once, and the only warnings are
   about the contents of files.
   */
  lemma {:induction false} TreeListedInPreorder(image: seq<Byte>, slots: Slots)
    requires KnownSize(image) && HoldsTree(image, slots)
    ensures var st := AnalyzeSpec(image);
            && st.entries == ListSlots(image, image[3], [], slots)
            && st.warnings == Notes(st.entries)
            && st.expanded == [RootBlock(image)] + DirsOfSlots(slots)
  {
    hide Once, WalkSlots, ListSlots, HoldsSlots, DirsOfSlots, RootBlock, Notes;
    var root := RootBlock(image);
    InImageIsBelowCount(image, root);
    hide BlockWord, InImage;
    var start := Walk({root}, [], 0, 0, 0, [], []);
    SlotsListed(image, image[3], root, [], 0, 0, slots, start.(expanded := start.expanded + [root]));
  }

  // ------------------------------------------------ and without warnings there is a tree

  predicate AboutContents(w: Warning) {
    w.InFileHunk? || w.InFilePayload?
  }

  lemma {:induction false} NotesAboutContents(es: seq<Entry>, i: nat)
    requires i < |Notes(es)|
    ensures AboutContents(Notes(es)[i])
  {
    if i >= |NotesOf(es[0])| {
      NotesAboutContents(es[1..], i - |NotesOf(es[0])|);
    }
  }

  /** Nothing but remarks about file contents was added. */
  ghost predicate Quiet(st: Walk, next: Walk) {
    && |st.warnings| <= |next.warnings|
    && forall i :: |st.warnings| <= i < |next.warnings| ==> AboutContents(next.warnings[i])
  }

  lemma {:induction false} QuietSplit(a: Walk, b: Walk, c: Walk)
    requires Quiet(a, c) && a.warnings <= b.warnings <= c.warnings
    ensures Quiet(a, b) && Quiet(b, c)
  {
    forall i | |a.warnings| <= i < |b.warnings| ensures AboutContents(b.warnings[i]) {
      assert b.warnings[i] == c.warnings[i];
    }
  }

  lemma {:induction false} LoudWarning(st: Walk, w: Warning)
    requires !AboutContents(w)
    ensures !Quiet(st, Warn(st, w))
  {
    assert Warn(st, w).warnings[|st.warnings|] == w;
  }

  lemma {:induction false} DirectoryKeepsWarnings(image: seq<Byte>, dosType: Byte, dir: nat, parent: Paths.Name,
      depth: nat, st: Walk)
    requires InImage(image, dir)
    ensures st.warnings <= WalkDirectory(image, dosType, dir, parent, depth, st).warnings
    decreases if depth > MAX_DEPTH then 0 else MAX_DEPTH + 1 - depth, 3, 0
  {
    hide BlockWord, InImage, WalkSlots;
    var size := BlockWord(image, dir, HASH_SIZE_WORD);
    if depth <= MAX_DEPTH && 0 < size <= MAX_HASH_TABLE {
      SlotsKeepWarnings(image, dosType, dir, parent, depth, 0, size, st.(expanded := st.expanded + [dir]));
    }
  }

  lemma {:induction false} SlotsKeepWarnings(image: seq<Byte>, dosType: Byte, dir: nat, parent: Paths.Name, depth: nat,
                                             i: nat, size: nat, st: Walk)
    requires InImage(image, dir) && depth <= MAX_DEPTH && i <= size <= MAX_HASH_TABLE
    ensures st.warnings <= WalkSlots(image, dosType, dir, parent, depth, i, size, st).warnings
    decreases MAX_DEPTH + 1 - depth, 2, size - i
  {
    hide BlockWord, InImage, WalkChain;
    if i < size {
      var first := BlockWord(image, dir, HASH_TABLE_WORD + i);
      ChainKeepsWarnings(image, dosType, parent, depth, first, {}, st);
      SlotsKeepWarnings(image, dosType, dir, parent, depth, i + 1, size, WalkChain(image, dosType, parent, depth, first, {}, st));
    }
  }

  lemma {:induction false} ChainKeepsWarnings(image: seq<Byte>, dosType: Byte, parent: Paths.Name, depth: nat,
                                              current: nat, chainSeen: set<nat>, st: Walk)
    requires depth <= MAX_DEPTH
    ensures st.warnings <= WalkChain(image, dosType, parent, depth, current, chainSeen, st).warnings
    decreases MAX_DEPTH + 1 - depth, 1, |Unseen(image, chainSeen)|
  {
    hide BlockWord, InImage, Visit, Unseen;
    if current != 0 && current !in chainSeen && InImage(image, current) {
      UnseenShrinks(image, chainSeen, current);
      VisitKeepsWarnings(image, dosType, parent, depth, current, st);
      ChainKeepsWarnings(image, dosType, parent, depth, BlockWord(image, current, HASH_CHAIN_WORD), chainSeen + {current},
                         Visit(image, dosType, parent, depth, current, st));
    }
  }

  lemma {:induction false} VisitKeepsWarnings(image: seq<Byte>, dosType: Byte, parent: Paths.Name, depth: nat,
      current: nat, st: Walk)
    requires depth <= MAX_DEPTH && InImage(image, current)
    ensures st.warnings <= Visit(image, dosType, parent, depth, current, st).warnings
    decreases MAX_DEPTH + 1 - depth, 0, 0
  {
    hide BlockWord, InImage, WalkDirectory, BstrName, SecondaryType, HunkWarnings, PayloadWarnings;
    if BlockWord(image, current, 0) == PRIMARY_HEADER && BstrName(image, current).Some?
       && SecondaryType(image, current) == SECONDARY_DIRECTORY && current !in st.visited {
      var name := BstrName(image, current).value;
      var path := Paths.JoinPath(parent, name);
      var listed := AddEntry(st, DirectoryEntry(path, name, current));
      DirectoryKeepsWarnings(image, dosType, current, path, depth + 1, listed.(visited := st.visited + {current}));
    }
  }

  lemma {:induction false} SlotsBuilt(image: seq<Byte>, dosType: Byte, dir: nat, parent: Paths.Name, depth: nat,
                                      i: nat, size: nat, st: Walk) returns (slots: Slots)
    requires InImage(image, dir) && depth <= MAX_DEPTH && i <= size <= MAX_HASH_TABLE
    requires Quiet(st, WalkSlots(image, dosType, dir, parent, depth, i, size, st))
    ensures SlotCount(slots) == size - i && HoldsSlots(image, dir, i, slots, depth)
    ensures Once(DirsOfSlots(slots), st.visited)
    decreases MAX_DEPTH + 1 - depth, 2, size - i
  {
    hide BlockWord, InImage, WalkChain, HoldsChain, DirsOfChain, ListChain;
    if i == size {
      slots := NoSlots;
    } else {
      var first := BlockWord(image, dir, HASH_TABLE_WORD + i);
      var mid := WalkChain(image, dosType, parent, depth, first, {}, st);
      ChainKeepsWarnings(image, dosType, parent, depth, first, {}, st);
      SlotsKeepWarnings(image, dosType, dir, parent, depth, i + 1, size, mid);
      QuietSplit(st, mid, WalkSlots(image, dosType, dir, parent, depth, i + 1, size, mid));
      hide Quiet, Once;
      var chain := ChainBuilt(image, dosType, parent, depth, first, {}, st);
      ChainListed(image, dosType, parent, depth, first, {}, chain, st);
      var rest := SlotsBuilt(image, dosType, dir, parent, depth, i + 1, size, mid);
      slots := Slot(chain, rest);
      OnceSplit(DirsOfChain(chain), DirsOfSlots(rest), st.visited);
    }
  }

  lemma {:induction false} ChainBuilt(image: seq<Byte>, dosType: Byte, parent: Paths.Name, depth: nat,
                                      current: nat, chainSeen: set<nat>, st: Walk) returns (chain: Chain)
    requires depth <= MAX_DEPTH
    requires Quiet(st, WalkChain(image, dosType, parent, depth, current, chainSeen, st))
    ensures HoldsChain(image, current, chainSeen, chain, depth)
    ensures Once(DirsOfChain(chain), st.visited)
    decreases MAX_DEPTH + 1 - depth, 1, |Unseen(image, chainSeen)|
  {
    hide BlockWord, InImage, Visit, Unseen, HoldsNode, DirsOfNode, ListNode;
    LoudWarning(st, HashChainLoop(current));
    LoudWarning(st, EntryOutsideImage(current));
    if current == 0 {
      chain := End;
    } else {
      UnseenShrinks(image, chainSeen, current);
      var mid := Visit(image, dosType, parent, depth, current, st);
      var next := BlockWord(image, current, HASH_CHAIN_WORD);
      VisitKeepsWarnings(image, dosType, parent, depth, current, st);
      ChainKeepsWarnings(image, dosType, parent, depth, next, chainSeen + {current}, mid);
      QuietSplit(st, mid, WalkChain(image, dosType, parent, depth, next, chainSeen + {current}, mid));
      hide Quiet, Once;
      var node := NodeBuilt(image, dosType, parent, depth, current, st);
      NodeListed(image, dosType, parent, depth, current, node, st);
      var rest := ChainBuilt(image, dosType, parent, depth, next, chainSeen + {current}, mid);
      chain := Link(node, rest);
      OnceSplit(DirsOfNode(node), DirsOfChain(rest), st.visited);
    }
  }

  /** A quiet visit meets a named header of a known type. */
  lemma {:induction false} QuietVisit(image: seq<Byte>, dosType: Byte, parent: Paths.Name, depth: nat, current: nat,
      st: Walk)
    requires depth <= MAX_DEPTH && InImage(image, current)
    requires Quiet(st, Visit(image, dosType, parent, depth, current, st))
    ensures BlockWord(image, current, 0) == PRIMARY_HEADER && BstrName(image, current).Some?
    ensures SecondaryType(image, current) in {SECONDARY_FILE, SECONDARY_DIRECTORY}
  {
    hide Quiet, BlockWord, InImage, WalkDirectory, BstrName, SecondaryType, HunkWarnings, PayloadWarnings;
    LoudWarning(st, NotAHeader(current));
    LoudWarning(st, InvalidName(current));
    LoudWarning(st, UnsupportedType(current, SecondaryType(image, current)));
  }

  /** The walk on entering a directory that is listed at block `current`. */
  ghost function Listing(image: seq<Byte>, parent: Paths.Name, current: nat, st: Walk): Walk
    requires InImage(image, current) && BstrName(image, current).Some?
  {
    var name := BstrName(image, current).value;
    AddEntry(st, DirectoryEntry(Paths.JoinPath(parent, name), name, current))
  }

  /** A quiet visit of a directory is a quiet walk of a directory not seen before. */
  lemma {:induction false} QuietDirectory(image: seq<Byte>, dosType: Byte, parent: Paths.Name, depth: nat,
      current: nat, st: Walk)
    requires depth <= MAX_DEPTH && InImage(image, current)
    requires BlockWord(image, current, 0) == PRIMARY_HEADER && BstrName(image, current).Some?
    requires SecondaryType(image, current) == SECONDARY_DIRECTORY
    requires Quiet(st, Visit(image, dosType, parent, depth, current, st))
    ensures var listed := Listing(image, parent, current, st);
            && current !in st.visited && listed.warnings == st.warnings
            && Quiet(listed, WalkDirectory(image, dosType, current, Paths.JoinPath(parent, BstrName(image, current).value), depth + 1,
                                           listed.(visited := st.visited + {current})))
  {
    hide Quiet, BlockWord, InImage, WalkDirectory, BstrName, SecondaryType, HunkWarnings, PayloadWarnings;
    var listed := Listing(image, parent, current, st);
    QuietFrom(st, listed, Visit(image, dosType, parent, depth, current, st));
    LoudWarning(listed, DirectoryLoop(current));
  }

  lemma {:induction false} NodeBuilt(image: seq<Byte>, dosType: Byte, parent: Paths.Name, depth: nat,
                                     current: nat, st: Walk) returns (node: Node)
    requires depth <= MAX_DEPTH && InImage(image, current)
    requires Quiet(st, Visit(image, dosType, parent, depth, current, st))
    ensures HoldsNode(image, current, node, depth)
    ensures Once(DirsOfNode(node), st.visited)
    decreases MAX_DEPTH + 1 - depth, 0, 0
  {
    hide Quiet, Visit, Once, BlockWord, InImage, WalkDirectory, BstrName, SecondaryType, HoldsDirectory, DirsOfSlots;
    QuietVisit(image, dosType, parent, depth, current, st);
    var name := BstrName(image, current).value;
    if SecondaryType(image, current) == SECONDARY_FILE {
      node := File(name, current);
      assert Once([], st.visited) by { OnceNone(st.visited); }
    } else {
      QuietDirectory(image, dosType, parent, depth, current, st);
      var listed := Listing(image, parent, current, st);
      var slots := DirectoryBuilt(image, dosType, current, Paths.JoinPath(parent, name), depth + 1,
                                  listed.(visited := st.visited + {current}), listed);
      node := Dir(name, current, slots);
      OnceFirst(current, DirsOfSlots(slots), st.visited);
    }
  }

  lemma {:induction false} OnceFirst(n: nat, rest: seq<nat>, visited: set<nat>)
    requires n !in visited && Once(rest, visited + {n})
    ensures Once([n] + rest, visited)
  {
    assert Elements([n]) == {n};
    OnceSplit([n], rest, visited);
  }

  lemma {:induction false} OnceNone(visited: set<nat>)
    ensures Once([], visited)
  {
  }

  lemma {:induction false} QuietFrom(a: Walk, b: Walk, c: Walk)
    requires Quiet(a, c) && a.warnings == b.warnings
    ensures Quiet(b, c)
  {
  }

  lemma {:induction false} DirectoryBuilt(image: seq<Byte>, dosType: Byte, dir: nat, parent: Paths.Name, depth: nat,
                                          st: Walk, before: Walk) returns (slots: Slots)
    requires InImage(image, dir) && before.warnings == st.warnings
    requires Quiet(before, WalkDirectory(image, dosType, dir, parent, depth, st))
    ensures HoldsDirectory(image, dir, slots, depth)
    ensures Once(DirsOfSlots(slots), st.visited)
    decreases if depth > MAX_DEPTH then 0 else MAX_DEPTH + 1 - depth, 3, 0
  {
    hide BlockWord, InImage, WalkSlots, HoldsSlots, DirsOfSlots, Once;
    var size := BlockWord(image, dir, HASH_SIZE_WORD);
    var entered := st.(expanded := st.expanded + [dir]);
    QuietFrom(before, entered, WalkDirectory(image, dosType, dir, parent, depth, st));
    LoudWarning(entered, DepthLimit);
    LoudWarning(entered, InvalidHashSize(size));
    slots := SlotsBuilt(image, dosType, dir, parent, depth, 0, size, entered);
  }

  /**
   The traversal raises no warning of its own exactly when the disk holds a tree: every corruption
   that makes the directory structure something else is reported.
   */
  lemma {:induction false} QuietExactlyOnTrees(image: seq<Byte>)
    requires KnownSize(image)
    ensures (forall i :: 0 <= i < |AnalyzeSpec(image).warnings| ==> AboutContents(AnalyzeSpec(image).warnings[i]))
            <==> exists slots :: HoldsTree(image, slots)
  {
    hide WalkDirectory, HoldsDirectory, DirsOfSlots, Once, RootBlock, Notes, ListSlots;
    var root := RootBlock(image);
    var start := Walk({root}, [], 0, 0, 0, [], []);
    InImageIsBelowCount(image, root);
    hide BlockWord, InImage;
    if forall i :: 0 <= i < |AnalyzeSpec(image).warnings| ==> AboutContents(AnalyzeSpec(image).warnings[i]) {
      assert Quiet(start, AnalyzeSpec(image));
      LoudWarning(start, RootOutsideImage(root));
      LoudWarning(start, NotARootHeader(root));
      var slots := DirectoryBuilt(image, image[3], root, [], 0, start, start);
      assert HoldsTree(image, slots);
    }
    if slots :| HoldsTree(image, slots) {
      TreeListedInPreorder(image, slots);
      forall i | 0 <= i < |AnalyzeSpec(image).warnings| ensures AboutContents(AnalyzeSpec(image).warnings[i]) {
        NotesAboutContents(AnalyzeSpec(image).entries, i);
      }
    }
  }

  // ------------------------------------------------ paths

  ghost predicate OrdinaryNode(node: Node) {
    Paths.Ordinary(node.name) && (node.Dir? ==> OrdinarySlots(node.slots))
  }

  ghost predicate OrdinaryChain(chain: Chain) {
    chain.Link? ==> OrdinaryNode(chain.node) && OrdinaryChain(chain.rest)
  }

  ghost predicate OrdinarySlots(slots: Slots) {
    slots.Slot? ==> OrdinaryChain(slots.chain) && OrdinarySlots(slots.rest)
  }

  /** The paths of a listing: the names of the directories above, and the name, joined by slashes. */
  function SpelledNode(above: seq<Paths.Name>, node: Node): seq<Paths.Name>
    decreases node
  {
    var here := above + [node.name];
    [Paths.PathOf(here)] + if node.Dir? then SpelledSlots(here, node.slots) else []
  }

  function SpelledChain(above: seq<Paths.Name>, chain: Chain): seq<Paths.Name>
    decreases chain
  {
    match chain
    case End => []
    case Link(node, rest) => SpelledNode(above, node) + SpelledChain(above, rest)
  }

  function SpelledSlots(above: seq<Paths.Name>, slots: Slots): seq<Paths.Name>
    decreases slots
  {
    match slots
    case NoSlots => []
    case Slot(chain, rest) => SpelledChain(above, chain) + SpelledSlots(above, rest)
  }

  function PathsOf(es: seq<Entry>): seq<Paths.Name> {
    seq(|es|, i requires 0 <= i < |es| => es[i].path)
  }

  lemma {:induction false} PathsConcat(a: seq<Entry>, b: seq<Entry>)
    ensures PathsOf(a + b) == PathsOf(a) + PathsOf(b)
  {
  }

  lemma {:induction false} NodeSpelled(image: seq<Byte>, dosType: Byte, above: seq<Paths.Name>, node: Node)
    requires Paths.AllOrdinary(above) && OrdinaryNode(node)
    ensures PathsOf(ListNode(image, dosType, Paths.PathOf(above), node)) == SpelledNode(above, node)
    decreases node
  {
    hide Paths.JoinPath, Paths.PathOf, Paths.Ordinary;
    Paths.JoinOrdinary(above, node.name);
    var here := above + [node.name];
    if node.Dir? {
      SlotsSpelled(image, dosType, here, node.slots);
      PathsConcat([DirectoryEntry(Paths.PathOf(here), node.name, node.header)],
                  ListSlots(image, dosType, Paths.PathOf(here), node.slots));
    }
  }

  lemma {:induction false} ChainSpelled(image: seq<Byte>, dosType: Byte, above: seq<Paths.Name>, chain: Chain)
    requires Paths.AllOrdinary(above) && OrdinaryChain(chain)
    ensures PathsOf(ListChain(image, dosType, Paths.PathOf(above), chain)) == SpelledChain(above, chain)
    decreases chain
  {
    hide ListNode, SpelledNode;
    if chain.Link? {
      NodeSpelled(image, dosType, above, chain.node);
      ChainSpelled(image, dosType, above, chain.rest);
      var parent := Paths.PathOf(above);
      PathsConcat(ListNode(image, dosType, parent, chain.node), ListChain(image, dosType, parent, chain.rest));
    }
  }

  /** With ordinary names, each entry's path spells the directories above it and its own name. */
  lemma {:induction false} SlotsSpelled(image: seq<Byte>, dosType: Byte, above: seq<Paths.Name>, slots: Slots)
    requires Paths.AllOrdinary(above) && OrdinarySlots(slots)
    ensures PathsOf(ListSlots(image, dosType, Paths.PathOf(above), slots)) == SpelledSlots(above, slots)
    decreases slots
  {
    hide ListChain, SpelledChain;
    if slots.Slot? {
      ChainSpelled(image, dosType, above, slots.chain);
      SlotsSpelled(image, dosType, above, slots.rest);
      var parent := Paths.PathOf(above);
      PathsConcat(ListChain(image, dosType, parent, slots.chain), ListSlots(image, dosType, parent, slots.rest));
    }
  }

  /** The paths listed for a disk that holds a tree of ordinary names. */
  lemma {:induction false} TreePathsSpelled(image: seq<Byte>, slots: Slots)
    requires KnownSize(image) && HoldsTree(image, slots) && OrdinarySlots(slots)
    ensures PathsOf(AnalyzeSpec(image).entries) == SpelledSlots([], slots)
  {
    hide AnalyzeSpec, ListSlots, SpelledSlots, HoldsTree;
    TreeListedInPreorder(image, slots);
    assert Paths.PathOf([]) == [];
    SlotsSpelled(image, image[3], [], slots);
  }
}
