/**
 What the traversal keeps for every disk image, however corrupt: the counts match the listing, no
 directory block is walked twice, and the listing is bounded by the size of the disk.
 */
module AdfBounds {
  import opened Common
  import opened Bytes
  import opened AdfImage
  import opened AdfFilesystem
  import Paths

  const MAX_BLOCKS := 3520
  // At most one entry per block on each of at most 72 chains.
  const ENTRIES_PER_DIRECTORY := 253440

  function CountFiles(es: seq<Entry>): nat {
    if es == [] then 0 else CountFiles(es[..|es| - 1]) + if es[|es| - 1].isFile then 1 else 0
  }

  function CountHunks(es: seq<Entry>): nat {
    if es == [] then 0 else CountHunks(es[..|es| - 1]) + if es[|es| - 1].isFile && es[|es| - 1].hunk.Some? then 1 else 0
  }

  ghost predicate Consistent(image: seq<Byte>, st: Walk) {
    && st.fileCount == CountFiles(st.entries)
    && st.fileCount + st.directoryCount == |st.entries|
    && st.hunkCount == CountHunks(st.entries)
    && Distinct(st.expanded)
    && forall i :: 0 <= i < |st.expanded| ==> st.expanded[i] in st.visited && InImage(image, st.expanded[i])
  }

  /** From st to next: consistency is kept, and entries are paid for by expanded directories but for `extra`. */
  ghost predicate Pays(image: seq<Byte>, st: Walk, next: Walk, extra: nat) {
    && Consistent(image, next)
    && |st.expanded| <= |next.expanded|
    && st.visited <= next.visited
    && |next.entries| - ENTRIES_PER_DIRECTORY * |next.expanded|
       <= |st.entries| - ENTRIES_PER_DIRECTORY * |st.expanded| + extra
  }

  lemma {:induction false} AddEntryPays(image: seq<Byte>, st: Walk, e: Entry)
    requires Consistent(image, st) && (e.isFile ==> e.payload.Some?)
    ensures Pays(image, st, AddEntry(st, e), 1)
  {
    var next := AddEntry(st, e);
    assert next.entries[..|next.entries| - 1] == st.entries;
  }

  lemma {:induction false} PaysTwice(image: seq<Byte>, a: Walk, b: Walk, c: Walk, m: nat, n: nat)
    requires Pays(image, a, b, m) && Pays(image, b, c, n)
    ensures Pays(image, a, c, m + n)
  {
    hide Consistent;
  }

  /** The block about to be walked is known to `visited` but has not been walked before. */
  ghost predicate Fresh(st: Walk, dir: nat) {
    dir in st.visited && forall i :: 0 <= i < |st.expanded| ==> st.expanded[i] != dir
  }

  lemma {:induction false} DirectoryPays(image: seq<Byte>, dosType: Byte, dir: nat, parent: Paths.Name, depth: nat,
      st: Walk)
    requires KnownSize(image) && InImage(image, dir) && Consistent(image, st) && Fresh(st, dir)
    ensures Pays(image, st, WalkDirectory(image, dosType, dir, parent, depth, st), 0)
    decreases if depth > MAX_DEPTH then 0 else MAX_DEPTH + 1 - depth, 3, 0
  {
    hide InImage, BlockWord, KnownSize, WalkSlots;
    var entered := st.(expanded := st.expanded + [dir]);
    assert Consistent(image, entered);
    var next := WalkDirectory(image, dosType, dir, parent, depth, st);
    if depth <= MAX_DEPTH {
      var size := BlockWord(image, dir, HASH_SIZE_WORD);
      if size != 0 && size <= MAX_HASH_TABLE {
        SlotsPay(image, dosType, dir, parent, depth, 0, size, entered);
        hide Consistent;
      }
    }
  }

  lemma {:induction false} SlotsPay(image: seq<Byte>, dosType: Byte, dir: nat, parent: Paths.Name, depth: nat,
                                    i: nat, size: nat, st: Walk)
    requires KnownSize(image) && InImage(image, dir) && Consistent(image, st)
    requires depth <= MAX_DEPTH && i <= size <= MAX_HASH_TABLE
    ensures Pays(image, st, WalkSlots(image, dosType, dir, parent, depth, i, size, st), (size - i) * MAX_BLOCKS)
    decreases MAX_DEPTH + 1 - depth, 2, size - i
  {
    hide InImage, BlockWord, KnownSize, WalkChain, Consistent;
    if i < size {
      var first := BlockWord(image, dir, HASH_TABLE_WORD + i);
      ChainPays(image, dosType, parent, depth, first, {}, st);
      var mid := WalkChain(image, dosType, parent, depth, first, {}, st);
      SlotsPay(image, dosType, dir, parent, depth, i + 1, size, mid);
      PaysTwice(image, st, mid, WalkSlots(image, dosType, dir, parent, depth, i + 1, size, mid), MAX_BLOCKS, (size - i - 1) * MAX_BLOCKS);
    }
  }

  lemma {:induction false} ChainPays(image: seq<Byte>, dosType: Byte, parent: Paths.Name, depth: nat,
                                     current: nat, chainSeen: set<nat>, st: Walk)
    requires KnownSize(image) && depth <= MAX_DEPTH && Consistent(image, st)
    ensures |Unseen(image, chainSeen)| <= MAX_BLOCKS
    ensures Pays(image, st, WalkChain(image, dosType, parent, depth, current, chainSeen, st), |Unseen(image, chainSeen)|)
    decreases MAX_DEPTH + 1 - depth, 1, |Unseen(image, chainSeen)|
  {
    UnseenBounded(image, chainSeen);
    hide InImage, BlockWord, KnownSize, Visit, Consistent, Unseen;
    assert Consistent(image, Warn(st, HashChainLoop(current))) && Consistent(image, Warn(st, EntryOutsideImage(current))) by {
      WarnKeeps(image, st, HashChainLoop(current));
      WarnKeeps(image, st, EntryOutsideImage(current));
    }
    if current != 0 && current !in chainSeen && InImage(image, current) {
      UnseenShrinks(image, chainSeen, current);
      var mid := Visit(image, dosType, parent, depth, current, st);
      VisitPays(image, dosType, parent, depth, current, st);
      var next := BlockWord(image, current, HASH_CHAIN_WORD);
      ChainPays(image, dosType, parent, depth, next, chainSeen + {current}, mid);
      PaysTwice(image, st, mid, WalkChain(image, dosType, parent, depth, next, chainSeen + {current}, mid),
                1, |Unseen(image, chainSeen + {current})|);
    }
  }

  lemma {:induction false} WarnKeeps(image: seq<Byte>, st: Walk, w: Warning)
    requires Consistent(image, st)
    ensures Consistent(image, Warn(st, w))
  {
  }

  lemma {:induction false} UnseenBounded(image: seq<Byte>, seen: set<nat>)
    requires KnownSize(image)
    ensures |Unseen(image, seen)| <= MAX_BLOCKS
  {
    SubsetSize(Unseen(image, seen), Blocks(image));
  }

  lemma {:induction false} VisitPays(image: seq<Byte>, dosType: Byte, parent: Paths.Name, depth: nat, current: nat,
      st: Walk)
    requires KnownSize(image) && depth <= MAX_DEPTH && InImage(image, current) && Consistent(image, st)
    ensures Pays(image, st, Visit(image, dosType, parent, depth, current, st), 1)
    decreases MAX_DEPTH + 1 - depth, 0, 0
  {
    hide InImage, BlockWord, KnownSize, WalkDirectory, BstrName, AddEntry, Paths.JoinPath, CountFiles, CountHunks;
    if BlockWord(image, current, 0) == PRIMARY_HEADER && BstrName(image, current).Some? {
      var name := BstrName(image, current).value;
      var path := Paths.JoinPath(parent, name);
      var typ := SecondaryType(image, current);
      if typ == SECONDARY_FILE {
        AddEntryPays(image, st, FileEntry(image, dosType, path, name, current));
      } else if typ == SECONDARY_DIRECTORY {
        var e := DirectoryEntry(path, name, current);
        AddEntryPays(image, st, e);
        var listed := AddEntry(st, e);
        assert listed.visited == st.visited && listed.expanded == st.expanded by { DirectoryEntryKeeps(st, e); }
        if current !in st.visited {
          var marked := listed.(visited := st.visited + {current});
          assert Pays(image, st, marked, 1);
          DirectoryPays(image, dosType, current, path, depth + 1, marked);
          PaysTwice(image, st, marked, WalkDirectory(image, dosType, current, path, depth + 1, marked), 1, 0);
        }
      }
    }
  }

  lemma {:induction false} DirectoryEntryKeeps(st: Walk, e: Entry)
    requires e.isFile ==> e.payload.Some?
    ensures AddEntry(st, e).visited == st.visited && AddEntry(st, e).expanded == st.expanded
  {
  }

  /**
   For every disk image: files plus directories are the entries, hunk files are files, every
   directory block is walked at most once, and so the listing has at most 253440 entries per
   directory block and the walk is finite on a cyclic disk.
   */
  lemma {:induction false} TraversalBounded(image: seq<Byte>)
    requires KnownSize(image)
    ensures var st := AnalyzeSpec(image);
            && st.fileCount + st.directoryCount == |st.entries|
            && st.fileCount == CountFiles(st.entries)
            && st.hunkCount == CountHunks(st.entries) && st.hunkCount <= st.fileCount
            && Distinct(st.expanded) && |st.expanded| <= BlockCount(image)
            && |st.entries| <= ENTRIES_PER_DIRECTORY * |st.expanded|
  {
    var root := RootBlock(image);
    var start := Walk({root}, [], 0, 0, 0, [], []);
    assert Consistent(image, start);
    var st := AnalyzeSpec(image);
    if InImage(image, root) && ValidRoot(image, root) {
      DirectoryPays(image, image[3], root, [], 0, start);
    }
    hide WalkDirectory, KnownSize, RootBlock, AnalyzeSpec, CountFiles;
    assert Consistent(image, st);
    HunksAreFiles(st.entries);
    DistinctFits(image, st.expanded);
  }

  lemma {:induction false} HunksAreFiles(es: seq<Entry>)
    ensures CountHunks(es) <= CountFiles(es)
  {
    if es != [] {
      HunksAreFiles(es[..|es| - 1]);
    }
  }

  lemma {:induction false} DistinctFits(image: seq<Byte>, s: seq<nat>)
    requires Distinct(s)
    requires forall i :: 0 <= i < |s| ==> InImage(image, s[i])
    ensures |s| <= BlockCount(image)
  {
    var elements := set i | 0 <= i < |s| :: s[i];
    ElementCount(s);
    Pigeonhole(image, elements);
  }

  lemma {:induction false} ElementCount(s: seq<nat>)
    requires Distinct(s)
    ensures |set i | 0 <= i < |s| :: s[i]| == |s|
  {
    var elements := set i | 0 <= i < |s| :: s[i];
    if s != [] {
      var front := s[..|s| - 1];
      ElementCount(front);
      var fewer := set i | 0 <= i < |front| :: front[i];
      assert elements == fewer + {s[|s| - 1]} by {
        forall x | x in elements ensures x in fewer + {s[|s| - 1]} {
          var i :| 0 <= i < |s| && s[i] == x;
          if i < |front| { assert front[i] == x; }
        }
        forall x | x in fewer ensures x in elements {
          var i :| 0 <= i < |front| && front[i] == x;
          assert s[i] == x;
        }
      }
      assert s[|s| - 1] !in fewer;
    }
  }
}
