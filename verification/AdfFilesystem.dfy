/**
 Enumeration of the files and directories of a disk image (internal/adf/filesystem.go).

 `Traversal` is the recursive walk with its visited set and growing result.  `WalkDirectory`,
 `WalkSlots`, `WalkChain` and `Visit` give the same walk as functions of the state.
 */
module AdfFilesystem {
  import opened Common
  import opened Bytes
  import opened AdfImage
  import AdfPayload
  import HunkFile
  import Paths

  const NAME_OFFSET := 432
  const MAX_NAME := 30
  const HASH_SIZE_WORD := 3
  const HASH_TABLE_WORD := 6
  const MAX_HASH_TABLE := 72
  const HASH_CHAIN_WORD := 124
  const MAX_DEPTH := 64

  datatype Entry = Entry(
    path: Paths.Name,
    name: Paths.Name,
    isFile: bool,
    header: nat,
    payload: Option<AdfPayload.Payload>,
    hunk: Option<HunkFile.Analysis>)

  datatype Warning =
    | RootOutsideImage(root: nat)
    | NotARootHeader(root: nat)
    | DepthLimit
    | InvalidHashSize(size: nat)
    | HashChainLoop(number: nat)
    | EntryOutsideImage(number: nat)
    | NotAHeader(number: nat)
    | InvalidName(number: nat)
    | UnsupportedType(number: nat, typ: int)
    | DirectoryLoop(number: nat)
    | InFileHunk(path: Paths.Name, hunk: HunkFile.Warning)
    | InFilePayload(path: Paths.Name, payload: AdfPayload.Warning)

  /** `expanded` is history: the directory blocks walked into, in order. */
  datatype Walk = Walk(
    visited: set<nat>,
    expanded: seq<nat>,
    fileCount: nat,
    directoryCount: nat,
    hunkCount: nat,
    entries: seq<Entry>,
    warnings: seq<Warning>)

  // ------------------------------------------------ one entry

  /** `bstrName`: a length-prefixed name of 1 to 30 bytes. */
  function BstrName(image: seq<Byte>, number: nat): (name: Option<Paths.Name>)
    requires InImage(image, number)
    ensures name.Some? ==> 1 <= |name.value| <= MAX_NAME
  {
    var off := number * BLOCK_SIZE + NAME_OFFSET;
    var n: nat := image[off];
    if n < 1 || n > MAX_NAME then None else Some(image[off + 1..off + 1 + n])
  }

  function Warn(st: Walk, w: Warning): Walk {
    st.(warnings := st.warnings + [w])
  }

  ghost function HunkOf(p: AdfPayload.Payload): Option<HunkFile.Analysis> {
    var a := HunkFile.AnalyzeSpec(p.data);
    if p.complete && a.recognized then Some(a) else None
  }

  function HunkWarnings(path: Paths.Name, hunk: Option<HunkFile.Analysis>): seq<Warning> {
    if hunk.None? then []
    else seq(|hunk.value.warnings|, i requires 0 <= i < |hunk.value.warnings| => InFileHunk(path, hunk.value.warnings[i]))
  }

  function PayloadWarnings(path: Paths.Name, p: AdfPayload.Payload): seq<Warning> {
    match p.warning
    case None => []
    case Some(w) => [InFilePayload(path, w)]
  }

  ghost function FileEntry(image: seq<Byte>, dosType: Byte, path: Paths.Name, name: Paths.Name, header: nat): Entry {
    var payload := AdfPayload.PayloadSpec(image, header, dosType);
    Entry(path, name, true, header, Some(payload), HunkOf(payload))
  }

  function DirectoryEntry(path: Paths.Name, name: Paths.Name, header: nat): Entry {
    Entry(path, name, false, header, None, None)
  }

  function AddEntry(st: Walk, e: Entry): Walk
    requires e.isFile ==> e.payload.Some?
  {
    if e.isFile then
      st.(entries := st.entries + [e], fileCount := st.fileCount + 1,
          hunkCount := st.hunkCount + (if e.hunk.Some? then 1 else 0),
          warnings := st.warnings + HunkWarnings(e.path, e.hunk) + PayloadWarnings(e.path, e.payload.value))
    else
      st.(entries := st.entries + [e], directoryCount := st.directoryCount + 1)
  }

  // ------------------------------------------------ the walk as recursion

  ghost function WalkDirectory(image: seq<Byte>, dosType: Byte, dir: nat, parent: Paths.Name, depth: nat,
      st: Walk): Walk
    requires InImage(image, dir)
    decreases if depth > MAX_DEPTH then 0 else MAX_DEPTH + 1 - depth, 3, 0
  {
    var entered := st.(expanded := st.expanded + [dir]);
    if depth > MAX_DEPTH then Warn(entered, DepthLimit)
    else
      var size := BlockWord(image, dir, HASH_SIZE_WORD);
      if size == 0 || size > MAX_HASH_TABLE then Warn(entered, InvalidHashSize(size))
      else WalkSlots(image, dosType, dir, parent, depth, 0, size, entered)
  }

  ghost function WalkSlots(image: seq<Byte>, dosType: Byte, dir: nat, parent: Paths.Name, depth: nat,
                           i: nat, size: nat, st: Walk): Walk
    requires InImage(image, dir) && depth <= MAX_DEPTH && i <= size <= MAX_HASH_TABLE
    decreases MAX_DEPTH + 1 - depth, 2, size - i
  {
    if i == size then st
    else
      var first := BlockWord(image, dir, HASH_TABLE_WORD + i);
      WalkSlots(image, dosType, dir, parent, depth, i + 1, size, WalkChain(image, dosType, parent, depth, first, {}, st))
  }

  ghost function WalkChain(image: seq<Byte>, dosType: Byte, parent: Paths.Name, depth: nat,
                           current: nat, chainSeen: set<nat>, st: Walk): Walk
    requires depth <= MAX_DEPTH
    decreases MAX_DEPTH + 1 - depth, 1, |Unseen(image, chainSeen)|
  {
    if current == 0 then st
    else if current in chainSeen then Warn(st, HashChainLoop(current))
    else if !InImage(image, current) then Warn(st, EntryOutsideImage(current))
    else
      UnseenShrinks(image, chainSeen, current);
      var next := BlockWord(image, current, HASH_CHAIN_WORD);
      WalkChain(image, dosType, parent, depth, next, chainSeen + {current}, Visit(image, dosType, parent, depth, current, st))
  }

  /** What the walk does with one block of a hash chain. */
  ghost function Visit(image: seq<Byte>, dosType: Byte, parent: Paths.Name, depth: nat, current: nat, st: Walk): Walk
    requires depth <= MAX_DEPTH && InImage(image, current)
    decreases MAX_DEPTH + 1 - depth, 0, 0
  {
    if BlockWord(image, current, 0) != PRIMARY_HEADER then Warn(st, NotAHeader(current))
    else if BstrName(image, current).None? then Warn(st, InvalidName(current))
    else
      var name := BstrName(image, current).value;
      var path := Paths.JoinPath(parent, name);
      var typ := SecondaryType(image, current);
      if typ == SECONDARY_FILE then AddEntry(st, FileEntry(image, dosType, path, name, current))
      else if typ == SECONDARY_DIRECTORY then
        var listed := AddEntry(st, DirectoryEntry(path, name, current));
        if current in st.visited then Warn(listed, DirectoryLoop(current))
        else WalkDirectory(image, dosType, current, path, depth + 1, listed.(visited := st.visited + {current}))
      else Warn(st, UnsupportedType(current, typ))
  }

  // ------------------------------------------------ the walk itself

  class Traversal {
    var visited: set<nat>
    var fileCount: nat
    var directoryCount: nat
    var hunkCount: nat
    var entries: seq<Entry>
    var warnings: seq<Warning>
    ghost var expanded: seq<nat>

    ghost function View(): Walk
      reads this
    {
      Walk(visited, expanded, fileCount, directoryCount, hunkCount, entries, warnings)
    }

    constructor (root: nat)
      ensures View() == Walk({root}, [], 0, 0, 0, [], [])
    {
      visited, expanded, entries, warnings := {root}, [], [], [];
      fileCount, directoryCount, hunkCount := 0, 0, 0;
    }

    method AddWarning(w: Warning)
      modifies this
      ensures View() == Warn(old(View()), w)
    {
      warnings := warnings + [w];
    }

    /** `walkDirectory`. */
    method Expand(image: seq<Byte>, dosType: Byte, dir: nat, parent: Paths.Name, depth: nat)
      requires KnownSize(image) && InImage(image, dir)
      modifies this
      ensures View() == WalkDirectory(image, dosType, dir, parent, depth, old(View()))
      decreases if depth > MAX_DEPTH then 0 else MAX_DEPTH + 1 - depth, 3, 0
    {
      hide InImage, BlockWord, WalkChain;
      expanded := expanded + [dir];
      if depth > MAX_DEPTH {
        AddWarning(DepthLimit);
        return;
      }
      var size := BlockWord(image, dir, HASH_SIZE_WORD);
      if size == 0 || size > MAX_HASH_TABLE {
        AddWarning(InvalidHashSize(size));
        return;
      }
      ghost var entered := View();
      var i := 0;
      while i < size
        invariant 0 <= i <= size
        invariant WalkSlots(image, dosType, dir, parent, depth, i, size, View())
               == WalkSlots(image, dosType, dir, parent, depth, 0, size, entered)
      {
        FollowChain(image, dosType, parent, depth, BlockWord(image, dir, HASH_TABLE_WORD + i));
        i := i + 1;
      }
    }

    /** One hash chain: the inner loop of `walkDirectory`. */
    method FollowChain(image: seq<Byte>, dosType: Byte, parent: Paths.Name, depth: nat, first: nat)
      requires KnownSize(image) && depth <= MAX_DEPTH
      modifies this
      ensures View() == WalkChain(image, dosType, parent, depth, first, {}, old(View()))
      decreases MAX_DEPTH + 1 - depth, 2, 0
    {
      hide InImage, BlockWord, Visit, Unseen;
      var current: nat, chainSeen: set<nat> := first, {};
      while current != 0
        invariant WalkChain(image, dosType, parent, depth, current, chainSeen, View())
               == WalkChain(image, dosType, parent, depth, first, {}, old(View()))
        decreases |Unseen(image, chainSeen)|
      {
        if current in chainSeen {
          AddWarning(HashChainLoop(current));
          return;
        }
        if !InImage(image, current) {
          AddWarning(EntryOutsideImage(current));
          return;
        }
        UnseenShrinks(image, chainSeen, current);
        chainSeen := chainSeen + {current};
        var next := BlockWord(image, current, HASH_CHAIN_WORD);
        Inspect(image, dosType, parent, depth, current);
        current := next;
      }
    }

    /** One block of a chain: the header, name and type switch of `walkDirectory`. */
    method Inspect(image: seq<Byte>, dosType: Byte, parent: Paths.Name, depth: nat, current: nat)
      requires KnownSize(image) && depth <= MAX_DEPTH && InImage(image, current)
      modifies this
      ensures View() == Visit(image, dosType, parent, depth, current, old(View()))
      decreases MAX_DEPTH + 1 - depth, 1, 0
    {
      hide InImage, BlockWord, WalkDirectory, BstrName;
      if BlockWord(image, current, 0) != PRIMARY_HEADER {
        AddWarning(NotAHeader(current));
        return;
      }
      var named := BstrName(image, current);
      if named.None? {
        AddWarning(InvalidName(current));
        return;
      }
      var path := Paths.JoinPath(parent, named.value);
      var typ := SecondaryType(image, current);
      if typ == SECONDARY_FILE {
        ListFile(image, dosType, path, named.value, current);
      } else if typ == SECONDARY_DIRECTORY {
        entries := entries + [DirectoryEntry(path, named.value, current)];
        directoryCount := directoryCount + 1;
        if current in visited {
          AddWarning(DirectoryLoop(current));
        } else {
          visited := visited + {current};
          Expand(image, dosType, current, path, depth + 1);
        }
      } else {
        AddWarning(UnsupportedType(current, typ));
      }
    }

    method ListFile(image: seq<Byte>, dosType: Byte, path: Paths.Name, name: Paths.Name, header: nat)
      requires KnownSize(image)
      modifies this
      ensures View() == AddEntry(old(View()), FileEntry(image, dosType, path, name, header))
    {
      hide AdfPayload.PayloadSpec, HunkFile.AnalyzeSpec;
      var payload := AdfPayload.AnalyzeFilePayload(image, header, dosType);
      var entry := Entry(path, name, true, header, Some(payload), None);
      if payload.complete {
        var analysis := HunkFile.Analyze(payload.data);
        if analysis.recognized {
          entry := entry.(hunk := Some(analysis));
          hunkCount := hunkCount + 1;
          warnings := warnings + HunkWarnings(path, entry.hunk);
        }
      }
      entries := entries + [entry];
      fileCount := fileCount + 1;
      if payload.warning.Some? {
        warnings := warnings + [InFilePayload(path, payload.warning.value)];
      }
    }
  }

  // ------------------------------------------------ whole images

  /** "DOS" followed by a version of at most 7. */
  predicate RecognisedBoot(image: seq<Byte>)
    requires |image| >= 4
  {
    image[0] == 'D' as int && image[1] == 'O' as int && image[2] == 'S' as int && image[3] <= 7
  }

  function RootBlock(image: seq<Byte>): U32
    requires |image| >= 12
  {
    if Word(image, 2) == 0 then ExpectedRoot(image) else Word(image, 2)
  }

  predicate ValidRoot(image: seq<Byte>, root: nat) {
    && InImage(image, root)
    && BlockWord(image, root, 0) == PRIMARY_HEADER
    && SecondaryType(image, root) == SECONDARY_ROOT
  }

  ghost function AnalyzeSpec(image: seq<Byte>): Walk
    requires KnownSize(image)
  {
    var root := RootBlock(image);
    var start := Walk({root}, [], 0, 0, 0, [], []);
    if root >= BlockCount(image) then Warn(start, RootOutsideImage(root))
    else if !ValidRoot(image, root) then Warn(start, NotARootHeader(root))
    else WalkDirectory(image, image[3], root, [], 0, start)
  }

  /** `AnalyzeFilesystemBytes`; `ok` is false where the source returns an error. */
  method AnalyzeFilesystemBytes(image: seq<Byte>) returns (ok: bool, root: U32, rootValid: bool, t: Traversal)
    ensures ok <==> KnownSize(image) && RecognisedBoot(image)
    ensures ok ==> root == RootBlock(image) && rootValid == ValidRoot(image, root) && t.View() == AnalyzeSpec(image)
    ensures fresh(t)
  {
    hide WalkDirectory, Word;
    ok, root, rootValid := false, 0, false;
    if |image| != DD_SIZE && |image| != HD_SIZE {
      t := new Traversal(0);
      return;
    }
    ok := RecognisedBoot(image);
    root := Word(image, 2);
    if root == 0 {
      root := ExpectedRoot(image);
    }
    t := new Traversal(root);
    if !ok {
      return;
    }
    if root >= BlockCount(image) {
      t.AddWarning(RootOutsideImage(root));
      return;
    }
    InImageIsBelowCount(image, root);
    if BlockWord(image, root, 0) != PRIMARY_HEADER || SecondaryType(image, root) != SECONDARY_ROOT {
      t.AddWarning(NotARootHeader(root));
      return;
    }
    rootValid := true;
    t.Expand(image, image[3], root, [], 0);
  }
}
