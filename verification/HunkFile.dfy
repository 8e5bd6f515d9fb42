/**
 AmigaDOS hunk load files (internal/hunk/hunk.go).

 `Analyze` is the cursor-driven parser.  Its meaning is given twice: by `AnalyzeSpec`,
 which runs over the words of the file by recursion, and by the grammar of load files
 of `HunkGrammar`, which says what a writer emits.
 */
module HunkFile {
  import opened Common
  import opened Bytes

  const HUNK_UNIT := 999
  const HUNK_NAME := 1000
  const HUNK_CODE := 1001
  const HUNK_DATA := 1002
  const HUNK_BSS := 1003
  const HUNK_RELOC32 := 1004
  const HUNK_RELOC16 := 1005
  const HUNK_RELOC8 := 1006
  const HUNK_EXT := 1007
  const HUNK_SYMBOL := 1008
  const HUNK_DEBUG := 1009
  const HUNK_END := 1010
  const HUNK_HEADER := 1011
  const HUNK_OVERLAY := 1013
  const HUNK_BREAK := 1014

  // Masking with 0x3fffffff keeps the value modulo this bound.
  const TYPE_BOUND := 0x4000_0000

  function Masked(w: U32): (m: U32)
    ensures m < TYPE_BOUND
  {
    w % TYPE_BOUND
  }

  datatype SegmentKind = Code | Data | Bss

  datatype Segment = Segment(kind: SegmentKind, longwords: U32, bytes: nat)

  datatype Warning =
    | TruncatedLibraryNames
    | LibraryNameBeyondFile
    | TruncatedHeaderTable
    | InvalidHeaderRange
    | TruncatedSizeTable
    | TruncatedHunkLength
    | TruncatedBssLength
    | TruncatedTextLength(typ: U32)
    | PayloadBeyondFile(typ: U32)
    | TruncatedRelocationTable
    | TruncatedRelocationTarget
    | RelocationsBeyondFile
    | TruncatedSymbolTable
    | SymbolBeyondFile
    | UnsupportedHunk(typ: U32)
    | UnknownHunk(typ: U32)

  datatype Analysis = Analysis(
    recognized: bool,
    hunkCount: nat,
    firstHunk: U32,
    lastHunk: U32,
    codeBytes: nat,
    dataBytes: nat,
    bssBytes: nat,
    segments: seq<Segment>,
    warnings: seq<Warning>)

  const EMPTY := Analysis(false, 0, 0, 0, 0, 0, 0, [], [])

  function AddSegment(a: Analysis, kind: SegmentKind, longwords: U32): Analysis {
    var bytes := 4 * longwords;
    a.(segments := a.segments + [Segment(kind, longwords, bytes)],
       hunkCount := a.hunkCount + 1,
       codeBytes := if kind == Code then a.codeBytes + bytes else a.codeBytes,
       dataBytes := if kind == Data then a.dataBytes + bytes else a.dataBytes,
       bssBytes := if kind == Bss then a.bssBytes + bytes else a.bssBytes)
  }

  function Warn(a: Analysis, w: Warning): Analysis {
    a.(warnings := a.warnings + [w])
  }

  // ------------------------------------------------ the parser as recursion over the words

  datatype Outcome = Stop(why: Warning) | Go(next: nat)

  function SkipNames(ws: seq<U32>, pos: nat): (o: Outcome)
    ensures o.Go? ==> pos < o.next <= |ws|
    decreases |ws| - pos
  {
    if pos >= |ws| then Stop(TruncatedLibraryNames)
    else if ws[pos] == 0 then Go(pos + 1)
    else if pos + 1 + ws[pos] > |ws| then Stop(LibraryNameBeyondFile)
    else SkipNames(ws, pos + 1 + ws[pos])
  }

  function SkipRelocations(ws: seq<U32>, pos: nat): (o: Outcome)
    ensures o.Go? ==> pos < o.next <= |ws|
    decreases |ws| - pos
  {
    if pos >= |ws| then Stop(TruncatedRelocationTable)
    else if ws[pos] == 0 then Go(pos + 1)
    else if pos + 1 >= |ws| then Stop(TruncatedRelocationTarget)
    else if pos + 2 + ws[pos] > |ws| then Stop(RelocationsBeyondFile)
    else SkipRelocations(ws, pos + 2 + ws[pos])
  }

  function SkipSymbols(ws: seq<U32>, pos: nat): (o: Outcome)
    ensures o.Go? ==> pos < o.next <= |ws|
    decreases |ws| - pos
  {
    if pos >= |ws| then Stop(TruncatedSymbolTable)
    else if ws[pos] == 0 then Go(pos + 1)
    else if pos + 1 + ws[pos] >= |ws| then Stop(SymbolBeyondFile)
    else SkipSymbols(ws, pos + 2 + ws[pos])
  }

  /** Result of one record: where the next one starts, or the analysis the parser returns. */
  datatype RecordOutcome = Next(next: nat, a: Analysis) | Return(a: Analysis)

  function After(o: Outcome, a: Analysis): RecordOutcome {
    match o
    case Stop(why) => Return(Warn(a, why))
    case Go(next) => Next(next, a)
  }

  function Record(ws: seq<U32>, pos: nat, a: Analysis): (o: RecordOutcome)
    requires pos < |ws|
    ensures o.Next? ==> pos < o.next <= |ws| && o.a.warnings == a.warnings
    ensures o.Return? ==> exists w :: o.a == Warn(a, w)
  {
    var typ := Masked(ws[pos]);
    if typ == HUNK_CODE || typ == HUNK_DATA then
      if pos + 1 >= |ws| then Return(Warn(a, TruncatedHunkLength))
      else
        var n := Masked(ws[pos + 1]);
        if pos + 2 + n > |ws| then Return(Warn(a, PayloadBeyondFile(typ)))
        else Next(pos + 2 + n, AddSegment(a, if typ == HUNK_CODE then Code else Data, n))
    else if typ == HUNK_BSS then
      if pos + 1 >= |ws| then Return(Warn(a, TruncatedBssLength))
      else Next(pos + 2, AddSegment(a, Bss, Masked(ws[pos + 1])))
    else if typ == HUNK_END then Next(pos + 1, a)
    else if typ == HUNK_NAME || typ == HUNK_DEBUG then
      if pos + 1 >= |ws| then Return(Warn(a, TruncatedTextLength(typ)))
      else if pos + 2 + ws[pos + 1] > |ws| then Return(Warn(a, PayloadBeyondFile(typ)))
      else Next(pos + 2 + ws[pos + 1], a)
    else if typ == HUNK_RELOC32 || typ == HUNK_RELOC16 || typ == HUNK_RELOC8 then
      After(SkipRelocations(ws, pos + 1), a)
    else if typ == HUNK_SYMBOL then
      After(SkipSymbols(ws, pos + 1), a)
    else if typ == HUNK_UNIT || typ == HUNK_EXT || typ == HUNK_OVERLAY || typ == HUNK_BREAK then
      Return(Warn(a, UnsupportedHunk(typ)))
    else Return(Warn(a, UnknownHunk(typ)))
  }

  function Body(ws: seq<U32>, pos: nat, a: Analysis): Analysis
    requires pos <= |ws|
    decreases |ws| - pos
  {
    if pos >= |ws| then a
    else
      match Record(ws, pos, a)
      case Return(b) => b
      case Next(next, b) => Body(ws, next, b)
  }

  function HeaderTable(ws: seq<U32>, pos: nat, a: Analysis): (o: RecordOutcome)
    ensures o.Next? ==> o.next <= |ws|
  {
    if pos + 3 > |ws| then Return(Warn(a, TruncatedHeaderTable))
    else
      var size, first, last := ws[pos], ws[pos + 1], ws[pos + 2];
      var b := a.(firstHunk := first, lastHunk := last);
      if size == 0 || last < first || last as int - first as int + 1 > size then Return(Warn(b, InvalidHeaderRange))
      else if pos + 3 + size > |ws| then Return(Warn(b, TruncatedSizeTable))
      else Next(pos + 3 + size, b)
  }

  function AnalyzeWords(ws: seq<U32>): Analysis {
    if ws == [] || ws[0] != HUNK_HEADER then EMPTY
    else
      match After(SkipNames(ws, 1), EMPTY.(recognized := true))
      case Return(b) => b
      case Next(pos, b) =>
        match HeaderTable(ws, pos, b)
        case Return(c) => c
        case Next(start, c) => Body(ws, start, c)
  }

  function AnalyzeSpec(data: seq<Byte>): Analysis {
    AnalyzeWords(Words(data))
  }

  // ------------------------------------------------ the parser itself

  /** `word`: reads one word at an index the caller has checked. */
  method WordAt(data: seq<Byte>, index: nat) returns (w: U32)
    requires index < |data| / 4
    ensures w == Words(data)[index]
  {
    w := Word(data, index);
  }

  /** `advance`: moves the cursor over `count` words, or leaves it and reports failure. */
  method Advance(pos: nat, count: U32, data: seq<Byte>) returns (ok: bool, next: nat)
    ensures ok == (pos + count <= |data| / 4)
    ensures next == if ok then pos + count else pos
  {
    var end := pos + count;
    if end > |data| / 4 {
      return false, pos;
    }
    return true, end;
  }

  method Analyze(data: seq<Byte>) returns (result: Analysis)
    ensures result == AnalyzeSpec(data)
  {
    result := EMPTY;
    if |data| < 4 {
      return;
    }
    var magic := WordAt(data, 0);
    if magic != HUNK_HEADER {
      return;
    }
    result := result.(recognized := true);

    var pos, w := ReadLibraryNames(data);
    if w.Some? {
      result := Warn(result, w.value);
      return;
    }

    var more;
    pos, result, more := ReadHeaderTable(data, pos, result);
    if more {
      result := ReadBody(data, pos, result);
    }
  }

  /** The table size, the hunk range and the size table; `more` is false where the source returns. */
  method ReadHeaderTable(data: seq<Byte>, start: nat, before: Analysis) returns (pos: nat, result: Analysis, more: bool)
    ensures HeaderTable(Words(data), start, before) == if more then Next(pos, result) else Return(result)
  {
    pos, result, more := start, before, false;
    if pos + 3 > |data| / 4 {
      result := Warn(result, TruncatedHeaderTable);
      return;
    }
    var tableSize := WordAt(data, pos);
    var first := WordAt(data, pos + 1);
    var last := WordAt(data, pos + 2);
    result := result.(firstHunk := first, lastHunk := last);
    pos := pos + 3;
    if tableSize == 0 || last < first || last as int - first as int + 1 > tableSize {
      result := Warn(result, InvalidHeaderRange);
      return;
    }
    if pos + tableSize > |data| / 4 {
      result := Warn(result, TruncatedSizeTable);
      return;
    }
    pos := pos + tableSize;
    more := true;
  }

  /** The record loop, from the word after the size table to the end of the file. */
  method ReadBody(data: seq<Byte>, start: nat, before: Analysis) returns (result: Analysis)
    requires start <= |data| / 4
    ensures result == Body(Words(data), start, before)
  {
    var pos := start;
    result := before;
    while pos < |data| / 4
      invariant start <= pos <= |data| / 4
      invariant Body(Words(data), pos, result) == Body(Words(data), start, before)
    {
      var more;
      pos, result, more := ReadRecord(data, pos, result);
      if !more {
        return;
      }
    }
  }

  /** The resident-library names: word 1 onwards, until a zero length. */
  method ReadLibraryNames(data: seq<Byte>) returns (pos: nat, w: Option<Warning>)
    requires |data| >= 4
    ensures SkipNames(Words(data), 1) == if w.Some? then Stop(w.value) else Go(pos)
  {
    pos := 1;
    while true
      invariant 1 <= pos <= |data| / 4
      invariant SkipNames(Words(data), pos) == SkipNames(Words(data), 1)
      decreases |data| / 4 - pos
    {
      if pos >= |data| / 4 {
        return pos, Some(TruncatedLibraryNames);
      }
      var nameWords := WordAt(data, pos);
      pos := pos + 1;
      if nameWords == 0 {
        return pos, None;
      }
      var ok;
      ok, pos := Advance(pos, nameWords, data);
      if !ok {
        return pos, Some(LibraryNameBeyondFile);
      }
    }
  }

  /** One iteration of the record loop; `more` is false where the source returns from `Analyze`. */
  method ReadRecord(data: seq<Byte>, start: nat, before: Analysis) returns (pos: nat, result: Analysis, more: bool)
    requires start < |data| / 4
    ensures Record(Words(data), start, before) == if more then Next(pos, result) else Return(result)
  {
    pos, result, more := start, before, false;
    var n := |data| / 4;
    var raw := WordAt(data, pos);
    pos := pos + 1;
    var typ := Masked(raw);
    var ok, w;
    if typ == HUNK_CODE || typ == HUNK_DATA {
      if pos >= n {
        result := Warn(result, TruncatedHunkLength);
        return;
      }
      raw := WordAt(data, pos);
      var longwords := Masked(raw);
      pos := pos + 1;
      ok, pos := Advance(pos, longwords, data);
      if !ok {
        result := Warn(result, PayloadBeyondFile(typ));
        return;
      }
      result := AddSegment(result, if typ == HUNK_CODE then Code else Data, longwords);
    } else if typ == HUNK_BSS {
      if pos >= n {
        result := Warn(result, TruncatedBssLength);
        return;
      }
      raw := WordAt(data, pos);
      pos := pos + 1;
      result := AddSegment(result, Bss, Masked(raw));
    } else if typ == HUNK_END {
      // Segment terminator; no payload.
    } else if typ == HUNK_NAME || typ == HUNK_DEBUG {
      if pos >= n {
        result := Warn(result, TruncatedTextLength(typ));
        return;
      }
      var count := WordAt(data, pos);
      pos := pos + 1;
      ok, pos := Advance(pos, count, data);
      if !ok {
        result := Warn(result, PayloadBeyondFile(typ));
        return;
      }
    } else if typ == HUNK_RELOC32 || typ == HUNK_RELOC16 || typ == HUNK_RELOC8 {
      pos, w := ReadRelocations(data, pos);
      if w.Some? {
        result := Warn(result, w.value);
        return;
      }
    } else if typ == HUNK_SYMBOL {
      pos, w := ReadSymbols(data, pos);
      if w.Some? {
        result := Warn(result, w.value);
        return;
      }
    } else if typ == HUNK_UNIT || typ == HUNK_EXT || typ == HUNK_OVERLAY || typ == HUNK_BREAK {
      result := Warn(result, UnsupportedHunk(typ));
      return;
    } else {
      result := Warn(result, UnknownHunk(typ));
      return;
    }
    more := true;
  }

  /** The relocation-table loop: groups of offsets until a zero count. */
  method ReadRelocations(data: seq<Byte>, start: nat) returns (pos: nat, w: Option<Warning>)
    requires start <= |data| / 4
    ensures SkipRelocations(Words(data), start) == if w.Some? then Stop(w.value) else Go(pos)
  {
    pos := start;
    while true
      invariant start <= pos <= |data| / 4
      invariant SkipRelocations(Words(data), pos) == SkipRelocations(Words(data), start)
      decreases |data| / 4 - pos
    {
      if pos >= |data| / 4 {
        return pos, Some(TruncatedRelocationTable);
      }
      var count := WordAt(data, pos);
      pos := pos + 1;
      if count == 0 {
        return pos, None;
      }
      if pos >= |data| / 4 {
        return pos, Some(TruncatedRelocationTarget);
      }
      pos := pos + 1; // target hunk number
      var ok;
      ok, pos := Advance(pos, count, data);
      if !ok {
        return pos, Some(RelocationsBeyondFile);
      }
    }
  }

  /** The symbol-table loop: named values until a zero name length. */
  method ReadSymbols(data: seq<Byte>, start: nat) returns (pos: nat, w: Option<Warning>)
    requires start <= |data| / 4
    ensures SkipSymbols(Words(data), start) == if w.Some? then Stop(w.value) else Go(pos)
  {
    pos := start;
    while true
      invariant start <= pos <= |data| / 4
      invariant SkipSymbols(Words(data), pos) == SkipSymbols(Words(data), start)
      decreases |data| / 4 - pos
    {
      if pos >= |data| / 4 {
        return pos, Some(TruncatedSymbolTable);
      }
      var nameWords := WordAt(data, pos);
      pos := pos + 1;
      if nameWords == 0 {
        return pos, None;
      }
      var ok;
      ok, pos := Advance(pos, nameWords, data);
      if !ok || pos >= |data| / 4 {
        return pos, Some(SymbolBeyondFile);
      }
      pos := pos + 1; // symbol value
    }
  }
}
