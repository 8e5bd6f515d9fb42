/**
 The grammar of load files: what a linker writes.  `HunkFile.Analyze` inverts it, and accepts
 without warning exactly the files it generates.
 */
module HunkGrammar {
  import opened Bytes
  import opened HunkFile

  const COUNT_BOUND := 0x1_0000_0000

  // A non-empty run of words whose length fits in a count word.
  type Run = s: seq<U32> | 0 < |s| < COUNT_BOUND witness [0]

  datatype RelocGroup = RelocGroup(target: U32, offsets: Run)

  datatype Symbol = Symbol(name: Run, value: U32)

  // `flags` are the top two bits of a type word, `memory` those of a length word.
  datatype Item =
    | Loaded(isCode: bool, flags: nat, memory: nat, payload: seq<U32>)
    | Reserved(flags: nat, memory: nat, longwords: nat)
    | Text(isName: bool, flags: nat, payload: seq<U32>)
    | Relocations(typ: nat, flags: nat, groups: seq<RelocGroup>)
    | Symbols(flags: nat, symbols: seq<Symbol>)
    | End(flags: nat)

  datatype Header = Header(libraries: seq<Run>, first: U32, last: U32, sizes: Run)

  predicate WellFormed(r: Item) {
    && r.flags < 4
    && match r
       case Loaded(_, _, memory, payload) => memory < 4 && |payload| < 0x4000_0000
       case Reserved(_, memory, longwords) => memory < 4 && longwords < 0x4000_0000
       case Text(_, _, payload) => |payload| < COUNT_BOUND
       case Relocations(typ, _, groups) =>
         typ == 1004 || typ == 1005 || typ == 1006
       case Symbols(_, _) => true
       case End(_) => true
  }

  predicate WellFormedHeader(h: Header) {
    && h.first <= h.last
    && h.last as int - h.first as int + 1 <= |h.sizes|
  }

  // ------------------------------------------------ writing

  function Flagged(low: nat, flags: nat): (w: U32)
    requires low < 0x4000_0000 && flags < 4
    ensures Masked(w) == low
  {
    flags * 0x4000_0000 + low
  }

  function EmitLibrary(l: Run): seq<U32> {
    [|l|] + l
  }

  function EmitGroup(g: RelocGroup): seq<U32> {
    [|g.offsets|, g.target] + g.offsets
  }

  function EmitSymbol(s: Symbol): seq<U32> {
    [|s.name|] + s.name + [s.value]
  }

  function EmitLibraries(ls: seq<Run>): seq<U32> {
    if ls == [] then [0] else EmitLibrary(ls[0]) + EmitLibraries(ls[1..])
  }

  function EmitGroups(gs: seq<RelocGroup>): seq<U32> {
    if gs == [] then [0] else EmitGroup(gs[0]) + EmitGroups(gs[1..])
  }

  function EmitSymbols(ss: seq<Symbol>): seq<U32> {
    if ss == [] then [0] else EmitSymbol(ss[0]) + EmitSymbols(ss[1..])
  }

  function Emit(r: Item): (e: seq<U32>)
    requires WellFormed(r)
    ensures |e| >= 1
  {
    match r
    case Loaded(isCode, flags, memory, payload) =>
      [Flagged(if isCode then 1001 else 1002, flags), Flagged(|payload|, memory)] + payload
    case Reserved(flags, memory, longwords) => [Flagged(1003, flags), Flagged(longwords, memory)]
    case Text(isName, flags, payload) => [Flagged(if isName then 1000 else 1009, flags), |payload|] + payload
    case Relocations(typ, flags, groups) => [Flagged(typ, flags)] + EmitGroups(groups)
    case Symbols(flags, symbols) => [Flagged(1008, flags)] + EmitSymbols(symbols)
    case End(flags) => [Flagged(1010, flags)]
  }

  ghost predicate AllWellFormed(rs: seq<Item>) {
    forall r :: r in rs ==> WellFormed(r)
  }

  ghost function EmitAll(rs: seq<Item>): seq<U32>
    requires AllWellFormed(rs)
  {
    if rs == [] then [] else Emit(rs[0]) + EmitAll(rs[1..])
  }

  ghost function Serialize(h: Header, rs: seq<Item>): seq<U32>
    requires WellFormedHeader(h) && AllWellFormed(rs)
  {
    [1011] + EmitLibraries(h.libraries) + [|h.sizes|, h.first, h.last] + h.sizes + EmitAll(rs)
  }

  // ------------------------------------------------ what a file of these items contains

  function SegmentOf(r: Item): seq<Segment>
    requires WellFormed(r)
  {
    match r
    case Loaded(isCode, _, _, payload) => [Segment(if isCode then Code else Data, |payload|, 4 * |payload|)]
    case Reserved(_, _, longwords) => [Segment(Bss, longwords, 4 * longwords)]
    case _ => []
  }

  ghost function SegmentsOf(rs: seq<Item>): seq<Segment>
    requires AllWellFormed(rs)
  {
    if rs == [] then [] else SegmentOf(rs[0]) + SegmentsOf(rs[1..])
  }

  function TotalBytes(segments: seq<Segment>, kind: SegmentKind): nat {
    if segments == [] then 0
    else (if segments[0].kind == kind then segments[0].bytes else 0) + TotalBytes(segments[1..], kind)
  }

  ghost function Expected(h: Header, rs: seq<Item>): Analysis
    requires AllWellFormed(rs)
  {
    var segments := SegmentsOf(rs);
    Analysis(true, |segments|, h.first, h.last,
             TotalBytes(segments, Code), TotalBytes(segments, Data), TotalBytes(segments, Bss), segments, [])
  }

  /** Every total of the analysis is the sum over its segments. */
  predicate Consistent(a: Analysis) {
    && a.hunkCount == |a.segments|
    && a.codeBytes == TotalBytes(a.segments, Code)
    && a.dataBytes == TotalBytes(a.segments, Data)
    && a.bssBytes == TotalBytes(a.segments, Bss)
  }

  lemma {:induction false} TotalBytesSnoc(segments: seq<Segment>, s: Segment, kind: SegmentKind)
    ensures TotalBytes(segments + [s], kind) == TotalBytes(segments, kind) + if s.kind == kind then s.bytes else 0
  {
    if segments == [] {
      assert segments + [s] == [s];
    } else {
      assert (segments + [s])[1..] == segments[1..] + [s];
      TotalBytesSnoc(segments[1..], s, kind);
    }
  }

  lemma {:induction false} AddSegmentConsistent(a: Analysis, kind: SegmentKind, n: U32)
    requires Consistent(a)
    ensures Consistent(AddSegment(a, kind, n))
  {
    var s := Segment(kind, n, 4 * n);
    TotalBytesSnoc(a.segments, s, Code);
    TotalBytesSnoc(a.segments, s, Data);
    TotalBytesSnoc(a.segments, s, Bss);
  }

  // ------------------------------------------------ windows of the word list

  predicate At(ws: seq<U32>, pos: nat, e: seq<U32>) {
    pos + |e| <= |ws| && ws[pos..pos + |e|] == e
  }

  lemma {:induction false} AtSplit(ws: seq<U32>, pos: nat, x: seq<U32>, y: seq<U32>)
    ensures At(ws, pos, x + y) <==> At(ws, pos, x) && At(ws, pos + |x|, y)
  {
    if pos + |x + y| <= |ws| {
      assert ws[pos..pos + |x + y|] == ws[pos..pos + |x|] + ws[pos + |x|..pos + |x| + |y|];
      if At(ws, pos, x + y) {
        assert ws[pos..pos + |x|] == (x + y)[..|x|] == x;
        assert ws[pos + |x|..pos + |x| + |y|] == (x + y)[|x|..] == y;
      }
    }
  }

  lemma {:induction false} AtOne(ws: seq<U32>, pos: nat, w: U32)
    ensures At(ws, pos, [w]) <==> pos < |ws| && ws[pos] == w
  {
    if pos < |ws| { assert ws[pos..pos + 1] == [ws[pos]]; }
  }

  lemma {:induction false} AtLibrary(ws: seq<U32>, pos: nat, l: Run)
    ensures At(ws, pos, EmitLibrary(l)) <==> pos < |ws| && ws[pos] == |l| && At(ws, pos + 1, l)
  {
    AtSplit(ws, pos, [|l|], l);
    AtOne(ws, pos, |l|);
  }

  lemma {:induction false} AtGroup(ws: seq<U32>, pos: nat, g: RelocGroup)
    ensures At(ws, pos, EmitGroup(g)) <==>
            pos + 1 < |ws| && ws[pos] == |g.offsets| && ws[pos + 1] == g.target && At(ws, pos + 2, g.offsets)
  {
    AtSplit(ws, pos, [|g.offsets|, g.target], g.offsets);
    AtSplit(ws, pos, [|g.offsets|], [g.target]);
    assert [|g.offsets|] + [g.target] == [|g.offsets|, g.target];
    AtOne(ws, pos, |g.offsets|);
    AtOne(ws, pos + 1, g.target);
  }

  lemma {:induction false} AtSymbol(ws: seq<U32>, pos: nat, s: Symbol)
    ensures At(ws, pos, EmitSymbol(s)) <==>
            && pos + 1 + |s.name| < |ws|
            && ws[pos] == |s.name| && At(ws, pos + 1, s.name) && ws[pos + 1 + |s.name|] == s.value
  {
    AtSplit(ws, pos, [|s.name|] + s.name, [s.value]);
    AtSplit(ws, pos, [|s.name|], s.name);
    AtOne(ws, pos, |s.name|);
    AtOne(ws, pos + 1 + |s.name|, s.value);
  }

  lemma {:induction false} ReadLibraries(ws: seq<U32>, pos: nat, ls: seq<Run>)
    requires At(ws, pos, EmitLibraries(ls))
    ensures SkipNames(ws, pos) == Go(pos + |EmitLibraries(ls)|)
    decreases |ls|
  {
    if ls == [] {
      AtOne(ws, pos, 0);
    } else {
      AtSplit(ws, pos, EmitLibrary(ls[0]), EmitLibraries(ls[1..]));
      AtLibrary(ws, pos, ls[0]);
      ReadLibraries(ws, pos + 1 + |ls[0]|, ls[1..]);
    }
  }

  lemma {:induction false} LibrariesRead(ws: seq<U32>, pos: nat) returns (ls: seq<Run>)
    requires SkipNames(ws, pos).Go?
    ensures At(ws, pos, EmitLibraries(ls)) && SkipNames(ws, pos).next == pos + |EmitLibraries(ls)|
    decreases |ws| - pos
  {
    if ws[pos] == 0 {
      ls := [];
      AtOne(ws, pos, 0);
    } else {
      var n: nat := ws[pos];
      var l: Run := ws[pos + 1..pos + 1 + n];
      var rest := LibrariesRead(ws, pos + 1 + n);
      ls := [l] + rest;
      AtLibrary(ws, pos, l);
      AtSplit(ws, pos, EmitLibrary(l), EmitLibraries(rest));
    }
  }

  lemma {:induction false} ReadGroups(ws: seq<U32>, pos: nat, gs: seq<RelocGroup>)
    requires At(ws, pos, EmitGroups(gs))
    ensures SkipRelocations(ws, pos) == Go(pos + |EmitGroups(gs)|)
    decreases |gs|
  {
    if gs == [] {
      AtOne(ws, pos, 0);
    } else {
      AtSplit(ws, pos, EmitGroup(gs[0]), EmitGroups(gs[1..]));
      AtGroup(ws, pos, gs[0]);
      ReadGroups(ws, pos + 2 + |gs[0].offsets|, gs[1..]);
    }
  }

  lemma {:induction false} GroupsRead(ws: seq<U32>, pos: nat) returns (gs: seq<RelocGroup>)
    requires SkipRelocations(ws, pos).Go?
    ensures At(ws, pos, EmitGroups(gs)) && SkipRelocations(ws, pos).next == pos + |EmitGroups(gs)|
    decreases |ws| - pos
  {
    if ws[pos] == 0 {
      gs := [];
      AtOne(ws, pos, 0);
    } else {
      var n: nat := ws[pos];
      var g := RelocGroup(ws[pos + 1], ws[pos + 2..pos + 2 + n]);
      AtGroup(ws, pos, g);
      hide At, EmitGroup;
      var rest := GroupsRead(ws, pos + 2 + n);
      gs := [g] + rest;
      AtSplit(ws, pos, EmitGroup(g), EmitGroups(rest));
    }
  }

  lemma {:induction false} ReadSymbolTable(ws: seq<U32>, pos: nat, ss: seq<Symbol>)
    requires At(ws, pos, EmitSymbols(ss))
    ensures SkipSymbols(ws, pos) == Go(pos + |EmitSymbols(ss)|)
    decreases |ss|
  {
    if ss == [] {
      AtOne(ws, pos, 0);
    } else {
      AtSplit(ws, pos, EmitSymbol(ss[0]), EmitSymbols(ss[1..]));
      AtSymbol(ws, pos, ss[0]);
      ReadSymbolTable(ws, pos + 2 + |ss[0].name|, ss[1..]);
    }
  }

  lemma {:induction false} SymbolTableRead(ws: seq<U32>, pos: nat) returns (ss: seq<Symbol>)
    requires SkipSymbols(ws, pos).Go?
    ensures At(ws, pos, EmitSymbols(ss)) && SkipSymbols(ws, pos).next == pos + |EmitSymbols(ss)|
    decreases |ws| - pos
  {
    if ws[pos] == 0 {
      ss := [];
      AtOne(ws, pos, 0);
    } else {
      var n: nat := ws[pos];
      var s := Symbol(ws[pos + 1..pos + 1 + n], ws[pos + 1 + n]);
      var rest := SymbolTableRead(ws, pos + 2 + n);
      ss := [s] + rest;
      AtSymbol(ws, pos, s);
      AtSplit(ws, pos, EmitSymbol(s), EmitSymbols(rest));
    }
  }

  /** A type word is its low 30 bits with some flag bits on top. */
  lemma {:induction false} Unflag(w: U32) returns (flags: nat)
    ensures flags < 4 && Flagged(Masked(w), flags) == w
  {
    flags := w / TYPE_BOUND;
  }

  lemma {:induction false} ReadItem(ws: seq<U32>, pos: nat, r: Item, a: Analysis)
    requires WellFormed(r) && At(ws, pos, Emit(r))
    ensures Record(ws, pos, a) == Next(pos + |Emit(r)|, Extended(a, SegmentOf(r)))
  {
    hide At, AddSegment, EmitGroups, EmitSymbols, SkipRelocations, SkipSymbols;
    match r
    case Loaded(isCode, flags, memory, payload) =>
      AtPair(ws, pos, Flagged(if isCode then HUNK_CODE else HUNK_DATA, flags), Flagged(|payload|, memory), payload);
    case Reserved(flags, memory, longwords) =>
      AtPair(ws, pos, Flagged(HUNK_BSS, flags), Flagged(longwords, memory), []);
      assert Emit(r) == Emit(r) + [];
    case Text(isName, flags, payload) =>
      AtPair(ws, pos, Flagged(if isName then HUNK_NAME else HUNK_DEBUG, flags), |payload|, payload);
    case Relocations(typ, flags, groups) =>
      AtSplit(ws, pos, [Flagged(typ, flags)], EmitGroups(groups));
      AtOne(ws, pos, Flagged(typ, flags));
      ReadGroups(ws, pos + 1, groups);
    case Symbols(flags, symbols) =>
      AtSplit(ws, pos, [Flagged(HUNK_SYMBOL, flags)], EmitSymbols(symbols));
      AtOne(ws, pos, Flagged(HUNK_SYMBOL, flags));
      ReadSymbolTable(ws, pos + 1, symbols);
    case End(flags) =>
      AtOne(ws, pos, Flagged(HUNK_END, flags));
  }

  lemma {:induction false} AtPair(ws: seq<U32>, pos: nat, x: U32, y: U32, z: seq<U32>)
    ensures At(ws, pos, [x, y] + z) <==> pos + 1 < |ws| && ws[pos] == x && ws[pos + 1] == y && At(ws, pos + 2, z)
    ensures At(ws, pos, [x, y] + z) ==> pos + 2 + |z| <= |ws|
  {
    AtSplit(ws, pos, [x, y], z);
    AtSplit(ws, pos, [x], [y]);
    assert [x] + [y] == [x, y];
    AtOne(ws, pos, x);
    AtOne(ws, pos + 1, y);
  }

  /** `AddSegment` for the at most one segment an item carries. */
  function Extended(a: Analysis, segments: seq<Segment>): Analysis
    requires |segments| <= 1
  {
    if segments == [] then a else AddSegment(a, segments[0].kind, segments[0].longwords)
  }

  lemma {:induction false} SegmentRead(ws: seq<U32>, pos: nat, a: Analysis) returns (r: Item)
    requires pos < |ws| && Record(ws, pos, a).Next?
    requires Masked(ws[pos]) in {HUNK_CODE, HUNK_DATA, HUNK_BSS}
    ensures WellFormed(r) && At(ws, pos, Emit(r))
    ensures Record(ws, pos, a) == Next(pos + |Emit(r)|, Extended(a, SegmentOf(r)))
  {
    var typ := Masked(ws[pos]);
    var flags := Unflag(ws[pos]);
    var memory := Unflag(ws[pos + 1]);
    var n := Masked(ws[pos + 1]);
    if typ == HUNK_BSS {
      r := Reserved(flags, memory, n);
      AtPair(ws, pos, ws[pos], ws[pos + 1], []);
      assert Emit(r) == Emit(r) + [];
    } else {
      r := Loaded(typ == HUNK_CODE, flags, memory, ws[pos + 2..pos + 2 + n]);
      AtPair(ws, pos, ws[pos], ws[pos + 1], r.payload);
    }
  }

  lemma {:induction false} PlainRead(ws: seq<U32>, pos: nat, a: Analysis) returns (r: Item)
    requires pos < |ws| && Record(ws, pos, a).Next?
    requires Masked(ws[pos]) in {HUNK_END, HUNK_NAME, HUNK_DEBUG}
    ensures WellFormed(r) && At(ws, pos, Emit(r)) && SegmentOf(r) == []
    ensures Record(ws, pos, a) == Next(pos + |Emit(r)|, a)
  {
    var typ := Masked(ws[pos]);
    var flags := Unflag(ws[pos]);
    if typ == HUNK_END {
      r := End(flags);
      AtOne(ws, pos, ws[pos]);
    } else {
      r := Text(typ == HUNK_NAME, flags, ws[pos + 2..pos + 2 + ws[pos + 1]]);
      AtPair(ws, pos, ws[pos], ws[pos + 1], r.payload);
    }
  }

  lemma {:induction false} TableRead(ws: seq<U32>, pos: nat, a: Analysis) returns (r: Item)
    requires pos < |ws| && Record(ws, pos, a).Next?
    requires Masked(ws[pos]) !in {HUNK_END, HUNK_NAME, HUNK_DEBUG, HUNK_CODE, HUNK_DATA, HUNK_BSS}
    ensures WellFormed(r) && At(ws, pos, Emit(r)) && SegmentOf(r) == []
    ensures Record(ws, pos, a) == Next(pos + |Emit(r)|, a)
  {
    var typ := Masked(ws[pos]);
    var flags := Unflag(ws[pos]);
    AtOne(ws, pos, ws[pos]);
    if typ == HUNK_SYMBOL {
      var symbols := SymbolTableRead(ws, pos + 1);
      r := Symbols(flags, symbols);
      AtSplit(ws, pos, [ws[pos]], EmitSymbols(symbols));
    } else {
      var groups := GroupsRead(ws, pos + 1);
      r := Relocations(typ, flags, groups);
      AtSplit(ws, pos, [ws[pos]], EmitGroups(groups));
    }
  }

  lemma {:induction false} ItemRead(ws: seq<U32>, pos: nat, a: Analysis) returns (r: Item)
    requires pos < |ws| && Record(ws, pos, a).Next?
    ensures WellFormed(r) && At(ws, pos, Emit(r))
    ensures Record(ws, pos, a) == Next(pos + |Emit(r)|, Extended(a, SegmentOf(r)))
  {
    hide Record, Emit, At, AddSegment;
    var typ := Masked(ws[pos]);
    if typ in {HUNK_CODE, HUNK_DATA, HUNK_BSS} {
      r := SegmentRead(ws, pos, a);
    } else if typ in {HUNK_END, HUNK_NAME, HUNK_DEBUG} {
      r := PlainRead(ws, pos, a);
    } else {
      r := TableRead(ws, pos, a);
    }
  }

  // ------------------------------------------------ whole files

  /** The analysis grows only by whole segments, and its totals keep up. */
  ghost predicate Grown(a: Analysis, b: Analysis, segments: seq<Segment>) {
    && b.segments == a.segments + segments
    && b.(segments := [], hunkCount := 0, codeBytes := 0, dataBytes := 0, bssBytes := 0)
       == a.(segments := [], hunkCount := 0, codeBytes := 0, dataBytes := 0, bssBytes := 0)
    && (Consistent(a) ==> Consistent(b))
  }

  lemma {:induction false} ExtendedGrown(a: Analysis, r: Item)
    requires WellFormed(r)
    ensures Grown(a, Extended(a, SegmentOf(r)), SegmentOf(r))
  {
    if SegmentOf(r) != [] && Consistent(a) {
      AddSegmentConsistent(a, SegmentOf(r)[0].kind, SegmentOf(r)[0].longwords);
    }
  }

  lemma {:induction false} ReadItems(ws: seq<U32>, pos: nat, rs: seq<Item>, a: Analysis) returns (b: Analysis)
    requires AllWellFormed(rs) && At(ws, pos, EmitAll(rs))
    ensures Body(ws, pos, a) == Body(ws, pos + |EmitAll(rs)|, b)
    ensures Grown(a, b, SegmentsOf(rs))
    decreases |rs|
  {
    hide Record, Emit, At, Consistent, AddSegment, Extended;
    if rs == [] {
      b := a;
    } else {
      var r := rs[0];
      assert r in rs;
      AtSplit(ws, pos, Emit(r), EmitAll(rs[1..]));
      ReadItem(ws, pos, r, a);
      ExtendedGrown(a, r);
      b := ReadItems(ws, pos + |Emit(r)|, rs[1..], Extended(a, SegmentOf(r)));
    }
  }

  lemma {:induction false} ItemsRead(ws: seq<U32>, pos: nat, a: Analysis) returns (rs: seq<Item>)
    requires pos <= |ws| && Body(ws, pos, a).warnings == a.warnings
    ensures AllWellFormed(rs) && ws[pos..] == EmitAll(rs)
    decreases |ws| - pos
  {
    hide Record, Emit, Consistent, AddSegment, Extended, WellFormed;
    if pos == |ws| {
      rs := [];
    } else {
      var r := ItemRead(ws, pos, a);
      ExtendedGrown(a, r);
      var next := pos + |Emit(r)|;
      var rest := ItemsRead(ws, next, Extended(a, SegmentOf(r)));
      rs := [r] + rest;
      assert ws[pos..] == ws[pos..next] + ws[next..];
    }
  }

  lemma {:induction false} Window(x: seq<U32>, y: seq<U32>, z: seq<U32>)
    ensures At(x + y + z, |x|, y)
  {
  }

  lemma {:induction false} HeaderLayout(ws: seq<U32>, libraries: seq<U32>, range: seq<U32>, sizes: seq<U32>,
      tail: seq<U32>)
    requires |range| == 3
    requires ws == [HUNK_HEADER] + libraries + range + sizes + tail
    ensures At(ws, 1, libraries)
    ensures var pos := 1 + |libraries|;
            && |ws| == pos + 3 + |sizes| + |tail|
            && ws[0] == HUNK_HEADER && ws[pos] == range[0] && ws[pos + 1] == range[1] && ws[pos + 2] == range[2]
            && At(ws, pos + 3 + |sizes|, tail)
  {
    Window([HUNK_HEADER], libraries, range + sizes + tail);
    assert ws == [HUNK_HEADER] + libraries + (range + sizes + tail);
    Window([HUNK_HEADER] + libraries + range + sizes, tail, []);
    assert ws == [HUNK_HEADER] + libraries + range + sizes + tail + [];
  }

  lemma {:induction false} ReadHeader(ws: seq<U32>, h: Header, tail: seq<U32>)
    requires WellFormedHeader(h)
    requires ws == [HUNK_HEADER] + EmitLibraries(h.libraries) + [|h.sizes|, h.first, h.last] + h.sizes + tail
    ensures var start := |ws| - |tail|;
            && At(ws, start, tail)
            && AnalyzeWords(ws) == Body(ws, start, EMPTY.(recognized := true, firstHunk := h.first, lastHunk := h.last))
  {
    hide Body, Record, EmitLibraries, SkipNames, At;
    HeaderLayout(ws, EmitLibraries(h.libraries), [|h.sizes|, h.first, h.last], h.sizes, tail);
    ReadLibraries(ws, 1, h.libraries);
  }

  lemma {:induction false} RoundTripWords(h: Header, rs: seq<Item>)
    requires WellFormedHeader(h) && AllWellFormed(rs)
    ensures AnalyzeWords(Serialize(h, rs)) == Expected(h, rs)
  {
    hide Record, EmitLibraries, AnalyzeWords, EmitAll, SegmentsOf, At;
    var ws := Serialize(h, rs);
    ReadHeader(ws, h, EmitAll(rs));
    var a := EMPTY.(recognized := true, firstHunk := h.first, lastHunk := h.last);
    var b := ReadItems(ws, |ws| - |EmitAll(rs)|, rs, a);
    assert Consistent(a);
    assert b.segments == SegmentsOf(rs);
  }

  /** Parsing inverts writing: the analysis of a well-formed file is exactly its segments and their totals. */
  lemma {:induction false} RoundTrip(h: Header, rs: seq<Item>, trailing: seq<Byte>)
    requires WellFormedHeader(h) && AllWellFormed(rs) && |trailing| < 4
    ensures AnalyzeSpec(Encode(Serialize(h, rs)) + trailing) == Expected(h, rs)
  {
    hide AnalyzeWords, Serialize, Expected, Encode, Words;
    WordsOfEncode(Serialize(h, rs), trailing);
    RoundTripWords(h, rs);
  }

  /** A file is recognised without a warning exactly when the grammar generates it. */
  lemma {:induction false} AcceptsExactlyTheGrammar(data: seq<Byte>)
    ensures AnalyzeSpec(data).recognized && AnalyzeSpec(data).warnings == []
            <==> exists h, rs :: WellFormedHeader(h) && AllWellFormed(rs) && Words(data) == Serialize(h, rs)
  {
    hide AnalyzeWords, Serialize, Words;
    var ws := Words(data);
    if AnalyzeSpec(data).recognized && AnalyzeSpec(data).warnings == [] {
      var h, rs := FileRead(ws);
      assert Words(data) == Serialize(h, rs);
    }
    if h, rs :| WellFormedHeader(h) && AllWellFormed(rs) && ws == Serialize(h, rs) {
      RoundTripWords(h, rs);
    }
  }

  lemma {:induction false} Parts(ws: seq<U32>, pos: nat, start: nat)
    requires 1 <= pos && pos + 3 <= start <= |ws|
    ensures ws[..start] == [ws[0]] + ws[1..pos] + [ws[pos], ws[pos + 1], ws[pos + 2]] + ws[pos + 3..start]
  {
  }

  /** A header read without warning is the serialisation of some header. */
  lemma {:induction false} HeaderRead(ws: seq<U32>) returns (h: Header, start: nat)
    requires AnalyzeWords(ws).recognized && AnalyzeWords(ws).warnings == []
    ensures WellFormedHeader(h) && start <= |ws|
    ensures ws[..start] == [HUNK_HEADER] + EmitLibraries(h.libraries) + [|h.sizes|, h.first, h.last] + h.sizes
    ensures AnalyzeWords(ws) == Body(ws, start, EMPTY.(recognized := true, firstHunk := h.first, lastHunk := h.last))
  {
    hide Body, Record, Emit, EmitLibraries;
    var libraries := LibrariesRead(ws, 1);
    var pos := 1 + |EmitLibraries(libraries)|;
    var n: nat := ws[pos];
    start := pos + 3 + n;
    h := Header(libraries, ws[pos + 1], ws[pos + 2], ws[pos + 3..start]);
    Parts(ws, pos, start);
  }

  lemma {:induction false} FileRead(ws: seq<U32>) returns (h: Header, rs: seq<Item>)
    requires AnalyzeWords(ws).recognized && AnalyzeWords(ws).warnings == []
    ensures WellFormedHeader(h) && AllWellFormed(rs) && ws == Serialize(h, rs)
  {
    hide Body, Record, Emit, EmitAll, EmitLibraries, AnalyzeWords, WellFormedHeader, WellFormed, AllWellFormed;
    var start;
    h, start := HeaderRead(ws);
    rs := ItemsRead(ws, start, EMPTY.(recognized := true, firstHunk := h.first, lastHunk := h.last));
    assert ws == ws[..start] + ws[start..];
  }

  // ------------------------------------------------ the flag bits

  /** The item with every flag bit of its type word, and of a segment's length word, cleared. */
  function Cleared(r: Item): Item {
    match r
    case Loaded(isCode, _, _, payload) => Loaded(isCode, 0, 0, payload)
    case Reserved(_, _, longwords) => Reserved(0, 0, longwords)
    case Text(isName, _, payload) => Text(isName, 0, payload)
    case Relocations(typ, _, groups) => Relocations(typ, 0, groups)
    case Symbols(_, symbols) => Symbols(0, symbols)
    case End(_) => End(0)
  }

  ghost function ClearedAll(rs: seq<Item>): (cs: seq<Item>)
    requires AllWellFormed(rs)
    ensures AllWellFormed(cs)
    ensures |EmitAll(cs)| == |EmitAll(rs)|
    ensures SegmentsOf(cs) == SegmentsOf(rs)
  {
    if rs == [] then []
    else
      assert rs[0] in rs;
      var cs := [Cleared(rs[0])] + ClearedAll(rs[1..]);
      assert cs[1..] == ClearedAll(rs[1..]);
      cs
  }

  predicate SameFrom(ws: seq<U32>, vs: seq<U32>, pos: nat) {
    |ws| == |vs| && forall i :: pos <= i < |ws| ==> ws[i] == vs[i]
  }

  lemma {:induction false} RelocationsAgree(ws: seq<U32>, vs: seq<U32>, pos: nat)
    requires SameFrom(ws, vs, pos)
    ensures SkipRelocations(ws, pos) == SkipRelocations(vs, pos)
    decreases |ws| - pos
  {
    if pos + 1 < |ws| && ws[pos] != 0 && pos + 2 + ws[pos] <= |ws| {
      RelocationsAgree(ws, vs, pos + 2 + ws[pos]);
    }
  }

  lemma {:induction false} SymbolsAgree(ws: seq<U32>, vs: seq<U32>, pos: nat)
    requires SameFrom(ws, vs, pos)
    ensures SkipSymbols(ws, pos) == SkipSymbols(vs, pos)
    decreases |ws| - pos
  {
    if pos < |ws| && ws[pos] != 0 && pos + 1 + ws[pos] < |ws| {
      SymbolsAgree(ws, vs, pos + 2 + ws[pos]);
    }
  }

  lemma {:induction false} BodyAgrees(ws: seq<U32>, vs: seq<U32>, pos: nat, a: Analysis)
    requires pos <= |ws| && SameFrom(ws, vs, pos)
    ensures Body(ws, pos, a) == Body(vs, pos, a)
    decreases |ws| - pos
  {
    if pos < |ws| {
      RelocationsAgree(ws, vs, pos + 1);
      SymbolsAgree(ws, vs, pos + 1);
      assert Record(ws, pos, a) == Record(vs, pos, a);
      if Record(ws, pos, a).Next? {
        BodyAgrees(ws, vs, Record(ws, pos, a).next, Record(ws, pos, a).a);
      }
    }
  }

  lemma {:induction false} ReadPrefix(h: Header, rs: seq<Item>, tail: seq<U32>) returns (start: nat, b: Analysis)
    requires WellFormedHeader(h) && AllWellFormed(rs)
    ensures start == |Serialize(h, rs)|
    ensures AnalyzeWords(Serialize(h, rs) + tail) == Body(Serialize(h, rs) + tail, start, b)
    ensures Grown(EMPTY.(recognized := true, firstHunk := h.first, lastHunk := h.last), b, SegmentsOf(rs))
  {
    hide Record, EmitLibraries, AnalyzeWords, EmitAll, SegmentsOf, At;
    var ws := Serialize(h, rs) + tail;
    var body := EmitAll(rs);
    assert ws == [HUNK_HEADER] + EmitLibraries(h.libraries) + [|h.sizes|, h.first, h.last] + h.sizes + (body + tail);
    ReadHeader(ws, h, body + tail);
    start := |ws| - |body + tail|;
    AtSplit(ws, start, body, tail);
    b := ReadItems(ws, start, rs, EMPTY.(recognized := true, firstHunk := h.first, lastHunk := h.last));
    start := start + |body|;
  }

  /**
   Flag bits carry no meaning: after any well-formed prefix, and whatever follows it, clearing
   the top two bits of the type words and of the segment length words changes nothing.
   */
  lemma {:induction false} FlagBitsIgnored(h: Header, rs: seq<Item>, tail: seq<U32>)
    requires WellFormedHeader(h) && AllWellFormed(rs)
    ensures AnalyzeWords(Serialize(h, rs) + tail) == AnalyzeWords(Serialize(h, ClearedAll(rs)) + tail)
  {
    hide Body, AnalyzeWords, Serialize, Grown, SegmentsOf, EmitAll, WellFormed, WellFormedHeader, SameFrom, Consistent;
    var cs := ClearedAll(rs);
    var start, b := ReadPrefix(h, rs, tail);
    var start', b' := ReadPrefix(h, cs, tail);
    SerializeLength(h, rs);
    GrownDetermines(EMPTY.(recognized := true, firstHunk := h.first, lastHunk := h.last), b, b', SegmentsOf(rs));
    SameTail(Serialize(h, rs), Serialize(h, cs), tail);
    BodyAgrees(Serialize(h, rs) + tail, Serialize(h, cs) + tail, start, b);
  }

  lemma {:induction false} GrownDetermines(a: Analysis, b: Analysis, c: Analysis, segments: seq<Segment>)
    requires a.segments == [] && a.hunkCount == a.codeBytes == a.dataBytes == a.bssBytes == 0
    requires Grown(a, b, segments) && Grown(a, c, segments)
    ensures b == c
  {
    assert Consistent(a);
  }

  lemma {:induction false} SameTail(x: seq<U32>, y: seq<U32>, tail: seq<U32>)
    requires |x| == |y|
    ensures SameFrom(x + tail, y + tail, |x|)
  {
  }

  lemma {:induction false} SerializeLength(h: Header, rs: seq<Item>)
    requires WellFormedHeader(h) && AllWellFormed(rs)
    ensures |Serialize(h, ClearedAll(rs))| == |Serialize(h, rs)|
  {
    hide EmitAll, EmitLibraries;
  }

  // ------------------------------------------------ any input at all

  /** What holds of the analysis when `used` words have been read. */
  ghost predicate Accounted(a: Analysis, used: nat) {
    && Consistent(a)
    && a.codeBytes + a.dataBytes <= 4 * used
    && 2 * a.hunkCount <= used
    && a.bssBytes <= 4 * (TYPE_BOUND - 1) * a.hunkCount
  }

  lemma {:induction false} AddSegmentAccounted(a: Analysis, used: nat, kind: SegmentKind, n: U32)
    requires Accounted(a, used) && n < TYPE_BOUND
    ensures Accounted(AddSegment(a, kind, n), used + 2 + if kind == Bss then 0 else n)
  {
    AddSegmentConsistent(a, kind, n);
  }

  lemma {:induction false} BodyAccounted(ws: seq<U32>, pos: nat, a: Analysis)
    requires pos <= |ws| && Accounted(a, pos) && a.warnings == [] && a.recognized
    ensures Accounted(Body(ws, pos, a), |ws|) && |Body(ws, pos, a).warnings| <= 1 && Body(ws, pos, a).recognized
    decreases |ws| - pos
  {
    if pos < |ws| {
      match Record(ws, pos, a)
      case Return(b) =>
      case Next(next, b) =>
        if b != a {
          AddSegmentAccounted(a, pos, b.segments[|a.segments|].kind, b.segments[|a.segments|].longwords);
        }
        BodyAccounted(ws, next, b);
    }
  }

  /**
   For any input: the counts are those of the reported segments, code and data bytes are covered
   by bytes of the file, and at most one warning is given, and none unless recognised.
   */
  lemma {:induction false} AnalysisAccounted(data: seq<Byte>)
    ensures var a := AnalyzeSpec(data);
            && Consistent(a)
            && a.codeBytes + a.dataBytes <= |data|
            && 8 * a.hunkCount <= |data|
            && a.bssBytes <= 4 * (TYPE_BOUND - 1) * a.hunkCount
            && |a.warnings| <= (if a.recognized then 1 else 0)
            && (a.recognized <==> |data| >= 4 && Words(data)[0] == HUNK_HEADER)
  {
    hide Body, Words;
    var ws := Words(data);
    assert Accounted(EMPTY, 0);
    if ws != [] && ws[0] == HUNK_HEADER {
      var a := EMPTY.(recognized := true);
      var names := After(SkipNames(ws, 1), a);
      if names.Next? {
        var table := HeaderTable(ws, names.next, a);
        if table.Next? {
          BodyAccounted(ws, table.next, table.a);
        }
      }
    }
  }

  /** The unsigned 64-bit totals of the source cannot wrap for any file below 16 GiB. */
  lemma {:induction false} TotalsFit64Bits(data: seq<Byte>)
    requires |data| < 0x4_0000_0000
    ensures var a := AnalyzeSpec(data);
            a.codeBytes + a.dataBytes + a.bssBytes < 0x1_0000_0000_0000_0000
  {
    hide AnalyzeSpec, Consistent, Words;
    AnalysisAccounted(data);
  }
}
