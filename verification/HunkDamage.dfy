/**
 Load files that are cut short or hold something else.  Together with the grammar this says what the
 parser makes of any file at all: whole, damaged in the header, damaged after some items, or no load file.
 */
module HunkDamage {
  import opened Common
  import opened Bytes
  import opened HunkFile
  import opened HunkGrammar

  // ------------------------------------------------ tables that break off

  function FlatLibraries(ls: seq<Run>): seq<U32> {
    if ls == [] then [] else EmitLibrary(ls[0]) + FlatLibraries(ls[1..])
  }

  function FlatGroups(gs: seq<RelocGroup>): seq<U32> {
    if gs == [] then [] else EmitGroup(gs[0]) + FlatGroups(gs[1..])
  }

  function FlatSymbols(ss: seq<Symbol>): seq<U32> {
    if ss == [] then [] else EmitSymbol(ss[0]) + FlatSymbols(ss[1..])
  }

  /** What is left where the library names should go on. */
  predicate CutLibraries(rest: seq<U32>, w: Warning) {
    || (rest == [] && w == TruncatedLibraryNames)
    || (rest != [] && rest[0] != 0 && 1 + rest[0] > |rest| && w == LibraryNameBeyondFile)
  }

  predicate CutGroups(rest: seq<U32>, w: Warning) {
    || (rest == [] && w == TruncatedRelocationTable)
    || (|rest| == 1 && rest[0] != 0 && w == TruncatedRelocationTarget)
    || (|rest| >= 2 && rest[0] != 0 && 2 + rest[0] > |rest| && w == RelocationsBeyondFile)
  }

  predicate CutSymbols(rest: seq<U32>, w: Warning) {
    || (rest == [] && w == TruncatedSymbolTable)
    || (rest != [] && rest[0] != 0 && 1 + rest[0] >= |rest| && w == SymbolBeyondFile)
  }

  lemma {:induction false} SuffixAfter(ws: seq<U32>, pos: nat, a: seq<U32>, b: seq<U32>)
    requires pos <= |ws| && ws[pos..] == a + b
    ensures pos + |a| <= |ws| && ws[pos..pos + |a|] == a && ws[pos + |a|..] == b
    ensures a != [] ==> pos < |ws| && ws[pos] == a[0]
  {
    assert ws[pos..][..|a|] == a && ws[pos..][|a|..] == b;
  }

  lemma {:induction false} LibrariesCut(ws: seq<U32>, pos: nat, ls: seq<Run>, rest: seq<U32>, w: Warning)
    requires pos <= |ws| && ws[pos..] == FlatLibraries(ls) + rest && CutLibraries(rest, w)
    ensures SkipNames(ws, pos) == Stop(w)
    decreases |ls|
  {
    if ls == [] {
      assert ws[pos..] == rest;
    } else {
      var l := EmitLibrary(ls[0]);
      assert ws[pos..] == l + (FlatLibraries(ls[1..]) + rest);
      SuffixAfter(ws, pos, l, FlatLibraries(ls[1..]) + rest);
      LibrariesCut(ws, pos + |l|, ls[1..], rest, w);
    }
  }

  lemma {:induction false} CutOfLibraries(ws: seq<U32>, pos: nat) returns (ls: seq<Run>, rest: seq<U32>)
    requires pos <= |ws| && SkipNames(ws, pos).Stop?
    ensures ws[pos..] == FlatLibraries(ls) + rest && CutLibraries(rest, SkipNames(ws, pos).why)
    decreases |ws| - pos
  {
    if pos == |ws| || pos + 1 + ws[pos] > |ws| {
      ls, rest := [], ws[pos..];
      assert [] + rest == rest;
    } else {
      var l: Run := ws[pos + 1..pos + 1 + ws[pos]];
      var more;
      more, rest := CutOfLibraries(ws, pos + 1 + ws[pos]);
      ls := [l] + more;
      assert ws[pos..] == EmitLibrary(l) + ws[pos + 1 + |l|..];
      assert FlatLibraries(ls) == EmitLibrary(l) + FlatLibraries(more);
    }
  }

  lemma {:induction false} GroupsCut(ws: seq<U32>, pos: nat, gs: seq<RelocGroup>, rest: seq<U32>, w: Warning)
    requires pos <= |ws| && ws[pos..] == FlatGroups(gs) + rest && CutGroups(rest, w)
    ensures SkipRelocations(ws, pos) == Stop(w)
    decreases |gs|
  {
    if gs == [] {
      assert ws[pos..] == rest;
    } else {
      var g := EmitGroup(gs[0]);
      assert ws[pos..] == g + (FlatGroups(gs[1..]) + rest);
      SuffixAfter(ws, pos, g, FlatGroups(gs[1..]) + rest);
      GroupsCut(ws, pos + |g|, gs[1..], rest, w);
    }
  }

  lemma {:induction false} CutOfGroups(ws: seq<U32>, pos: nat) returns (gs: seq<RelocGroup>, rest: seq<U32>)
    requires pos <= |ws| && SkipRelocations(ws, pos).Stop?
    ensures ws[pos..] == FlatGroups(gs) + rest && CutGroups(rest, SkipRelocations(ws, pos).why)
    decreases |ws| - pos
  {
    if pos == |ws| || pos + 1 >= |ws| || pos + 2 + ws[pos] > |ws| {
      gs, rest := [], ws[pos..];
      assert [] + rest == rest;
    } else {
      var n: nat := ws[pos];
      var g := RelocGroup(ws[pos + 1], ws[pos + 2..pos + 2 + n]);
      var more;
      more, rest := CutOfGroups(ws, pos + 2 + n);
      gs := [g] + more;
      assert ws[pos..] == EmitGroup(g) + ws[pos + 2 + n..];
      assert FlatGroups(gs) == EmitGroup(g) + FlatGroups(more);
    }
  }

  lemma {:induction false} SymbolsCut(ws: seq<U32>, pos: nat, ss: seq<Symbol>, rest: seq<U32>, w: Warning)
    requires pos <= |ws| && ws[pos..] == FlatSymbols(ss) + rest && CutSymbols(rest, w)
    ensures SkipSymbols(ws, pos) == Stop(w)
    decreases |ss|
  {
    if ss == [] {
      assert ws[pos..] == rest;
    } else {
      var s := EmitSymbol(ss[0]);
      assert ws[pos..] == s + (FlatSymbols(ss[1..]) + rest);
      SuffixAfter(ws, pos, s, FlatSymbols(ss[1..]) + rest);
      SymbolsCut(ws, pos + |s|, ss[1..], rest, w);
    }
  }

  lemma {:induction false} CutOfSymbols(ws: seq<U32>, pos: nat) returns (ss: seq<Symbol>, rest: seq<U32>)
    requires pos <= |ws| && SkipSymbols(ws, pos).Stop?
    ensures ws[pos..] == FlatSymbols(ss) + rest && CutSymbols(rest, SkipSymbols(ws, pos).why)
    decreases |ws| - pos
  {
    if pos == |ws| || pos + 1 + ws[pos] >= |ws| {
      ss, rest := [], ws[pos..];
      assert [] + rest == rest;
    } else {
      var n: nat := ws[pos];
      var s := Symbol(ws[pos + 1..pos + 1 + n], ws[pos + 1 + n]);
      var more;
      more, rest := CutOfSymbols(ws, pos + 2 + n);
      ss := [s] + more;
      assert ws[pos..] == EmitSymbol(s) + ws[pos + 2 + n..];
      assert FlatSymbols(ss) == EmitSymbol(s) + FlatSymbols(more);
    }
  }

  // ------------------------------------------------ items that break off

  function TypeOf(w: U32): nat {
    w % 0x4000_0000
  }

  /** What follows the last whole item is no item, for this reason. */
  ghost predicate Damaged(tail: seq<U32>, w: Warning) {
    && tail != []
    && var t := TypeOf(tail[0]);
       match w
       case TruncatedHunkLength => (t == 1001 || t == 1002) && |tail| == 1
       case TruncatedBssLength => t == 1003 && |tail| == 1
       case TruncatedTextLength(typ) => typ == t && (t == 1000 || t == 1009) && |tail| == 1
       case PayloadBeyondFile(typ) =>
         && typ == t && |tail| >= 2
         && (((t == 1001 || t == 1002) && 2 + tail[1] % 0x4000_0000 > |tail|) || ((t == 1000 || t == 1009) && 2 + tail[1] > |tail|))
       case UnsupportedHunk(typ) => typ == t && t in {999, 1007, 1013, 1014}
       case UnknownHunk(typ) => typ == t && t != 1013 && t != 1014 && !(999 <= t <= 1010)
       case _ =>
         || ((t == 1004 || t == 1005 || t == 1006) && exists gs, rest :: tail[1..] == FlatGroups(gs) + rest && CutGroups(rest, w))
         || (t == 1008 && exists ss, rest :: tail[1..] == FlatSymbols(ss) + rest && CutSymbols(rest, w))
  }

  predicate OfTable(w: Warning) {
    || w.TruncatedRelocationTable? || w.TruncatedRelocationTarget? || w.RelocationsBeyondFile?
    || w.TruncatedSymbolTable? || w.SymbolBeyondFile?
  }

  lemma {:induction false} DamageStops(ws: seq<U32>, pos: nat, a: Analysis, w: Warning)
    requires pos < |ws| && Damaged(ws[pos..], w)
    ensures Record(ws, pos, a) == Return(Warn(a, w))
  {
    hide Record, Damaged;
    if OfTable(w) {
      TableDamageStops(ws, pos, a, w);
    } else {
      OtherDamageStops(ws, pos, a, w);
    }
  }

  lemma {:induction false} TableDamageStops(ws: seq<U32>, pos: nat, a: Analysis, w: Warning)
    requires pos < |ws| && Damaged(ws[pos..], w) && OfTable(w)
    ensures Record(ws, pos, a) == Return(Warn(a, w))
  {
    hide FlatGroups, FlatSymbols, SkipRelocations, SkipSymbols, AddSegment, CutGroups, CutSymbols;
    var tail := ws[pos..];
    var t := TypeOf(ws[pos]);
    assert tail[1..] == ws[pos + 1..];
    if t == 1008 {
      var ss, rest :| tail[1..] == FlatSymbols(ss) + rest && CutSymbols(rest, w);
      SymbolsCut(ws, pos + 1, ss, rest, w);
    } else {
      var gs, rest :| tail[1..] == FlatGroups(gs) + rest && CutGroups(rest, w);
      GroupsCut(ws, pos + 1, gs, rest, w);
    }
  }

  lemma {:induction false} OtherDamageStops(ws: seq<U32>, pos: nat, a: Analysis, w: Warning)
    requires pos < |ws| && Damaged(ws[pos..], w) && !OfTable(w)
    ensures Record(ws, pos, a) == Return(Warn(a, w))
  {
    TableCuts();
    hide FlatGroups, FlatSymbols, SkipRelocations, SkipSymbols, AddSegment, CutGroups, CutSymbols, OfTable;
    var tail := ws[pos..];
    assert |tail| == |ws| - pos && tail[0] == ws[pos] && (|tail| > 1 ==> tail[1] == ws[pos + 1]);
  }

  lemma {:induction false} TableCuts()
    ensures forall rest, w :: CutGroups(rest, w) || CutSymbols(rest, w) ==> OfTable(w)
  {
  }

  lemma {:induction false} StopIsDamage(ws: seq<U32>, pos: nat, a: Analysis) returns (w: Warning)
    requires pos < |ws| && Record(ws, pos, a).Return?
    ensures Damaged(ws[pos..], w) && Record(ws, pos, a) == Return(Warn(a, w))
  {
    var tail := ws[pos..];
    var t := Masked(ws[pos]);
    assert tail[1..] == ws[pos + 1..];
    if t == 1004 || t == 1005 || t == 1006 {
      var gs, rest := CutOfGroups(ws, pos + 1);
      w := SkipRelocations(ws, pos + 1).why;
    } else if t == 1008 {
      var ss, rest := CutOfSymbols(ws, pos + 1);
      w := SkipSymbols(ws, pos + 1).why;
    } else {
      w := Reason(tail);
      assert |tail| == |ws| - pos && (|tail| > 1 ==> tail[1] == ws[pos + 1]);
    }
  }

  /** Outside the tables. */
  function Reason(tail: seq<U32>): Warning
    requires tail != []
  {
    var t := TypeOf(tail[0]);
    if t == 1001 || t == 1002 then (if |tail| == 1 then TruncatedHunkLength else PayloadBeyondFile(t))
    else if t == 1003 then TruncatedBssLength
    else if t == 1000 || t == 1009 then (if |tail| == 1 then TruncatedTextLength(t) else PayloadBeyondFile(t))
    else if t in {999, 1007, 1013, 1014} then UnsupportedHunk(t)
    else UnknownHunk(t)
  }

  lemma {:induction false} ItemsThenDamage(ws: seq<U32>, pos: nat, a: Analysis) returns (rs: seq<Item>, tail: seq<U32>, w: Warning)
    requires pos <= |ws|
    ensures AllWellFormed(rs) && ws[pos..] == EmitAll(rs) + tail
    ensures tail != [] ==> Damaged(tail, w)
    decreases |ws| - pos
  {
    hide Record, Emit, Consistent, AddSegment, Extended, WellFormed, Damaged;
    if pos == |ws| {
      rs, tail, w := [], [], TruncatedHunkLength;
    } else if Record(ws, pos, a).Return? {
      rs, tail := [], ws[pos..];
      w := StopIsDamage(ws, pos, a);
      assert EmitAll(rs) + tail == tail;
    } else {
      var r := ItemRead(ws, pos, a);
      var next := pos + |Emit(r)|;
      var rest;
      rest, tail, w := ItemsThenDamage(ws, next, Extended(a, SegmentOf(r)));
      rs := [r] + rest;
      assert rs[1..] == rest;
      assert ws[pos..] == ws[pos..next] + ws[next..];
      assert Emit(r) + (EmitAll(rest) + tail) == EmitAll(rs) + tail;
    }
  }

  // ------------------------------------------------ headers that break off

  /** Why the header cannot be read, and the hunk range as far as it was there. */
  ghost predicate HeaderDamaged(ws: seq<U32>, w: Warning, first: U32, last: U32) {
    || (exists ls, rest :: CutLibraries(rest, w) && ws == [1011] + FlatLibraries(ls) + rest && first == 0 && last == 0)
    || (exists ls, rest :: ws == [1011] + EmitLibraries(ls) + rest && CutTable(rest, w, first, last))
  }

  predicate CutTable(rest: seq<U32>, w: Warning, first: U32, last: U32) {
    if |rest| < 3 then w == TruncatedHeaderTable && first == 0 && last == 0
    else
      && first == rest[1] && last == rest[2]
      && if rest[0] == 0 || last < first || last as int - first as int >= rest[0] then w == InvalidHeaderRange
         else w == TruncatedSizeTable && 3 + rest[0] > |rest|
  }

  lemma {:induction false} HeaderStops(ws: seq<U32>, w: Warning, first: U32, last: U32)
    requires HeaderDamaged(ws, w, first, last)
    ensures AnalyzeWords(ws) == Analysis(true, 0, first, last, 0, 0, 0, [], [w])
  {
    hide EmitLibraries, FlatLibraries, AnalyzeWords, CutLibraries, CutTable;
    if ls, rest :| CutLibraries(rest, w) && ws == [1011] + FlatLibraries(ls) + rest && first == 0 && last == 0 {
      LibrariesStop(ws, ls, rest, w);
    } else {
      var ls, rest :| ws == [1011] + EmitLibraries(ls) + rest && CutTable(rest, w, first, last);
      TableStops(ws, ls, rest, w, first, last);
    }
  }

  lemma {:induction false} LibrariesStop(ws: seq<U32>, ls: seq<Run>, rest: seq<U32>, w: Warning)
    requires CutLibraries(rest, w) && ws == [1011] + FlatLibraries(ls) + rest
    ensures AnalyzeWords(ws) == Analysis(true, 0, 0, 0, 0, 0, 0, [], [w])
  {
    hide FlatLibraries, SkipNames, Body, CutLibraries;
    assert ws[1..] == FlatLibraries(ls) + rest;
    LibrariesCut(ws, 1, ls, rest, w);
  }

  lemma {:induction false} TableStops(ws: seq<U32>, ls: seq<Run>, rest: seq<U32>, w: Warning, first: U32, last: U32)
    requires ws == [1011] + EmitLibraries(ls) + rest && CutTable(rest, w, first, last)
    ensures AnalyzeWords(ws) == Analysis(true, 0, first, last, 0, 0, 0, [], [w])
  {
    hide EmitLibraries, SkipNames, Body, At;
    var e := EmitLibraries(ls);
    Window([1011], e, rest);
    ReadLibraries(ws, 1, ls);
    var pos := 1 + |e|;
    assert ws[pos..] == rest;
    assert |rest| >= 3 ==> ws[pos] == rest[0] && ws[pos + 1] == rest[1] && ws[pos + 2] == rest[2];
  }

  lemma {:induction false} StopInHeader(ws: seq<U32>) returns (w: Warning, first: U32, last: U32)
    requires ws != [] && ws[0] == 1011
    requires SkipNames(ws, 1).Stop? || HeaderTable(ws, SkipNames(ws, 1).next, EMPTY).Return?
    ensures HeaderDamaged(ws, w, first, last)
  {
    hide EmitLibraries, FlatLibraries, SkipNames, CutLibraries;
    assert ws == [1011] + ws[1..];
    if SkipNames(ws, 1).Stop? {
      var ls, rest := CutOfLibraries(ws, 1);
      w, first, last := SkipNames(ws, 1).why, 0, 0;
      assert ws == [1011] + FlatLibraries(ls) + rest;
      assert CutLibraries(rest, w);
    } else {
      var ls := LibrariesRead(ws, 1);
      var pos := SkipNames(ws, 1).next;
      var rest := ws[pos..];
      assert ws[1..pos] == EmitLibraries(ls);
      assert ws == [1011] + EmitLibraries(ls) + rest;
      if |rest| < 3 {
        w, first, last := TruncatedHeaderTable, 0, 0;
      } else {
        assert rest[0] == ws[pos] && rest[1] == ws[pos + 1] && rest[2] == ws[pos + 2];
        first, last := rest[1], rest[2];
        w := if rest[0] == 0 || last < first || last as int - first as int >= rest[0] then InvalidHeaderRange else TruncatedSizeTable;
      }
      assert CutTable(rest, w, first, last);
    }
  }

  // ------------------------------------------------ any file

  /** What a list of words is. */
  datatype Form =
    | NoLoadFile
    | BadHeader(w: Warning, first: U32, last: U32)
    | BadItem(h: Header, rs: seq<Item>, tail: seq<U32>, w: Warning)
    | Whole(h: Header, rs: seq<Item>)

  ghost predicate IsForm(ws: seq<U32>, f: Form) {
    match f
    case NoLoadFile => ws == [] || ws[0] != 1011
    case BadHeader(w, first, last) => HeaderDamaged(ws, w, first, last)
    case BadItem(h, rs, tail, w) => WellFormedHeader(h) && AllWellFormed(rs) && Damaged(tail, w) && ws == Serialize(h, rs) + tail
    case Whole(h, rs) => WellFormedHeader(h) && AllWellFormed(rs) && ws == Serialize(h, rs)
  }

  ghost function Meaning(f: Form): Analysis
    requires f.BadItem? || f.Whole? ==> AllWellFormed(f.rs)
  {
    match f
    case NoLoadFile => Analysis(false, 0, 0, 0, 0, 0, 0, [], [])
    case BadHeader(w, first, last) => Analysis(true, 0, first, last, 0, 0, 0, [], [w])
    case BadItem(h, rs, _, w) => Expected(h, rs).(warnings := [w])
    case Whole(h, rs) => Expected(h, rs)
  }

  lemma {:induction false} DamagedAfterItems(h: Header, rs: seq<Item>, tail: seq<U32>, w: Warning)
    requires WellFormedHeader(h) && AllWellFormed(rs) && Damaged(tail, w)
    ensures AnalyzeWords(Serialize(h, rs) + tail) == Expected(h, rs).(warnings := [w])
  {
    hide AnalyzeWords, Serialize, Damaged, SegmentsOf, AllWellFormed, WellFormedHeader;
    var start, b := ReadPrefix(h, rs, tail);
    var ws := Serialize(h, rs) + tail;
    assert ws[start..] == tail;
    assert tail != [] by { DamagedNotEmpty(tail, w); }
    GrownIsExpected(h, rs, b);
    hide Grown, Expected;
    DamageEnds(ws, start, b, w);
  }

  lemma {:induction false} DamageEnds(ws: seq<U32>, pos: nat, b: Analysis, w: Warning)
    requires pos < |ws| && Damaged(ws[pos..], w)
    ensures Body(ws, pos, b) == Warn(b, w)
  {
    hide Record, Damaged;
    DamageStops(ws, pos, b, w);
  }

  lemma {:induction false} GrownIsExpected(h: Header, rs: seq<Item>, b: Analysis)
    requires AllWellFormed(rs) && Grown(EMPTY.(recognized := true, firstHunk := h.first, lastHunk := h.last), b, SegmentsOf(rs))
    ensures b == Expected(h, rs)
  {
    hide SegmentsOf, AllWellFormed;
    assert Consistent(EMPTY.(recognized := true, firstHunk := h.first, lastHunk := h.last));
    assert b.segments == SegmentsOf(rs);
  }

  lemma {:induction false} DamagedNotEmpty(tail: seq<U32>, w: Warning)
    requires Damaged(tail, w)
    ensures tail != []
  {
  }

  lemma {:induction false} FormFound(ws: seq<U32>) returns (f: Form)
    ensures IsForm(ws, f)
  {
    hide EmitLibraries, SkipNames, Damaged, EmitAll, HeaderDamaged, AllWellFormed;
    if ws == [] || ws[0] != 1011 {
      f := NoLoadFile;
    } else if SkipNames(ws, 1).Stop? || HeaderTable(ws, SkipNames(ws, 1).next, EMPTY).Return? {
      var w, first, last := StopInHeader(ws);
      f := BadHeader(w, first, last);
    } else {
      var h, start := HeaderFound(ws);
      var rs, tail, w := ItemsThenDamage(ws, start, EMPTY);
      assert ws == ws[..start] + (EmitAll(rs) + tail);
      assert ws == ws[..start] + EmitAll(rs) + tail;
      if tail == [] {
        f := Whole(h, rs);
        assert ws == ws[..start] + EmitAll(rs);
      } else {
        f := BadItem(h, rs, tail, w);
      }
    }
  }

  lemma {:induction false} HeaderFound(ws: seq<U32>) returns (h: Header, start: nat)
    requires ws != [] && ws[0] == 1011 && SkipNames(ws, 1).Go? && HeaderTable(ws, SkipNames(ws, 1).next, EMPTY).Next?
    ensures WellFormedHeader(h) && start <= |ws|
    ensures ws[..start] == [1011] + EmitLibraries(h.libraries) + [|h.sizes|, h.first, h.last] + h.sizes
  {
    hide EmitLibraries, SkipNames;
    var libraries := LibrariesRead(ws, 1);
    var pos := 1 + |EmitLibraries(libraries)|;
    var n: nat := ws[pos];
    start := pos + 3 + n;
    h := Header(libraries, ws[pos + 1], ws[pos + 2], ws[pos + 3..start]);
    Parts(ws, pos, start);
  }

  lemma {:induction false} FormMeans(ws: seq<U32>, f: Form)
    requires IsForm(ws, f)
    ensures AnalyzeWords(ws) == Meaning(f)
  {
    hide AnalyzeWords, Serialize, Expected, Damaged, HeaderDamaged, AllWellFormed, WellFormedHeader;
    match f
    case NoLoadFile => NothingRead(ws);
    case BadHeader(w, first, last) => HeaderStops(ws, w, first, last);
    case BadItem(h, rs, tail, w) => DamagedAfterItems(h, rs, tail, w);
    case Whole(h, rs) => RoundTripWords(h, rs);
  }

  lemma {:induction false} NothingRead(ws: seq<U32>)
    requires ws == [] || ws[0] != 1011
    ensures AnalyzeWords(ws) == Analysis(false, 0, 0, 0, 0, 0, 0, [], [])
  {
  }

  /**
   Every file is one of the four, and which one it is fixes the whole analysis: nothing for other files, one warning
   for a damaged header, the items before the damage and one warning, or all items and none.
   */
  lemma {:induction false} EveryFileIsUnderstood(data: seq<Byte>)
    ensures exists f :: IsForm(Words(data), f)
    ensures forall f :: IsForm(Words(data), f) ==> AnalyzeSpec(data) == Meaning(f)
  {
    hide IsForm, AnalyzeWords, Words;
    var f := FormFound(Words(data));
    forall f | IsForm(Words(data), f) ensures (f.BadItem? || f.Whole? ==> AllWellFormed(f.rs)) && AnalyzeSpec(data) == Meaning(f) {
      FormParts(Words(data), f);
      FormMeans(Words(data), f);
    }
  }

  lemma {:induction false} FormParts(ws: seq<U32>, f: Form)
    requires IsForm(ws, f)
    ensures f.BadItem? || f.Whole? ==> AllWellFormed(f.rs)
  {
  }
}
