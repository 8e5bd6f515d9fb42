/** Appending to the ledger file under its exclusive lock (cmd/aaa/evidence_ledger.go). */
module LedgerAppend {
  import opened Common
  import opened Lines
  import opened Statements
  import opened EvidenceLedger
  import opened LedgerCheckpoint

  const MAX_LEDGER_BYTES := 67108864

  datatype Request = Request(event: string, kind: string, objectSha: string, note: string, recordedAt: Timestamp)

  /** `bytes.LastIndexByte`: the last position of c, or -1. */
  function LastIndex(s: string, c: char): (k: int)
    ensures -1 <= k < |s|
    ensures k >= 0 ==> s[k] == c
    ensures forall j :: k < j < |s| ==> s[j] != c
  {
    if s == "" then -1
    else if s[|s| - 1] == c then |s| - 1
    else LastIndex(s[..|s| - 1], c)
  }

  /** The bytes after the last LF but the final one: the previous record with its LF. */
  function PreviousLine(data: string): string {
    if data == "" then "" else data[LastIndex(data[..|data| - 1], LF) + 1..]
  }

  /** The record a request becomes, or none where the source returns an error before writing. */
  function NextRecord(lib: Library, data: string, q: Request): Option<Record> {
    if |data| > MAX_LEDGER_BYTES then None
    else
      match VerifySpec(lib, data)
      case Rejected(_) => None
      case Verified(_, tail, _, _) =>
        match BuildRecord(lib, tail + 1, q.recordedAt, q.event, q.kind, q.objectSha, PreviousLine(data), q.note)
        case Err(_) => None
        case Ok(r) => Some(r)
  }

  /** The line that is appended, without its LF. */
  function NextLine(lib: Library, data: string, q: Request): Option<string> {
    match NextRecord(lib, data, q)
    case None => None
    case Some(r) =>
      match Marshal(lib, r)
      case None => None
      case Some(line) => if |data| + |line| + 1 > MAX_LEDGER_BYTES then None else Some(line)
  }

  function Appended(lib: Library, data: string, q: Request): string {
    match NextLine(lib, data, q)
    case None => data
    case Some(line) => data + line + [LF]
  }

  /**
   What can go wrong: the file cannot be opened, locked or read; once the line is ready the file was
   changed, the write stops early, or the sync fails.
   */
  datatype Disturbance = Calm | Unopened | ChangedMeanwhile | WriteStops(k: nat) | SyncFails

  /** What the file holds after an append that may be disturbed. */
  function Written(lib: Library, data: string, q: Request, d: Disturbance): string {
    match NextLine(lib, data, q)
    case None => data
    case Some(line) =>
      match d
      case Unopened => data
      case ChangedMeanwhile => data
      case WriteStops(k) => data + (line + [LF])[..if k <= |line| then k else |line|]
      case _ => Appended(lib, data, q)
  }

  /** The ledger file; each append holds the lock throughout, so appends do not interleave. */
  class LedgerFile {
    var data: string

    constructor ()
      ensures data == ""
    {
      data := "";
    }

    /** `appendEvidenceLedgerRecord` up to the write: verify, take the last line, build the record, check the size. */
    method Prepare(lib: Library, q: Request) returns (line: Option<string>)
      ensures line == NextLine(lib, data, q)
    {
      hide VerifySpec, BuildRecord, Marshal;
      if |data| > MAX_LEDGER_BYTES {
        return None;
      }
      var verification := Verify(lib, data);
      if verification.Rejected? {
        return None;
      }
      var previousLine := "";
      if |data| > 0 {
        var previousStart := LastIndex(data[..|data| - 1], LF) + 1;
        previousLine := data[previousStart..];
      }
      var built := BuildRecord(lib, verification.tailSequence + 1, q.recordedAt, q.event, q.kind, q.objectSha, previousLine, q.note);
      if built.Err? {
        return None;
      }
      line := Marshal(lib, built.record);
      if line.Some? && |data| + |line.value| + 1 > MAX_LEDGER_BYTES {
        line := None;
      }
    }

    /** `appendEvidenceLedgerRecord`. */
    method Append(lib: Library, q: Request, d: Disturbance) returns (ok: bool)
      modifies this
      ensures data == Written(lib, old(data), q, d)
      ensures ok <==> NextLine(lib, old(data), q).Some? && d.Calm?
    {
      hide NextLine;
      ok := false;
      if d.Unopened? {
        return;
      }
      var line := Prepare(lib, q);
      if line.None? || d.ChangedMeanwhile? {
        return;
      }
      var bytes := line.value + [LF];
      if d.WriteStops? {
        data := data + bytes[..if d.k < |bytes| then d.k else |bytes| - 1];
        return;
      }
      data := data + bytes;
      ok := !d.SyncFails?;
    }
  }

  // ------------------------------------------------ the previous line

  lemma {:induction false} LastIndexUnique(s: string, c: char, k: int)
    requires -1 <= k < |s| && (k >= 0 ==> s[k] == c)
    requires forall j :: k < j < |s| ==> s[j] != c
    ensures LastIndex(s, c) == k
  {
  }

  /** Searching backwards for LF finds the same line the verifier gets by splitting forwards. */
  lemma {:induction false} PreviousLineIsLastLine(data: string)
    requires Framed(data) && data != ""
    ensures LinesOf(data) != [] && PreviousLine(data) == LinesOf(data)[|LinesOf(data)| - 1] + [LF]
  {
    var lines := LinesOf(data);
    assert lines != [];
    hide LinesOf, Terminate, LastIndex;
    var last := lines[|lines| - 1];
    assert last in lines;
    LastLineBytes(lines[..|lines| - 1], last);
    assert lines == lines[..|lines| - 1] + [last];
  }

  lemma {:induction false} LastLineBytes(before: seq<string>, last: string)
    requires LF !in last
    ensures Terminate(before + [last]) != "" && PreviousLine(Terminate(before + [last])) == last + [LF]
  {
    hide LastIndex;
    var front := Terminate(before);
    TerminateSnoc(before, last);
    TerminateEndsInLF(before);
    hide Terminate;
    var data := front + last + [LF];
    assert data[..|data| - 1] == front + last;
    LastIndexUnique(front + last, LF, |front| - 1);
    assert data[|front|..] == last + [LF];
  }

  lemma {:induction false} TerminateSnoc(lines: seq<string>, l: string)
    ensures Terminate(lines + [l]) == Terminate(lines) + l + [LF]
  {
    TerminateConcat(lines, [l]);
    assert Terminate([l]) == l + [LF] + Terminate([]);
  }

  lemma {:induction false} TerminateEndsInLF(lines: seq<string>)
    ensures Terminate(lines) != "" ==> Terminate(lines)[|Terminate(lines)| - 1] == LF
  {
    if |lines| > 1 {
      TerminateEndsInLF(lines[1..]);
    }
  }

  // ------------------------------------------------ one append

  /** What reading the appended line back gives: the record with its note cleaned by the codec. */
  function ReadBack(lib: Library, r: Record): Record {
    r.(note := lib.cleanText(r.note))
  }

  lemma {:induction false} NextLineFacts(lib: Library, data: string, q: Request)
    requires Sound(lib) && NextLine(lib, data, q).Some?
    ensures Intact(lib, data)
    ensures NextRecord(lib, data, q).Some?
    ensures var r := NextRecord(lib, data, q).value;
            var lines := LinesOf(data);
            var line := NextLine(lib, data, q).value;
            && IsLine(line)
            && lib.decode(line) == Some(ReadBack(lib, r))
            && RecordFault(lib, r) == None && r.note == q.note
            && r.sequence == |lines| + 1
            && r.previousSha == if lines == [] then ZERO_LINK else lib.sha(lines[|lines| - 1] + [LF])
  {
    VerifiedExactlyIntact(lib, data);
    hide LinesOf, VerifySpec, PreviousLine, Chained, StatementSha;
    if data != "" {
      PreviousLineIsLastLine(data);
    } else {
      Empty();
    }
    var r := NextRecord(lib, data, q).value;
    assert FieldFault(r) == None;
  }

  lemma {:induction false} ChainedSnoc(lib: Library, lines: seq<string>, line: string)
    ensures Chained(lib, lines + [line]) <==> Chained(lib, lines) && FaultAt(lib, lines + [line], |lines|) == None
  {
    hide Decode;
    var all := lines + [line];
    forall k | 0 <= k < |lines| ensures FaultAt(lib, all, k) == FaultAt(lib, lines, k) {}
    if Chained(lib, all) {
      forall k | 0 <= k < |lines| ensures FaultAt(lib, lines, k) == None { assert FaultAt(lib, all, k) == None; }
    }
  }

  lemma {:induction false} LinesOfAppended(data: string, line: string)
    requires Framed(data) && LF !in line
    ensures Framed(data + line + [LF]) && LinesOf(data + line + [LF]) == LinesOf(data) + [line]
  {
    TerminateSnoc(LinesOf(data), line);
    LinesOfTerminate(LinesOf(data) + [line]);
  }

  /**
   An append adds exactly one line after the old bytes.  The grown ledger verifies exactly when the
   record read back from that line is still valid.
   */
  lemma {:induction false} AppendAddsOneRecord(lib: Library, data: string, q: Request)
    requires Sound(lib) && NextLine(lib, data, q).Some?
    ensures Framed(data) && data < Appended(lib, data, q)
    ensures Framed(Appended(lib, data, q))
    ensures LinesOf(Appended(lib, data, q)) == LinesOf(data) + [NextLine(lib, data, q).value]
    ensures NextRecord(lib, data, q).Some?
    ensures Intact(lib, Appended(lib, data, q)) <==> RecordFault(lib, ReadBack(lib, NextRecord(lib, data, q).value)) == None
  {
    hide LinesOf, VerifySpec, PreviousLine, RecordFault, NextRecord, NextLine, Chained;
    NextLineFacts(lib, data, q);
    var r := NextRecord(lib, data, q).value;
    var line := NextLine(lib, data, q).value;
    var lines := LinesOf(data);
    LinesOfAppended(data, line);
    ChainedSnoc(lib, lines, line);
    assert lines != [] ==> (lines + [line])[|lines| - 1] == lines[|lines| - 1];
  }

  /** With a note the codec leaves alone, appending keeps the ledger verifying. */
  lemma {:induction false} CleanAppendVerifies(lib: Library, data: string, q: Request)
    requires Sound(lib) && NextLine(lib, data, q).Some? && lib.cleanText(q.note) == q.note
    ensures Intact(lib, Appended(lib, data, q))
  {
    hide LinesOf, VerifySpec, PreviousLine, RecordFault, NextRecord, NextLine, Chained, Appended;
    NextLineFacts(lib, data, q);
    AppendAddsOneRecord(lib, data, q);
  }

  /**
   With any other note the append succeeds and the ledger no longer verifies, unless SHA-256 fails to
   tell the two notes or the two statements apart.
   */
  lemma {:induction false} UncleanAppendBreaksLedger(lib: Library, data: string, q: Request)
    requires Sound(lib) && NextLine(lib, data, q).Some? && lib.cleanText(q.note) != q.note
    ensures NextRecord(lib, data, q).Some?
    ensures Intact(lib, Appended(lib, data, q)) ==>
              var r := NextRecord(lib, data, q).value;
              var s := ReadBack(lib, r);
              || lib.sha(r.note) == lib.sha(s.note)
              || (Message(StatementOf(lib, r)) != Message(StatementOf(lib, s))
                  && lib.sha(Message(StatementOf(lib, r))) == lib.sha(Message(StatementOf(lib, s))))
  {
    hide LinesOf, VerifySpec, PreviousLine, NextRecord, NextLine, Chained, Appended, Message, FieldFault;
    NextLineFacts(lib, data, q);
    AppendAddsOneRecord(lib, data, q);
    var r := NextRecord(lib, data, q).value;
    if Message(StatementOf(lib, r)) == Message(StatementOf(lib, ReadBack(lib, r))) && Intact(lib, Appended(lib, data, q)) {
      StatementFixesRecord(lib, r, ReadBack(lib, r));
    }
  }

  /** A crash or an error during the write leaves a proper prefix of the new line; the verifier reports it. */
  lemma {:induction false} TornAppendIsDetected(lib: Library, data: string, q: Request, k: nat)
    requires Sound(lib) && NextLine(lib, data, q).Some?
    requires 0 < k <= |NextLine(lib, data, q).value|
    ensures VerifySpec(lib, data + NextLine(lib, data, q).value[..k]) == Rejected(PartialFinalRecord)
  {
    hide LinesOf, NextRecord, NextLine, Chained;
    NextLineFacts(lib, data, q);
    var line := NextLine(lib, data, q).value;
    assert line[k - 1] in line;
  }

  /**
   A disturbed append leaves the ledger as it was, or grown by the whole line, or torn in just the way that is
   detected: unopened or changed meanwhile, nothing is written; stopped, the first bytes of the line, never all; and
   otherwise the line, synced or not.
   */
  lemma {:induction false} DisturbedAppend(lib: Library, data: string, q: Request, d: Disturbance)
    requires Sound(lib) && Intact(lib, data)
    ensures var after := Written(lib, data, q, d);
            match NextLine(lib, data, q)
            case None => after == data
            case Some(line) =>
              match d
              case Unopened => after == data
              case ChangedMeanwhile => after == data
              case WriteStops(k) =>
                && data <= after < data + line + "\n" && |after| == |data| + (if k <= |line| then k else |line|)
                && (after == data || VerifySpec(lib, after) == Rejected(PartialFinalRecord))
              case Calm => after == data + line + "\n"
              case SyncFails => after == data + line + "\n"
  {
    hide LinesOf, NextRecord, NextLine, Chained, VerifySpec, Sound;
    if NextLine(lib, data, q).Some? && d.WriteStops? && d.k > 0 {
      var line := NextLine(lib, data, q).value;
      NextLineFacts(lib, data, q);
      var k := if d.k <= |line| then d.k else |line|;
      assert (line + [LF])[..k] == line[..k];
      LineNotEmpty(line);
      TornAppendIsDetected(lib, data, q, k);
    }
  }

  lemma {:induction false} LineNotEmpty(line: string)
    requires IsLine(line)
    ensures |line| > 0
  {
  }

  // ------------------------------------------------ runs of appends

  function Run(lib: Library, data: string, qs: seq<Request>): string
    decreases |qs|
  {
    if qs == [] then data else Run(lib, Appended(lib, data, qs[0]), qs[1..])
  }

  /** How many of the requests are accepted. */
  function Accepted(lib: Library, data: string, qs: seq<Request>): nat
    decreases |qs|
  {
    if qs == [] then 0
    else (if NextLine(lib, data, qs[0]).Some? then 1 else 0) + Accepted(lib, Appended(lib, data, qs[0]), qs[1..])
  }

  ghost predicate CleanNotes(lib: Library, qs: seq<Request>) {
    forall i :: 0 <= i < |qs| ==> lib.cleanText(qs[i].note) == qs[i].note
  }

  ghost predicate NoCR(lines: seq<string>) {
    forall i :: 0 <= i < |lines| ==> CR !in lines[i]
  }

  /**
   Any run of appends keeps the ledger verifying and free of CR, keeps the old bytes as a prefix and
   adds one record for each accepted request.
   */
  lemma {:induction false} RunKeepsLedger(lib: Library, data: string, qs: seq<Request>)
    requires Sound(lib) && CleanNotes(lib, qs) && Intact(lib, data)
    ensures Intact(lib, Run(lib, data, qs)) && data <= Run(lib, data, qs)
    ensures |LinesOf(Run(lib, data, qs))| == |LinesOf(data)| + Accepted(lib, data, qs)
    ensures NoCR(LinesOf(data)) ==> NoCR(LinesOf(Run(lib, data, qs)))
    decreases |qs|
  {
    hide LinesOf, NextRecord, NextLine, Chained, VerifySpec, Sound;
    if qs != [] {
      var next := Appended(lib, data, qs[0]);
      if NextLine(lib, data, qs[0]).Some? {
        CleanAppendVerifies(lib, data, qs[0]);
        AppendAddsOneRecord(lib, data, qs[0]);
        NextLineFacts(lib, data, qs[0]);
      }
      RunKeepsLedger(lib, next, qs[1..]);
    }
  }

  lemma {:induction false} EmptyIsIntact(lib: Library)
    ensures Intact(lib, "") && NoCR(LinesOf(""))
  {
    Empty();
  }

  /** A checkpoint taken at any point of a ledger's life is accepted at every later point. */
  lemma {:induction false} CheckpointSurvivesAppends(lib: Library, before: seq<Request>, after: seq<Request>,
      key: string)
    requires Sound(lib) && CleanNotes(lib, before) && CleanNotes(lib, after)
    requires BuildCheckpoint(lib, Run(lib, "", before), key).Some?
    ensures var original := Run(lib, "", before);
            LedgerCheckpoint.Accepted(lib, Run(lib, original, after), BuildCheckpoint(lib, original, key).value, lib.publicKey(key))
  {
    hide LinesOf, Run, VerifySpec, Sound, LedgerCheckpoint.Accepted, BuildCheckpoint, Chained;
    EmptyIsIntact(lib);
    RunKeepsLedger(lib, "", before);
    var original := Run(lib, "", before);
    RunKeepsLedger(lib, original, after);
    CheckpointKeepsVerifying(lib, original, key, Run(lib, original, after));
  }
}
