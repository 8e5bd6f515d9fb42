/**
 The append-only evidence ledger: records and verification (internal/evidenceledger/model.go).

 File contents and text are sequences of characters, one per byte.  SHA-256, time formatting, JSON
 and Ed25519 are the members of a `Library`; what is assumed of them is `Sound`.
 */
module EvidenceLedger {
  import opened Common
  import opened Lines
  import opened Statements

  const ZERO_LINK := "00000000000000000000000000000000" + "00000000000000000000000000000000"
  const CR := '\r'
  const NUL := '\0'

  /** Nanoseconds since year 1, and whether the location is UTC. */
  datatype Timestamp = Timestamp(nanos: int, utc: bool)

  datatype Record = Record(
    schema: string,
    sequence: nat,
    recordedAt: Timestamp,
    event: string,
    objectSha: string,
    objectKind: string,
    previousSha: string,
    recordSha: string,
    note: string)

  datatype Library = Library(
    sha: string -> string,
    formatTime: Timestamp -> string,
    encode: Record -> Option<string>,
    decode: string -> Option<Record>,
    cleanText: string -> string,
    publicKey: string -> string,
    sign: (string, string) -> string,
    checkSignature: (string, string, string) -> bool)

  /**
   Hashes are 64 hex digits.  Formatted UTC times have no LF and determine the time.  The JSON codec
   round-trips a valid record except that a note which is not UTF-8 comes back cleaned; its lines are not
   empty and contain no control characters.  Signatures made with a key check with its public half.
   */
  ghost predicate Sound(lib: Library) {
    && (forall s :: IsSha256(lib.sha(s)))
    && (forall t: Timestamp :: t.utc ==> LF !in lib.formatTime(t))
    && (forall t: Timestamp, u: Timestamp ::
          t.utc && u.utc && lib.formatTime(t) == lib.formatTime(u) ==> t == u)
    && (forall r :: RecordFault(lib, r) == None && lib.encode(r).Some? ==>
          && IsLine(lib.encode(r).value)
          && lib.decode(lib.encode(r).value) == Some(r.(note := lib.cleanText(r.note))))
    && (forall k :: |k| == 64 ==> |lib.publicKey(k)| == 32)
    && (forall k, m :: lib.checkSignature(lib.publicKey(k), m, lib.sign(k, m)))
    && (forall k, m :: |lib.sign(k, m)| == 128 && IsHex(lib.sign(k, m)))
  }

  predicate IsLine(l: string) {
    l != "" && LF !in l && CR !in l
  }

  // ------------------------------------------------ records

  datatype Fault =
    | BadSchema | ZeroSequence | ZeroTime | NotUtc | BadEvent | BadKind | BadObjectSha | BadPreviousSha | BadNote
    | BadRecordSha | RecordShaMismatch
    | FirstHasPrevious | MissingPrevious | NotEncodable

  /** `validateFields`. */
  function FieldFault(r: Record): Option<Fault> {
    if r.schema != LEDGER_SCHEMA then Some(BadSchema)
    else if r.sequence == 0 then Some(ZeroSequence)
    else if r.recordedAt.nanos == 0 then Some(ZeroTime)
    else if !r.recordedAt.utc then Some(NotUtc)
    else if r.event !in EVENTS then Some(BadEvent)
    else if r.objectKind !in KINDS then Some(BadKind)
    else if !IsSha256(r.objectSha) then Some(BadObjectSha)
    else if !IsSha256(r.previousSha) then Some(BadPreviousSha)
    else if NUL in r.note || CR in r.note || LF in r.note then Some(BadNote)
    else None
  }

  function StatementOf(lib: Library, r: Record): Document {
    LedgerRecord(r.sequence, lib.formatTime(r.recordedAt), r.event, r.objectKind, r.objectSha, r.previousSha, lib.sha(r.note))
  }

  /** `statementSHA256`. */
  function StatementSha(lib: Library, r: Record): string {
    lib.sha(Message(StatementOf(lib, r)))
  }

  /** `Validate`. */
  function RecordFault(lib: Library, r: Record): Option<Fault> {
    if FieldFault(r).Some? then FieldFault(r)
    else if !IsSha256(r.recordSha) then Some(BadRecordSha)
    else if r.recordSha != StatementSha(lib, r) then Some(RecordShaMismatch)
    else None
  }

  datatype Built = Ok(record: Record) | Err(fault: Fault)

  /** `BuildRecord`. */
  function BuildRecord(lib: Library, sequence: nat, recordedAt: Timestamp, event: string, kind: string,
                       objectSha: string, previousLine: string, note: string): Built {
    if sequence == 0 then Err(ZeroSequence)
    else if sequence == 1 && previousLine != "" then Err(FirstHasPrevious)
    else if sequence != 1 && previousLine == "" then Err(MissingPrevious)
    else if recordedAt.nanos == 0 then Err(ZeroTime)
    else
      var previous := if sequence == 1 then ZERO_LINK else lib.sha(previousLine);
      var r := Record(LEDGER_SCHEMA, sequence, recordedAt.(utc := true), event, objectSha, kind, previous, "", note);
      if FieldFault(r).Some? then Err(FieldFault(r).value)
      else Ok(r.(recordSha := StatementSha(lib, r)))
  }

  /** `MarshalDeterministic`, without the final LF. */
  function Marshal(lib: Library, r: Record): Option<string> {
    if RecordFault(lib, r).Some? then None else lib.encode(r)
  }

  // ------------------------------------------------ verification

  datatype LineFault =
    | PartialFinalRecord
    | BlankRecord(i: nat)
    | UndecodableRecord(i: nat)
    | WrongSequence(i: nat, got: nat)
    | BrokenLink(i: nat)

  datatype Verification =
    | Verified(records: nat, tailSequence: nat, tailLineSha: string, tailRecordSha: string)
    | Rejected(why: LineFault)

  /** `decodeRecordStrict`. */
  function Decode(lib: Library, line: string): Option<Record> {
    match lib.decode(line)
    case None => None
    case Some(r) => if RecordFault(lib, r).Some? then None else Some(r)
  }

  /** The link a record at index i must carry. */
  function Link(lib: Library, lines: seq<string>, i: nat): string
    requires i <= |lines|
  {
    if i == 0 then ZERO_LINK else lib.sha(lines[i - 1] + [LF])
  }

  function FaultAt(lib: Library, lines: seq<string>, i: nat): Option<LineFault>
    requires i < |lines|
  {
    if lines[i] == "" then Some(BlankRecord(i))
    else
      match Decode(lib, lines[i])
      case None => Some(UndecodableRecord(i))
      case Some(r) =>
        if r.sequence != i + 1 then Some(WrongSequence(i, r.sequence))
        else if r.previousSha != Link(lib, lines, i) then Some(BrokenLink(i))
        else None
  }

  function FirstFault(lib: Library, lines: seq<string>, i: nat): (f: Option<LineFault>)
    requires i <= |lines|
    ensures f == None <==> forall k :: i <= k < |lines| ==> FaultAt(lib, lines, k) == None
    decreases |lines| - i
  {
    if i == |lines| then None
    else if FaultAt(lib, lines, i).Some? then FaultAt(lib, lines, i)
    else FirstFault(lib, lines, i + 1)
  }

  /** Every line is a valid record, numbered from 1, naming the hash of the line before it. */
  ghost predicate Chained(lib: Library, lines: seq<string>) {
    forall k :: 0 <= k < |lines| ==> FaultAt(lib, lines, k) == None
  }

  predicate Framed(data: string) {
    data == "" || data[|data| - 1] == LF
  }

  /** What verification amounts to. */
  ghost predicate Intact(lib: Library, data: string) {
    Framed(data) && Chained(lib, LinesOf(data))
  }

  function Summary(lib: Library, lines: seq<string>): Verification
    requires lines != [] ==> Decode(lib, lines[|lines| - 1]).Some?
  {
    if lines == [] then Verified(0, 0, "", "")
    else
      var last := lines[|lines| - 1];
      var r := Decode(lib, last).value;
      Verified(|lines|, r.sequence, lib.sha(last + [LF]), r.recordSha)
  }

  lemma {:induction false} ChainedLast(lib: Library, lines: seq<string>)
    requires Chained(lib, lines) && lines != []
    ensures Decode(lib, lines[|lines| - 1]).Some?
    ensures Decode(lib, lines[|lines| - 1]).value.sequence == |lines|
  {
    assert FaultAt(lib, lines, |lines| - 1) == None;
  }

  /** `Verify`, given as what the loop stops at first. */
  function VerifySpec(lib: Library, data: string): Verification {
    if !Framed(data) then Rejected(PartialFinalRecord)
    else
      var lines := LinesOf(data);
      match FirstFault(lib, lines, 0)
      case Some(f) => Rejected(f)
      case None =>
        if lines != [] then
          assert FaultAt(lib, lines, |lines| - 1) == None;
          Summary(lib, lines)
        else Summary(lib, [])
  }

  /** `Verify`. */
  method Verify(lib: Library, data: string) returns (result: Verification)
    ensures result == VerifySpec(lib, data)
  {
    hide LinesOf, Decode;
    result := Verified(0, 0, "", "");
    if |data| == 0 {
      assert LinesOf(data) == [] by { Empty(); }
      return;
    }
    if data[|data| - 1] != LF {
      return Rejected(PartialFinalRecord);
    }
    var lines := SplitLines(data);
    var previousLine := "";
    var i := 0;
    while i < |lines|
      invariant 0 <= i <= |lines|
      invariant i > 0 ==> previousLine == lines[i - 1]
      invariant i > 0 ==> Decode(lib, lines[i - 1]).Some? && result == Summary(lib, lines[..i])
      invariant FirstFault(lib, lines, i) == FirstFault(lib, lines, 0)
    {
      var line := lines[i];
      if |line| == 0 {
        return Rejected(BlankRecord(i));
      }
      var decoded := Decode(lib, line);
      if decoded.None? {
        return Rejected(UndecodableRecord(i));
      }
      var record := decoded.value;
      var expectedSequence := i + 1;
      if record.sequence != expectedSequence {
        return Rejected(WrongSequence(i, record.sequence));
      }
      var expectedPrevious := ZERO_LINK;
      if i > 0 {
        expectedPrevious := lib.sha(previousLine + [LF]);
      }
      if record.previousSha != expectedPrevious {
        return Rejected(BrokenLink(i));
      }
      previousLine := line;
      result := Verified(expectedSequence, record.sequence, lib.sha(line + [LF]), record.recordSha);
      i := i + 1;
      assert lines[..i][|lines[..i]| - 1] == line;
    }
    assert lines[..|lines|] == lines;
  }

  lemma {:induction false} Empty()
    ensures LinesOf("") == []
  {
  }

  /** `bytes.Split(data[:len(data)-1], LF)`. */
  method SplitLines(data: string) returns (lines: seq<string>)
    requires data != "" && data[|data| - 1] == LF
    ensures lines == LinesOf(data) && lines != []
  {
    lines := Split(data[..|data| - 1], LF);
  }

  lemma {:induction false} VerifiedExactlyIntact(lib: Library, data: string)
    ensures VerifySpec(lib, data).Verified? <==> Intact(lib, data)
    ensures Intact(lib, data) ==>
              var v := VerifySpec(lib, data);
              v.records == v.tailSequence == |LinesOf(data)|
  {
    hide LinesOf, FaultAt;
    if Intact(lib, data) && LinesOf(data) != [] {
      ChainedLast(lib, LinesOf(data));
    }
  }

  // ------------------------------------------------ tamper evidence

  /** Two ledgers have different lines at one index, and SHA-256 does not tell them apart. */
  ghost predicate CollisionBelow(lib: Library, a: seq<string>, b: seq<string>, n: nat)
    requires n <= |a| && n <= |b|
  {
    exists i :: 0 <= i < n && a[i] + [LF] != b[i] + [LF] && lib.sha(a[i] + [LF]) == lib.sha(b[i] + [LF])
  }

  /**
   Two verified ledgers with equal line hashes at sequence n agree on their first n lines, or two of
   their lines, at the same index, are a SHA-256 collision.
   */
  lemma {:induction false} EqualHashesEqualPrefixes(lib: Library, a: seq<string>, b: seq<string>, n: nat)
    requires Chained(lib, a) && Chained(lib, b) && 1 <= n <= |a| && n <= |b|
    requires lib.sha(a[n - 1] + [LF]) == lib.sha(b[n - 1] + [LF])
    ensures a[..n] == b[..n] || CollisionBelow(lib, a, b, n)
  {
    hide Decode;
    if a[n - 1] + [LF] == b[n - 1] + [LF] {
      assert a[n - 1] == (a[n - 1] + [LF])[..|a[n - 1]|] == b[n - 1];
      if n > 1 {
        assert FaultAt(lib, a, n - 1) == None && FaultAt(lib, b, n - 1) == None;
        assert Link(lib, a, n - 1) == Link(lib, b, n - 1);
        EqualHashesEqualPrefixes(lib, a, b, n - 1);
      }
      if a[..n - 1] == b[..n - 1] {
        assert a[..n] == a[..n - 1] + [a[n - 1]] && b[..n] == b[..n - 1] + [b[n - 1]];
      } else {
        var i :| 0 <= i < n - 1 && a[i] + [LF] != b[i] + [LF] && lib.sha(a[i] + [LF]) == lib.sha(b[i] + [LF]);
      }
    }
  }
}
