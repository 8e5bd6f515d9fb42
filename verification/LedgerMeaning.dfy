/**
 The ledger and its checkpoints in the words of their format: which records and ledgers are valid, which requests are
 recorded and how, and which checkpoints are made and accepted.
 */
module LedgerMeaning {
  import opened Common
  import opened Lines
  import opened Statements
  import opened StatementTexts
  import opened EvidenceLedger
  import opened LedgerCheckpoint
  import opened LedgerAppend

  // ------------------------------------------------ records

  const NO_LINK := Repeat('0', 64)

  predicate KnownEvent(event: string) {
    || event == "bundle-created" || event == "bundle-imported" || event == "bundle-verified" || event == "bundle-signed"
    || event == "trust-store-installed"
  }

  predicate KnownKind(kind: string) {
    || kind == "evidence-manifest" || kind == "evidence-bundle" || kind == "evidence-signature" || kind == "evidence-trust-store"
    || kind == "evidence-trust-update"
  }

  predicate PlainNote(note: string) {
    forall c :: c in note ==> c != '\0' && c != '\r' && c != '\n'
  }

  /** The text a record's own hash is over. */
  function RecordText(lib: Library, r: Record): string {
    "aaa-evidence-ledger-v1" + "\n" + Decimal(r.sequence) + "\n" + lib.formatTime(r.recordedAt) + "\n" + r.event + "\n" + r.objectKind + "\n"
    + r.objectSha + "\n" + r.previousSha + "\n" + lib.sha(r.note) + "\n"
  }

  predicate GoodFields(r: Record) {
    && r.schema == "aaa-evidence-ledger-v1" && r.sequence >= 1 && r.recordedAt.nanos != 0 && r.recordedAt.utc
    && KnownEvent(r.event) && KnownKind(r.objectKind) && Digest(r.objectSha) && Digest(r.previousSha) && PlainNote(r.note)
  }

  predicate GoodRecord(lib: Library, r: Record) {
    GoodFields(r) && Digest(r.recordSha) && r.recordSha == lib.sha(RecordText(lib, r))
  }

  lemma {:induction false} FieldsByTheWords(r: Record)
    ensures FieldFault(r) == None <==> GoodFields(r)
  {
    hide IsSha256, Digest;
    Sha256IsDigest(r.objectSha);
    Sha256IsDigest(r.previousSha);
    assert EVENTS == ["bundle-created", "bundle-imported", "bundle-verified", "bundle-signed", "trust-store-installed"];
    KnownByList(r.event, r.objectKind);
  }

  lemma {:induction false} KnownByList(event: string, kind: string)
    ensures event in EVENTS <==> KnownEvent(event)
    ensures kind in KINDS <==> KnownKind(kind)
  {
    assert EVENTS[0] == "bundle-created" && EVENTS[1] == "bundle-imported" && EVENTS[2] == "bundle-verified" && EVENTS[3] == "bundle-signed"
           && EVENTS[4] == "trust-store-installed";
    assert KINDS[0] == "evidence-manifest" && KINDS[1] == "evidence-bundle" && KINDS[2] == "evidence-signature"
           && KINDS[3] == "evidence-trust-store" && KINDS[4] == "evidence-trust-update";
  }

  lemma {:induction false} RecordByTheWords(lib: Library, r: Record)
    ensures RecordFault(lib, r) == None <==> GoodRecord(lib, r)
    ensures StatementSha(lib, r) == lib.sha(RecordText(lib, r))
  {
    hide IsSha256, Digest, FieldFault, GoodFields, Message, RecordText;
    FieldsByTheWords(r);
    Sha256IsDigest(r.recordSha);
    TextOfRecord(lib, r);
  }

  lemma {:induction false} TextOfRecord(lib: Library, r: Record)
    ensures Message(StatementOf(lib, r)) == RecordText(lib, r)
  {
    hide Message, Decimal;
    MessageIsText(StatementOf(lib, r));
  }

  // ------------------------------------------------ ledgers

  /** Line k is a good record with number k + 1, linked to the line before it. */
  ghost predicate GoodLine(lib: Library, lines: seq<string>, k: nat)
    requires k < |lines|
  {
    && lines[k] != "" && lib.decode(lines[k]).Some?
    && var r := lib.decode(lines[k]).value;
       && GoodRecord(lib, r) && r.sequence == k + 1
       && r.previousSha == if k == 0 then NO_LINK else lib.sha(lines[k - 1] + "\n")
  }

  lemma {:induction false} LineByTheWords(lib: Library, lines: seq<string>, k: nat)
    requires k < |lines|
    ensures FaultAt(lib, lines, k) == None <==> GoodLine(lib, lines, k)
    ensures FaultAt(lib, lines, k) == None ==> Decode(lib, lines[k]) == lib.decode(lines[k])
  {
    hide RecordFault, GoodRecord;
    if lib.decode(lines[k]).Some? {
      RecordByTheWords(lib, lib.decode(lines[k]).value);
    }
    assert NO_LINK == ZERO_LINK by { SameLink(); }
  }

  lemma {:induction false} SameLink()
    ensures NO_LINK == ZERO_LINK
  {
    forall i | 0 <= i < 64 ensures ZERO_LINK[i] == '0' {
    }
  }

  /** Verification succeeds exactly for such ledgers, and then reports their length and the hashes of their last line. */
  lemma {:induction false} VerifiedByTheWords(lib: Library, data: string)
    ensures VerifySpec(lib, data).Verified? <==>
            Framed(data) && forall k :: 0 <= k < |LinesOf(data)| ==> GoodLine(lib, LinesOf(data), k)
    ensures VerifySpec(lib, data).Verified? ==>
              var lines := LinesOf(data);
              VerifySpec(lib, data) ==
              if lines == [] then Verified(0, 0, "", "")
              else Verified(|lines|, |lines|, lib.sha(lines[|lines| - 1] + "\n"),
                            if lib.decode(lines[|lines| - 1]).Some? then lib.decode(lines[|lines| - 1]).value.recordSha else "")
  {
    hide LinesOf, FaultAt, GoodLine, Decode;
    VerifiedExactlyIntact(lib, data);
    if Framed(data) {
      var lines := LinesOf(data);
      forall k | 0 <= k < |lines| ensures FaultAt(lib, lines, k) == None <==> GoodLine(lib, lines, k) {
        LineByTheWords(lib, lines, k);
      }
      if Chained(lib, lines) && lines != [] {
        ChainedLast(lib, lines);
        LineByTheWords(lib, lines, |lines| - 1);
      }
    }
  }

  /** What is wrong with line k, when nothing was wrong before. */
  ghost predicate Wrong(lib: Library, lines: seq<string>, k: nat, why: LineFault)
    requires k < |lines|
  {
    match why
    case PartialFinalRecord => false
    case BlankRecord(i) => i == k && lines[k] == ""
    case UndecodableRecord(i) =>
      i == k && lines[k] != "" && (lib.decode(lines[k]) == None || !GoodRecord(lib, lib.decode(lines[k]).value))
    case WrongSequence(i, got) =>
      && i == k && lines[k] != "" && lib.decode(lines[k]).Some? && GoodRecord(lib, lib.decode(lines[k]).value)
      && got == lib.decode(lines[k]).value.sequence && got != k + 1
    case BrokenLink(i) =>
      && i == k && lines[k] != "" && lib.decode(lines[k]).Some? && GoodRecord(lib, lib.decode(lines[k]).value)
      && lib.decode(lines[k]).value.sequence == k + 1
      && lib.decode(lines[k]).value.previousSha != if k == 0 then NO_LINK else lib.sha(lines[k - 1] + "\n")
  }

  lemma {:induction false} WrongIsReported(lib: Library, lines: seq<string>, k: nat, why: LineFault)
    requires k < |lines|
    ensures FaultAt(lib, lines, k) == Some(why) <==> Wrong(lib, lines, k, why)
  {
    hide RecordFault, GoodRecord;
    SameLink();
    if lib.decode(lines[k]).Some? {
      RecordByTheWords(lib, lib.decode(lines[k]).value);
    }
  }

  lemma {:induction false} FirstIsReported(lib: Library, lines: seq<string>, i: nat, k: nat)
    requires i <= k < |lines| && FaultAt(lib, lines, k).Some? && forall j :: i <= j < k ==> FaultAt(lib, lines, j) == None
    ensures FirstFault(lib, lines, i) == FaultAt(lib, lines, k)
    decreases k - i
  {
    hide FaultAt;
    if i < k {
      FirstIsReported(lib, lines, i + 1, k);
    }
  }

  /** A rejected ledger is rejected for what is wrong with its first bad line, or for its unfinished last one. */
  lemma {:induction false} RejectedByTheWords(lib: Library, data: string, k: nat, why: LineFault)
    ensures !Framed(data) ==> VerifySpec(lib, data) == Rejected(PartialFinalRecord)
    ensures Framed(data) && k < |LinesOf(data)| && (forall j :: 0 <= j < k ==> GoodLine(lib, LinesOf(data), j)) && Wrong(lib, LinesOf(data), k, why) ==>
              VerifySpec(lib, data) == Rejected(why)
  {
    hide LinesOf, FaultAt, GoodLine, Wrong;
    if Framed(data) {
      var lines := LinesOf(data);
      if k < |lines| && (forall j :: 0 <= j < k ==> GoodLine(lib, lines, j)) && Wrong(lib, lines, k, why) {
        WrongIsReported(lib, lines, k, why);
        forall j | 0 <= j < k ensures FaultAt(lib, lines, j) == None {
          LineByTheWords(lib, lines, j);
        }
        FirstIsReported(lib, lines, 0, k);
      }
    }
  }

  // ------------------------------------------------ requests

  /** A request as a record: what was asked for, numbered and linked behind the ledger so far. */
  function AsRecord(lib: Library, data: string, q: Request): Record
    requires Framed(data)
  {
    var lines := LinesOf(data);
    var r := Record("aaa-evidence-ledger-v1", |lines| + 1, q.recordedAt.(utc := true), q.event, q.objectSha, q.kind,
                    if lines == [] then NO_LINK else lib.sha(lines[|lines| - 1] + "\n"), "", q.note);
    r.(recordSha := lib.sha(RecordText(lib, r)))
  }

  /** A request that can be recorded. */
  predicate Recordable(q: Request) {
    q.recordedAt.nanos != 0 && KnownEvent(q.event) && KnownKind(q.kind) && Digest(q.objectSha) && PlainNote(q.note)
  }

  lemma {:induction false} RecordOfRequest(lib: Library, data: string, q: Request)
    requires Sound(lib) && VerifySpec(lib, data).Verified? && |data| <= 67108864
    ensures Framed(data)
    ensures NextRecord(lib, data, q) == if Recordable(q) then Some(AsRecord(lib, data, q)) else None
  {
    hide LinesOf, VerifySpec, PreviousLine, FieldFault, RecordText, Digest, Message, GoodFields, Terminate;
    VerifiedExactlyIntact(lib, data);
    SameLink();
    var lines := LinesOf(data);
    if data == "" {
      Empty();
    } else {
      PreviousLineIsLastLine(data);
    }
    assert lines == [] <==> data == "" by { EmptyOrLines(data); }
    BuiltFromRequest(lib, data, q);
  }

  lemma {:induction false} EmptyOrLines(data: string)
    requires Framed(data)
    ensures LinesOf(data) == [] <==> data == ""
  {
  }

  lemma {:induction false} BuiltFromRequest(lib: Library, data: string, q: Request)
    requires Sound(lib) && Framed(data) && (data == "" <==> LinesOf(data) == [])
    requires data != "" ==> PreviousLine(data) == LinesOf(data)[|LinesOf(data)| - 1] + [LF]
    ensures BuildRecord(lib, |LinesOf(data)| + 1, q.recordedAt, q.event, q.kind, q.objectSha, PreviousLine(data), q.note).Ok? <==> Recordable(q)
    ensures Recordable(q) ==>
              BuildRecord(lib, |LinesOf(data)| + 1, q.recordedAt, q.event, q.kind, q.objectSha, PreviousLine(data), q.note)
              == Ok(AsRecord(lib, data, q))
  {
    hide LinesOf, FieldFault, RecordText, Digest, Message, Terminate, LastIndex, KnownEvent, KnownKind, IsSha256;
    SameLink();
    var lines := LinesOf(data);
    var previous := if lines == [] then NO_LINK else lib.sha(lines[|lines| - 1] + "\n");
    var draft := Record("aaa-evidence-ledger-v1", |lines| + 1, q.recordedAt.(utc := true), q.event, q.objectSha, q.kind, previous, "", q.note);
    FieldsByTheWords(draft);
    assert Digest(previous) by { LinkIsDigest(lib, previous, lines); }
    RecordByTheWords(lib, draft);
    hide StatementSha;
  }

  lemma {:induction false} LinkIsDigest(lib: Library, link: string, lines: seq<string>)
    requires Sound(lib) && link == if lines == [] then NO_LINK else lib.sha(lines[|lines| - 1] + "\n")
    ensures Digest(link)
  {
    SameLink();
    Sha256IsDigest(link);
    if lines == [] {
      forall i | 0 <= i < 64 ensures '0' <= ZERO_LINK[i] <= '9' { assert ZERO_LINK[i] == '0'; }
    }
  }

  /** An append is accepted exactly for a valid ledger with room, and a recordable request; the line is that record's. */
  lemma {:induction false} AppendedExactly(lib: Library, data: string, q: Request)
    requires Sound(lib)
    ensures NextLine(lib, data, q).Some? <==>
            && |data| <= 67108864 && VerifySpec(lib, data).Verified? && Framed(data) && Recordable(q)
            && lib.encode(AsRecord(lib, data, q)).Some?
            && |data| + |lib.encode(AsRecord(lib, data, q)).value| + 1 <= 67108864
    ensures NextLine(lib, data, q).Some? ==> Framed(data) && NextLine(lib, data, q) == lib.encode(AsRecord(lib, data, q))
  {
    hide VerifySpec, NextRecord, AsRecord, Recordable, RecordFault;
    if |data| <= 67108864 && VerifySpec(lib, data).Verified? {
      RecordOfRequest(lib, data, q);
      if Recordable(q) {
        AsRecordIsGood(lib, data, q);
      }
    } else {
      assert NextRecord(lib, data, q) == None by { NoRecord(lib, data, q); }
    }
  }

  lemma {:induction false} NoRecord(lib: Library, data: string, q: Request)
    requires |data| > 67108864 || !VerifySpec(lib, data).Verified?
    ensures NextRecord(lib, data, q) == None
  {
    hide VerifySpec;
  }

  lemma {:induction false} AsRecordIsGood(lib: Library, data: string, q: Request)
    requires Sound(lib) && Framed(data) && Recordable(q)
    ensures RecordFault(lib, AsRecord(lib, data, q)) == None
  {
    hide LinesOf, RecordFault, Digest, FieldFault;
    var r := AsRecord(lib, data, q);
    LinkIsDigest(lib, r.previousSha, LinesOf(data));
    assert Digest(r.recordSha) by { Sha256IsDigest(r.recordSha); }
    RecordByTheWords(lib, r);
  }

  /** The requests of a run that are accepted. */
  function AcceptedRequests(lib: Library, data: string, qs: seq<Request>): seq<Request>
    decreases |qs|
  {
    if qs == [] then []
    else (if NextLine(lib, data, qs[0]).Some? then [qs[0]] else []) + AcceptedRequests(lib, Appended(lib, data, qs[0]), qs[1..])
  }

  /** Line k of the ledger reads as this request. */
  ghost predicate Records(lib: Library, lines: seq<string>, k: nat, q: Request)
    requires k < |lines|
  {
    && lib.decode(lines[k]).Some?
    && var r := lib.decode(lines[k]).value;
       && r.sequence == k + 1 && r.event == q.event && r.objectKind == q.kind && r.objectSha == q.objectSha
       && r.recordedAt == q.recordedAt.(utc := true) && r.note == q.note
  }

  ghost predicate RecordsAll(lib: Library, lines: seq<string>, from: nat, qs: seq<Request>) {
    |lines| == from + |qs| && forall i :: 0 <= i < |qs| ==> Records(lib, lines, from + i, qs[i])
  }

  lemma {:induction false} LineRecords(lib: Library, data: string, q: Request)
    requires Sound(lib) && Intact(lib, data) && lib.cleanText(q.note) == q.note && NextLine(lib, data, q).Some?
    ensures Framed(Appended(lib, data, q))
    ensures var lines := LinesOf(Appended(lib, data, q));
            |lines| == |LinesOf(data)| + 1 && lines[..|LinesOf(data)|] == LinesOf(data) && Records(lib, lines, |LinesOf(data)|, q)
  {
    hide LinesOf, VerifySpec, NextRecord, NextLine, Chained, RecordText, RecordFault, Recordable;
    AppendAddsOneRecord(lib, data, q);
    AppendedExactly(lib, data, q);
    AsRecordIsGood(lib, data, q);
    var r := AsRecord(lib, data, q);
    assert lib.decode(lib.encode(r).value) == Some(r.(note := lib.cleanText(r.note)));
  }

  lemma {:induction false} RecordsFirst(lib: Library, lines: seq<string>, longer: seq<string>, from: nat, q: Request, qs: seq<Request>)
    requires |lines| == from + 1 && Records(lib, lines, from, q) && lines <= longer && RecordsAll(lib, longer, from + 1, qs)
    ensures RecordsAll(lib, longer, from, [q] + qs)
  {
    assert longer[from] == lines[from];
    forall i | 0 <= i < |[q] + qs| ensures Records(lib, longer, from + i, ([q] + qs)[i]) {
      if i > 0 {
        assert Records(lib, longer, from + 1 + (i - 1), qs[i - 1]);
      }
    }
  }

  /** Over any run of appends, the ledger goes on with exactly the accepted requests, in order, each as it was asked for. */
  lemma {:induction false} RunRecordsRequests(lib: Library, data: string, qs: seq<Request>)
    requires Sound(lib) && CleanNotes(lib, qs) && Intact(lib, data)
    ensures Framed(Run(lib, data, qs))
    ensures LinesOf(data) <= LinesOf(Run(lib, data, qs))
    ensures RecordsAll(lib, LinesOf(Run(lib, data, qs)), |LinesOf(data)|, AcceptedRequests(lib, data, qs))
    decreases |qs|
  {
    hide LinesOf, NextRecord, NextLine, Chained, VerifySpec, Sound, Records;
    if qs != [] {
      var next := Appended(lib, data, qs[0]);
      var more := AcceptedRequests(lib, next, qs[1..]);
      if NextLine(lib, data, qs[0]).Some? {
        CleanAppendVerifies(lib, data, qs[0]);
        LineRecords(lib, data, qs[0]);
        RunRecordsRequests(lib, next, qs[1..]);
        RecordsFirst(lib, LinesOf(next), LinesOf(Run(lib, next, qs[1..])), |LinesOf(data)|, qs[0], more);
      } else {
        RunRecordsRequests(lib, next, qs[1..]);
        assert [] + more == more;
      }
    }
  }

  // ------------------------------------------------ checkpoints

  function CheckpointText(c: Checkpoint): string {
    "aaa-evidence-ledger-checkpoint-v1" + "\n" + "ed25519" + "\n" + Decimal(c.sequence) + "\n" + c.tailLine + "\n" + c.tailRecord + "\n"
    + c.signer + "\n"
  }

  lemma {:induction false} CheckpointByTheWords(c: Checkpoint)
    ensures MessageOf(c) == CheckpointText(c)
  {
    hide Message, Decimal;
    MessageIsText(Document.LedgerCheckpoint(c.sequence, c.tailLine, c.tailRecord, c.signer));
  }

  /** The checkpoint is well formed and signed with this public key. */
  predicate SignedBy(lib: Library, c: Checkpoint, publicKey: string) {
    && c.schema == "aaa-evidence-ledger-checkpoint-v1" && c.algorithm == "ed25519" && c.sequence >= 1
    && Digest(c.tailLine) && Digest(c.tailRecord) && Digest(c.signer)
    && |c.signature| == 128 && (forall x :: x in c.signature ==> x in "0123456789abcdef")
    && |publicKey| == 32 && c.signer == lib.sha(publicKey)
    && lib.checkSignature(publicKey, CheckpointText(c), c.signature)
  }

  /** The ledger has a record at that number, on a line without CR, with the two hashes. */
  ghost predicate Covers(lib: Library, ledger: string, c: Checkpoint) {
    && Framed(ledger) && 1 <= c.sequence <= |LinesOf(ledger)|
    && var line := LinesOf(ledger)[c.sequence - 1];
       && '\r' !in line && lib.decode(line).Some?
       && c.tailLine == lib.sha(line + "\n") && c.tailRecord == lib.decode(line).value.recordSha
  }

  /** A checkpoint is accepted exactly if it is signed, the ledger is valid, and the ledger has that very record there. */
  lemma {:induction false} AcceptedByTheWords(lib: Library, ledger: string, c: Checkpoint, publicKey: string)
    ensures LedgerCheckpoint.Accepted(lib, ledger, c, publicKey) <==>
            SignedBy(lib, c, publicKey) && VerifySpec(lib, ledger).Verified? && Covers(lib, ledger, c)
  {
    hide LinesOf, VerifySpec, MessageOf, CheckpointText, Digest, IsSha256, IsHex, Decode;
    CheckpointByTheWords(c);
    Sha256IsDigest(c.tailLine);
    Sha256IsDigest(c.tailRecord);
    Sha256IsDigest(c.signer);
    Sha256IsDigest(c.signature);
    VerifiedExactlyIntact(lib, ledger);
    if VerifySpec(lib, ledger).Verified? && 1 <= c.sequence <= |LinesOf(ledger)| {
      LineAt(lib, ledger, c.sequence - 1);
    }
    EmptyOrLinesIfFramed(ledger);
  }

  lemma {:induction false} EmptyOrLinesIfFramed(data: string)
    ensures Framed(data) ==> (LinesOf(data) == [] <==> data == "")
  {
    if Framed(data) {
      EmptyOrLines(data);
    }
  }

  lemma {:induction false} LineAt(lib: Library, ledger: string, k: nat)
    requires Intact(lib, ledger) && k < |LinesOf(ledger)|
    ensures LinesOf(ledger)[k] != "" && LF !in LinesOf(ledger)[k]
    ensures Decode(lib, LinesOf(ledger)[k]).Some? && Decode(lib, LinesOf(ledger)[k]) == lib.decode(LinesOf(ledger)[k])
  {
    hide LinesOf, FaultAt;
    LinesAreLines(lib, ledger);
    assert FaultAt(lib, LinesOf(ledger), k) == None;
    LineByTheWords(lib, LinesOf(ledger), k);
    FaultlessDecodes(lib, LinesOf(ledger), k);
  }

  lemma {:induction false} FaultlessDecodes(lib: Library, lines: seq<string>, k: nat)
    requires k < |lines| && FaultAt(lib, lines, k) == None
    ensures Decode(lib, lines[k]).Some?
  {
    hide Decode;
  }

  /** A checkpoint is made exactly of a valid ledger with records: of its last one, signed with the key. */
  lemma {:induction false} BuiltByTheWords(lib: Library, ledger: string, key: string, c: Checkpoint)
    ensures BuildCheckpoint(lib, ledger, key) == Some(c) <==>
            && |key| == 64 && |lib.publicKey(key)| == 32 && VerifySpec(lib, ledger).Verified? && Framed(ledger) && LinesOf(ledger) != []
            && var last := LinesOf(ledger)[|LinesOf(ledger)| - 1];
               && lib.decode(last).Some?
               && c.schema == "aaa-evidence-ledger-checkpoint-v1" && c.algorithm == "ed25519" && c.sequence == |LinesOf(ledger)|
               && c.tailLine == lib.sha(last + "\n") && c.tailRecord == lib.decode(last).value.recordSha
               && c.signer == lib.sha(lib.publicKey(key)) && c.signature == lib.sign(key, CheckpointText(c))
  {
    hide LinesOf, VerifySpec, MessageOf, CheckpointText, Decode;
    CheckpointByTheWords(c);
    VerifiedByTheWords(lib, ledger);
    VerifiedExactlyIntact(lib, ledger);
    if VerifySpec(lib, ledger).Verified? && LinesOf(ledger) != [] {
      LineAt(lib, ledger, |LinesOf(ledger)| - 1);
      var v := VerifySpec(lib, ledger);
      var d := Checkpoint(CHECKPOINT_SCHEMA, ED25519, v.tailSequence, v.tailLineSha, v.tailRecordSha, lib.sha(lib.publicKey(key)), "");
      CheckpointByTheWords(d);
      SameText(c, d);
    }
  }

  lemma {:induction false} SameText(c: Checkpoint, d: Checkpoint)
    requires d.signature == ""
    ensures c.sequence == d.sequence && c.tailLine == d.tailLine && c.tailRecord == d.tailRecord && c.signer == d.signer ==>
              CheckpointText(c) == CheckpointText(d)
  {
  }
}
