/** Signed checkpoints over a ledger prefix (internal/evidenceledger/checkpoint.go). */
module LedgerCheckpoint {
  import opened Common
  import opened Lines
  import opened Statements
  import opened EvidenceLedger

  datatype Checkpoint = Checkpoint(
    schema: string,
    algorithm: string,
    sequence: nat,
    tailLine: string,
    tailRecord: string,
    signer: string,
    signature: string)

  /** `message`. */
  function MessageOf(c: Checkpoint): string {
    Message(LedgerCheckpoint(c.sequence, c.tailLine, c.tailRecord, c.signer))
  }

  /** `BuildCheckpoint`; none where the source returns an error. */
  function BuildCheckpoint(lib: Library, ledger: string, privateKey: string): Option<Checkpoint> {
    if |privateKey| != 64 then None
    else
      match VerifySpec(lib, ledger)
      case Rejected(_) => None
      case Verified(records, sequence, tailLine, tailRecord) =>
        if records == 0 then None
        else
          var publicKey := lib.publicKey(privateKey);
          if |publicKey| != 32 then None
          else
            var c := Checkpoint(CHECKPOINT_SCHEMA, ED25519, sequence, tailLine, tailRecord, lib.sha(publicKey), "");
            Some(c.(signature := lib.sign(privateKey, MessageOf(c))))
  }

  /** `Checkpoint.Validate`. */
  predicate ValidCheckpoint(c: Checkpoint) {
    && c.schema == CHECKPOINT_SCHEMA && c.algorithm == ED25519
    && c.sequence > 0
    && IsSha256(c.tailLine) && IsSha256(c.tailRecord) && IsSha256(c.signer)
    && |c.signature| == 128 && IsHex(c.signature)
  }

  /** `VerifyCheckpointSignature` succeeds. */
  predicate SignatureAccepted(lib: Library, c: Checkpoint, publicKey: string) {
    && ValidCheckpoint(c)
    && |publicKey| == 32
    && lib.sha(publicKey) == c.signer
    && lib.checkSignature(publicKey, MessageOf(c), c.signature)
  }

  /** `hashesAtSequence`: the line and record hashes of record n.  It also refuses a line with a CR. */
  function HashesAt(lib: Library, ledger: string, n: nat): Option<(string, string)> {
    if n == 0 || ledger == "" || ledger[|ledger| - 1] != LF then None
    else
      var lines := LinesOf(ledger);
      if n > |lines| then None
      else
        var line := lines[n - 1];
        if line == "" || CR in line || LF in line then None
        else
          match Decode(lib, line)
          case None => None
          case Some(r) => Some((lib.sha(line + [LF]), r.recordSha))
  }

  /** `VerifyLedgerAgainstCheckpoint` succeeds. */
  predicate Accepted(lib: Library, ledger: string, c: Checkpoint, publicKey: string) {
    && SignatureAccepted(lib, c, publicKey)
    && VerifySpec(lib, ledger).Verified?
    && VerifySpec(lib, ledger).tailSequence >= c.sequence
    && HashesAt(lib, ledger, c.sequence) == Some((c.tailLine, c.tailRecord))
  }

  lemma {:induction false} CheckpointNamesTail(lib: Library, ledger: string, key: string)
    requires BuildCheckpoint(lib, ledger, key).Some?
    ensures Intact(lib, ledger) && LinesOf(ledger) != []
    ensures var lines := LinesOf(ledger);
            var c := BuildCheckpoint(lib, ledger, key).value;
            && c.sequence == |lines|
            && c.tailLine == lib.sha(lines[|lines| - 1] + [LF])
            && Decode(lib, lines[|lines| - 1]).Some?
            && c.tailRecord == Decode(lib, lines[|lines| - 1]).value.recordSha
  {
    hide LinesOf, FaultAt, Decode;
    VerifiedExactlyIntact(lib, ledger);
    if LinesOf(ledger) != [] {
      ChainedLast(lib, LinesOf(ledger));
    }
  }

  lemma {:induction false} PrefixOfLines(a: seq<string>, b: seq<string>)
    requires a <= b
    ensures Terminate(a) <= Terminate(b)
  {
    assert b == a + b[|a|..];
    TerminateConcat(a, b[|a|..]);
  }

  /**
   A ledger accepted under a checkpoint of L starts with the bytes of L, or some line of L and the
   line at the same index of the accepted ledger are a SHA-256 collision.  No key is trusted here:
   what the signature adds is that the checkpoint itself was not made up.
   */
  lemma {:induction false} AcceptedLedgerExtendsCheckpointed(lib: Library, original: string, key: string,
      ledger: string, publicKey: string)
    requires BuildCheckpoint(lib, original, key).Some?
    requires Accepted(lib, ledger, BuildCheckpoint(lib, original, key).value, publicKey)
    ensures Framed(original) && Framed(ledger)
    ensures |LinesOf(original)| <= |LinesOf(ledger)|
    ensures original <= ledger
            || CollisionBelow(lib, LinesOf(original), LinesOf(ledger), |LinesOf(original)|)
  {
    hide LinesOf, FaultAt, Decode, VerifySpec, SignatureAccepted, BuildCheckpoint, Terminate, CollisionBelow, Chained;
    CheckpointNamesTail(lib, original, key);
    VerifiedExactlyIntact(lib, ledger);
    var a, b := LinesOf(original), LinesOf(ledger);
    EqualHashesEqualPrefixes(lib, a, b, |a|);
    if a[..|a|] == b[..|a|] {
      assert a <= b;
      PrefixOfLines(a, b);
    }
  }

  lemma {:induction false} LinesOfPrefix(a: string, b: string)
    requires Framed(a) && Framed(b) && a <= b
    ensures LinesOf(a) <= LinesOf(b)
  {
    var rest := b[|a|..];
    assert b == a + rest;
    assert rest == "" || rest[|rest| - 1] == b[|b| - 1];
    var lines := LinesOf(a) + LinesOf(rest);
    TerminateConcat(LinesOf(a), LinesOf(rest));
    LinesOfTerminate(lines);
    assert LinesOf(b) == lines;
  }

  lemma {:induction false} BuiltCheckpointIsValid(lib: Library, ledger: string, key: string)
    requires Sound(lib) && BuildCheckpoint(lib, ledger, key).Some?
    ensures SignatureAccepted(lib, BuildCheckpoint(lib, ledger, key).value, lib.publicKey(key))
  {
    CheckpointNamesTail(lib, ledger, key);
    hide VerifySpec, LinesOf, Message;
    var line := LinesOf(ledger)[|LinesOf(ledger)| - 1];
    assert IsSha256(lib.sha(line + [LF]));
    assert RecordFault(lib, Decode(lib, line).value) == None;
  }

  /**
   A checkpoint built from a ledger keeps verifying as the ledger grows, exactly when the
   checkpointed tail line has no CR.  Verification alone lets a CR through as JSON white space, so a
   ledger not written by this program can be checkpointed and then fail its own checkpoint.
   */
  lemma {:induction false} CheckpointKeepsVerifying(lib: Library, original: string, key: string, ledger: string)
    requires Sound(lib) && BuildCheckpoint(lib, original, key).Some?
    requires Intact(lib, ledger) && original <= ledger
    ensures Framed(original) && LinesOf(original) != []
    ensures Accepted(lib, ledger, BuildCheckpoint(lib, original, key).value, lib.publicKey(key))
            <==> CR !in LinesOf(original)[|LinesOf(original)| - 1]
  {
    CheckpointNamesTail(lib, original, key);
    BuiltCheckpointIsValid(lib, original, key);
    VerifiedExactlyIntact(lib, ledger);
    LinesOfPrefix(original, ledger);
    hide LinesOf, FaultAt, Decode, VerifySpec, SignatureAccepted, BuildCheckpoint, Sound, Chained;
    var a, b := LinesOf(original), LinesOf(ledger);
    assert a[|a| - 1] == b[|a| - 1];
    LinesAreLines(lib, original);
    TextNotEmpty(original, ledger);
  }

  /** The failing input: one valid record whose line starts with a CR that the decoder takes for white space. */
  lemma {:induction false} ReturnBeforeTheRecord(lib: Library, r: Record, line: string, key: string)
    requires Sound(lib) && r.sequence == 1 && r.previousSha == ZERO_LINK && RecordFault(lib, r) == None && |key| == 64
    requires lib.encode(r) == Some(line) && lib.decode([CR] + line) == Some(r)
    ensures var ledger := [CR] + line + [LF];
            && Intact(lib, ledger) && BuildCheckpoint(lib, ledger, key).Some?
            && !Accepted(lib, ledger, BuildCheckpoint(lib, ledger, key).value, lib.publicKey(key))
  {
    assert IsLine(line) && |lib.publicKey(key)| == 32 by { LineOfRecord(lib, r, line); }
    hide Sound, RecordFault, VerifySpec, LinesOf, Accepted, BuildCheckpoint, FieldFault, Split, Terminate;
    var ledger := [CR] + line + [LF];
    var only := [CR] + line;
    assert LinesOf(ledger) == [only] by {
      assert LF !in only;
      LinesOfTerminate([only]);
      OneTerminated(only);
    }
    assert Decode(lib, only) == Some(r) && FaultAt(lib, [only], 0) == None;
    VerifiedExactlyIntact(lib, ledger);
    assert BuildCheckpoint(lib, ledger, key).Some? by { Checkpointed(lib, ledger, key); }
    CheckpointKeepsVerifying(lib, ledger, key, ledger);
    assert only[0] == CR;
  }

  lemma {:induction false} LineOfRecord(lib: Library, r: Record, line: string)
    requires Sound(lib) && RecordFault(lib, r) == None && lib.encode(r) == Some(line)
    ensures IsLine(line) && forall k :: |k| == 64 ==> |lib.publicKey(k)| == 32
  {
    hide FieldFault;
    assert RecordFault(lib, r) == None && lib.encode(r).Some?;
  }

  lemma {:induction false} OneTerminated(line: string)
    ensures Terminate([line]) == line + [LF]
  {
    assert [line][1..] == [];
    assert Terminate([]) == "";
  }

  lemma {:induction false} Checkpointed(lib: Library, ledger: string, key: string)
    requires |key| == 64 && |lib.publicKey(key)| == 32 && VerifySpec(lib, ledger).Verified? && VerifySpec(lib, ledger).records > 0
    ensures BuildCheckpoint(lib, ledger, key).Some?
  {
    hide VerifySpec, MessageOf;
  }

  lemma {:induction false} TextNotEmpty(a: string, b: string)
    requires Framed(a) && Framed(b) && a <= b && LinesOf(a) != []
    ensures b != ""
  {
  }

  lemma {:induction false} LinesAreLines(lib: Library, ledger: string)
    requires Intact(lib, ledger)
    ensures forall k :: 0 <= k < |LinesOf(ledger)| ==> LinesOf(ledger)[k] != "" && LF !in LinesOf(ledger)[k]
  {
    hide Decode;
    var lines := LinesOf(ledger);
    forall k | 0 <= k < |lines| ensures lines[k] != "" && LF !in lines[k] {
      assert FaultAt(lib, lines, k) == None && lines[k] in lines;
    }
  }

  /**
   A signature binds every field of a checkpoint: whatever message a key signed, no checkpoint with a
   different sequence, line hash, record hash or signer has that message.
   */
  lemma {:induction false} SignedMessageFixesCheckpoint(c: Checkpoint, d: Checkpoint)
    requires ValidCheckpoint(c) && ValidCheckpoint(d) && MessageOf(c) == MessageOf(d)
    ensures c.(signature := "") == d.(signature := "")
  {
    hide Message;
    MessagesAreInjective(LedgerCheckpoint(c.sequence, c.tailLine, c.tailRecord, c.signer),
                         LedgerCheckpoint(d.sequence, d.tailLine, d.tailRecord, d.signer));
  }

  /** Records with equal statement bytes agree on every field but their own hash, or their notes are a SHA-256 collision. */
  lemma {:induction false} StatementFixesRecord(lib: Library, r: Record, s: Record)
    requires Sound(lib) && FieldFault(r) == None && FieldFault(s) == None
    requires Message(StatementOf(lib, r)) == Message(StatementOf(lib, s))
    ensures r.(recordSha := "", note := "") == s.(recordSha := "", note := "")
    ensures r.note == s.note || (r.note != s.note && lib.sha(r.note) == lib.sha(s.note))
  {
    assert IsSha256(lib.sha(r.note)) && IsSha256(lib.sha(s.note));
    hide Message;
    MessagesAreInjective(StatementOf(lib, r), StatementOf(lib, s));
  }
}
