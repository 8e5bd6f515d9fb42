/**
 The byte strings that are hashed or signed: ledger record statements and the messages under
 evidence signatures, trust updates, ledger checkpoints and checkpoint trust updates.  Each is its
 fields, one per LF-terminated line.
 */
module Statements {
  import opened Lines

  const LEDGER_SCHEMA := "aaa-evidence-ledger-v1"
  const CHECKPOINT_SCHEMA := "aaa-evidence-ledger-checkpoint-v1"
  const CHECKPOINT_TRUST_SCHEMA := "aaa-evidence-ledger-checkpoint-trust-update-v1"
  const TRUST_SCHEMA := "aaa-evidence-trust-update-v1"
  const SIGNATURE_SCHEMA := "aaa-evidence-signature-v1"
  const ED25519 := "ed25519"

  const EVENTS := ["bundle-created", "bundle-imported", "bundle-verified", "bundle-signed", "trust-store-installed"]
  const KINDS := ["evidence-manifest", "evidence-bundle", "evidence-signature", "evidence-trust-store", "evidence-trust-update"]

  predicate IsHex(s: string) {
    forall i :: 0 <= i < |s| ==> '0' <= s[i] <= '9' || 'a' <= s[i] <= 'f'
  }

  /** `isSHA256`: 64 lowercase hexadecimal digits. */
  predicate IsSha256(s: string) {
    |s| == 64 && IsHex(s)
  }

  datatype Document =
    | LedgerRecord(sequence: nat, recordedAt: string, event: string, kind: string,
                   objectSha: string, previousSha: string, noteSha: string)
    | LedgerCheckpoint(sequence: nat, tailLine: string, tailRecord: string, signer: string)
    | CheckpointTrustUpdate(sequence: nat, storeSha: string, rootKey: string)
    | TrustUpdate(sequence: nat, storeSha: string, rootKey: string)
    | EvidenceSignature(bundleSha: string, signer: string)

  /** What validation establishes of the fields before a message is formed. */
  predicate Valid(d: Document) {
    match d
    case LedgerRecord(_, recordedAt, event, kind, objectSha, previousSha, noteSha) =>
      && LF !in recordedAt && event in EVENTS && kind in KINDS
      && IsSha256(objectSha) && IsSha256(previousSha) && IsSha256(noteSha)
    case LedgerCheckpoint(_, tailLine, tailRecord, signer) => IsSha256(tailLine) && IsSha256(tailRecord) && IsSha256(signer)
    case CheckpointTrustUpdate(_, storeSha, rootKey) => IsSha256(storeSha) && IsSha256(rootKey)
    case TrustUpdate(_, storeSha, rootKey) => IsSha256(storeSha) && IsSha256(rootKey)
    case EvidenceSignature(bundleSha, signer) => IsSha256(bundleSha) && IsSha256(signer)
  }

  function Fields(d: Document): (fields: seq<string>)
    ensures |fields| >= 4
  {
    match d
    case LedgerRecord(sequence, recordedAt, event, kind, objectSha, previousSha, noteSha) =>
      [LEDGER_SCHEMA, Decimal(sequence), recordedAt, event, kind, objectSha, previousSha, noteSha]
    case LedgerCheckpoint(sequence, tailLine, tailRecord, signer) =>
      [CHECKPOINT_SCHEMA, ED25519, Decimal(sequence), tailLine, tailRecord, signer]
    case CheckpointTrustUpdate(sequence, storeSha, rootKey) =>
      [CHECKPOINT_TRUST_SCHEMA, ED25519, Decimal(sequence), storeSha, rootKey]
    case TrustUpdate(sequence, storeSha, rootKey) => [TRUST_SCHEMA, ED25519, Decimal(sequence), storeSha, rootKey]
    case EvidenceSignature(bundleSha, signer) => [SIGNATURE_SCHEMA, ED25519, bundleSha, signer]
  }

  function Message(d: Document): string {
    Terminate(Fields(d))
  }

  lemma {:induction false} HexHasNoLF(s: string)
    requires IsHex(s)
    ensures LF !in s
  {
  }

  lemma {:induction false} ConstantsHaveNoLF()
    ensures LF !in LEDGER_SCHEMA && LF !in CHECKPOINT_SCHEMA && LF !in CHECKPOINT_TRUST_SCHEMA
    ensures LF !in TRUST_SCHEMA && LF !in SIGNATURE_SCHEMA && LF !in ED25519
  {
  }

  lemma {:induction false} NamesHaveNoLF(s: string)
    requires s in EVENTS || s in KINDS
    ensures LF !in s
  {
  }

  lemma {:induction false} FieldsHaveNoLF(d: Document)
    requires Valid(d)
    ensures forall f :: f in Fields(d) ==> LF !in f
  {
    ConstantsHaveNoLF();
    if !d.EvidenceSignature? { DecimalHasNoLF(d.sequence); }
    match d
    case LedgerRecord(_, _, event, kind, objectSha, previousSha, noteSha) =>
      NamesHaveNoLF(event);
      NamesHaveNoLF(kind);
      HexHasNoLF(objectSha);
      HexHasNoLF(previousSha);
      HexHasNoLF(noteSha);
    case LedgerCheckpoint(_, tailLine, tailRecord, signer) =>
      HexHasNoLF(tailLine);
      HexHasNoLF(tailRecord);
      HexHasNoLF(signer);
    case CheckpointTrustUpdate(_, storeSha, rootKey) =>
      HexHasNoLF(storeSha);
      HexHasNoLF(rootKey);
    case TrustUpdate(_, storeSha, rootKey) =>
      HexHasNoLF(storeSha);
      HexHasNoLF(rootKey);
    case EvidenceSignature(bundleSha, signer) =>
      HexHasNoLF(bundleSha);
      HexHasNoLF(signer);
  }

  lemma {:induction false} FieldsDetermine(a: Document, b: Document)
    requires Fields(a) == Fields(b)
    ensures a == b
  {
    hide Decimal;
    var f, g := Fields(a), Fields(b);
    assert |f| == |g| && f[0] == g[0];
    if !a.EvidenceSignature? && !b.EvidenceSignature? {
      assert f[1] == g[1] && f[2] == g[2];
      if Decimal(a.sequence) == Decimal(b.sequence) { DecimalInjective(a.sequence, b.sequence); }
    }
  }

  /**
   Messages determine their documents, across all five families: nothing signed or hashed as one
   kind of document reads as another, and no field can be shifted into its neighbour.
   */
  lemma {:induction false} MessagesAreInjective(a: Document, b: Document)
    requires Valid(a) && Valid(b) && Message(a) == Message(b)
    ensures a == b
  {
    hide Fields, Valid;
    FieldsHaveNoLF(a);
    FieldsHaveNoLF(b);
    TerminateInjective(Fields(a), Fields(b));
    FieldsDetermine(a, b);
  }
}
