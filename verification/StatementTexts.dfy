/** The signed and hashed messages as the exact texts they are, and what counts as a digest or a number in them. */
module StatementTexts {
  import opened Lines
  import opened Statements

  /** The message under a document, spelled out. */
  function Text(d: Document): string {
    match d
    case LedgerRecord(sequence, recordedAt, event, kind, objectSha, previousSha, noteSha) =>
      "aaa-evidence-ledger-v1" + "\n" + Decimal(sequence) + "\n" + recordedAt + "\n" + event + "\n" + kind + "\n"
      + objectSha + "\n" + previousSha + "\n" + noteSha + "\n"
    case LedgerCheckpoint(sequence, tailLine, tailRecord, signer) =>
      "aaa-evidence-ledger-checkpoint-v1" + "\n" + "ed25519" + "\n" + Decimal(sequence) + "\n" + tailLine + "\n" + tailRecord + "\n"
      + signer + "\n"
    case CheckpointTrustUpdate(sequence, storeSha, rootKey) =>
      "aaa-evidence-ledger-checkpoint-trust-update-v1" + "\n" + "ed25519" + "\n" + Decimal(sequence) + "\n" + storeSha + "\n"
      + rootKey + "\n"
    case TrustUpdate(sequence, storeSha, rootKey) =>
      "aaa-evidence-trust-update-v1" + "\n" + "ed25519" + "\n" + Decimal(sequence) + "\n" + storeSha + "\n" + rootKey + "\n"
    case EvidenceSignature(bundleSha, signer) =>
      "aaa-evidence-signature-v1" + "\n" + "ed25519" + "\n" + bundleSha + "\n" + signer + "\n"
  }

  function LineByLine(lines: seq<string>): string {
    if lines == [] then "" else LineByLine(lines[..|lines| - 1]) + lines[|lines| - 1] + "\n"
  }

  lemma {:induction false} TerminatedLineByLine(lines: seq<string>)
    ensures Terminate(lines) == LineByLine(lines)
  {
    if lines != [] {
      var last := |lines| - 1;
      TerminatedLineByLine(lines[..last]);
      TerminateConcat(lines[..last], [lines[last]]);
      assert lines == lines[..last] + [lines[last]];
      assert Terminate([lines[last]]) == lines[last] + [LF] + Terminate([]);
    }
  }

  lemma {:induction false} Snoc(lines: seq<string>, l: string)
    ensures LineByLine(lines + [l]) == LineByLine(lines) + l + "\n"
  {
    assert (lines + [l])[..|lines|] == lines;
  }

  lemma {:induction false} FourLines(a: string, b: string, c: string, d: string)
    ensures LineByLine([a, b, c, d]) == a + "\n" + b + "\n" + c + "\n" + d + "\n"
  {
    Snoc([], a);
    Snoc([a], b);
    Snoc([a, b], c);
    Snoc([a, b, c], d);
    hide LineByLine;
    assert [] + [a] == [a] && [a] + [b] == [a, b] && [a, b] + [c] == [a, b, c] && [a, b, c] + [d] == [a, b, c, d];
    assert LineByLine([]) == "" by { NoLines(); }
  }

  lemma {:induction false} NoLines()
    ensures LineByLine([]) == ""
  {
  }

  /** Every message is its text: the fields and constants in their order, each ended by a line break. */
  lemma {:induction false} MessageIsText(d: Document)
    ensures Message(d) == Text(d)
  {
    hide LineByLine, Terminate, Decimal;
    var f := Fields(d);
    TerminatedLineByLine(f);
    FourLines(f[0], f[1], f[2], f[3]);
    var four := [f[0], f[1], f[2], f[3]];
    if d.EvidenceSignature? {
      assert f == four;
    } else {
      Snoc(four, f[4]);
      var five := four + [f[4]];
      if |f| == 5 {
        assert f == five;
      } else {
        Snoc(five, f[5]);
        var six := five + [f[5]];
        if |f| == 6 {
          assert f == six;
        } else {
          Snoc(six, f[6]);
          Snoc(six + [f[6]], f[7]);
          assert f == six + [f[6]] + [f[7]];
        }
      }
    }
  }

  // ------------------------------------------------ digests and numbers

  /** A digest: 64 lowercase hexadecimal digits. */
  predicate Digest(s: string) {
    |s| == 64 && forall c :: c in s ==> c in "0123456789abcdef"
  }

  lemma {:induction false} HexDigits(c: char)
    ensures c in "0123456789abcdef" <==> '0' <= c <= '9' || 'a' <= c <= 'f'
  {
    var hex := "0123456789abcdef";
    assert |hex| == 16;
    if '0' <= c <= '9' {
      assert hex[c as int - '0' as int] == c;
    } else if 'a' <= c <= 'f' {
      assert hex[10 + c as int - 'a' as int] == c;
    }
  }

  lemma {:induction false} Sha256IsDigest(s: string)
    ensures IsSha256(s) <==> Digest(s)
    ensures IsHex(s) <==> forall c :: c in s ==> c in "0123456789abcdef"
  {
    forall c | c in s ensures c in "0123456789abcdef" <==> '0' <= c <= '9' || 'a' <= c <= 'f' {
      HexDigits(c);
    }
    if forall c :: c in s ==> c in "0123456789abcdef" {
      forall i | 0 <= i < |s| ensures '0' <= s[i] <= '9' || 'a' <= s[i] <= 'f' {
        assert s[i] in s;
      }
    }
  }

  /** Numbers are written without leading zeros. */
  lemma {:induction false} DecimalHasNoLeadingZero(n: nat)
    ensures n > 0 ==> Decimal(n)[0] != '0'
    ensures n < 10 ==> |Decimal(n)| == 1
  {
    if n >= 10 {
      DecimalHasNoLeadingZero(n / 10);
    }
  }
}
