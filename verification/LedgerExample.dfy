/** A library with which ledgers really grow, and the two inputs on which the ledger breaks its promises. */
module LedgerExample {
  import opened Common
  import opened Lines
  import opened Statements
  import opened EvidenceLedger
  import opened LedgerCheckpoint
  import opened LedgerAppend

  const SEP := '\0'
  const STRAY := '\U{00FF}' // stands for a byte that is not UTF-8

  const ZEROS := Repeat('0', 64)
  const ONES := Repeat('1', 64)

  // ------------------------------------------------ times and notes

  function FormatTime(t: Timestamp): string {
    if !t.utc then "local"
    else if t.nanos < 0 then "-" + Decimal(-t.nanos)
    else "+" + Decimal(t.nanos)
  }

  function ParseTime(s: string): Timestamp {
    if s == "" || !IsDigits(s[1..]) then Timestamp(0, true)
    else
      var nanos: int := Value(s[1..]);
      Timestamp(if s[0] == '-' then -nanos else nanos, true)
  }

  lemma {:induction false} TimeReadsBack(t: Timestamp)
    requires t.utc
    ensures ParseTime(FormatTime(t)) == t
    ensures forall i :: 0 <= i < |FormatTime(t)| ==> FormatTime(t)[i] in "+-0123456789"
  {
    hide Decimal, Value;
    var digits := Decimal(if t.nanos < 0 then -t.nanos else t.nanos);
    assert FormatTime(t)[1..] == digits;
    forall i | 0 <= i < |digits| ensures digits[i] in "0123456789" {
      DigitIn(digits[i]);
    }
  }

  lemma {:induction false} DigitIn(c: char)
    requires '0' <= c <= '9'
    ensures c in "0123456789"
  {
    assert c == "0123456789"[(c - '0') as int];
  }

  function Clean(s: string): (c: string)
    ensures |c| == |s|
    ensures forall i :: 0 <= i < |s| ==> c[i] == if s[i] == STRAY then '?' else s[i]
  {
    seq(|s|, i requires 0 <= i < |s| => if s[i] == STRAY then '?' else s[i])
  }

  // ------------------------------------------------ a codec

  function Parts(r: Record): seq<string> {
    [Decimal(r.sequence), FormatTime(r.recordedAt), r.event, r.objectKind, r.objectSha, r.previousSha, r.recordSha, Clean(r.note)]
  }

  function EncodeRecord(r: Record): Option<string> {
    if FieldFault(r) == None && IsSha256(r.recordSha) then Some(Join(Parts(r), SEP)) else None
  }

  /** One CR before the record is passed over, as JSON passes over white space. */
  function DecodeRecord(s: string): Option<Record> {
    if s != "" && s[0] == CR then DecodeParts(Split(s[1..], SEP)) else DecodeParts(Split(s, SEP))
  }

  function DecodeParts(ps: seq<string>): Option<Record> {
    if |ps| != 8 || !IsDigits(ps[0]) then None
    else Some(Record(LEDGER_SCHEMA, Value(ps[0]), ParseTime(ps[1]), ps[2], ps[4], ps[3], ps[5], ps[6], ps[7]))
  }

  predicate Plain(s: string) {
    forall i :: 0 <= i < |s| ==> s[i] != SEP && s[i] != CR && s[i] != LF
  }

  lemma {:induction false} HexIsPlain(s: string)
    requires IsHex(s)
    ensures Plain(s)
  {
  }

  lemma {:induction false} EventIsPlain(s: string)
    requires s in EVENTS
    ensures Plain(s)
  {
  }

  lemma {:induction false} KindIsPlain(s: string)
    requires s in KINDS
    ensures Plain(s)
  {
  }

  lemma {:induction false} PartsArePlain(r: Record)
    requires FieldFault(r) == None && IsSha256(r.recordSha)
    ensures forall k :: 0 <= k < 8 ==> Plain(Parts(r)[k])
  {
    hide Decimal, FormatTime, IsHex;
    TimeReadsBack(r.recordedAt);
    HexIsPlain(r.objectSha);
    HexIsPlain(r.previousSha);
    HexIsPlain(r.recordSha);
    EventIsPlain(r.event);
    KindIsPlain(r.objectKind);
    assert Plain(Decimal(r.sequence));
    assert Plain(Clean(r.note));
  }

  lemma {:induction false} JoinIsLine(parts: seq<string>)
    requires |parts| >= 1 && forall k :: 0 <= k < |parts| ==> Plain(parts[k])
    ensures LF !in Join(parts, SEP) && CR !in Join(parts, SEP)
  {
    if |parts| > 1 {
      JoinIsLine(parts[1..]);
    }
  }

  lemma {:induction false} PartsReadBack(r: Record)
    requires FieldFault(r) == None && IsSha256(r.recordSha)
    ensures DecodeParts(Parts(r)) == Some(r.(note := Clean(r.note)))
  {
    hide Decimal, FormatTime, ParseTime, IsHex;
    TimeReadsBack(r.recordedAt);
  }

  lemma {:induction false} RecordReadsBack(r: Record)
    requires EncodeRecord(r).Some?
    ensures var line := EncodeRecord(r).value;
            && IsLine(line)
            && DecodeRecord(line) == Some(r.(note := Clean(r.note)))
            && DecodeRecord([CR] + line) == Some(r.(note := Clean(r.note)))
  {
    hide FieldFault, Decimal, Join, Split, DecodeParts;
    var line := EncodeRecord(r).value;
    var ps := Parts(r);
    PartsArePlain(r);
    JoinIsLine(ps);
    forall p | p in ps ensures SEP !in p {
      var k :| 0 <= k < 8 && ps[k] == p;
      assert Plain(ps[k]);
    }
    SplitOfJoin(ps, SEP);
    PartsReadBack(r);
    JoinNotEmpty(ps);
    assert ([CR] + line)[1..] == line;
    assert line[0] in line;
  }

  lemma {:induction false} JoinNotEmpty(parts: seq<string>)
    requires |parts| >= 2
    ensures Join(parts, SEP) != ""
  {
  }

  // ------------------------------------------------ the library

  const NOTE := [STRAY]
  const TIME := Timestamp(1, true)
  const REQUEST := Request("bundle-created", "evidence-bundle", ZEROS, NOTE, TIME)

  /** The first record with the stray note, and with the note as it is read back, as statements. */
  function Statement(noteSha: string): Document {
    LedgerRecord(1, FormatTime(TIME), "bundle-created", "evidence-bundle", ZEROS, ZERO_LINK, noteSha)
  }

  /** A hash that tells the two notes apart, and the statements about them. */
  function Sha(s: string): string {
    if s == NOTE || s == Message(Statement(ONES)) then ONES else ZEROS
  }

  function Sample(): Library {
    Library(s => Sha(s), t => FormatTime(t), r => EncodeRecord(r), s => DecodeRecord(s), s => Clean(s),
            k => if |k| == 64 then k[..32] else "", (_, _) => Repeat('0', 128), (_, _, _) => true)
  }

  lemma {:induction false} RepeatIsHex(c: char, n: nat)
    requires c == '0' || c == '1'
    ensures IsHex(Repeat(c, n))
  {
  }

  /** What the ledger lemmas assume can be had. */
  lemma {:induction false} SampleIsSound()
    ensures Sound(Sample())
  {
    hide FieldFault, EncodeRecord, DecodeRecord, FormatTime, ParseTime, Message, Clean, IsHex;
    var lib := Sample();
    RepeatIsHex('0', 64);
    RepeatIsHex('1', 64);
    RepeatIsHex('0', 128);
    forall t: Timestamp | t.utc ensures LF !in lib.formatTime(t) {
      TimeReadsBack(t);
    }
    forall t: Timestamp, u: Timestamp | t.utc && u.utc && lib.formatTime(t) == lib.formatTime(u) ensures t == u {
      TimeReadsBack(t);
      TimeReadsBack(u);
    }
    forall r | RecordFault(lib, r) == None && lib.encode(r).Some?
      ensures IsLine(lib.encode(r).value) && lib.decode(lib.encode(r).value) == Some(r.(note := lib.cleanText(r.note)))
    {
      RecordReadsBack(r);
    }
  }

  // ------------------------------------------------ the first append

  /** The record `REQUEST` becomes on an empty ledger. */
  function FirstRecord(note: string): Record {
    var r := Record(LEDGER_SCHEMA, 1, TIME, "bundle-created", ZEROS, "evidence-bundle", ZERO_LINK, "", note);
    r.(recordSha := StatementSha(Sample(), r))
  }

  predicate PlainNote(note: string) {
    Plain(note) && |note| <= 1000
  }

  lemma {:induction false} ZeroLinkIsHash()
    ensures IsSha256(ZERO_LINK) && IsSha256(ZEROS) && IsSha256(ONES)
  {
    RepeatIsHex('0', 64);
    RepeatIsHex('1', 64);
    forall i | 0 <= i < 64 ensures ZERO_LINK[i] == '0' {
    }
  }

  lemma {:induction false} FirstIsValid(note: string)
    requires PlainNote(note)
    ensures FieldFault(FirstRecord(note)) == None && RecordFault(Sample(), FirstRecord(note)) == None
  {
    hide Message, FormatTime;
    ZeroLinkIsHash();
    assert "bundle-created" == EVENTS[0] && "evidence-bundle" == KINDS[1];
  }

  lemma {:induction false} JoinLength(parts: seq<string>, n: nat)
    requires |parts| >= 1 && forall k :: 0 <= k < |parts| ==> |parts[k]| <= n
    ensures |Join(parts, SEP)| <= |parts| * (n + 1)
  {
    if |parts| > 1 {
      JoinLength(parts[1..], n);
    }
  }

  lemma {:induction false} FirstLineIsShort(note: string)
    requires PlainNote(note)
    ensures |Join(Parts(FirstRecord(note)), SEP)| <= 8008
  {
    hide Message, Join, StatementSha;
    ZeroLinkIsHash();
    FirstIsValid(note);
    assert Decimal(1) == "1" && FormatTime(TIME) == "+1";
    var ps := Parts(FirstRecord(note));
    assert |FirstRecord(note).recordSha| == 64 by { FirstSha(note); }
    JoinLength(ps, 1000);
  }

  lemma {:induction false} FirstSha(note: string)
    ensures |FirstRecord(note).recordSha| == 64
  {
    hide Message;
  }

  /** The request is accepted on an empty ledger whatever its note says. */
  lemma {:induction false} FirstIsAppended(note: string)
    requires PlainNote(note)
    ensures var q := REQUEST.(note := note);
            && NextRecord(Sample(), "", q) == Some(FirstRecord(note))
            && NextLine(Sample(), "", q) == EncodeRecord(FirstRecord(note))
            && EncodeRecord(FirstRecord(note)).Some?
  {
    hide Message, Join, StatementSha, FormatTime, Parts;
    FirstIsValid(note);
    FirstLineIsShort(note);
    BuiltFirst(note);
    Empty();
    EmptyIsIntact(Sample());
    hide FieldFault, RecordFault, BuildRecord, FirstRecord;
    FirstIsMarshalled(note);
    assert VerifySpec(Sample(), "") == Verified(0, 0, "", "");
  }

  lemma {:induction false} FirstIsMarshalled(note: string)
    requires PlainNote(note)
    ensures Marshal(Sample(), FirstRecord(note)) == EncodeRecord(FirstRecord(note)) && EncodeRecord(FirstRecord(note)).Some?
    ensures EncodeRecord(FirstRecord(note)).value == Join(Parts(FirstRecord(note)), SEP)
  {
    FirstIsValid(note);
    hide FirstRecord, FieldFault, StatementSha, Parts, Join;
  }

  lemma {:induction false} BuiltFirst(note: string)
    requires PlainNote(note)
    ensures BuildRecord(Sample(), 1, TIME, "bundle-created", "evidence-bundle", ZEROS, "", note) == Ok(FirstRecord(note))
  {
    hide Message, FormatTime;
    ZeroLinkIsHash();
    assert "bundle-created" == EVENTS[0] && "evidence-bundle" == KINDS[1];
  }

  /** An ordinary append: a ledger of one record, verified, and checkpointed. */
  lemma {:induction false} OrdinaryAppend()
    ensures Intact(Sample(), Appended(Sample(), "", REQUEST.(note := "ok")))
    ensures LinesOf("") == [] && |Appended(Sample(), "", REQUEST.(note := "ok"))| > 0
  {
    hide Intact, NextLine, NextRecord, EncodeRecord, FirstRecord, Sound, Sample;
    SampleIsSound();
    FirstIsAppended("ok");
    Empty();
    NoStray("ok");
    CleanAppendVerifies(Sample(), "", REQUEST.(note := "ok"));
  }

  lemma {:induction false} NoStray(s: string)
    requires STRAY !in s
    ensures Sample().cleanText(s) == s
  {
    assert Clean(s) == s;
  }

  // ------------------------------------------------ the failing inputs

  /** The append with a stray byte in its note succeeds on the empty ledger, which then no longer verifies. */
  lemma {:induction false} StrayNoteBreaksLedger()
    ensures NextLine(Sample(), "", REQUEST).Some?
    ensures !Intact(Sample(), Appended(Sample(), "", REQUEST)) && Appended(Sample(), "", REQUEST) != ""
  {
    hide Intact, NextLine, NextRecord, EncodeRecord, FirstRecord, Sound, Message, Sha;
    SampleIsSound();
    FirstIsAppended(NOTE);
    assert REQUEST.(note := NOTE) == REQUEST;
    assert Sample().cleanText(NOTE) == "?";
    UncleanAppendBreaksLedger(Sample(), "", REQUEST);
    NotesDiffer();
    StatementsDiffer();
    FirstStatement(NOTE);
    FirstStatement("?");
    assert ReadBack(Sample(), FirstRecord(NOTE)).note == "?" by { FirstNote(NOTE); }
    assert StatementOf(Sample(), ReadBack(Sample(), FirstRecord(NOTE))) == Statement(ZEROS) by { ReadBackStatement(); }
  }

  lemma {:induction false} FirstNote(note: string)
    ensures FirstRecord(note).note == note
  {
    hide StatementSha;
  }

  lemma {:induction false} NotesDiffer()
    ensures Sha(NOTE) == ONES && Sha("?") == ZEROS && ONES != ZEROS
  {
    assert ONES[0] != ZEROS[0];
    assert "?"[0] != NOTE[0];
    MessageIsLong(Statement(ONES));
  }

  lemma {:induction false} MessageIsLong(d: Document)
    ensures |Message(d)| > 1
  {
    TerminateAtLeastOnePerLine(Fields(d));
  }

  lemma {:induction false} StatementsDiffer()
    ensures Message(Statement(ONES)) != Message(Statement(ZEROS))
    ensures Sha(Message(Statement(ONES))) == ONES && Sha(Message(Statement(ZEROS))) == ZEROS
  {
    hide Message;
    ZeroLinkIsHash();
    TimeReadsBack(TIME);
    assert ONES[0] != ZEROS[0];
    assert "bundle-created" == EVENTS[0] && "evidence-bundle" == KINDS[1];
    if Message(Statement(ONES)) == Message(Statement(ZEROS)) {
      MessagesAreInjective(Statement(ONES), Statement(ZEROS));
    }
    MessageIsLong(Statement(ZEROS));
  }

  lemma {:induction false} FirstStatement(note: string)
    ensures StatementOf(Sample(), FirstRecord(note)) == Statement(Sha(note))
  {
    hide Sha, StatementSha, FormatTime;
  }

  lemma {:induction false} ReadBackStatement()
    ensures StatementOf(Sample(), ReadBack(Sample(), FirstRecord(NOTE))) == Statement(ZEROS)
  {
    hide StatementSha, FormatTime, Sha;
    NotesDiffer();
    assert Clean(NOTE) == "?";
  }

  /** A ledger with a CR before its only record verifies, is checkpointed, and fails its own checkpoint. */
  lemma {:induction false} ReturnBreaksCheckpoint()
    ensures var lib, key := Sample(), Repeat('k', 64);
            exists ledger :: Intact(lib, ledger) && BuildCheckpoint(lib, ledger, key).Some?
                             && !LedgerCheckpoint.Accepted(lib, ledger, BuildCheckpoint(lib, ledger, key).value, lib.publicKey(key))
  {
    hide Intact, BuildCheckpoint, LedgerCheckpoint.Accepted, EncodeRecord, DecodeRecord, FirstRecord, Sound, Sample, FieldFault,
         RecordFault;
    var lib, key := Sample(), Repeat('k', 64);
    var r := FirstRecord("ok");
    SampleIsSound();
    FirstIsAppended("ok");
    FirstIsValid("ok");
    FirstIsReadBack();
    FirstOfChain("ok");
    ReturnBeforeTheRecord(lib, r, EncodeRecord(r).value, key);
  }

  lemma {:induction false} SampleCodec(r: Record, s: string)
    ensures Sample().encode(r) == EncodeRecord(r) && Sample().decode(s) == DecodeRecord(s)
  {
    hide EncodeRecord, DecodeRecord;
  }

  lemma {:induction false} FirstIsReadBack()
    ensures var r := FirstRecord("ok");
            && EncodeRecord(r).Some? && Sample().encode(r) == EncodeRecord(r)
            && Sample().decode([CR] + EncodeRecord(r).value) == Some(r)
  {
    hide EncodeRecord, DecodeRecord, FirstRecord, Sample, NextRecord, NextLine;
    var r := FirstRecord("ok");
    FirstIsAppended("ok");
    FirstNote("ok");
    CleanOk();
    RecordReadsBack(r);
    SampleCodec(r, [CR] + EncodeRecord(r).value);
  }

  lemma {:induction false} CleanOk()
    ensures Clean("ok") == "ok"
  {
  }

  lemma {:induction false} FirstOfChain(note: string)
    ensures FirstRecord(note).sequence == 1 && FirstRecord(note).previousSha == ZERO_LINK
  {
    hide StatementSha;
  }
}
