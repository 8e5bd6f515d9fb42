/**
 Signature candidates out of a scan result (internal/signaturefactory/generate.go, candidate.go and
 store.go).  Characters are code points here.
 */
module SignatureFactory {
  import opened Common
  import opened ArchiveScan
  import opened Statements

  // ------------------------------------------------ families

  /** `unicode.IsSpace`. */
  predicate IsSpace(c: char) {
    || '\t' <= c <= '\r' || c == ' ' || c == '\U{0085}' || c == '\U{00A0}' || c == '\U{1680}'
    || '\U{2000}' <= c <= '\U{200A}' || c == '\U{2028}' || c == '\U{2029}' || c == '\U{202F}'
    || c == '\U{205F}' || c == '\U{3000}'
  }

  predicate IsSeparator(c: char) {
    c == '.' || c == '_' || c == '-'
  }

  predicate IsKept(c: char) {
    'a' <= c <= 'z' || 'A' <= c <= 'Z' || '0' <= c <= '9' || IsSeparator(c)
  }

  /** `strings.TrimFunc`. */
  function Trim(s: string, cut: char -> bool): string {
    if s != "" && cut(s[0]) then Trim(s[1..], cut)
    else if s != "" && cut(s[|s| - 1]) then Trim(s[..|s| - 1], cut)
    else s
  }

  function TrimSpace(s: string): string {
    Trim(s, IsSpace)
  }

  predicate Blank(s: string) {
    TrimSpace(s) == ""
  }

  /** The character appended for `c`, if any, and whether the text then ends in a separator. */
  function Appended(built: string, separated: bool, c: char): (string, bool) {
    if IsKept(c) then (built + [c], IsSeparator(c))
    else if built != "" && !separated then (built + ['-'], true)
    else (built, separated)
  }

  function Squeeze(value: string, built: string, separated: bool): string
    decreases |value|
  {
    if value == "" then built
    else
      var (next, sep) := Appended(built, separated, value[0]);
      if |next| >= 64 then next else Squeeze(value[1..], next, sep)
  }

  function Sanitized(value: string): string {
    Trim(Squeeze(TrimSpace(value), "", false), IsSeparator)
  }

  predicate ValidFamily(f: string) {
    && f != "" && |f| <= 64 && (forall c :: c in f ==> IsKept(c)) && !IsSeparator(f[0])
  }

  function NormalizedFamily(family: string, fallback: string): string {
    if ValidFamily(Sanitized(family)) then Sanitized(family)
    else if ValidFamily(Sanitized(fallback)) then Sanitized(fallback)
    else "Unknown"
  }

  /** `sanitizeFamily`: one pass, runs of other characters become one dash, at most 64 characters. */
  method SanitizeFamily(value: string) returns (r: string)
    ensures r == Sanitized(value)
  {
    hide Appended, IsKept, IsSpace;
    var text := TrimSpace(value);
    var built, separated := "", false;
    var i := 0;
    ghost var whole := Squeeze(text, "", false);
    assert text[0..] == text;
    while i < |text|
      invariant 0 <= i <= |text|
      invariant Squeeze(text[i..], built, separated) == whole
    {
      assert text[i..][0] == text[i] && text[i..][1..] == text[i + 1..];
      var (next, sep) := Appended(built, separated, text[i]);
      built, separated := next, sep;
      if |built| >= 64 {
        break;
      }
      i := i + 1;
    }
    r := Trim(built, IsSeparator);
  }

  // ------------------------------------------------ candidates

  datatype Kind = FileSha | BootblockSha

  datatype Candidate = Candidate(
    id: string, kind: Kind, malwareName: string, sampleSha: string, bootblockSha: string,
    sampleSize: nat, format: string, detection: string, source: Option<string>, createdAt: int)

  /** `detectionOrName`. */
  function DetectionOrName(detection: string, fallback: string): string {
    if !Blank(detection) then TrimSpace(detection) else TrimSpace(fallback)
  }

  const ID_PREFIX := "AAA.Amiga."

  function CandidateId(family: string, hash: string): string
    requires |hash| >= 16
  {
    ID_PREFIX + family + "." + hash[..16]
  }

  /** The regular expression for candidate identities. */
  predicate WellFormedId(id: string) {
    && |id| >= 28 && id[..10] == ID_PREFIX && ValidFamily(id[10..|id| - 17])
    && id[|id| - 17] == '.' && IsHex(id[|id| - 16..])
  }

  /** `Evidence.Validate` for the evidence a bootblock match yields. */
  predicate ValidEvidence(source: string) {
    && !Blank(source)
    && !HasControlSpace("aaa-native:bootblock-db:" + TrimSpace(source))
  }

  predicate HasControlSpace(s: string) {
    '\r' in s || '\n' in s || '\t' in s
  }

  /** `Candidate.Validate`. */
  predicate ValidCandidate(c: Candidate) {
    && WellFormedId(c.id) && !Blank(c.malwareName) && !Blank(c.detection) && c.createdAt != 0
    && (c.sampleSha == "" || IsSha256(c.sampleSha)) && (c.bootblockSha == "" || IsSha256(c.bootblockSha))
    && (c.source.Some? ==> ValidEvidence(c.source.value))
    && IsSha256(c.sampleSha) && (c.kind == BootblockSha ==> IsSha256(c.bootblockSha))
  }

  /** `NewExactCandidate`; the identity is made of the family and the hash that is matched. */
  function NewExact(family: string, draft: Candidate): Option<Candidate> {
    var hash := if draft.kind == BootblockSha then draft.bootblockSha else draft.sampleSha;
    if draft.createdAt == 0 || !ValidFamily(family) || !IsSha256(hash) then None
    else
      var c := draft.(id := CandidateId(family, hash));
      if ValidCandidate(c) then Some(c) else None
  }

  datatype Outcome = NothingHere | Made(c: Candidate) | Failed

  function OutcomeOf(c: Option<Candidate>): Outcome {
    if c.Some? then Made(c.value) else Failed
  }

  /** The candidate for a bootblock known to be malicious. */
  function BootblockCandidate(n: Node, at: int): Option<Candidate> {
    if !(n.hit.Some? && n.bootblockSha.Some?) then None
    else
      var hit := n.hit.value;
      NewExact(NormalizedFamily(hit.family, hit.name),
               Candidate("", BootblockSha, hit.name, n.sha, n.bootblockSha.value, n.size, n.format,
                         DetectionOrName(n.detection, hit.name), Some(hit.source), at))
  }

  /** The candidate for a file detected by other means. */
  function FileCandidate(n: Node, at: int): Option<Candidate> {
    NewExact(NormalizedFamily("", n.detection),
             Candidate("", FileSha, DetectionOrName(n.detection, "AAA detection"), n.sha, "", n.size, n.format,
                       DetectionOrName(n.detection, "aaa-native-infected"), None, at))
  }

  /** `candidateFromScanNode`. */
  function FromNode(n: Node, at: int): Outcome {
    if !n.infected then NothingHere
    else if IsMalicious(n.hit) then OutcomeOf(BootblockCandidate(n, at))
    else if "archive-member:" <= n.detection then NothingHere
    else OutcomeOf(FileCandidate(n, at))
  }

  function Joined(a: Option<seq<Candidate>>, b: Option<seq<Candidate>>): Option<seq<Candidate>> {
    if a.Some? && b.Some? then Some(a.value + b.value) else None
  }

  function Own(n: Node, at: int): Option<seq<Candidate>> {
    match FromNode(n, at)
    case NothingHere => Some([])
    case Made(c) => Some([c])
    case Failed => None
  }

  /** `candidatesFromMember`: subtrees without the verdict are not entered. */
  function Generated(n: Node, at: int): Option<seq<Candidate>>
    decreases n
  {
    if !n.infected then Some([]) else Joined(Own(n, at), GeneratedAll(n.children, at))
  }

  function GeneratedAll(ns: seq<Node>, at: int): Option<seq<Candidate>>
    decreases ns
  {
    if ns == [] then Some([]) else Joined(Generated(ns[0], at), GeneratedAll(ns[1..], at))
  }

  method CandidatesFromMember(n: Node, at: int) returns (r: Option<seq<Candidate>>)
    ensures r == Generated(n, at)
    decreases n
  {
    hide FromNode;
    if !n.infected {
      return Some([]);
    }
    var candidates: seq<Candidate> := [];
    match FromNode(n, at) {
      case NothingHere =>
      case Made(c) => candidates := [c];
      case Failed => return None;
    }
    var i := 0;
    assert n.children[0..] == n.children;
    while i < |n.children|
      invariant 0 <= i <= |n.children|
      invariant Generated(n, at) == Joined(Some(candidates), GeneratedAll(n.children[i..], at))
    {
      assert n.children[i..][0] == n.children[i] && n.children[i..][1..] == n.children[i + 1..];
      var more := CandidatesFromMember(n.children[i], at);
      if more.None? {
        return None;
      }
      JoinedAssociates(candidates, more.value, GeneratedAll(n.children[i + 1..], at));
      candidates := candidates + more.value;
      i := i + 1;
    }
    assert candidates + [] == candidates;
    r := Some(candidates);
  }

  lemma {:induction false} JoinedAssociates(a: seq<Candidate>, b: seq<Candidate>, c: Option<seq<Candidate>>)
    ensures Joined(Some(a), Joined(Some(b), c)) == Joined(Some(a + b), c)
  {
    if c.Some? {
      assert a + (b + c.value) == (a + b) + c.value;
    }
  }

  // ------------------------------------------------ the store

  type Files = map<string, Candidate>

  /** What `WriteCandidate` accepts: a new identity, or exactly what is stored under it. */
  predicate Accepts(files: Files, c: Candidate) {
    ValidCandidate(c) && (c.id in files ==> files[c.id] == c)
  }

  datatype Recorded = Recorded(written: Option<seq<Candidate>>, files: Files)

  /** The last loop of `RecordScanResult`, from candidate i on; `io` tells which writes the file system lets through. */
  function WriteFrom(cs: seq<Candidate>, i: nat, seen: set<string>, written: seq<Candidate>, files: Files, io: nat -> bool): Recorded
    requires i <= |cs|
    decreases |cs| - i
  {
    if i == |cs| then Recorded(Some(written), files)
    else if cs[i].id in seen then WriteFrom(cs, i + 1, seen, written, files, io)
    else if !Accepts(files, cs[i]) || !io(i) then Recorded(None, files)
    else WriteFrom(cs, i + 1, seen + {cs[i].id}, written + [cs[i]], files[cs[i].id := cs[i]], io)
  }

  function RecordSpec(result: Node, at: int, files: Files, io: nat -> bool): Recorded {
    if !result.infected then Recorded(Some([]), files)
    else if at == 0 then Recorded(None, files)
    else
      match Generated(result, at)
      case None => Recorded(None, files)
      case Some(cs) => WriteFrom(cs, 0, {}, [], files, io)
  }

  class Store {
    var files: Files

    constructor (f: Files)
      ensures files == f
    {
      files := f;
    }

    /** `WriteCandidate`: never replaces what is stored; `io` is whether the file system plays along. */
    method WriteCandidate(c: Candidate, io: bool) returns (ok: bool)
      modifies this
      ensures ok == (Accepts(old(files), c) && io)
      ensures files == if ok then old(files)[c.id := c] else old(files)
    {
      if !ValidCandidate(c) || !io {
        return false;
      }
      if c.id in files {
        ok := files[c.id] == c;
        return;
      }
      files := files[c.id := c];
      ok := true;
    }

    /** `RecordScanResult`. */
    method RecordScanResult(result: Node, at: int, io: nat -> bool) returns (written: Option<seq<Candidate>>)
      modifies this
      ensures Recorded(written, files) == RecordSpec(result, at, old(files), io)
    {
      hide Generated, ValidCandidate;
      if !result.infected {
        return Some([]);
      }
      if at == 0 {
        return None;
      }
      var generated := CandidatesFromMember(result, at);
      if generated.None? {
        return None;
      }
      var cs := generated.value;
      var seen: set<string> := {};
      var kept: seq<Candidate> := [];
      var i := 0;
      ghost var whole := WriteFrom(cs, 0, {}, [], files, io);
      while i < |cs|
        invariant 0 <= i <= |cs|
        invariant WriteFrom(cs, i, seen, kept, files, io) == whole
      {
        if cs[i].id in seen {
          i := i + 1;
          continue;
        }
        var ok := WriteCandidate(cs[i], io(i));
        if !ok {
          return None;
        }
        seen, kept := seen + {cs[i].id}, kept + [cs[i]];
        i := i + 1;
      }
      written := Some(kept);
    }
  }
}
