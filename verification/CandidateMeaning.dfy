/**
 Signature candidates in the words of their format: how a family name is made of any text, what a candidate holds, and what
 recording leaves in the store, success or not.
 */
module CandidateMeaning {
  import opened Common
  import opened ArchiveScan
  import opened ArchiveSafety
  import opened SignatureFactory
  import opened SignatureSafety
  import opened Statements
  import opened StatementTexts

  // ------------------------------------------------ trimming

  /** `t` is what is left of `s` when everything that is cut is taken off both ends. */
  predicate TrimmedTo(s: string, cut: char -> bool, i: nat, j: nat) {
    && i <= j <= |s|
    && (forall k :: 0 <= k < i ==> cut(s[k])) && (forall k :: j <= k < |s| ==> cut(s[k]))
    && (i < j ==> !cut(s[i]) && !cut(s[j - 1]))
  }

  lemma {:induction false} TrimByTheWords(s: string, cut: char -> bool) returns (i: nat, j: nat)
    ensures TrimmedTo(s, cut, i, j) && Trim(s, cut) == s[i..j]
    decreases |s|
  {
    if s != "" && cut(s[0]) {
      i, j := TrimByTheWords(s[1..], cut);
      i, j := i + 1, j + 1;
      assert s[1..][i - 1..j - 1] == s[i..j];
    } else if s != "" && cut(s[|s| - 1]) {
      i, j := TrimByTheWords(s[..|s| - 1], cut);
      assert s[..|s| - 1][i..j] == s[i..j];
    } else {
      i, j := 0, |s|;
    }
  }

  /** Spaces in the sense of Unicode. */
  predicate White(c: char) {
    var n := c as int;
    n in {9, 10, 11, 12, 13, 32, 0x85, 0xA0, 0x1680, 0x2028, 0x2029, 0x202F, 0x205F, 0x3000} || 0x2000 <= n <= 0x200A
  }

  lemma {:induction false} SpaceIsWhite(c: char)
    ensures IsSpace(c) <==> White(c)
  {
  }

  // ------------------------------------------------ family names

  predicate LetterOrDigit(c: char) {
    'a' <= c <= 'z' || 'A' <= c <= 'Z' || '0' <= c <= '9'
  }

  predicate Mark(c: char) {
    c == '.' || c == '_' || c == '-'
  }

  /** All letters, digits and marks in their order, and one dash for what stands between, but not at the start or after a mark. */
  function Squashed(text: string): string {
    if text == "" then ""
    else
      var before, c := Squashed(text[..|text| - 1]), text[|text| - 1];
      if LetterOrDigit(c) || Mark(c) then before + [c]
      else if before == "" || Mark(before[|before| - 1]) then before
      else before + "-"
  }

  function FirstOf(s: string, n: nat): string {
    if |s| <= n then s else s[..n]
  }

  lemma {:induction false} SquashedSnoc(text: string, c: char)
    ensures Squashed(text + [c]) ==
            if LetterOrDigit(c) || Mark(c) then Squashed(text) + [c]
            else if Squashed(text) == "" || Mark(Squashed(text)[|Squashed(text)| - 1]) then Squashed(text)
            else Squashed(text) + "-"
  {
    assert (text + [c])[..|text|] == text;
  }

  lemma {:induction false} SquashedGrows(text: string, more: string)
    ensures Squashed(text) <= Squashed(text + more)
    decreases |more|
  {
    hide LetterOrDigit, Mark;
    if more == "" {
      assert text + more == text;
    } else {
      SquashedGrows(text, more[..|more| - 1]);
      assert text + more == (text + more[..|more| - 1]) + [more[|more| - 1]];
      SquashedSnoc(text + more[..|more| - 1], more[|more| - 1]);
    }
  }

  /** The pass over a text, from the point where `done` has been read. */
  lemma {:induction false} SqueezeIsSquashed(done: string, value: string, separated: bool)
    requires |Squashed(done)| < 64
    requires separated <==> Squashed(done) != "" && Mark(Squashed(done)[|Squashed(done)| - 1])
    ensures Squeeze(value, Squashed(done), separated) == FirstOf(Squashed(done + value), 64)
    decreases |value|
  {
    if value == "" {
      assert done + value == done;
    } else {
      var c := value[0];
      SquashedSnoc(done, c);
      assert done + value == done + [c] + value[1..];
      var (next, sep) := Appended(Squashed(done), separated, c);
      assert next == Squashed(done + [c]) && |next| <= 64;
      if |next| >= 64 {
        SquashedGrows(done + [c], value[1..]);
      } else {
        SqueezeIsSquashed(done + [c], value[1..], sep);
      }
    }
  }

  /** Sanitising: the text without spaces around it is squashed, cut off at 64 characters, and rid of marks at its ends. */
  lemma {:induction false} SanitizedByTheWords(value: string)
    ensures Sanitized(value) == Trim(FirstOf(Squashed(Trim(value, White)), 64), Mark)
  {
    hide Squashed, Trim, Squeeze, White, IsSpace, Mark, IsSeparator;
    var text := TrimSpace(value);
    SameTrim(value, IsSpace, White) by { forall c ensures IsSpace(c) == White(c) { SpaceIsWhite(c); } }
    assert Squashed("") == "" by { NothingSquashed(); }
    SqueezeIsSquashed("", text, false);
    assert "" + text == text;
    SameTrim(FirstOf(Squashed(text), 64), IsSeparator, Mark) by { SeparatorIsMark(); }
  }

  lemma {:induction false} SeparatorIsMark()
    ensures forall c :: IsSeparator(c) == Mark(c)
  {
  }

  lemma {:induction false} NothingSquashed()
    ensures Squashed("") == ""
  {
  }

  lemma {:induction false} SameTrim(s: string, f: char -> bool, g: char -> bool)
    requires forall c :: f(c) == g(c)
    ensures Trim(s, f) == Trim(s, g)
    decreases |s|
  {
    if s != "" && f(s[0]) {
      SameTrim(s[1..], f, g);
    } else if s != "" && f(s[|s| - 1]) {
      SameTrim(s[..|s| - 1], f, g);
    }
  }

  /** A family name: 1 to 64 letters, digits and marks, the first of them no mark. */
  predicate GoodFamily(f: string) {
    1 <= |f| <= 64 && (forall c :: c in f ==> LetterOrDigit(c) || Mark(c)) && LetterOrDigit(f[0])
  }

  lemma {:induction false} FamilyByTheWords(f: string)
    ensures ValidFamily(f) <==> GoodFamily(f)
  {
    if f != "" {
      assert f[0] in f;
    }
  }

  /** The family of a virus: its own sanitised, or else its name, or else "Unknown". */
  lemma {:induction false} NormalizedByTheWords(family: string, fallback: string)
    ensures NormalizedFamily(family, fallback) ==
            if Sanitized(family) != "" then Sanitized(family) else if Sanitized(fallback) != "" then Sanitized(fallback) else "Unknown"
  {
    hide Sanitized;
    SanitizedIsEmptyOrValid(family);
    SanitizedIsEmptyOrValid(fallback);
  }

  // ------------------------------------------------ candidates

  predicate NoBreak(s: string) {
    forall c :: c in s ==> c != '\r' && c != '\n' && c != '\t'
  }

  /** A candidate that may be stored. */
  ghost predicate GoodCandidate(c: Candidate) {
    && (exists family, hash :: GoodFamily(family) && |hash| == 16 && (forall x :: x in hash ==> x in "0123456789abcdef")
                               && c.id == "AAA.Amiga." + family + "." + hash)
    && Trim(c.malwareName, White) != "" && Trim(c.detection, White) != "" && c.createdAt != 0
    && Digest(c.sampleSha)
    && (c.bootblockSha == "" || Digest(c.bootblockSha)) && (c.kind == BootblockSha ==> c.bootblockSha != "")
    && (c.source.Some? ==> Trim(c.source.value, White) != "" && NoBreak(Trim(c.source.value, White)))
  }

  lemma {:induction false} IdByTheWords(id: string)
    ensures WellFormedId(id) <==>
            exists family, hash :: GoodFamily(family) && |hash| == 16 && (forall x :: x in hash ==> x in "0123456789abcdef")
                                   && id == "AAA.Amiga." + family + "." + hash
  {
    hide GoodFamily, ValidFamily, IsHex;
    if WellFormedId(id) {
      var family, hash := id[10..|id| - 17], id[|id| - 16..];
      FamilyByTheWords(family);
      Sha256IsDigest(hash);
      assert id == id[..10] + family + [id[|id| - 17]] + hash;
      assert "AAA.Amiga." + family + "." + hash == id;
    }
    if family, hash :| GoodFamily(family) && |hash| == 16 && (forall x :: x in hash ==> x in "0123456789abcdef")
                       && id == "AAA.Amiga." + family + "." + hash {
      FamilyByTheWords(family);
      Sha256IsDigest(hash);
      assert |family| >= 1 by { FamilySize(family); }
      assert |"AAA.Amiga."| == 10;
      assert id[..10] == "AAA.Amiga." && id[10..|id| - 17] == family && id[|id| - 16..] == hash && id[|id| - 17] == '.';
    }
  }

  lemma {:induction false} FamilySize(f: string)
    requires GoodFamily(f)
    ensures |f| >= 1
  {
  }

  lemma {:induction false} TrimsAlike(s: string)
    ensures TrimSpace(s) == Trim(s, White)
  {
    hide Trim, White, IsSpace;
    SameTrim(s, IsSpace, White) by { forall c ensures IsSpace(c) == White(c) { SpaceIsWhite(c); } }
  }

  lemma {:induction false} KeyByTheWords(source: string)
    ensures ValidEvidence(source) <==> Trim(source, White) != "" && NoBreak(Trim(source, White))
  {
    hide Trim, White, IsSpace;
    TrimsAlike(source);
    var t := TrimSpace(source);
    var key := "aaa-native:bootblock-db:" + t;
    forall c ensures c in key <==> c in "aaa-native:bootblock-db:" || c in t {}
    assert NoBreak("aaa-native:bootblock-db:");
  }

  /** Which candidates are valid. */
  lemma {:induction false} CandidateByTheWords(c: Candidate)
    ensures ValidCandidate(c) <==> GoodCandidate(c)
  {
    hide Trim, White, WellFormedId, GoodFamily, Digest, IsSha256, ValidEvidence, NoBreak;
    IdByTheWords(c.id);
    TrimsAlike(c.malwareName);
    TrimsAlike(c.detection);
    Sha256IsDigest(c.sampleSha);
    Sha256IsDigest(c.bootblockSha);
    if c.source.Some? {
      KeyByTheWords(c.source.value);
    }
    assert !Digest("") by { EmptyIsNoDigest(); }
  }

  lemma {:induction false} EmptyIsNoDigest()
    ensures !Digest("")
  {
  }

  function Named(detection: string, fallback: string): string {
    if Trim(detection, White) != "" then Trim(detection, White) else Trim(fallback, White)
  }

  /** The candidate for an infected bootblock, field by field; it is made if and only if these fields are valid. */
  lemma {:induction false} BootblockByTheWords(n: Node, at: int)
    requires n.hit.Some? && n.bootblockSha.Some?
    ensures var hit, hash := n.hit.value, n.bootblockSha.value;
            var family := NormalizedFamily(hit.family, hit.name);
            var c := Candidate("AAA.Amiga." + family + "." + FirstOf(hash, 16), BootblockSha, hit.name, n.sha, hash, n.size, n.format,
                               Named(n.detection, hit.name), Some(hit.source), at);
            BootblockCandidate(n, at) == if Digest(hash) && GoodCandidate(c) then Some(c) else None
  {
    hide Trim, White, NormalizedFamily, GoodCandidate, ValidCandidate, Digest, IsSha256;
    var hit, hash := n.hit.value, n.bootblockSha.value;
    var family := NormalizedFamily(hit.family, hit.name);
    FamilyIsValid(hit.family, hit.name);
    Sha256IsDigest(hash);
    TrimsAlike(n.detection);
    TrimsAlike(hit.name);
    var c := Candidate("AAA.Amiga." + family + "." + FirstOf(hash, 16), BootblockSha, hit.name, n.sha, hash, n.size, n.format,
                       Named(n.detection, hit.name), Some(hit.source), at);
    CandidateByTheWords(c);
    assert |hash| >= 16 ==> FirstOf(hash, 16) == hash[..16];
    assert Digest(hash) ==> |hash| == 64 by { DigestSize(hash); }
    assert at == 0 ==> !GoodCandidate(c) by { Undated(c); }
  }

  lemma {:induction false} DigestSize(s: string)
    ensures Digest(s) ==> |s| == 64
  {
  }

  lemma {:induction false} Undated(c: Candidate)
    ensures c.createdAt == 0 ==> !GoodCandidate(c)
  {
  }

  /** And for a file found infected by other means. */
  lemma {:induction false} FileByTheWords(n: Node, at: int)
    ensures var family := NormalizedFamily("", n.detection);
            var c := Candidate("AAA.Amiga." + family + "." + FirstOf(n.sha, 16), FileSha, Named(n.detection, "AAA detection"), n.sha, "",
                               n.size, n.format, Named(n.detection, "aaa-native-infected"), None, at);
            FileCandidate(n, at) == if Digest(n.sha) && GoodCandidate(c) then Some(c) else None
  {
    hide Trim, White, NormalizedFamily, GoodCandidate, ValidCandidate, Digest, IsSha256;
    var family := NormalizedFamily("", n.detection);
    FamilyIsValid("", n.detection);
    Sha256IsDigest(n.sha);
    TrimsAlike(n.detection);
    TrimsAlike("AAA detection");
    TrimsAlike("aaa-native-infected");
    var c := Candidate("AAA.Amiga." + family + "." + FirstOf(n.sha, 16), FileSha, Named(n.detection, "AAA detection"), n.sha, "",
                       n.size, n.format, Named(n.detection, "aaa-native-infected"), None, at);
    CandidateByTheWords(c);
    assert |n.sha| >= 16 ==> FirstOf(n.sha, 16) == n.sha[..16];
    assert Digest(n.sha) ==> |n.sha| == 64 by { DigestSize(n.sha); }
    assert at == 0 ==> !GoodCandidate(c) by { Undated(c); }
  }

  // ------------------------------------------------ a whole result

  /** What one result contributes: nothing when it is not infected or only holds an infected member; else its own candidate. */
  lemma {:induction false} NodeByTheWords(n: Node, at: int)
    ensures !n.infected ==> FromNode(n, at) == NothingHere
    ensures n.infected && n.hit.Some? && n.hit.value.status == "known-malicious" ==>
              FromNode(n, at) == if BootblockCandidate(n, at).Some? then Made(BootblockCandidate(n, at).value) else Failed
    ensures n.infected && !(n.hit.Some? && n.hit.value.status == "known-malicious") && "archive-member:" <= n.detection ==>
              FromNode(n, at) == NothingHere
    ensures n.infected && !(n.hit.Some? && n.hit.value.status == "known-malicious") && !("archive-member:" <= n.detection) ==>
              FromNode(n, at) == if FileCandidate(n, at).Some? then Made(FileCandidate(n, at).value) else Failed
  {
    hide BootblockCandidate, FileCandidate;
  }

  /** The infected results that are reached through infected ones only, each before what is below it. */
  function InfectedNodes(n: Node): seq<Node>
    decreases n
  {
    if n.infected then [n] + InfectedAmong(n.children) else []
  }

  function InfectedAmong(ns: seq<Node>): seq<Node>
    decreases ns
  {
    if ns == [] then [] else InfectedNodes(ns[0]) + InfectedAmong(ns[1..])
  }

  /** The candidates of a list of results, all of them or none. */
  function CandidatesOf(ns: seq<Node>, at: int): Option<seq<Candidate>> {
    if ns == [] then Some([])
    else
      match FromNode(ns[0], at)
      case Failed => None
      case NothingHere => CandidatesOf(ns[1..], at)
      case Made(c) =>
        match CandidatesOf(ns[1..], at)
        case None => None
        case Some(cs) => Some([c] + cs)
  }

  lemma {:induction false} CandidatesOfTwo(a: seq<Node>, b: seq<Node>, at: int)
    ensures CandidatesOf(a + b, at) == Joined(CandidatesOf(a, at), CandidatesOf(b, at))
  {
    hide FromNode;
    if a == [] {
      assert a + b == b;
      JoinedEmpty(CandidatesOf(b, at));
    } else {
      assert (a + b)[1..] == a[1..] + b;
      CandidatesOfTwo(a[1..], b, at);
      if FromNode(a[0], at).Made? && CandidatesOf(a[1..], at).Some? {
        JoinedAssociates([FromNode(a[0], at).c], CandidatesOf(a[1..], at).value, CandidatesOf(b, at));
      }
    }
  }

  /** Generation gives the candidates of these results in order, or fails if one of them fails. */
  lemma {:induction false} GeneratedByTheWords(n: Node, at: int)
    ensures Generated(n, at) == CandidatesOf(InfectedNodes(n), at)
    decreases n
  {
    hide FromNode;
    if n.infected {
      AllGeneratedByTheWords(n.children, at);
      CandidatesOfTwo([n], InfectedAmong(n.children), at);
      OneCandidate(n, at);
    }
  }

  lemma {:induction false} OneCandidate(n: Node, at: int)
    ensures CandidatesOf([n], at) == Own(n, at)
  {
    hide FromNode;
    assert [n][1..] == [];
    assert FromNode(n, at).Made? ==> [FromNode(n, at).c] + [] == [FromNode(n, at).c];
  }

  lemma {:induction false} AllGeneratedByTheWords(ns: seq<Node>, at: int)
    ensures GeneratedAll(ns, at) == CandidatesOf(InfectedAmong(ns), at)
    decreases ns
  {
    hide FromNode, Generated, InfectedNodes;
    if ns != [] {
      GeneratedByTheWords(ns[0], at);
      AllGeneratedByTheWords(ns[1..], at);
      CandidatesOfTwo(InfectedNodes(ns[0]), InfectedAmong(ns[1..]), at);
    }
  }

  // ------------------------------------------------ the store

  /** Each identity's first candidate, in order. */
  function Firsts(cs: seq<Candidate>): seq<Candidate> {
    if cs == [] then []
    else
      var front, last := cs[..|cs| - 1], cs[|cs| - 1];
      Firsts(front) + if exists k :: 0 <= k < |front| && front[k].id == last.id then [] else [last]
  }

  function StoredAll(files: Files, cs: seq<Candidate>): Files {
    if cs == [] then files
    else
      var last := cs[|cs| - 1];
      StoredAll(files, cs[..|cs| - 1])[last.id := last]
  }

  /** Candidate k is the first of its identity, and cannot be stored: it is invalid, conflicts, or the write fails. */
  ghost predicate CannotStore(cs: seq<Candidate>, k: nat, files: Files, io: nat -> bool)
    requires k < |cs|
  {
    && (forall j :: 0 <= j < k ==> cs[j].id != cs[k].id)
    && (!GoodCandidate(cs[k]) || (cs[k].id in files && files[cs[k].id] != cs[k]) || !io(k))
  }

  ghost predicate SeenSoFar(cs: seq<Candidate>, i: nat, seen: set<string>)
    requires i <= |cs|
  {
    forall id :: id in seen <==> exists k :: 0 <= k < i && cs[k].id == id
  }

  lemma {:induction false} FirstsSnoc(cs: seq<Candidate>, i: nat)
    requires i < |cs|
    ensures Firsts(cs[..i + 1]) == Firsts(cs[..i]) + if exists k :: 0 <= k < i && cs[k].id == cs[i].id then [] else [cs[i]]
  {
    var longer := cs[..i + 1];
    assert longer[..i] == cs[..i] && longer[i] == cs[i];
    if k :| 0 <= k < i && cs[k].id == cs[i].id {
      assert cs[..i][k].id == cs[i].id;
    }
  }

  lemma {:induction false} StoredSnoc(files: Files, cs: seq<Candidate>, c: Candidate)
    ensures StoredAll(files, cs + [c]) == StoredAll(files, cs)[c.id := c]
  {
    assert (cs + [c])[..|cs|] == cs;
  }

  lemma {:induction false} NewIsNotStored(files: Files, cs: seq<Candidate>, i: nat)
    requires i < |cs| && forall k :: 0 <= k < i ==> cs[k].id != cs[i].id
    ensures var after := StoredAll(files, Firsts(cs[..i]));
            (cs[i].id in after <==> cs[i].id in files) && (cs[i].id in files ==> after[cs[i].id] == files[cs[i].id])
  {
    FirstsAreOf(cs[..i]);
    StoredElsewhere(files, Firsts(cs[..i]), cs[i].id);
  }

  lemma {:induction false} FirstsAreOf(cs: seq<Candidate>)
    ensures forall c :: c in Firsts(cs) ==> exists k :: 0 <= k < |cs| && cs[k] == c
  {
    if cs != [] {
      var front := cs[..|cs| - 1];
      FirstsAreOf(front);
      forall c | c in Firsts(cs) ensures exists k :: 0 <= k < |cs| && cs[k] == c {
        if c in Firsts(front) {
          var k :| 0 <= k < |front| && front[k] == c;
          assert cs[k] == c;
        } else {
          assert cs[|cs| - 1] == c;
        }
      }
    }
  }

  lemma {:induction false} StoredElsewhere(files: Files, cs: seq<Candidate>, id: string)
    requires forall c :: c in cs ==> c.id != id
    ensures var after := StoredAll(files, cs); (id in after <==> id in files) && (id in files ==> after[id] == files[id])
  {
    if cs != [] {
      assert cs[|cs| - 1] in cs;
      StoredElsewhere(files, cs[..|cs| - 1], id);
    }
  }

  /** The writing loop from candidate i on, when nothing failed before. */
  lemma {:induction false} WritingGoesOn(cs: seq<Candidate>, i: nat, seen: set<string>, files: Files, io: nat -> bool)
    requires i <= |cs| && SeenSoFar(cs, i, seen) && forall k :: 0 <= k < i ==> !CannotStore(cs, k, files, io)
    ensures var r := WriteFrom(cs, i, seen, Firsts(cs[..i]), StoredAll(files, Firsts(cs[..i])), io);
            && ((forall k :: 0 <= k < |cs| ==> !CannotStore(cs, k, files, io)) ==>
                  r == Recorded(Some(Firsts(cs)), StoredAll(files, Firsts(cs))))
            && (forall k :: 0 <= k < |cs| && CannotStore(cs, k, files, io) && (forall j :: 0 <= j < k ==> !CannotStore(cs, j, files, io)) ==>
                  r == Recorded(None, StoredAll(files, Firsts(cs[..k]))))
    decreases |cs| - i
  {
    hide GoodCandidate, ValidCandidate, Firsts, StoredAll;
    if i == |cs| {
      assert cs[..i] == cs;
    } else {
      CandidateByTheWords(cs[i]);
      FirstsSnoc(cs, i);
      var before := Firsts(cs[..i]);
      if cs[i].id in seen {
        assert !CannotStore(cs, i, files, io);
        assert Firsts(cs[..i + 1]) == before + [] == before;
        SeenAgain(cs, i, seen);
        WritingGoesOn(cs, i + 1, seen, files, io);
      } else {
        NotSeen(cs, i, seen);
        NewIsNotStored(files, cs, i);
        if CannotStore(cs, i, files, io) {
          OnlyFirst(cs, i, files, io);
        } else {
          StoredSnoc(files, before, cs[i]);
          SeenOneMore(cs, i, seen);
          WritingGoesOn(cs, i + 1, seen + {cs[i].id}, files, io);
        }
      }
    }
  }

  lemma {:induction false} OnlyFirst(cs: seq<Candidate>, i: nat, files: Files, io: nat -> bool)
    requires i < |cs| && CannotStore(cs, i, files, io) && forall k :: 0 <= k < i ==> !CannotStore(cs, k, files, io)
    ensures forall k :: 0 <= k < |cs| && CannotStore(cs, k, files, io) && (forall j :: 0 <= j < k ==> !CannotStore(cs, j, files, io)) ==> k == i
  {
    hide CannotStore;
  }

  lemma {:induction false} SeenAgain(cs: seq<Candidate>, i: nat, seen: set<string>)
    requires i < |cs| && SeenSoFar(cs, i, seen) && cs[i].id in seen
    ensures SeenSoFar(cs, i + 1, seen)
  {
  }

  lemma {:induction false} SeenOneMore(cs: seq<Candidate>, i: nat, seen: set<string>)
    requires i < |cs| && SeenSoFar(cs, i, seen)
    ensures SeenSoFar(cs, i + 1, seen + {cs[i].id})
  {
  }

  lemma {:induction false} NotSeen(cs: seq<Candidate>, i: nat, seen: set<string>)
    requires i < |cs| && SeenSoFar(cs, i, seen) && cs[i].id !in seen
    ensures forall k :: 0 <= k < i ==> cs[k].id != cs[i].id
  {
  }

  /**
   Recording a result: nothing for one that is not infected; otherwise the first candidate of each identity is written in
   order and reported, up to the first that cannot be stored, where it fails and leaves what was written so far.
   */
  lemma {:induction false} RecordedByTheWords(n: Node, at: int, files: Files, io: nat -> bool)
    ensures !n.infected ==> RecordSpec(n, at, files, io) == Recorded(Some([]), files)
    ensures n.infected && (at == 0 || Generated(n, at) == None) ==> RecordSpec(n, at, files, io) == Recorded(None, files)
    ensures n.infected && at != 0 && Generated(n, at).Some? ==>
              var cs := Generated(n, at).value;
              && ((forall k :: 0 <= k < |cs| ==> !CannotStore(cs, k, files, io)) ==>
                    RecordSpec(n, at, files, io) == Recorded(Some(Firsts(cs)), StoredAll(files, Firsts(cs))))
              && (forall k :: 0 <= k < |cs| && CannotStore(cs, k, files, io) && (forall j :: 0 <= j < k ==> !CannotStore(cs, j, files, io)) ==>
                    RecordSpec(n, at, files, io) == Recorded(None, StoredAll(files, Firsts(cs[..k]))))
  {
    hide Generated, CannotStore, WriteFrom, Firsts, StoredAll;
    if n.infected && at != 0 && Generated(n, at).Some? {
      var cs := Generated(n, at).value;
      NothingWritten(cs, files);
      WritingGoesOn(cs, 0, {}, files, io);
    }
  }

  lemma {:induction false} NothingWritten(cs: seq<Candidate>, files: Files)
    ensures Firsts(cs[..0]) == [] && StoredAll(files, []) == files && SeenSoFar(cs, 0, {})
  {
  }
}
