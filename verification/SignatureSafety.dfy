/** What the signature factory makes of a scan: the infected bootblocks, all of them, in order, and nothing else. */
module SignatureSafety {
  import opened Common
  import opened ArchiveScan
  import opened ArchiveSafety
  import opened SignatureFactory
  import opened Statements

  // ------------------------------------------------ families and identities

  predicate AllKept(s: string) {
    forall c :: c in s ==> IsKept(c)
  }

  lemma {:induction false} SqueezeKeeps(value: string, built: string, separated: bool)
    requires AllKept(built) && |built| < 64
    ensures AllKept(Squeeze(value, built, separated)) && |Squeeze(value, built, separated)| <= 64
    decreases |value|
  {
    if value != "" {
      var (next, sep) := Appended(built, separated, value[0]);
      assert AllKept(next);
      if |next| < 64 {
        SqueezeKeeps(value[1..], next, sep);
      }
    }
  }

  lemma {:induction false} TrimProperties(s: string, cut: char -> bool)
    ensures var t := Trim(s, cut);
            && |t| <= |s| && (forall c :: c in t ==> c in s)
            && (t != "" ==> !cut(t[0]) && !cut(t[|t| - 1]))
  {
    if s != "" && cut(s[0]) {
      TrimProperties(s[1..], cut);
    } else if s != "" && cut(s[|s| - 1]) {
      TrimProperties(s[..|s| - 1], cut);
    }
  }

  lemma {:induction false} TrimTwice(s: string, cut: char -> bool)
    ensures Trim(Trim(s, cut), cut) == Trim(s, cut)
  {
    TrimProperties(s, cut);
  }

  /** Whatever text goes in, sanitising leaves nothing or a valid family. */
  lemma {:induction false} SanitizedIsEmptyOrValid(value: string)
    ensures Sanitized(value) == "" || ValidFamily(Sanitized(value))
  {
    hide IsKept, IsSeparator, IsSpace, Trim, Squeeze;
    SqueezeKeeps(TrimSpace(value), "", false);
    TrimProperties(Squeeze(TrimSpace(value), "", false), IsSeparator);
  }

  lemma {:induction false} FamilyIsValid(family: string, fallback: string)
    ensures ValidFamily(NormalizedFamily(family, fallback))
  {
    hide Sanitized;
  }

  /** A candidate identity spells its family and the first 16 digits of its hash. */
  lemma {:induction false} IdentityDetermines(f: string, h: string, g: string, k: string)
    requires |h| >= 16 && |k| >= 16
    ensures CandidateId(f, h) == CandidateId(g, k) <==> f == g && h[..16] == k[..16]
  {
    IdParts(f, h);
    IdParts(g, k);
  }

  lemma {:induction false} IdParts(f: string, h: string)
    requires |h| >= 16
    ensures var id := CandidateId(f, h);
            |id| == 27 + |f| && id[..10] == ID_PREFIX && id[10..|id| - 17] == f && id[|id| - 17] == '.' && id[|id| - 16..] == h[..16]
  {
    var id := CandidateId(f, h);
    assert |ID_PREFIX| == 10;
    assert id == ID_PREFIX + (f + ("." + h[..16]));
  }

  lemma {:induction false} CandidateIdIsWellFormed(f: string, h: string)
    requires ValidFamily(f) && IsSha256(h)
    ensures WellFormedId(CandidateId(f, h))
  {
    hide ValidFamily, CandidateId;
    assert |f| >= 1 by { FamilyNotEmpty(f); }
    IdParts(f, h);
    assert IsHex(h[..16]) by { HexPrefix(h, 16); }
  }

  lemma {:induction false} FamilyNotEmpty(f: string)
    requires ValidFamily(f)
    ensures |f| >= 1
  {
    assert f != "";
  }

  lemma {:induction false} HexPrefix(h: string, n: nat)
    requires IsHex(h) && n <= |h|
    ensures IsHex(h[..n])
  {
  }

  // ------------------------------------------------ candidates are the infected leaves

  /** A candidate for each leaf, in order, or nothing if one of them cannot be made. */
  function OfLeaves(leaves: seq<Leaf>, at: int): Option<seq<Candidate>> {
    if leaves == [] then Some([])
    else
      match BootblockCandidate(leaves[0].node, at)
      case None => None
      case Some(c) => Joined(Some([c]), OfLeaves(leaves[1..], at))
  }

  lemma {:induction false} OfLeavesConcat(a: seq<Leaf>, b: seq<Leaf>, at: int)
    ensures OfLeaves(a + b, at) == Joined(OfLeaves(a, at), OfLeaves(b, at))
  {
    hide BootblockCandidate;
    if a == [] {
      assert a + b == b;
      if OfLeaves(b, at).Some? {
        assert [] + OfLeaves(b, at).value == OfLeaves(b, at).value;
      }
    } else {
      OfLeavesConcat(a[1..], b, at);
      assert (a + b)[0] == a[0] && (a + b)[1..] == a[1..] + b;
      if BootblockCandidate(a[0].node, at).Some? && OfLeaves(a[1..], at).Some? {
        JoinedAssociates([BootblockCandidate(a[0].node, at).value], OfLeaves(a[1..], at).value, OfLeaves(b, at));
      }
    }
  }

  /** The names on the way do not matter. */
  lemma {:induction false} OfLeavesUnder(name: string, leaves: seq<Leaf>, at: int)
    ensures OfLeaves(Under(name, leaves), at) == OfLeaves(leaves, at)
  {
    hide BootblockCandidate;
    if leaves != [] {
      OfLeavesUnder(name, leaves[1..], at);
      assert Under(name, leaves)[1..] == Under(name, leaves[1..]);
    }
  }

  /** A result that is infected without a malicious bootblock of its own is a container: it yields nothing itself. */
  lemma {:induction false} ContainersYieldNothing(lib: Library, n: Node, at: int)
    requires Told(lib, n) && n.infected && !IsMalicious(n.hit)
    ensures FromNode(n, at) == NothingHere
  {
    hide ToldAll, LeavesOfAll, FileCandidate, BootblockCandidate;
    var leaf := InfectedLeaves(n)[0];
    LeavesBelow(n, leaf);
    assert n.detection == "archive-member:" + (leaf.path[1] + ":" + Spell(leaf.path[1..], leaf.node.hit.value.name));
  }

  lemma {:induction false} LeavesBelow(n: Node, leaf: Leaf)
    requires !IsMalicious(n.hit) && InfectedLeaves(n) != [] && leaf == InfectedLeaves(n)[0]
    ensures |leaf.path| >= 2
  {
    var below := LeavesOfAll(n.children);
    assert InfectedLeaves(n) == Under(n.name, below);
    AllLeavesAreGenuine(n.children);
    assert below[0] in below;
  }

  /** An infected bootblock has no members below it. */
  lemma {:induction false} LeafHasNoMembers(lib: Library, n: Node)
    requires Shaped(lib, n) && IsMalicious(n.hit)
    ensures n.children == [] && n.bootblockSha.Some?
  {
  }

  /** Candidates before removing duplicates are exactly the infected bootblocks of the scan, depth first. */
  lemma {:induction false} CandidatesAreInfectedLeaves(lib: Library, n: Node, at: int)
    requires Told(lib, n)
    ensures Generated(n, at) == OfLeaves(InfectedLeaves(n), at)
    decreases n
  {
    hide FromNode, BootblockCandidate, VerdictFits, Shaped, Told;
    assert VerdictFits(n) && Shaped(lib, n) && ToldAll(lib, n.children) by { TellsAll(lib, n); }
    VerdictOf(n);
    if n.infected {
      if IsMalicious(n.hit) {
        LeafHasNoMembers(lib, n);
        LeafYieldsItself(n, at);
      } else {
        ContainersYieldNothing(lib, n, at);
        AllCandidatesAreLeaves(lib, n.children, at);
        OfLeavesUnder(n.name, LeavesOfAll(n.children), at);
        assert InfectedLeaves(n) == Under(n.name, LeavesOfAll(n.children));
        JoinedEmpty(GeneratedAll(n.children, at));
      }
    }
  }

  lemma {:induction false} TellsAll(lib: Library, n: Node)
    requires Told(lib, n)
    ensures VerdictFits(n) && Shaped(lib, n) && ToldAll(lib, n.children)
  {
    hide VerdictFits, Shaped, ToldAll;
  }

  lemma {:induction false} JoinedEmpty(a: Option<seq<Candidate>>)
    ensures Joined(Some([]), a) == a && Joined(a, Some([])) == a
  {
    if a.Some? {
      assert [] + a.value == a.value && a.value + [] == a.value;
    }
  }

  lemma {:induction false} LeafYieldsItself(n: Node, at: int)
    requires n.infected && IsMalicious(n.hit) && n.children == []
    ensures Generated(n, at) == OfLeaves(InfectedLeaves(n), at)
  {
    hide BootblockCandidate;
    var leaf := Leaf([n.name], n);
    assert LeavesOfAll(n.children) == [] && InfectedLeaves(n) == [leaf];
    assert OfLeaves([leaf][1..], at) == Some([]);
    JoinedEmpty(Own(n, at));
    if BootblockCandidate(n, at).Some? {
      JoinedEmpty(Some([BootblockCandidate(n, at).value]));
    }
  }

  lemma {:induction false} AllCandidatesAreLeaves(lib: Library, ns: seq<Node>, at: int)
    requires ToldAll(lib, ns)
    ensures GeneratedAll(ns, at) == OfLeaves(LeavesOfAll(ns), at)
    decreases ns
  {
    hide Told, Generated, InfectedLeaves;
    if ns != [] {
      CandidatesAreInfectedLeaves(lib, ns[0], at);
      AllCandidatesAreLeaves(lib, ns[1..], at);
      OfLeavesConcat(InfectedLeaves(ns[0]), LeavesOfAll(ns[1..]), at);
    }
  }

  // ------------------------------------------------ when a candidate can be made

  /** The database is one that `Parse` accepts: names and sources are trimmed and not empty. */
  ghost predicate Curated(lib: Library) {
    && (forall s :: lib.lookup(s).Some? ==>
          (var e := lib.lookup(s).value;
          e.name != "" && TrimSpace(e.name) == e.name && e.source != "" && TrimSpace(e.source) == e.source))
  }

  lemma {:induction false} DetectionNotBlank(detection: string, fallback: string)
    requires !Blank(fallback)
    ensures !Blank(DetectionOrName(detection, fallback))
  {
    hide IsSpace;
    TrimTwice(detection, IsSpace);
    TrimTwice(fallback, IsSpace);
  }

  lemma {:induction false} KeyIsClean(source: string)
    requires TrimSpace(source) == source
    ensures HasControlSpace("aaa-native:bootblock-db:" + TrimSpace(source)) == HasControlSpace(source)
  {
    hide Trim, IsSpace;
  }

  /**
   For a match from the database a candidate can be made exactly when the entry's source text has no
   line break or tab inside; `Parse` trims the source but does not reject those.
   */
  lemma {:induction false} CandidateMadeExactly(lib: Library, n: Node, at: int)
    requires Curated(lib) && Hashing(lib) && Shaped(lib, n) && IsMalicious(n.hit) && at != 0
    ensures BootblockCandidate(n, at).Some? <==> !HasControlSpace(n.hit.value.source)
  {
    hide ValidFamily, NormalizedFamily, CandidateId, WellFormedId, HasControlSpace, Trim, IsSha256, DetectionOrName, TrimSpace;
    var hit := n.hit.value;
    assert lib.lookup(n.bootblockSha.value) == Some(hit);
    assert IsSha256("") == false by { EmptyIsNoHash(); }
    FamilyIsValid(hit.family, hit.name);
    CandidateIdIsWellFormed(NormalizedFamily(hit.family, hit.name), n.bootblockSha.value);
    DetectionNotBlank(n.detection, hit.name);
    KeyIsClean(hit.source);
  }

  lemma {:induction false} EmptyIsNoHash()
    ensures !IsSha256("")
  {
  }

  predicate CleanSource(n: Node) {
    n.hit.Some? && !HasControlSpace(n.hit.value.source)
  }

  /** Every leaf of a scan result is itself a result of the scan. */
  lemma {:induction false} LeavesAreShaped(lib: Library, n: Node, leaf: Leaf)
    requires Told(lib, n) && leaf in InfectedLeaves(n)
    ensures Shaped(lib, leaf.node) && IsMalicious(leaf.node.hit)
    decreases n
  {
    hide Shaped, VerdictFits, Told;
    TellsAll(lib, n);
    if leaf != Leaf([n.name], n) || !IsMalicious(n.hit) {
      var below := LeavesOfAll(n.children);
      assert leaf in Under(n.name, below);
      var i :| 0 <= i < |below| && Under(n.name, below)[i] == leaf;
      assert below[i] in below;
      AllLeavesAreShaped(lib, n.children, below[i]);
    }
  }

  lemma {:induction false} AllLeavesAreShaped(lib: Library, ns: seq<Node>, leaf: Leaf)
    requires ToldAll(lib, ns) && leaf in LeavesOfAll(ns)
    ensures Shaped(lib, leaf.node) && IsMalicious(leaf.node.hit)
    decreases ns
  {
    hide Shaped, Told, InfectedLeaves;
    if leaf in InfectedLeaves(ns[0]) {
      LeavesAreShaped(lib, ns[0], leaf);
    } else {
      AllLeavesAreShaped(lib, ns[1..], leaf);
    }
  }

  lemma {:induction false} AllMadeExactly(lib: Library, leaves: seq<Leaf>, at: int)
    requires Curated(lib) && Hashing(lib) && at != 0
    requires forall l :: l in leaves ==> Shaped(lib, l.node) && IsMalicious(l.node.hit)
    ensures OfLeaves(leaves, at).Some? <==> forall l :: l in leaves ==> CleanSource(l.node)
  {
    hide Shaped, Curated, Hashing, BootblockCandidate, IsMalicious, HasControlSpace;
    if leaves != [] {
      assert leaves[0] in leaves;
      var n := leaves[0].node;
      assert n.hit.Some? by { MaliciousIsHit(n); }
      CandidateMadeExactly(lib, n, at);
      AllMadeExactly(lib, leaves[1..], at);
      assert leaves == [leaves[0]] + leaves[1..];
    }
  }

  lemma {:induction false} MaliciousIsHit(n: Node)
    requires IsMalicious(n.hit)
    ensures n.hit.Some?
  {
  }

  /** For a scanned file the candidates can be made exactly when the matched database entries have clean sources. */
  lemma {:induction false} ScanYieldsCandidatesExactly(lib: Library, name: string, data: Data, at: int)
    requires Curated(lib) && Hashing(lib) && at != 0 && FileSpec(lib, name, data).Some?
    ensures var n := FileSpec(lib, name, data).value.node;
            Generated(n, at).Some? <==> forall l :: l in InfectedLeaves(n) ==> CleanSource(l.node)
  {
    hide Curated, Hashing, FileSpec, Told, Generated, Shaped, InfectedLeaves, OfLeaves, IsMalicious, CleanSource;
    var n := FileSpec(lib, name, data).value.node;
    VerdictsNameLeaves(lib, name, data);
    CandidatesAreInfectedLeaves(lib, n, at);
    forall l | l in InfectedLeaves(n) ensures Shaped(lib, l.node) && IsMalicious(l.node.hit) {
      LeavesAreShaped(lib, n, l);
    }
    AllMadeExactly(lib, InfectedLeaves(n), at);
  }

  // ------------------------------------------------ the store

  predicate FirstWithId(cs: seq<Candidate>, i: nat)
    requires i < |cs|
  {
    forall j :: 0 <= j < i ==> cs[j].id != cs[i].id
  }

  /** Everything the loop still has to write is acceptable. */
  ghost predicate AllAccepted(cs: seq<Candidate>, from: nat, seen: set<string>, files: Files, io: nat -> bool) {
    forall i :: from <= i < |cs| && cs[i].id !in seen && (forall j :: from <= j < i ==> cs[j].id != cs[i].id) ==>
      Accepts(files, cs[i]) && io(i)
  }

  /** A file system that lets every write through. */
  function NoFault(): nat -> bool {
    _ => true
  }

  lemma {:induction false} SkipSeen(cs: seq<Candidate>, i: nat, seen: set<string>, files: Files, io: nat -> bool)
    requires i < |cs| && cs[i].id in seen
    ensures AllAccepted(cs, i, seen, files, io) == AllAccepted(cs, i + 1, seen, files, io)
  {
    hide Accepts;
    if AllAccepted(cs, i, seen, files, io) {
      forall k | i + 1 <= k < |cs| && cs[k].id !in seen && (forall j :: i + 1 <= j < k ==> cs[j].id != cs[k].id)
        ensures Accepts(files, cs[k])
      {
        assert cs[i].id != cs[k].id;
      }
    }
  }

  lemma {:induction false} TakeNew(cs: seq<Candidate>, i: nat, seen: set<string>, files: Files, io: nat -> bool)
    requires i < |cs| && cs[i].id !in seen && Accepts(files, cs[i]) && io(i)
    ensures AllAccepted(cs, i, seen, files, io) == AllAccepted(cs, i + 1, seen + {cs[i].id}, files[cs[i].id := cs[i]], io)
  {
    hide ValidCandidate;
    var seen', files' := seen + {cs[i].id}, files[cs[i].id := cs[i]];
    if AllAccepted(cs, i, seen, files, io) {
      forall k | i + 1 <= k < |cs| && cs[k].id !in seen' && (forall j :: i + 1 <= j < k ==> cs[j].id != cs[k].id)
        ensures Accepts(files', cs[k])
      {
        assert cs[i].id != cs[k].id;
        assert Accepts(files, cs[k]);
      }
    }
    if AllAccepted(cs, i + 1, seen', files', io) {
      forall k | i <= k < |cs| && cs[k].id !in seen && (forall j :: i <= j < k ==> cs[j].id != cs[k].id)
        ensures Accepts(files, cs[k])
      {
        if k > i {
          assert cs[i].id != cs[k].id;
          assert Accepts(files', cs[k]);
        }
      }
    }
  }

  /** Writing succeeds exactly when every first use of an identity is new or already stored as it is, and goes through. */
  lemma {:induction false} WriteSucceedsExactly(cs: seq<Candidate>, i: nat, seen: set<string>,
      written: seq<Candidate>, files: Files, io: nat -> bool)
    requires i <= |cs|
    ensures WriteFrom(cs, i, seen, written, files, io).written.Some? <==> AllAccepted(cs, i, seen, files, io)
    decreases |cs| - i
  {
    hide Accepts, AllAccepted;
    if i == |cs| {
      assert AllAccepted(cs, i, seen, files, io) by { NothingLeft(cs, seen, files, io); }
    } else if cs[i].id in seen {
      SkipSeen(cs, i, seen, files, io);
      WriteSucceedsExactly(cs, i + 1, seen, written, files, io);
    } else if Accepts(files, cs[i]) && io(i) {
      TakeNew(cs, i, seen, files, io);
      WriteSucceedsExactly(cs, i + 1, seen + {cs[i].id}, written + [cs[i]], files[cs[i].id := cs[i]], io);
    } else {
      RefusedHere(cs, i, seen, files, io);
    }
  }

  lemma {:induction false} NothingLeft(cs: seq<Candidate>, seen: set<string>, files: Files, io: nat -> bool)
    ensures AllAccepted(cs, |cs|, seen, files, io)
  {
  }

  lemma {:induction false} RefusedHere(cs: seq<Candidate>, i: nat, seen: set<string>, files: Files, io: nat -> bool)
    requires i < |cs| && cs[i].id !in seen && !(Accepts(files, cs[i]) && io(i))
    ensures !AllAccepted(cs, i, seen, files, io)
  {
    hide Accepts;
  }

  /** Stored candidates are never replaced, whether recording succeeds or fails. */
  lemma {:induction false} StoreOnlyGrows(cs: seq<Candidate>, i: nat, seen: set<string>, written: seq<Candidate>,
      files: Files, io: nat -> bool)
    requires i <= |cs|
    ensures var r := WriteFrom(cs, i, seen, written, files, io);
            forall id :: id in files ==> id in r.files && r.files[id] == files[id]
    decreases |cs| - i
  {
    hide ValidCandidate;
    if i < |cs| {
      if cs[i].id in seen {
        StoreOnlyGrows(cs, i + 1, seen, written, files, io);
      } else if Accepts(files, cs[i]) && io(i) {
        StoreOnlyGrows(cs, i + 1, seen + {cs[i].id}, written + [cs[i]], files[cs[i].id := cs[i]], io);
      }
    }
  }

  /** After success each identity is stored with its first candidate, and each was reported once. */
  lemma {:induction false} FirstOfEachIsStored(cs: seq<Candidate>, i: nat, seen: set<string>,
      written: seq<Candidate>, files: Files, io: nat -> bool)
    requires i <= |cs| && WriteFrom(cs, i, seen, written, files, io).written.Some?
    ensures var r := WriteFrom(cs, i, seen, written, files, io);
            && (forall k :: i <= k < |cs| && cs[k].id !in seen && (forall j :: i <= j < k ==> cs[j].id != cs[k].id) ==>
                  cs[k].id in r.files && r.files[cs[k].id] == cs[k] && cs[k] in r.written.value)
            && (forall c :: c in written ==> c in r.written.value)
    decreases |cs| - i
  {
    hide Accepts;
    if i < |cs| {
      if cs[i].id in seen {
        FirstOfEachIsStored(cs, i + 1, seen, written, files, io);
        forall k | i <= k < |cs| && cs[k].id !in seen && (forall j :: i <= j < k ==> cs[j].id != cs[k].id)
          ensures i + 1 <= k
        {
        }
      } else {
        var seen', written', files' := seen + {cs[i].id}, written + [cs[i]], files[cs[i].id := cs[i]];
        FirstOfEachIsStored(cs, i + 1, seen', written', files', io);
        StoreOnlyGrows(cs, i + 1, seen', written', files', io);
        assert cs[i] in written';
        forall c | c in written ensures c in written' {}
      }
    }
  }

  /** Recording a scan result succeeds exactly when every candidate can be made, none conflicts, and every write goes through. */
  lemma {:induction false} RecordingSucceedsExactly(lib: Library, n: Node, at: int, files: Files, io: nat -> bool)
    requires Told(lib, n) && n.infected && at != 0
    ensures RecordSpec(n, at, files, io).written.Some? <==>
            && OfLeaves(InfectedLeaves(n), at).Some?
            && AllAccepted(OfLeaves(InfectedLeaves(n), at).value, 0, {}, files, io)
  {
    hide Told, Generated, AllAccepted, WriteFrom, OfLeaves, InfectedLeaves;
    CandidatesAreInfectedLeaves(lib, n, at);
    if OfLeaves(InfectedLeaves(n), at).Some? {
      WriteSucceedsExactly(OfLeaves(InfectedLeaves(n), at).value, 0, {}, [], files, io);
    }
  }

  lemma {:induction false} OfLeavesAt(leaves: seq<Leaf>, at: int, i: nat)
    requires OfLeaves(leaves, at).Some? && i < |leaves|
    ensures |OfLeaves(leaves, at).value| == |leaves|
    ensures BootblockCandidate(leaves[i].node, at) == Some(OfLeaves(leaves, at).value[i])
  {
    hide BootblockCandidate;
    OfLeavesLength(leaves, at);
    if i > 0 {
      OfLeavesAt(leaves[1..], at, i - 1);
    }
  }

  lemma {:induction false} OfLeavesLength(leaves: seq<Leaf>, at: int)
    requires OfLeaves(leaves, at).Some?
    ensures |OfLeaves(leaves, at).value| == |leaves|
  {
    hide BootblockCandidate;
    if leaves != [] {
      OfLeavesLength(leaves[1..], at);
    }
  }

  lemma {:induction false} CandidateTime(n: Node, at: int)
    requires BootblockCandidate(n, at).Some?
    ensures BootblockCandidate(n, at).value.createdAt == at
  {
    hide ValidCandidate, NormalizedFamily, DetectionOrName, CandidateId, ValidFamily;
  }

  /** The identity does not contain the time. */
  lemma {:induction false} IdentityIgnoresTime(n: Node, at: int, later: int)
    requires BootblockCandidate(n, at).Some? && BootblockCandidate(n, later).Some?
    ensures BootblockCandidate(n, at).value.id == BootblockCandidate(n, later).value.id
  {
    hide ValidCandidate, NormalizedFamily, DetectionOrName, CandidateId, ValidFamily;
  }

  /**
   Recording the same infected result again succeeds exactly when it carries the same time: the creation
   time is part of what is stored, so a later scan of the same image conflicts with its own candidates.
   */
  lemma {:induction false} RecordingAgain(lib: Library, n: Node, at: int, later: int, files: Files, io: nat -> bool)
    requires Told(lib, n) && n.infected && at != 0 && later != 0 && RecordSpec(n, at, files, io).written.Some?
    ensures RecordSpec(n, later, RecordSpec(n, at, files, io).files, NoFault()).written.Some? <==> later == at
  {
    hide Told, Generated, AllAccepted, WriteFrom, OfLeaves, InfectedLeaves, Accepts;
    var leaves := InfectedLeaves(n);
    RecordingSucceedsExactly(lib, n, at, files, io);
    CandidatesAreInfectedLeaves(lib, n, at);
    var cs, after := OfLeaves(leaves, at).value, RecordSpec(n, at, files, io).files;
    FirstOfEachIsStored(cs, 0, {}, [], files, io);
    WriteSucceedsExactly(cs, 0, {}, [], files, io);
    RecordingSucceedsExactly(lib, n, later, after, NoFault());
    if later == at {
      StoredIsAccepted(cs, files, after, io);
    } else if OfLeaves(leaves, later).Some? {
      assert leaves != [] by { InfectedHasLeaf(lib, n); }
      OfLeavesAt(leaves, at, 0);
      OfLeavesAt(leaves, later, 0);
      CandidateTime(leaves[0].node, at);
      CandidateTime(leaves[0].node, later);
      IdentityIgnoresTime(leaves[0].node, at, later);
      ConflictAtFirst(OfLeaves(leaves, later).value, after, NoFault());
    }
  }

  lemma {:induction false} InfectedHasLeaf(lib: Library, n: Node)
    requires Told(lib, n) && n.infected
    ensures InfectedLeaves(n) != []
  {
    hide ToldAll, InfectedLeaves, Shaped;
    VerdictOf(n);
  }

  lemma {:induction false} StoredIsAccepted(cs: seq<Candidate>, files: Files, after: Files, io: nat -> bool)
    requires AllAccepted(cs, 0, {}, files, io)
    requires forall k :: 0 <= k < |cs| && cs[k].id !in {} && (forall j :: 0 <= j < k ==> cs[j].id != cs[k].id) ==>
               cs[k].id in after && after[cs[k].id] == cs[k]
    ensures AllAccepted(cs, 0, {}, after, NoFault())
  {
    hide ValidCandidate;
  }

  lemma {:induction false} ConflictAtFirst(cs: seq<Candidate>, files: Files, io: nat -> bool)
    requires cs != [] && cs[0].id in files && files[cs[0].id] != cs[0]
    ensures !AllAccepted(cs, 0, {}, files, io)
  {
    hide ValidCandidate;
  }

  /**
   After recording, every infected bootblock of the scan has its identity in the store, the first one with
   it is stored as is, and whatever was stored before is still there.
   */
  lemma {:induction false} EveryLeafIsRecorded(lib: Library, n: Node, at: int, files: Files, io: nat -> bool, i: nat)
    requires Told(lib, n) && n.infected && at != 0 && RecordSpec(n, at, files, io).written.Some? && i < |InfectedLeaves(n)|
    ensures var after := RecordSpec(n, at, files, io).files;
            && OfLeaves(InfectedLeaves(n), at).Some? && |OfLeaves(InfectedLeaves(n), at).value| == |InfectedLeaves(n)|
            && (var cs := OfLeaves(InfectedLeaves(n), at).value;
                && BootblockCandidate(InfectedLeaves(n)[i].node, at) == Some(cs[i])
                && cs[i].id in after && (FirstWithId(cs, i) ==> after[cs[i].id] == cs[i]))
            && (forall id :: id in files ==> id in after && after[id] == files[id])
  {
    hide Told, Generated, AllAccepted, WriteFrom, OfLeaves, InfectedLeaves, Accepts, BootblockCandidate;
    var leaves := InfectedLeaves(n);
    RecordingSucceedsExactly(lib, n, at, files, io);
    CandidatesAreInfectedLeaves(lib, n, at);
    var cs := OfLeaves(leaves, at).value;
    OfLeavesAt(leaves, at, i);
    WriteSucceedsExactly(cs, 0, {}, [], files, io);
    StoredInTheEnd(cs, files, io, i);
  }

  lemma {:induction false} StoredInTheEnd(cs: seq<Candidate>, files: Files, io: nat -> bool, i: nat)
    requires i < |cs| && WriteFrom(cs, 0, {}, [], files, io).written.Some?
    ensures var after := WriteFrom(cs, 0, {}, [], files, io).files;
            && cs[i].id in after && (FirstWithId(cs, i) ==> after[cs[i].id] == cs[i])
            && (forall id :: id in files ==> id in after && after[id] == files[id])
  {
    hide WriteFrom;
    FirstOfEachIsStored(cs, 0, {}, [], files, io);
    StoreOnlyGrows(cs, 0, {}, [], files, io);
    var k := FirstUse(cs, i);
    assert cs[k].id in WriteFrom(cs, 0, {}, [], files, io).files;
  }

  /** The first candidate with the identity of candidate i. */
  lemma {:induction false} FirstUse(cs: seq<Candidate>, i: nat) returns (k: nat)
    requires i < |cs|
    ensures k <= i && cs[k].id == cs[i].id && FirstWithId(cs, k)
  {
    if FirstWithId(cs, i) {
      k := i;
    } else {
      var j :| 0 <= j < i && cs[j].id == cs[i].id;
      k := FirstUse(cs, j);
    }
  }
}
