/** Scans of one infected disk image, with a database entry of a given source text. */
module SignatureExample {
  import opened Common
  import opened ArchiveScan
  import opened ArchiveSafety
  import opened SignatureFactory
  import opened SignatureSafety
  import opened SignatureDatabase
  import opened Statements

  const DIGEST := "00000000000000000000000000000000" + "00000000000000000000000000000000"
  const IMAGE_SIZE := 901120

  function Database(source: string): seq<Entry> {
    [Entry(DIGEST, MALICIOUS, "X", "X", source)]
  }

  /** Every file is a disk image whose bootblock has the one known digest. */
  function SampleLibrary(source: string): Library {
    Library((_, _) => "adf", _ => DIGEST, (_, _, _, _) => None, (_, _, _) => None, (_, _) => None,
            _ => Readable(DIGEST, None), sha => Found(Database(source), NormalSha(sha)))
  }

  /** What scanning the image yields. */
  function Sample(source: string): Node {
    Node("disk.adf", IMAGE_SIZE, DIGEST, "adf", true, "bootblock:X", None, None, [], Some(DIGEST), None,
         Some(Match(MALICIOUS, "X", "X", source)), None)
  }

  lemma {:induction false} DigestIsNormal()
    ensures IsSha256(DIGEST) && NormalSha(DIGEST) == DIGEST
  {
    forall i | 0 <= i < 64 ensures DIGEST[i] == '0' {
    }
    assert TrimSpace(DIGEST) == DIGEST;
    assert Lower(DIGEST) == DIGEST;
  }

  lemma {:induction false} WordsAreTrimmed()
    ensures TrimSpace("X") == "X" && TrimSpace(MALICIOUS) == MALICIOUS
  {
  }

  /** The database parses, whatever the source says as long as it is not blank at its ends. */
  lemma {:induction false} DatabaseParses(source: string)
    requires source != "" && TrimSpace(source) == source
    ensures Parses(1, Database(source)) && Normals(Database(source)) == Database(source)
  {
    hide TrimSpace, Lower, IsHex, NormalSha;
    DigestIsNormal();
    WordsAreTrimmed();
    assert Normal(Database(source)[0]) == Database(source)[0];
    assert Normals(Database(source)) == Database(source);
  }

  lemma {:induction false} SampleIsLookedUp(source: string)
    ensures Found(Database(source), NormalSha(DIGEST)) == Some(Match(MALICIOUS, "X", "X", source))
    ensures "bootblock:" + "X" == "bootblock:X"
  {
    hide NormalSha;
    DigestIsNormal();
  }

  /** Scanning any file of the size of a disk gives the sample result. */
  lemma {:induction false} SampleIsScanned(source: string, image: Data)
    requires |image| == IMAGE_SIZE
    ensures FileSpec(SampleLibrary(source), "disk.adf", image) == Some(Scanned(Sample(source), Budget(0, 0)))
  {
    hide Found, NormalSha, Database, MembersSpec, Container;
    SampleIsLookedUp(source);
    var lib := SampleLibrary(source);
    var n := Unscanned(lib, Member("disk.adf", image));
    assert n == Node("disk.adf", IMAGE_SIZE, DIGEST, "adf", false, "", None, None, [], None, None, None, None);
    assert WithImage(lib, n, image) == Sample(source);
  }

  lemma {:induction false} SampleHashes(source: string)
    ensures Hashing(SampleLibrary(source))
  {
    hide Found, NormalSha, Database, IsSha256;
    DigestIsNormal();
  }

  /** The scan meets what the lemmas about candidates assume. */
  lemma {:induction false} SampleIsTold(source: string, image: Data)
    requires source != "" && TrimSpace(source) == source && |image| == IMAGE_SIZE
    ensures var lib := SampleLibrary(source);
            Told(lib, Sample(source)) && Curated(lib) && Hashing(lib)
  {
    hide Told, Curated, Found, NormalSha, FileSpec, Hashing, Parses, Database, IsSha256;
    var lib := SampleLibrary(source);
    SampleHashes(source);
    DatabaseParses(source);
    ParsedIsCurated(lib, 1, Database(source));
    SampleIsScanned(source, image);
    hide SampleLibrary, Sample;
    VerdictsNameLeaves(lib, "disk.adf", image);
  }

  lemma {:induction false} SampleLeaf(source: string)
    ensures InfectedLeaves(Sample(source)) == [Leaf(["disk.adf"], Sample(source))]
    ensures OfLeaves(InfectedLeaves(Sample(source)), 1).Some? <==> BootblockCandidate(Sample(source), 1).Some?
  {
    hide BootblockCandidate;
    var n := Sample(source);
    assert LeavesOfAll(n.children) == [];
    assert [Leaf([n.name], n)][1..] == [];
  }

  /** With the source text `a<tab>b`, which the database parser accepts, no candidate is made and the recording fails. */
  lemma {:induction false} TabInTheSourceFails(image: Data, files: Files, io: nat -> bool)
    requires |image| == IMAGE_SIZE
    ensures Parses(1, Database("a\tb"))
    ensures FileSpec(SampleLibrary("a\tb"), "disk.adf", image).Some?
    ensures RecordSpec(FileSpec(SampleLibrary("a\tb"), "disk.adf", image).value.node, 1, files, io).written == None
  {
    hide Told, Curated, Hashing, BootblockCandidate, IsSha256, FileSpec, SampleLibrary, Parses, WriteFrom;
    var lib, n := SampleLibrary("a\tb"), Sample("a\tb");
    assert TrimSpace("a\tb") == "a\tb";
    DatabaseParses("a\tb");
    SampleIsScanned("a\tb", image);
    SampleIsTold("a\tb", image);
    TellsAll(lib, n);
    assert "a\tb"[1] == '\t';
    CandidateMadeExactly(lib, n, 1);
    CandidatesAreInfectedLeaves(lib, n, 1);
    SampleLeaf("a\tb");
  }

  /** The same image scanned and recorded at time 1 and again at time 2: the second recording is a conflict. */
  lemma {:induction false} SecondScanConflicts(image: Data)
    requires |image| == IMAGE_SIZE
    ensures FileSpec(SampleLibrary("list"), "disk.adf", image).Some?
    ensures var n := FileSpec(SampleLibrary("list"), "disk.adf", image).value.node;
            var first := RecordSpec(n, 1, map[], NoFault());
            first.written.Some? && RecordSpec(n, 2, first.files, NoFault()).written == None
  {
    hide Told, Curated, Hashing, BootblockCandidate, IsSha256, Generated, AllAccepted, OfLeaves, Accepts, FileSpec, SampleLibrary,
         WriteFrom;
    var lib, n := SampleLibrary("list"), Sample("list");
    assert TrimSpace("list") == "list";
    SampleIsScanned("list", image);
    SampleIsTold("list", image);
    TellsAll(lib, n);
    assert !HasControlSpace("list");
    CandidateMadeExactly(lib, n, 1);
    SampleLeaf("list");
    RecordingSucceedsExactly(lib, n, 1, map[], NoFault());
    var cs := OfLeaves(InfectedLeaves(n), 1).value;
    OfLeavesAt(InfectedLeaves(n), 1, 0);
    assert AllAccepted(cs, 0, {}, map[], NoFault()) by { SingleAccepted(n, cs); }
    RecordingAgain(lib, n, 1, 2, map[], NoFault());
  }

  lemma {:induction false} SingleAccepted(n: Node, cs: seq<Candidate>)
    requires |cs| == 1 && BootblockCandidate(n, 1) == Some(cs[0])
    ensures AllAccepted(cs, 0, {}, map[], NoFault())
  {
    hide WellFormedId, NormalizedFamily, ValidFamily, CandidateId, DetectionOrName, IsSha256, ValidEvidence;
  }
}
