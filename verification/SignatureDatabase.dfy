/** The bootblock database (internal/signatures/db.go): parsing, and looking a bootblock up. */
module SignatureDatabase {
  import opened Common
  import opened ArchiveScan
  import opened SignatureFactory
  import opened SignatureSafety
  import opened Statements

  const KNOWN_CLEAN := "known-clean"

  datatype Entry = Entry(sha: string, status: string, name: string, family: string, source: string)

  function LowerChar(c: char): char {
    if 'A' <= c <= 'Z' then 'a' + (c - 'A') else c
  }

  /** `strings.ToLower`, as far as hexadecimal digits are concerned. */
  function Lower(s: string): (l: string)
    ensures |l| == |s| && forall i :: 0 <= i < |s| ==> l[i] == LowerChar(s[i])
  {
    seq(|s|, i requires 0 <= i < |s| => LowerChar(s[i]))
  }

  function NormalSha(sha: string): string {
    Lower(TrimSpace(sha))
  }

  function Normal(e: Entry): Entry {
    Entry(NormalSha(e.sha), TrimSpace(e.status), TrimSpace(e.name), e.family, TrimSpace(e.source))
  }

  /** What `Parse` demands of an entry, once it is trimmed. */
  predicate Sane(e: Entry) {
    IsSha256(e.sha) && e.status in {KNOWN_CLEAN, MALICIOUS} && e.name != "" && e.source != ""
  }

  function Normals(entries: seq<Entry>): (r: seq<Entry>)
    ensures |r| == |entries| && forall i :: 0 <= i < |r| ==> r[i] == Normal(entries[i])
  {
    seq(|entries|, i requires 0 <= i < |entries| => Normal(entries[i]))
  }

  ghost predicate DistinctShas(db: seq<Entry>) {
    forall i, j :: 0 <= i < j < |db| ==> db[i].sha != db[j].sha
  }

  ghost predicate Parses(schema: int, entries: seq<Entry>) {
    && schema == 1
    && (forall i :: 0 <= i < |entries| ==> Sane(Normal(entries[i])))
    && DistinctShas(Normals(entries))
  }

  /** `Parse`, after the JSON is decoded: trims every entry, and refuses bad ones and repeated digests. */
  method Parse(schema: int, entries: seq<Entry>) returns (db: Option<seq<Entry>>)
    ensures db.Some? <==> Parses(schema, entries)
    ensures db.Some? ==> db.value == Normals(entries)
  {
    hide Sane, Normal;
    if schema != 1 {
      return None;
    }
    var seen: set<string> := {};
    var parsed: seq<Entry> := [];
    var i := 0;
    while i < |entries|
      invariant 0 <= i <= |entries|
      invariant parsed == Normals(entries)[..i]
      invariant forall k :: 0 <= k < i ==> Sane(Normal(entries[k])) && Normals(entries)[k].sha in seen
      invariant forall sha :: sha in seen ==> exists k :: 0 <= k < i && Normals(entries)[k].sha == sha
      invariant forall j, k :: 0 <= j < k < i ==> Normals(entries)[j].sha != Normals(entries)[k].sha
    {
      var e := Normal(entries[i]);
      assert e == Normals(entries)[i];
      if !Sane(e) {
        return None;
      }
      if e.sha in seen {
        var k :| 0 <= k < i && Normals(entries)[k].sha == e.sha;
        return None;
      }
      seen, parsed := seen + {e.sha}, parsed + [e];
      i := i + 1;
    }
    db := Some(parsed);
  }

  function MatchOf(e: Entry): Match {
    Match(e.status, e.name, e.family, e.source)
  }

  /** The first entry with a digest. */
  function Found(db: seq<Entry>, sha: string): Option<Match> {
    if db == [] then None else if db[0].sha == sha then Some(MatchOf(db[0])) else Found(db[1..], sha)
  }

  /** `Lookup`. */
  method Lookup(db: seq<Entry>, sha: string) returns (r: Option<Match>)
    ensures r == Found(db, NormalSha(sha))
  {
    var wanted := NormalSha(sha);
    var i := 0;
    while i < |db|
      invariant 0 <= i <= |db|
      invariant Found(db, wanted) == Found(db[i..], wanted)
    {
      assert db[i..][0] == db[i] && db[i..][1..] == db[i + 1..];
      if db[i].sha == wanted {
        return Some(MatchOf(db[i]));
      }
      i := i + 1;
    }
    r := None;
  }

  /** In a parsed database a digest is found exactly if some entry has it, and then it is that entry. */
  lemma {:induction false} FoundIsTheEntry(db: seq<Entry>, sha: string)
    requires DistinctShas(db)
    ensures Found(db, sha).Some? <==> exists i :: 0 <= i < |db| && db[i].sha == sha
    ensures forall i :: 0 <= i < |db| && db[i].sha == sha ==> Found(db, sha) == Some(MatchOf(db[i]))
  {
    hide MatchOf;
    if db != [] {
      var rest := db[1..];
      assert forall i :: 0 <= i < |rest| ==> rest[i] == db[i + 1];
      FoundIsTheEntry(rest, sha);
      forall i | 0 <= i < |db| && db[i].sha == sha ensures Found(db, sha) == Some(MatchOf(db[i])) {
        if i > 0 {
          assert rest[i - 1] == db[i];
        }
      }
      if Found(rest, sha).Some? {
        var k :| 0 <= k < |rest| && rest[k].sha == sha;
        assert db[k + 1].sha == sha;
      }
    }
  }

  /** A scan that looks bootblocks up in a parsed database meets only trimmed names and sources. */
  lemma {:induction false} ParsedIsCurated(lib: Library, schema: int, entries: seq<Entry>)
    requires Parses(schema, entries)
    requires forall sha :: lib.lookup(sha) == Found(Normals(entries), NormalSha(sha))
    ensures Curated(lib)
  {
    hide Found, Trim, IsSpace, Lower;
    var db := Normals(entries);
    forall sha | lib.lookup(sha).Some?
      ensures var e := lib.lookup(sha).value;
              e.name != "" && TrimSpace(e.name) == e.name && e.source != "" && TrimSpace(e.source) == e.source
    {
      FoundIsTheEntry(db, NormalSha(sha));
      var i :| 0 <= i < |db| && db[i].sha == NormalSha(sha);
      assert Sane(Normal(entries[i])) && db[i] == Normal(entries[i]);
      TrimTwice(entries[i].name, IsSpace);
      TrimTwice(entries[i].source, IsSpace);
    }
  }
}
