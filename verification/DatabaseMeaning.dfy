/** The bootblock database in the words of its format: which entries are accepted, as what, and what a digest matches. */
module DatabaseMeaning {
  import opened Common
  import opened ArchiveScan
  import opened SignatureFactory
  import opened SignatureDatabase
  import opened Statements
  import opened StatementTexts
  import opened CandidateMeaning

  /** Capital ASCII letters become small ones, in their places. */
  predicate LowerOf(s: string, l: string) {
    |l| == |s| && forall i :: 0 <= i < |s| ==> l[i] as int == (if 65 <= s[i] as int <= 90 then s[i] as int + 32 else s[i] as int)
  }

  /** What an entry is kept as: trimmed, its digest in small letters, its family as it was written. */
  predicate KeptAs(given: Entry, kept: Entry) {
    && LowerOf(Trim(given.sha, White), kept.sha)
    && kept.status == Trim(given.status, White) && kept.name == Trim(given.name, White)
    && kept.family == given.family && kept.source == Trim(given.source, White)
  }

  predicate GoodEntry(e: Entry) {
    Digest(e.sha) && (e.status == "known-clean" || e.status == "known-malicious") && e.name != "" && e.source != ""
  }

  lemma {:induction false} EntryByTheWords(e: Entry)
    ensures KeptAs(e, Normal(e))
    ensures Sane(e) <==> GoodEntry(e)
  {
    hide Trim, White, IsSpace, Digest, IsSha256;
    TrimsAlike(e.sha);
    TrimsAlike(e.status);
    TrimsAlike(e.name);
    TrimsAlike(e.source);
    Sha256IsDigest(e.sha);
    forall i | 0 <= i < |Lower(TrimSpace(e.sha))|
      ensures Lower(TrimSpace(e.sha))[i] as int
           == (if 65 <= TrimSpace(e.sha)[i] as int <= 90 then TrimSpace(e.sha)[i] as int + 32 else TrimSpace(e.sha)[i] as int)
    {
      LowerByTheWords(TrimSpace(e.sha)[i]);
    }
  }

  lemma {:induction false} LowerByTheWords(c: char)
    ensures LowerChar(c) as int == if 65 <= c as int <= 90 then c as int + 32 else c as int
  {
  }

  /** What a list of entries is kept as: each good, and no two with one digest. */
  ghost predicate AllKeptAs(given: seq<Entry>, kept: seq<Entry>) {
    && |kept| == |given|
    && (forall i :: 0 <= i < |kept| ==> KeptAs(given[i], kept[i]) && GoodEntry(kept[i]))
    && (forall i, j :: 0 <= i < j < |kept| ==> kept[i].sha != kept[j].sha)
  }

  /** A database is accepted exactly if its schema is 1 and its entries, as kept, are good and have different digests. */
  lemma {:induction false} AcceptedByTheWords(schema: int, entries: seq<Entry>)
    ensures Parses(schema, entries) <==>
            schema == 1 && exists kept :: AllKeptAs(entries, kept)
    ensures Parses(schema, entries) ==> AllKeptAs(entries, Normals(entries))
  {
    hide Sane, Normal, KeptAs, GoodEntry;
    var db := Normals(entries);
    forall i | 0 <= i < |entries| ensures KeptAs(entries[i], db[i]) && (Sane(db[i]) <==> GoodEntry(db[i])) {
      EntryByTheWords(entries[i]);
      EntryByTheWords(db[i]);
    }
    if Parses(schema, entries) {
      assert AllKeptAs(entries, db);
    }
    if schema == 1 && exists kept :: AllKeptAs(entries, kept) {
      var kept :| AllKeptAs(entries, kept);
      forall i | 0 <= i < |kept| ensures kept[i] == db[i] {
        KeptOnce(entries[i], kept[i], db[i]);
      }
      assert kept == db;
    }
  }

  lemma {:induction false} KeptOnce(given: Entry, a: Entry, b: Entry)
    requires KeptAs(given, a) && KeptAs(given, b)
    ensures a == b
  {
    hide Trim, White;
    forall i | 0 <= i < |a.sha| ensures a.sha[i] == b.sha[i] {
      assert a.sha[i] as int == b.sha[i] as int;
    }
    assert a.sha == b.sha;
  }

  /** A digest, trimmed and in small letters, matches the one entry that has it, and tells its status, name, family and source. */
  lemma {:induction false} MatchByTheWords(db: seq<Entry>, sha: string, wanted: string)
    requires DistinctShas(db) && LowerOf(Trim(sha, White), wanted)
    ensures (forall i :: 0 <= i < |db| ==> db[i].sha != wanted) ==> Found(db, NormalSha(sha)) == None
    ensures forall i :: 0 <= i < |db| && db[i].sha == wanted ==>
              Found(db, NormalSha(sha)) == Some(Match(db[i].status, db[i].name, db[i].family, db[i].source))
  {
    hide Trim, White, IsSpace, Found;
    TrimsAlike(sha);
    var given := Entry(sha, "", "", "", "");
    EntryByTheWords(given);
    SameLower(Trim(sha, White), wanted, NormalSha(sha));
    FoundIsTheEntry(db, wanted);
  }

  lemma {:induction false} SameLower(s: string, a: string, b: string)
    requires LowerOf(s, a) && LowerOf(s, b)
    ensures a == b
  {
    forall i | 0 <= i < |a| ensures a[i] == b[i] {
      assert a[i] as int == b[i] as int;
    }
  }
}
