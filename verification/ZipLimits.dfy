/** The member loop of `DecodeZIPLimited` (internal/archive/archive.go) over the entries of an opened archive. */
module ZipLimits {
  import opened Common
  import opened ArchiveScan

  /** A directory entry; content is missing when the entry cannot be opened or read to its end. */
  datatype Entry = Entry(name: string, directory: bool, encrypted: bool, content: Option<Data>)

  predicate Readable(e: Entry) {
    e.directory || (!e.encrypted && e.content.Some?)
  }

  /** What one entry contributes. */
  function Whole(e: Entry): seq<Member>
    requires Readable(e)
  {
    if e.directory then [] else [Member(e.name, e.content.value)]
  }

  /** The members of the archive: its regular entries, whole and in order. */
  function Regular(entries: seq<Entry>): seq<Member>
    requires forall e :: e in entries ==> Readable(e)
  {
    if entries == [] then []
    else
      assert entries[0] in entries;
      Whole(entries[0]) + Regular(entries[1..])
  }

  predicate ValidLimits(maxExpanded: int, maxMembers: int) {
    0 < maxExpanded <= 33554432 && 0 < maxMembers <= 1024
  }

  predicate WithinLimits(entries: seq<Entry>, maxExpanded: int, maxMembers: int) {
    && ValidLimits(maxExpanded, maxMembers) && |entries| <= maxMembers
    && (forall e :: e in entries ==> Readable(e))
    && TotalSize(Regular(entries)) <= maxExpanded
  }

  lemma {:induction false} RegularSnoc(entries: seq<Entry>, e: Entry)
    requires Readable(e) && forall x :: x in entries ==> Readable(x)
    ensures forall x :: x in entries + [e] ==> Readable(x)
    ensures Regular(entries + [e]) == Regular(entries) + Whole(e)
  {
    hide Readable, Whole;
    if entries == [] {
      assert [e][1..] == [] && [] + [e] == [e];
    } else {
      assert forall x :: x in entries[1..] ==> x in entries;
      RegularSnoc(entries[1..], e);
      assert (entries + [e])[1..] == entries[1..] + [e];
    }
  }

  lemma {:induction false} TotalSnoc(ms: seq<Member>, m: Member)
    ensures TotalSize(ms + [m]) == TotalSize(ms) + |m.data|
  {
    if ms == [] {
      assert [m][1..] == [];
    } else {
      TotalSnoc(ms[1..], m);
      assert (ms + [m])[1..] == ms[1..] + [m];
    }
  }

  /** A prefix of the members is never larger, nor are there more of them than entries. */
  lemma {:induction false} RegularPrefix(entries: seq<Entry>, i: nat)
    requires i <= |entries| && forall e :: e in entries ==> Readable(e)
    ensures forall e :: e in entries[..i] ==> Readable(e)
    ensures TotalSize(Regular(entries[..i])) <= TotalSize(Regular(entries))
    ensures |Regular(entries[..i])| <= i
    decreases |entries| - i
  {
    hide Readable;
    if i == |entries| {
      assert entries[..i] == entries;
      NoMoreThanEntries(entries);
    } else {
      RegularPrefix(entries, i + 1);
      assert entries[..i + 1] == entries[..i] + [entries[i]];
      assert forall e :: e in entries[..i] ==> e in entries;
      OneMore(entries[..i], entries[i]);
    }
  }

  lemma {:induction false} OneMore(entries: seq<Entry>, e: Entry)
    requires Readable(e) && forall x :: x in entries ==> Readable(x)
    ensures forall x :: x in entries + [e] ==> Readable(x)
    ensures TotalSize(Regular(entries)) <= TotalSize(Regular(entries + [e]))
    ensures |Regular(entries)| <= |entries|
  {
    hide TotalSize, Regular;
    RegularSnoc(entries, e);
    NoMoreThanEntries(entries);
    if e.directory {
      assert Regular(entries) + [] == Regular(entries);
    } else {
      TotalSnoc(Regular(entries), Member(e.name, e.content.value));
    }
  }

  lemma {:induction false} NoMoreThanEntries(entries: seq<Entry>)
    requires forall e :: e in entries ==> Readable(e)
    ensures |Regular(entries)| <= |entries|
  {
    if entries != [] {
      assert forall x :: x in entries[1..] ==> x in entries;
      NoMoreThanEntries(entries[1..]);
    }
  }

  /**
   Decoding succeeds exactly on archives within the limits, and then yields every regular entry whole:
   reading one byte more than is left means nothing is ever cut short silently.
   */
  method DecodeZipLimited(entries: seq<Entry>, maxExpanded: int, maxMembers: int) returns (r: Option<seq<Member>>)
    ensures r.Some? <==> WithinLimits(entries, maxExpanded, maxMembers)
    ensures r.Some? ==> r.value == Regular(entries) && TotalSize(r.value) <= maxExpanded && |r.value| <= maxMembers
  {
    hide Regular, TotalSize;
    if maxExpanded <= 0 || maxExpanded > MAX_EXPANDED {
      return None;
    }
    if maxMembers <= 0 || maxMembers > MAX_MEMBERS {
      return None;
    }
    if |entries| > maxMembers {
      return None;
    }
    var expanded: seq<Member> := [];
    var total := 0;
    var i := 0;
    assert Regular(entries[..0]) == [] && TotalSize([]) == 0 by { NothingYet(entries); }
    while i < |entries|
      invariant 0 <= i <= |entries|
      invariant forall e :: e in entries[..i] ==> Readable(e)
      invariant expanded == Regular(entries[..i]) && total == TotalSize(expanded) <= maxExpanded
    {
      var e := entries[i];
      assert e in entries && entries[..i + 1] == entries[..i] + [e];
      if e.directory {
        RegularSnoc(entries[..i], e);
        i := i + 1;
        continue;
      }
      if e.encrypted || e.content.None? {
        assert !Readable(e);
        return None;
      }
      var remaining := maxExpanded - total;
      var content := e.content.value;
      var read := if |content| > remaining + 1 then content[..remaining + 1] else content;
      RegularSnoc(entries[..i], e);
      TotalSnoc(expanded, Member(e.name, content));
      if |read| > remaining {
        if forall x :: x in entries ==> Readable(x) {
          RegularPrefix(entries, i + 1);
        }
        return None;
      }
      total := total + |read|;
      expanded := expanded + [Member(e.name, read)];
      i := i + 1;
    }
    assert entries[..|entries|] == entries;
    NoMoreThanEntries(entries);
    r := Some(expanded);
  }

  lemma {:induction false} NothingYet(entries: seq<Entry>)
    ensures (forall e :: e in entries[..0] ==> Readable(e)) && Regular(entries[..0]) == [] && TotalSize([]) == 0
  {
    assert entries[..0] == [];
  }

  /** How many of the first n entries are files. */
  function FilesAmong(entries: seq<Entry>, n: nat): nat
    requires n <= |entries|
  {
    if n == 0 then 0 else FilesAmong(entries, n - 1) + if entries[n - 1].directory then 0 else 1
  }

  /** The members are the files of the archive, each under its name with its whole content, in order. */
  lemma {:induction false} RegularByTheWords(entries: seq<Entry>, k: nat)
    requires k < |entries| && forall e :: e in entries ==> Readable(e)
    ensures forall e :: e in entries ==> e.directory || (!e.encrypted && e.content.Some?)
    ensures |Regular(entries)| == FilesAmong(entries, |entries|)
    ensures FilesAmong(entries, k) <= |Regular(entries)|
    ensures !entries[k].directory ==>
              FilesAmong(entries, k) < |Regular(entries)| && entries[k].content.Some?
              && Regular(entries)[FilesAmong(entries, k)] == Member(entries[k].name, entries[k].content.value)
    decreases |entries|
  {
    hide Readable, Whole;
    var front, last := entries[..|entries| - 1], entries[|entries| - 1];
    assert entries == front + [last];
    assert forall e :: e in front ==> e in entries;
    RegularSnoc(front, last);
    AmongFront(front, last, |front|);
    AmongFront(front, last, k);
    WholeIs(last);
    if |front| > 0 {
      RegularByTheWords(front, if k < |front| then k else 0);
    }
    forall e | e in entries ensures e.directory || (!e.encrypted && e.content.Some?) {
      WholeIs(e);
    }
  }

  lemma {:induction false} AmongFront(front: seq<Entry>, last: Entry, n: nat)
    requires n <= |front|
    ensures FilesAmong(front + [last], n) == FilesAmong(front, n)
  {
    if n > 0 {
      AmongFront(front, last, n - 1);
    }
  }

  lemma {:induction false} WholeIs(e: Entry)
    requires Readable(e)
    ensures e.directory || (!e.encrypted && e.content.Some?)
    ensures Whole(e) == if e.directory then [] else [Member(e.name, e.content.value)]
  {
  }
}
