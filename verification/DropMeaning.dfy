/**
 What a poll does to each name, told by the name alone: what was observed and recorded under it before, and what the
 directory, the staging and the queue answer about it now.  Names do not influence each other but by ending the poll.
 */
module DropMeaning {
  import opened Common
  import opened DropFolder
  import opened DropSafety

  /** The same file: its path, its size and its time are as before. */
  predicate Unchanged(was: Observation, now: Candidate) {
    was.candidate.path == now.path && was.candidate.size == now.size && was.candidate.modTime == now.modTime
  }

  /** What becomes of a name: its observation, its receipt, and what is submitted. */
  datatype Fate = Fate(observed: Option<Observation>, receipt: Option<Receipt>, submitted: Option<Snapshot>)

  /** A file that has been there, unchanged, for long enough, and was not dealt with yet. */
  predicate Ripe(c: Config, now: int, e: Seen, was: Option<Observation>) {
    e.observed.Visible? && was.Some? && Unchanged(was.value, e.observed.candidate) && !was.value.handled
    && now >= was.value.firstSeen + c.stableFor
  }

  /** The content is on record as submitted. */
  predicate OnRecord(c: Config, s: Snapshot, receipt: Option<Receipt>) {
    c.useReceipts && receipt.Some? && receipt.value.sha == s.sha && receipt.value.size == s.size
  }

  function FateOf(c: Config, now: int, e: Seen, was: Option<Observation>, receipt: Option<Receipt>): Fate {
    if !e.observed.Visible? then Fate(was, receipt, None)
    else if was == None || !Unchanged(was.value, e.observed.candidate) then
      Fate(Some(Observation(e.observed.candidate, now, false)), receipt, None)
    else if !Ripe(c, now, e, was) then Fate(was, receipt, None)
    else
      match e.stage
      case ChangedMeanwhile => Fate(None, receipt, None)
      case StageError => Fate(was, receipt, None)
      case Staged(s) =>
        var handled := Some(Observation(was.value.candidate, was.value.firstSeen, true));
        if OnRecord(c, s, receipt) then Fate(handled, receipt, None)
        else if !e.submitOk then Fate(was, receipt, None)
        else if !c.useReceipts then Fate(handled, receipt, Some(s))
        else Fate(if e.saveOk then handled else was, Some(Receipt(s.sha, s.size)), Some(s))
  }

  /** Looking at this name ends the poll with an error. */
  predicate Fails(c: Config, now: int, e: Seen, was: Option<Observation>, receipt: Option<Receipt>) {
    || e.observed.ObserveError?
    || (Ripe(c, now, e, was)
        && (e.stage.StageError?
            || (e.stage.Staged? && !OnRecord(c, e.stage.snapshot, receipt) && e.submitOk && c.useReceipts && !e.saveOk)))
  }

  function SentOnce(s: Option<Snapshot>): seq<Snapshot> {
    if s == None then [] else [s.value]
  }

  lemma {:induction false} EntryByName(c: Config, st: State, now: int, e: Seen)
    ensures var o := EntryStep(c, st, now, e);
            var was, receipt := Get(st.observed, e.name), Get(st.receipts, e.name);
            var fate := FateOf(c, now, e, was, receipt);
            && (o.aborted <==> Fails(c, now, e, was, receipt))
            && Get(o.st.observed, e.name) == fate.observed && Get(o.st.receipts, e.name) == fate.receipt
            && Sent(o.st.log, e.name) == Sent(st.log, e.name) + SentOnce(fate.submitted)
  {
    hide EntryStep, Sent, Fails, FateOf;
    if Ripe(c, now, e, Get(st.observed, e.name)) {
      if e.stage.Staged? {
        StagedByName(c, st, now, e);
      } else {
        UnstagedByName(c, st, now, e);
      }
    } else {
      UnripeByName(c, st, now, e);
    }
  }

  lemma {:induction false} UnripeByName(c: Config, st: State, now: int, e: Seen)
    requires !Ripe(c, now, e, Get(st.observed, e.name))
    ensures var o := EntryStep(c, st, now, e);
            var was, receipt := Get(st.observed, e.name), Get(st.receipts, e.name);
            var fate := FateOf(c, now, e, was, receipt);
            && (o.aborted <==> Fails(c, now, e, was, receipt))
            && Get(o.st.observed, e.name) == fate.observed && Get(o.st.receipts, e.name) == fate.receipt
            && Sent(o.st.log, e.name) == Sent(st.log, e.name) + SentOnce(fate.submitted)
  {
    hide Sent;
    assert Sent(st.log, e.name) + [] == Sent(st.log, e.name);
  }

  lemma {:induction false} UnstagedByName(c: Config, st: State, now: int, e: Seen)
    requires Ripe(c, now, e, Get(st.observed, e.name)) && !e.stage.Staged?
    ensures var o := EntryStep(c, st, now, e);
            var was, receipt := Get(st.observed, e.name), Get(st.receipts, e.name);
            var fate := FateOf(c, now, e, was, receipt);
            && (o.aborted <==> Fails(c, now, e, was, receipt))
            && Get(o.st.observed, e.name) == fate.observed && Get(o.st.receipts, e.name) == fate.receipt
            && Sent(o.st.log, e.name) == Sent(st.log, e.name) + SentOnce(fate.submitted)
  {
    hide Sent;
    assert Sent(st.log, e.name) + [] == Sent(st.log, e.name);
  }

  lemma {:induction false} StagedByName(c: Config, st: State, now: int, e: Seen)
    requires Ripe(c, now, e, Get(st.observed, e.name)) && e.stage.Staged?
    ensures var o := EntryStep(c, st, now, e);
            var was, receipt := Get(st.observed, e.name), Get(st.receipts, e.name);
            var fate := FateOf(c, now, e, was, receipt);
            && (o.aborted <==> Fails(c, now, e, was, receipt))
            && Get(o.st.observed, e.name) == fate.observed && Get(o.st.receipts, e.name) == fate.receipt
            && Sent(o.st.log, e.name) == Sent(st.log, e.name) + SentOnce(fate.submitted)
  {
    SentSnoc(st.log, e.name, e.stage.snapshot, e.name);
    hide Sent;
    assert Sent(st.log, e.name) + [] == Sent(st.log, e.name);
  }

  /** What an entry does depends on what is known of its name only. */
  ghost predicate FailsIn(c: Config, st: State, now: int, e: Seen) {
    Fails(c, now, e, Get(st.observed, e.name), Get(st.receipts, e.name))
  }

  lemma {:induction false} PassFails(c: Config, st: State, now: int, es: seq<Seen>)
    requires DistinctNames(es)
    ensures Entries(c, st, now, es).aborted <==> exists i :: 0 <= i < |es| && FailsIn(c, st, now, es[i])
    decreases |es|
  {
    hide EntryStep, Fails, Sent;
    if es != [] {
      var e, rest := es[0], es[1..];
      RestDistinct(es);
      EntryByName(c, st, now, e);
      var o := EntryStep(c, st, now, e);
      if o.aborted {
        assert FailsIn(c, st, now, es[0]);
      } else {
        PassFails(c, o.st, now, rest);
        forall i | 0 <= i < |rest| ensures FailsIn(c, o.st, now, rest[i]) <==> FailsIn(c, st, now, es[i + 1]) {
          OtherEntry(c, st, now, e, rest[i].name);
        }
        if i :| 0 <= i < |rest| && FailsIn(c, o.st, now, rest[i]) {
          assert FailsIn(c, st, now, es[i + 1]);
        }
        if i :| 0 <= i < |es| && FailsIn(c, st, now, es[i]) {
          assert i > 0 && FailsIn(c, o.st, now, rest[i - 1]);
        }
      }
    }
  }

  /** A candidate was seen under the name. */
  ghost predicate Shown(es: seq<Seen>, name: string) {
    exists i :: 0 <= i < |es| && es[i].name == name && es[i].observed.Visible?
  }

  lemma {:induction false} ShownIsPresent(es: seq<Seen>, name: string)
    ensures Shown(es, name) <==> name in Present(es)
  {
    if i :| 0 <= i < |es| && es[i].name == name && es[i].observed.Visible? {
      assert es[i] in es;
    }
  }

  /** A poll fails exactly if the directory cannot be read, looking at some name fails, or receipts to be dropped cannot be saved. */
  lemma {:induction false} PollFailsExactly(c: Config, st: State, p: Poll)
    requires DistinctNames(p.entries)
    ensures PollSpec(c, st, p).aborted <==>
            || !p.readOk
            || (exists i :: 0 <= i < |p.entries| && FailsIn(c, st, p.now, p.entries[i]))
            || (c.useReceipts && !p.pruneOk && exists name :: name in st.receipts && !Shown(p.entries, name))
  {
    hide EntryStep, FailsIn, Shown, Sent;
    if p.readOk {
      PassFails(c, st, p.now, p.entries);
      var o := Entries(c, st, p.now, p.entries);
      if !o.aborted {
        PruningNeeded(c, st, p);
      }
    }
  }

  lemma {:induction false} PruningNeeded(c: Config, st: State, p: Poll)
    requires DistinctNames(p.entries) && !Entries(c, st, p.now, p.entries).aborted
    ensures var o := Entries(c, st, p.now, p.entries);
            Pruned(c, o.st, Present(p.entries), p.pruneOk).aborted <==>
            (c.useReceipts && !p.pruneOk && exists name :: name in st.receipts && !Shown(p.entries, name))
  {
    hide EntryStep, Shown, Entries, Sent;
    var o := Entries(c, st, p.now, p.entries);
    var present := Present(p.entries);
    forall name ensures !Shown(p.entries, name) ==> Get(o.st.receipts, name) == Get(st.receipts, name) {
      ShownIsPresent(p.entries, name);
      if !Shown(p.entries, name) {
        UnseenKeeps(c, st, p.now, p.entries, name);
      }
    }
    forall name ensures Shown(p.entries, name) <==> name in present { ShownIsPresent(p.entries, name); }
    var kept := Restrict(o.st.receipts, present);
    if name :| name in st.receipts && !Shown(p.entries, name) {
      assert Get(o.st.receipts, name) == Get(st.receipts, name);
      assert name in o.st.receipts && name !in kept;
    } else {
      forall name | name in o.st.receipts ensures name in present {
        assert !Shown(p.entries, name) ==> Get(o.st.receipts, name) == Get(st.receipts, name);
      }
      assert kept == o.st.receipts;
    }
  }

  lemma {:induction false} UnseenKeeps(c: Config, st: State, now: int, es: seq<Seen>, name: string)
    requires DistinctNames(es) && name !in Present(es)
    ensures Get(Entries(c, st, now, es).st.receipts, name) == Get(st.receipts, name)
    ensures Sent(Entries(c, st, now, es).st.log, name) == Sent(st.log, name)
    decreases |es|
  {
    hide EntryStep, Sent;
    PresentIff(es, name);
    if Find(es, name) == None {
      EntriesSkip(c, st, now, es, name);
    } else {
      var mid, reached := EntriesAt(c, st, now, es, name);
      EntryByName(c, mid, now, Find(es, name).value);
    }
  }

  /** After a successful poll every name has its fate; names that were not seen are forgotten, and their receipts with them. */
  lemma {:induction false} PollByName(c: Config, st: State, p: Poll, name: string)
    requires DistinctNames(p.entries) && !PollSpec(c, st, p).aborted
    ensures var t := PollSpec(c, st, p).st;
            if Shown(p.entries, name) then
              Find(p.entries, name).Some?
              && var fate := FateOf(c, p.now, Find(p.entries, name).value, Get(st.observed, name), Get(st.receipts, name));
                 && Get(t.observed, name) == fate.observed && Get(t.receipts, name) == fate.receipt
                 && Sent(t.log, name) == Sent(st.log, name) + SentOnce(fate.submitted)
            else
              && Get(t.observed, name) == None && Sent(t.log, name) == Sent(st.log, name)
              && Get(t.receipts, name) == if c.useReceipts then None else Get(st.receipts, name)
  {
    hide EntryStep, Entries, Pruned, Sent, FateOf, Shown;
    var o := Entries(c, st, p.now, p.entries);
    ShownIsPresent(p.entries, name);
    PresentIff(p.entries, name);
    PrunedAt(c, o.st, Present(p.entries), p.pruneOk, name);
    if Shown(p.entries, name) {
      var mid, reached := EntriesAt(c, st, p.now, p.entries, name);
      EntryByName(c, mid, p.now, Find(p.entries, name).value);
    } else {
      UnseenKeeps(c, st, p.now, p.entries, name);
    }
  }

  /** So a file is submitted by a successful poll exactly if it is ripe, could be staged and is not on record, and the queue takes it. */
  lemma {:induction false} SubmittedExactly(c: Config, st: State, p: Poll, name: string)
    requires DistinctNames(p.entries) && !PollSpec(c, st, p).aborted
    ensures Sent(PollSpec(c, st, p).st.log, name) != Sent(st.log, name) <==>
            && Shown(p.entries, name) && Find(p.entries, name).Some?
            && var e := Find(p.entries, name).value;
               && Ripe(c, p.now, e, Get(st.observed, name)) && e.stage.Staged? && e.submitOk
               && !OnRecord(c, e.stage.snapshot, Get(st.receipts, name))
  {
    hide Sent, PollSpec, Shown, Ripe, OnRecord;
    PollByName(c, st, p, name);
    if Shown(p.entries, name) {
      var e := Find(p.entries, name).value;
      if Ripe(c, p.now, e, Get(st.observed, name)) { RipeIsSeen(c, p.now, e, Get(st.observed, name)); }
    }
  }

  lemma {:induction false} RipeIsSeen(c: Config, now: int, e: Seen, was: Option<Observation>)
    requires Ripe(c, now, e, was)
    ensures e.observed.Visible? && was.Some? && Unchanged(was.value, e.observed.candidate)
  {
  }
}
