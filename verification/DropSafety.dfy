/** What the watcher guarantees over any run of polls and restarts. */
module DropSafety {
  import opened Common
  import opened DropFolder

  /** A poll of the running watcher, or the watcher being stopped and started again. */
  datatype Event = Polled(p: Poll) | Restart

  function Restarted(st: State): State {
    st.(observed := map[], receipts := st.disk)
  }

  /** A poll that returns an error ends the watcher; it comes back with only the receipt file. */
  function Step(c: Config, st: State, ev: Event): State {
    match ev
    case Restart => Restarted(st)
    case Polled(p) =>
      var o := PollSpec(c, st, p);
      if o.aborted then Restarted(o.st) else o.st
  }

  function Start(saved: map<string, Receipt>): State {
    State(map[], saved, saved, [])
  }

  /** The state before event k. */
  function Before(c: Config, saved: map<string, Receipt>, evs: seq<Event>, k: nat): State
    requires k <= |evs|
  {
    if k == 0 then Start(saved) else Step(c, Before(c, saved, evs, k - 1), evs[k - 1])
  }

  predicate Succeeds(c: Config, st: State, ev: Event) {
    ev.Polled? && !PollSpec(c, st, ev.p).aborted
  }

  /** Directory listings name every entry once. */
  ghost predicate DistinctNames(es: seq<Seen>) {
    forall i, j :: 0 <= i < j < |es| ==> es[i].name != es[j].name
  }

  ghost predicate Listings(evs: seq<Event>) {
    forall i :: 0 <= i < |evs| && evs[i].Polled? ==> DistinctNames(evs[i].p.entries)
  }

  function Find(es: seq<Seen>, name: string): (r: Option<Seen>)
    ensures r == None ==> forall i :: 0 <= i < |es| ==> es[i].name != name
    ensures r.Some? ==> r.value in es && r.value.name == name
  {
    if es == [] then None else if es[0].name == name then Some(es[0]) else Find(es[1..], name)
  }

  /** The candidate a poll saw under a name. */
  function Sight(ev: Event, name: string): Option<Candidate> {
    if ev.Polled? && Find(ev.p.entries, name).Some? && Find(ev.p.entries, name).value.observed.Visible? then
      Some(Find(ev.p.entries, name).value.observed.candidate)
    else None
  }

  function Get<T>(m: map<string, T>, name: string): Option<T> {
    if name in m then Some(m[name]) else None
  }

  /** The snapshots submitted under a name. */
  function Sent(log: seq<(string, Snapshot)>, name: string): seq<Snapshot> {
    if log == [] then []
    else Sent(log[..|log| - 1], name) + if log[|log| - 1].0 == name then [log[|log| - 1].1] else []
  }

  lemma {:induction false} SentSnoc(log: seq<(string, Snapshot)>, x: string, s: Snapshot, name: string)
    ensures Sent(log + [(x, s)], name) == Sent(log, name) + if x == name then [s] else []
  {
    assert (log + [(x, s)])[..|log|] == log;
  }

  // ------------------------------------------------ one name at a time

  /** The two states agree on everything about a name. */
  predicate Same(a: State, b: State, name: string) {
    && Get(a.observed, name) == Get(b.observed, name)
    && Get(a.receipts, name) == Get(b.receipts, name)
    && Sent(a.log, name) == Sent(b.log, name)
  }

  lemma {:induction false} OtherEntry(c: Config, st: State, now: int, e: Seen, name: string)
    requires e.name != name
    ensures Same(st, EntryStep(c, st, now, e).st, name)
  {
    hide Sent;
    if e.stage.Staged? { SentSnoc(st.log, e.name, e.stage.snapshot, name); }
  }

  /** The receipt file is what the store holds, and stays what it was when saving failed. */
  lemma {:induction false} EntryDisk(c: Config, st: State, now: int, e: Seen, name: string)
    requires st.disk == st.receipts
    ensures var o := EntryStep(c, st, now, e);
            && (if o.aborted then o.st.disk == st.disk else o.st.disk == o.st.receipts)
            && (e.name != name ==> Get(o.st.disk, name) == Get(st.disk, name))
  {
  }

  lemma {:induction false} EntriesSkip(c: Config, st: State, now: int, es: seq<Seen>, name: string)
    requires forall i :: 0 <= i < |es| ==> es[i].name != name
    ensures Same(st, Entries(c, st, now, es).st, name)
    decreases |es|
  {
    hide EntryStep, Sent;
    if es != [] {
      OtherEntry(c, st, now, es[0], name);
      var o := EntryStep(c, st, now, es[0]);
      if !o.aborted {
        EntriesSkip(c, o.st, now, es[1..], name);
      }
    }
  }

  /**
   A pass over the directory treats a name by its one entry, from a state that agrees with the start
   about that name; or it ended in an error before reaching the entry.
   */
  lemma {:induction false} EntriesAt(c: Config, st: State, now: int, es: seq<Seen>, name: string)
    returns (mid: State, reached: bool)
    requires DistinctNames(es) && Find(es, name).Some?
    ensures Same(st, mid, name)
    ensures reached ==>
              var o := EntryStep(c, mid, now, Find(es, name).value);
              Same(o.st, Entries(c, st, now, es).st, name) && (o.aborted ==> Entries(c, st, now, es) == o)
    ensures !reached ==> Entries(c, st, now, es).aborted && Same(st, Entries(c, st, now, es).st, name)
    decreases |es|
  {
    hide EntryStep, Sent;
    var o := EntryStep(c, st, now, es[0]);
    if es[0].name == name {
      mid, reached := st, true;
      if !o.aborted {
        forall i | 0 <= i < |es[1..]| ensures es[1..][i].name != name { assert es[1..][i] == es[i + 1]; }
        EntriesSkip(c, o.st, now, es[1..], name);
      }
    } else {
      OtherEntry(c, st, now, es[0], name);
      if o.aborted {
        mid, reached := st, false;
      } else {
        assert DistinctNames(es[1..]) by {
          forall i, j | 0 <= i < j < |es[1..]| ensures es[1..][i].name != es[1..][j].name {
            assert es[1..][i] == es[i + 1] && es[1..][j] == es[j + 1];
          }
        }
        mid, reached := EntriesAt(c, o.st, now, es[1..], name);
      }
    }
  }

  lemma {:induction false} PrunedAt(c: Config, st: State, present: set<string>, pruneOk: bool, name: string)
    ensures var o := Pruned(c, st, present, pruneOk);
            && Sent(o.st.log, name) == Sent(st.log, name)
            && Get(o.st.observed, name) == (if name in present then Get(st.observed, name) else None)
            && Get(o.st.receipts, name) == (if name in present || !c.useReceipts then Get(st.receipts, name) else None)
  {
    hide Sent;
  }

  lemma {:induction false} PresentIff(es: seq<Seen>, name: string)
    requires DistinctNames(es)
    ensures name in Present(es) <==> Find(es, name).Some? && Find(es, name).value.observed.Visible?
    decreases |es|
  {
    if es != [] {
      var rest := es[1..];
      assert DistinctNames(rest) by {
        forall i, j | 0 <= i < j < |rest| ensures rest[i].name != rest[j].name {
          assert rest[i] == es[i + 1] && rest[j] == es[j + 1];
        }
      }
      PresentIff(rest, name);
      assert es == [es[0]] + rest;
      forall i | 0 <= i < |rest| ensures rest[i].name != es[0].name { assert rest[i] == es[i + 1]; }
    }
  }

  // ------------------------------------------------ one event

  /** What one directory entry can do about its own name. */
  lemma {:induction false} EntryFacts(c: Config, st: State, now: int, e: Seen)
    ensures var o := EntryStep(c, st, now, e);
            var was := Get(st.observed, e.name);
            && (if e.observed.Visible? && was.Some? && Stable(was.value.candidate, e.observed.candidate) then
                  var now_is := Get(o.st.observed, e.name);
                  || now_is == None || now_is == was || now_is == Some(was.value.(handled := true))
                else if e.observed.Visible? then Get(o.st.observed, e.name) == Some(Observation(e.observed.candidate, now, false))
                else Get(o.st.observed, e.name) == was)
            && (was.Some? && was.value.handled && e.observed.Visible? && Stable(was.value.candidate, e.observed.candidate) ==>
                  o == Outcome(st, false))
  {
    hide Sent;
  }

  /** When an entry is submitted, and what is recorded. */
  lemma {:induction false} EntrySubmits(c: Config, st: State, now: int, e: Seen)
    ensures var o := EntryStep(c, st, now, e);
            var was := Get(st.observed, e.name);
            if Sent(o.st.log, e.name) == Sent(st.log, e.name) then o.st.receipts == st.receipts
            else
              && e.observed.Visible? && e.stage.Staged?
              && was.Some? && Stable(was.value.candidate, e.observed.candidate) && !was.value.handled
              && now - was.value.firstSeen >= c.stableFor
              && Sent(o.st.log, e.name) == Sent(st.log, e.name) + [e.stage.snapshot]
              && (c.useReceipts ==>
                    && !Matches(st.receipts, e.name, e.stage.snapshot)
                    && Get(o.st.receipts, e.name) == Some(Receipt(e.stage.snapshot.sha, e.stage.snapshot.size)))
              && (o.aborted <==> c.useReceipts && !e.saveOk)
              && (!o.aborted ==> Get(o.st.observed, e.name) == Some(was.value.(handled := true)))
  {
    if e.stage.Staged? { SentSnoc(st.log, e.name, e.stage.snapshot, e.name); }
    hide Sent;
  }

  /**
   What a pass over the directory leaves in the receipt file: the receipt of a submission, if that one
   receipt was saved, and otherwise what was there; saving fails only by ending the pass.
   */
  lemma {:induction false} EntriesDisk(c: Config, st: State, now: int, es: seq<Seen>, name: string)
    requires DistinctNames(es) && c.useReceipts && st.disk == st.receipts
    ensures var o := Entries(c, st, now, es);
            && (!o.aborted ==> o.st.disk == o.st.receipts)
            && (Sent(o.st.log, name) != Sent(st.log, name) ==> Find(es, name).Some? && Find(es, name).value.stage.Staged?)
            && Get(o.st.disk, name) ==
               if Sent(o.st.log, name) != Sent(st.log, name) && Find(es, name).value.saveOk then
                 Some(ReceiptOf(Find(es, name).value.stage.snapshot))
               else Get(st.disk, name)
    decreases |es|
  {
    hide EntryStep, Sent;
    if es != [] {
      var e, rest := es[0], es[1..];
      var o := EntryStep(c, st, now, e);
      RestDistinct(es);
      EntryDisk(c, st, now, e, name);
      if e.name == name {
        EntrySubmits(c, st, now, e);
        if !o.aborted {
          EntriesDisk(c, o.st, now, rest, name);
          EntriesSkip(c, o.st, now, rest, name);
        }
      } else {
        OtherEntry(c, st, now, e, name);
        if !o.aborted {
          EntriesDisk(c, o.st, now, rest, name);
        }
      }
    }
  }

  lemma {:induction false} RestDistinct(es: seq<Seen>)
    requires DistinctNames(es) && es != []
    ensures DistinctNames(es[1..])
    ensures forall i :: 0 <= i < |es[1..]| ==> es[1..][i].name != es[0].name
  {
    assert forall i :: 0 <= i < |es[1..]| ==> es[1..][i] == es[i + 1];
  }

  function ReceiptOf(s: Snapshot): Receipt {
    Receipt(s.sha, s.size)
  }

  lemma {:induction false} PassSynced(c: Config, st: State, now: int, es: seq<Seen>)
    requires st.disk == st.receipts
    ensures var o := Entries(c, st, now, es); !o.aborted ==> o.st.disk == o.st.receipts
    decreases |es|
  {
    hide EntryStep;
    if es != [] {
      EntryDisk(c, st, now, es[0], "");
      if !EntryStep(c, st, now, es[0]).aborted {
        PassSynced(c, EntryStep(c, st, now, es[0]).st, now, es[1..]);
      }
    }
  }

  /** Between events the receipts in memory are those in the file: an error ends the watcher, which then reads the file. */
  lemma {:induction false} StepSynced(c: Config, st: State, ev: Event)
    requires st.disk == st.receipts
    ensures Step(c, st, ev).disk == Step(c, st, ev).receipts
  {
    hide Entries;
    if ev.Polled? {
      PassSynced(c, st, ev.p.now, ev.p.entries);
    }
  }

  ghost predicate WellListed(ev: Event) {
    ev.Polled? ==> DistinctNames(ev.p.entries)
  }

  /** How the observation of a name changes in a poll that succeeds. */
  lemma {:induction false} ObservationStep(c: Config, st: State, ev: Event, name: string)
    requires WellListed(ev) && Succeeds(c, st, ev)
    ensures var now_is := Get(Step(c, st, ev).observed, name);
            var was := Get(st.observed, name);
            match Sight(ev, name)
            case None => now_is == None
            case Some(candidate) =>
              if was.Some? && Stable(was.value.candidate, candidate) then
                now_is == None || now_is == was || now_is == Some(was.value.(handled := true))
              else now_is == Some(Observation(candidate, ev.p.now, false))
  {
    hide EntryStep, Entries, Pruned, Stable, Sent;
    var p := ev.p;
    var o := Entries(c, st, p.now, p.entries);
    PresentIff(p.entries, name);
    PrunedAt(c, o.st, Present(p.entries), p.pruneOk, name);
    if Sight(ev, name).Some? {
      var mid, reached := EntriesAt(c, st, p.now, p.entries, name);
      EntryFacts(c, mid, p.now, Find(p.entries, name).value);
    }
  }

  /** Everything that is true when a name is submitted. */
  lemma {:induction false} SubmissionStep(c: Config, st: State, ev: Event, name: string)
    requires WellListed(ev) && Sent(Step(c, st, ev).log, name) != Sent(st.log, name)
    ensures ev.Polled? && Sight(ev, name).Some?
    ensures var was := Get(st.observed, name);
            var e := Find(ev.p.entries, name).value;
            var t := Step(c, st, ev);
            && was.Some? && Stable(was.value.candidate, Sight(ev, name).value) && !was.value.handled
            && ev.p.now - was.value.firstSeen >= c.stableFor
            && e.stage.Staged? && Sent(t.log, name) == Sent(st.log, name) + [e.stage.snapshot]
            && (c.useReceipts ==> !Matches(st.receipts, name, e.stage.snapshot))
            && (Succeeds(c, st, ev) ==> Get(t.observed, name) == Some(was.value.(handled := true)))
  {
    hide EntryStep, Entries, Pruned, Stable, Sent;
    var p := ev.p;
    var o := Entries(c, st, p.now, p.entries);
    PresentIff(p.entries, name);
    PrunedAt(c, o.st, Present(p.entries), p.pruneOk, name);
    if Find(p.entries, name) == None {
      EntriesSkip(c, st, p.now, p.entries, name);
    } else {
      var mid, reached := EntriesAt(c, st, p.now, p.entries, name);
      EntrySubmits(c, mid, p.now, Find(p.entries, name).value);
    }
  }

  /** How the receipt of a name changes. */
  lemma {:induction false} ReceiptStep(c: Config, st: State, ev: Event, name: string)
    requires WellListed(ev) && c.useReceipts && st.disk == st.receipts
    ensures var t := Step(c, st, ev);
            if Sent(t.log, name) != Sent(st.log, name) then
              && ev.Polled? && Find(ev.p.entries, name).Some?
              && var e := Find(ev.p.entries, name).value;
                 && e.stage.Staged?
                 && Get(t.receipts, name) == if e.saveOk then Some(ReceiptOf(e.stage.snapshot)) else Get(st.receipts, name)
            else
              Get(t.receipts, name) == Get(st.receipts, name)
              || (Succeeds(c, st, ev) && Sight(ev, name) == None && Get(t.receipts, name) == None)
  {
    hide EntryStep, Entries, Pruned, Stable, Sent;
    if ev.Polled? {
      var p := ev.p;
      var o := Entries(c, st, p.now, p.entries);
      EntriesDisk(c, st, p.now, p.entries, name);
      PresentIff(p.entries, name);
      PrunedAt(c, o.st, Present(p.entries), p.pruneOk, name);
      PruneFailureKeepsDisk(c, o.st, Present(p.entries), p.pruneOk);
      if Sent(Step(c, st, ev).log, name) != Sent(st.log, name) {
        SubmissionStep(c, st, ev, name);
      }
    }
  }

  lemma {:induction false} PruneFailureKeepsDisk(c: Config, st: State, present: set<string>, pruneOk: bool)
    ensures var o := Pruned(c, st, present, pruneOk);
            && (o.aborted ==> o.st.disk == st.disk)
            && o.st.log == st.log
  {
  }

  // ------------------------------------------------ runs

  /** Event i was a successful poll that saw the name as this candidate. */
  ghost predicate SawAt(c: Config, saved: map<string, Receipt>, evs: seq<Event>, i: nat, name: string,
      candidate: Candidate)
    requires i < |evs|
  {
    && Succeeds(c, Before(c, saved, evs, i), evs[i])
    && Sight(evs[i], name).Some? && Stable(candidate, Sight(evs[i], name).value)
  }

  /** An observation goes back to a poll from which on every poll succeeded and saw the same file. */
  lemma {:induction false} ObservedSince(c: Config, saved: map<string, Receipt>, evs: seq<Event>, k: nat, name: string)
    returns (j: nat)
    requires Listings(evs) && k <= |evs| && Get(Before(c, saved, evs, k).observed, name).Some?
    ensures var o := Get(Before(c, saved, evs, k).observed, name).value;
            && j < k && evs[j].Polled? && evs[j].p.now == o.firstSeen
            && forall i :: j <= i < k ==> SawAt(c, saved, evs, i, name, o.candidate)
    decreases k
  {
    hide PollSpec, Stable, Sight;
    var st := Before(c, saved, evs, k - 1);
    var ev := evs[k - 1];
    assert WellListed(ev);
    ObservationStep(c, st, ev, name);
    var was := Get(st.observed, name);
    var candidate := Sight(ev, name).value;
    if was.Some? && Stable(was.value.candidate, candidate) {
      j := ObservedSince(c, saved, evs, k - 1, name);
    } else {
      StableItself(candidate);
      j := k - 1;
    }
  }

  lemma {:induction false} StableItself(candidate: Candidate)
    ensures Stable(candidate, candidate)
  {
  }

  /** What event k submitted under a name. */
  predicate SubmitsAt(c: Config, saved: map<string, Receipt>, evs: seq<Event>, k: nat, name: string)
    requires k < |evs|
  {
    Sent(Before(c, saved, evs, k + 1).log, name) != Sent(Before(c, saved, evs, k).log, name)
  }

  /**
   A name is submitted only after the same path, size and modification time was seen at every poll
   since one at least `StableFor` earlier, with no failure or restart in between.
   */
  lemma {:induction false} SubmittedOnlyWhenStable(c: Config, saved: map<string, Receipt>, evs: seq<Event>, k: nat,
      name: string)
    returns (j: nat)
    requires Listings(evs) && k < |evs| && SubmitsAt(c, saved, evs, k, name)
    ensures j < k && evs[j].Polled? && evs[k].Polled? && evs[k].p.now - evs[j].p.now >= c.stableFor
    ensures Sight(evs[j], name).Some? && Sight(evs[k], name).Some?
    ensures forall i :: j <= i < k ==> SawAt(c, saved, evs, i, name, Sight(evs[k], name).value)
  {
    hide PollSpec, Stable, Sight, Sent, Step;
    var st := Before(c, saved, evs, k);
    assert WellListed(evs[k]);
    SubmissionStep(c, st, evs[k], name);
    j := ObservedSince(c, saved, evs, k, name);
    var o := Get(st.observed, name).value;
    var last := Sight(evs[k], name).value;
    forall i | j <= i < k ensures SawAt(c, saved, evs, i, name, last) {
      assert SawAt(c, saved, evs, i, name, o.candidate);
      StableSwaps(o.candidate, last, Sight(evs[i], name).value);
    }
    assert SawAt(c, saved, evs, j, name, last);
  }

  lemma {:induction false} StableSwaps(a: Candidate, b: Candidate, x: Candidate)
    requires Stable(a, b) && Stable(a, x)
    ensures Stable(b, x)
  {
  }

  /** The file under a name has been dealt with. */
  predicate HandledAs(st: State, name: string, candidate: Candidate) {
    Get(st.observed, name).Some? && Get(st.observed, name).value.handled && Stable(Get(st.observed, name).value.candidate, candidate)
  }

  lemma {:induction false} StaysHandled(c: Config, saved: map<string, Receipt>, evs: seq<Event>, m: nat, k: nat,
      name: string, candidate: Candidate)
    requires Listings(evs) && m <= k <= |evs|
    requires HandledAs(Before(c, saved, evs, m), name, candidate)
    requires forall i :: m <= i < k ==> SawAt(c, saved, evs, i, name, candidate)
    ensures HandledAs(Before(c, saved, evs, k), name, candidate)
    decreases k
  {
    hide PollSpec, Stable, Sight, Step, Sent;
    if m < k {
      StaysHandled(c, saved, evs, m, k - 1, name, candidate);
      var st := Before(c, saved, evs, k - 1);
      assert SawAt(c, saved, evs, k - 1, name, candidate);
      assert WellListed(evs[k - 1]);
      HandledStep(c, st, evs[k - 1], name, candidate);
    }
  }

  lemma {:induction false} HandledStep(c: Config, st: State, ev: Event, name: string, candidate: Candidate)
    requires WellListed(ev) && Succeeds(c, st, ev) && HandledAs(st, name, candidate)
    requires Sight(ev, name).Some? && Stable(candidate, Sight(ev, name).value)
    ensures HandledAs(Step(c, st, ev), name, candidate)
  {
    hide EntryStep, Entries, Pruned, Sent;
    var p := ev.p;
    var o := Entries(c, st, p.now, p.entries);
    PresentIff(p.entries, name);
    PrunedAt(c, o.st, Present(p.entries), p.pruneOk, name);
    var mid, reached := EntriesAt(c, st, p.now, p.entries, name);
    EntryFacts(c, mid, p.now, Find(p.entries, name).value);
  }

  /** A file that stays as it was when it was submitted is not submitted again while the watcher runs. */
  lemma {:induction false} SubmittedOnce(c: Config, saved: map<string, Receipt>, evs: seq<Event>, m: nat, k: nat,
      name: string)
    requires Listings(evs) && m < k < |evs|
    requires SubmitsAt(c, saved, evs, m, name) && Succeeds(c, Before(c, saved, evs, m), evs[m]) && Sight(evs[m], name).Some?
    requires forall i :: m < i < k ==> SawAt(c, saved, evs, i, name, Sight(evs[m], name).value)
    requires Sight(evs[k], name).Some? && Stable(Sight(evs[m], name).value, Sight(evs[k], name).value)
    ensures !SubmitsAt(c, saved, evs, k, name)
  {
    hide PollSpec, Sight, Step, Sent;
    var candidate := Sight(evs[m], name).value;
    assert WellListed(evs[m]) && WellListed(evs[k]);
    SubmissionStep(c, Before(c, saved, evs, m), evs[m], name);
    assert HandledAs(Before(c, saved, evs, m + 1), name, candidate);
    StaysHandled(c, saved, evs, m + 1, k, name, candidate);
    if SubmitsAt(c, saved, evs, k, name) {
      SubmissionStep(c, Before(c, saved, evs, k), evs[k], name);
    }
  }

  // ------------------------------------------------ receipts

  lemma {:induction false} SyncedThroughout(c: Config, saved: map<string, Receipt>, evs: seq<Event>, k: nat)
    requires k <= |evs|
    ensures Before(c, saved, evs, k).disk == Before(c, saved, evs, k).receipts
    decreases k
  {
    hide Step;
    if k > 0 {
      SyncedThroughout(c, saved, evs, k - 1);
      StepSynced(c, Before(c, saved, evs, k - 1), evs[k - 1]);
    }
  }

  /** No successful poll in m+1 .. k-1 found the name missing, and nothing was submitted under it. */
  ghost predicate StaysPresent(c: Config, saved: map<string, Receipt>, evs: seq<Event>, m: nat, k: nat, name: string)
    requires m <= k <= |evs|
  {
    forall i :: m <= i < k ==>
      && !SubmitsAt(c, saved, evs, i, name)
      && (Succeeds(c, Before(c, saved, evs, i), evs[i]) ==> Sight(evs[i], name).Some?)
  }

  lemma {:induction false} ReceiptStays(c: Config, saved: map<string, Receipt>, evs: seq<Event>, m: nat, k: nat,
      name: string, r: Receipt)
    requires Listings(evs) && c.useReceipts && m <= k <= |evs| && StaysPresent(c, saved, evs, m, k, name)
    requires Get(Before(c, saved, evs, m).receipts, name) == Some(r)
    ensures Get(Before(c, saved, evs, k).receipts, name) == Some(r)
    decreases k
  {
    hide PollSpec, Sight, Step, Sent, Succeeds;
    if m < k {
      ReceiptStays(c, saved, evs, m, k - 1, name, r);
      SyncedThroughout(c, saved, evs, k - 1);
      assert WellListed(evs[k - 1]) && !SubmitsAt(c, saved, evs, k - 1, name);
      ReceiptStep(c, Before(c, saved, evs, k - 1), evs[k - 1], name);
    }
  }

  /** The receipt that belongs to what event k submitted under a name. */
  function Submitted(c: Config, saved: map<string, Receipt>, evs: seq<Event>, k: nat, name: string): Receipt
    requires k < |evs| && Sent(Before(c, saved, evs, k + 1).log, name) != []
  {
    var sent := Sent(Before(c, saved, evs, k + 1).log, name);
    ReceiptOf(sent[|sent| - 1])
  }

  /** Event k submits under a name, with receipts in use and this one receipt saved. */
  predicate SavedAt(c: Config, evs: seq<Event>, k: nat, name: string)
    requires k < |evs|
  {
    c.useReceipts && evs[k].Polled? && Find(evs[k].p.entries, name).Some? && Find(evs[k].p.entries, name).value.saveOk
  }

  /** After the submission at m the same content is submitted at k, the name having been there all the time. */
  ghost predicate Repeats(c: Config, saved: map<string, Receipt>, evs: seq<Event>, m: nat, k: nat, name: string)
  {
    && m < k < |evs| && Listings(evs)
    && SubmitsAt(c, saved, evs, m, name) && SubmitsAt(c, saved, evs, k, name)
    && StaysPresent(c, saved, evs, m + 1, k, name)
    && Sent(Before(c, saved, evs, m + 1).log, name) != [] && Sent(Before(c, saved, evs, k + 1).log, name) != []
    && Submitted(c, saved, evs, m, name) == Submitted(c, saved, evs, k, name)
  }

  lemma {:induction false} SubmissionAt(c: Config, saved: map<string, Receipt>, evs: seq<Event>, k: nat, name: string)
    requires Listings(evs) && k < |evs| && SubmitsAt(c, saved, evs, k, name)
    ensures evs[k].Polled? && Find(evs[k].p.entries, name).Some?
    ensures var e := Find(evs[k].p.entries, name).value;
            && e.observed.Visible? && e.stage.Staged?
            && Sent(Before(c, saved, evs, k + 1).log, name) != []
            && Submitted(c, saved, evs, k, name) == ReceiptOf(e.stage.snapshot)
            && (c.useReceipts ==> Get(Before(c, saved, evs, k).receipts, name) != Some(ReceiptOf(e.stage.snapshot)))
  {
    hide PollSpec, Sent, Step, Succeeds;
    assert WellListed(evs[k]);
    SubmissionStep(c, Before(c, saved, evs, k), evs[k], name);
  }

  /**
   Across any polls, failures and restarts, and whatever happens to the receipts of other files: content
   whose own receipt was saved is not submitted again under its name while the name stays there.
   */
  lemma {:induction false} ContentNotResubmitted(c: Config, saved: map<string, Receipt>, evs: seq<Event>, m: nat,
      k: nat, name: string)
    requires m < |evs| && SavedAt(c, evs, m, name)
    ensures !Repeats(c, saved, evs, m, k, name)
  {
    hide PollSpec, Sight, Step, Sent, Succeeds, StaysPresent, Submitted;
    if Repeats(c, saved, evs, m, k, name) {
      assert WellListed(evs[m]);
      SyncedThroughout(c, saved, evs, m);
      SubmissionAt(c, saved, evs, m, name);
      ReceiptStep(c, Before(c, saved, evs, m), evs[m], name);
      var first := Submitted(c, saved, evs, m, name);
      ReceiptStays(c, saved, evs, m + 1, k, name, first);
      SubmissionAt(c, saved, evs, k, name);
      assert false;
    }
  }

  lemma {:induction false} BeforePrefix(c: Config, saved: map<string, Receipt>, evs: seq<Event>, more: seq<Event>, k: nat)
    requires k <= |evs|
    ensures Before(c, saved, evs + more, k) == Before(c, saved, evs, k)
    decreases k
  {
    hide Step;
    if k > 0 {
      BeforePrefix(c, saved, evs, more, k - 1);
    }
  }

  /** The file `e` seen again as it was, with everything going well this time. */
  function SeenAgain(e: Seen, now: int): Event
    requires e.observed.Visible? && e.stage.Staged?
  {
    Polled(Poll(now, true, [e.(submitOk := true, saveOk := true)], true))
  }

  /** Stopped and started, then the same file at two polls far enough apart. */
  function Again(c: Config, e: Seen, now: int): seq<Event>
    requires e.observed.Visible? && e.stage.Staged?
  {
    [Restart, SeenAgain(e, now), SeenAgain(e, now + if c.stableFor > 0 then c.stableFor else 0)]
  }

  lemma {:induction false} SightAgain(e: Seen, now: int)
    requires e.observed.Visible? && e.stage.Staged?
    ensures var ev := SeenAgain(e, now);
            DistinctNames(ev.p.entries) && Find(ev.p.entries, e.name) == Some(ev.p.entries[0]) && Sight(ev, e.name).Some?
            && Present(ev.p.entries) == {e.name}
  {
    var again := e.(submitOk := true, saveOk := true);
    assert again in [again];
  }

  /** From a fresh start, a file without a receipt is observed and then submitted. */
  lemma {:induction false} FirstAgain(c: Config, st: State, e: Seen, now: int)
    requires e.observed.Visible? && e.stage.Staged? && st.observed == map[]
    ensures var t := Step(c, st, SeenAgain(e, now));
            && Succeeds(c, st, SeenAgain(e, now))
            && Get(t.observed, e.name) == Some(Observation(e.observed.candidate, now, false))
            && Get(t.receipts, e.name) == Get(st.receipts, e.name) && t.log == st.log
  {
    OneEntry(c, st, now, e.(submitOk := true, saveOk := true));
  }

  lemma {:induction false} SecondAgain(c: Config, st: State, e: Seen, now: int, first: int)
    requires e.observed.Visible? && e.stage.Staged? && now - first >= c.stableFor
    requires Get(st.observed, e.name) == Some(Observation(e.observed.candidate, first, false))
    requires c.useReceipts ==> Get(st.receipts, e.name) != Some(ReceiptOf(e.stage.snapshot))
    ensures Step(c, st, SeenAgain(e, now)).log == st.log + [(e.name, e.stage.snapshot)]
  {
    OneEntry(c, st, now, e.(submitOk := true, saveOk := true));
  }

  /** After a submission whose receipt was not saved, the content is submitted again. */
  lemma {:induction false} UnsavedIsRepeated(c: Config, saved: map<string, Receipt>, evs: seq<Event>, name: string)
    returns (more: seq<Event>)
    requires Listings(evs) && evs != [] && SubmitsAt(c, saved, evs, |evs| - 1, name) && !SavedAt(c, evs, |evs| - 1, name)
    ensures |more| == 3 && Repeats(c, saved, evs + more, |evs| - 1, |evs| + 2, name)
  {
    hide PollSpec, Sent, Step, Succeeds, Sight, SeenAgain, DistinctNames;
    var m := |evs| - 1;
    SubmissionAt(c, saved, evs, m, name);
    var e := Find(evs[m].p.entries, name).value;
    var now := evs[m].p.now;
    more := Again(c, e, now);
    var all := evs + more;
    var last := now + if c.stableFor > 0 then c.stableFor else 0;
    SightAgain(e, now);
    SightAgain(e, last);
    assert all[..|evs|] == evs && all[m] == evs[m];
    assert all[m + 1] == Restart && all[m + 2] == SeenAgain(e, now) && all[m + 3] == SeenAgain(e, last);
    MoreListings(evs, more);
    BeforePrefix(c, saved, evs, more, m);
    BeforePrefix(c, saved, evs, more, m + 1);
    var s := Before(c, saved, all, m + 1);
    var s1, s2, s3 := Before(c, saved, all, m + 2), Before(c, saved, all, m + 3), Before(c, saved, all, m + 4);
    RestartStep(c, s);
    NotYetReceipted(c, saved, evs, name);
    FirstAgain(c, s1, e, now);
    SecondAgain(c, s2, e, last, now);
    SentSnoc(s2.log, name, e.stage.snapshot, name);
    assert SubmitsAt(c, saved, all, m + 3, name);
    assert Submitted(c, saved, all, m, name) == Submitted(c, saved, evs, m, name);
    StaysPresentAgain(c, saved, all, m, name);
  }

  lemma {:induction false} StaysPresentAgain(c: Config, saved: map<string, Receipt>, all: seq<Event>, m: nat, name: string)
    requires |all| == m + 4 && all[m + 1] == Restart && all[m + 2].Polled? && Sight(all[m + 2], name).Some?
    requires Sent(Before(c, saved, all, m + 2).log, name) == Sent(Before(c, saved, all, m + 1).log, name)
    requires Sent(Before(c, saved, all, m + 3).log, name) == Sent(Before(c, saved, all, m + 2).log, name)
    ensures StaysPresent(c, saved, all, m + 1, m + 3, name)
  {
    hide PollSpec, Sent, Before, Sight;
    forall i | m + 1 <= i < m + 3
      ensures !SubmitsAt(c, saved, all, i, name) && (Succeeds(c, Before(c, saved, all, i), all[i]) ==> Sight(all[i], name).Some?)
    {
      assert i == m + 1 || i == m + 2;
    }
  }

  lemma {:induction false} MoreListings(evs: seq<Event>, more: seq<Event>)
    requires Listings(evs) && Listings(more)
    ensures Listings(evs + more)
  {
    hide DistinctNames;
    forall i | 0 <= i < |evs + more| && (evs + more)[i].Polled? ensures DistinctNames((evs + more)[i].p.entries) {
      if i >= |evs| {
        assert (evs + more)[i] == more[i - |evs|];
      }
    }
  }

  /** A receipt that was not saved is not there after a restart. */
  lemma {:induction false} NotYetReceipted(c: Config, saved: map<string, Receipt>, evs: seq<Event>, name: string)
    requires Listings(evs) && evs != [] && SubmitsAt(c, saved, evs, |evs| - 1, name) && !SavedAt(c, evs, |evs| - 1, name)
    ensures evs[|evs| - 1].Polled? && Find(evs[|evs| - 1].p.entries, name).Some?
    ensures var e := Find(evs[|evs| - 1].p.entries, name).value;
            e.stage.Staged?
            && (c.useReceipts ==> Get(Before(c, saved, evs, |evs|).disk, name) != Some(ReceiptOf(e.stage.snapshot)))
  {
    hide PollSpec, Sent, Step, Succeeds, Sight;
    var m := |evs| - 1;
    assert WellListed(evs[m]);
    SubmissionAt(c, saved, evs, m, name);
    SyncedThroughout(c, saved, evs, m);
    SyncedThroughout(c, saved, evs, m + 1);
    if c.useReceipts {
      ReceiptStep(c, Before(c, saved, evs, m), evs[m], name);
    }
  }

  /** What the last event of a run submitted is submitted again when the run goes on with `more`. */
  ghost predicate RepeatsLater(c: Config, saved: map<string, Receipt>, evs: seq<Event>, more: seq<Event>, k: nat, name: string)
    requires evs != []
  {
    Repeats(c, saved, evs + more, |evs| - 1, k, name)
  }

  /**
   Exactly when a submission is protected: whatever happens afterwards, its content is not submitted
   again under its name while the name stays there, if and only if its own receipt was saved.
   */
  lemma {:induction false} ProtectedExactlyWhenSaved(c: Config, saved: map<string, Receipt>, evs: seq<Event>, name: string)
    requires Listings(evs) && evs != [] && SubmitsAt(c, saved, evs, |evs| - 1, name)
    ensures (forall more, k :: !RepeatsLater(c, saved, evs, more, k, name)) <==> SavedAt(c, evs, |evs| - 1, name)
  {
    hide Repeats, SubmitsAt, Find;
    var m := |evs| - 1;
    if SavedAt(c, evs, m, name) {
      forall more, k ensures !RepeatsLater(c, saved, evs, more, k, name) {
        assert (evs + more)[m] == evs[m];
        ContentNotResubmitted(c, saved, evs + more, m, k, name);
      }
    } else {
      var more := UnsavedIsRepeated(c, saved, evs, name);
      assert RepeatsLater(c, saved, evs, more, |evs| + 2, name);
    }
  }

  /** After a successful poll, observations and receipts are only of names that are there, and receipts are saved. */
  lemma {:induction false} OnlyPresentNames(c: Config, saved: map<string, Receipt>, evs: seq<Event>, k: nat, name: string)
    requires Listings(evs) && k < |evs| && Succeeds(c, Before(c, saved, evs, k), evs[k])
    ensures var t := Before(c, saved, evs, k + 1);
            && (name in t.observed || (c.useReceipts && name in t.receipts) ==> Sight(evs[k], name).Some?)
            && t.disk == t.receipts
  {
    hide Entries, Before;
    var st, ev := Before(c, saved, evs, k), evs[k];
    SyncedThroughout(c, saved, evs, k + 1);
    PresentIff(ev.p.entries, name);
    LastStep(c, saved, evs, k);
    assert PollSpec(c, st, ev.p).st == Pruned(c, Entries(c, st, ev.p.now, ev.p.entries).st, Present(ev.p.entries), ev.p.pruneOk).st;
  }

  lemma {:induction false} LastStep(c: Config, saved: map<string, Receipt>, evs: seq<Event>, k: nat)
    requires k < |evs|
    ensures Before(c, saved, evs, k + 1) == Step(c, Before(c, saved, evs, k), evs[k])
  {
    hide Step;
  }

  // ------------------------------------------------ submitted and not recorded

  const SAMPLE := Candidate("drop/disk.adf", "disk.adf", 1, 0)
  const STAGED := Snapshot("incoming/disk.adf", "digest", 1)

  /** A poll that finds the one file, unchanged, and can do everything but perhaps save the receipt. */
  function SamplePoll(now: int, saveOk: bool): Event {
    Polled(Poll(now, true, [Seen("disk.adf", Visible(SAMPLE), Staged(STAGED), true, saveOk)], true))
  }

  const WITH_RECEIPTS := Config(1, true)

  /** Seen, submitted but stopped before the receipt is saved, restarted, seen, and submitted once more. */
  const STOPPED_RUN: seq<Event> := [SamplePoll(0, true), SamplePoll(1, false), Restart, SamplePoll(2, true), SamplePoll(3, true)]

  lemma {:induction false} OneEntry(c: Config, st: State, now: int, e: Seen)
    ensures Entries(c, st, now, [e]) == EntryStep(c, st, now, e)
    ensures e.observed.Visible? ==> Present([e]) == {e.name}
  {
    hide EntryStep;
    assert [e][1..] == [];
    assert e in [e];
  }

  /**
   The limit of the receipts: when the watcher stops between submitting and saving the receipt, the same
   content is submitted again after the restart, so delivery is at least once.
   */
  lemma {:induction false} StoppedBeforeReceipt()
    ensures Before(WITH_RECEIPTS, map[], STOPPED_RUN, 5).log == [("disk.adf", STAGED), ("disk.adf", STAGED)]
  {
    var c := WITH_RECEIPTS;
    var seen := map["disk.adf" := Observation(SAMPLE, 0, false)];
    var s0 := Start(map[]);
    var s1 := State(seen, map[], map[], []);
    FirstSight(s0, 0);
    Unsaved(s1);
    var s2 := Step(c, s1, STOPPED_RUN[1]);
    var s3 := Restarted(s2);
    FirstSight(s3, 2);
    var s4 := Step(c, s3, STOPPED_RUN[3]);
    SubmittedAgain(s4);
    hide Step, Start, Restarted;
    assert Before(c, map[], STOPPED_RUN, 0) == s0;
    assert Before(c, map[], STOPPED_RUN, 1) == s1;
    assert Before(c, map[], STOPPED_RUN, 2) == s2;
    assert Step(c, s2, STOPPED_RUN[2]) == s3 by { RestartStep(c, s2); }
    assert Before(c, map[], STOPPED_RUN, 3) == s3;
    assert Before(c, map[], STOPPED_RUN, 4) == s4;
    assert [("disk.adf", STAGED)] + [("disk.adf", STAGED)] == [("disk.adf", STAGED), ("disk.adf", STAGED)];
  }

  lemma {:induction false} RestartStep(c: Config, st: State)
    ensures Step(c, st, Restart) == Restarted(st)
  {
  }

  lemma {:induction false} FirstSight(st: State, now: int)
    requires st.observed == map[] && st.receipts == map[] == st.disk
    ensures Step(WITH_RECEIPTS, st, SamplePoll(now, true))
         == State(map["disk.adf" := Observation(SAMPLE, now, false)], map[], map[], st.log)
  {
    OneEntry(WITH_RECEIPTS, st, now, Seen("disk.adf", Visible(SAMPLE), Staged(STAGED), true, true));
    var o := map["disk.adf" := Observation(SAMPLE, now, false)];
    assert st.observed["disk.adf" := Observation(SAMPLE, now, false)] == o;
    assert Restrict(o, {"disk.adf"}) == o;
    assert Restrict(st.receipts, {"disk.adf"}) == st.receipts;
  }

  lemma {:induction false} Unsaved(st: State)
    requires st == State(map["disk.adf" := Observation(SAMPLE, 0, false)], map[], map[], [])
    ensures var t := Step(WITH_RECEIPTS, st, SamplePoll(1, false));
            t.log == [("disk.adf", STAGED)] && t.disk == map[]
  {
    OneEntry(WITH_RECEIPTS, st, 1, Seen("disk.adf", Visible(SAMPLE), Staged(STAGED), true, false));
  }

  lemma {:induction false} SubmittedAgain(st: State)
    requires st.observed == map["disk.adf" := Observation(SAMPLE, 2, false)] && st.receipts == map[]
    ensures Step(WITH_RECEIPTS, st, SamplePoll(3, true)).log == st.log + [("disk.adf", STAGED)]
  {
    OneEntry(WITH_RECEIPTS, st, 3, Seen("disk.adf", Visible(SAMPLE), Staged(STAGED), true, true));
  }
}
