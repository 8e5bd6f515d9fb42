/**
 The drop-folder watcher and its receipts (internal/dropfolder/watcher.go, receipts.go, dropfolder.go).

 What the file system and the queue answer during a poll is input: one `Seen` per directory entry.
 */
module DropFolder {
  datatype Candidate = Candidate(path: string, name: string, size: int, modTime: int)

  datatype Snapshot = Snapshot(path: string, sha: string, size: int)

  datatype Receipt = Receipt(sha: string, size: int)

  datatype Observation = Observation(candidate: Candidate, firstSeen: int, handled: bool)

  /** `Stage`: a snapshot, the file changed or vanished meanwhile, or another error. */
  datatype StageResult = Staged(snapshot: Snapshot) | ChangedMeanwhile | StageError

  /** `Observe`: a visible regular non-empty file, something else, or an error. */
  datatype ObserveResult = Visible(candidate: Candidate) | NotACandidate | ObserveError

  /** Everything the surroundings answer about one directory entry during one poll. */
  datatype Seen = Seen(name: string, observed: ObserveResult, stage: StageResult, submitOk: bool, saveOk: bool)

  datatype Poll = Poll(now: int, readOk: bool, entries: seq<Seen>, pruneOk: bool)

  datatype Config = Config(stableFor: int, useReceipts: bool)

  /** `disk` is the receipt file, `log` the snapshots handed to the queue so far. */
  datatype State = State(
    observed: map<string, Observation>,
    receipts: map<string, Receipt>,
    disk: map<string, Receipt>,
    log: seq<(string, Snapshot)>)

  /** `Stable`. */
  predicate Stable(first: Candidate, second: Candidate) {
    first.path == second.path && first.size == second.size && first.modTime == second.modTime
  }

  /** `ReceiptStore.Matches`. */
  predicate Matches(receipts: map<string, Receipt>, name: string, s: Snapshot) {
    name in receipts && receipts[name] == Receipt(s.sha, s.size)
  }

  datatype Outcome = Outcome(st: State, aborted: bool)

  /** One iteration of the poll loop; `aborted` where the source returns an error. */
  function EntryStep(c: Config, st: State, now: int, e: Seen): Outcome {
    match e.observed
    case ObserveError => Outcome(st, true)
    case NotACandidate => Outcome(st, false)
    case Visible(candidate) =>
      if e.name !in st.observed || !Stable(st.observed[e.name].candidate, candidate) then
        Outcome(st.(observed := st.observed[e.name := Observation(candidate, now, false)]), false)
      else
        var previous := st.observed[e.name];
        if previous.handled || now - previous.firstSeen < c.stableFor then Outcome(st, false)
        else
          match e.stage
          case ChangedMeanwhile => Outcome(st.(observed := st.observed - {e.name}), false)
          case StageError => Outcome(st, true)
          case Staged(snapshot) =>
            var handled := st.observed[e.name := previous.(handled := true)];
            if c.useReceipts && Matches(st.receipts, e.name, snapshot) then Outcome(st.(observed := handled), false)
            else if !e.submitOk then Outcome(st, false)
            else
              var sent := st.(log := st.log + [(e.name, snapshot)]);
              if !c.useReceipts then Outcome(sent.(observed := handled), false)
              else
                var receipts := st.receipts[e.name := Receipt(snapshot.sha, snapshot.size)];
                if e.saveOk then Outcome(sent.(observed := handled, receipts := receipts, disk := receipts), false)
                else Outcome(sent.(receipts := receipts), true)
  }

  function Entries(c: Config, st: State, now: int, es: seq<Seen>): Outcome
    decreases |es|
  {
    if es == [] then Outcome(st, false)
    else
      var o := EntryStep(c, st, now, es[0]);
      if o.aborted then o else Entries(c, o.st, now, es[1..])
  }

  /** The names that were candidates in this poll. */
  function Present(es: seq<Seen>): set<string> {
    set e | e in es && e.observed.Visible? :: e.name
  }

  function Restrict<T>(m: map<string, T>, names: set<string>): map<string, T> {
    map n | n in m && n in names :: m[n]
  }

  /** `Prune` and the forgetting of observations at the end of a poll. */
  function Pruned(c: Config, st: State, present: set<string>, pruneOk: bool): Outcome {
    var kept := st.(observed := Restrict(st.observed, present));
    if !c.useReceipts then Outcome(kept, false)
    else
      var receipts := Restrict(st.receipts, present);
      if receipts == st.receipts then Outcome(kept, false)
      else if pruneOk then Outcome(kept.(receipts := receipts, disk := receipts), false)
      else Outcome(kept.(receipts := receipts), true)
  }

  /** `poll`. */
  function PollSpec(c: Config, st: State, p: Poll): Outcome {
    if !p.readOk then Outcome(st, true)
    else
      var o := Entries(c, st, p.now, p.entries);
      if o.aborted then o else Pruned(c, o.st, Present(p.entries), p.pruneOk)
  }

  // ------------------------------------------------ the watcher as code

  class Watcher {
    const c: Config
    var observed: map<string, Observation>
    var receipts: map<string, Receipt>
    var disk: map<string, Receipt>
    var log: seq<(string, Snapshot)>

    ghost function View(): State
      reads this
    {
      State(observed, receipts, disk, log)
    }

    constructor (config: Config, saved: map<string, Receipt>)
      ensures c == config && View() == State(map[], saved, saved, [])
    {
      c, observed, receipts, disk, log := config, map[], saved, saved, [];
    }

    /** `poll`: the directory loop, then pruning. */
    method Poll(p: Poll) returns (failed: bool)
      modifies this
      ensures Outcome(View(), failed) == PollSpec(c, old(View()), p)
    {
      hide EntryStep, Pruned;
      if !p.readOk {
        return true;
      }
      var present: set<string> := {};
      var i := 0;
      ghost var start := View();
      while i < |p.entries|
        invariant 0 <= i <= |p.entries|
        invariant Entries(c, View(), p.now, p.entries[i..]) == Entries(c, start, p.now, p.entries)
        invariant present == Present(p.entries[..i])
      {
        var e := p.entries[i];
        assert p.entries[i..][0] == e && p.entries[i..][1..] == p.entries[i + 1..];
        assert Present(p.entries[..i + 1]) == Present(p.entries[..i]) + (if e.observed.Visible? then {e.name} else {}) by {
          PresentSnoc(p.entries[..i], e);
          assert p.entries[..i + 1] == p.entries[..i] + [e];
        }
        failed := Entry(p.now, e);
        if failed {
          return;
        }
        if e.observed.Visible? {
          present := present + {e.name};
        }
        i := i + 1;
      }
      assert p.entries[..|p.entries|] == p.entries;
      failed := Prune(present, p.pruneOk);
    }

    /** One directory entry. */
    method Entry(now: int, e: Seen) returns (failed: bool)
      modifies this
      ensures Outcome(View(), failed) == EntryStep(c, old(View()), now, e)
    {
      if e.observed.ObserveError? {
        return true;
      }
      if e.observed.NotACandidate? {
        return false;
      }
      var candidate := e.observed.candidate;
      if e.name !in observed || !Stable(observed[e.name].candidate, candidate) {
        observed := observed[e.name := Observation(candidate, now, false)];
        return false;
      }
      var previous := observed[e.name];
      if previous.handled || now - previous.firstSeen < c.stableFor {
        return false;
      }
      if e.stage.ChangedMeanwhile? {
        observed := observed - {e.name};
        return false;
      }
      if e.stage.StageError? {
        return true;
      }
      var snapshot := e.stage.snapshot;
      if c.useReceipts && Matches(receipts, e.name, snapshot) {
        observed := observed[e.name := previous.(handled := true)];
        return false;
      }
      if !e.submitOk {
        return false; // a full queue is retried at the next poll
      }
      log := log + [(e.name, snapshot)];
      if c.useReceipts {
        receipts := receipts[e.name := Receipt(snapshot.sha, snapshot.size)];
        if !e.saveOk {
          return true;
        }
        disk := receipts;
      }
      observed := observed[e.name := previous.(handled := true)];
      return false;
    }

    method Prune(present: set<string>, pruneOk: bool) returns (failed: bool)
      modifies this
      ensures Outcome(View(), failed) == Pruned(c, old(View()), present, pruneOk)
    {
      observed := Restrict(observed, present);
      if !c.useReceipts {
        return false;
      }
      var kept := Restrict(receipts, present);
      if kept == receipts {
        return false;
      }
      receipts := kept;
      if !pruneOk {
        return true;
      }
      disk := kept;
      return false;
    }
  }

  lemma {:induction false} PresentSnoc(es: seq<Seen>, e: Seen)
    ensures Present(es + [e]) == Present(es) + (if e.observed.Visible? then {e.name} else {})
  {
    forall x | x in es ensures x in es + [e] {}
    assert e in es + [e];
  }
}
