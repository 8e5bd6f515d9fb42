/**
 Which results survive a crash, over every run, with recorder failures anywhere: exactly those whose
 record reached the journal.
 */
module JobResults {
  import opened Common
  import opened JobManager
  import opened JobSafety
  import opened JobJournal
  import opened JobHistory
  import opened JobRecovery

  /** No result of this job was journalled. */
  ghost predicate NoResultYet(s: State, id: JobId) {
    forall i :: 0 <= i < |s.journal| && s.journal[i].0 == id ==> !IsResult(s.journal[i].1)
  }

  /** Nothing is journalled about a job after its result. */
  ghost predicate ResultsAreLast(s: State) {
    forall i, k :: 0 <= i < k < |s.journal| && IsResult(s.journal[i].1) ==> s.journal[k].0 != s.journal[i].0
  }

  /** A worker about to journal a result is the first to do so. */
  ghost predicate FreshAt(s: State, w: nat) {
    w < |s.workers| && s.workers[w].Finished? ==> NoResultYet(s, s.workers[w].id)
  }

  /** What the sweep still has to journal was canceled by it. */
  predicate TodoCanceled(s: State, id: JobId) {
    s.phase.Sweeping? && id in s.phase.todo ==> id in s.swept && (id in s.jobs ==> s.jobs[id].state == Canceled)
  }

  ghost predicate ResultInv(s: State) {
    && ResultsTrue(s) && ResultsAreLast(s)
    && (forall w: nat :: FreshAt(s, w))
    && (forall id :: TodoCanceled(s, id))
  }

  predicate Records(a: Action) {
    a.RecordSubmission? || a.RecordRejection? || a.RecordRunning? || a.RecordResult? || a.RecordCanceled?
  }

  lemma {:induction false} OthersJournalNothing(c: Config, s: State, a: Action)
    requires Enabled(c, s, a) && !Records(a)
    ensures Apply(c, s, a).journal == s.journal
  {
    match a
    case Register(_, _, _) =>
    case RemoveUnrecorded(_) =>
    case Enqueue(_) =>
    case FindQueueFull(_) =>
    case CancelOverflow(_) =>
    case Take(_) =>
    case Exit(_) =>
    case Begin(_) =>
    case EndScan(_, _) =>
    case Finish(_) =>
    case Stop(_) =>
    case Sweep(_) =>
    case Return =>
  }

  lemma {:induction false} NoResultUnlessTrue(s: State, id: JobId)
    requires ResultsTrue(s) && (id in s.jobs ==> !IsResult(s.jobs[id].state))
    ensures NoResultYet(s, id)
  {
  }

  /** Whatever is journalled next, no result of that job was journalled before. */
  lemma {:induction false} LineIsFresh(c: Config, s: State, a: Action)
    requires Inv(c, s) && ResultInv(s) && Enabled(c, s, a) && Records(a)
    ensures NoResultYet(s, LineOf(c, s, a).0)
  {
    hide JobOk, ScanOk, QueueOk, SweptOk, NoResultYet, ResultsAreLast, ResultsTrue, Basic;
    var id := LineOf(c, s, a).0;
    match a {
      case RecordSubmission(t, _) => assert SubmitterOk(s, t); NoResultUnlessTrue(s, id);
      case RecordRejection(t, _) => assert SubmitterOk(s, t); NoResultUnlessTrue(s, id);
      case RecordRunning(w, _) => assert WorkerOk(s, w); NoResultUnlessTrue(s, id);
      case RecordResult(w, _) => assert FreshAt(s, w);
      case RecordCanceled(_) => assert TodoCanceled(s, id); NoResultUnlessTrue(s, id);
    }
  }

  lemma {:induction false} ResultsStayLast(c: Config, s: State, a: Action)
    requires Inv(c, s) && ResultInv(s) && Enabled(c, s, a)
    ensures ResultsAreLast(Apply(c, s, a))
  {
    hide Inv, Enabled, Apply, IsResult, LineOf, ResultsTrue, FreshAt, TodoCanceled;
    if Records(a) {
      StepJournals(c, s, a);
      LineIsFresh(c, s, a);
      AddedLast(s, Apply(c, s, a), LineOf(c, s, a));
    } else {
      OthersJournalNothing(c, s, a);
    }
  }

  lemma {:induction false} AddedLast(s: State, n: State, line: Line)
    requires ResultsAreLast(s) && NoResultYet(s, line.0) && (n.journal == s.journal || n.journal == s.journal + [line])
    ensures ResultsAreLast(n)
  {
  }

  predicate ByWorker(a: Action) {
    a.Take? || a.Exit? || a.Begin? || a.RecordRunning? || a.EndScan? || a.Finish? || a.RecordResult?
  }

  lemma {:induction false} OthersKeepWorkers(c: Config, s: State, a: Action)
    requires Enabled(c, s, a) && !ByWorker(a)
    ensures Apply(c, s, a).workers == s.workers
  {
    match a
    case Register(_, _, _) =>
    case RecordSubmission(_, _) =>
    case RemoveUnrecorded(_) =>
    case Enqueue(_) =>
    case FindQueueFull(_) =>
    case CancelOverflow(_) =>
    case RecordRejection(_, _) =>
    case Stop(_) =>
    case Sweep(_) =>
    case RecordCanceled(_) =>
    case Return =>
  }

  /** A worker's step changes that worker only, and leaves it finished only if it finishes a scan. */
  lemma {:induction false} WorkerSteps(c: Config, s: State, a: Action)
    requires Enabled(c, s, a) && ByWorker(a)
    ensures var n := Apply(c, s, a);
            && a.w < |s.workers| && |n.workers| == |s.workers|
            && n.workers == s.workers[a.w := n.workers[a.w]]
            && (n.workers[a.w].Finished? ==> a.Finish? && s.workers[a.w].Scanned? && s.workers[a.w].id == n.workers[a.w].id)
  {
    match a
    case Take(_) =>
    case Exit(_) =>
    case EndScan(_, _) =>
    case Finish(_) =>
    case _ => WorkerStops(c, s, a);
  }

  lemma {:induction false} WorkerStops(c: Config, s: State, a: Action)
    requires Enabled(c, s, a) && (a.Begin? || a.RecordRunning? || a.RecordResult?)
    ensures var n := Apply(c, s, a);
            && a.w < |s.workers| && |n.workers| == |s.workers|
            && n.workers == s.workers[a.w := n.workers[a.w]] && !n.workers[a.w].Finished?
  {
    match a
    case Begin(_) =>
    case RecordRunning(_, _) =>
    case RecordResult(_, _) =>
  }

  /** How a worker comes to be finished. */
  lemma {:induction false} WorkerFinishes(c: Config, s: State, a: Action, w: nat)
    requires Enabled(c, s, a) && w < |Apply(c, s, a).workers| && Apply(c, s, a).workers[w].Finished?
    ensures w < |s.workers| && (a.RecordResult? ==> a.w != w)
    ensures var pc := s.workers[w];
            pc == Apply(c, s, a).workers[w] || (a.Finish? && pc.Scanned? && pc.id == Apply(c, s, a).workers[w].id)
  {
    hide Enabled, Apply;
    if ByWorker(a) {
      WorkerSteps(c, s, a);
    } else {
      OthersKeepWorkers(c, s, a);
    }
  }

  lemma {:induction false} StaysFresh(c: Config, s: State, a: Action, w: nat)
    requires Inv(c, s) && ResultInv(s) && Enabled(c, s, a)
    ensures FreshAt(Apply(c, s, a), w)
  {
    hide Inv, Enabled, Apply, LineOf, ResultsTrue, TodoCanceled, NoResultYet, ResultsAreLast;
    var n := Apply(c, s, a);
    if w < |n.workers| && n.workers[w].Finished? {
      WorkerFinishes(c, s, a, w);
      var id := n.workers[w].id;
      assert FreshAt(s, w);
      if s.workers[w].Scanned? {
        ScannedIsRunning(c, s, w);
        NoResultUnlessTrue(s, id);
      }
      if Records(a) {
        StepJournals(c, s, a);
        assert s.workers[w].Finished?;
        NotThisResult(c, s, a, w);
        StillNone(s, n, id, LineOf(c, s, a));
      } else {
        OthersJournalNothing(c, s, a);
        StillNone(s, n, id, ("", Pending));
      }
    }
  }

  lemma {:induction false} StillNone(s: State, n: State, id: JobId, line: Line)
    requires NoResultYet(s, id) && !(line.0 == id && IsResult(line.1))
    requires n.journal == s.journal || n.journal == s.journal + [line]
    ensures NoResultYet(n, id)
  {
  }

  lemma {:induction false} ScannedIsRunning(c: Config, s: State, w: nat)
    requires Inv(c, s) && w < |s.workers| && s.workers[w].Scanned?
    ensures s.workers[w].id in s.jobs && !IsResult(s.jobs[s.workers[w].id].state)
  {
    assert WorkerOk(s, w);
  }

  /** Another step journals no result of the job this worker holds. */
  lemma {:induction false} NotThisResult(c: Config, s: State, a: Action, w: nat)
    requires Inv(c, s) && Enabled(c, s, a) && Records(a)
    requires w < |s.workers| && s.workers[w].Finished? && (a.RecordResult? ==> a.w != w)
    ensures !(LineOf(c, s, a).0 == s.workers[w].id && IsResult(LineOf(c, s, a).1))
  {
    hide JobOk, ScanOk, QueueOk, SweptOk, SubmitterOk, Basic;
    assert WorkerOk(s, w);
    if a.RecordResult? {
      assert WorkerOk(s, a.w);
    }
  }

  // ------------------------------------------------ the sweep

  lemma {:induction false} TodoKept(c: Config, s: State, a: Action, id: JobId)
    requires Enabled(c, s, a) && Apply(c, s, a).phase.Sweeping? && !a.Sweep?
    ensures s.phase.Sweeping? && Apply(c, s, a).swept == s.swept
    ensures id in Apply(c, s, a).phase.todo ==> id in s.phase.todo
  {
    hide SetState, Released, Journalled;
    match a
    case Register(_, _, _) =>
    case RemoveUnrecorded(_) => ReleasedKeepsPhase(s, s.submitters[a.t].id);
    case Enqueue(_) =>
    case FindQueueFull(_) =>
    case CancelOverflow(_) =>
    case Take(_) =>
    case Exit(_) =>
    case EndScan(_, _) =>
    case Finish(_) =>
    case Stop(_) =>
    case Return =>
    case _ => RecordingKeepsTodo(c, s, a, id);
  }

  lemma {:induction false} ReleasedKeepsPhase(s: State, id: JobId)
    ensures Released(s, id).phase == s.phase && Released(s, id).swept == s.swept
  {
  }

  lemma {:induction false} RecordingKeepsTodo(c: Config, s: State, a: Action, id: JobId)
    requires Enabled(c, s, a) && (Records(a) || a.Begin?) && Apply(c, s, a).phase.Sweeping?
    ensures s.phase.Sweeping? && Apply(c, s, a).swept == s.swept
    ensures id in Apply(c, s, a).phase.todo ==> id in s.phase.todo
  {
    match a
    case RecordSubmission(_, _) =>
    case RecordRejection(_, _) =>
    case RecordCanceled(_) =>
    case _ => WorkerKeepsTodo(c, s, a);
  }

  lemma {:induction false} WorkerKeepsTodo(c: Config, s: State, a: Action)
    requires Enabled(c, s, a) && (a.RecordRunning? || a.RecordResult? || a.Begin?)
    ensures Apply(c, s, a).phase == s.phase && Apply(c, s, a).swept == s.swept
  {
    match a
    case RecordRunning(_, _) =>
    case RecordResult(_, _) =>
    case Begin(_) =>
  }

  lemma {:induction false} TodoStaysCanceled(c: Config, s: State, a: Action, id: JobId)
    requires Inv(c, s) && TodoCanceled(s, id) && Enabled(c, s, a)
    ensures TodoCanceled(Apply(c, s, a), id)
  {
    hide Inv, Enabled, Apply;
    var n := Apply(c, s, a);
    if a.Sweep? {
      SweepCancels(c, s, a.order, id);
    } else if n.phase.Sweeping? {
      TodoKept(c, s, a, id);
      StepMovesJobs(c, s, a, id);
      if id in s.swept {
        SweptIsPlaced(c, s, id);
      }
    }
  }

  lemma {:induction false} SweptIsPlaced(c: Config, s: State, id: JobId)
    requires Inv(c, s) && id in s.swept
    ensures id in s.places
  {
    assert SweptOk(s, id);
  }

  lemma {:induction false} SweepCancels(c: Config, s: State, order: seq<JobId>, id: JobId)
    requires Enabled(c, s, Sweep(order))
    ensures TodoCanceled(Apply(c, s, Sweep(order)), id)
  {
    SweepOrder(c, s, order, id);
  }

  // ------------------------------------------------ runs

  lemma {:induction false} StepKeepsResultInv(c: Config, s: State, a: Action)
    requires Inv(c, s) && ResultInv(s) && Enabled(c, s, a)
    ensures ResultInv(Apply(c, s, a))
  {
    hide Inv, Enabled, Apply, ResultsTrue, ResultsAreLast, FreshAt, TodoCanceled;
    var n := Apply(c, s, a);
    StepKeepsResults(c, s, a);
    ResultsStayLast(c, s, a);
    forall w: nat ensures FreshAt(n, w) {
      StaysFresh(c, s, a, w);
    }
    forall id ensures TodoCanceled(n, id) {
      assert TodoCanceled(s, id);
      TodoStaysCanceled(c, s, a, id);
    }
  }

  lemma {:induction false} RunKeepsResultInv(c: Config, s: State, run: seq<Action>)
    requires Inv(c, s) && ResultInv(s) && Execute(c, s, run).Reached?
    ensures ResultInv(Execute(c, s, run).s)
    decreases |run|
  {
    hide Inv, ResultInv, Enabled, Apply;
    if run != [] {
      StepKeeps(c, s, run[0]);
      StepKeepsResultInv(c, s, run[0]);
      RunKeepsResultInv(c, Apply(c, s, run[0]), run[1..]);
    }
  }

  lemma {:induction false} LastOfSnapshots(journal: seq<Line>, id: JobId, i: nat)
    requires i < |journal| && journal[i].0 == id && forall k :: i < k < |journal| ==> journal[k].0 != id
    ensures var list := Snapshots(journal, id); list != [] && list[|list| - 1] == journal[i].1
    decreases |journal|
  {
    hide Snapshots;
    var n := |journal| - 1;
    var before, last := journal[..n], journal[n];
    assert journal == before + [(last.0, last.1)];
    SnapshotsSnoc(before, last.0, last.1, id);
    if i < n {
      LastOfSnapshots(before, id, i);
    }
  }

  /** Some result of the job reached the journal. */
  ghost predicate ResultOnFile(s: State, id: JobId) {
    exists i :: 0 <= i < |s.journal| && s.journal[i].0 == id && IsResult(s.journal[i].1)
  }

  /**
   A crash at any moment of any run, recorder failures and shutdown races included, then a restart: a
   journalled job comes back with a result if and only if some result of it reached the journal, and
   that is the result it had; every other one comes back canceled.
   */
  lemma {:induction false} RecoveredExactly(c: Config, run: seq<Action>, id: JobId, latest: map<JobId, JobState>,
      order: seq<JobId>)
    requires Execute(c, Initial(c), run).Reached?
    requires IsLatest(Execute(c, Initial(c), run).s.journal, latest) && Lists(order, latest)
    ensures var s := Execute(c, Initial(c), run).s;
            && IsLatest(s.journal + Closing(latest, order), AfterRecovery(latest))
            && (ResultOnFile(s, id) ==>
                  id in latest && id in s.jobs && IsResult(s.jobs[id].state) && AfterRecovery(latest)[id] == s.jobs[id].state)
            && (!ResultOnFile(s, id) && id in latest ==> AfterRecovery(latest)[id] == Canceled)
  {
    InitialOk(c);
    assert ResultInv(Initial(c));
    RunKeepsResultInv(c, Initial(c), run);
    hide Execute, Initial, Snapshots, Closing, ResultInv, IsLatest, ResultOnFile;
    var s := Execute(c, Initial(c), run).s;
    RecoveryClosesInterrupted(s.journal, latest, order);
    if ResultOnFile(s, id) {
      FoundOnFile(s, id, latest);
    } else if id in latest {
      NotOnFile(s, id, latest);
    }
  }

  lemma {:induction false} FoundOnFile(s: State, id: JobId, latest: map<JobId, JobState>)
    requires ResultInv(s) && IsLatest(s.journal, latest) && ResultOnFile(s, id)
    ensures id in latest && id in s.jobs && IsResult(s.jobs[id].state) && AfterRecovery(latest)[id] == s.jobs[id].state
  {
    hide Snapshots, FreshAt, TodoCanceled;
    var i :| 0 <= i < |s.journal| && s.journal[i].0 == id && IsResult(s.journal[i].1);
    LastOfSnapshots(s.journal, id, i);
  }

  lemma {:induction false} NotOnFile(s: State, id: JobId, latest: map<JobId, JobState>)
    requires IsLatest(s.journal, latest) && !ResultOnFile(s, id) && id in latest
    ensures AfterRecovery(latest)[id] == Canceled
  {
    hide Snapshots;
    SnapshotInJournal(s.journal, id, |Snapshots(s.journal, id)| - 1);
  }

  // ------------------------------------------------ a result that is lost

  /** One job scanned to its end, whose last record fails. */
  const LOSING: seq<Action> :=
    [Register(0, "job", "disk.adf"), RecordSubmission(0, Written), Enqueue(0), Take(0), Begin(0), RecordRunning(0, Written),
     EndScan(0, true), Finish(0), RecordResult(0, NotWritten)]

  const LOSING_STATES: seq<State> := (
    var pending := map["job" := Job("disk.adf", Pending)];
    var running := map["job" := Job("disk.adf", Running)];
    var succeeded := map["job" := Job("disk.adf", Succeeded)];
    var held := map["job" := AtWorker(0)];
    var start := State(map[], [], map[], [Idle], Serving, false, [], [], map[], 0, {}, {}, {}, false);
    var registered := start.(jobs := pending, submitters := map[0 := Registered("job")], places := map["job" := AtSubmitter(0)]);
    var recorded := registered.(journal := [("job", Pending)], submitters := map[0 := Recorded("job")]);
    var queued := recorded.(queue := ["job"], submitters := map[], places := map["job" := InQueue(0)]);
    var taken := queued.(queue := [], workers := [Took("job")], taken := 1, places := held);
    var begun := taken.(jobs := running, workers := [Started("job")]);
    var scanning := begun.(journal := [("job", Pending), ("job", Running)], workers := [Scanning("job")], scans := ["job"]);
    var scanned := scanning.(workers := [Scanned("job", true)]);
    var finished := scanned.(jobs := succeeded, workers := [Finished("job", Succeeded)]);
    var unrecorded := finished.(workers := [Idle], places := map["job" := Nowhere], recorderFailed := true, reported := true);
    [start, registered, recorded, queued, taken, begun, scanning, scanned, finished, unrecorded])

  lemma {:induction false} LosingSubmission(k: nat)
    requires k < 3
    ensures Enabled(Config(1, 1), LOSING_STATES[k], LOSING[k])
    ensures Apply(Config(1, 1), LOSING_STATES[k], LOSING[k]) == LOSING_STATES[k + 1]
  {
    assert map[0 := Recorded("job")] - {0} == map[];
    assert [] + [("job", Pending)] == [("job", Pending)] && [] + ["job"] == ["job"];
  }

  lemma {:induction false} LosingTake()
    ensures Enabled(Config(1, 1), LOSING_STATES[3], LOSING[3])
    ensures Apply(Config(1, 1), LOSING_STATES[3], LOSING[3]) == LOSING_STATES[4]
  {
    assert ["job"][1..] == [] && [Idle][0 := Took("job")] == [Took("job")];
  }

  lemma {:induction false} LosingBegin()
    ensures Enabled(Config(1, 1), LOSING_STATES[4], LOSING[4])
    ensures Apply(Config(1, 1), LOSING_STATES[4], LOSING[4]) == LOSING_STATES[5]
  {
    assert [Took("job")][0 := Started("job")] == [Started("job")];
  }

  lemma {:induction false} LosingRunning()
    ensures Enabled(Config(1, 1), LOSING_STATES[5], LOSING[5])
    ensures Apply(Config(1, 1), LOSING_STATES[5], LOSING[5]) == LOSING_STATES[6]
  {
    assert [("job", Pending)] + [("job", Running)] == [("job", Pending), ("job", Running)];
    assert [Started("job")][0 := Scanning("job")] == [Scanning("job")] && [] + ["job"] == ["job"];
  }

  lemma {:induction false} LosingEnd(k: nat)
    requires 6 <= k < 9
    ensures Enabled(Config(1, 1), LOSING_STATES[k], LOSING[k])
    ensures Apply(Config(1, 1), LOSING_STATES[k], LOSING[k]) == LOSING_STATES[k + 1]
  {
    assert [Scanning("job")][0 := Scanned("job", true)] == [Scanned("job", true)];
    assert [Scanned("job", true)][0 := Finished("job", Succeeded)] == [Finished("job", Succeeded)];
    assert [Finished("job", Succeeded)][0 := Idle] == [Idle];
  }

  lemma {:induction false} LosingFrom(k: nat)
    requires k <= 9
    ensures Execute(Config(1, 1), LOSING_STATES[k], LOSING[k..]) == Reached(LOSING_STATES[9])
    decreases 9 - k
  {
    hide Enabled, Apply;
    if k < 9 {
      if k < 3 {
        LosingSubmission(k);
      } else if k == 3 {
        LosingTake();
      } else if k == 4 {
        LosingBegin();
      } else if k == 5 {
        LosingRunning();
      } else {
        LosingEnd(k);
      }
      LosingFrom(k + 1);
      assert LOSING[k..][0] == LOSING[k] && LOSING[k..][1..] == LOSING[k + 1..];
    } else {
      assert LOSING[9..] == [];
    }
  }

  /** The run: the scan succeeded and said so, the record failed, and recovery closes the job as canceled. */
  lemma {:induction false} ResultIsLost()
    ensures var end := Execute(Config(1, 1), Initial(Config(1, 1)), LOSING);
            && end.Reached? && "job" in end.s.jobs && end.s.jobs["job"].state == Succeeded
            && IsLatest(end.s.journal, map["job" := Running])
            && AfterRecovery(map["job" := Running]) == map["job" := Canceled]
  {
    hide Execute, IsLatest;
    LosingFrom(0);
    assert LOSING[0..] == LOSING && Initial(Config(1, 1)) == LOSING_STATES[0];
    LosingReplayed();
  }

  lemma {:induction false} LosingReplayed()
    ensures IsLatest([("job", Pending), ("job", Running)], map["job" := Running])
  {
    hide Snapshots;
    var p, r := ("job", Pending), ("job", Running);
    assert [] + [p] == [p] && [p] + [r] == [p, r];
    forall id ensures Snapshots([p, r], id) == if id == "job" then [Pending, Running] else [] {
      NothingFiled(id);
      SnapshotsSnoc([], "job", Pending, id);
      SnapshotsSnoc([p], "job", Running, id);
    }
  }

  lemma {:induction false} NothingFiled(id: JobId)
    ensures Snapshots([], id) == []
    ensures [] + [Pending] == [Pending] && [Pending] + [Running] == [Pending, Running]
  {
  }
}
