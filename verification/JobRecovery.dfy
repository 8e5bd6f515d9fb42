/**
 The journal and recovery for every run: submissions overtaken by shutdown, recorder failures, and a
 restart after a crash at any moment.
 */
module JobRecovery {
  import opened Common
  import opened JobManager
  import opened JobSafety
  import opened JobJournal
  import opened JobHistory

  // ------------------------------------------------ submissions overtaken by the shutdown sweep

  predicate ToRecord(s: State, id: JobId) {
    s.phase.Sweeping? && id in s.phase.todo
  }

  /** The journals a submission in flight at the sweep can have, by where it stands. */
  predicate OvertakenJournal(s: State, id: JobId, j: seq<JobState>)
    requires id in s.places
  {
    match s.places[id]
    case AtSubmitter(t) =>
      && t in s.submitters && s.submitters[t].id == id
      && (match s.submitters[t]
          case Registered(_) => j == (if ToRecord(s, id) then [] else [Canceled])
          case Recorded(_) => if ToRecord(s, id) then j == [Pending] else j in {[Pending, Canceled], [Canceled, Pending]}
          case Overflow(_) => if ToRecord(s, id) then j == [Pending] else j in {[Pending, Canceled], [Canceled, Pending]}
          case Rejected(_) => if ToRecord(s, id) then j == [Pending]
                              else j in {[Pending], [Pending, Canceled], [Canceled, Pending]}
          case Unrecorded(_) => false)
    case InQueue(_) => if ToRecord(s, id) then j == [Pending] else j in {[Pending, Canceled], [Canceled, Pending]}
    case AtWorker(_) => false
    case Nowhere => if ToRecord(s, id) then j == [Pending, Canceled]
                    else j in {[Pending, Canceled], [Canceled, Pending, Canceled], [Pending, Canceled, Canceled]}
  }

  ghost predicate OvertakenOk(s: State, id: JobId) {
    !s.recorderFailed && id in s.overtaken ==>
      && (s.phase.Sweeping? || s.phase.Stopped?)
      && id in s.jobs && s.jobs[id].state == Canceled && id in s.places
      && OvertakenJournal(s, id, Snapshots(s.journal, id))
  }

  /** Nothing about this submission changes. */
  ghost predicate SameFor(s: State, n: State, id: JobId) {
    && (n.recorderFailed || !s.recorderFailed)
    && (id in n.overtaken ==> id in s.overtaken)
    && (s.phase.Sweeping? || s.phase.Stopped? ==> n.phase.Sweeping? || n.phase.Stopped?)
    && (id in s.jobs ==> id in n.jobs && n.jobs[id] == s.jobs[id])
    && (id in s.places ==>
          && id in n.places && n.places[id] == s.places[id]
          && (s.places[id].AtSubmitter? && s.places[id].t in s.submitters ==>
                s.places[id].t in n.submitters && n.submitters[s.places[id].t] == s.submitters[s.places[id].t]))
    && ToRecord(s, id) == ToRecord(n, id)
    && Snapshots(n.journal, id) == Snapshots(s.journal, id)
  }

  lemma {:induction false} SameKeepsOvertaken(s: State, n: State, id: JobId)
    requires OvertakenOk(s, id) && (!n.recorderFailed ==> SameFor(s, n, id))
    ensures OvertakenOk(n, id)
  {
    hide Snapshots, ToRecord;
  }

  /** Steps that are not taken any more after the sweep, or only after a failed write. */
  predicate IsEarlier(a: Action) {
    || a.RemoveUnrecorded? || a.Take? || a.Exit? || a.Begin? || a.RecordRunning? || a.EndScan? || a.Finish? || a.RecordResult?
    || a.Stop?
  }

  lemma {:induction false} NotAfterSweep(c: Config, s: State, a: Action)
    requires Inv(c, s) && Enabled(c, s, a) && IsEarlier(a) && (s.phase.Sweeping? || s.phase.Stopped?)
    ensures a.RemoveUnrecorded? && s.recorderFailed
  {
    hide JobOk, ScanOk, QueueOk, WorkerOk, SweptOk;
    if a.RemoveUnrecorded? {
      assert SubmitterOk(s, a.t);
    }
  }

  lemma {:induction false} EarlierKeepsOvertaken(c: Config, s: State, a: Action, id: JobId)
    requires Inv(c, s) && JournalInv(s) && OvertakenOk(s, id) && Enabled(c, s, a) && IsEarlier(a)
    ensures OvertakenOk(Apply(c, s, a), id)
  {
    EarlierFrame(c, s, a);
    hide Inv, JournalInv, Apply, Enabled, OvertakenJournal, Snapshots;
    if s.phase.Sweeping? || s.phase.Stopped? {
      NotAfterSweep(c, s, a);
    }
  }

  lemma {:induction false} EarlierFrame(c: Config, s: State, a: Action)
    requires Enabled(c, s, a) && IsEarlier(a)
    ensures Apply(c, s, a).overtaken == s.overtaken
    ensures s.recorderFailed ==> Apply(c, s, a).recorderFailed
  {
    match a
    case RemoveUnrecorded(_) =>
    case Take(_) =>
    case Exit(_) =>
    case Begin(_) =>
    case RecordRunning(_, _) =>
    case EndScan(_, _) =>
    case Finish(_) =>
    case RecordResult(_, _) =>
    case _ =>
  }

  /** Registering another job, or returning, changes nothing about it. */
  lemma {:induction false} LaterKeepsOvertaken(c: Config, s: State, a: Action, id: JobId)
    requires OvertakenOk(s, id) && Enabled(c, s, a) && (a.Register? || a.Return?)
    ensures OvertakenOk(Apply(c, s, a), id)
  {
    hide Snapshots, OvertakenJournal;
    var n := Apply(c, s, a);
    if !s.recorderFailed && id in s.overtaken {
      assert SameFor(s, n, id);
      SameKeepsOvertaken(s, n, id);
    }
  }

  lemma {:induction false} Spelled()
    ensures [] + [Pending] == [Pending] && [] + [Canceled] == [Canceled]
    ensures [Pending] + [Canceled] == [Pending, Canceled] && [Canceled] + [Pending] == [Canceled, Pending]
    ensures [Pending, Canceled] + [Canceled] == [Pending, Canceled, Canceled]
    ensures [Canceled, Pending] + [Canceled] == [Canceled, Pending, Canceled]
  {
  }

  lemma {:induction false} RecordSubmissionOvertaken(c: Config, s: State, t: nat, write: Write, id: JobId)
    requires Inv(c, s) && OvertakenOk(s, id) && Enabled(c, s, RecordSubmission(t, write))
    ensures OvertakenOk(Apply(c, s, RecordSubmission(t, write)), id)
  {
    var n := Apply(c, s, RecordSubmission(t, write));
    var x := s.submitters[t].id;
    assert SubmitterOk(s, t);
    hide Inv, Snapshots;
    SnapshotsSnoc(s.journal, x, Pending, id);
    Spelled();
    if x != id && !n.recorderFailed && id in s.overtaken {
      assert SameFor(s, n, id);
      SameKeepsOvertaken(s, n, id);
    }
  }

  lemma {:induction false} MoveOvertaken(c: Config, s: State, a: Action, id: JobId)
    requires Inv(c, s) && OvertakenOk(s, id) && Enabled(c, s, a) && (a.Enqueue? || a.FindQueueFull? || a.CancelOverflow?)
    ensures OvertakenOk(Apply(c, s, a), id)
  {
    var n := Apply(c, s, a);
    assert SubmitterOk(s, a.t);
    hide Inv, Snapshots;
    if s.submitters[a.t].id != id && !s.recorderFailed && id in s.overtaken {
      assert SameFor(s, n, id);
      SameKeepsOvertaken(s, n, id);
    }
  }

  lemma {:induction false} RecordRejectionOvertaken(c: Config, s: State, t: nat, write: Write, id: JobId)
    requires Inv(c, s) && OvertakenOk(s, id) && Enabled(c, s, RecordRejection(t, write))
    ensures OvertakenOk(Apply(c, s, RecordRejection(t, write)), id)
  {
    var n := Apply(c, s, RecordRejection(t, write));
    var x := s.submitters[t].id;
    assert SubmitterOk(s, t);
    hide Inv, Snapshots;
    SnapshotsSnoc(s.journal, x, Canceled, id);
    Spelled();
    if x != id && !n.recorderFailed && id in s.overtaken {
      assert SameFor(s, n, id);
      SameKeepsOvertaken(s, n, id);
    }
  }

  lemma {:induction false} RecordCanceledOvertaken(c: Config, s: State, write: Write, id: JobId)
    requires JournalInv(s) && OvertakenOk(s, id) && Enabled(c, s, RecordCanceled(write))
    ensures OvertakenOk(Apply(c, s, RecordCanceled(write)), id)
  {
    var n := Apply(c, s, RecordCanceled(write));
    var x := s.phase.todo[0];
    hide Snapshots, JournalOk;
    SnapshotsSnoc(s.journal, x, Canceled, id);
    Spelled();
    TodoTail(s.phase.todo);
    hide JournalInv;
    if x != id && !n.recorderFailed && id in s.overtaken {
      assert SameFor(s, n, id);
      SameKeepsOvertaken(s, n, id);
    }
  }

  lemma {:induction false} TodoTail(todo: seq<JobId>)
    requires todo != [] && Distinct(todo)
    ensures todo[0] !in todo[1..] && forall id :: id in todo <==> id == todo[0] || id in todo[1..]
  {
    assert todo == [todo[0]] + todo[1..];
  }

  lemma {:induction false} SweepOrder(c: Config, s: State, order: seq<JobId>, id: JobId)
    requires Enabled(c, s, Sweep(order))
    ensures id in order <==> id in s.jobs && s.jobs[id].state == Pending
  {
    assert id in PendingIds(s.jobs) <==> id in order;
  }

  lemma {:induction false} SweepOvertaken(c: Config, s: State, order: seq<JobId>, id: JobId)
    requires Inv(c, s) && JournalInv(s) && Enabled(c, s, Sweep(order))
    ensures OvertakenOk(Apply(c, s, Sweep(order)), id)
  {
    var n := Apply(c, s, Sweep(order));
    if !n.recorderFailed && id in n.overtaken {
      var t :| t in s.submitters && s.submitters[t].id == id;
      assert SubmitterOk(s, t) && JournalOk(s, id) && s.overtaken == {} && s.swept == {};
      hide Inv, JournalInv, Snapshots;
      SweepOrder(c, s, order, id);
      assert s.places[id] == AtSubmitter(t);
      assert n.jobs[id].state == Canceled;
      assert Snapshots(s.journal, id) == OnFile(s, id);
      assert ToRecord(n, id) <==> s.jobs[id].state == Pending;
    }
  }

  lemma {:induction false} StepKeepsOvertaken(c: Config, s: State, a: Action, id: JobId)
    requires Inv(c, s) && JournalInv(s) && OvertakenOk(s, id) && Enabled(c, s, a)
    ensures OvertakenOk(Apply(c, s, a), id)
  {
    hide Inv, JournalInv, OvertakenOk, Enabled, Apply;
    match a
    case RecordSubmission(t, write) => RecordSubmissionOvertaken(c, s, t, write, id);
    case Enqueue(t) => MoveOvertaken(c, s, a, id);
    case FindQueueFull(t) => MoveOvertaken(c, s, a, id);
    case CancelOverflow(t) => MoveOvertaken(c, s, a, id);
    case RecordRejection(t, write) => RecordRejectionOvertaken(c, s, t, write, id);
    case Sweep(order) => SweepOvertaken(c, s, order, id);
    case RecordCanceled(write) => RecordCanceledOvertaken(c, s, write, id);
    case Register(_, _, _) => LaterKeepsOvertaken(c, s, a, id);
    case Return => LaterKeepsOvertaken(c, s, a, id);
    case _ => EarlierKeepsOvertaken(c, s, a, id);
  }

  lemma {:induction false} RunKeepsOvertaken(c: Config, s: State, run: seq<Action>, id: JobId)
    requires Inv(c, s) && JournalInv(s) && OvertakenOk(s, id) && Execute(c, s, run).Reached?
    ensures OvertakenOk(Execute(c, s, run).s, id)
    decreases |run|
  {
    hide Inv, JournalInv, OvertakenOk, Enabled, Apply;
    if run != [] {
      StepKept(c, s, run[0]);
      StepKeeps(c, s, run[0]);
      StepKeepsOvertaken(c, s, run[0], id);
      RunKeepsOvertaken(c, Apply(c, s, run[0]), run[1..], id);
    }
  }

  /**
   A submission in flight when shutdown swept the map is canceled, and its journal is one of these
   seven: what the submitter and the sweep record may interleave, so pending can come after canceled.
   */
  lemma {:induction false} JournalsOfOvertaken(c: Config, run: seq<Action>, id: JobId)
    requires Execute(c, Initial(c), run).Reached?
    ensures var s := Execute(c, Initial(c), run).s;
            !s.recorderFailed && id in s.overtaken ==>
              && id in s.jobs && s.jobs[id].state == Canceled
              && Snapshots(s.journal, id) in
                   {[], [Pending], [Canceled], [Pending, Canceled], [Canceled, Pending],
                    [Pending, Canceled, Canceled], [Canceled, Pending, Canceled]}
  {
    InitialOk(c);
    InitialKept(c);
    RunKeepsOvertaken(c, Initial(c), run, id);
    hide Execute, Initial, Snapshots;
  }

  const RACE: seq<Action> :=
    [Register(0, "job", "disk.adf"), Stop(false), Exit(0), Sweep(["job"]), RecordCanceled(Written), RecordSubmission(0, Written)]

  const RACE_STATES: seq<State> := (
    var pending := map["job" := Job("disk.adf", Pending)];
    var canceled := map["job" := Job("disk.adf", Canceled)];
    var at := map["job" := AtSubmitter(0)];
    var start := State(map[], [], map[], [Idle], Serving, false, [], [], map[], 0, {}, {}, {}, false);
    var registered := start.(jobs := pending, submitters := map[0 := Registered("job")], places := at);
    var stopping := registered.(phase := Stopping);
    var exited := stopping.(workers := [Exited]);
    var swept := exited.(jobs := canceled, phase := Sweeping(["job"]), swept := {"job"}, overtaken := {"job"});
    var recorded := swept.(phase := Sweeping([]), journal := [("job", Canceled)]);
    var late := recorded.(journal := [("job", Canceled), ("job", Pending)], submitters := map[0 := Recorded("job")]);
    [start, registered, stopping, exited, swept, recorded, late])

  lemma {:induction false} RaceSteps(k: nat)
    requires k < 6
    ensures Enabled(Config(1, 1), RACE_STATES[k], RACE[k])
    ensures Apply(Config(1, 1), RACE_STATES[k], RACE[k]) == RACE_STATES[k + 1]
  {
    var x, y := ("job", Canceled), ("job", Pending);
    assert [Idle][0 := Exited] == [Exited] && ["job"][1..] == [] && [] + [x] == [x] && [x] + [y] == [x, y];
    if k == 3 {
      SweepRace();
    }
  }

  lemma {:induction false} SweepRace()
    ensures Enabled(Config(1, 1), RACE_STATES[3], RACE[3])
    ensures Apply(Config(1, 1), RACE_STATES[3], RACE[3]) == RACE_STATES[4]
  {
    var s := RACE_STATES[3];
    assert (set id | id in ["job"]) == {"job"} == PendingIds(s.jobs);
    assert 0 in s.submitters && s.submitters[0].id == "job";
    assert (set t | t in s.submitters :: s.submitters[t].id) == {"job"};
    assert CancelAll(s.jobs) == map["job" := Job("disk.adf", Canceled)];
  }

  lemma {:induction false} RaceFrom(k: nat)
    requires k <= 6
    ensures Execute(Config(1, 1), RACE_STATES[k], RACE[k..]) == Reached(RACE_STATES[6])
    decreases 6 - k
  {
    hide Enabled, Apply;
    if k < 6 {
      RaceSteps(k);
      RaceFrom(k + 1);
      assert RACE[k..][0] == RACE[k] && RACE[k..][1..] == RACE[k + 1..];
    } else {
      assert RACE[6..] == [];
    }
  }

  /** The run in which it does: registered, swept, recorded as canceled, and only then recorded as pending. */
  lemma {:induction false} PendingAfterCanceled()
    ensures var end := Execute(Config(1, 1), Initial(Config(1, 1)), RACE);
            && end.Reached? && end.s.journal == [("job", Canceled), ("job", Pending)]
            && "job" in end.s.jobs && end.s.jobs["job"].state == Canceled && !end.s.recorderFailed
  {
    hide Execute;
    RaceFrom(0);
    assert RACE[0..] == RACE && Initial(Config(1, 1)) == RACE_STATES[0];
  }

  // ------------------------------------------------ crashes

  predicate IsResult(st: JobState) {
    st == Succeeded || st == Failed
  }

  /** A journalled result is the job's result. */
  ghost predicate ResultsTrue(s: State) {
    forall i :: 0 <= i < |s.journal| && IsResult(s.journal[i].1) ==>
      s.journal[i].0 in s.jobs && s.jobs[s.journal[i].0].state == s.journal[i].1
  }

  /** A job with a result keeps it, in every step. */
  lemma {:induction false} ResultStays(c: Config, s: State, a: Action, id: JobId)
    requires Inv(c, s) && Enabled(c, s, a) && id in s.jobs && IsResult(s.jobs[id].state)
    ensures id in Apply(c, s, a).jobs && Apply(c, s, a).jobs[id].state == s.jobs[id].state
  {
    StepMovesJobs(c, s, a, id);
    hide JobOk, ScanOk, QueueOk, WorkerOk, SweptOk;
    assert a.RemoveUnrecorded? ==> SubmitterOk(s, a.t);
  }

  /** What a step may add to the journal. */
  function LineOf(c: Config, s: State, a: Action): Line
    requires Enabled(c, s, a)
  {
    match a
    case RecordSubmission(t, _) => (s.submitters[t].id, Pending)
    case RecordRejection(t, _) => (s.submitters[t].id, Canceled)
    case RecordRunning(w, _) => (s.workers[w].id, Running)
    case RecordResult(w, _) => (s.workers[w].id, s.workers[w].end)
    case RecordCanceled(_) => (s.phase.todo[0], Canceled)
    case _ => ("", Pending)
  }

  lemma {:induction false} StepJournals(c: Config, s: State, a: Action)
    requires Enabled(c, s, a)
    ensures Apply(c, s, a).journal == s.journal || Apply(c, s, a).journal == s.journal + [LineOf(c, s, a)]
  {
    match a
    case Register(_, _, _) =>
    case RecordSubmission(_, _) =>
    case RemoveUnrecorded(_) =>
    case Enqueue(_) =>
    case FindQueueFull(_) =>
    case CancelOverflow(_) =>
    case RecordRejection(_, _) =>
    case Take(_) =>
    case Exit(_) =>
    case Begin(_) =>
    case RecordRunning(_, _) =>
    case EndScan(_, _) =>
    case Finish(_) =>
    case RecordResult(_, _) =>
    case Stop(_) =>
    case Sweep(_) =>
    case RecordCanceled(_) =>
    case Return =>
  }

  lemma {:induction false} LineIsTrue(c: Config, s: State, a: Action)
    requires Inv(c, s) && Enabled(c, s, a) && IsResult(LineOf(c, s, a).1)
    ensures LineOf(c, s, a).0 in s.jobs && s.jobs[LineOf(c, s, a).0].state == LineOf(c, s, a).1
  {
    hide JobOk, ScanOk, QueueOk, SubmitterOk, SweptOk;
    if a.RecordResult? {
      assert WorkerOk(s, a.w);
    }
  }

  lemma {:induction false} StepKeepsResults(c: Config, s: State, a: Action)
    requires Inv(c, s) && ResultsTrue(s) && Enabled(c, s, a)
    ensures ResultsTrue(Apply(c, s, a))
  {
    hide Inv, Enabled, Apply, IsResult, LineOf;
    var n := Apply(c, s, a);
    StepJournals(c, s, a);
    forall i | 0 <= i < |n.journal| && IsResult(n.journal[i].1)
      ensures n.journal[i].0 in n.jobs && n.jobs[n.journal[i].0].state == n.journal[i].1
    {
      if i < |s.journal| {
        assert n.journal[i] == s.journal[i];
      } else {
        LineIsTrue(c, s, a);
      }
      ResultStays(c, s, a, n.journal[i].0);
    }
  }

  lemma {:induction false} RunKeepsResults(c: Config, s: State, run: seq<Action>)
    requires Inv(c, s) && ResultsTrue(s) && Execute(c, s, run).Reached?
    ensures ResultsTrue(Execute(c, s, run).s)
    decreases |run|
  {
    hide Inv, ResultsTrue, Enabled, Apply;
    if run != [] {
      StepKeeps(c, s, run[0]);
      StepKeepsResults(c, s, run[0]);
      RunKeepsResults(c, Apply(c, s, run[0]), run[1..]);
    }
  }

  lemma {:induction false} SnapshotInJournal(journal: seq<Line>, id: JobId, k: nat)
    requires k < |Snapshots(journal, id)|
    ensures exists i :: 0 <= i < |journal| && journal[i] == (id, Snapshots(journal, id)[k])
  {
    var n := |journal| - 1;
    var before := Snapshots(journal[..n], id);
    if k < |before| {
      SnapshotInJournal(journal[..n], id, k);
      var i :| 0 <= i < n && journal[..n][i] == (id, before[k]);
      assert journal[i] == (id, before[k]);
    } else {
      assert journal[n] == (id, Snapshots(journal, id)[k]);
    }
  }

  /**
   A crash at any moment of any run, recorder failures and shutdown races included, then a restart:
   recovery never invents a result.  A job comes back canceled, or in the state it really had.
   */
  lemma {:induction false} RecoveryNeverInvents(c: Config, run: seq<Action>, id: JobId, latest: map<JobId, JobState>)
    requires Execute(c, Initial(c), run).Reached?
    requires IsLatest(Execute(c, Initial(c), run).s.journal, latest) && id in latest
    ensures var s := Execute(c, Initial(c), run).s;
            AfterRecovery(latest)[id] == Canceled || (id in s.jobs && AfterRecovery(latest)[id] == s.jobs[id].state)
  {
    InitialOk(c);
    assert ResultsTrue(Initial(c));
    RunKeepsResults(c, Initial(c), run);
    hide Execute, Initial, Snapshots;
    var s := Execute(c, Initial(c), run).s;
    SnapshotInJournal(s.journal, id, |Snapshots(s.journal, id)| - 1);
  }

  /**
   A crash at any moment of a run without recorder failures, then a restart: a job whose whole life was
   journalled to its end keeps that end, any other journalled job is canceled.
   */
  lemma {:induction false} CrashThenRecovery(c: Config, run: seq<Action>, id: JobId, latest: map<JobId, JobState>,
      order: seq<JobId>)
    requires Execute(c, Initial(c), run).Reached?
    requires var s := Execute(c, Initial(c), run).s;
             !s.recorderFailed && IsLatest(s.journal, latest) && Lists(order, latest)
    ensures var s := Execute(c, Initial(c), run).s;
            && IsLatest(s.journal + Closing(latest, order), AfterRecovery(latest))
            && (id in latest ==>
                  && id in s.jobs
                  && AfterRecovery(latest)[id]
                     == if Snapshots(s.journal, id) == Life(s.jobs[id].state) && Terminal(s.jobs[id].state)
                        then s.jobs[id].state else Canceled)
  {
    hide Execute, Initial, Snapshots, Closing;
    JournalTellsTheLife(c, run, id);
    JournalsOfOvertaken(c, run, id);
    var s := Execute(c, Initial(c), run).s;
    RecoveryClosesInterrupted(s.journal, latest, order);
  }
}
