/**
 The journal against the job manager: what the file says about a job at any moment, and what a
 restart after a crash at that moment makes of it.
 */
module JobHistory {
  import opened Common
  import opened JobManager
  import opened JobSafety
  import opened JobJournal

  /** The full life of a job up to a state. */
  function Life(st: JobState): seq<JobState> {
    match st
    case Pending => [Pending]
    case Running => [Pending, Running]
    case Canceled => [Pending, Canceled]
    case _ => [Pending, Running, st]
  }

  /** The life before the step into a state. */
  function LifeBefore(st: JobState): seq<JobState> {
    match st
    case Pending => []
    case Running => Life(Pending)
    case Canceled => Life(Pending)
    case _ => Life(Running)
  }

  lemma {:induction false} LifeStep(st: JobState)
    ensures LifeBefore(st) + [st] == Life(st)
  {
  }

  /** Some thread has changed the job and is about to journal that. */
  predicate AboutToRecord(s: State, id: JobId)
    requires id in s.places
  {
    || (s.phase.Sweeping? && id in s.phase.todo)
    || match s.places[id]
       case AtSubmitter(t) => t in s.submitters && (s.submitters[t].Registered? || s.submitters[t].Rejected?)
       case AtWorker(w) => w < |s.workers| && (s.workers[w].Started? || s.workers[w].Finished?)
       case _ => false
  }

  function OnFile(s: State, id: JobId): seq<JobState> {
    if id !in s.places || id !in s.jobs then []
    else if AboutToRecord(s, id) then LifeBefore(s.jobs[id].state)
    else Life(s.jobs[id].state)
  }

  /** While the recorder has not failed, for a submission not in flight when shutdown swept the map. */
  ghost predicate JournalOk(s: State, id: JobId) {
    !s.recorderFailed && id !in s.overtaken ==>
      && (id in s.places ==> id in s.jobs)
      && Snapshots(s.journal, id) == OnFile(s, id)
  }

  predicate TodoOk(s: State, id: JobId) {
    !s.recorderFailed && s.phase.Sweeping? && id in s.phase.todo ==>
      && id in s.jobs && s.jobs[id].state == Canceled && id in s.swept && id in s.places
      && (id in s.overtaken || s.places[id].InQueue?)
  }

  predicate InFlightOk(s: State, t: nat) {
    t in s.submitters && s.submitters[t].id in s.swept ==> s.submitters[t].id in s.overtaken
  }

  ghost predicate JournalInv(s: State) {
    && (forall t: nat :: InFlightOk(s, t))
    && (forall id :: JournalOk(s, id))
    && (forall id :: TodoOk(s, id))
    && (s.phase.Sweeping? ==> Distinct(s.phase.todo))
    && (s.phase.Serving? || s.phase.Stopping? ==> s.overtaken == {})
  }

  lemma {:induction false} RegisterKept(c: Config, s: State, t: nat, id: JobId, path: string)
    requires Inv(c, s) && JournalInv(s) && Enabled(c, s, Register(t, id, path))
    ensures JournalInv(Apply(c, s, Register(t, id, path)))
  {
    hide Snapshots;
    assert SweptOk(s, id);
    var n := Apply(c, s, Register(t, id, path));
    forall x: nat ensures InFlightOk(n, x) { assert InFlightOk(s, x); }
    forall j ensures JournalOk(n, j) {
      assert JournalOk(s, j) && JobOk(s, j) && TodoOk(s, j);
    }
    forall j ensures TodoOk(n, j) { assert TodoOk(s, j); }
  }

  lemma {:induction false} RecordSubmissionKept(c: Config, s: State, t: nat, write: Write)
    requires Inv(c, s) && JournalInv(s) && Enabled(c, s, RecordSubmission(t, write))
    ensures JournalInv(Apply(c, s, RecordSubmission(t, write)))
  {
    hide Snapshots;
    assert SubmitterOk(s, t) && InFlightOk(s, t);
    var n := Apply(c, s, RecordSubmission(t, write));
    forall x: nat ensures InFlightOk(n, x) { assert InFlightOk(s, x); }
    forall j ensures JournalOk(n, j) {
      assert JournalOk(s, j) && JobOk(s, j) && TodoOk(s, j);
      SnapshotsSnoc(s.journal, s.submitters[t].id, Pending, j);
      LifeStep(Pending);
    }
    forall j ensures TodoOk(n, j) { assert TodoOk(s, j); }
  }

  lemma {:induction false} RemoveUnrecordedKept(c: Config, s: State, t: nat)
    requires Inv(c, s) && JournalInv(s) && Enabled(c, s, RemoveUnrecorded(t))
    ensures JournalInv(Apply(c, s, RemoveUnrecorded(t)))
  {
    hide Snapshots;
    assert SubmitterOk(s, t);
    var n := Apply(c, s, RemoveUnrecorded(t));
    forall x: nat ensures InFlightOk(n, x) { assert InFlightOk(s, x); }
    forall j ensures JournalOk(n, j) {
      assert JournalOk(s, j) && JobOk(s, j) && TodoOk(s, j);
    }
    forall j ensures TodoOk(n, j) { assert TodoOk(s, j); }
  }

  lemma {:induction false} EnqueueKept(c: Config, s: State, t: nat)
    requires Inv(c, s) && JournalInv(s) && Enabled(c, s, Enqueue(t))
    ensures JournalInv(Apply(c, s, Enqueue(t)))
  {
    hide Snapshots;
    assert SubmitterOk(s, t);
    var n := Apply(c, s, Enqueue(t));
    forall x: nat ensures InFlightOk(n, x) { assert InFlightOk(s, x); }
    forall j ensures JournalOk(n, j) {
      assert JournalOk(s, j) && JobOk(s, j) && TodoOk(s, j);
    }
    forall j ensures TodoOk(n, j) { assert TodoOk(s, j); }
  }

  lemma {:induction false} FindQueueFullKept(c: Config, s: State, t: nat)
    requires Inv(c, s) && JournalInv(s) && Enabled(c, s, FindQueueFull(t))
    ensures JournalInv(Apply(c, s, FindQueueFull(t)))
  {
    hide Snapshots;
    assert SubmitterOk(s, t);
    var n := Apply(c, s, FindQueueFull(t));
    forall x: nat ensures InFlightOk(n, x) { assert InFlightOk(s, x); }
    forall j ensures JournalOk(n, j) {
      assert JournalOk(s, j) && JobOk(s, j) && TodoOk(s, j);
    }
    forall j ensures TodoOk(n, j) { assert TodoOk(s, j); }
  }

  lemma {:induction false} CancelOverflowKept(c: Config, s: State, t: nat)
    requires Inv(c, s) && JournalInv(s) && Enabled(c, s, CancelOverflow(t))
    ensures JournalInv(Apply(c, s, CancelOverflow(t)))
  {
    hide Snapshots;
    assert SubmitterOk(s, t) && InFlightOk(s, t);
    var n := Apply(c, s, CancelOverflow(t));
    forall x: nat ensures InFlightOk(n, x) { assert InFlightOk(s, x); }
    forall j ensures JournalOk(n, j) {
      assert JournalOk(s, j) && JobOk(s, j) && TodoOk(s, j);
    }
    forall j ensures TodoOk(n, j) { assert TodoOk(s, j); }
  }

  lemma {:induction false} RecordRejectionKept(c: Config, s: State, t: nat, write: Write)
    requires Inv(c, s) && JournalInv(s) && Enabled(c, s, RecordRejection(t, write))
    ensures JournalInv(Apply(c, s, RecordRejection(t, write)))
  {
    hide Snapshots;
    assert SubmitterOk(s, t) && InFlightOk(s, t);
    var n := Apply(c, s, RecordRejection(t, write));
    forall x: nat ensures InFlightOk(n, x) { assert InFlightOk(s, x); }
    forall j ensures JournalOk(n, j) {
      assert JournalOk(s, j) && JobOk(s, j) && TodoOk(s, j);
      SnapshotsSnoc(s.journal, s.submitters[t].id, Canceled, j);
      LifeStep(Canceled);
    }
    forall j ensures TodoOk(n, j) { assert TodoOk(s, j); }
  }

  lemma {:induction false} TakeKept(c: Config, s: State, w: nat)
    requires Inv(c, s) && JournalInv(s) && Enabled(c, s, Take(w))
    ensures JournalInv(Apply(c, s, Take(w)))
  {
    hide Snapshots;
    assert QueueOk(s, 0);
    var n := Apply(c, s, Take(w));
    forall x: nat ensures InFlightOk(n, x) { assert InFlightOk(s, x); }
    forall j ensures JournalOk(n, j) {
      assert JournalOk(s, j) && JobOk(s, j) && TodoOk(s, j);
    }
    forall j ensures TodoOk(n, j) { assert TodoOk(s, j); }
  }

  lemma {:induction false} ExitKept(c: Config, s: State, w: nat)
    requires Inv(c, s) && JournalInv(s) && Enabled(c, s, Exit(w))
    ensures JournalInv(Apply(c, s, Exit(w)))
  {
    hide Snapshots;
    assert WorkerOk(s, w);
    var n := Apply(c, s, Exit(w));
    forall x: nat ensures InFlightOk(n, x) { assert InFlightOk(s, x); }
    forall j ensures JournalOk(n, j) {
      assert JournalOk(s, j) && JobOk(s, j) && TodoOk(s, j);
    }
    forall j ensures TodoOk(n, j) { assert TodoOk(s, j); }
  }

  lemma {:induction false} BeginKept(c: Config, s: State, w: nat)
    requires Inv(c, s) && JournalInv(s) && Enabled(c, s, Begin(w))
    ensures JournalInv(Apply(c, s, Begin(w)))
  {
    hide Snapshots;
    assert WorkerOk(s, w);
    var n := Apply(c, s, Begin(w));
    forall x: nat ensures InFlightOk(n, x) { assert InFlightOk(s, x); }
    forall j ensures JournalOk(n, j) {
      assert JournalOk(s, j) && JobOk(s, j) && TodoOk(s, j);
    }
    forall j ensures TodoOk(n, j) { assert TodoOk(s, j); }
  }

  lemma {:induction false} RecordRunningKept(c: Config, s: State, w: nat, write: Write)
    requires Inv(c, s) && JournalInv(s) && Enabled(c, s, RecordRunning(w, write))
    ensures JournalInv(Apply(c, s, RecordRunning(w, write)))
  {
    hide Snapshots;
    assert WorkerOk(s, w);
    var n := Apply(c, s, RecordRunning(w, write));
    forall x: nat ensures InFlightOk(n, x) { assert InFlightOk(s, x); }
    forall j ensures JournalOk(n, j) {
      assert JournalOk(s, j) && JobOk(s, j) && TodoOk(s, j);
      SnapshotsSnoc(s.journal, s.workers[w].id, Running, j);
      LifeStep(Running);
    }
    forall j ensures TodoOk(n, j) { assert TodoOk(s, j); }
  }

  lemma {:induction false} EndScanKept(c: Config, s: State, w: nat, ok: bool)
    requires Inv(c, s) && JournalInv(s) && Enabled(c, s, EndScan(w, ok))
    ensures JournalInv(Apply(c, s, EndScan(w, ok)))
  {
    hide Snapshots;
    assert WorkerOk(s, w);
    var n := Apply(c, s, EndScan(w, ok));
    forall x: nat ensures InFlightOk(n, x) { assert InFlightOk(s, x); }
    forall j ensures JournalOk(n, j) {
      assert JournalOk(s, j) && JobOk(s, j) && TodoOk(s, j);
    }
    forall j ensures TodoOk(n, j) { assert TodoOk(s, j); }
  }

  lemma {:induction false} FinishKept(c: Config, s: State, w: nat)
    requires Inv(c, s) && JournalInv(s) && Enabled(c, s, Finish(w))
    ensures JournalInv(Apply(c, s, Finish(w)))
  {
    hide Snapshots;
    assert WorkerOk(s, w);
    var n := Apply(c, s, Finish(w));
    forall x: nat ensures InFlightOk(n, x) { assert InFlightOk(s, x); }
    forall j ensures JournalOk(n, j) {
      assert JournalOk(s, j) && JobOk(s, j) && TodoOk(s, j);
    }
    forall j ensures TodoOk(n, j) { assert TodoOk(s, j); }
  }

  /** What recording a result changes: the journal, the worker, and where the job is. */
  predicate ResultRecorded(s: State, n: State, w: nat) {
    && w < |s.workers| && s.workers[w].Finished?
    && var id, end := s.workers[w].id, s.workers[w].end;
       && n.journal == s.journal + [(id, end)]
       && n.places == s.places[id := Nowhere]
       && n.workers == s.workers[w := Idle]
       && n.jobs == s.jobs && n.submitters == s.submitters && n.phase == s.phase
       && n.swept == s.swept && n.overtaken == s.overtaken && n.recorderFailed == s.recorderFailed
  }

  lemma {:induction false} RecordResultChanges(c: Config, s: State, w: nat)
    requires Enabled(c, s, RecordResult(w, Written))
    ensures ResultRecorded(s, Apply(c, s, RecordResult(w, Written)), w)
  {
  }

  lemma {:induction false} RecordResultWritten(c: Config, s: State, w: nat)
    requires Inv(c, s) && JournalInv(s) && Enabled(c, s, RecordResult(w, Written))
    ensures JournalInv(Apply(c, s, RecordResult(w, Written)))
  {
    var n := Apply(c, s, RecordResult(w, Written));
    RecordResultChanges(c, s, w);
    hide Apply, Snapshots, JournalOk, WorkerOk, JobOk, TodoOk, SubmitterOk, QueueOk, ScanOk, SweptOk;
    assert WorkerOk(s, w);
    forall x: nat ensures InFlightOk(n, x) { assert InFlightOk(s, x); }
    forall j ensures JournalOk(n, j) {
      assert JournalOk(s, j) && JobOk(s, j) && TodoOk(s, j);
      if j == s.workers[w].id { OwnResult(s, n, w); } else { OtherResult(s, n, w, j); }
    }
    forall j ensures TodoOk(n, j) {
      assert TodoOk(s, j);
      ResultTodo(s, n, w, j);
    }
  }

  lemma {:induction false} ResultTodo(s: State, n: State, w: nat, j: JobId)
    requires ResultRecorded(s, n, w) && WorkerOk(s, w) && TodoOk(s, j)
    ensures TodoOk(n, j)
  {
  }

  lemma {:induction false} OwnResult(s: State, n: State, w: nat)
    requires ResultRecorded(s, n, w) && WorkerOk(s, w) && JournalOk(s, s.workers[w].id) && TodoOk(s, s.workers[w].id)
    ensures JournalOk(n, s.workers[w].id)
  {
    hide Snapshots, Life, LifeBefore;
    var id, end := s.workers[w].id, s.workers[w].end;
    SnapshotsSnoc(s.journal, id, end, id);
    LifeStep(end);
  }

  lemma {:induction false} OtherResult(s: State, n: State, w: nat, j: JobId)
    requires ResultRecorded(s, n, w) && JournalOk(s, j) && JobOk(s, j) && j != s.workers[w].id
    ensures JournalOk(n, j)
  {
    hide Snapshots, Life, LifeBefore;
    SnapshotsSnoc(s.journal, s.workers[w].id, s.workers[w].end, j);
  }

  lemma {:induction false} RecordResultKept(c: Config, s: State, w: nat, write: Write)
    requires Inv(c, s) && JournalInv(s) && Enabled(c, s, RecordResult(w, write))
    ensures JournalInv(Apply(c, s, RecordResult(w, write)))
  {
    if write.Written? {
      hide Inv, JournalInv, Enabled, Apply;
      RecordResultWritten(c, s, w);
    } else {
      hide Snapshots, Life, LifeBefore;
      var n := Apply(c, s, RecordResult(w, write));
      assert n.recorderFailed;
      forall x: nat ensures InFlightOk(n, x) { assert InFlightOk(s, x); }
    }
  }

  lemma {:induction false} StopKept(c: Config, s: State, onError: bool)
    requires Inv(c, s) && JournalInv(s) && Enabled(c, s, Stop(onError))
    ensures JournalInv(Apply(c, s, Stop(onError)))
  {
    hide Snapshots;
    var n := Apply(c, s, Stop(onError));
    forall x: nat ensures InFlightOk(n, x) { assert InFlightOk(s, x); }
    forall j ensures JournalOk(n, j) {
      assert JournalOk(s, j) && JobOk(s, j) && TodoOk(s, j);
    }
    forall j ensures TodoOk(n, j) { assert TodoOk(s, j); }
  }

  lemma {:induction false} SweepKept(c: Config, s: State, order: seq<JobId>)
    requires Inv(c, s) && JournalInv(s) && Enabled(c, s, Sweep(order))
    ensures JournalInv(Apply(c, s, Sweep(order)))
  {
    hide Snapshots;
    var n := Apply(c, s, Sweep(order));
    forall t | t in s.submitters ensures s.submitters[t].id in n.overtaken {}
    forall j ensures j in order <==> j in PendingIds(s.jobs) { assert j in order <==> j in (set id | id in order); }
    forall x: nat ensures InFlightOk(n, x) {}
    forall j ensures JournalOk(n, j) {
      assert JournalOk(s, j) && JobOk(s, j) && TodoOk(s, j);
    }
    forall j ensures TodoOk(n, j) { assert JobOk(s, j); }
  }

  lemma {:induction false} RecordCanceledKept(c: Config, s: State, write: Write)
    requires Inv(c, s) && JournalInv(s) && Enabled(c, s, RecordCanceled(write))
    ensures JournalInv(Apply(c, s, RecordCanceled(write)))
  {
    hide Snapshots;
    var n := Apply(c, s, RecordCanceled(write));
    forall x: nat ensures InFlightOk(n, x) { assert InFlightOk(s, x); }
    forall j ensures JournalOk(n, j) {
      assert JournalOk(s, j) && JobOk(s, j) && TodoOk(s, j);
      SnapshotsSnoc(s.journal, s.phase.todo[0], Canceled, j);
      LifeStep(Canceled);
    }
    forall j ensures TodoOk(n, j) { assert TodoOk(s, j); }
  }

  lemma {:induction false} ReturnKept(c: Config, s: State)
    requires Inv(c, s) && JournalInv(s) && Enabled(c, s, Return)
    ensures JournalInv(Apply(c, s, Return))
  {
    hide Snapshots;
    var n := Apply(c, s, Return);
    forall x: nat ensures InFlightOk(n, x) { assert InFlightOk(s, x); }
    forall j ensures JournalOk(n, j) {
      assert JournalOk(s, j) && JobOk(s, j) && TodoOk(s, j);
    }
    forall j ensures TodoOk(n, j) { assert TodoOk(s, j); }
  }

  lemma {:induction false} StepKept(c: Config, s: State, a: Action)
    requires Inv(c, s) && JournalInv(s) && Enabled(c, s, a)
    ensures JournalInv(Apply(c, s, a))
  {
    hide Inv, JournalInv, Enabled, Apply;
    match a
    case Register(t, id, path) => RegisterKept(c, s, t, id, path);
    case RecordSubmission(t, write) => RecordSubmissionKept(c, s, t, write);
    case RemoveUnrecorded(t) => RemoveUnrecordedKept(c, s, t);
    case Enqueue(t) => EnqueueKept(c, s, t);
    case FindQueueFull(t) => FindQueueFullKept(c, s, t);
    case CancelOverflow(t) => CancelOverflowKept(c, s, t);
    case RecordRejection(t, write) => RecordRejectionKept(c, s, t, write);
    case Take(w) => TakeKept(c, s, w);
    case Exit(w) => ExitKept(c, s, w);
    case Begin(w) => BeginKept(c, s, w);
    case RecordRunning(w, write) => RecordRunningKept(c, s, w, write);
    case EndScan(w, ok) => EndScanKept(c, s, w, ok);
    case Finish(w) => FinishKept(c, s, w);
    case RecordResult(w, write) => RecordResultKept(c, s, w, write);
    case Stop(onError) => StopKept(c, s, onError);
    case Sweep(order) => SweepKept(c, s, order);
    case RecordCanceled(write) => RecordCanceledKept(c, s, write);
    case Return => ReturnKept(c, s);
  }

  lemma {:induction false} InitialKept(c: Config)
    ensures JournalInv(Initial(c))
  {
  }

  lemma {:induction false} RunKept(c: Config, s: State, run: seq<Action>)
    requires Inv(c, s) && JournalInv(s) && Execute(c, s, run).Reached?
    ensures JournalInv(Execute(c, s, run).s)
    decreases |run|
  {
    hide Inv, JournalInv, Enabled, Apply;
    if run != [] {
      StepKept(c, s, run[0]);
      StepKeeps(c, s, run[0]);
      RunKept(c, Apply(c, s, run[0]), run[1..]);
    }
  }

  /**
   While the recorder has not failed, the journal of every job not in flight when shutdown swept the
   map is its life so far: all of it, or all but the step some thread is about to record.
   */
  lemma {:induction false} JournalTellsTheLife(c: Config, run: seq<Action>, id: JobId)
    requires Execute(c, Initial(c), run).Reached?
    ensures var s := Execute(c, Initial(c), run).s;
            !s.recorderFailed && id !in s.overtaken ==>
              if id in s.jobs then
                Snapshots(s.journal, id) == Life(s.jobs[id].state) || Snapshots(s.journal, id) == LifeBefore(s.jobs[id].state)
              else Snapshots(s.journal, id) == []
  {
    InitialOk(c);
    InitialKept(c);
    RunKeeps(c, Initial(c), run);
    RunKept(c, Initial(c), run);
    hide Execute, Initial, Snapshots;
    var s := Execute(c, Initial(c), run).s;
    assert JournalOk(s, id) && JobOk(s, id);
  }
}
