/**
 The outcome of every job from the list of steps alone: who submitted it, which worker took it, what its scan
 answered, and so what its state, its journal lines and its recovered result must be.
 */
module JobOutcomes {
  import opened Common
  import opened JobManager
  import opened JobSafety
  import opened JobJournal
  import opened JobHistory
  import opened JobRecovery
  import opened JobResults

  /**
   What the steps so far tell by themselves: the job of each submitter and worker, the jobs waiting, the paths
   submitted, the answers of scans, what is still to be canceled on file, the scans started, the lines
   written, and whether a write has failed and been reported.
   */
  datatype Track = Track(
    owner: map<nat, JobId>,
    line: seq<JobId>,
    at: map<nat, JobId>,
    paths: map<JobId, string>,
    answers: map<JobId, bool>,
    todo: seq<JobId>,
    scans: seq<JobId>,
    journal: seq<Line>,
    failed: bool,
    reported: bool)

  const UNTRACKED := Track(map[], [], map[], map[], map[], [], [], [], false, false)

  function Of(m: map<nat, JobId>, x: nat): JobId {
    if x in m then m[x] else ""
  }

  /** A line is written unless nothing reached the file; only a write without error counts as done. */
  function Wrote(k: Track, id: JobId, st: JobState, write: Write): Track {
    k.(journal := if write == NotWritten then k.journal else k.journal + [(id, st)], failed := k.failed || write != Written)
  }

  function Told(k: Track, write: Write): Track {
    k.(reported := k.reported || write != Written)
  }

  function Follow(k: Track, a: Action): Track {
    match a
    case Register(t, id, path) => k.(owner := k.owner[t := id], paths := k.paths[id := path])
    case RecordSubmission(t, write) => Wrote(k, Of(k.owner, t), Pending, write)
    case Enqueue(t) => k.(line := k.line + [Of(k.owner, t)])
    case RecordRejection(t, write) => Told(Wrote(k, Of(k.owner, t), Canceled, write), write)
    case Take(w) => if k.line == [] then k else k.(at := k.at[w := k.line[0]], line := k.line[1..])
    case RecordRunning(w, write) =>
      var r := Told(Wrote(k, Of(k.at, w), Running, write), write);
      if write == Written then r.(scans := r.scans + [Of(k.at, w)]) else r
    case EndScan(w, ok) => k.(answers := k.answers[Of(k.at, w) := ok])
    case RecordResult(w, write) =>
      var id := Of(k.at, w);
      Told(Wrote(k, id, if id in k.answers && k.answers[id] then Succeeded else Failed, write), write)
    case Stop(onError) => k.(reported := k.reported && !onError)
    case Sweep(order) => k.(todo := order)
    case RecordCanceled(write) =>
      if k.todo == [] then k else Told(Wrote(k, k.todo[0], Canceled, write), write).(todo := k.todo[1..])
    case _ => k
  }

  function FollowAll(k: Track, run: seq<Action>): Track
    decreases |run|
  {
    if run == [] then k else FollowAll(Follow(k, run[0]), run[1..])
  }

  // ------------------------------------------------ the state agrees

  predicate SubmitterTracked(s: State, k: Track, t: nat) {
    t in s.submitters ==> t in k.owner && k.owner[t] == s.submitters[t].id
  }

  predicate WorkerTracked(s: State, k: Track, w: nat) {
    w < |s.workers| && !s.workers[w].Idle? && !s.workers[w].Exited? ==>
      && w in k.at && k.at[w] == s.workers[w].id
      && var id := s.workers[w].id;
         match s.workers[w]
         case Scanned(_, ok) => id in k.answers && k.answers[id] == ok
         case Finished(_, end) => id in k.answers && end == (if k.answers[id] then Succeeded else Failed)
         case _ => id !in k.answers
  }

  predicate JobTracked(s: State, k: Track, id: JobId) {
    && (id in s.jobs ==>
          && id in k.paths && s.jobs[id].path == k.paths[id]
          && (s.jobs[id].state == Succeeded || s.jobs[id].state == Failed ==> id in k.answers))
    && (id in k.answers ==>
          && id in s.jobs
          && match s.jobs[id].state
             case Succeeded => k.answers[id]
             case Failed => !k.answers[id]
             case Running => true
             case _ => false)
  }

  ghost predicate Tracked(s: State, k: Track) {
    && (forall t: nat :: SubmitterTracked(s, k, t))
    && (forall w: nat :: WorkerTracked(s, k, w))
    && (forall id :: JobTracked(s, k, id))
    && s.queue == k.line && s.scans == k.scans && s.journal == k.journal
    && s.recorderFailed == k.failed && s.reported == k.reported
    && (s.phase.Sweeping? ==> s.phase.todo == k.todo)
  }

  lemma {:induction false} SubmitterRecords(c: Config, s: State, a: Action, k: Track)
    requires Inv(c, s) && Tracked(s, k) && Enabled(c, s, a)
    requires a.RecordSubmission? || a.RecordRejection?
    ensures Tracked(Apply(c, s, a), Follow(k, a))
  {
    hide JobOk, ScanOk, QueueOk, SweptOk, Basic;
    var n, m := Apply(c, s, a), Follow(k, a);
    assert SubmitterOk(s, a.t) && SubmitterTracked(s, k, a.t);
    var x := s.submitters[a.t].id;
    assert JobTracked(s, k, x);
    forall t: nat ensures SubmitterTracked(n, m, t) { assert SubmitterTracked(s, k, t); }
    forall w: nat ensures WorkerTracked(n, m, w) { assert WorkerTracked(s, k, w); }
    forall id ensures JobTracked(n, m, id) { assert JobTracked(s, k, id); }
  }

  lemma {:induction false} SubmitterMoves(c: Config, s: State, a: Action, k: Track)
    requires Inv(c, s) && Tracked(s, k) && Enabled(c, s, a)
    requires a.RemoveUnrecorded? || a.Enqueue? || a.FindQueueFull? || a.CancelOverflow?
    ensures Tracked(Apply(c, s, a), Follow(k, a))
  {
    hide JobOk, ScanOk, QueueOk, SweptOk, Basic;
    var n, m := Apply(c, s, a), Follow(k, a);
    assert SubmitterOk(s, a.t) && SubmitterTracked(s, k, a.t);
    var x := s.submitters[a.t].id;
    assert JobTracked(s, k, x);
    forall t: nat ensures SubmitterTracked(n, m, t) { assert SubmitterTracked(s, k, t); }
    forall w: nat ensures WorkerTracked(n, m, w) { assert WorkerTracked(s, k, w); }
    forall id ensures JobTracked(n, m, id) { assert JobTracked(s, k, id); }
  }

  lemma {:induction false} RegisterStep(c: Config, s: State, a: Action, k: Track)
    requires Inv(c, s) && Tracked(s, k) && Enabled(c, s, a) && a.Register?
    ensures Tracked(Apply(c, s, a), Follow(k, a))
  {
    hide ScanOk, QueueOk, SweptOk, Basic, SubmitterOk, WorkerOk;
    var n, m := Apply(c, s, a), Follow(k, a);
    assert JobOk(s, a.id) && JobTracked(s, k, a.id);
    forall t: nat ensures SubmitterTracked(n, m, t) { assert SubmitterTracked(s, k, t); }
    forall w: nat ensures WorkerTracked(n, m, w) { assert WorkerTracked(s, k, w); }
    forall id ensures JobTracked(n, m, id) { assert JobTracked(s, k, id); }
  }

  lemma {:induction false} TakeStep(c: Config, s: State, a: Action, k: Track)
    requires Inv(c, s) && Tracked(s, k) && Enabled(c, s, a) && (a.Take? || a.Exit?)
    ensures Tracked(Apply(c, s, a), Follow(k, a))
  {
    hide ScanOk, SweptOk, Basic, SubmitterOk, WorkerOk, JobOk;
    var n, m := Apply(c, s, a), Follow(k, a);
    if a.Take? {
      assert QueueOk(s, 0) && JobTracked(s, k, s.queue[0]);
    }
    forall t: nat ensures SubmitterTracked(n, m, t) { assert SubmitterTracked(s, k, t); }
    forall w: nat ensures WorkerTracked(n, m, w) { assert WorkerTracked(s, k, w); }
    forall id ensures JobTracked(n, m, id) { assert JobTracked(s, k, id); }
  }

  lemma {:induction false} OtherWorker(s: State, w: nat, v: nat)
    requires WorkerOk(s, w) && WorkerOk(s, v) && w < |s.workers| && v < |s.workers| && w != v
    requires !s.workers[w].Idle? && !s.workers[w].Exited? && !s.workers[v].Idle? && !s.workers[v].Exited?
    ensures s.workers[w].id != s.workers[v].id
  {
  }

  lemma {:induction false} BeginStep(c: Config, s: State, a: Action, k: Track)
    requires Inv(c, s) && Tracked(s, k) && Enabled(c, s, a) && a.Begin?
    ensures Tracked(Apply(c, s, a), Follow(k, a))
  {
    hide ScanOk, QueueOk, SweptOk, Basic, SubmitterOk, JobOk;
    var n, m := Apply(c, s, a), Follow(k, a);
    assert WorkerOk(s, a.w) && WorkerTracked(s, k, a.w);
    assert JobTracked(s, k, s.workers[a.w].id);
    forall t: nat ensures SubmitterTracked(n, m, t) { assert SubmitterTracked(s, k, t); }
    forall w: nat ensures WorkerTracked(n, m, w) { assert WorkerTracked(s, k, w); }
    forall id ensures JobTracked(n, m, id) { assert JobTracked(s, k, id); }
  }

  lemma {:induction false} RunningWritten(c: Config, s: State, a: Action, k: Track)
    requires Inv(c, s) && Tracked(s, k) && Enabled(c, s, a) && a.RecordRunning? && a.write == Written
    ensures Tracked(Apply(c, s, a), Follow(k, a))
  {
    hide ScanOk, QueueOk, SweptOk, Basic, SubmitterOk, JobOk;
    var n, m := Apply(c, s, a), Follow(k, a);
    assert WorkerOk(s, a.w) && WorkerTracked(s, k, a.w);
    assert JobTracked(s, k, s.workers[a.w].id);
    forall t: nat ensures SubmitterTracked(n, m, t) { assert SubmitterTracked(s, k, t); }
    forall w: nat ensures WorkerTracked(n, m, w) { assert WorkerTracked(s, k, w); }
    forall id ensures JobTracked(n, m, id) { assert JobTracked(s, k, id); }
  }

  lemma {:induction false} RunningFailed(c: Config, s: State, a: Action, k: Track)
    requires Inv(c, s) && Tracked(s, k) && Enabled(c, s, a) && a.RecordRunning? && a.write != Written
    ensures Tracked(Apply(c, s, a), Follow(k, a))
  {
    hide ScanOk, QueueOk, SweptOk, Basic, SubmitterOk, JobOk;
    var n, m := Apply(c, s, a), Follow(k, a);
    assert WorkerOk(s, a.w) && WorkerTracked(s, k, a.w);
    assert JobTracked(s, k, s.workers[a.w].id);
    forall t: nat ensures SubmitterTracked(n, m, t) { assert SubmitterTracked(s, k, t); }
    forall w: nat ensures WorkerTracked(n, m, w) { assert WorkerTracked(s, k, w); }
    forall id ensures JobTracked(n, m, id) { assert JobTracked(s, k, id); }
  }

  lemma {:induction false} EndStep(c: Config, s: State, a: Action, k: Track)
    requires Inv(c, s) && Tracked(s, k) && Enabled(c, s, a) && (a.EndScan? || a.Finish?)
    ensures Tracked(Apply(c, s, a), Follow(k, a))
  {
    hide ScanOk, QueueOk, SweptOk, Basic, SubmitterOk, JobOk;
    var n, m := Apply(c, s, a), Follow(k, a);
    assert WorkerOk(s, a.w) && WorkerTracked(s, k, a.w);
    assert JobTracked(s, k, s.workers[a.w].id);
    forall t: nat ensures SubmitterTracked(n, m, t) { assert SubmitterTracked(s, k, t); }
    forall w: nat ensures WorkerTracked(n, m, w) {
      assert WorkerTracked(s, k, w) && WorkerOk(s, w);
      if w != a.w && w < |s.workers| && !s.workers[w].Idle? && !s.workers[w].Exited? { OtherWorker(s, w, a.w); }
    }
    forall id ensures JobTracked(n, m, id) { assert JobTracked(s, k, id); }
  }

  lemma {:induction false} ResultStep(c: Config, s: State, a: Action, k: Track)
    requires Inv(c, s) && Tracked(s, k) && Enabled(c, s, a) && a.RecordResult?
    ensures Tracked(Apply(c, s, a), Follow(k, a))
  {
    hide ScanOk, QueueOk, SweptOk, Basic, SubmitterOk, JobOk;
    var n, m := Apply(c, s, a), Follow(k, a);
    assert WorkerOk(s, a.w) && WorkerTracked(s, k, a.w);
    assert JobTracked(s, k, s.workers[a.w].id);
    forall t: nat ensures SubmitterTracked(n, m, t) { assert SubmitterTracked(s, k, t); }
    forall w: nat ensures WorkerTracked(n, m, w) {
      assert WorkerTracked(s, k, w) && WorkerOk(s, w);
      if w != a.w && w < |s.workers| && !s.workers[w].Idle? && !s.workers[w].Exited? { OtherWorker(s, w, a.w); }
    }
    forall id ensures JobTracked(n, m, id) { assert JobTracked(s, k, id); }
  }

  lemma {:induction false} StoppingStep(c: Config, s: State, a: Action, k: Track)
    requires Inv(c, s) && Tracked(s, k) && Enabled(c, s, a) && (a.Stop? || a.Sweep? || a.RecordCanceled? || a.Return?)
    ensures Tracked(Apply(c, s, a), Follow(k, a))
  {
    hide Inv;
    var n, m := Apply(c, s, a), Follow(k, a);
    forall t: nat ensures SubmitterTracked(n, m, t) { assert SubmitterTracked(s, k, t); }
    forall w: nat ensures WorkerTracked(n, m, w) { assert WorkerTracked(s, k, w); }
    forall id ensures JobTracked(n, m, id) { assert JobTracked(s, k, id); }
  }

  lemma {:induction false} StepTracked(c: Config, s: State, a: Action, k: Track)
    requires Inv(c, s) && Tracked(s, k) && Enabled(c, s, a)
    ensures Tracked(Apply(c, s, a), Follow(k, a))
  {
    hide Inv, Tracked, Enabled, Apply, Follow;
    match a
    case Register(_, _, _) => RegisterStep(c, s, a, k);
    case Take(_) => TakeStep(c, s, a, k);
    case Exit(_) => TakeStep(c, s, a, k);
    case Begin(_) => BeginStep(c, s, a, k);
    case RecordRunning(_, write) => if write == Written { RunningWritten(c, s, a, k); } else { RunningFailed(c, s, a, k); }
    case EndScan(_, _) => EndStep(c, s, a, k);
    case Finish(_) => EndStep(c, s, a, k);
    case RecordResult(_, _) => ResultStep(c, s, a, k);
    case Stop(_) => StoppingStep(c, s, a, k);
    case Sweep(_) => StoppingStep(c, s, a, k);
    case RecordCanceled(_) => StoppingStep(c, s, a, k);
    case Return => StoppingStep(c, s, a, k);
    case RecordSubmission(_, _) => SubmitterRecords(c, s, a, k);
    case RecordRejection(_, _) => SubmitterRecords(c, s, a, k);
    case _ => SubmitterMoves(c, s, a, k);
  }

  lemma {:induction false} RunTracked(c: Config, s: State, run: seq<Action>, k: Track)
    requires Inv(c, s) && Tracked(s, k) && Execute(c, s, run).Reached?
    ensures Tracked(Execute(c, s, run).s, FollowAll(k, run))
    decreases |run|
  {
    hide Inv, Tracked, Enabled, Apply, Follow;
    if run != [] {
      StepKeeps(c, s, run[0]);
      StepTracked(c, s, run[0], k);
      RunTracked(c, Apply(c, s, run[0]), run[1..], Follow(k, run[0]));
    }
  }

  // ------------------------------------------------ what follows

  /**
   Over every run, from its steps alone: a job has the path it was registered with; it is succeeded or failed only
   as the scan of the worker that took it answered, and neither pending nor canceled once it answered; jobs are
   taken in the order they were queued; and the journal, the scans and the reports of failures are those steps'.
   */
  lemma {:induction false} OutcomesAreAnswers(c: Config, run: seq<Action>, id: JobId)
    requires Execute(c, Initial(c), run).Reached?
    ensures var s, k := Execute(c, Initial(c), run).s, FollowAll(UNTRACKED, run);
            && (id in s.jobs ==>
                  && id in k.paths && s.jobs[id].path == k.paths[id]
                  && (s.jobs[id].state == Succeeded ==> id in k.answers && k.answers[id])
                  && (s.jobs[id].state == Failed ==> id in k.answers && !k.answers[id])
                  && (s.jobs[id].state == Pending || s.jobs[id].state == Canceled ==> id !in k.answers))
            && (id in k.answers ==>
                  id in s.jobs && (s.jobs[id].state == Running || s.jobs[id].state == if k.answers[id] then Succeeded else Failed))
            && s.queue == k.line && s.scans == k.scans && s.journal == k.journal
            && s.recorderFailed == k.failed && s.reported == k.reported
  {
    InitialOk(c);
    assert Tracked(Initial(c), UNTRACKED);
    RunTracked(c, Initial(c), run, UNTRACKED);
    hide Execute, Initial;
    var s, k := Execute(c, Initial(c), run).s, FollowAll(UNTRACKED, run);
    assert JobTracked(s, k, id);
  }

  /** And through a crash at any moment: a result that comes back is what the scan answered. */
  lemma {:induction false} RecoveredIsTheAnswer(c: Config, run: seq<Action>, id: JobId, latest: map<JobId, JobState>, order: seq<JobId>)
    requires Execute(c, Initial(c), run).Reached?
    requires IsLatest(Execute(c, Initial(c), run).s.journal, latest) && Lists(order, latest) && id in latest
    ensures var s, k := Execute(c, Initial(c), run).s, FollowAll(UNTRACKED, run);
            if ResultOnFile(s, id) then
              id in k.answers && AfterRecovery(latest)[id] == (if k.answers[id] then Succeeded else Failed)
            else AfterRecovery(latest)[id] == Canceled
  {
    hide Execute, Initial, ResultOnFile, IsLatest, FollowAll;
    RecoveredExactly(c, run, id, latest, order);
    OutcomesAreAnswers(c, run, id);
  }
}
