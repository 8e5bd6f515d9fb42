/** Invariants of the job manager over every interleaving of its threads. */
module JobSafety {
  import opened Common
  import opened JobManager

  /** A submitted job that no worker has received: pending, or canceled when the shutdown sweep saw it. */
  predicate Untouched(s: State, id: JobId) {
    id in s.jobs && s.jobs[id].state == (if id in s.swept then Canceled else Pending)
  }

  predicate HeldAt(s: State, id: JobId, p: Place) {
    id in s.places && s.places[id] == p
  }

  predicate SubmitterOk(s: State, t: nat) {
    t in s.submitters ==>
      var id := s.submitters[t].id;
      && HeldAt(s, id, AtSubmitter(t))
      && (s.submitters[t].Unrecorded? ==> s.recorderFailed)
      && if s.submitters[t].Rejected? then id in s.jobs && s.jobs[id].state == Canceled else Untouched(s, id)
  }

  predicate QueueOk(s: State, i: nat) {
    i < |s.queue| ==> HeldAt(s, s.queue[i], InQueue(s.taken + i)) && Untouched(s, s.queue[i])
  }

  predicate WorkerOk(s: State, w: nat) {
    w < |s.workers| && !s.workers[w].Idle? && !s.workers[w].Exited? ==>
      var id := s.workers[w].id;
      && HeldAt(s, id, AtWorker(w)) && id in s.jobs
      && match s.workers[w]
         case Took(_) => s.jobs[id].state == Pending
         case Started(_) => s.jobs[id].state == Running && id !in s.scans
         case Scanning(_) => s.jobs[id].state == Running && id in s.scans
         case Scanned(_, _) => s.jobs[id].state == Running && id in s.scans
         case Finished(_, end) => s.jobs[id].state == end && Terminal(end) && id in s.scans
         case _ => true
  }

  /** Places are accurate: whoever a job is said to be with does hold it. */
  predicate PlaceOk(s: State, id: JobId) {
    id in s.places ==>
      match s.places[id]
      case AtSubmitter(t) => t in s.submitters && s.submitters[t].id == id
      case InQueue(n) => s.taken <= n < s.taken + |s.queue| && s.queue[n - s.taken] == id
      case AtWorker(w) => w < |s.workers| && !s.workers[w].Idle? && !s.workers[w].Exited? && s.workers[w].id == id
      case Nowhere => true
  }

  /** A live job is held by the thread or queue slot that will move it on, or its running record failed. */
  predicate JobOk(s: State, id: JobId) {
    && PlaceOk(s, id)
    && (id in s.jobs ==>
          && id in s.places
          && (s.jobs[id].state == Pending ==>
                s.places[id] != Nowhere && (s.places[id].AtWorker? ==> s.workers[s.places[id].w].Took?))
          && (s.jobs[id].state == Running ==>
                || id in s.lost
                || (&& s.places[id].AtWorker?
                    && var pc := s.workers[s.places[id].w]; pc.Started? || pc.Scanning? || pc.Scanned?)))
  }

  predicate ScanOk(s: State, id: JobId) {
    id in s.scans ==> id in s.jobs && (s.jobs[id].state == Running || s.jobs[id].state == Succeeded || s.jobs[id].state == Failed)
  }

  predicate SweptOk(s: State, id: JobId) {
    && (id in s.lost ==> id in s.jobs && s.jobs[id].state == Running && HeldAt(s, id, Nowhere))
    && (id in s.swept ==> id in s.places && (id !in s.jobs ==> s.recorderFailed))
    && (id in s.swept && id in s.jobs ==> Terminal(s.jobs[id].state) || (s.jobs[id].state == Running && id in s.lost))
  }

  predicate Basic(c: Config, s: State) {
    && |s.queue| <= c.depth && |s.workers| == c.workers
    && (s.phase.Serving? || s.phase.Stopping? ==> s.swept == {})
    && (s.phase.Sweeping? || s.phase.Stopped? ==> forall w :: 0 <= w < |s.workers| ==> s.workers[w].Exited?)
    && (s.lost != {} || s.reported ==> s.recorderFailed)
    && Distinct(s.scans)
  }

  ghost predicate Inv(c: Config, s: State) {
    && Basic(c, s)
    && (forall t: nat :: SubmitterOk(s, t))
    && (forall i: nat :: QueueOk(s, i))
    && (forall w: nat :: WorkerOk(s, w))
    && (forall id :: JobOk(s, id))
    && (forall id :: ScanOk(s, id))
    && (forall id :: SweptOk(s, id))
  }

  lemma {:induction false} RegisterKeeps(c: Config, s: State, t: nat, id: JobId, path: string)
    requires Inv(c, s) && Enabled(c, s, Register(t, id, path))
    ensures Inv(c, Apply(c, s, Register(t, id, path)))
  {
    assert JobOk(s, id) && ScanOk(s, id) && SweptOk(s, id);
    var n := Apply(c, s, Register(t, id, path));
    forall x: nat ensures SubmitterOk(n, x) { assert SubmitterOk(s, x); }
    forall i: nat ensures QueueOk(n, i) { assert QueueOk(s, i); }
    forall x: nat ensures WorkerOk(n, x) { assert WorkerOk(s, x); }
    forall j ensures JobOk(n, j) { assert JobOk(s, j); }
    forall j ensures ScanOk(n, j) { assert ScanOk(s, j); }
    forall j ensures SweptOk(n, j) { assert SweptOk(s, j); }
  }

  lemma {:induction false} RecordSubmissionKeeps(c: Config, s: State, t: nat, write: Write)
    requires Inv(c, s) && Enabled(c, s, RecordSubmission(t, write))
    ensures Inv(c, Apply(c, s, RecordSubmission(t, write)))
  {
    assert SubmitterOk(s, t);
    var n := Apply(c, s, RecordSubmission(t, write));
    forall x: nat ensures SubmitterOk(n, x) { assert SubmitterOk(s, x); }
    forall i: nat ensures QueueOk(n, i) { assert QueueOk(s, i); }
    forall x: nat ensures WorkerOk(n, x) { assert WorkerOk(s, x); }
    forall j ensures JobOk(n, j) { assert JobOk(s, j); }
    forall j ensures ScanOk(n, j) { assert ScanOk(s, j); }
    forall j ensures SweptOk(n, j) { assert SweptOk(s, j); }
  }

  lemma {:induction false} RemoveUnrecordedKeeps(c: Config, s: State, t: nat)
    requires Inv(c, s) && Enabled(c, s, RemoveUnrecorded(t))
    ensures Inv(c, Apply(c, s, RemoveUnrecorded(t)))
  {
    assert SubmitterOk(s, t);
    var n := Apply(c, s, RemoveUnrecorded(t));
    forall x: nat ensures SubmitterOk(n, x) { assert SubmitterOk(s, x); }
    forall i: nat ensures QueueOk(n, i) { assert QueueOk(s, i); }
    forall x: nat ensures WorkerOk(n, x) { assert WorkerOk(s, x); }
    forall j ensures JobOk(n, j) { assert JobOk(s, j); }
    forall j ensures ScanOk(n, j) { assert ScanOk(s, j); }
    forall j ensures SweptOk(n, j) { assert SweptOk(s, j); }
  }

  lemma {:induction false} EnqueueKeeps(c: Config, s: State, t: nat)
    requires Inv(c, s) && Enabled(c, s, Enqueue(t))
    ensures Inv(c, Apply(c, s, Enqueue(t)))
  {
    assert SubmitterOk(s, t);
    var n := Apply(c, s, Enqueue(t));
    forall x: nat ensures SubmitterOk(n, x) { assert SubmitterOk(s, x); }
    forall i: nat ensures QueueOk(n, i) { assert QueueOk(s, i); }
    forall x: nat ensures WorkerOk(n, x) { assert WorkerOk(s, x); }
    forall j ensures JobOk(n, j) { assert JobOk(s, j); }
    forall j ensures ScanOk(n, j) { assert ScanOk(s, j); }
    forall j ensures SweptOk(n, j) { assert SweptOk(s, j); }
  }

  lemma {:induction false} FindQueueFullKeeps(c: Config, s: State, t: nat)
    requires Inv(c, s) && Enabled(c, s, FindQueueFull(t))
    ensures Inv(c, Apply(c, s, FindQueueFull(t)))
  {
    assert SubmitterOk(s, t);
    var n := Apply(c, s, FindQueueFull(t));
    forall x: nat ensures SubmitterOk(n, x) { assert SubmitterOk(s, x); }
    forall i: nat ensures QueueOk(n, i) { assert QueueOk(s, i); }
    forall x: nat ensures WorkerOk(n, x) { assert WorkerOk(s, x); }
    forall j ensures JobOk(n, j) { assert JobOk(s, j); }
    forall j ensures ScanOk(n, j) { assert ScanOk(s, j); }
    forall j ensures SweptOk(n, j) { assert SweptOk(s, j); }
  }

  lemma {:induction false} CancelOverflowKeeps(c: Config, s: State, t: nat)
    requires Inv(c, s) && Enabled(c, s, CancelOverflow(t))
    ensures Inv(c, Apply(c, s, CancelOverflow(t)))
  {
    assert SubmitterOk(s, t);
    var n := Apply(c, s, CancelOverflow(t));
    forall x: nat ensures SubmitterOk(n, x) { assert SubmitterOk(s, x); }
    forall i: nat ensures QueueOk(n, i) { assert QueueOk(s, i); }
    forall x: nat ensures WorkerOk(n, x) { assert WorkerOk(s, x); }
    forall j ensures JobOk(n, j) { assert JobOk(s, j); }
    forall j ensures ScanOk(n, j) { assert ScanOk(s, j); }
    forall j ensures SweptOk(n, j) { assert SweptOk(s, j); }
  }

  lemma {:induction false} RecordRejectionKeeps(c: Config, s: State, t: nat, write: Write)
    requires Inv(c, s) && Enabled(c, s, RecordRejection(t, write))
    ensures Inv(c, Apply(c, s, RecordRejection(t, write)))
  {
    assert SubmitterOk(s, t);
    var n := Apply(c, s, RecordRejection(t, write));
    forall x: nat ensures SubmitterOk(n, x) { assert SubmitterOk(s, x); }
    forall i: nat ensures QueueOk(n, i) { assert QueueOk(s, i); }
    forall x: nat ensures WorkerOk(n, x) { assert WorkerOk(s, x); }
    forall j ensures JobOk(n, j) { assert JobOk(s, j); }
    forall j ensures ScanOk(n, j) { assert ScanOk(s, j); }
    forall j ensures SweptOk(n, j) { assert SweptOk(s, j); }
  }

  lemma {:induction false} TakeKeeps(c: Config, s: State, w: nat)
    requires Inv(c, s) && Enabled(c, s, Take(w))
    ensures Inv(c, Apply(c, s, Take(w)))
  {
    assert QueueOk(s, 0) && ScanOk(s, s.queue[0]);
    var n := Apply(c, s, Take(w));
    forall x: nat ensures SubmitterOk(n, x) { assert SubmitterOk(s, x); }
    forall i: nat ensures QueueOk(n, i) { assert QueueOk(s, i + 1); }
    forall x: nat ensures WorkerOk(n, x) { assert WorkerOk(s, x); }
    forall j ensures JobOk(n, j) { assert JobOk(s, j); }
    forall j ensures ScanOk(n, j) { assert ScanOk(s, j); }
    forall j ensures SweptOk(n, j) { assert SweptOk(s, j); }
  }

  lemma {:induction false} ExitKeeps(c: Config, s: State, w: nat)
    requires Inv(c, s) && Enabled(c, s, Exit(w))
    ensures Inv(c, Apply(c, s, Exit(w)))
  {
    assert WorkerOk(s, w);
    var n := Apply(c, s, Exit(w));
    forall x: nat ensures SubmitterOk(n, x) { assert SubmitterOk(s, x); }
    forall i: nat ensures QueueOk(n, i) { assert QueueOk(s, i); }
    forall x: nat ensures WorkerOk(n, x) { assert WorkerOk(s, x); }
    forall j ensures JobOk(n, j) { assert JobOk(s, j); }
    forall j ensures ScanOk(n, j) { assert ScanOk(s, j); }
    forall j ensures SweptOk(n, j) { assert SweptOk(s, j); }
  }

  lemma {:induction false} BeginKeeps(c: Config, s: State, w: nat)
    requires Inv(c, s) && Enabled(c, s, Begin(w))
    ensures Inv(c, Apply(c, s, Begin(w)))
  {
    assert WorkerOk(s, w) && ScanOk(s, s.workers[w].id);
    var n := Apply(c, s, Begin(w));
    forall x: nat ensures SubmitterOk(n, x) { assert SubmitterOk(s, x); }
    forall i: nat ensures QueueOk(n, i) { assert QueueOk(s, i); }
    forall x: nat ensures WorkerOk(n, x) { assert WorkerOk(s, x); }
    forall j ensures JobOk(n, j) { assert JobOk(s, j); }
    forall j ensures ScanOk(n, j) { assert ScanOk(s, j); }
    forall j ensures SweptOk(n, j) { assert SweptOk(s, j); }
  }

  lemma {:induction false} RecordRunningSucceeds(c: Config, s: State, w: nat)
    requires Inv(c, s) && Enabled(c, s, RecordRunning(w, Written))
    ensures Inv(c, Apply(c, s, RecordRunning(w, Written)))
  {
    assert WorkerOk(s, w);
    var n := Apply(c, s, RecordRunning(w, Written));
    forall x: nat ensures SubmitterOk(n, x) { assert SubmitterOk(s, x); }
    forall i: nat ensures QueueOk(n, i) { assert QueueOk(s, i); }
    forall x: nat ensures WorkerOk(n, x) { assert WorkerOk(s, x); }
    forall j ensures JobOk(n, j) { assert JobOk(s, j); }
    forall j ensures ScanOk(n, j) { assert ScanOk(s, j); }
    forall j ensures SweptOk(n, j) { assert SweptOk(s, j); }
  }

  lemma {:induction false} RecordRunningFails(c: Config, s: State, w: nat, write: Write)
    requires Inv(c, s) && !write.Written? && Enabled(c, s, RecordRunning(w, write))
    ensures Inv(c, Apply(c, s, RecordRunning(w, write)))
  {
    assert WorkerOk(s, w);
    var n := Apply(c, s, RecordRunning(w, write));
    forall x: nat ensures SubmitterOk(n, x) { assert SubmitterOk(s, x); }
    forall i: nat ensures QueueOk(n, i) { assert QueueOk(s, i); }
    forall x: nat ensures WorkerOk(n, x) { assert WorkerOk(s, x); }
    forall j ensures JobOk(n, j) { assert JobOk(s, j); }
    forall j ensures ScanOk(n, j) { assert ScanOk(s, j); }
    forall j ensures SweptOk(n, j) { assert SweptOk(s, j); }
  }

  lemma {:induction false} RecordRunningKeeps(c: Config, s: State, w: nat, write: Write)
    requires Inv(c, s) && Enabled(c, s, RecordRunning(w, write))
    ensures Inv(c, Apply(c, s, RecordRunning(w, write)))
  {
    hide Inv, Enabled, Apply;
    if write.Written? {
      RecordRunningSucceeds(c, s, w);
    } else {
      RecordRunningFails(c, s, w, write);
    }
  }

  lemma {:induction false} EndScanKeeps(c: Config, s: State, w: nat, ok: bool)
    requires Inv(c, s) && Enabled(c, s, EndScan(w, ok))
    ensures Inv(c, Apply(c, s, EndScan(w, ok)))
  {
    assert WorkerOk(s, w);
    var n := Apply(c, s, EndScan(w, ok));
    forall x: nat ensures SubmitterOk(n, x) { assert SubmitterOk(s, x); }
    forall i: nat ensures QueueOk(n, i) { assert QueueOk(s, i); }
    forall x: nat ensures WorkerOk(n, x) { assert WorkerOk(s, x); }
    forall j ensures JobOk(n, j) { assert JobOk(s, j); }
    forall j ensures ScanOk(n, j) { assert ScanOk(s, j); }
    forall j ensures SweptOk(n, j) { assert SweptOk(s, j); }
  }

  lemma {:induction false} FinishKeeps(c: Config, s: State, w: nat)
    requires Inv(c, s) && Enabled(c, s, Finish(w))
    ensures Inv(c, Apply(c, s, Finish(w)))
  {
    assert WorkerOk(s, w);
    var n := Apply(c, s, Finish(w));
    forall x: nat ensures SubmitterOk(n, x) { assert SubmitterOk(s, x); }
    forall i: nat ensures QueueOk(n, i) { assert QueueOk(s, i); }
    forall x: nat ensures WorkerOk(n, x) { assert WorkerOk(s, x); }
    forall j ensures JobOk(n, j) { assert JobOk(s, j); }
    forall j ensures ScanOk(n, j) { assert ScanOk(s, j); }
    forall j ensures SweptOk(n, j) { assert SweptOk(s, j); }
  }

  lemma {:induction false} RecordResultKeeps(c: Config, s: State, w: nat, write: Write)
    requires Inv(c, s) && Enabled(c, s, RecordResult(w, write))
    ensures Inv(c, Apply(c, s, RecordResult(w, write)))
  {
    assert WorkerOk(s, w);
    var n := Apply(c, s, RecordResult(w, write));
    forall x: nat ensures SubmitterOk(n, x) { assert SubmitterOk(s, x); }
    forall i: nat ensures QueueOk(n, i) { assert QueueOk(s, i); }
    forall x: nat ensures WorkerOk(n, x) { assert WorkerOk(s, x); }
    forall j ensures JobOk(n, j) { assert JobOk(s, j); }
    forall j ensures ScanOk(n, j) { assert ScanOk(s, j); }
    forall j ensures SweptOk(n, j) { assert SweptOk(s, j); }
  }

  lemma {:induction false} StopKeeps(c: Config, s: State, onError: bool)
    requires Inv(c, s) && Enabled(c, s, Stop(onError))
    ensures Inv(c, Apply(c, s, Stop(onError)))
  {
    var n := Apply(c, s, Stop(onError));
    forall x: nat ensures SubmitterOk(n, x) { assert SubmitterOk(s, x); }
    forall i: nat ensures QueueOk(n, i) { assert QueueOk(s, i); }
    forall x: nat ensures WorkerOk(n, x) { assert WorkerOk(s, x); }
    forall j ensures JobOk(n, j) { assert JobOk(s, j); }
    forall j ensures ScanOk(n, j) { assert ScanOk(s, j); }
    forall j ensures SweptOk(n, j) { assert SweptOk(s, j); }
  }

  lemma {:induction false} SweepKeeps(c: Config, s: State, order: seq<JobId>)
    requires Inv(c, s) && Enabled(c, s, Sweep(order))
    ensures Inv(c, Apply(c, s, Sweep(order)))
  {
    var n := Apply(c, s, Sweep(order));
    forall x: nat ensures SubmitterOk(n, x) { assert SubmitterOk(s, x); }
    forall i: nat ensures QueueOk(n, i) { assert QueueOk(s, i); }
    forall x: nat ensures WorkerOk(n, x) { assert WorkerOk(s, x); }
    forall j ensures JobOk(n, j) { assert JobOk(s, j); }
    forall j ensures ScanOk(n, j) { assert ScanOk(s, j); }
    forall j ensures SweptOk(n, j) { assert JobOk(s, j) && SweptOk(s, j); }
  }

  lemma {:induction false} RecordCanceledKeeps(c: Config, s: State, write: Write)
    requires Inv(c, s) && Enabled(c, s, RecordCanceled(write))
    ensures Inv(c, Apply(c, s, RecordCanceled(write)))
  {
    var n := Apply(c, s, RecordCanceled(write));
    forall x: nat ensures SubmitterOk(n, x) { assert SubmitterOk(s, x); }
    forall i: nat ensures QueueOk(n, i) { assert QueueOk(s, i); }
    forall x: nat ensures WorkerOk(n, x) { assert WorkerOk(s, x); }
    forall j ensures JobOk(n, j) { assert JobOk(s, j); }
    forall j ensures ScanOk(n, j) { assert ScanOk(s, j); }
    forall j ensures SweptOk(n, j) { assert SweptOk(s, j); }
  }

  lemma {:induction false} ReturnKeeps(c: Config, s: State)
    requires Inv(c, s) && Enabled(c, s, Return)
    ensures Inv(c, Apply(c, s, Return))
  {
    var n := Apply(c, s, Return);
    forall x: nat ensures SubmitterOk(n, x) { assert SubmitterOk(s, x); }
    forall i: nat ensures QueueOk(n, i) { assert QueueOk(s, i); }
    forall x: nat ensures WorkerOk(n, x) { assert WorkerOk(s, x); }
    forall j ensures JobOk(n, j) { assert JobOk(s, j); }
    forall j ensures ScanOk(n, j) { assert ScanOk(s, j); }
    forall j ensures SweptOk(n, j) { assert SweptOk(s, j); }
  }

  /** Every step of every thread keeps the invariant. */
  lemma {:induction false} StepKeeps(c: Config, s: State, a: Action)
    requires Inv(c, s) && Enabled(c, s, a)
    ensures Inv(c, Apply(c, s, a))
  {
    hide Inv, Enabled, Apply;
    match a
    case Register(t, id, path) => RegisterKeeps(c, s, t, id, path);
    case RecordSubmission(t, write) => RecordSubmissionKeeps(c, s, t, write);
    case RemoveUnrecorded(t) => RemoveUnrecordedKeeps(c, s, t);
    case Enqueue(t) => EnqueueKeeps(c, s, t);
    case FindQueueFull(t) => FindQueueFullKeeps(c, s, t);
    case CancelOverflow(t) => CancelOverflowKeeps(c, s, t);
    case RecordRejection(t, write) => RecordRejectionKeeps(c, s, t, write);
    case Take(w) => TakeKeeps(c, s, w);
    case Exit(w) => ExitKeeps(c, s, w);
    case Begin(w) => BeginKeeps(c, s, w);
    case RecordRunning(w, write) => RecordRunningKeeps(c, s, w, write);
    case EndScan(w, ok) => EndScanKeeps(c, s, w, ok);
    case Finish(w) => FinishKeeps(c, s, w);
    case RecordResult(w, write) => RecordResultKeeps(c, s, w, write);
    case Stop(onError) => StopKeeps(c, s, onError);
    case Sweep(order) => SweepKeeps(c, s, order);
    case RecordCanceled(write) => RecordCanceledKeeps(c, s, write);
    case Return => ReturnKeeps(c, s);
  }

  lemma {:induction false} InitialOk(c: Config)
    ensures Inv(c, Initial(c))
  {
  }

  /** Over every run from the start. */
  lemma {:induction false} RunKeeps(c: Config, s: State, run: seq<Action>)
    requires Inv(c, s) && Execute(c, s, run).Reached?
    ensures Inv(c, Execute(c, s, run).s)
    decreases |run|
  {
    hide Inv, Enabled, Apply;
    if run != [] {
      StepKeeps(c, s, run[0]);
      RunKeeps(c, Apply(c, s, run[0]), run[1..]);
    }
  }

  // ------------------------------------------------ what follows

  /** The legal changes of one job. */
  predicate Moves(from: JobState, to: JobState) {
    || from == to
    || (from == Pending && (to == Running || to == Canceled))
    || (from == Running && (to == Succeeded || to == Failed))
  }

  /**
   A job is registered pending, then moves pending -> running -> succeeded or failed, or pending ->
   canceled.  It leaves the map only when its first journal write failed.
   */
  lemma {:induction false} StepMovesJobs(c: Config, s: State, a: Action, id: JobId)
    requires Inv(c, s) && Enabled(c, s, a)
    ensures var n := Apply(c, s, a);
            && (id in s.jobs && id in n.jobs ==> Moves(s.jobs[id].state, n.jobs[id].state) && n.jobs[id].path == s.jobs[id].path)
            && (id !in s.jobs && id in n.jobs ==> n.jobs[id].state == Pending && id !in s.places)
            && (id in s.jobs && id !in n.jobs ==> a.RemoveUnrecorded? && s.recorderFailed)
  {
    match a
    case CancelOverflow(t) => assert SubmitterOk(s, t);
    case RemoveUnrecorded(t) => assert SubmitterOk(s, t);
    case Register(t, j, _) => assert JobOk(s, j);
    case Begin(w) => assert WorkerOk(s, w);
    case Finish(w) => assert WorkerOk(s, w);
    case _ =>
  }

  /** Terminal states are final, along any run. */
  lemma {:induction false} TerminalIsFinal(c: Config, s: State, run: seq<Action>, id: JobId)
    requires Inv(c, s) && Execute(c, s, run).Reached?
    requires id in s.jobs && Terminal(s.jobs[id].state)
    ensures var n := Execute(c, s, run).s;
            id in n.jobs ==> n.jobs[id].state == s.jobs[id].state
    decreases |run|
  {
    hide Inv, Enabled, Apply;
    if run != [] {
      var n := Apply(c, s, run[0]);
      StepKeeps(c, s, run[0]);
      StepMovesJobs(c, s, run[0], id);
      if id in n.jobs {
        TerminalIsFinal(c, n, run[1..], id);
      } else {
        assert id in n.places by { StillPlaced(c, s, run[0], id); }
        NeverReused(c, n, run[1..], id);
      }
    }
  }

  lemma {:induction false} StillPlaced(c: Config, s: State, a: Action, id: JobId)
    requires Inv(c, s) && Enabled(c, s, a) && (id in s.jobs || id in s.places)
    ensures id in Apply(c, s, a).places
  {
    assert JobOk(s, id);
  }

  lemma {:induction false} NeverReused(c: Config, s: State, run: seq<Action>, id: JobId)
    requires Inv(c, s) && Execute(c, s, run).Reached?
    requires id !in s.jobs && id in s.places
    ensures id !in Execute(c, s, run).s.jobs
    decreases |run|
  {
    hide Inv, Enabled, Apply;
    if run != [] {
      StepKeeps(c, s, run[0]);
      StepMovesJobs(c, s, run[0], id);
      StillPlaced(c, s, run[0], id);
      NeverReused(c, Apply(c, s, run[0]), run[1..], id);
    }
  }

  function RunningIds(s: State): set<JobId> {
    set id | id in s.jobs && s.jobs[id].state == Running
  }

  /** Distinct jobs at distinct places number at most the places. */
  lemma {:induction false} AtMostPlaces(ids: set<JobId>, places: map<JobId, Place>, free: set<nat>)
    requires forall id :: id in ids ==> id in places && places[id].AtWorker? && places[id].w in free
    requires forall x, y :: x in ids && y in ids && places[x].w == places[y].w ==> x == y
    ensures |ids| <= |free|
    decreases |ids|
  {
    if id :| id in ids {
      AtMostPlaces(ids - {id}, places, free - {places[id].w});
    }
  }

  /**
   Over every run: each job is scanned at most once, the queue stays within its depth, and at most as
   many jobs are running as there are workers, not counting those whose running record failed.
   */
  lemma {:induction false} BoundsHold(c: Config, run: seq<Action>)
    requires Execute(c, Initial(c), run).Reached?
    ensures var s := Execute(c, Initial(c), run).s;
            && Distinct(s.scans)
            && |s.queue| <= c.depth
            && |RunningIds(s) - s.lost| <= c.workers
            && (!s.recorderFailed ==> s.lost == {})
  {
    InitialOk(c);
    RunKeeps(c, Initial(c), run);
    var s := Execute(c, Initial(c), run).s;
    hide Execute, Initial;
    var ids := RunningIds(s) - s.lost;
    forall id | id in ids ensures id in s.places && s.places[id].AtWorker? && s.places[id].w in Below(c.workers) {
      assert JobOk(s, id);
    }
    forall x, y | x in ids && y in ids && s.places[x].w == s.places[y].w ensures x == y {
      assert JobOk(s, x) && JobOk(s, y);
    }
    AtMostPlaces(ids, s.places, Below(c.workers));
  }

  /**
   Once shutdown has swept the map, a job that was registered by then is terminal, except exactly the
   jobs whose running record could not be written: those stay running.  Without recorder failures
   none is left pending or running, and none is missing.
   */
  lemma {:induction false} NothingLeftBehind(c: Config, run: seq<Action>, id: JobId)
    requires Execute(c, Initial(c), run).Reached?
    ensures var s := Execute(c, Initial(c), run).s;
            id in s.swept ==>
              && (id in s.jobs ==> (!Terminal(s.jobs[id].state) <==> id in s.lost))
              && (id in s.lost ==> id in s.jobs && s.jobs[id].state == Running)
              && (!s.recorderFailed ==> id in s.jobs && Terminal(s.jobs[id].state))
  {
    InitialOk(c);
    RunKeeps(c, Initial(c), run);
    hide Execute, Initial;
    assert SweptOk(Execute(c, Initial(c), run).s, id);
  }
}
