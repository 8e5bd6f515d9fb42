/**
 The daemon's job manager (internal/daemon/daemon.go): submitters, workers and shutdown as threads
 that interleave between critical sections, channel operations, journal writes and scans.
 */
module JobManager {
  import opened Common

  type JobId = string

  datatype JobState = Pending | Running | Succeeded | Failed | Canceled

  predicate Terminal(st: JobState) {
    st == Succeeded || st == Failed || st == Canceled
  }

  datatype Job = Job(path: string, state: JobState)

  datatype Config = Config(workers: nat, depth: nat)

  /** Where a call of `Submit` stands. */
  datatype SubmitPc =
    | Registered(id: JobId)  // in the map, not yet journalled
    | Recorded(id: JobId)    // journalled, not yet offered to the queue
    | Unrecorded(id: JobId)  // journalling failed, not yet removed from the map
    | Overflow(id: JobId)    // queue full, not yet marked canceled
    | Rejected(id: JobId)    // marked canceled, not yet journalled

  /** Where a worker stands in `execute`. */
  datatype WorkerPc =
    | Idle
    | Took(id: JobId)                     // received from the queue
    | Started(id: JobId)                  // marked running, not yet journalled
    | Scanning(id: JobId)                 // inside the scan function
    | Scanned(id: JobId, ok: bool)        // scan returned
    | Finished(id: JobId, end: JobState)  // marked succeeded or failed, not yet journalled
    | Exited

  datatype Phase =
    | Serving
    | Stopping
    | Sweeping(todo: seq<JobId>)  // pending jobs marked canceled; these still to be journalled
    | Stopped

  /** Who a job was last handed to; only for stating invariants. */
  datatype Place = AtSubmitter(t: nat) | InQueue(ticket: nat) | AtWorker(w: nat) | Nowhere

  /**
   The first six fields are the program's state; the others are history: the journal file, scan
   calls, places of jobs, receives from the queue, IDs issued so far, jobs whose running record
   failed, jobs in the map when shutdown swept it, and submissions in flight at that moment.
   */
  datatype State = State(
    jobs: map<JobId, Job>,
    queue: seq<JobId>,
    submitters: map<nat, SubmitPc>,
    workers: seq<WorkerPc>,
    phase: Phase,
    reported: bool,
    journal: seq<(JobId, JobState)>,
    scans: seq<JobId>,
    places: map<JobId, Place>,
    taken: nat,
    lost: set<JobId>,
    swept: set<JobId>,
    overtaken: set<JobId>,
    recorderFailed: bool)

  function Initial(c: Config): State {
    State(map[], [], map[], seq(c.workers, i => Idle), Serving, false, [], [], map[], 0, {}, {}, {}, false)
  }

  // ------------------------------------------------ critical sections

  function SetState(jobs: map<JobId, Job>, id: JobId, st: JobState): map<JobId, Job> {
    jobs[id := Job(if id in jobs then jobs[id].path else "", st)]
  }

  function CancelAll(jobs: map<JobId, Job>): map<JobId, Job> {
    map id | id in jobs :: if jobs[id].state == Pending then jobs[id].(state := Canceled) else jobs[id]
  }

  function PendingIds(jobs: map<JobId, Job>): set<JobId> {
    set id | id in jobs && jobs[id].state == Pending
  }

  // ------------------------------------------------ steps

  /** A journal write succeeds, fails with nothing written, or fails after its line reached the file. */
  datatype Write = Written | NotWritten | WrittenButFailed

  datatype Action =
    | Register(t: nat, id: JobId, path: string)
    | RecordSubmission(t: nat, write: Write)
    | RemoveUnrecorded(t: nat)
    | Enqueue(t: nat)
    | FindQueueFull(t: nat)
    | CancelOverflow(t: nat)
    | RecordRejection(t: nat, write: Write)
    | Take(w: nat)
    | Exit(w: nat)
    | Begin(w: nat)
    | RecordRunning(w: nat, write: Write)
    | EndScan(w: nat, ok: bool)
    | Finish(w: nat)
    | RecordResult(w: nat, write: Write)
    | Stop(onError: bool)
    | Sweep(order: seq<JobId>)
    | RecordCanceled(write: Write)
    | Return

  predicate At(s: State, t: nat) {
    t in s.submitters
  }

  /** When a step can be taken. */
  predicate Enabled(c: Config, s: State, a: Action) {
    match a
    case Register(t, id, path) => t !in s.submitters && path != "" && id !in s.places
    case RecordSubmission(t, _) => At(s, t) && s.submitters[t].Registered?
    case RemoveUnrecorded(t) => At(s, t) && s.submitters[t].Unrecorded?
    case Enqueue(t) => At(s, t) && s.submitters[t].Recorded? && |s.queue| < c.depth
    case FindQueueFull(t) => At(s, t) && s.submitters[t].Recorded? && |s.queue| >= c.depth
    case CancelOverflow(t) => At(s, t) && s.submitters[t].Overflow?
    case RecordRejection(t, _) => At(s, t) && s.submitters[t].Rejected?
    case Take(w) => w < |s.workers| && s.workers[w].Idle? && s.queue != []
    case Exit(w) => w < |s.workers| && s.workers[w].Idle? && s.phase.Stopping?
    case Begin(w) => w < |s.workers| && s.workers[w].Took?
    case RecordRunning(w, _) => w < |s.workers| && s.workers[w].Started?
    case EndScan(w, _) => w < |s.workers| && s.workers[w].Scanning?
    case Finish(w) => w < |s.workers| && s.workers[w].Scanned?
    case RecordResult(w, _) => w < |s.workers| && s.workers[w].Finished?
    case Stop(onError) => s.phase.Serving? && (onError ==> s.reported)
    case Sweep(order) =>
      && s.phase.Stopping? && (forall w :: 0 <= w < |s.workers| ==> s.workers[w].Exited?)
      && Distinct(order) && (set id | id in order) == PendingIds(s.jobs)
    case RecordCanceled(_) => s.phase.Sweeping? && s.phase.todo != []
    case Return => s.phase.Sweeping? && s.phase.todo == []
  }

  /** The journal and the error channel after an attempt to record a snapshot. */
  function Journalled(s: State, id: JobId, st: JobState, write: Write, report: bool): State {
    s.(journal := if write.NotWritten? then s.journal else s.journal + [(id, st)],
       recorderFailed := s.recorderFailed || !write.Written?,
       reported := s.reported || (report && !write.Written?))
  }

  function SetWorker(s: State, w: nat, pc: WorkerPc): State
    requires w < |s.workers|
  {
    s.(workers := s.workers[w := pc])
  }

  function Released(s: State, id: JobId): State {
    s.(places := s.places[id := Nowhere])
  }

  function Apply(c: Config, s: State, a: Action): State
    requires Enabled(c, s, a)
  {
    match a
    case Register(t, id, path) =>
      s.(jobs := s.jobs[id := Job(path, Pending)], submitters := s.submitters[t := Registered(id)],
         places := s.places[id := AtSubmitter(t)])
    case RecordSubmission(t, write) =>
      var id := s.submitters[t].id;
      Journalled(s, id, Pending, write, false)
        .(submitters := s.submitters[t := if write.Written? then Recorded(id) else Unrecorded(id)])
    case RemoveUnrecorded(t) =>
      var id := s.submitters[t].id;
      Released(s, id).(jobs := s.jobs - {id}, submitters := s.submitters - {t})
    case Enqueue(t) =>
      var id := s.submitters[t].id;
      s.(queue := s.queue + [id], submitters := s.submitters - {t}, places := s.places[id := InQueue(s.taken + |s.queue|)])
    case FindQueueFull(t) => s.(submitters := s.submitters[t := Overflow(s.submitters[t].id)])
    case CancelOverflow(t) =>
      var id := s.submitters[t].id;
      s.(jobs := SetState(s.jobs, id, Canceled), submitters := s.submitters[t := Rejected(id)])
    case RecordRejection(t, write) =>
      var id := s.submitters[t].id;
      Released(Journalled(s, id, Canceled, write, true), id).(submitters := s.submitters - {t})
    case Take(w) =>
      var id := s.queue[0];
      SetWorker(s, w, Took(id)).(queue := s.queue[1..], taken := s.taken + 1, places := s.places[id := AtWorker(w)])
    case Exit(w) => SetWorker(s, w, Exited)
    case Begin(w) =>
      var id := s.workers[w].id;
      if id !in s.jobs || s.jobs[id].state != Pending then Released(SetWorker(s, w, Idle), id)
      else SetWorker(s, w, Started(id)).(jobs := SetState(s.jobs, id, Running))
    case RecordRunning(w, write) =>
      var id := s.workers[w].id;
      var r := Journalled(s, id, Running, write, true);
      if write.Written? then SetWorker(r, w, Scanning(id)).(scans := s.scans + [id])
      else Released(SetWorker(r, w, Idle), id).(lost := s.lost + {id})
    case EndScan(w, ok) => SetWorker(s, w, Scanned(s.workers[w].id, ok))
    case Finish(w) =>
      var id := s.workers[w].id;
      var end := if s.workers[w].ok then Succeeded else Failed;
      SetWorker(s, w, Finished(id, end)).(jobs := SetState(s.jobs, id, end))
    case RecordResult(w, write) =>
      var id := s.workers[w].id;
      Released(SetWorker(Journalled(s, id, s.workers[w].end, write, true), w, Idle), id)
    case Stop(onError) => s.(phase := Stopping, reported := s.reported && !onError)
    case Sweep(order) =>
      s.(jobs := CancelAll(s.jobs), phase := Sweeping(order), swept := s.jobs.Keys,
         overtaken := set t | t in s.submitters :: s.submitters[t].id)
    case RecordCanceled(write) =>
      Journalled(s, s.phase.todo[0], Canceled, write, true).(phase := Sweeping(s.phase.todo[1..]))
    case Return => s.(phase := Stopped)
  }

  /** The state after a list of steps, or none when one of them could not be taken. */
  datatype Outcome = Stuck | Reached(s: State)

  function Execute(c: Config, s: State, run: seq<Action>): Outcome
    decreases |run|
  {
    if run == [] then Reached(s)
    else if Enabled(c, s, run[0]) then Execute(c, Apply(c, s, run[0]), run[1..])
    else Stuck
  }

  // ------------------------------------------------ the critical sections as code

  class Manager {
    var jobs: map<JobId, Job>

    constructor ()
      ensures jobs == map[]
    {
      jobs := map[];
    }

    /** First critical section of `execute`; `ok` is false where it returns. */
    method BeginExecute(id: JobId) returns (ok: bool)
      modifies this
      ensures ok <==> id in old(jobs) && old(jobs)[id].state == Pending
      ensures jobs == if ok then SetState(old(jobs), id, Running) else old(jobs)
    {
      if id !in jobs || jobs[id].state != Pending {
        return false;
      }
      jobs := jobs[id := jobs[id].(state := Running)];
      return true;
    }

    /** `cancelPending`, up to its journal writes. */
    method CancelPending() returns (canceled: seq<JobId>)
      modifies this
      ensures jobs == CancelAll(old(jobs))
      ensures Distinct(canceled) && (set id | id in canceled) == PendingIds(old(jobs))
    {
      canceled := [];
      var todo := jobs.Keys;
      while todo != {}
        invariant todo <= jobs.Keys == old(jobs).Keys
        invariant Distinct(canceled) && forall i :: 0 <= i < |canceled| ==> canceled[i] !in todo
        invariant forall id :: id in canceled <==> id in old(jobs) && id !in todo && old(jobs)[id].state == Pending
        invariant forall id :: id in jobs ==> jobs[id] == if id in todo then old(jobs)[id] else CancelAll(old(jobs))[id]
        decreases |todo|
      {
        var id :| id in todo;
        todo := todo - {id};
        if jobs[id].state != Pending {
          continue;
        }
        jobs := jobs[id := jobs[id].(state := Canceled)];
        canceled := canceled + [id];
      }
    }
  }
}
