/** Which steps are open to whom: no submitter, worker or shutdown is ever stuck, and each choice is decided as it should be. */
module JobSteps {
  import opened Common
  import opened JobManager
  import opened JobSafety

  /** A submission goes on in one way: it is journalled, and offered to the queue, which is full exactly when it holds `depth` jobs. */
  lemma {:induction false} SubmitterGoesOn(c: Config, s: State, t: nat, write: Write)
    requires Inv(c, s) && t in s.submitters
    ensures Enabled(c, s, RecordSubmission(t, write)) <==> s.submitters[t].Registered?
    ensures Enabled(c, s, RemoveUnrecorded(t)) <==> s.submitters[t].Unrecorded?
    ensures Enabled(c, s, Enqueue(t)) <==> s.submitters[t].Recorded? && |s.queue| != c.depth
    ensures Enabled(c, s, FindQueueFull(t)) <==> s.submitters[t].Recorded? && |s.queue| == c.depth
    ensures Enabled(c, s, CancelOverflow(t)) <==> s.submitters[t].Overflow?
    ensures Enabled(c, s, RecordRejection(t, write)) <==> s.submitters[t].Rejected?
  {
    hide JobOk, ScanOk, QueueOk, WorkerOk, SweptOk, SubmitterOk;
  }

  /** A worker goes on with its job whatever else happens; idle, it takes a job if there is one, and may leave once shutdown began. */
  lemma {:induction false} WorkerGoesOn(c: Config, s: State, w: nat, write: Write, ok: bool)
    requires w < |s.workers|
    ensures Enabled(c, s, Take(w)) <==> s.workers[w].Idle? && |s.queue| > 0
    ensures Enabled(c, s, Exit(w)) <==> s.workers[w].Idle? && s.phase.Stopping?
    ensures Enabled(c, s, Begin(w)) <==> s.workers[w].Took?
    ensures Enabled(c, s, RecordRunning(w, write)) <==> s.workers[w].Started?
    ensures Enabled(c, s, EndScan(w, ok)) <==> s.workers[w].Scanning?
    ensures Enabled(c, s, Finish(w)) <==> s.workers[w].Scanned?
    ensures Enabled(c, s, RecordResult(w, write)) <==> s.workers[w].Finished?
  {
  }

  /** The pending jobs in some order. */
  lemma {:induction false} Listed(ids: set<JobId>) returns (order: seq<JobId>)
    ensures Distinct(order) && (set id | id in order) == ids
    decreases |ids|
  {
    if ids == {} {
      order := [];
    } else {
      var id :| id in ids;
      var rest := Listed(ids - {id});
      order := rest + [id];
      assert id !in (set x | x in rest);
      assert (set x | x in order) == (set x | x in rest) + {id};
    }
  }

  /**
   Shutdown goes on: it begins on request, or on an error that was reported; it sweeps the map, in some order, exactly when all
   workers have left; it journals what it canceled one by one, and then returns.
   */
  lemma {:induction false} ShutdownGoesOn(c: Config, s: State, write: Write)
    ensures Enabled(c, s, Stop(false)) <==> s.phase.Serving?
    ensures Enabled(c, s, Stop(true)) <==> s.phase.Serving? && s.reported
    ensures (exists order :: Enabled(c, s, Sweep(order))) <==>
            s.phase.Stopping? && forall w :: 0 <= w < |s.workers| ==> s.workers[w].Exited?
    ensures Enabled(c, s, RecordCanceled(write)) <==> s.phase.Sweeping? && |s.phase.todo| > 0
    ensures Enabled(c, s, Return) <==> s.phase.Sweeping? && |s.phase.todo| == 0
  {
    if s.phase.Stopping? && forall w :: 0 <= w < |s.workers| ==> s.workers[w].Exited? {
      var order := Listed(PendingIds(s.jobs));
      assert Enabled(c, s, Sweep(order));
    }
  }

  /** Anyone may submit a path under a new identity at any time. */
  lemma {:induction false} SubmissionIsOpen(c: Config, s: State, t: nat, id: JobId, path: string)
    ensures Enabled(c, s, Register(t, id, path)) <==> t !in s.submitters && |path| > 0 && id !in s.places
  {
  }
}
