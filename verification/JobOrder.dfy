/**
 Exactly when the journal of a submission that shutdown overtook can end up with pending after canceled.
 */
module JobOrder {
  import opened Common
  import opened JobManager
  import opened JobSafety
  import opened JobJournal
  import opened JobHistory
  import opened JobRecovery

  /** A job is journalled pending after it was journalled canceled. */
  predicate OutOfOrder(j: seq<JobState>) {
    exists i, k :: 0 <= i < k < |j| && j[i] == Canceled && j[k] == Pending
  }

  /** The run goes on with `more`, no record fails, and then this job's journal is out of order. */
  ghost predicate GoesOutOfOrder(c: Config, s: State, more: seq<Action>, id: JobId) {
    var end := Execute(c, s, more);
    end.Reached? && !end.s.recorderFailed && OutOfOrder(Snapshots(end.s.journal, id))
  }

  /** After the sweep the submissions it overtook stay the same. */
  lemma {:induction false} OvertakenStay(c: Config, s: State, a: Action)
    requires Enabled(c, s, a) && (s.phase.Sweeping? || s.phase.Stopped?)
    ensures Apply(c, s, a).overtaken == s.overtaken && (Apply(c, s, a).phase.Sweeping? || Apply(c, s, a).phase.Stopped?)
  {
    match a
    case Register(_, _, _) =>
    case RecordSubmission(_, _) =>
    case RemoveUnrecorded(_) =>
    case Enqueue(_) =>
    case FindQueueFull(_) =>
    case CancelOverflow(_) =>
    case RecordRejection(_, _) =>
    case Take(_) =>
    case Exit(_) =>
    case Begin(_) =>
    case RecordRunning(_, _) =>
    case EndScan(_, _) =>
    case Finish(_) =>
    case RecordResult(_, _) =>
    case Stop(_) =>
    case Sweep(_) =>
    case RecordCanceled(_) =>
    case Return =>
  }

  /** The journal only grows. */
  lemma {:induction false} StepGrows(c: Config, s: State, a: Action, id: JobId)
    requires Enabled(c, s, a)
    ensures Snapshots(s.journal, id) <= Snapshots(Apply(c, s, a).journal, id)
  {
    hide Apply, Enabled, Snapshots, LineOf;
    StepJournals(c, s, a);
    var line := LineOf(c, s, a);
    SnapshotsSnoc(s.journal, line.0, line.1, id);
  }

  lemma {:induction false} RunGrows(c: Config, s: State, run: seq<Action>, id: JobId)
    requires (s.phase.Sweeping? || s.phase.Stopped?) && Execute(c, s, run).Reached?
    ensures Execute(c, s, run).s.overtaken == s.overtaken
    ensures Snapshots(s.journal, id) <= Snapshots(Execute(c, s, run).s.journal, id)
    decreases |run|
  {
    hide Enabled, Apply, Snapshots;
    if run != [] {
      StepGrows(c, s, run[0], id);
      OvertakenStay(c, s, run[0]);
      RunGrows(c, Apply(c, s, run[0]), run[1..], id);
    }
  }

  /** Once pending is the first thing on file, the order is kept whatever happens. */
  lemma {:induction false} PendingFirstStays(c: Config, s: State, more: seq<Action>, id: JobId)
    requires Inv(c, s) && JournalInv(s) && OvertakenOk(s, id) && (s.phase.Sweeping? || s.phase.Stopped?) && id in s.overtaken
    requires [Pending] <= Snapshots(s.journal, id)
    ensures !GoesOutOfOrder(c, s, more, id)
  {
    hide Inv, JournalInv, Execute, Snapshots;
    if Execute(c, s, more).Reached? {
      RunGrows(c, s, more, id);
      RunKeepsOvertaken(c, s, more, id);
      var end := Execute(c, s, more).s;
      if !end.recorderFailed {
        var j := Snapshots(end.journal, id);
        assert j[0] == Pending;
        SevenJournals(end, id, j);
      }
    }
  }

  lemma {:induction false} SevenJournals(s: State, id: JobId, j: seq<JobState>)
    requires id in s.places && OvertakenJournal(s, id, j)
    ensures j in {[], [Pending], [Canceled], [Pending, Canceled], [Canceled, Pending],
                  [Pending, Canceled, Canceled], [Canceled, Pending, Canceled]}
    ensures j == [] || j == [Canceled] || [Pending] <= j || [Canceled, Pending] <= j
    ensures [Pending] <= j ==> !OutOfOrder(j)
    ensures j == [] || j == [Canceled] ==>
              s.places[id].AtSubmitter? && s.places[id].t in s.submitters && s.submitters[s.places[id].t] == Registered(id)
              && (ToRecord(s, id) <==> j == [])
  {
  }

  /** The sweep records the job first, the submitter afterwards. */
  lemma {:induction false} RecordedTooLate(c: Config, s: State, t: nat, id: JobId) returns (more: seq<Action>)
    requires s.phase.Sweeping? && !s.recorderFailed && Distinct(s.phase.todo) && id in s.phase.todo
    requires t in s.submitters && s.submitters[t] == Registered(id)
    requires Snapshots(s.journal, id) == []
    ensures Execute(c, s, more).Reached?
    ensures var end := Execute(c, s, more).s; !end.recorderFailed && Snapshots(end.journal, id) == [Canceled, Pending]
    decreases |s.phase.todo|
  {
    hide Snapshots;
    var x := s.phase.todo[0];
    var n := Apply(c, s, RecordCanceled(Written));
    SnapshotsSnoc(s.journal, x, Canceled, id);
    Spelled();
    TodoTail(s.phase.todo);
    var rest: seq<Action>;
    if x == id {
      rest := SubmitterRecords(c, n, t, id);
    } else {
      rest := RecordedTooLate(c, n, t, id);
    }
    more := [RecordCanceled(Written)] + rest;
    assert more[1..] == rest;
  }

  lemma {:induction false} SubmitterRecords(c: Config, s: State, t: nat, id: JobId) returns (more: seq<Action>)
    requires !s.recorderFailed && t in s.submitters && s.submitters[t] == Registered(id)
    requires Snapshots(s.journal, id) == [Canceled]
    ensures Execute(c, s, more).Reached?
    ensures var end := Execute(c, s, more).s; !end.recorderFailed && Snapshots(end.journal, id) == [Canceled, Pending]
  {
    hide Snapshots;
    SnapshotsSnoc(s.journal, id, Pending, id);
    Spelled();
    more := [RecordSubmission(t, Written)];
    assert more[1..] == [];
  }

  lemma {:induction false} NotPendingFirst(c: Config, s: State, id: JobId) returns (more: seq<Action>)
    requires JournalInv(s) && OvertakenOk(s, id) && id in s.overtaken && !s.recorderFailed
    requires !([Pending] <= Snapshots(s.journal, id))
    ensures GoesOutOfOrder(c, s, more, id)
  {
    hide JournalOk, TodoOk, InFlightOk, Execute, Snapshots, OvertakenJournal;
    var j := Snapshots(s.journal, id);
    SevenJournals(s, id, j);
    if j == [] {
      more := RecordedTooLate(c, s, s.places[id].t, id);
    } else if j == [Canceled] {
      more := SubmitterRecords(c, s, s.places[id].t, id);
    } else {
      more := [];
      assert Execute(c, s, more) == Reached(s) by { Nothing(c, s); }
    }
    CanceledThenPending(Snapshots(Execute(c, s, more).s.journal, id));
  }

  lemma {:induction false} CanceledThenPending(j: seq<JobState>)
    requires [Canceled, Pending] <= j
    ensures OutOfOrder(j)
  {
    assert j[0] == Canceled && j[1] == Pending;
  }

  lemma {:induction false} Nothing(c: Config, s: State)
    ensures Execute(c, s, []) == Reached(s)
  {
  }

  /**
   From any moment after the sweep, for a submission it overtook: the job can still end up journalled
   pending after canceled if and only if pending is not the first thing journalled about it by now.
   */
  lemma {:induction false} PendingFollowsCanceledExactly(c: Config, run: seq<Action>, id: JobId)
    requires Execute(c, Initial(c), run).Reached?
    requires var s := Execute(c, Initial(c), run).s; !s.recorderFailed && id in s.overtaken
    ensures var s := Execute(c, Initial(c), run).s;
            (exists more :: GoesOutOfOrder(c, s, more, id)) <==> !([Pending] <= Snapshots(s.journal, id))
  {
    InitialOk(c);
    InitialKept(c);
    var s := Execute(c, Initial(c), run).s;
    RunKeeps(c, Initial(c), run);
    RunKept(c, Initial(c), run);
    RunKeepsOvertaken(c, Initial(c), run, id);
    hide Execute, Initial, Snapshots, Inv, JournalInv, GoesOutOfOrder;
    if [Pending] <= Snapshots(s.journal, id) {
      forall more ensures !GoesOutOfOrder(c, s, more, id) {
        PendingFirstStays(c, s, more, id);
      }
    } else {
      var more := NotPendingFirst(c, s, id);
    }
  }

  /** At the sweep itself: it can for the submissions that are registered and not yet journalled, and for no others. */
  lemma {:induction false} SweptTooEarlyExactly(c: Config, run: seq<Action>, order: seq<JobId>, t: nat)
    requires Execute(c, Initial(c), run).Reached?
    requires var s := Execute(c, Initial(c), run).s;
             !s.recorderFailed && Enabled(c, s, Sweep(order)) && t in s.submitters
    ensures var s := Execute(c, Initial(c), run).s;
            (exists more :: GoesOutOfOrder(c, Apply(c, s, Sweep(order)), more, s.submitters[t].id))
            <==> s.submitters[t].Registered?
  {
    InitialOk(c);
    InitialKept(c);
    var s := Execute(c, Initial(c), run).s;
    var id := s.submitters[t].id;
    RunKeeps(c, Initial(c), run);
    RunKept(c, Initial(c), run);
    RunAppends(c, Initial(c), run, Sweep(order));
    FiledAtSweep(c, s, order, t);
    hide Execute, Initial, Snapshots, Inv, JournalInv, GoesOutOfOrder, Enabled, Apply;
    PendingFollowsCanceledExactly(c, run + [Sweep(order)], id);
  }

  lemma {:induction false} RunAppends(c: Config, s: State, run: seq<Action>, a: Action)
    requires Execute(c, s, run).Reached? && Enabled(c, Execute(c, s, run).s, a)
    ensures Execute(c, s, run + [a]) == Reached(Apply(c, Execute(c, s, run).s, a))
    decreases |run|
  {
    hide Enabled, Apply;
    if run == [] {
      assert [a][1..] == [];
    } else {
      assert (run + [a])[1..] == run[1..] + [a];
      RunAppends(c, Apply(c, s, run[0]), run[1..], a);
    }
  }

  lemma {:induction false} FiledAtSweep(c: Config, s: State, order: seq<JobId>, t: nat)
    requires Inv(c, s) && JournalInv(s) && Enabled(c, s, Sweep(order)) && t in s.submitters && !s.recorderFailed
    ensures var n := Apply(c, s, Sweep(order));
            && !n.recorderFailed && s.submitters[t].id in n.overtaken && n.journal == s.journal
    ensures [Pending] <= Snapshots(s.journal, s.submitters[t].id) <==> !s.submitters[t].Registered?
  {
    assert SubmitterOk(s, t) && JournalOk(s, s.submitters[t].id);
    hide Inv, JournalInv, Snapshots;
  }
}
