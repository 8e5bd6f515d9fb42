/**
 The job journal (internal/scanhistory/store.go): replay to the last snapshot per job, and the
 recovery that closes interrupted jobs after a restart.
 */
module JobJournal {
  import opened Common
  import opened JobManager

  type Line = (JobId, JobState)

  /** The snapshots of one job, oldest first. */
  function Snapshots(journal: seq<Line>, id: JobId): seq<JobState> {
    if journal == [] then []
    else Snapshots(journal[..|journal| - 1], id) +
         if journal[|journal| - 1].0 == id then [journal[|journal| - 1].1] else []
  }

  lemma {:induction false} SnapshotsSnoc(journal: seq<Line>, x: JobId, st: JobState, id: JobId)
    ensures Snapshots(journal + [(x, st)], id) == Snapshots(journal, id) + if x == id then [st] else []
  {
    assert (journal + [(x, st)])[..|journal|] == journal;
  }

  /** What replay keeps: the last snapshot of every job that has one. */
  ghost predicate IsLatest(journal: seq<Line>, latest: map<JobId, JobState>) {
    forall id :: (id in latest <==> Snapshots(journal, id) != []) &&
                 (id in latest ==> latest[id] == Snapshots(journal, id)[|Snapshots(journal, id)| - 1])
  }

  /** What a line of the file reads as: nothing, no job, or a snapshot with its submission time. */
  datatype Read = Blank | Malformed | Snapshot(id: JobId, state: JobState, submittedAt: int)

  /** The snapshots among the lines read. */
  function LinesRead(raw: seq<Read>): seq<Line> {
    if raw == [] then []
    else
      var last := raw[|raw| - 1];
      LinesRead(raw[..|raw| - 1]) + if last.Snapshot? then [(last.id, last.state)] else []
  }

  lemma {:induction false} LinesReadSnoc(raw: seq<Read>, r: Read)
    ensures LinesRead(raw + [r]) == LinesRead(raw) + if r.Snapshot? then [(r.id, r.state)] else []
  {
    assert (raw + [r])[..|raw|] == raw;
  }

  lemma {:induction false} LatestSnoc(journal: seq<Line>, latest: map<JobId, JobState>, id: JobId, st: JobState)
    requires IsLatest(journal, latest)
    ensures IsLatest(journal + [(id, st)], latest[id := st])
  {
    hide Snapshots;
    forall x ensures Snapshots(journal + [(id, st)], x) == Snapshots(journal, x) + if id == x then [st] else [] {
      SnapshotsSnoc(journal, id, st, x);
    }
  }

  /** The last snapshot of each job, as read. */
  ghost predicate Kept(raw: seq<Read>, latest: map<JobId, Read>) {
    && (forall id :: id in latest ==> latest[id].Snapshot? && latest[id].id == id && latest[id] in raw)
    && IsLatest(LinesRead(raw), map id | id in latest :: latest[id].state)
  }

  /** Newest submission first; `sort.Slice` may order equal times in any way. */
  ghost predicate NewestFirst(jobs: seq<Read>) {
    forall i, j :: 0 <= i < j < |jobs| && jobs[i].Snapshot? && jobs[j].Snapshot? ==> jobs[i].submittedAt >= jobs[j].submittedAt
  }

  ghost predicate Sorts(sort: seq<Read> -> seq<Read>) {
    forall jobs :: multiset(sort(jobs)) == multiset(jobs) && NewestFirst(sort(jobs))
  }

  /** Each job once, by its last snapshot. */
  ghost predicate ListsSnapshots(jobs: seq<Read>, latest: map<JobId, Read>) {
    && |jobs| == |latest|
    && (forall r :: r in jobs ==> r.Snapshot? && r.id in latest && latest[r.id] == r)
    && (forall id :: id in latest ==> latest[id] in jobs)
  }

  /** The reading loop of `LoadLatest`: any malformed line fails the whole replay. */
  method ReadLatest(raw: seq<Read>) returns (latest: map<JobId, Read>, ok: bool)
    ensures ok <==> Malformed !in raw
    ensures ok ==> Kept(raw, latest)
  {
    hide IsLatest, LinesRead;
    latest := map[];
    var i := 0;
    NothingRead();
    assert raw[..0] == [];
    while i < |raw|
      invariant 0 <= i <= |raw|
      invariant Malformed !in raw[..i]
      invariant Kept(raw[..i], latest)
    {
      var r := raw[i];
      assert raw[..i + 1] == raw[..i] + [r];
      LinesReadSnoc(raw[..i], r);
      if r.Malformed? {
        ok := false;
        return;
      }
      if r.Snapshot? {
        KeptSnoc(raw[..i], latest, r);
        latest := latest[r.id := r];
      } else {
        assert LinesRead(raw[..i + 1]) == LinesRead(raw[..i]);
      }
      i := i + 1;
    }
    assert raw[..|raw|] == raw;
    ok := true;
  }

  lemma {:induction false} NothingRead()
    ensures Kept([], map[])
  {
  }

  lemma {:induction false} KeptSnoc(raw: seq<Read>, latest: map<JobId, Read>, r: Read)
    requires Kept(raw, latest) && r.Snapshot?
    ensures Kept(raw + [r], latest[r.id := r])
  {
    hide IsLatest, LinesRead;
    LinesReadSnoc(raw, r);
    var states := map id | id in latest :: latest[id].state;
    LatestSnoc(LinesRead(raw), states, r.id, r.state);
    var next := latest[r.id := r];
    assert (map id | id in next :: next[id].state) == states[r.id := r.state];
  }

  /** Line k of what was read is the last snapshot of its job. */
  predicate LastSnapshot(raw: seq<Read>, k: nat)
    requires k < |raw|
  {
    raw[k].Snapshot? && forall j :: k < j < |raw| && raw[j].Snapshot? ==> raw[j].id != raw[k].id
  }

  lemma {:induction false} LinesWithout(raw: seq<Read>, id: JobId)
    requires forall j :: 0 <= j < |raw| && raw[j].Snapshot? ==> raw[j].id != id
    ensures Snapshots(LinesRead(raw), id) == []
  {
    hide Snapshots;
    if raw != [] {
      var front, last := raw[..|raw| - 1], raw[|raw| - 1];
      LinesWithout(front, id);
      assert LinesRead(front) + [] == LinesRead(front);
      if last.Snapshot? { SnapshotsSnoc(LinesRead(front), last.id, last.state, id); }
    } else {
      NoSnapshots(id);
    }
  }

  lemma {:induction false} NoSnapshots(id: JobId)
    ensures Snapshots([], id) == []
  {
  }

  lemma {:induction false} LinesUpTo(raw: seq<Read>, k: nat)
    requires k < |raw| && LastSnapshot(raw, k)
    ensures var list := Snapshots(LinesRead(raw), raw[k].id); list != [] && list[|list| - 1] == raw[k].state
  {
    hide Snapshots;
    var front, last := raw[..|raw| - 1], raw[|raw| - 1];
    assert LinesRead(front) + [] == LinesRead(front);
    if last.Snapshot? { SnapshotsSnoc(LinesRead(front), last.id, last.state, raw[k].id); }
    if k < |raw| - 1 {
      LinesUpTo(front, k);
    }
  }

  lemma {:induction false} LastLine(raw: seq<Read>, id: JobId) returns (k: nat)
    requires exists j :: 0 <= j < |raw| && raw[j].Snapshot? && raw[j].id == id
    ensures k < |raw| && LastSnapshot(raw, k) && raw[k].id == id
  {
    var last := |raw| - 1;
    if raw[last].Snapshot? && raw[last].id == id {
      k := last;
    } else {
      var j :| 0 <= j < |raw| && raw[j].Snapshot? && raw[j].id == id;
      assert raw[..last][j] == raw[j];
      k := LastLine(raw[..last], id);
    }
  }

  /** Replay keeps a job exactly if some line is a snapshot of it, and then with the state of the last such line. */
  lemma {:induction false} KeptIsLast(raw: seq<Read>, latest: map<JobId, Read>, id: JobId)
    requires Kept(raw, latest)
    ensures id in latest <==> exists j :: 0 <= j < |raw| && raw[j].Snapshot? && raw[j].id == id
    ensures forall k :: 0 <= k < |raw| && LastSnapshot(raw, k) && raw[k].id == id ==>
              id in latest && latest[id].Snapshot? && latest[id].state == raw[k].state && latest[id] in raw
  {
    hide Snapshots, LinesRead;
    if !exists j :: 0 <= j < |raw| && raw[j].Snapshot? && raw[j].id == id {
      LinesWithout(raw, id);
    } else {
      var k := LastLine(raw, id);
      LinesUpTo(raw, k);
    }
    forall k | 0 <= k < |raw| && LastSnapshot(raw, k) && raw[k].id == id
      ensures id in latest && latest[id].state == raw[k].state
    {
      LinesUpTo(raw, k);
    }
  }

  /** `LoadLatest`: the last snapshot of every job, newest submission first, or an error. */
  method LoadLatest(raw: seq<Read>, sort: seq<Read> -> seq<Read>) returns (jobs: seq<Read>, ok: bool, ghost latest: map<JobId, Read>)
    requires Sorts(sort)
    ensures ok <==> Malformed !in raw
    ensures ok ==> Kept(raw, latest) && ListsSnapshots(jobs, latest) && NewestFirst(jobs)
  {
    hide Kept;
    var kept;
    kept, ok := ReadLatest(raw);
    latest := kept;
    if !ok {
      return [], false, latest;
    }
    var unsorted := Collect(raw, kept);
    jobs := sort(unsorted);
    assert multiset(jobs) == multiset(unsorted) && NewestFirst(jobs);
    SameListing(jobs, unsorted, kept);
  }

  /** The map's values, in whatever order. */
  method Collect(ghost raw: seq<Read>, latest: map<JobId, Read>) returns (jobs: seq<Read>)
    requires Kept(raw, latest)
    ensures ListsSnapshots(jobs, latest)
  {
    hide IsLatest;
    jobs := [];
    var todo := latest.Keys;
    while todo != {}
      invariant todo <= latest.Keys && |jobs| + |todo| == |latest|
      invariant forall r :: r in jobs ==> r.Snapshot? && r.id in latest && latest[r.id] == r
      invariant forall id :: id in latest ==> id in todo || latest[id] in jobs
      decreases |todo|
    {
      var id :| id in todo;
      todo := todo - {id};
      jobs := jobs + [latest[id]];
    }
  }

  lemma {:induction false} SameListing(jobs: seq<Read>, unsorted: seq<Read>, latest: map<JobId, Read>)
    requires ListsSnapshots(unsorted, latest) && multiset(jobs) == multiset(unsorted)
    ensures ListsSnapshots(jobs, latest)
  {
    assert |multiset(jobs)| == |multiset(unsorted)|;
    forall r ensures r in jobs <==> r in unsorted {
      assert r in multiset(jobs) <==> r in multiset(unsorted);
    }
  }

  predicate Interrupted(st: JobState) {
    st == Pending || st == Running
  }

  /** The lines recovery appends, for the order in which replay happened to list the jobs. */
  function Closing(latest: map<JobId, JobState>, order: seq<JobId>): seq<Line> {
    if order == [] then []
    else
      (if order[0] in latest && Interrupted(latest[order[0]]) then [(order[0], Canceled)] else [])
      + Closing(latest, order[1..])
  }

  /** The listing of replay: every job once, in some order. */
  ghost predicate Lists(order: seq<JobId>, latest: map<JobId, JobState>) {
    Distinct(order) && forall id :: id in order <==> id in latest
  }

  lemma {:induction false} NoneToClose(latest: map<JobId, JobState>)
    ensures Closing(latest, []) == []
  {
  }

  lemma {:induction false} ClosingSnoc(latest: map<JobId, JobState>, order: seq<JobId>, id: JobId)
    ensures Closing(latest, order + [id])
         == Closing(latest, order) + if id in latest && Interrupted(latest[id]) then [(id, Canceled)] else []
    decreases |order|
  {
    hide Interrupted;
    if order == [] {
      assert [id][1..] == [];
    } else {
      assert (order + [id])[1..] == order[1..] + [id];
      ClosingSnoc(latest, order[1..], id);
    }
  }

  class Store {
    var journal: seq<Line>

    constructor (lines: seq<Line>)
      ensures journal == lines
    {
      journal := lines;
    }

    method Record(id: JobId, st: JobState)
      modifies this
      ensures journal == old(journal) + [(id, st)]
    {
      journal := journal + [(id, st)];
    }

    /**
     `RecoverInterrupted`; `order` is the order of the replayed list.  The append for the job at `fault`
     fails, and may or may not have reached the file.
     */
    method RecoverInterrupted(order: seq<JobId>, latest: map<JobId, JobState>, fault: nat, reached: bool)
      returns (ok: bool, ghost done: nat)
      requires IsLatest(journal, latest) && Lists(order, latest)
      modifies this
      ensures done <= |order| && journal == old(journal) + Closing(latest, order[..done])
      ensures ok <==> fault >= |order| || !Interrupted(latest[order[fault]])
      ensures if ok then done == |order| else done == fault + if reached then 1 else 0
    {
      hide Snapshots, Interrupted, Closing;
      var i := 0;
      assert order[..0] == [] && Closing(latest, []) == [] by { NoneToClose(latest); }
      while i < |order|
        invariant 0 <= i <= |order|
        invariant journal == old(journal) + Closing(latest, order[..i])
        invariant fault < i ==> !Interrupted(latest[order[fault]])
      {
        var id := order[i];
        assert id in order;
        assert order[..i + 1] == order[..i] + [id];
        ClosingSnoc(latest, order[..i], id);
        if Interrupted(latest[id]) {
          if i != fault || reached {
            Record(id, Canceled);
          }
          if i == fault {
            done := if reached then i + 1 else i;
            return false, done;
          }
        }
        i := i + 1;
      }
      assert order[..|order|] == order;
      done := |order|;
      ok := true;
    }
  }

  // ------------------------------------------------ recovery

  lemma {:induction false} SnapshotsConcat(a: seq<Line>, b: seq<Line>, id: JobId)
    ensures Snapshots(a + b, id) == Snapshots(a, id) + Snapshots(b, id)
    decreases |b|
  {
    if b == [] {
      assert a + b == a;
    } else {
      assert (a + b)[..|a + b| - 1] == a + b[..|b| - 1];
      SnapshotsConcat(a, b[..|b| - 1], id);
    }
  }

  lemma {:induction false} ClosingSnapshots(latest: map<JobId, JobState>, order: seq<JobId>, id: JobId)
    requires Distinct(order)
    ensures Snapshots(Closing(latest, order), id)
         == if id in order && id in latest && Interrupted(latest[id]) then [Canceled] else []
    decreases |order|
  {
    if order != [] {
      var x := order[0];
      var head: seq<Line> := if x in latest && Interrupted(latest[x]) then [(x, Canceled)] else [];
      SnapshotsConcat(head, Closing(latest, order[1..]), id);
      ClosingSnapshots(latest, order[1..], id);
      if head != [] {
        assert head[..0] == [];
      }
    }
  }

  /** The last snapshot of a job, once recovery has appended its lines. */
  function AfterRecovery(latest: map<JobId, JobState>): map<JobId, JobState> {
    map id | id in latest :: if Interrupted(latest[id]) then Canceled else latest[id]
  }

  /** After recovery every job is terminal: closed if it was interrupted, as recorded otherwise. */
  lemma {:induction false} RecoveryClosesInterrupted(journal: seq<Line>, latest: map<JobId, JobState>,
      order: seq<JobId>)
    requires IsLatest(journal, latest) && Lists(order, latest)
    ensures IsLatest(journal + Closing(latest, order), AfterRecovery(latest))
    ensures forall id :: id in AfterRecovery(latest) ==> Terminal(AfterRecovery(latest)[id])
  {
    hide Snapshots, Closing;
    var whole := journal + Closing(latest, order);
    var closed := AfterRecovery(latest);
    forall id
      ensures id in closed <==> Snapshots(whole, id) != []
      ensures id in closed ==> closed[id] == Snapshots(whole, id)[|Snapshots(whole, id)| - 1]
    {
      RecoveredSnapshots(journal, latest, order, id);
    }
  }

  lemma {:induction false} RecoveredSnapshots(journal: seq<Line>, latest: map<JobId, JobState>, order: seq<JobId>,
      id: JobId)
    requires Lists(order, latest)
    ensures Snapshots(journal + Closing(latest, order), id)
         == Snapshots(journal, id) + if id in latest && Interrupted(latest[id]) then [Canceled] else []
  {
    hide Snapshots, Closing;
    SnapshotsConcat(journal, Closing(latest, order), id);
    ClosingSnapshots(latest, order, id);
  }

  lemma {:induction false} LatestUnique(journal: seq<Line>, a: map<JobId, JobState>, b: map<JobId, JobState>)
    requires IsLatest(journal, a) && IsLatest(journal, b)
    ensures a == b
  {
    assert a.Keys == b.Keys;
  }

  lemma {:induction false} NothingToClose(latest: map<JobId, JobState>, order: seq<JobId>)
    requires forall id :: id in latest ==> !Interrupted(latest[id])
    ensures Closing(latest, order) == []
    decreases |order|
  {
    if order != [] {
      NothingToClose(latest, order[1..]);
    }
  }

  /** Recovering twice, in whatever orders, appends nothing the second time. */
  lemma {:induction false} SecondRecoveryIsIdle(journal: seq<Line>, latest: map<JobId, JobState>, order: seq<JobId>,
                             again: map<JobId, JobState>, order2: seq<JobId>)
    requires IsLatest(journal, latest) && Lists(order, latest)
    requires IsLatest(journal + Closing(latest, order), again)
    ensures Closing(again, order2) == []
  {
    RecoveryClosesInterrupted(journal, latest, order);
    LatestUnique(journal + Closing(latest, order), again, AfterRecovery(latest));
    NothingToClose(again, order2);
  }

  lemma {:induction false} ClosedSoFar(journal: seq<Line>, latest: map<JobId, JobState>, order: seq<JobId>, k: nat, id: JobId)
    requires Lists(order, latest) && k <= |order|
    ensures Snapshots(journal + Closing(latest, order[..k]), id)
         == Snapshots(journal, id) + if id in order[..k] && id in latest && Interrupted(latest[id]) then [Canceled] else []
  {
    hide Snapshots, Closing;
    SnapshotsConcat(journal, Closing(latest, order[..k]), id);
    ClosingSnapshots(latest, order[..k], id);
  }

  /** A recovery that stopped halfway is completed by the next one, with the same outcome. */
  lemma {:induction false} RecoveryResumes(journal: seq<Line>, latest: map<JobId, JobState>, order: seq<JobId>, k: nat,
      mid: map<JobId, JobState>, order2: seq<JobId>)
    requires IsLatest(journal, latest) && Lists(order, latest) && k <= |order|
    requires IsLatest(journal + Closing(latest, order[..k]), mid) && Lists(order2, mid)
    ensures IsLatest(journal + Closing(latest, order[..k]) + Closing(mid, order2), AfterRecovery(latest))
  {
    hide Closing, Snapshots;
    forall id
      ensures id in mid <==> id in latest
      ensures id in mid ==> mid[id] == latest[id] || (Interrupted(latest[id]) && mid[id] == Canceled)
    {
      ClosedSoFar(journal, latest, order, k, id);
    }
    assert AfterRecovery(mid) == AfterRecovery(latest);
    RecoveryClosesInterrupted(journal + Closing(latest, order[..k]), mid, order2);
  }
}
