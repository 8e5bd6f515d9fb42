/** A listing order that meets what replay asks of `sort.Slice`. */
module JobExample {
  import opened Common
  import opened JobManager
  import opened JobJournal
  import opened Sorting

  function TimeOf(r: Read): int {
    if r.Snapshot? then r.submittedAt else 0
  }

  function Newer(): Less<Read> {
    (a, b) => TimeOf(a) > TimeOf(b)
  }

  function NewestFirstSort(): seq<Read> -> seq<Read> {
    jobs => InsertionSort(Newer(), jobs)
  }

  /** What replay assumes of the sort can be had. */
  lemma {:induction false} SampleSorts()
    ensures JobJournal.Sorts(NewestFirstSort())
  {
    hide InsertionSort;
    forall jobs ensures multiset(NewestFirstSort()(jobs)) == multiset(jobs) && NewestFirst(NewestFirstSort()(jobs)) {
      InsertionSorts(Newer(), jobs);
    }
  }
}
