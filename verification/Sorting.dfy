/** Insertion sort over any order in which being equal or incomparable is transitive. */
module Sorting {
  type Less<!T> = (T, T) -> bool

  function Insert<T>(less: Less<T>, x: T, s: seq<T>): seq<T> {
    if s == [] then [x]
    else if less(s[0], x) then [s[0]] + Insert(less, x, s[1..])
    else [x] + s
  }

  function InsertionSort<T>(less: Less<T>, s: seq<T>): seq<T> {
    if s == [] then [] else Insert(less, s[0], InsertionSort(less, s[1..]))
  }

  /** What `sort.Slice` asks of its comparison. */
  ghost predicate WeakOrder<T(!new)>(less: Less<T>) {
    && (forall a, b :: less(a, b) ==> !less(b, a))
    && (forall a, b, c :: !less(b, a) && !less(c, b) ==> !less(c, a))
  }

  ghost predicate Sorted<T>(less: Less<T>, s: seq<T>) {
    forall i, j :: 0 <= i < j < |s| ==> !less(s[j], s[i])
  }

  lemma {:induction false} InsertKeeps<T>(less: Less<T>, x: T, s: seq<T>)
    ensures multiset(Insert(less, x, s)) == multiset{x} + multiset(s)
  {
    if s != [] {
      InsertKeeps(less, x, s[1..]);
      assert s == [s[0]] + s[1..];
    }
  }

  lemma {:induction false} InsertSorts<T(!new)>(less: Less<T>, x: T, s: seq<T>)
    requires WeakOrder(less) && Sorted(less, s)
    ensures Sorted(less, Insert(less, x, s))
  {
    if s != [] && less(s[0], x) {
      var rest := Insert(less, x, s[1..]);
      InsertSorts(less, x, s[1..]);
      InsertKeeps(less, x, s[1..]);
      forall k | 0 <= k < |rest| ensures !less(rest[k], s[0]) {
        assert rest[k] in multiset(rest);
        assert rest[k] == x || rest[k] in s[1..];
      }
    } else if s != [] {
      forall k | 0 <= k < |s| ensures !less(s[k], x) {
        assert k > 0 ==> !less(s[k], s[0]);
      }
    }
  }

  lemma {:induction false} InsertionSorts<T(!new)>(less: Less<T>, s: seq<T>)
    requires WeakOrder(less)
    ensures multiset(InsertionSort(less, s)) == multiset(s) && Sorted(less, InsertionSort(less, s))
  {
    hide WeakOrder, Sorted, Insert;
    if s != [] {
      InsertionSorts(less, s[1..]);
      InsertKeeps(less, s[0], InsertionSort(less, s[1..]));
      InsertSorts(less, s[0], InsertionSort(less, s[1..]));
      assert s == [s[0]] + s[1..];
    } else {
      NothingToSort(less);
    }
  }

  lemma {:induction false} NothingToSort<T>(less: Less<T>)
    ensures Sorted(less, [])
  {
  }
}
