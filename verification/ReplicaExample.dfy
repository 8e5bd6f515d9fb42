/** A library that meets what the session lemmas assume, and a session built with it. */
module ReplicaExample {
  import opened Common
  import opened Lines
  import opened Sorting
  import opened Statements
  import opened ReplicaSession
  import ReplicaStore

  // ------------------------------------------------ a sort

  lemma {:induction false} NotLessTransitive(a: SessionObject, b: SessionObject, c: SessionObject)
    requires !ObjectLess(b, a) && !ObjectLess(c, b)
    ensures !ObjectLess(c, a)
  {
    var x, y, z := IntentOf(a), IntentOf(b), IntentOf(c);
    IntentTrichotomy(x, y);
    IntentTrichotomy(y, z);
    IntentTrichotomy(x, z);
    hide IntentLess;
    if IntentLess(z, x) {
      if IntentLess(x, y) {
        IntentTransitive(z, x, y);
      }
    }
  }

  lemma {:induction false} NotBoth(a: SessionObject, b: SessionObject)
    requires ObjectLess(a, b)
    ensures !ObjectLess(b, a)
  {
    IntentTrichotomy(IntentOf(a), IntentOf(b));
  }

  function ByIntent(): Less<SessionObject> {
    (a, b) => ObjectLess(a, b)
  }

  lemma {:induction false} ObjectsAreOrdered()
    ensures WeakOrder(ByIntent())
  {
    hide ObjectLess;
    forall a, b | ByIntent()(a, b) ensures !ByIntent()(b, a) {
      NotBoth(a, b);
    }
    forall a, b, c | !ByIntent()(b, a) && !ByIntent()(c, b) ensures !ByIntent()(c, a) {
      NotLessTransitive(a, b, c);
    }
  }

  lemma {:induction false} SortedIsOrdered(os: seq<SessionObject>)
    requires Sorted(ByIntent(), os)
    ensures Ordered(Intents(os))
  {
    hide IntentLess;
  }

  // ------------------------------------------------ a text for intents

  function IntentLines(list: seq<Intent>): seq<string> {
    if list == [] then []
    else
      var x := list[0];
      [x.kind, x.sha, Decimal(if x.size < 0 then 0 else x.size), x.replicaName] + IntentLines(list[1..])
  }

  lemma {:induction false} NameIsPlain(sha: string)
    requires IsSha256(sha)
    ensures LF !in ReplicaStore.ObjectName(sha) && LF !in sha
  {
    HexHasNoLF(sha);
    assert LF !in ReplicaStore.OBJECTS;
    assert forall c :: c in sha[..2] ==> c in sha;
  }

  lemma {:induction false} KindIsPlain(kind: string)
    requires kind in REPLICA_KINDS
    ensures LF !in kind
  {
  }

  lemma {:induction false} LinesArePlain(list: seq<Intent>)
    requires FirstIntentFault(list) == None
    ensures forall l :: l in IntentLines(list) ==> LF !in l
  {
    hide Decimal;
    if list != [] {
      LinesArePlain(list[1..]);
      NameIsPlain(list[0].sha);
      KindIsPlain(list[0].kind);
      DecimalHasNoLF(if list[0].size < 0 then 0 else list[0].size);
    }
  }

  lemma {:induction false} LinesDetermine(x: seq<Intent>, y: seq<Intent>)
    requires FirstIntentFault(x) == None && FirstIntentFault(y) == None && IntentLines(x) == IntentLines(y)
    ensures x == y
  {
    hide Decimal, IsSha256;
    if x != [] && y != [] {
      var a, b := IntentLines(x), IntentLines(y);
      assert a[0] == b[0] && a[1] == b[1] && a[2] == b[2] && a[3] == b[3];
      DecimalInjective(x[0].size, y[0].size);
      assert a[4..] == IntentLines(x[1..]) && b[4..] == IntentLines(y[1..]);
      LinesDetermine(x[1..], y[1..]);
      assert x == [x[0]] + x[1..] && y == [y[0]] + y[1..];
    }
  }

  // ------------------------------------------------ the library

  const DIGEST := "00000000000000000000000000000000" + "00000000000000000000000000000000"

  function Sample(): Library {
    Library(_ => DIGEST, list => Terminate(IntentLines(list)), _ => "now", t => t == "now", os => InsertionSort(ByIntent(), os))
  }

  /** What the session lemmas assume of a library can be had. */
  lemma {:induction false} SampleSorts()
    ensures Sorts(Sample().sort) && Injective(Sample().encode)
  {
    hide InsertionSort, IntentLines, Terminate, FirstIntentFault, WeakOrder, Sorted, ByIntent;
    ObjectsAreOrdered();
    forall os ensures multiset(Sample().sort(os)) == multiset(os) && Ordered(Intents(Sample().sort(os))) {
      InsertionSorts(ByIntent(), os);
      SortedIsOrdered(InsertionSort(ByIntent(), os));
    }
    forall x, y | FirstIntentFault(x) == None && FirstIntentFault(y) == None && Sample().encode(x) == Sample().encode(y)
      ensures x == y
    {
      LinesArePlain(x);
      LinesArePlain(y);
      TerminateInjective(IntentLines(x), IntentLines(y));
      LinesDetermine(x, y);
    }
  }

  function SampleObject(): SessionObject
    requires IsSha256(DIGEST)
  {
    SessionObject("evidence-bundle", DIGEST, 1, ReplicaStore.ObjectName(DIGEST), "replicated", "")
  }

  /** And a session is built with it. */
  lemma {:induction false} SampleIsBuilt()
    ensures IsSha256(DIGEST) && BuildSpec(Sample(), [SampleObject()], 0, "").Ok?
  {
    forall i | 0 <= i < 64 ensures DIGEST[i] == '0' {
    }
    hide BuildSpec, Sorts, IsSha256;
    SampleSorts();
    var o := SampleObject();
    assert ObjectFault(o) == None;
    BuildSucceedsExactly(Sample(), [o], 0, "");
  }
}
