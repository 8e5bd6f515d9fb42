/**
 Replica sessions in the words of their format: which objects are valid, in what order they are listed, and what building
 a session answers in every case, the first fault included.
 */
module SessionMeaning {
  import opened Common
  import opened Statements
  import opened StatementTexts
  import opened ReplicaSession
  import ReplicaStore

  // ------------------------------------------------ objects

  predicate KnownReplica(kind: string) {
    || kind == "evidence-bundle" || kind == "evidence-signature" || kind == "evidence-ledger" || kind == "ledger-checkpoint"
    || kind == "checkpoint-trust-store" || kind == "checkpoint-trust-update"
  }

  function NameFor(sha: string): string {
    "aaa-replica-v1/objects/sha256/" + (if |sha| >= 2 then sha[..2] else sha) + "/" + sha
  }

  predicate GoodIntent(x: Intent) {
    KnownReplica(x.kind) && Digest(x.sha) && x.size >= 0 && x.replicaName == NameFor(x.sha)
  }

  /** The first thing that is wrong with an intent. */
  predicate IntentWrong(x: Intent, f: Fault) {
    match f
    case BadKind => !KnownReplica(x.kind)
    case BadSha => KnownReplica(x.kind) && !Digest(x.sha)
    case NegativeSize => KnownReplica(x.kind) && Digest(x.sha) && x.size < 0
    case BadName => KnownReplica(x.kind) && Digest(x.sha) && x.size >= 0 && x.replicaName != NameFor(x.sha)
    case _ => false
  }

  lemma {:induction false} IntentByTheWords(x: Intent)
    ensures IntentFault(x) == None <==> GoodIntent(x)
    ensures forall f :: IntentFault(x) == Some(f) <==> IntentWrong(x, f)
  {
    hide IsSha256, Digest;
    Sha256IsDigest(x.sha);
    assert x.kind in REPLICA_KINDS <==> KnownReplica(x.kind);
    if IsSha256(x.sha) {
      ObjectNameByTheWords(x.sha);
    }
  }

  lemma {:induction false} ObjectNameByTheWords(sha: string)
    requires IsSha256(sha)
    ensures ReplicaStore.ObjectName(sha) == NameFor(sha)
  {
  }

  predicate Controlled(s: string) {
    exists c :: c in s && (c == '\r' || c == '\n' || c == '\0')
  }

  predicate Portable(s: string) {
    forall c :: c in s ==> c != '\r' && c != '\n' && c != '\0' && c != '/' && c != '\\'
  }

  predicate GoodResult(o: SessionObject) {
    || ((o.result == "replicated" || o.result == "already-present") && o.error == "")
    || (o.result == "failed" && o.error != "" && Portable(o.error))
  }

  predicate ResultWrong(o: SessionObject, f: Fault) {
    match f
    case ErrorOnSuccess => (o.result == "replicated" || o.result == "already-present") && o.error != ""
    case ErrorMissing => o.result == "failed" && o.error == ""
    case ErrorNotPortable => o.result == "failed" && o.error != "" && !Portable(o.error)
    case BadResult => o.result != "replicated" && o.result != "already-present" && o.result != "failed"
    case _ => false
  }

  lemma {:induction false} ObjectByTheWords(o: SessionObject)
    ensures ObjectFault(o) == None <==> GoodIntent(IntentOf(o)) && GoodResult(o)
    ensures forall f :: GoodIntent(IntentOf(o)) ==> (ObjectFault(o) == Some(f) <==> ResultWrong(o, f))
  {
    hide IntentFault, GoodIntent;
    IntentByTheWords(IntentOf(o));
  }

  // ------------------------------------------------ the order

  /** Byte by byte: at the first difference the smaller byte, or the end, comes first. */
  predicate Lexicographic(a: string, b: string) {
    exists k :: 0 <= k < |b| && k <= |a| && a[..k] == b[..k] && (k == |a| || a[k] < b[k])
  }

  lemma {:induction false} FirstDifference(a: string, b: string) returns (k: nat)
    requires TextLess(a, b)
    ensures k < |b| && k <= |a| && a[..k] == b[..k] && (k == |a| || a[k] < b[k])
  {
    if a != "" && a[0] == b[0] {
      var rest := FirstDifference(a[1..], b[1..]);
      k := rest + 1;
      assert a[..k] == [a[0]] + a[1..][..rest] && b[..k] == [b[0]] + b[1..][..rest];
    } else {
      k := 0;
    }
  }

  lemma {:induction false} DifferenceDecides(a: string, b: string, k: nat)
    requires k < |b| && k <= |a| && a[..k] == b[..k] && (k == |a| || a[k] < b[k])
    ensures TextLess(a, b)
    decreases k
  {
    if k > 0 {
      assert a[0] == a[..k][0] && b[0] == b[..k][0];
      assert a[1..][..k - 1] == a[..k][1..] && b[1..][..k - 1] == b[..k][1..];
      DifferenceDecides(a[1..], b[1..], k - 1);
    }
  }

  lemma {:induction false} TextByTheWords(a: string, b: string)
    ensures TextLess(a, b) <==> Lexicographic(a, b)
  {
    hide TextLess;
    if TextLess(a, b) {
      var k := FirstDifference(a, b);
    }
    if k :| 0 <= k < |b| && k <= |a| && a[..k] == b[..k] && (k == |a| || a[k] < b[k]) {
      DifferenceDecides(a, b, k);
    }
  }

  /** Objects are listed by kind, then digest, then size, then name. */
  lemma {:induction false} OrderByTheWords(x: Intent, y: Intent)
    ensures IntentLess(x, y) <==>
            || Lexicographic(x.kind, y.kind)
            || (x.kind == y.kind && Lexicographic(x.sha, y.sha))
            || (x.kind == y.kind && x.sha == y.sha && x.size < y.size)
            || (x.kind == y.kind && x.sha == y.sha && x.size == y.size && Lexicographic(x.replicaName, y.replicaName))
  {
    hide TextLess, Lexicographic;
    TextByTheWords(x.kind, y.kind);
    TextByTheWords(x.sha, y.sha);
    TextByTheWords(x.replicaName, y.replicaName);
    TextTrichotomy(x.kind, y.kind);
    TextTrichotomy(x.sha, y.sha);
    TextTrichotomy(x.replicaName, y.replicaName);
  }

  // ------------------------------------------------ building

  ghost predicate IntentsGood(os: seq<SessionObject>, n: nat)
    requires n <= |os|
  {
    forall j :: 0 <= j < n ==> GoodIntent(IntentOf(os[j]))
  }

  ghost predicate ResultsGood(os: seq<SessionObject>, n: nat)
    requires n <= |os|
  {
    forall j :: 0 <= j < n ==> GoodResult(os[j])
  }

  ghost predicate Duplicated(os: seq<SessionObject>) {
    exists i, j :: 0 <= i < j < |os| && IntentOf(os[i]) == IntentOf(os[j])
  }

  lemma {:induction false} FirstBadIntent(os: seq<SessionObject>, i: nat, f: Fault)
    requires i < |os| && IntentsGood(os, i) && IntentWrong(IntentOf(os[i]), f)
    ensures FirstIntentFault(Intents(os)) == Some(f)
    decreases i
  {
    hide IntentFault, GoodIntent, IntentWrong;
    IntentByTheWords(IntentOf(os[0]));
    assert Intents(os)[0] == IntentOf(os[0]) && Intents(os)[1..] == Intents(os[1..]);
    if i > 0 {
      forall j | 0 <= j < i - 1 ensures GoodIntent(IntentOf(os[1..][j])) { assert os[1..][j] == os[j + 1]; }
      FirstBadIntent(os[1..], i - 1, f);
    }
  }

  lemma {:induction false} NoBadIntent(os: seq<SessionObject>)
    requires IntentsGood(os, |os|)
    ensures FirstIntentFault(Intents(os)) == None
  {
    hide IntentFault, GoodIntent;
    NoIntentFault(Intents(os));
    forall x | x in Intents(os) ensures IntentFault(x) == None {
      var i :| 0 <= i < |os| && Intents(os)[i] == x;
      IntentByTheWords(x);
    }
  }

  /** Everything that can go wrong before the session is put together. */
  lemma {:induction false} IdByTheWords(lib: Library, objects: seq<SessionObject>)
    requires Sorts(lib.sort)
    ensures var os := lib.sort(objects);
            && |os| == |objects|
            && (forall i, f :: 0 <= i < |os| && IntentsGood(os, i) && IntentWrong(IntentOf(os[i]), f) ==> SessionIdSpec(lib, objects) == Err(f))
            && (IntentsGood(os, |os|) && objects == [] ==> SessionIdSpec(lib, objects) == Err(NoObjects))
            && (IntentsGood(os, |os|) && objects != [] && Duplicated(objects) ==> SessionIdSpec(lib, objects) == Err(DuplicateIntent))
            && (IntentsGood(os, |os|) && objects != [] && !Duplicated(objects) ==>
                  SessionIdSpec(lib, objects) == Ok(lib.sha(lib.encode(Intents(os)))))
  {
    hide GoodIntent, IntentWrong, Ordered, IntentFault, AdjacentEqual, FirstIntentFault, Intents, IntentsGood;
    var os := lib.sort(objects);
    assert multiset(os) == multiset(objects);
    SameSize(os, objects);
    DuplicatesAreFound(lib, objects);
    forall i, f | 0 <= i < |os| && IntentsGood(os, i) && IntentWrong(IntentOf(os[i]), f)
      ensures SessionIdSpec(lib, objects) == Err(f)
    {
      FirstBadIntent(os, i, f);
    }
    if IntentsGood(os, |os|) {
      NoBadIntent(os);
    }
  }

  lemma {:induction false} FirstBadResult(os: seq<SessionObject>, i: nat, k: nat, f: Fault)
    requires i <= k < |os| && IntentsGood(os, |os|) && ResultsGood(os, k) && ResultWrong(os[k], f) && Ordered(Intents(os))
    ensures ObjectsFault(os, i) == Some(AtObject(k, f))
    decreases k - i
  {
    hide ObjectFault, GoodIntent, GoodResult, ResultWrong, IntentLess;
    assert GoodIntent(IntentOf(os[i]));
    ObjectByTheWords(os[i]);
    if i > 0 {
      assert !IntentLess(Intents(os)[i], Intents(os)[i - 1]);
    }
    if i < k {
      FirstBadResult(os, i + 1, k, f);
    }
  }

  lemma {:induction false} NoBadResult(os: seq<SessionObject>)
    requires IntentsGood(os, |os|) && ResultsGood(os, |os|) && Ordered(Intents(os))
    ensures ObjectsFault(os, 0) == None
  {
    hide ObjectFault, GoodIntent, GoodResult, IntentLess;
    ObjectsFaultFree(os, 0);
    forall k | 0 <= k < |os| ensures ObjectFault(os[k]) == None {
      ObjectByTheWords(os[k]);
    }
  }

  /** The intents are valid, there are some, and none is there twice. */
  ghost predicate Identified(lib: Library, objects: seq<SessionObject>) {
    var os := lib.sort(objects);
    IntentsGood(os, |os|) && objects != [] && !Duplicated(objects)
  }

  /**
   What building answers, case by case: the first bad intent in order; no objects; a duplicate; a bad time; a bad note;
   the first bad result in order; and otherwise the session, of all objects in order, under the hash of their intents.
   */
  lemma {:induction false} BuiltByTheWords(lib: Library, objects: seq<SessionObject>, created: int, note: string)
    requires Sorts(lib.sort)
    ensures var os := lib.sort(objects);
            var r := BuildSpec(lib, objects, created, note);
            && |os| == |objects|
            && (forall i, f :: 0 <= i < |os| && IntentsGood(os, i) && IntentWrong(IntentOf(os[i]), f) ==> r == Err(f))
            && (objects == [] ==> r == Err(NoObjects))
            && (IntentsGood(os, |os|) && Duplicated(objects) ==> r == Err(DuplicateIntent))
            && (Identified(lib, objects) && !lib.canonicalTime(lib.formatTime(created)) ==> r == Err(BadTime))
            && (Identified(lib, objects) && lib.canonicalTime(lib.formatTime(created)) && Controlled(note) ==> r == Err(BadNote))
            && (Identified(lib, objects) && lib.canonicalTime(lib.formatTime(created)) && !Controlled(note) ==>
                  forall k, f :: 0 <= k < |os| && ResultsGood(os, k) && ResultWrong(os[k], f) ==> r == Err(AtObject(k, f)))
            && (Identified(lib, objects) && lib.canonicalTime(lib.formatTime(created)) && !Controlled(note) && ResultsGood(os, |os|) ==>
                  r == Ok(Session("aaa-evidence-replica-session-v1", lib.formatTime(created), lib.sha(lib.encode(Intents(os))), os, note)))
  {
    hide GoodIntent, IntentWrong, Ordered, AdjacentEqual, Intents, IntentsGood, ResultsGood, ResultWrong, SessionIdSpec, ObjectsFault, Duplicated;
    var os := lib.sort(objects);
    IdByTheWords(lib, objects);
    IdOfSorted(lib, objects);
    assert multiset(os) == multiset(objects) && Ordered(Intents(os));
    assert HasControl(note) <==> Controlled(note);
    assert objects == [] ==> IntentsGood(os, |os|) by { NoIntents(os); }
    OneIsNoDuplicate(objects);
    if Identified(lib, objects) {
      IdOfSorted(lib, os);
      forall k, f | 0 <= k < |os| && ResultsGood(os, k) && ResultWrong(os[k], f) ensures ObjectsFault(os, 0) == Some(AtObject(k, f)) {
        FirstBadResult(os, 0, k, f);
      }
      if ResultsGood(os, |os|) {
        NoBadResult(os);
      }
    }
  }

  lemma {:induction false} NoIntents(os: seq<SessionObject>)
    ensures os == [] ==> IntentsGood(os, |os|)
  {
  }

  lemma {:induction false} OneIsNoDuplicate(objects: seq<SessionObject>)
    ensures Duplicated(objects) ==> objects != []
  {
  }
}
