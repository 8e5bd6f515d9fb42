/**
 Replica sessions (internal/evidencereplica/session.go): a session is identified by a hash of what it
 intended to replicate, so the same intents must give the same identity in whatever order they come.

 `sort.Slice` is not stable: it is a member of `Library` that may answer with any ordered permutation.
 */
module ReplicaSession {
  import opened Common
  import opened Statements
  import ReplicaStore

  const SESSION_SCHEMA := "aaa-evidence-replica-session-v1"
  const REPLICA_KINDS := {
    "evidence-bundle", "evidence-signature", "evidence-ledger",
    "ledger-checkpoint", "checkpoint-trust-store", "checkpoint-trust-update" }

  datatype SessionObject = SessionObject(
    kind: string, sha: string, size: int, replicaName: string, result: string, error: string)

  datatype Intent = Intent(kind: string, sha: string, size: int, replicaName: string)

  datatype Session = Session(
    schema: string, createdAt: string, id: string, objects: seq<SessionObject>, note: string)

  datatype Fault =
    | BadKind | BadSha | NegativeSize | BadName
    | ErrorOnSuccess | ErrorMissing | ErrorNotPortable | BadResult
    | NoObjects | DuplicateIntent
    | BadSchema | BadTime | BadNote | AtObject(i: nat, why: Fault) | NotOrdered(i: nat) | WrongId

  datatype Result<T> = Ok(value: T) | Err(why: Fault)

  /** SHA-256, the JSON text of an intent list, times, and the sort. */
  datatype Library = Library(
    sha: string -> string,
    encode: seq<Intent> -> string,
    formatTime: int -> string,
    canonicalTime: string -> bool,
    sort: seq<SessionObject> -> seq<SessionObject>)

  // ------------------------------------------------ the order

  /** Go's `<` on strings: bytes, lexicographically. */
  predicate TextLess(a: string, b: string) {
    if b == "" then false
    else if a == "" then true
    else if a[0] != b[0] then a[0] < b[0]
    else TextLess(a[1..], b[1..])
  }

  function IntentOf(o: SessionObject): Intent {
    Intent(o.kind, o.sha, o.size, o.replicaName)
  }

  function Intents(os: seq<SessionObject>): (list: seq<Intent>)
    ensures |list| == |os|
    ensures forall i :: 0 <= i < |os| ==> list[i] == IntentOf(os[i])
  {
    if os == [] then [] else [IntentOf(os[0])] + Intents(os[1..])
  }

  /** `sessionObjectLess`; it only looks at the intents. */
  predicate IntentLess(a: Intent, b: Intent) {
    if a.kind != b.kind then TextLess(a.kind, b.kind)
    else if a.sha != b.sha then TextLess(a.sha, b.sha)
    else if a.size != b.size then a.size < b.size
    else TextLess(a.replicaName, b.replicaName)
  }

  predicate ObjectLess(a: SessionObject, b: SessionObject) {
    IntentLess(IntentOf(a), IntentOf(b))
  }

  ghost predicate Ordered(list: seq<Intent>) {
    forall i, j :: 0 <= i < j < |list| ==> !IntentLess(list[j], list[i])
  }

  /** What `sort.Slice` promises of its answer. */
  ghost predicate Sorts(sort: seq<SessionObject> -> seq<SessionObject>) {
    forall os :: multiset(sort(os)) == multiset(os) && Ordered(Intents(sort(os)))
  }

  // ------------------------------------------------ validation

  function IntentFault(o: Intent): Option<Fault> {
    if o.kind !in REPLICA_KINDS then Some(BadKind)
    else if !IsSha256(o.sha) then Some(BadSha)
    else if o.size < 0 then Some(NegativeSize)
    else if o.replicaName != ReplicaStore.ObjectName(o.sha) then Some(BadName)
    else None
  }

  predicate HasControl(s: string) {
    '\r' in s || '\n' in s || '\0' in s
  }

  /** `validateSessionObject`. */
  function ObjectFault(o: SessionObject): Option<Fault> {
    if IntentFault(IntentOf(o)).Some? then IntentFault(IntentOf(o))
    else if o.result == "replicated" || o.result == "already-present" then
      if o.error != "" then Some(ErrorOnSuccess) else None
    else if o.result == "failed" then
      if o.error == "" then Some(ErrorMissing)
      else if HasControl(o.error) || '/' in o.error || '\\' in o.error then Some(ErrorNotPortable)
      else None
    else Some(BadResult)
  }

  function FirstIntentFault(list: seq<Intent>): Option<Fault> {
    if list == [] then None
    else if IntentFault(list[0]).Some? then IntentFault(list[0])
    else FirstIntentFault(list[1..])
  }

  ghost predicate AdjacentEqual(list: seq<Intent>) {
    exists i :: 1 <= i < |list| && list[i] == list[i - 1]
  }

  /** What `SessionID` makes of an ordered list of intents. */
  ghost function IdOfIntents(lib: Library, list: seq<Intent>): Result<string> {
    if FirstIntentFault(list).Some? then Err(FirstIntentFault(list).value)
    else if list == [] then Err(NoObjects)
    else if AdjacentEqual(list) then Err(DuplicateIntent)
    else Ok(lib.sha(lib.encode(list)))
  }

  ghost function SessionIdSpec(lib: Library, objects: seq<SessionObject>): Result<string> {
    IdOfIntents(lib, Intents(lib.sort(objects)))
  }

  /** The object loop of `Validate`, from index i on. */
  function ObjectsFault(os: seq<SessionObject>, i: nat): Option<Fault>
    requires i <= |os|
    decreases |os| - i
  {
    if i == |os| then None
    else if ObjectFault(os[i]).Some? then Some(AtObject(i, ObjectFault(os[i]).value))
    else if i > 0 && ObjectLess(os[i], os[i - 1]) then Some(NotOrdered(i))
    else ObjectsFault(os, i + 1)
  }

  /** `Session.Validate`. */
  ghost function SessionFault(lib: Library, s: Session): Option<Fault> {
    if s.schema != SESSION_SCHEMA then Some(BadSchema)
    else if !lib.canonicalTime(s.createdAt) then Some(BadTime)
    else if HasControl(s.note) then Some(BadNote)
    else if s.objects == [] then Some(NoObjects)
    else if ObjectsFault(s.objects, 0).Some? then ObjectsFault(s.objects, 0)
    else
      match SessionIdSpec(lib, s.objects)
      case Err(why) => Some(why)
      case Ok(expected) => if s.id != expected then Some(WrongId) else None
  }

  ghost function BuildSpec(lib: Library, objects: seq<SessionObject>, created: int, note: string): Result<Session> {
    var ordered := lib.sort(objects);
    match SessionIdSpec(lib, ordered)
    case Err(why) => Err(why)
    case Ok(id) =>
      var s := Session(SESSION_SCHEMA, lib.formatTime(created), id, ordered, note);
      match SessionFault(lib, s)
      case Some(why) => Err(why)
      case None => Ok(s)
  }

  // ------------------------------------------------ the code

  /** The first loop of `SessionID`: check each intent and collect it. */
  method CollectIntents(ordered: seq<SessionObject>) returns (intents: seq<Intent>, fault: Option<Fault>)
    ensures fault == FirstIntentFault(Intents(ordered))
    ensures fault == None ==> intents == Intents(ordered)
  {
    hide IntentFault, FirstIntentFault;
    intents := [];
    var i := 0;
    FaultStep(Intents(ordered), |ordered|);
    while i < |ordered|
      invariant 0 <= i <= |ordered|
      invariant intents == Intents(ordered)[..i]
      invariant FirstIntentFault(Intents(ordered)) == FirstIntentFault(Intents(ordered)[i..])
    {
      FaultStep(Intents(ordered), i);
      fault := IntentFault(IntentOf(ordered[i]));
      if fault.Some? {
        return;
      }
      intents := intents + [IntentOf(ordered[i])];
      i := i + 1;
    }
    fault := None;
  }

  lemma {:induction false} FaultStep(list: seq<Intent>, i: nat)
    requires i <= |list|
    ensures FirstIntentFault(list[i..]) ==
            if i == |list| then None
            else if IntentFault(list[i]).Some? then IntentFault(list[i])
            else FirstIntentFault(list[i + 1..])
  {
    hide IntentFault;
    if i < |list| {
      assert list[i..][0] == list[i] && list[i..][1..] == list[i + 1..];
    }
  }

  /** The second loop: compare neighbours. */
  method HasEqualNeighbours(intents: seq<Intent>) returns (found: bool)
    ensures found == AdjacentEqual(intents)
  {
    var i := 1;
    while i < |intents|
      invariant 1 <= i
      invariant forall k :: 1 <= k < i && k < |intents| ==> intents[k] != intents[k - 1]
    {
      if intents[i] == intents[i - 1] {
        return true;
      }
      i := i + 1;
    }
    return false;
  }

  method SessionID(lib: Library, objects: seq<SessionObject>) returns (id: Result<string>)
    ensures id == SessionIdSpec(lib, objects)
  {
    hide FirstIntentFault, AdjacentEqual, Intents;
    var intents, fault := CollectIntents(lib.sort(objects));
    if fault.Some? {
      return Err(fault.value);
    }
    if |intents| == 0 {
      return Err(NoObjects);
    }
    var duplicate := HasEqualNeighbours(intents);
    id := if duplicate then Err(DuplicateIntent) else Ok(lib.sha(lib.encode(intents)));
  }

  method Validate(lib: Library, s: Session) returns (fault: Option<Fault>)
    ensures fault == SessionFault(lib, s)
  {
    hide IdOfIntents, ObjectFault, ObjectLess;
    if s.schema != SESSION_SCHEMA {
      return Some(BadSchema);
    }
    if !lib.canonicalTime(s.createdAt) {
      return Some(BadTime);
    }
    if HasControl(s.note) {
      return Some(BadNote);
    }
    if |s.objects| == 0 {
      return Some(NoObjects);
    }
    var i := 0;
    while i < |s.objects|
      invariant 0 <= i <= |s.objects|
      invariant ObjectsFault(s.objects, 0) == ObjectsFault(s.objects, i)
    {
      var bad := ObjectFault(s.objects[i]);
      if bad.Some? {
        return Some(AtObject(i, bad.value));
      }
      if i > 0 && ObjectLess(s.objects[i], s.objects[i - 1]) {
        return Some(NotOrdered(i));
      }
      i := i + 1;
    }
    var expected := SessionID(lib, s.objects);
    match expected
    case Err(why) => return Some(why);
    case Ok(id) => return if s.id != id then Some(WrongId) else None;
  }

  method BuildSession(lib: Library, objects: seq<SessionObject>, created: int, note: string)
    returns (r: Result<Session>)
    ensures r == BuildSpec(lib, objects, created, note)
  {
    hide SessionIdSpec, SessionFault;
    var ordered := lib.sort(objects);
    var id := SessionID(lib, ordered);
    if id.Err? {
      return Err(id.why);
    }
    var s := Session(SESSION_SCHEMA, lib.formatTime(created), id.value, ordered, note);
    var fault := Validate(lib, s);
    r := if fault.Some? then Err(fault.value) else Ok(s);
  }

  // ------------------------------------------------ a strict total order

  lemma {:induction false} TextTrichotomy(a: string, b: string)
    ensures (if TextLess(a, b) then 1 else 0) + (if TextLess(b, a) then 1 else 0) + (if a == b then 1 else 0) == 1
  {
    if a != "" && b != "" {
      TextTrichotomy(a[1..], b[1..]);
      assert a == [a[0]] + a[1..] && b == [b[0]] + b[1..];
    }
  }

  lemma {:induction false} TextTransitive(a: string, b: string, c: string)
    requires TextLess(a, b) && TextLess(b, c)
    ensures TextLess(a, c)
  {
    if a != "" && a[0] == b[0] && b[0] == c[0] {
      TextTransitive(a[1..], b[1..], c[1..]);
    }
  }

  /** Exactly one of less, greater and equal: what makes the sorted list unique. */
  lemma {:induction false} IntentTrichotomy(a: Intent, b: Intent)
    ensures (if IntentLess(a, b) then 1 else 0) + (if IntentLess(b, a) then 1 else 0) + (if a == b then 1 else 0) == 1
  {
    TextTrichotomy(a.kind, b.kind);
    TextTrichotomy(a.sha, b.sha);
    TextTrichotomy(a.replicaName, b.replicaName);
  }

  lemma {:induction false} IntentTransitive(a: Intent, b: Intent, c: Intent)
    requires IntentLess(a, b) && IntentLess(b, c)
    ensures IntentLess(a, c)
  {
    hide TextLess;
    if a.kind == b.kind || b.kind == c.kind {
      if a.kind == b.kind == c.kind {
        if a.sha != b.sha && b.sha != c.sha {
          TextTransitive(a.sha, b.sha, c.sha);
          TextTrichotomy(a.sha, b.sha);
        } else if a.sha == b.sha == c.sha && a.size == b.size == c.size {
          TextTransitive(a.replicaName, b.replicaName, c.replicaName);
        }
      }
    } else {
      TextTransitive(a.kind, b.kind, c.kind);
      TextTrichotomy(a.kind, b.kind);
    }
  }

  // ------------------------------------------------ one sorted form

  lemma {:induction false} SortedFormIsUnique(xs: seq<Intent>, ys: seq<Intent>)
    requires Ordered(xs) && Ordered(ys) && multiset(xs) == multiset(ys)
    ensures xs == ys
  {
    hide IntentLess, Ordered;
    SameSize(xs, ys);
    if xs != [] {
      HeadsAgree(xs, ys);
      TailsOrdered(xs);
      TailsOrdered(ys);
      TailsAgree(xs, ys);
      SortedFormIsUnique(xs[1..], ys[1..]);
    }
  }

  lemma {:induction false} TailsOrdered(xs: seq<Intent>)
    requires Ordered(xs) && xs != []
    ensures Ordered(xs[1..])
  {
    hide IntentLess;
  }

  lemma {:induction false} TailsAgree<T>(xs: seq<T>, ys: seq<T>)
    requires |xs| == |ys| > 0 && multiset(xs) == multiset(ys) && xs[0] == ys[0]
    ensures multiset(xs[1..]) == multiset(ys[1..])
    ensures xs[1..] == ys[1..] ==> xs == ys
  {
    assert xs == [xs[0]] + xs[1..] && ys == [ys[0]] + ys[1..];
    assert multiset(xs[1..]) == multiset(xs) - multiset{xs[0]};
    assert multiset(ys[1..]) == multiset(ys) - multiset{ys[0]};
  }

  lemma {:induction false} SameSize<T>(xs: seq<T>, ys: seq<T>)
    requires multiset(xs) == multiset(ys)
    ensures |xs| == |ys|
  {
    assert |multiset(xs)| == |multiset(ys)|;
  }

  lemma {:induction false} HeadsAgree(xs: seq<Intent>, ys: seq<Intent>)
    requires Ordered(xs) && Ordered(ys) && multiset(xs) == multiset(ys) && xs != [] && ys != []
    ensures xs[0] == ys[0]
  {
    hide IntentLess;
    assert xs[0] in multiset(ys) && ys[0] in multiset(xs);
    var k :| 0 <= k < |ys| && ys[k] == xs[0];
    var m :| 0 <= m < |xs| && xs[m] == ys[0];
    IntentTrichotomy(xs[0], ys[0]);
  }

  lemma {:induction false} WithoutOne<T>(s: seq<T>, k: nat)
    requires k < |s|
    ensures multiset(s) == multiset{s[k]} + multiset(s[..k] + s[k + 1..])
  {
    assert s == s[..k] + [s[k]] + s[k + 1..];
  }

  /** Intents of a list in which one object is moved to the front. */
  lemma {:induction false} IntentsWithout(s: seq<SessionObject>, k: nat)
    requires k < |s|
    ensures multiset(Intents(s)) == multiset{IntentOf(s[k])} + multiset(Intents(s[..k] + s[k + 1..]))
  {
    hide IntentOf;
    var list, rest := Intents(s), Intents(s[..k] + s[k + 1..]);
    assert rest == list[..k] + list[k + 1..];
    WithoutOne(list, k);
  }

  lemma {:induction false} IntentsHead(s: seq<SessionObject>)
    requires s != []
    ensures multiset(Intents(s)) == multiset{IntentOf(s[0])} + multiset(Intents(s[1..]))
  {
    hide IntentOf;
    assert Intents(s) == [IntentOf(s[0])] + Intents(s[1..]);
  }

  /** Where the first element of `a` sits in its permutation `b`, and that the rest is a permutation again. */
  lemma {:induction false} FirstFound<T>(a: seq<T>, b: seq<T>) returns (k: nat)
    requires a != [] && multiset(a) == multiset(b)
    ensures k < |b| && b[k] == a[0] && multiset(a[1..]) == multiset(b[..k] + b[k + 1..])
  {
    assert a[0] in multiset(b);
    k :| 0 <= k < |b| && b[k] == a[0];
    assert a == [a[0]] + a[1..];
    assert multiset(a) == multiset{a[0]} + multiset(a[1..]);
    WithoutOne(b, k);
    assert multiset(a[1..]) == multiset(a) - multiset{a[0]};
    assert multiset(b[..k] + b[k + 1..]) == multiset(b) - multiset{b[k]};
  }

  /** Sorting the objects permutes the intents. */
  lemma {:induction false} IntentsOfPermutation(a: seq<SessionObject>, b: seq<SessionObject>)
    requires multiset(a) == multiset(b)
    ensures multiset(Intents(a)) == multiset(Intents(b))
  {
    hide Intents, IntentOf;
    if a != [] {
      var k := FirstFound(a, b);
      IntentsOfPermutation(a[1..], b[..k] + b[k + 1..]);
      IntentsHead(a);
      IntentsWithout(b, k);
    } else {
      SameSize(a, b);
      assert a == b;
    }
  }

  /** Two sorters, two arrangements of the same intents: one list of intents. */
  lemma {:induction false} SortedIntentsAgree(lib: Library, other: Library, a: seq<SessionObject>,
      b: seq<SessionObject>)
    requires Sorts(lib.sort) && Sorts(other.sort)
    requires multiset(Intents(a)) == multiset(Intents(b))
    ensures Intents(lib.sort(a)) == Intents(other.sort(b))
  {
    IntentsOfPermutation(lib.sort(a), a);
    IntentsOfPermutation(other.sort(b), b);
    SortedFormIsUnique(Intents(lib.sort(a)), Intents(other.sort(b)));
  }

  // ------------------------------------------------ duplicates

  /** In an ordered list equal intents are neighbours, so comparing neighbours finds every duplicate. */
  lemma {:induction false} NeighboursFindDuplicates(list: seq<Intent>)
    requires Ordered(list)
    ensures AdjacentEqual(list) <==> !Distinct(list)
  {
    hide IntentLess;
    if !Distinct(list) {
      var i, j :| 0 <= i < j < |list| && list[i] == list[j];
      assert !IntentLess(list[i + 1], list[i]);
      if i + 1 < j {
        assert !IntentLess(list[j], list[i + 1]);
      }
      IntentTrichotomy(list[i], list[i + 1]);
    }
  }

  predicate OnceOnly(m: multiset<Intent>, list: seq<Intent>) {
    forall x :: x in list ==> m[x] == 1
  }

  lemma {:induction false} DistinctIsOnceOnly(list: seq<Intent>)
    ensures Distinct(list) <==> OnceOnly(multiset(list), list)
  {
    if list != [] {
      DistinctIsOnceOnly(list[1..]);
      if Distinct(list) {
        DistinctTail(list);
        OnceOnlyCons(list);
      }
      if OnceOnly(multiset(list), list) {
        OnceOnlyTail(list);
        DistinctCons(list);
      }
    }
  }

  lemma {:induction false} HeadAndRest(list: seq<Intent>)
    requires list != []
    ensures multiset(list) == multiset{list[0]} + multiset(list[1..])
    ensures forall x :: x in list <==> x == list[0] || x in list[1..]
  {
    assert list == [list[0]] + list[1..];
  }

  lemma {:induction false} OnceOnlyCons(list: seq<Intent>)
    requires list != [] && OnceOnly(multiset(list[1..]), list[1..]) && list[0] !in list[1..]
    ensures OnceOnly(multiset(list), list)
  {
    HeadAndRest(list);
    forall x | x in list ensures multiset(list)[x] == 1 {
      assert x in list[1..] <==> x in multiset(list[1..]);
    }
  }

  lemma {:induction false} OnceOnlyTail(list: seq<Intent>)
    requires list != [] && OnceOnly(multiset(list), list)
    ensures OnceOnly(multiset(list[1..]), list[1..]) && list[0] !in list[1..]
  {
    HeadAndRest(list);
    assert list[0] in list && multiset(list)[list[0]] == 1;
    forall x | x in list[1..] ensures multiset(list[1..])[x] == 1 {
      assert x in list && x in multiset(list[1..]);
    }
  }

  lemma {:induction false} DistinctCons(list: seq<Intent>)
    requires list != [] && Distinct(list[1..]) && list[0] !in list[1..]
    ensures Distinct(list)
  {
    forall i, j | 0 <= i < j < |list| ensures list[i] != list[j] {
      assert list[j] == list[1..][j - 1];
      if i > 0 {
        assert list[i] == list[1..][i - 1];
      }
    }
  }

  lemma {:induction false} DistinctTail(list: seq<Intent>)
    requires list != [] && Distinct(list)
    ensures Distinct(list[1..]) && list[0] !in list[1..]
  {
    var rest := list[1..];
    forall i, j | 0 <= i < j < |rest| ensures rest[i] != rest[j] {
      assert rest[i] == list[i + 1] && rest[j] == list[j + 1];
    }
    forall j | 0 <= j < |rest| ensures rest[j] != list[0] {
      assert rest[j] == list[j + 1];
    }
  }

  /** Being free of duplicates does not depend on the arrangement. */
  lemma {:induction false} DistinctOfPermutation(a: seq<Intent>, b: seq<Intent>)
    requires multiset(a) == multiset(b)
    ensures Distinct(a) == Distinct(b)
  {
    DistinctIsOnceOnly(a);
    DistinctIsOnceOnly(b);
    forall x ensures x in a <==> x in b {
      assert x in multiset(a) <==> x in multiset(b);
    }
  }

  /** `SessionID` reports a duplicate exactly when two of the given objects, wherever they are, intend the same. */
  lemma {:induction false} DuplicatesAreFound(lib: Library, objects: seq<SessionObject>)
    requires Sorts(lib.sort)
    ensures AdjacentEqual(Intents(lib.sort(objects))) <==>
            exists i, j :: 0 <= i < j < |objects| && IntentOf(objects[i]) == IntentOf(objects[j])
  {
    hide IntentLess;
    var given, sorted := Intents(objects), Intents(lib.sort(objects));
    NeighboursFindDuplicates(sorted);
    IntentsOfPermutation(lib.sort(objects), objects);
    DistinctOfPermutation(given, sorted);
    if !Distinct(given) {
      var i, j :| 0 <= i < j < |given| && given[i] == given[j];
      assert IntentOf(objects[i]) == IntentOf(objects[j]);
    }
    if i, j :| 0 <= i < j < |objects| && IntentOf(objects[i]) == IntentOf(objects[j]) {
      assert given[i] == given[j];
    }
  }

  // ------------------------------------------------ the identity

  /** The answer of `SessionID`, error or not, is a function of the multiset of intents. */
  lemma {:induction false} IdIgnoresOrderAndResults(lib: Library, other: Library, a: seq<SessionObject>,
      b: seq<SessionObject>)
    requires Sorts(lib.sort) && Sorts(other.sort) && lib.sha == other.sha && lib.encode == other.encode
    requires multiset(Intents(a)) == multiset(Intents(b))
    ensures SessionIdSpec(lib, a) == SessionIdSpec(other, b)
  {
    SortedIntentsAgree(lib, other, a, b);
  }

  ghost function IntentSet(os: seq<SessionObject>): set<Intent> {
    set x | x in Intents(os)
  }

  lemma {:induction false} SetsOfDistinct(a: seq<Intent>, b: seq<Intent>)
    requires Distinct(a) && Distinct(b) && (forall x :: x in a <==> x in b)
    ensures multiset(a) == multiset(b)
  {
    DistinctIsOnceOnly(a);
    DistinctIsOnceOnly(b);
    forall x ensures multiset(a)[x] == multiset(b)[x] {
      if x !in a { assert x !in multiset(a) && x !in multiset(b); }
    }
  }

  lemma {:induction false} IdGivenIsDistinct(lib: Library, objects: seq<SessionObject>)
    requires Sorts(lib.sort) && SessionIdSpec(lib, objects).Ok?
    ensures Distinct(Intents(objects)) && Distinct(Intents(lib.sort(objects)))
    ensures multiset(Intents(objects)) == multiset(Intents(lib.sort(objects)))
  {
    hide IntentLess, FirstIntentFault;
    NeighboursFindDuplicates(Intents(lib.sort(objects)));
    IntentsOfPermutation(lib.sort(objects), objects);
    DistinctOfPermutation(Intents(objects), Intents(lib.sort(objects)));
  }

  /** The JSON text of valid intents, all plain ASCII, determines them. */
  ghost predicate Injective(encode: seq<Intent> -> string) {
    forall x, y :: FirstIntentFault(x) == None && FirstIntentFault(y) == None && encode(x) == encode(y) ==> x == y
  }

  /** Equal sets of intents get one identity. */
  lemma {:induction false} EqualSetsOneIdentity(lib: Library, other: Library, a: seq<SessionObject>,
      b: seq<SessionObject>)
    requires Sorts(lib.sort) && Sorts(other.sort) && lib.sha == other.sha && lib.encode == other.encode
    requires SessionIdSpec(lib, a).Ok? && SessionIdSpec(other, b).Ok? && IntentSet(a) == IntentSet(b)
    ensures SessionIdSpec(lib, a) == SessionIdSpec(other, b)
  {
    hide SessionIdSpec, Sorts, Distinct;
    IdGivenIsDistinct(lib, a);
    IdGivenIsDistinct(other, b);
    SameMembers(a, b);
    SetsOfDistinct(Intents(a), Intents(b));
    IdIgnoresOrderAndResults(lib, other, a, b);
  }

  /** One identity comes from one set of intents, or the two canonical texts are a SHA-256 collision. */
  lemma {:induction false} OneIdentityEqualSets(lib: Library, other: Library, a: seq<SessionObject>,
      b: seq<SessionObject>)
    requires Sorts(lib.sort) && Sorts(other.sort) && lib.sha == other.sha && lib.encode == other.encode
    requires Injective(lib.encode)
    requires SessionIdSpec(lib, a).Ok? && SessionIdSpec(lib, a) == SessionIdSpec(other, b)
    ensures || IntentSet(a) == IntentSet(b)
            || (var x, y := lib.encode(Intents(lib.sort(a))), lib.encode(Intents(other.sort(b)));
                x != y && lib.sha(x) == lib.sha(y))
  {
    hide Sorts, Distinct, FirstIntentFault, AdjacentEqual, IntentSet, Intents;
    IdGivenIsDistinct(lib, a);
    IdGivenIsDistinct(other, b);
    if Intents(lib.sort(a)) == Intents(other.sort(b)) {
      SameIntents(a, b);
    }
  }

  lemma {:induction false} SameMembers(a: seq<SessionObject>, b: seq<SessionObject>)
    requires IntentSet(a) == IntentSet(b)
    ensures forall x :: x in Intents(a) <==> x in Intents(b)
  {
    forall x ensures x in Intents(a) <==> x in Intents(b) {
      assert x in IntentSet(a) <==> x in IntentSet(b);
    }
  }

  lemma {:induction false} SameIntents(a: seq<SessionObject>, b: seq<SessionObject>)
    requires multiset(Intents(a)) == multiset(Intents(b))
    ensures IntentSet(a) == IntentSet(b)
  {
    forall x ensures x in Intents(a) <==> x in Intents(b) {
      assert x in multiset(Intents(a)) <==> x in multiset(Intents(b));
    }
  }

  // ------------------------------------------------ the session

  /** Where an element of `xs` sits in its permutation `ys`. */
  lemma {:induction false} MemberFound<T>(xs: seq<T>, ys: seq<T>, i: nat) returns (j: nat)
    requires i < |xs| && multiset(xs) == multiset(ys)
    ensures j < |ys| && ys[j] == xs[i]
  {
    assert xs[i] in multiset(ys);
    j :| 0 <= j < |ys| && ys[j] == xs[i];
  }

  /** With distinct intents there is one ordered arrangement of the objects themselves. */
  lemma {:induction false} OneArrangement(xs: seq<SessionObject>, ys: seq<SessionObject>)
    requires multiset(xs) == multiset(ys) && Intents(xs) == Intents(ys) && Distinct(Intents(xs))
    ensures xs == ys
  {
    hide IntentOf, Intents, Distinct;
    assert |Intents(xs)| == |Intents(ys)|;
    forall i | 0 <= i < |xs| ensures xs[i] == ys[i] {
      var j := MemberFound(xs, ys, i);
      assert Intents(xs)[i] == IntentOf(xs[i]) && Intents(xs)[j] == IntentOf(ys[j]);
      DistinctIndex(Intents(xs), i, j);
    }
  }

  lemma {:induction false} DistinctIndex(list: seq<Intent>, i: nat, j: nat)
    requires Distinct(list) && i < |list| && j < |list| && list[i] == list[j]
    ensures i == j
  {
  }

  /** `BuildSession` gives one answer, session or error, for every permutation of its objects and every sort. */
  lemma {:induction false} BuildIgnoresOrder(lib: Library, other: Library, a: seq<SessionObject>,
      b: seq<SessionObject>, created: int, note: string)
    requires Sorts(lib.sort) && Sorts(other.sort) && multiset(a) == multiset(b) && other == lib.(sort := other.sort)
    ensures BuildSpec(lib, a, created, note) == BuildSpec(other, b, created, note)
  {
    hide IdOfIntents, ObjectsFault, Ordered, Distinct, Intents;
    var x, y := lib.sort(a), other.sort(b);
    assert multiset(x) == multiset(a) && multiset(y) == multiset(b);
    IntentsOfPermutation(x, y);
    IntentsOfPermutation(a, b);
    IdIgnoresOrderAndResults(lib, other, x, y);
    if SessionIdSpec(lib, x).Ok? {
      IdGivenIsDistinct(lib, x);
      SortedIntentsAgree(lib, other, a, b);
      OneArrangement(x, y);
    }
  }

  predicate AllValid(os: seq<SessionObject>) {
    forall o :: o in os ==> ObjectFault(o) == None
  }

  lemma {:induction false} ObjectsFaultFree(os: seq<SessionObject>, i: nat)
    requires i <= |os| && Ordered(Intents(os))
    ensures ObjectsFault(os, i) == None <==> forall k :: i <= k < |os| ==> ObjectFault(os[k]) == None
    decreases |os| - i
  {
    hide IntentLess, ObjectFault;
    if i < |os| {
      ObjectsFaultFree(os, i + 1);
      if i > 0 {
        assert !IntentLess(Intents(os)[i], Intents(os)[i - 1]);
      }
    }
  }

  lemma {:induction false} NoIntentFault(list: seq<Intent>)
    ensures FirstIntentFault(list) == None <==> forall x :: x in list ==> IntentFault(x) == None
  {
    hide IntentFault;
    if list != [] {
      NoIntentFault(list[1..]);
      assert list == [list[0]] + list[1..];
    }
  }

  lemma {:induction false} ValidPermutation(a: seq<SessionObject>, b: seq<SessionObject>)
    requires multiset(a) == multiset(b)
    ensures AllValid(a) == AllValid(b)
  {
    hide ObjectFault;
    forall o ensures o in a <==> o in b {
      assert o in multiset(a) <==> o in multiset(b);
    }
  }

  lemma {:induction false} ValidIntents(os: seq<SessionObject>)
    requires AllValid(os)
    ensures FirstIntentFault(Intents(os)) == None
  {
    hide IntentFault;
    NoIntentFault(Intents(os));
    forall x | x in Intents(os) ensures IntentFault(x) == None {
      var i :| 0 <= i < |os| && Intents(os)[i] == x;
      assert os[i] in os;
    }
  }

  ghost predicate Acceptable(lib: Library, objects: seq<SessionObject>, created: int, note: string) {
    && objects != [] && AllValid(objects) && Distinct(Intents(objects))
    && !HasControl(note) && lib.canonicalTime(lib.formatTime(created))
  }

  /** The identity of the sorted objects exists, and sorting them once more does not change it. */
  lemma {:induction false} IdOfSorted(lib: Library, objects: seq<SessionObject>)
    requires Sorts(lib.sort)
    ensures SessionIdSpec(lib, lib.sort(objects)) == SessionIdSpec(lib, objects)
  {
    IntentsOfPermutation(lib.sort(objects), objects);
    IdIgnoresOrderAndResults(lib, lib, lib.sort(objects), objects);
  }

  lemma {:induction false} IdExists(lib: Library, objects: seq<SessionObject>)
    requires Sorts(lib.sort) && objects != [] && AllValid(objects) && Distinct(Intents(objects))
    ensures SessionIdSpec(lib, objects).Ok?
  {
    hide ObjectFault, IntentLess;
    var sorted := lib.sort(objects);
    assert multiset(sorted) == multiset(objects) && Ordered(Intents(sorted));
    SameSize(sorted, objects);
    ValidPermutation(sorted, objects);
    ValidIntents(sorted);
    IntentsOfPermutation(sorted, objects);
    DistinctOfPermutation(Intents(sorted), Intents(objects));
    NeighboursFindDuplicates(Intents(sorted));
  }

  /** The final `Validate` never finds the objects out of order or the identity wrong. */
  lemma {:induction false} BuiltIsOrdered(lib: Library, objects: seq<SessionObject>)
    requires Sorts(lib.sort)
    ensures ObjectsFault(lib.sort(objects), 0) == None <==> AllValid(objects)
  {
    hide ObjectFault, IntentLess, Ordered, ObjectsFault, Intents;
    var sorted := lib.sort(objects);
    assert multiset(sorted) == multiset(objects) && Ordered(Intents(sorted));
    ObjectsFaultFree(sorted, 0);
    ValidPermutation(sorted, objects);
    AllValidByIndex(sorted);
  }

  lemma {:induction false} AllValidByIndex(os: seq<SessionObject>)
    ensures AllValid(os) <==> forall k :: 0 <= k < |os| ==> ObjectFault(os[k]) == None
  {
    hide ObjectFault;
  }

  /** `BuildSession` succeeds exactly on non-empty, valid, duplicate-free objects with a clean note and time. */
  lemma {:induction false} BuildSucceedsExactly(lib: Library, objects: seq<SessionObject>, created: int, note: string)
    requires Sorts(lib.sort)
    ensures BuildSpec(lib, objects, created, note).Ok? <==> Acceptable(lib, objects, created, note)
  {
    hide ObjectsFault, IntentLess, Ordered, Distinct, IdOfIntents, HasControl, Intents, AllValid;
    var sorted := lib.sort(objects);
    assert multiset(sorted) == multiset(objects);
    SameSize(sorted, objects);
    BuiltIsOrdered(lib, objects);
    IdOfSorted(lib, objects);
    if Acceptable(lib, objects, created, note) {
      IdExists(lib, objects);
    }
    if SessionIdSpec(lib, objects).Ok? {
      IdGivenIsDistinct(lib, objects);
    }
  }

  /** What a built session holds: all the objects, strictly ascending, under the identity of their intents. */
  lemma {:induction false} BuiltSession(lib: Library, objects: seq<SessionObject>, created: int, note: string)
    requires Sorts(lib.sort) && BuildSpec(lib, objects, created, note).Ok?
    ensures var s := BuildSpec(lib, objects, created, note).value;
      && multiset(s.objects) == multiset(objects)
      && (forall i, j :: 0 <= i < j < |s.objects| ==> ObjectLess(s.objects[i], s.objects[j]))
      && Ok(s.id) == SessionIdSpec(lib, objects)
      && s.id == lib.sha(lib.encode(Intents(s.objects)))
      && SessionFault(lib, s) == None
  {
    hide IntentLess, ObjectsFault, FirstIntentFault;
    var os := lib.sort(objects);
    assert multiset(os) == multiset(objects) && Ordered(Intents(os));
    IdOfSorted(lib, objects);
    IdGivenIsDistinct(lib, objects);
    StrictlyAscending(os);
  }

  lemma {:induction false} StrictlyAscending(os: seq<SessionObject>)
    requires Ordered(Intents(os)) && Distinct(Intents(os))
    ensures forall i, j :: 0 <= i < j < |os| ==> ObjectLess(os[i], os[j])
  {
    hide IntentLess;
    forall i, j | 0 <= i < j < |os| ensures ObjectLess(os[i], os[j]) {
      assert !IntentLess(Intents(os)[j], Intents(os)[i]) && Intents(os)[i] != Intents(os)[j];
      IntentTrichotomy(Intents(os)[i], Intents(os)[j]);
    }
  }
}
