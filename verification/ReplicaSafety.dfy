/** Safety of concurrent replication, with runs dying anywhere. */
module ReplicaSafety {
  import opened Statements
  import opened ReplicaStore

  lemma {:induction false} BeginKeeps(h: Hash, s: State, p: nat, r: Receipt)
    requires Inv(h, s) && AllValid(s) && Enabled(s, Begin(p, r))
    ensures Inv(h, Apply(h, s, Begin(p, r))) && Keeps(s, Apply(h, s, Begin(p, r)))
  {
    hide IsSha256, ObjectName, ObjectDir;
    var n := Apply(h, s, Begin(p, r));
    forall x: nat ensures RunOk(h, n, x) { assert RunOk(h, s, x); }
    forall x: nat, y: nat ensures Apart(n, x, y) { assert Apart(s, x, y); }
  }

  lemma {:induction false} CheckKeeps(h: Hash, s: State, p: nat)
    requires Inv(h, s) && AllValid(s) && Enabled(s, Check(p))
    ensures Inv(h, Apply(h, s, Check(p))) && Keeps(s, Apply(h, s, Check(p)))
  {
    hide IsSha256, ObjectName, ObjectDir;
    var n := Apply(h, s, Check(p));
    forall x: nat ensures RunOk(h, n, x) { assert RunOk(h, s, x); }
    forall x: nat, y: nat ensures Apart(n, x, y) { assert Apart(s, x, y); }
  }

  lemma {:induction false} MakeTempKeeps(h: Hash, s: State, p: nat, temp: string)
    requires Inv(h, s) && AllValid(s) && Enabled(s, MakeTemp(p, temp))
    ensures Inv(h, Apply(h, s, MakeTemp(p, temp))) && Keeps(s, Apply(h, s, MakeTemp(p, temp)))
  {
    hide IsSha256, ObjectName, ObjectDir;
    var n := Apply(h, s, MakeTemp(p, temp));
    assert RunOk(h, s, p);
    forall sha | IsSha256(sha) ensures temp != ObjectName(sha) { TempIsNoObject(s.runs[p].r.sha, temp, sha); }
    forall x: nat ensures RunOk(h, n, x) { assert RunOk(h, s, x); }
    forall x: nat, y: nat ensures Apart(n, x, y) { assert Apart(s, x, y) && RunOk(h, s, x) && RunOk(h, s, y); }
  }

  lemma {:induction false} CopySomeKeeps(h: Hash, s: State, p: nat, part: string)
    requires Inv(h, s) && AllValid(s) && Enabled(s, CopySome(p, part))
    ensures Inv(h, Apply(h, s, CopySome(p, part))) && Keeps(s, Apply(h, s, CopySome(p, part)))
  {
    hide IsSha256, ObjectName, ObjectDir;
    var n := Apply(h, s, CopySome(p, part));
    assert RunOk(h, s, p);
    forall sha | IsSha256(sha) ensures s.runs[p].pc.temp != ObjectName(sha) { TempIsNoObject(s.runs[p].r.sha, s.runs[p].pc.temp, sha); }
    forall x: nat ensures RunOk(h, n, x) { assert RunOk(h, s, x) && Apart(s, x, p) && Apart(s, p, x); }
    forall x: nat, y: nat ensures Apart(n, x, y) { assert Apart(s, x, y); }
  }

  lemma {:induction false} CopyAllKeeps(h: Hash, s: State, p: nat, source: string, stable: bool)
    requires Inv(h, s) && AllValid(s) && Enabled(s, CopyAll(p, source, stable))
    ensures Inv(h, Apply(h, s, CopyAll(p, source, stable))) && Keeps(s, Apply(h, s, CopyAll(p, source, stable)))
  {
    hide IsSha256, ObjectName, ObjectDir;
    var n := Apply(h, s, CopyAll(p, source, stable));
    assert RunOk(h, s, p);
    forall sha | IsSha256(sha) ensures s.runs[p].pc.temp != ObjectName(sha) { TempIsNoObject(s.runs[p].r.sha, s.runs[p].pc.temp, sha); }
    forall x: nat ensures RunOk(h, n, x) { assert RunOk(h, s, x) && Apart(s, x, p) && Apart(s, p, x); }
    forall x: nat, y: nat ensures Apart(n, x, y) { assert Apart(s, x, y); }
  }

  lemma {:induction false} LinkKeeps(h: Hash, s: State, p: nat)
    requires Inv(h, s) && AllValid(s) && Enabled(s, Link(p))
    ensures Inv(h, Apply(h, s, Link(p))) && Keeps(s, Apply(h, s, Link(p)))
  {
    hide IsSha256, ObjectName, ObjectDir;
    var n := Apply(h, s, Link(p));
    assert RunOk(h, s, p);
    forall sha | IsSha256(sha) ensures s.runs[p].pc.temp != ObjectName(sha) { TempIsNoObject(s.runs[p].r.sha, s.runs[p].pc.temp, sha); }
    forall sha | IsSha256(sha) && ObjectName(sha) == ObjectName(s.runs[p].r.sha) ensures sha == s.runs[p].r.sha {
      ObjectNameInjective(sha, s.runs[p].r.sha);
    }
    forall q | q in s.runs && HasTemp(s.runs[q].pc) ensures s.runs[q].pc.temp != ObjectName(s.runs[p].r.sha) {
      assert RunOk(h, s, q);
      TempIsNoObject(s.runs[q].r.sha, s.runs[q].pc.temp, s.runs[p].r.sha);
    }
    forall x: nat ensures RunOk(h, n, x) { assert RunOk(h, s, x) && Apart(s, x, p) && Apart(s, p, x); }
    forall x: nat, y: nat ensures Apart(n, x, y) { assert Apart(s, x, y); }
  }

  lemma {:induction false} RemoveTempKeeps(h: Hash, s: State, p: nat, removed: bool)
    requires Inv(h, s) && AllValid(s) && Enabled(s, RemoveTemp(p, removed))
    ensures Inv(h, Apply(h, s, RemoveTemp(p, removed))) && Keeps(s, Apply(h, s, RemoveTemp(p, removed)))
  {
    hide IsSha256, ObjectName, ObjectDir;
    var n := Apply(h, s, RemoveTemp(p, removed));
    assert RunOk(h, s, p);
    forall sha | IsSha256(sha) ensures s.runs[p].pc.temp != ObjectName(sha) { TempIsNoObject(s.runs[p].r.sha, s.runs[p].pc.temp, sha); }
    forall x: nat ensures RunOk(h, n, x) { assert RunOk(h, s, x) && Apart(s, x, p) && Apart(s, p, x); }
    forall x: nat, y: nat ensures Apart(n, x, y) { assert Apart(s, x, y); }
  }

  lemma {:induction false} VerifyKeeps(h: Hash, s: State, p: nat)
    requires Inv(h, s) && AllValid(s) && Enabled(s, Verify(p))
    ensures Inv(h, Apply(h, s, Verify(p))) && Keeps(s, Apply(h, s, Verify(p)))
  {
    hide IsSha256, ObjectName, ObjectDir;
    var n := Apply(h, s, Verify(p));
    forall x: nat ensures RunOk(h, n, x) { assert RunOk(h, s, x); }
    forall x: nat, y: nat ensures Apart(n, x, y) { assert Apart(s, x, y); }
  }

  lemma {:induction false} FailKeeps(h: Hash, s: State, p: nat)
    requires Inv(h, s) && AllValid(s) && Enabled(s, Fail(p))
    ensures Inv(h, Apply(h, s, Fail(p))) && Keeps(s, Apply(h, s, Fail(p)))
  {
    hide IsSha256, ObjectName, ObjectDir;
    var n := Apply(h, s, Fail(p));
    assert RunOk(h, s, p);
    forall x: nat ensures RunOk(h, n, x) { assert RunOk(h, s, x); }
    forall x: nat, y: nat ensures Apart(n, x, y) { assert Apart(s, x, y); }
  }

  lemma {:induction false} DieKeeps(h: Hash, s: State, p: nat)
    requires Inv(h, s) && AllValid(s) && Enabled(s, Die(p))
    ensures Inv(h, Apply(h, s, Die(p))) && Keeps(s, Apply(h, s, Die(p)))
  {
    hide IsSha256, ObjectName, ObjectDir;
    var n := Apply(h, s, Die(p));
    forall x: nat ensures RunOk(h, n, x) { assert RunOk(h, s, x); }
    forall x: nat, y: nat ensures Apart(n, x, y) { assert Apart(s, x, y); }
  }

  lemma {:induction false} StepKeeps(h: Hash, s: State, a: Action)
    requires Inv(h, s) && AllValid(s) && Enabled(s, a)
    ensures Inv(h, Apply(h, s, a)) && Keeps(s, Apply(h, s, a))
  {
    hide Inv, Enabled, Apply, Keeps;
    match a
    case Begin(p, r) => BeginKeeps(h, s, p, r);
    case Check(p) => CheckKeeps(h, s, p);
    case MakeTemp(p, temp) => MakeTempKeeps(h, s, p, temp);
    case CopySome(p, part) => CopySomeKeeps(h, s, p, part);
    case CopyAll(p, source, stable) => CopyAllKeeps(h, s, p, source, stable);
    case Link(p) => LinkKeeps(h, s, p);
    case RemoveTemp(p, removed) => RemoveTempKeeps(h, s, p, removed);
    case Verify(p) => VerifyKeeps(h, s, p);
    case Fail(p) => FailKeeps(h, s, p);
    case Die(p) => DieKeeps(h, s, p);
  }

  // ------------------------------------------------ runs

  /** One step; `Apply` needs the receipts to be valid, which every run from a consistent root keeps. */
  ghost predicate Stepped(h: Hash, s: State, a: Action, n: State) {
    Enabled(s, a) && (AllValid(s) ==> n == Apply(h, s, a))
  }

  ghost predicate Execution(h: Hash, trace: seq<State>, actions: seq<Action>) {
    && |trace| == |actions| + 1
    && forall i :: 0 <= i < |actions| ==> Stepped(h, trace[i], actions[i], trace[i + 1])
  }

  /** A root nobody is working on, whose objects are what their names say. */
  ghost predicate ConsistentRoot(h: Hash, s: State) {
    ObjectsOk(h, s) && s.runs == map[]
  }

  lemma {:induction false} StartOk(h: Hash, s: State)
    requires ConsistentRoot(h, s)
    ensures Inv(h, s)
  {
    hide IsSha256, ObjectName;
  }

  lemma {:induction false} ExecutionKeeps(h: Hash, trace: seq<State>, actions: seq<Action>, k: nat)
    requires Execution(h, trace, actions) && ConsistentRoot(h, trace[0]) && k < |trace|
    ensures Inv(h, trace[k]) && AllValid(trace[k])
    decreases k
  {
    hide Inv, Enabled, Apply, ConsistentRoot, AllValid;
    if k == 0 {
      StartOk(h, trace[0]);
    } else {
      ExecutionKeeps(h, trace, actions, k - 1);
      assert Stepped(h, trace[k - 1], actions[k - 1], trace[k]);
      StepKeeps(h, trace[k - 1], actions[k - 1]);
    }
    InvValid(h, trace[k]);
  }

  /** Whatever a run may do next can be done: no reachable state is stuck between steps. */
  lemma {:induction false} ExecutionContinues(h: Hash, trace: seq<State>, actions: seq<Action>, a: Action)
    requires Execution(h, trace, actions) && ConsistentRoot(h, trace[0]) && Enabled(trace[|actions|], a)
    ensures AllValid(trace[|actions|])
    ensures Execution(h, trace + [Apply(h, trace[|actions|], a)], actions + [a])
  {
    hide Inv, Enabled, Apply, ConsistentRoot, AllValid;
    var n := |actions|;
    ExecutionKeeps(h, trace, actions, n);
    var longer, more := trace + [Apply(h, trace[n], a)], actions + [a];
    forall i | 0 <= i < |more| ensures Stepped(h, longer[i], more[i], longer[i + 1]) {
      if i < n {
        assert Stepped(h, trace[i], actions[i], trace[i + 1]);
      }
    }
  }

  lemma {:induction false} KeepsTwice(a: State, b: State, c: State)
    requires Keeps(a, b) && Keeps(b, c)
    ensures Keeps(a, c)
  {
    hide IsSha256, ObjectName;
  }

  lemma {:induction false} ObjectsNeverChange(h: Hash, trace: seq<State>, actions: seq<Action>, j: nat, k: nat)
    requires Execution(h, trace, actions) && ConsistentRoot(h, trace[0]) && j <= k < |trace|
    ensures Keeps(trace[j], trace[k])
    decreases k
  {
    hide Inv, Enabled, Apply, ConsistentRoot, AllValid;
    if j < k {
      ObjectsNeverChange(h, trace, actions, j, k - 1);
      ExecutionKeeps(h, trace, actions, k - 1);
      assert Stepped(h, trace[k - 1], actions[k - 1], trace[k]);
      StepKeeps(h, trace[k - 1], actions[k - 1]);
      hide Keeps;
      KeepsTwice(trace[j], trace[k - 1], trace[k]);
    } else {
      KeepsItself(trace[j]);
    }
  }

  lemma {:induction false} KeepsItself(s: State)
    ensures Keeps(s, s)
  {
  }

  /**
   Under every interleaving of runs, and runs dying anywhere: at each moment every object hashes to its
   name, once published it stays byte for byte, and a run that reported success has its object there
   with the receipt's hash and size from then on.
   */
  lemma {:induction false} ReplicationIsSafe(h: Hash, trace: seq<State>, actions: seq<Action>, j: nat, k: nat,
      sha: string, p: nat)
    requires Execution(h, trace, actions) && ConsistentRoot(h, trace[0]) && j <= k < |trace| && IsSha256(sha)
    ensures ObjectName(sha) in trace[j].files ==>
              && h(trace[j].files[ObjectName(sha)]) == sha
              && ObjectName(sha) in trace[k].files && trace[k].files[ObjectName(sha)] == trace[j].files[ObjectName(sha)]
    ensures p in trace[j].runs && trace[j].runs[p].pc.Succeeded? ==>
              ValidReceipt(trace[j].runs[p].r) && DestinationOk(h, trace[k], trace[j].runs[p].r)
  {
    hide IsSha256, ObjectName, Execution, ConsistentRoot;
    ExecutionKeeps(h, trace, actions, j);
    ObjectsNeverChange(h, trace, actions, j, k);
    assert RunOk(h, trace[j], p);
  }

  predicate OpeningFor(s: State, p: nat, sha: string) {
    p in s.runs && s.runs[p].r.sha == sha && s.runs[p].pc.Opening?
  }

  /** While its object is there, no run comes to find it missing. */
  lemma {:induction false} OpeningIsOld(h: Hash, s: State, a: Action, sha: string, q: nat)
    requires IsSha256(sha) && AllValid(s) && ObjectName(sha) in s.files && Enabled(s, a)
    requires OpeningFor(Apply(h, s, a), q, sha)
    ensures OpeningFor(s, q, sha)
  {
    hide IsSha256, ObjectName, ObjectDir;
  }

  lemma {:induction false} OpeningSince(h: Hash, trace: seq<State>, actions: seq<Action>, j: nat, m: nat, sha: string, q: nat)
    requires Execution(h, trace, actions) && ConsistentRoot(h, trace[0]) && j <= m < |trace|
    requires IsSha256(sha) && ObjectName(sha) in trace[j].files && OpeningFor(trace[m], q, sha)
    ensures OpeningFor(trace[j], q, sha)
    decreases m
  {
    hide IsSha256, ObjectName, ConsistentRoot, Enabled, Apply, OpeningFor, AllValid, Inv;
    if j < m {
      ExecutionKeeps(h, trace, actions, m - 1);
      ObjectsNeverChange(h, trace, actions, j, m - 1);
      assert Stepped(h, trace[m - 1], actions[m - 1], trace[m]);
      OpeningIsOld(h, trace[m - 1], actions[m - 1], sha, q);
      OpeningSince(h, trace, actions, j, m - 1, sha, q);
    }
  }

  lemma {:induction false} CheckFindsIt(h: Hash, s: State, q: nat, r: Receipt)
    requires AllValid(s) && Enabled(s, Check(q)) && s.runs[q].r == r && ValidReceipt(r) && DestinationOk(h, s, r)
    ensures var n := Apply(h, s, Check(q)); q in n.runs && n.runs[q].pc.Succeeded? && n.files == s.files
  {
    hide IsSha256, ObjectName;
  }

  /**
   Repeats are idle: once a run with a receipt has succeeded, every run with that receipt that looks at
   the destination from then on succeeds at that look and changes no file, and no temporary file is
   made for the object any more except by runs that had looked before.
   */
  lemma {:induction false} RepeatIsIdle(h: Hash, trace: seq<State>, actions: seq<Action>, j: nat, k: nat, p: nat, q: nat)
    requires Execution(h, trace, actions) && ConsistentRoot(h, trace[0]) && j <= k < |actions|
    requires p in trace[j].runs && trace[j].runs[p].pc.Succeeded?
    requires q in trace[k].runs && trace[k].runs[q].r == trace[j].runs[p].r
    ensures actions[k] == Check(q) ==>
              q in trace[k + 1].runs && trace[k + 1].runs[q].pc.Succeeded? && trace[k + 1].files == trace[k].files
    ensures actions[k].MakeTemp? && actions[k].p == q ==> OpeningFor(trace[j], q, trace[j].runs[p].r.sha)
  {
    hide IsSha256, ObjectName, ConsistentRoot, Apply, Inv, Keeps;
    var r := trace[j].runs[p].r;
    ExecutionKeeps(h, trace, actions, j);
    ExecutionKeeps(h, trace, actions, k);
    assert ValidReceipt(r);
    ReplicationIsSafe(h, trace, actions, j, k, r.sha, p);
    ReplicationIsSafe(h, trace, actions, j, j, r.sha, p);
    assert Stepped(h, trace[k], actions[k], trace[k + 1]);
    if actions[k] == Check(q) {
      CheckFindsIt(h, trace[k], q, r);
    }
    if actions[k].MakeTemp? && actions[k].p == q {
      assert OpeningFor(trace[k], q, r.sha);
      OpeningSince(h, trace, actions, j, k, r.sha, q);
    }
  }

  /** Two receipts with one hash but different sizes cannot both succeed. */
  lemma {:induction false} OneSizePerObject(h: Hash, s: State, p: nat, q: nat)
    requires Inv(h, s) && p in s.runs && q in s.runs
    requires s.runs[p].pc.Succeeded? && s.runs[q].pc.Succeeded? && s.runs[p].r.sha == s.runs[q].r.sha
    ensures s.runs[p].r.size == s.runs[q].r.size
  {
    assert RunOk(h, s, p) && RunOk(h, s, q);
  }
}
