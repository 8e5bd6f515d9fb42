/**
 Publishing content-addressed evidence replicas (cmd/aaa/evidence_replica.go and
 internal/evidencereplica/model.go): concurrent runs, each of which may die between any two steps.
 */
module ReplicaStore {
  import opened Statements

  type Hash = string -> string

  const OBJECTS := "aaa-replica-v1/objects/sha256/"
  const TEMP := ".aaa-replica-"

  /** The directory of an object: fan-out by the first two digits. */
  function ObjectDir(sha: string): string
    requires |sha| >= 2
  {
    OBJECTS + sha[..2] + "/"
  }

  /** `ObjectName`, for a valid SHA-256. */
  function ObjectName(sha: string): string
    requires IsSha256(sha)
  {
    ObjectDir(sha) + sha
  }

  datatype Receipt = Receipt(sha: string, size: nat)

  /** What receipt validation guarantees here. */
  predicate ValidReceipt(r: Receipt) {
    IsSha256(r.sha)
  }

  predicate MatchesReceipt(h: Hash, content: string, r: Receipt) {
    h(content) == r.sha && |content| == r.size
  }

  type Files = map<string, string>

  // ------------------------------------------------ one run alone

  /**
   What gets in the way of a run: making directories or reading the destination; opening the source or
   making the temporary file; copying, or the source changing meanwhile; linking; hashing the published
   object again or syncing its directory.
   */
  datatype Trouble = Calm | CannotLook | CannotOpen | CannotCopy(part: string) | CannotLink | CannotConfirm

  /** The files of a replica root, as a run that meets nobody else finds and leaves them. */
  class ReplicaRoot {
    var files: Files

    constructor (f: Files)
      ensures files == f
    {
      files := f;
    }

    /**
     `replicateObject`.  It succeeds exactly when nothing gets in the way and the object is already there
     and right, or is missing and the source gives the right bytes.  Only the object itself can be added:
     also when confirming it fails after it was linked.  A temporary file is left behind only if removing
     it fails.
     */
    method ReplicateObject(h: Hash, r: Receipt, source: string, temp: string, trouble: Trouble, removed: bool) returns (ok: bool)
      requires ValidReceipt(r) && temp !in files && temp != ObjectName(r.sha)
      modifies this
      ensures ok <==> if ObjectName(r.sha) in old(files) then !trouble.CannotLook? && MatchesReceipt(h, old(files)[ObjectName(r.sha)], r)
                      else trouble.Calm? && MatchesReceipt(h, source, r)
      ensures files - {temp} == if ObjectName(r.sha) !in old(files) && MatchesReceipt(h, source, r) && (trouble.Calm? || trouble.CannotConfirm?)
                                then old(files)[ObjectName(r.sha) := source] else old(files)
      ensures temp in files <==> !removed && ObjectName(r.sha) !in old(files) && !trouble.CannotLook? && !trouble.CannotOpen?
      ensures temp in files ==> files[temp] == if trouble.CannotCopy? then trouble.part else source
    {
      var destination := ObjectName(r.sha);
      if trouble.CannotLook? {
        return false;
      }
      if destination in files {
        return MatchesReceipt(h, files[destination], r);
      }
      if trouble.CannotOpen? {
        return false;
      }
      files := files[temp := if trouble.CannotCopy? then trouble.part else source];
      ok := !trouble.CannotCopy? && MatchesReceipt(h, source, r) && !trouble.CannotLink?;
      if ok {
        files := files[destination := files[temp]];
      }
      if removed {
        files := files - {temp};
      }
      ok := ok && !trouble.CannotConfirm? && MatchesReceipt(h, files[destination], r);
    }
  }

  // ------------------------------------------------ many runs at once

  datatype Pc =
    | Checking                 // before looking at the destination
    | Opening                  // destination was missing
    | Copying(temp: string)    // temporary file created
    | Copied(temp: string)     // bytes complete, checked and synced
    | Published(temp: string)  // linked, or an equal object found there
    | Verifying                // temporary file removed
    | Failing(temp: string)    // refused; temporary file to be removed
    | Succeeded
    | Refused

  datatype Run = Run(r: Receipt, pc: Pc)

  datatype State = State(files: Files, runs: map<nat, Run>)

  datatype Action =
    | Begin(p: nat, r: Receipt)
    | Check(p: nat)
    | MakeTemp(p: nat, temp: string)
    | CopySome(p: nat, part: string)
    | CopyAll(p: nat, source: string, stable: bool)
    | Link(p: nat)
    | RemoveTemp(p: nat, removed: bool)
    | Verify(p: nat)
    | Fail(p: nat)
    | Die(p: nat)

  /** A name `os.CreateTemp` may pick in the object's directory. */
  predicate TempFor(s: State, r: Receipt, temp: string) {
    |r.sha| >= 2 && ObjectDir(r.sha) + TEMP <= temp && temp !in s.files
  }

  predicate At(s: State, p: nat) {
    p in s.runs
  }

  predicate HasEnded(pc: Pc) {
    pc.Succeeded? || pc.Refused?
  }

  predicate Enabled(s: State, a: Action) {
    match a
    case Begin(p, r) => p !in s.runs && ValidReceipt(r)
    case Check(p) => At(s, p) && s.runs[p].pc.Checking?
    case MakeTemp(p, temp) => At(s, p) && s.runs[p].pc.Opening? && TempFor(s, s.runs[p].r, temp)
    case CopySome(p, _) => At(s, p) && s.runs[p].pc.Copying?
    case CopyAll(p, _, _) => At(s, p) && s.runs[p].pc.Copying?
    case Link(p) => At(s, p) && s.runs[p].pc.Copied?
    case RemoveTemp(p, _) => At(s, p) && (s.runs[p].pc.Published? || s.runs[p].pc.Failing?)
    case Verify(p) => At(s, p) && s.runs[p].pc.Verifying?
    case Fail(p) => At(s, p) && !HasEnded(s.runs[p].pc) && !s.runs[p].pc.Published? && !s.runs[p].pc.Failing?
    case Die(p) => At(s, p)
  }

  function Goto(s: State, p: nat, pc: Pc): State
    requires p in s.runs
  {
    s.(runs := s.runs[p := s.runs[p].(pc := pc)])
  }

  /** `hashRegularFile` of the destination against the receipt. */
  predicate DestinationOk(h: Hash, s: State, r: Receipt)
    requires ValidReceipt(r)
  {
    ObjectName(r.sha) in s.files && MatchesReceipt(h, s.files[ObjectName(r.sha)], r)
  }

  predicate AllValid(s: State) {
    forall p :: p in s.runs ==> ValidReceipt(s.runs[p].r)
  }

  function Apply(h: Hash, s: State, a: Action): State
    requires Enabled(s, a) && AllValid(s)
  {
    match a
    case Begin(p, r) => s.(runs := s.runs[p := Run(r, Checking)])
    case Check(p) =>
      var r := s.runs[p].r;
      if ObjectName(r.sha) !in s.files then Goto(s, p, Opening)
      else Goto(s, p, if DestinationOk(h, s, r) then Succeeded else Refused)
    case MakeTemp(p, temp) => Goto(s, p, Copying(temp)).(files := s.files[temp := ""])
    case CopySome(p, part) => s.(files := s.files[s.runs[p].pc.temp := part])
    case CopyAll(p, source, stable) =>
      var temp := s.runs[p].pc.temp;
      Goto(s, p, if stable && MatchesReceipt(h, source, s.runs[p].r) then Copied(temp) else Failing(temp))
        .(files := s.files[temp := source])
    case Link(p) =>
      var r, temp := s.runs[p].r, s.runs[p].pc.temp;
      if ObjectName(r.sha) !in s.files then
        Goto(s, p, Published(temp)).(files := if temp in s.files then s.files[ObjectName(r.sha) := s.files[temp]] else s.files)
      else Goto(s, p, if DestinationOk(h, s, r) then Published(temp) else Failing(temp))
    case RemoveTemp(p, removed) =>
      Goto(s, p, if s.runs[p].pc.Published? then Verifying else Refused)
        .(files := if removed then s.files - {s.runs[p].pc.temp} else s.files)
    case Verify(p) => Goto(s, p, if DestinationOk(h, s, s.runs[p].r) then Succeeded else Refused)
    case Fail(p) =>
      var pc := s.runs[p].pc;
      Goto(s, p, if pc.Copying? || pc.Copied? then Failing(pc.temp) else Refused)
    case Die(p) => s.(runs := s.runs - {p})
  }

  // ------------------------------------------------ names

  lemma {:induction false} ObjectNameInjective(a: string, b: string)
    requires IsSha256(a) && IsSha256(b) && ObjectName(a) == ObjectName(b)
    ensures a == b
  {
    assert |ObjectDir(a)| == |ObjectDir(b)|;
    assert a == ObjectName(a)[|ObjectDir(a)|..] && b == ObjectName(b)[|ObjectDir(b)|..];
  }

  /** No temporary name is an object name: one base name starts with a dot, the other with a hex digit. */
  lemma {:induction false} TempIsNoObject(sha: string, temp: string, other: string)
    requires IsSha256(sha) && ObjectDir(sha) + TEMP <= temp && IsSha256(other)
    ensures temp != ObjectName(other)
  {
    var k := |ObjectDir(sha)|;
    assert |ObjectDir(other)| == k;
    assert temp[k] == (ObjectDir(sha) + TEMP)[k] == '.';
    assert ObjectName(other)[k] == other[0];
  }

  // ------------------------------------------------ invariant

  predicate HasTemp(pc: Pc) {
    pc.Copying? || pc.Copied? || pc.Published? || pc.Failing?
  }

  /** Every file at an object name hashes to that name. */
  ghost predicate ObjectsOk(h: Hash, s: State) {
    forall sha {:trigger IsSha256(sha)} :: IsSha256(sha) && ObjectName(sha) in s.files ==> h(s.files[ObjectName(sha)]) == sha
  }

  predicate RunOk(h: Hash, s: State, p: nat) {
    p in s.runs ==>
      var r, pc := s.runs[p].r, s.runs[p].pc;
      && ValidReceipt(r)
      && (HasTemp(pc) ==> ObjectDir(r.sha) + TEMP <= pc.temp && pc.temp in s.files)
      && (pc.Copied? ==> MatchesReceipt(h, s.files[pc.temp], r))
      && (pc.Published? || pc.Verifying? || pc.Succeeded? ==> DestinationOk(h, s, r))
  }

  /** Temporary files are not shared. */
  predicate Apart(s: State, p: nat, q: nat) {
    p in s.runs && q in s.runs && p != q && HasTemp(s.runs[p].pc) && HasTemp(s.runs[q].pc) ==>
      s.runs[p].pc.temp != s.runs[q].pc.temp
  }

  ghost predicate Inv(h: Hash, s: State) {
    && ObjectsOk(h, s)
    && (forall p: nat :: RunOk(h, s, p))
    && (forall p: nat, q: nat :: Apart(s, p, q))
  }

  lemma {:induction false} InvValid(h: Hash, s: State)
    requires Inv(h, s)
    ensures AllValid(s)
  {
    forall p | p in s.runs ensures ValidReceipt(s.runs[p].r) { assert RunOk(h, s, p); }
  }

  /** Published objects stay, byte for byte. */
  ghost predicate Keeps(s: State, n: State) {
    forall sha {:trigger IsSha256(sha)} :: IsSha256(sha) && ObjectName(sha) in s.files ==>
      ObjectName(sha) in n.files && n.files[ObjectName(sha)] == s.files[ObjectName(sha)]
  }
}
