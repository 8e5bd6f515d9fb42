/**
 Installing an authenticated trust store (cmd/aaa/trust_update_install.go, with
 internal/evidencebundle/trust_update.go and trust_state.go), down to single file-system steps.

 A directory has two contents: what processes see, and what would survive a loss of power.  A file
 that was not synced keeps its name across a loss of power but not necessarily its bytes; a
 directory change that was not synced may or may not survive, name by name.
 */
module TrustInstall {
  import opened Common
  import opened Lines
  import opened Statements

  const STATE_FILE := "trust-update-state.json"
  const STATE_SCHEMA := "aaa-evidence-trust-update-state-v1"
  const TEMP_PREFIX := ".trust-update-state-"
  const MAX_STORE_BYTES := 1048576
  const MAX_STATE_BYTES := 4096
  const SEQUENCE_BOUND := 0x1_0000_0000_0000_0000 // sequences are 64-bit

  // ------------------------------------------------ the file system

  datatype File = File(content: string, synced: bool)

  type Dir = map<string, File>

  datatype Disk = Disk(live: Dir, durable: Dir)

  datatype Op =
    | Create(name: string)
    | Write(name: string, content: string)
    | Fsync(name: string)
    | SyncDir
    | Rename(from: string, to: string)
    | Remove(name: string)

  function Do(d: Disk, op: Op): Disk {
    match op
    case Create(name) => d.(live := d.live[name := File("", false)])
    case Write(name, content) => d.(live := d.live[name := File(content, false)])
    case Fsync(name) => if name in d.live then d.(live := d.live[name := d.live[name].(synced := true)]) else d
    case SyncDir => d.(durable := d.live)
    case Rename(from, to) => if from in d.live then d.(live := d.live[to := d.live[from]] - {from}) else d
    case Remove(name) => d.(live := d.live - {name})
  }

  function DoAll(d: Disk, ops: seq<Op>): Disk
    decreases |ops|
  {
    if ops == [] then d else DoAll(Do(d, ops[0]), ops[1..])
  }

  /** After a loss of power `g` is what is left of `f`. */
  predicate Survives(f: File, g: File) {
    g.synced && (f.synced ==> g.content == f.content)
  }

  /** `r` is a directory a loss of power may leave. */
  ghost predicate PowerLoss(d: Disk, r: Dir) {
    && (forall n :: n in r ==> (n in d.live && Survives(d.live[n], r[n])) || (n in d.durable && Survives(d.durable[n], r[n])))
    && (forall n :: n in d.live && n in d.durable ==> n in r)
  }

  // ------------------------------------------------ documents

  datatype TrustState = TrustState(schema: string, sequence: nat, storeSha: string, storeFile: string, rootKey: string)

  datatype Update = Update(schema: string, algorithm: string, sequence: nat, storeSha: string, rootKey: string, signature: string)

  datatype Library = Library(
    sha: string -> string,
    storeOk: string -> bool,
    checkSignature: (string, string, string) -> bool,
    encodeState: TrustState -> string,
    decodeState: string -> Option<TrustState>)

  /** `TrustStoreFilename`, for a sequence above zero. */
  function StoreFilename(sequence: nat): string {
    "trust-store-" + Padded(sequence, 20) + ".json"
  }

  /** `TrustUpdateState.Validate`. */
  predicate ValidState(st: TrustState) {
    && st.schema == STATE_SCHEMA && 0 < st.sequence < SEQUENCE_BOUND
    && IsSha256(st.storeSha) && IsSha256(st.rootKey)
    && st.storeFile == StoreFilename(st.sequence)
  }

  /** Strict decoding yields only valid states; deterministic encoding of a valid state is read back. */
  ghost predicate Sound(lib: Library) {
    && (forall s :: lib.decodeState(s).Some? ==> ValidState(lib.decodeState(s).value))
    && (forall st :: ValidState(st) ==>
          lib.decodeState(lib.encodeState(st)) == Some(st) && |lib.encodeState(st)| <= MAX_STATE_BYTES)
    && !lib.storeOk("")
  }

  /** `TrustUpdate.Validate`. */
  predicate ValidUpdate(u: Update) {
    && u.schema == TRUST_SCHEMA && u.algorithm == ED25519 && 0 < u.sequence < SEQUENCE_BOUND
    && IsSha256(u.storeSha) && IsSha256(u.rootKey)
    && |u.signature| == 128 && IsHex(u.signature)
  }

  /** `VerifyTrustStoreUpdate` succeeds. */
  predicate UpdateAccepted(lib: Library, store: string, u: Update, pinnedRoot: string, currentSequence: nat) {
    && ValidUpdate(u)
    && |pinnedRoot| == 32
    && u.sequence > currentSequence
    && lib.storeOk(store)
    && lib.sha(pinnedRoot) == u.rootKey
    && lib.sha(store) == u.storeSha
    && lib.checkSignature(pinnedRoot, Message(TrustUpdate(u.sequence, u.storeSha, u.rootKey)), u.signature)
  }

  // ------------------------------------------------ loading

  datatype Loaded = NoState | State(st: TrustState) | Broken

  /** The store file a state names is there, whole, with the recorded hash. */
  predicate Backed(lib: Library, dir: Dir, st: TrustState) {
    && st.storeFile in dir
    && |dir[st.storeFile].content| <= MAX_STORE_BYTES
    && lib.sha(dir[st.storeFile].content) == st.storeSha
    && lib.storeOk(dir[st.storeFile].content)
  }

  /** `loadInstalledTrustState`. */
  function Load(lib: Library, dir: Dir): Loaded {
    if STATE_FILE !in dir then NoState
    else if |dir[STATE_FILE].content| > MAX_STATE_BYTES then Broken
    else
      match lib.decodeState(dir[STATE_FILE].content)
      case None => Broken
      case Some(st) => if Backed(lib, dir, st) then State(st) else Broken
  }

  // ------------------------------------------------ installing

  /**
   One run of the installer: its inputs, the random name of its temporary file, and how much of each
   file had been written when it might be interrupted inside a write.
   */
  datatype Attempt = Attempt(store: string, update: Update, pinnedRoot: string, temp: string, partStore: string, partState: string)

  /** A name `os.CreateTemp` may pick. */
  predicate TempName(d: Disk, name: string) {
    TEMP_PREFIX <= name && name !in d.live
  }

  function CurrentSequence(l: Loaded): nat {
    if l.State? then l.st.sequence else 0
  }

  /** The checks before anything is written. */
  predicate Admitted(lib: Library, d: Disk, a: Attempt) {
    var current := Load(lib, d.live);
    && !current.Broken?
    && |a.store| <= MAX_STORE_BYTES
    && (current.State? ==> current.st.rootKey == lib.sha(a.pinnedRoot))
    && UpdateAccepted(lib, a.store, a.update, a.pinnedRoot, CurrentSequence(current))
  }

  function NewState(u: Update): TrustState {
    TrustState(STATE_SCHEMA, u.sequence, u.storeSha, StoreFilename(u.sequence), u.rootKey)
  }

  /** `writeImmutableOrConfirm`: the steps when the file is not there yet. */
  function StoreOps(d: Disk, a: Attempt): seq<Op> {
    var name := StoreFilename(a.update.sequence);
    if name in d.live then [] else [Create(name), Write(name, a.partStore), Write(name, a.store), Fsync(name)]
  }

  /** `syncDirectory`, `atomicReplaceFile`, `syncDirectory`. */
  function StateOps(lib: Library, a: Attempt): seq<Op> {
    [SyncDir, Create(a.temp), Write(a.temp, a.partState), Write(a.temp, lib.encodeState(NewState(a.update))), Fsync(a.temp),
     Rename(a.temp, STATE_FILE), SyncDir]
  }

  /** The store path is free, or already holds exactly these bytes. */
  predicate StorePathUsable(d: Disk, a: Attempt) {
    var name := StoreFilename(a.update.sequence);
    name in d.live ==> |d.live[name].content| <= MAX_STORE_BYTES && d.live[name].content == a.store
  }

  /** The file-system steps of one run, in order; none when it refuses the update. */
  function InstallOps(lib: Library, d: Disk, a: Attempt): seq<Op> {
    if Admitted(lib, d, a) && StorePathUsable(d, a) then StoreOps(d, a) + StateOps(lib, a) else []
  }

  /** What is removed again when step k of a run fails: a file this run created and has not completed. */
  function Cleanup(d: Disk, a: Attempt, k: nat): seq<Op> {
    var s := |StoreOps(d, a)|;
    if 1 <= k < s then [Remove(StoreFilename(a.update.sequence))]
    else if s + 2 <= k <= s + 5 then [Remove(a.temp)]
    else []
  }

  /** The steps of a run whose step `fault` fails, if there is such a step. */
  function RunOps(lib: Library, d: Disk, a: Attempt, fault: nat): seq<Op> {
    var ops := InstallOps(lib, d, a);
    if fault < |ops| then ops[..fault] + Cleanup(d, a, fault) else ops
  }

  class StateRoot {
    var live: Dir
    var durable: Dir

    ghost function View(): Disk
      reads this
    {
      Disk(live, durable)
    }

    constructor (d: Disk)
      ensures View() == d
    {
      live, durable := d.live, d.durable;
    }

    method Step(op: Op)
      modifies this
      ensures View() == Do(old(View()), op)
    {
      match op {
        case Create(name) => live := live[name := File("", false)];
        case Write(name, content) => live := live[name := File(content, false)];
        case Fsync(name) => if name in live { live := live[name := live[name].(synced := true)]; }
        case SyncDir => durable := live;
        case Rename(from, to) => if from in live { live := live[to := live[from]] - {from}; }
        case Remove(name) => live := live - {name};
      }
    }

    /** Steps one after another, up to one that fails. */
    method Steps(ops: seq<Op>, fault: nat) returns (ok: bool)
      modifies this
      ensures ok <==> fault >= |ops|
      ensures View() == DoAll(old(View()), if ok then ops else ops[..fault])
    {
      hide Do, DoAll;
      var i := 0;
      ghost var d := View();
      NoSteps(d);
      assert ops[..0] == [];
      while i < |ops|
        invariant 0 <= i <= |ops| && i <= fault
        invariant View() == DoAll(d, ops[..i])
      {
        if i == fault {
          return false;
        }
        Step(ops[i]);
        DoAllSnoc(d, ops, i);
        i := i + 1;
      }
      assert ops[..|ops|] == ops;
      ok := true;
    }

    /**
     `writeImmutableOrConfirm`: an existing file is compared and nothing else; a new one is removed
     again if writing or syncing it fails.
     */
    method WriteImmutableOrConfirm(name: string, store: string, part: string, fault: nat) returns (ok: bool)
      modifies this
      ensures name in old(live) ==> View() == old(View())
      ensures name in old(live) ==>
                (ok <==> |old(live)[name].content| <= MAX_STORE_BYTES && old(live)[name].content == store)
      ensures name !in old(live) ==>
                var ops := [Create(name), Write(name, part), Write(name, store), Fsync(name)];
                && (ok <==> fault >= 4)
                && View() == DoAll(old(View()), if ok then ops else if fault == 0 then [] else ops[..fault] + [Remove(name)])
    {
      hide Do, DoAll;
      if name in live {
        return |live[name].content| <= MAX_STORE_BYTES && live[name].content == store;
      }
      ghost var d := View();
      ghost var ops := [Create(name), Write(name, part), Write(name, store), Fsync(name)];
      ok := Steps([Create(name), Write(name, part), Write(name, store), Fsync(name)], fault);
      if !ok && fault > 0 {
        Step(Remove(name));
        DoAllConcat(d, ops[..fault], [Remove(name)]);
        OneStep(DoAll(d, ops[..fault]), Remove(name));
      }
      assert fault == 0 ==> ops[..fault] == [];
    }

    /** `atomicReplaceFile`: the temporary file is removed again if anything after creating it fails. */
    method AtomicReplaceFile(temp: string, name: string, content: string, part: string, fault: nat) returns (ok: bool)
      modifies this
      ensures var ops := [Create(temp), Write(temp, part), Write(temp, content), Fsync(temp), Rename(temp, name)];
              && (ok <==> fault >= 5)
              && View() == DoAll(old(View()), if ok then ops else if fault == 0 then [] else ops[..fault] + [Remove(temp)])
    {
      hide Do, DoAll;
      ghost var d := View();
      ghost var ops := [Create(temp), Write(temp, part), Write(temp, content), Fsync(temp), Rename(temp, name)];
      ok := Steps([Create(temp), Write(temp, part), Write(temp, content), Fsync(temp), Rename(temp, name)], fault);
      if !ok && fault > 0 {
        Step(Remove(temp));
        DoAllConcat(d, ops[..fault], [Remove(temp)]);
        OneStep(DoAll(d, ops[..fault]), Remove(temp));
      }
      assert fault == 0 ==> ops[..fault] == [];
    }

    /** The core of `runTrustUpdateInstall`: load, verify, install; step `fault` fails, if the run gets there. */
    method Install(lib: Library, a: Attempt, fault: nat) returns (installed: bool)
      modifies this
      ensures View() == DoAll(old(View()), RunOps(lib, old(View()), a, fault))
      ensures installed <==> 0 < |InstallOps(lib, old(View()), a)| <= fault
    {
      hide UpdateAccepted, Do, DoAll, StoreFilename, NewState, Cleanup;
      ghost var d := View();
      NoSteps(d);
      var current := Load(lib, live);
      if current.Broken? || |a.store| > MAX_STORE_BYTES || (current.State? && current.st.rootKey != lib.sha(a.pinnedRoot)) {
        return false;
      }
      if !UpdateAccepted(lib, a.store, a.update, a.pinnedRoot, CurrentSequence(current)) {
        return false;
      }
      ghost var first := StoreOps(d, a);
      var missing := if StoreFilename(a.update.sequence) in live then 0 else 4;
      var ok := WriteImmutableOrConfirm(StoreFilename(a.update.sequence), a.store, a.partStore, fault);
      if !ok {
        StoreFault(lib, d, a, fault);
        return false;
      }
      ghost var e := View();
      assert e == DoAll(d, first) && |first| == missing && fault >= |first|;
      installed := InstallState(lib, d, a, fault - missing);
      StateFault(lib, d, a, fault);
    }

    /** The second half of an installation: sync the directory, replace the state file, sync again. */
    method InstallState(lib: Library, ghost d: Disk, a: Attempt, fault: nat) returns (ok: bool)
      modifies this
      ensures ok <==> fault >= 7
      ensures View() == DoAll(old(View()), StateRunOps(lib, a, fault))
    {
      hide Do, DoAll, NewState;
      ghost var e := View();
      NoSteps(e);
      if fault == 0 {
        return false;
      }
      Step(SyncDir);
      OneStep(e, SyncDir);
      ghost var f := View();
      var content := lib.encodeState(NewState(a.update));
      ok := AtomicReplaceFile(a.temp, STATE_FILE, content, a.partState, fault - 1);
      ghost var replace := ReplaceOps(lib, a);
      if !ok {
        ReplaceFault(lib, a, fault);
        DoAllConcat(e, [SyncDir], if fault == 1 then [] else replace[..fault - 1] + [Remove(a.temp)]);
        return false;
      }
      ghost var g := View();
      DoAllConcat(e, [SyncDir], replace);
      assert StateOps(lib, a) == [SyncDir] + replace + [SyncDir];
      assert StateOps(lib, a)[..6] == [SyncDir] + replace;
      if fault == 6 {
        return false;
      }
      Step(SyncDir);
      DoAllConcat(e, [SyncDir] + replace, [SyncDir]);
      OneStep(g, SyncDir);
      ok := true;
    }
  }

  /** `atomicReplaceFile` of the state file. */
  function ReplaceOps(lib: Library, a: Attempt): seq<Op> {
    [Create(a.temp), Write(a.temp, a.partState), Write(a.temp, lib.encodeState(NewState(a.update))), Fsync(a.temp),
     Rename(a.temp, STATE_FILE)]
  }

  lemma {:induction false} ReplaceFault(lib: Library, a: Attempt, fault: nat)
    requires 1 <= fault <= 5
    ensures StateRunOps(lib, a, fault)
         == [SyncDir] + if fault == 1 then [] else ReplaceOps(lib, a)[..fault - 1] + [Remove(a.temp)]
  {
    hide NewState;
    assert StateOps(lib, a) == [SyncDir] + ReplaceOps(lib, a) + [SyncDir];
    assert StateOps(lib, a)[..fault] == [SyncDir] + ReplaceOps(lib, a)[..fault - 1];
  }

  /** The second half of `RunOps`. */
  function StateRunOps(lib: Library, a: Attempt, fault: nat): seq<Op> {
    if fault >= 7 then StateOps(lib, a)
    else if 2 <= fault <= 5 then StateOps(lib, a)[..fault] + [Remove(a.temp)]
    else StateOps(lib, a)[..fault]
  }

  lemma {:induction false} StoreFault(lib: Library, d: Disk, a: Attempt, fault: nat)
    requires Admitted(lib, d, a)
    requires if StoreFilename(a.update.sequence) in d.live then !StorePathUsable(d, a) else fault < 4
    ensures RunOps(lib, d, a, fault) ==
            if StoreFilename(a.update.sequence) in d.live || fault == 0 then []
            else StoreOps(d, a)[..fault] + [Remove(StoreFilename(a.update.sequence))]
    ensures !(0 < |InstallOps(lib, d, a)| <= fault)
  {
    hide UpdateAccepted, Admitted, StoreFilename;
    if StoreFilename(a.update.sequence) !in d.live {
      assert InstallOps(lib, d, a)[..fault] == StoreOps(d, a)[..fault];
    }
  }

  lemma {:induction false} StateFault(lib: Library, d: Disk, a: Attempt, fault: nat)
    requires Admitted(lib, d, a) && StorePathUsable(d, a) && fault >= |StoreOps(d, a)|
    ensures DoAll(DoAll(d, StoreOps(d, a)), StateRunOps(lib, a, fault - |StoreOps(d, a)|)) == DoAll(d, RunOps(lib, d, a, fault))
    ensures |InstallOps(lib, d, a)| == |StoreOps(d, a)| + 7
  {
    hide UpdateAccepted, Admitted, StoreFilename, Do, DoAll, NewState, StoreOps;
    var x, y := StoreOps(d, a), StateOps(lib, a);
    DoAllConcat(d, x, StateRunOps(lib, a, fault - |x|));
    assert |y| == 7;
    var k := fault - |x|;
    if k < 7 {
      assert (x + y)[..fault] == x + y[..k];
      assert x + (y[..k] + [Remove(a.temp)]) == x + y[..k] + [Remove(a.temp)];
      assert x + y[..k] + [] == x + y[..k];
    }
  }

  lemma {:induction false} DoAllSnoc(d: Disk, ops: seq<Op>, i: nat)
    requires i < |ops|
    ensures DoAll(d, ops[..i + 1]) == Do(DoAll(d, ops[..i]), ops[i])
  {
    hide Do, DoAll;
    assert ops[..i + 1] == ops[..i] + [ops[i]];
    DoAllConcat(d, ops[..i], [ops[i]]);
    OneStep(DoAll(d, ops[..i]), ops[i]);
  }

  lemma {:induction false} NoSteps(d: Disk)
    ensures DoAll(d, []) == d
  {
  }

  lemma {:induction false} OneStep(d: Disk, op: Op)
    ensures DoAll(d, [op]) == Do(d, op)
  {
  }

  lemma {:induction false} FourSteps(d: Disk, a: Op, b: Op, c: Op, e: Op)
    ensures DoAll(d, [a, b, c, e]) == Do(Do(Do(Do(d, a), b), c), e)
  {
    hide Do;
    assert [a, b, c, e][1..] == [b, c, e] && [b, c, e][1..] == [c, e] && [c, e][1..] == [e] && [e][1..] == [];
    assert DoAll(Do(d, a), [b, c, e]) == DoAll(Do(Do(d, a), b), [c, e]);
    assert DoAll(Do(Do(d, a), b), [c, e]) == DoAll(Do(Do(Do(d, a), b), c), [e]);
  }

  lemma {:induction false} DoAllConcat(d: Disk, x: seq<Op>, y: seq<Op>)
    ensures DoAll(d, x + y) == DoAll(DoAll(d, x), y)
    decreases |x|
  {
    hide Do;
    if x == [] {
      assert x + y == y;
    } else {
      assert (x + y)[1..] == x[1..] + y;
      DoAllConcat(Do(d, x[0]), x[1..], y);
    }
  }
}
