/**
 Crash safety of trust-store installation: wherever a run is stopped, by the death of the process or
 by a loss of power, what is loaded next is the old state or the new one.
 */
module TrustSafety {
  import opened Common
  import opened Lines
  import opened Statements
  import opened TrustInstall

  // ------------------------------------------------ names

  lemma {:induction false} StoreFilenameInjective(m: nat, n: nat)
    requires StoreFilename(m) == StoreFilename(n)
    ensures m == n
  {
    var a, b := Padded(m, 20), Padded(n, 20);
    var prefix, suffix := "trust-store-", ".json";
    assert a == (prefix + a + suffix)[|prefix|..|prefix| + |a|];
    assert b == (prefix + b + suffix)[|prefix|..|prefix| + |b|];
    assert |a| == |b|;
    assert a == b;
    assert Value(a) == m && Value(b) == n;
  }

  lemma {:induction false} StoreFilenameIsItsOwn(n: nat, name: string)
    ensures StoreFilename(n) != STATE_FILE
    ensures TEMP_PREFIX <= name ==> name != StoreFilename(n) && name != STATE_FILE
  {
    assert |StoreFilename(n)| > |STATE_FILE|;
    assert StoreFilename(n)[0] == 't' && STATE_FILE[0] == 't' && TEMP_PREFIX[0] == '.';
  }

  // ------------------------------------------------ good disks

  /** The store a state names is whole, and synced, both live and durable. */
  predicate Anchored(lib: Library, d: Disk, st: TrustState) {
    && Backed(lib, d.live, st) && Backed(lib, d.durable, st)
    && d.live[st.storeFile].synced && d.durable[st.storeFile].synced
  }

  predicate DirGood(lib: Library, d: Disk, dir: Dir) {
    match Load(lib, dir)
    case Broken => false
    case NoState => true
    case State(st) => STATE_FILE in dir && dir[STATE_FILE].synced && ValidState(st) && Anchored(lib, d, st)
  }

  /** What survives a loss of power is never newer than what is seen, nor under another root key. */
  predicate Ordered(live: Loaded, durable: Loaded) {
    durable.State? ==> live.State? && live.st.rootKey == durable.st.rootKey && live.st.sequence >= durable.st.sequence
  }

  predicate Good(lib: Library, d: Disk) {
    && DirGood(lib, d, d.live) && DirGood(lib, d, d.durable)
    && Ordered(Load(lib, d.live), Load(lib, d.durable))
  }

  /** A store file that is synced live and durable. */
  predicate Settled(d: Disk, name: string, content: string) {
    && name != STATE_FILE && !(TEMP_PREFIX <= name)
    && name in d.live && d.live[name] == File(content, true)
    && name in d.durable && d.durable[name] == File(content, true)
  }

  ghost predicate KeepsSettled(d: Disk, e: Disk) {
    forall name, content :: Settled(d, name, content) ==> Settled(e, name, content)
  }

  /** Before the rename: the live state is still the old one. */
  ghost predicate Preparing(lib: Library, d: Disk, e: Disk) {
    && Good(lib, e)
    && Load(lib, e.live) == Load(lib, d.live)
    && (Load(lib, e.durable) == Load(lib, d.durable) || Load(lib, e.durable) == Load(lib, d.live))
    && KeepsSettled(d, e)
  }

  /** At any moment of an installation. */
  ghost predicate Within(lib: Library, d: Disk, e: Disk, next: TrustState) {
    && Good(lib, e)
    && (Load(lib, e.live) == Load(lib, d.live) || Load(lib, e.live) == State(next))
    && (Load(lib, e.durable) == Load(lib, d.durable) || Load(lib, e.durable) == Load(lib, d.live) || Load(lib, e.durable) == State(next))
    && KeepsSettled(d, e)
  }

  // ------------------------------------------------ single steps

  lemma {:induction false} LoadFrame(lib: Library, dir: Dir, x: string, f: File)
    requires x != STATE_FILE
    requires Load(lib, dir).State? ==> x != Load(lib, dir).st.storeFile
    requires x !in dir || !Load(lib, dir).Broken?
    requires !Load(lib, dir).Broken?
    ensures Load(lib, dir[x := f]) == Load(lib, dir)
  {
  }

  /** Creating, writing and syncing a file of a name that was free leaves every state alone. */
  lemma {:induction false} FreshNameStep(lib: Library, d: Disk, e: Disk, x: string, f: File)
    requires Good(lib, d) && Preparing(lib, d, e) && x !in d.live && x != STATE_FILE
    ensures Preparing(lib, d, e.(live := e.live[x := f]))
  {
    var g := e.(live := e.live[x := f]);
    LoadFrame(lib, e.live, x, f);
  }

  lemma {:induction false} SyncStep(lib: Library, d: Disk, e: Disk)
    requires Preparing(lib, d, e)
    ensures Preparing(lib, d, Do(e, SyncDir))
  {
  }

  lemma {:induction false} RenameStep(lib: Library, d: Disk, e: Disk, temp: string, next: TrustState)
    requires Sound(lib) && Good(lib, d) && Preparing(lib, d, e)
    requires temp != STATE_FILE && TEMP_PREFIX <= temp && temp != next.storeFile && temp !in d.live
    requires temp in e.live && e.live[temp] == File(lib.encodeState(next), true)
    requires ValidState(next) && Anchored(lib, e, next) && next.storeFile != STATE_FILE
    requires Load(lib, d.live).State? ==> Load(lib, d.live).st.rootKey == next.rootKey && Load(lib, d.live).st.sequence < next.sequence
    ensures Within(lib, d, Do(e, Rename(temp, STATE_FILE)), next)
    ensures Load(lib, Do(e, Rename(temp, STATE_FILE)).live) == State(next)
  {
    hide StoreFilename, IsSha256, KeepsSettled;
    var was := Load(lib, e.durable);
    if was.State? {
      StoreFilenameIsItsOwn(was.st.sequence, temp);
    }
    var g := Do(e, Rename(temp, STATE_FILE));
    RenamedStateLoads(lib, e, temp, next);
    RenameKeepsSettled(d, e, temp);
  }

  lemma {:induction false} RenamedStateLoads(lib: Library, e: Disk, temp: string, next: TrustState)
    requires Sound(lib) && ValidState(next) && Backed(lib, e.live, next)
    requires temp != STATE_FILE && temp != next.storeFile && next.storeFile != STATE_FILE
    requires temp in e.live && e.live[temp].content == lib.encodeState(next)
    ensures Load(lib, Do(e, Rename(temp, STATE_FILE)).live) == State(next)
  {
    hide ValidState;
    assert lib.decodeState(lib.encodeState(next)) == Some(next);
  }

  lemma {:induction false} RenameKeepsSettled(d: Disk, e: Disk, temp: string)
    requires KeepsSettled(d, e) && TEMP_PREFIX <= temp && temp != STATE_FILE
    ensures KeepsSettled(d, Do(e, Rename(temp, STATE_FILE)))
  {
    var g := Do(e, Rename(temp, STATE_FILE));
    forall name, content | Settled(d, name, content) ensures Settled(g, name, content) {
      assert Settled(e, name, content);
    }
  }

  lemma {:induction false} FinalSync(lib: Library, d: Disk, e: Disk, next: TrustState)
    requires Within(lib, d, e, next) && Load(lib, e.live) == State(next)
    ensures Within(lib, d, Do(e, SyncDir), next)
    ensures Load(lib, Do(e, SyncDir).live) == State(next) && Load(lib, Do(e, SyncDir).durable) == State(next)
  {
  }

  // ------------------------------------------------ the steps of one run

  /** If the store file was there already, its bytes were synced. */
  predicate ConfirmsSynced(d: Disk, a: Attempt) {
    var name := StoreFilename(a.update.sequence);
    name in d.live ==> d.live[name].synced
  }

  /** What an admitted attempt brings along. */
  ghost predicate Ready(lib: Library, d: Disk, a: Attempt) {
    && Sound(lib) && Good(lib, d)
    && Admitted(lib, d, a) && StorePathUsable(d, a) && TempName(d, a.temp)
    && ConfirmsSynced(d, a)
  }

  lemma {:induction false} NewStateFacts(lib: Library, d: Disk, a: Attempt)
    requires Ready(lib, d, a)
    ensures var next := NewState(a.update);
            && ValidState(next)
            && next.storeFile != STATE_FILE && next.storeFile != a.temp && a.temp != STATE_FILE
            && !(TEMP_PREFIX <= next.storeFile)
            && |a.store| <= MAX_STORE_BYTES && lib.sha(a.store) == next.storeSha && lib.storeOk(a.store)
            && (Load(lib, d.live).State? ==>
                  Load(lib, d.live).st.rootKey == next.rootKey && Load(lib, d.live).st.sequence < next.sequence)
  {
    StoreFilenameIsItsOwn(a.update.sequence, a.temp);
    StoreFilenameIsItsOwn(a.update.sequence, NewState(a.update).storeFile);
    hide StoreFilename, Padded, Message;
  }

  lemma {:induction false} TakeStep(d: Disk, ops: seq<Op>, k: nat)
    requires k < |ops|
    ensures DoAll(d, ops[..k + 1]) == Do(DoAll(d, ops[..k]), ops[k])
  {
    assert ops[..k + 1] == ops[..k] + [ops[k]];
    DoAllConcat(d, ops[..k], [ops[k]]);
    OneStep(DoAll(d, ops[..k]), ops[k]);
  }

  lemma {:induction false} StateOpsAre(lib: Library, a: Attempt)
    ensures var ops := StateOps(lib, a);
            && |ops| == 7
            && ops[0] == SyncDir && ops[1] == Create(a.temp) && ops[2] == Write(a.temp, a.partState)
            && ops[3] == Write(a.temp, lib.encodeState(NewState(a.update))) && ops[4] == Fsync(a.temp)
            && ops[5] == Rename(a.temp, STATE_FILE) && ops[6] == SyncDir
  {
  }

  lemma {:induction false} StoreOpsAre(d: Disk, a: Attempt)
    ensures var ops := StoreOps(d, a);
            var name := StoreFilename(a.update.sequence);
            if name in d.live then ops == []
            else
              && |ops| == 4
              && ops[0] == Create(name) && ops[1] == Write(name, a.partStore) && ops[2] == Write(name, a.store)
              && ops[3] == Fsync(name)
  {
    hide StoreFilename;
  }

  /** The store file is in place with the right bytes, and they are synced. */
  predicate StoreWritten(d: Disk, a: Attempt) {
    var name := StoreFilename(a.update.sequence);
    name in d.live && d.live[name] == File(a.store, true)
  }

  lemma {:induction false} StorePhase(lib: Library, d: Disk, a: Attempt, k: nat)
    requires Ready(lib, d, a) && k <= |StoreOps(d, a)|
    ensures var e := DoAll(d, StoreOps(d, a)[..k]);
            var name := StoreFilename(a.update.sequence);
            && Preparing(lib, d, e)
            && (k == |StoreOps(d, a)| ==> StoreWritten(e, a))
            && (k == 3 ==> name in e.live && e.live[name].content == a.store)
    decreases k
  {
    hide StoreFilename, DoAll, Admitted, Load, Good, StoreOps, StateOps, Preparing, Sound, NewState, Message;
    NewStateFacts(lib, d, a);
    StoreOpsAre(d, a);
    var ops := StoreOps(d, a);
    var name := StoreFilename(a.update.sequence);
    if k == 0 {
      NoSteps(d);
      assert ops[..0] == [];
      PreparingStarts(lib, d);
    } else {
      StorePhase(lib, d, a, k - 1);
      TakeStep(d, ops, k - 1);
      var e := DoAll(d, ops[..k - 1]);
      NewStoreName(a);
      FreshNameStep(lib, d, e, name, if k == 1 then File("", false) else if k == 2 then File(a.partStore, false) else File(a.store, k == 4));
    }
  }

  lemma {:induction false} NewStoreName(a: Attempt)
    ensures NewState(a.update).storeFile == StoreFilename(a.update.sequence)
  {
    hide StoreFilename;
  }

  lemma {:induction false} PreparingStarts(lib: Library, d: Disk)
    requires Good(lib, d)
    ensures Preparing(lib, d, d)
  {
  }

  /** With the store written, the remaining steps up to the rename. */
  lemma {:induction false} TempPhase(lib: Library, d: Disk, a: Attempt, e: Disk, k: nat)
    requires Ready(lib, d, a) && Preparing(lib, d, e) && StoreWritten(e, a) && k <= 5
    ensures var f := DoAll(e, StateOps(lib, a)[..k]);
            && Preparing(lib, d, f) && StoreWritten(f, a)
            && (k > 0 ==> StoreWritten(Disk(f.durable, f.durable), a))
            && (k >= 4 ==> a.temp in f.live && f.live[a.temp] == File(lib.encodeState(NewState(a.update)), k == 5))
    decreases k
  {
    hide StoreFilename, DoAll, Admitted, Load, Good, Sound, StorePathUsable, ConfirmsSynced, StateOps, StoreOps, Preparing, NewState, Message;
    NewStateFacts(lib, d, a);
    NewStoreName(a);
    StateOpsAre(lib, a);
    var ops := StateOps(lib, a);
    if k == 0 {
      NoSteps(e);
      assert ops[..0] == [];
    } else {
      TempPhase(lib, d, a, e, k - 1);
      var f := DoAll(e, ops[..k - 1]);
      TakeStep(e, ops, k - 1);
      if k == 1 {
        SyncStep(lib, d, f);
      } else {
        var content := if k == 2 then "" else if k == 3 then a.partState else lib.encodeState(NewState(a.update));
        FreshNameStep(lib, d, f, a.temp, File(content, k == 5));
      }
    }
  }

  /** Every stopping point of the second half, and where its end leaves the disk. */
  lemma {:induction false} StatePhase(lib: Library, d: Disk, a: Attempt, e: Disk, k: nat)
    requires Ready(lib, d, a) && Preparing(lib, d, e) && StoreWritten(e, a) && k <= 7
    ensures Within(lib, d, DoAll(e, StateOps(lib, a)[..k]), NewState(a.update))
    ensures k == 7 ==>
              var f := DoAll(e, StateOps(lib, a)[..k]);
              Load(lib, f.live) == State(NewState(a.update)) && f.durable == f.live
  {
    hide StoreFilename, DoAll, Admitted, Sound, StorePathUsable, ConfirmsSynced, Load, Good, NewState, StateOps, StoreOps, Message,
         StoreWritten, Preparing, Within;
    StateOpsAre(lib, a);
    var ops := StateOps(lib, a);
    if k <= 5 {
      TempPhase(lib, d, a, e, k);
      PreparingIsWithin(lib, d, DoAll(e, ops[..k]), NewState(a.update));
    } else {
      AfterRename(lib, d, a, e);
      if k == 7 {
        TakeStep(e, ops, 6);
        FinalSync(lib, d, DoAll(e, ops[..6]), NewState(a.update));
      }
    }
  }

  lemma {:induction false} PreparingIsWithin(lib: Library, d: Disk, e: Disk, next: TrustState)
    requires Preparing(lib, d, e)
    ensures Within(lib, d, e, next)
  {
    hide Load, Good, KeepsSettled;
  }

  lemma {:induction false} AfterRename(lib: Library, d: Disk, a: Attempt, e: Disk)
    requires Ready(lib, d, a) && Preparing(lib, d, e) && StoreWritten(e, a)
    ensures var f := DoAll(e, StateOps(lib, a)[..6]);
            Within(lib, d, f, NewState(a.update)) && Load(lib, f.live) == State(NewState(a.update))
  {
    hide StoreFilename, DoAll, Admitted, Sound, StorePathUsable, ConfirmsSynced, Load, Good, NewState, StateOps, StoreOps, Message,
         StoreWritten, Preparing, Within, ValidState, Anchored;
    var ops := StateOps(lib, a);
    var next := NewState(a.update);
    NewStateFacts(lib, d, a);
    UpdateSha(a);
    TempPhase(lib, d, a, e, 5);
    StateOpsAre(lib, a);
    TakeStep(e, ops, 5);
    var f := DoAll(e, ops[..5]);
    WrittenIsAnchored(lib, f, a);
    RenameStep(lib, d, f, a.temp, next);
  }

  lemma {:induction false} UpdateSha(a: Attempt)
    ensures NewState(a.update).storeSha == a.update.storeSha
  {
    hide StoreFilename;
  }

  lemma {:induction false} WrittenIsAnchored(lib: Library, f: Disk, a: Attempt)
    requires StoreWritten(f, a) && StoreWritten(Disk(f.durable, f.durable), a)
    requires |a.store| <= MAX_STORE_BYTES && lib.sha(a.store) == a.update.storeSha && lib.storeOk(a.store)
    ensures Anchored(lib, f, NewState(a.update))
  {
    hide StoreFilename;
  }

  /** Every stopping point of a whole run. */
  lemma {:induction false} InstallPhase(lib: Library, d: Disk, a: Attempt, k: nat)
    requires Ready(lib, d, a) && k <= |InstallOps(lib, d, a)|
    ensures var ops := InstallOps(lib, d, a);
            var f := DoAll(d, ops[..k]);
            && Within(lib, d, f, NewState(a.update))
            && (k == |ops| ==> Load(lib, f.live) == State(NewState(a.update)) && f.durable == f.live)
  {
    hide StoreFilename, DoAll, Sound, ConfirmsSynced, Load, Good, NewState, StateOps, StoreOps, Message,
         StoreWritten, Preparing, Within, StorePathUsable, Admitted;
    var x, y := StoreOps(d, a), StateOps(lib, a);
    var ops := InstallOps(lib, d, a);
    StateOpsAre(lib, a);
    StorePathConfirmed(lib, d, a);
    if k <= |x| {
      assert ops[..k] == x[..k];
      StorePhase(lib, d, a, k);
      PreparingIsWithin(lib, d, DoAll(d, x[..k]), NewState(a.update));
    } else {
      StorePhase(lib, d, a, |x|);
      assert x[..|x|] == x;
      var e := DoAll(d, x);
      StatePhase(lib, d, a, e, k - |x|);
      assert ops[..k] == x + y[..k - |x|];
      DoAllConcat(d, x, y[..k - |x|]);
    }
  }

  /** Up to the rename the old state is still the live one. */
  lemma {:induction false} BeforeRename(lib: Library, d: Disk, a: Attempt, k: nat)
    requires Ready(lib, d, a) && k <= |StoreOps(d, a)| + 5
    ensures |InstallOps(lib, d, a)| == |StoreOps(d, a)| + 7
    ensures Preparing(lib, d, DoAll(d, InstallOps(lib, d, a)[..k]))
  {
    hide StoreFilename, DoAll, Sound, ConfirmsSynced, Load, Good, NewState, StateOps, StoreOps, Message,
         StoreWritten, Preparing, StorePathUsable, Admitted;
    var x, y := StoreOps(d, a), StateOps(lib, a);
    var ops := InstallOps(lib, d, a);
    StateOpsAre(lib, a);
    StorePathConfirmed(lib, d, a);
    if k <= |x| {
      assert ops[..k] == x[..k];
      StorePhase(lib, d, a, k);
    } else {
      StorePhase(lib, d, a, |x|);
      assert x[..|x|] == x;
      TempPhase(lib, d, a, DoAll(d, x), k - |x|);
      assert ops[..k] == x + y[..k - |x|];
      DoAllConcat(d, x, y[..k - |x|]);
    }
  }

  /** Removing a name that was free at the start leaves every state alone. */
  lemma {:induction false} RemoveFreshStep(lib: Library, d: Disk, e: Disk, x: string)
    requires Good(lib, d) && Preparing(lib, d, e) && x !in d.live && x != STATE_FILE
    ensures Preparing(lib, d, Do(e, Remove(x)))
  {
    hide KeepsSettled, Load, ValidState, Backed;
    RemoveKeepsSettled(d, e, x);
    assert DirGood(lib, e, e.live) && DirGood(lib, e, e.durable);
    if Load(lib, e.live).State? {
      LiveStoreStays(lib, d, x);
    }
    LoadWithout(lib, e.live, x);
    if Load(lib, e.durable).State? {
      SurvivingStore(lib, d, e, x);
      AnchorWithout(lib, e, x, Load(lib, e.durable).st);
    }
    if Load(lib, e.live).State? {
      AnchorWithout(lib, e, x, Load(lib, e.live).st);
    }
  }

  lemma {:induction false} LiveStoreStays(lib: Library, d: Disk, x: string)
    requires Good(lib, d) && x !in d.live && Load(lib, d.live).State?
    ensures x != Load(lib, d.live).st.storeFile
  {
    hide Load, ValidState;
  }

  lemma {:induction false} AnchorWithout(lib: Library, e: Disk, x: string, st: TrustState)
    requires Anchored(lib, e, st) && x != st.storeFile
    ensures Anchored(lib, Do(e, Remove(x)), st)
  {
  }

  lemma {:induction false} RemoveKeepsSettled(d: Disk, e: Disk, x: string)
    requires KeepsSettled(d, e) && x !in d.live
    ensures KeepsSettled(d, Do(e, Remove(x)))
  {
    forall name, content | Settled(d, name, content) ensures Settled(Do(e, Remove(x)), name, content) {
      assert Settled(e, name, content);
    }
  }

  lemma {:induction false} LoadWithout(lib: Library, dir: Dir, x: string)
    requires x != STATE_FILE && (Load(lib, dir).State? ==> x != Load(lib, dir).st.storeFile) && !Load(lib, dir).Broken?
    ensures Load(lib, dir - {x}) == Load(lib, dir)
  {
  }

  /** The store of a durable state is not the file that is removed. */
  lemma {:induction false} SurvivingStore(lib: Library, d: Disk, e: Disk, x: string)
    requires Good(lib, d) && Preparing(lib, d, e) && x !in d.live && Load(lib, e.durable).State?
    ensures x != Load(lib, e.durable).st.storeFile
  {
  }

  /** A step that fails, and the cleaning up after it, is one more stopping point. */
  lemma {:induction false} FailedPhase(lib: Library, d: Disk, a: Attempt, k: nat)
    requires Ready(lib, d, a) && k < |InstallOps(lib, d, a)|
    ensures Within(lib, d, DoAll(d, RunOps(lib, d, a, k)), NewState(a.update))
  {
    hide StoreFilename, DoAll, Do, Sound, ConfirmsSynced, Load, Good, NewState, StateOps, StoreOps, Message,
         Preparing, Within, StorePathUsable, Admitted, InstallOps, Cleanup;
    var ops := InstallOps(lib, d, a);
    var e := DoAll(d, ops[..k]);
    CleanupRemovesFresh(lib, d, a, k);
    if Cleanup(d, a, k) == [] {
      assert ops[..k] + [] == ops[..k];
      InstallPhase(lib, d, a, k);
    } else {
      var x := Cleanup(d, a, k)[0].name;
      BeforeRename(lib, d, a, k);
      DoAllConcat(d, ops[..k], [Remove(x)]);
      OneStep(e, Remove(x));
      RemoveFreshStep(lib, d, e, x);
      PreparingIsWithin(lib, d, Do(e, Remove(x)), NewState(a.update));
    }
  }

  lemma {:induction false} CleanupRemovesFresh(lib: Library, d: Disk, a: Attempt, k: nat)
    requires Ready(lib, d, a)
    ensures Cleanup(d, a, k) != [] ==>
              && k <= |StoreOps(d, a)| + 5
              && Cleanup(d, a, k)[0].Remove? && Cleanup(d, a, k) == [Remove(Cleanup(d, a, k)[0].name)]
              && Cleanup(d, a, k)[0].name !in d.live && Cleanup(d, a, k)[0].name != STATE_FILE
  {
    hide StoreFilename, Sound, Good, Admitted, StorePathUsable, ConfirmsSynced;
    StoreFilenameIsItsOwn(a.update.sequence, a.temp);
  }

  lemma {:induction false} StorePathConfirmed(lib: Library, d: Disk, a: Attempt)
    requires Ready(lib, d, a)
    ensures InstallOps(lib, d, a) == StoreOps(d, a) + StateOps(lib, a)
    ensures StoreOps(d, a) == [] ==> StoreWritten(DoAll(d, []), a)
  {
    hide StoreFilename, Good, Sound, Admitted, StateOps;
  }

  // ------------------------------------------------ stops

  /**
   How a run ends: done; its step k failing, which makes it clean up; killed after k steps; or the
   power lost after k steps, leaving directory r.
   */
  datatype Stop = Done | Failed(k: nat) | Killed(k: nat) | PowerLost(k: nat, r: Dir)

  datatype Round = Round(a: Attempt, stop: Stop)

  ghost predicate Possible(lib: Library, d: Disk, o: Round) {
    var ops := InstallOps(lib, d, o.a);
    && TempName(d, o.a.temp)
    && match o.stop
       case Done => true
       case Failed(k) => k < |ops|
       case Killed(k) => k <= |ops|
       case PowerLost(k, r) => k <= |ops| && PowerLoss(DoAll(d, ops[..k]), r)
  }

  ghost function After(lib: Library, d: Disk, o: Round): Disk
    requires Possible(lib, d, o)
  {
    var ops := InstallOps(lib, d, o.a);
    match o.stop
    case Done => DoAll(d, ops)
    case Failed(k) => DoAll(d, RunOps(lib, d, o.a, k))
    case Killed(k) => DoAll(d, ops[..k])
    case PowerLost(_, r) => Disk(r, r)
  }

  lemma {:induction false} PowerLossKeepsFile(d: Disk, r: Dir, name: string)
    requires PowerLoss(d, r)
    requires name in d.live && name in d.durable && d.live[name].synced && d.durable[name].synced
    ensures name in r && r[name].synced && (r[name].content == d.live[name].content || r[name].content == d.durable[name].content)
  {
  }

  lemma {:induction false} PowerLossLoads(lib: Library, d: Disk, r: Dir)
    requires Good(lib, d) && PowerLoss(d, r)
    ensures Load(lib, r) == Load(lib, d.live) || Load(lib, r) == Load(lib, d.durable)
    ensures Good(lib, Disk(r, r))
  {
    hide ValidState;
    if STATE_FILE in r {
      var st := if STATE_FILE in d.live && Survives(d.live[STATE_FILE], r[STATE_FILE]) then Load(lib, d.live).st else Load(lib, d.durable).st;
      assert Anchored(lib, d, st);
      PowerLossKeepsFile(d, r, st.storeFile);
      assert Backed(lib, r, st);
    } else {
      assert STATE_FILE !in d.durable || STATE_FILE !in d.live;
    }
  }

  lemma {:induction false} PowerLossKeepsSettled(d: Disk, r: Dir)
    requires PowerLoss(d, r)
    ensures KeepsSettled(d, Disk(r, r))
  {
    forall name, content | Settled(d, name, content) ensures Settled(Disk(r, r), name, content) {
      PowerLossKeepsFile(d, r, name);
      assert r[name] == File(r[name].content, r[name].synced);
    }
  }

  lemma {:induction false} KeepsSettledTwice(a: Disk, b: Disk, c: Disk)
    requires KeepsSettled(a, b) && KeepsSettled(b, c)
    ensures KeepsSettled(a, c)
  {
    hide Settled;
  }

  /** The sequence that no crash can take back; 0 when there is none. */
  function Committed(lib: Library, d: Disk): nat {
    CurrentSequence(Load(lib, d.durable))
  }

  /** What one run, however it is stopped, does to a disk. */
  ghost predicate SafeChange(lib: Library, d: Disk, e: Disk, a: Attempt) {
    && Good(lib, e)
    && !Load(lib, e.live).Broken?
    && (Load(lib, e.live) == Load(lib, d.live) || Load(lib, e.live) == Load(lib, d.durable)
        || Load(lib, e.live) == State(NewState(a.update)))
    && Committed(lib, e) >= Committed(lib, d)
    && (Load(lib, d.durable).State? ==>
          Load(lib, e.live).State? && Load(lib, e.live).st.rootKey == Load(lib, d.durable).st.rootKey)
    && KeepsSettled(d, e)
  }

  lemma {:induction false} WithinIsSafe(lib: Library, d: Disk, e: Disk, a: Attempt)
    requires Good(lib, d) && Admitted(lib, d, a) && Within(lib, d, e, NewState(a.update))
    ensures SafeChange(lib, d, e, a)
  {
    hide StoreFilename, KeepsSettled, Message, Backed;
  }

  lemma {:induction false} PowerLostIsSafe(lib: Library, d: Disk, e: Disk, r: Dir, a: Attempt)
    requires Good(lib, d) && Admitted(lib, d, a) && Within(lib, d, e, NewState(a.update)) && PowerLoss(e, r)
    ensures SafeChange(lib, d, Disk(r, r), a)
  {
    hide StoreFilename, KeepsSettled, Message, Backed, PowerLoss;
    PowerLossLoads(lib, e, r);
    PowerLossKeepsSettled(e, r);
    KeepsSettledTwice(d, e, Disk(r, r));
  }

  lemma {:induction false} NothingIsSafe(lib: Library, d: Disk, a: Attempt)
    requires Good(lib, d)
    ensures SafeChange(lib, d, d, a)
  {
    hide StoreFilename;
  }

  lemma {:induction false} IdlePowerLossIsSafe(lib: Library, d: Disk, r: Dir, a: Attempt)
    requires Good(lib, d) && PowerLoss(d, r)
    ensures SafeChange(lib, d, Disk(r, r), a)
  {
    hide StoreFilename, Backed, PowerLoss;
    PowerLossLoads(lib, d, r);
    PowerLossKeepsSettled(d, r);
  }

  /**
   One run, stopped anywhere by completion, a failing step, a kill or a loss of power: the next load succeeds and sees
   the state seen before, the state that was durable before, or the new one.  The durable sequence
   never goes back, its root key never changes, and settled store files keep their bytes.  The one
   condition is that a store file that was already there had been synced.
   */
  lemma {:induction false} RoundIsSafe(lib: Library, d: Disk, o: Round)
    requires Sound(lib) && Good(lib, d) && Possible(lib, d, o) && ConfirmsSynced(d, o.a)
    ensures SafeChange(lib, d, After(lib, d, o), o.a)
    ensures o.stop.Done? && InstallOps(lib, d, o.a) != [] ==>
              Load(lib, After(lib, d, o).live) == State(NewState(o.a.update))
              && Committed(lib, After(lib, d, o)) == o.a.update.sequence
              && After(lib, d, o).live == After(lib, d, o).durable
  {
    hide StoreFilename, Sound, ConfirmsSynced, Good, StateOps, StoreOps, Message, Load,
         StorePathUsable, Admitted, SafeChange, Within, PowerLoss, DoAll, RunOps;
    var ops := InstallOps(lib, d, o.a);
    assert ops[..|ops|] == ops;
    NoSteps(d);
    if Admitted(lib, d, o.a) && StorePathUsable(d, o.a) {
      var k := if o.stop.Done? then |ops| else o.stop.k;
      InstallPhase(lib, d, o.a, k);
      WithinIsSafe(lib, d, DoAll(d, ops[..k]), o.a);
      if o.stop.Failed? {
        FailedPhase(lib, d, o.a, k);
        WithinIsSafe(lib, d, DoAll(d, RunOps(lib, d, o.a, k)), o.a);
      }
      if o.stop.PowerLost? {
        PowerLostIsSafe(lib, d, DoAll(d, ops[..k]), o.stop.r, o.a);
      }
    } else {
      NothingIsSafe(lib, d, o.a);
      if o.stop.PowerLost? {
        assert ops[..o.stop.k] == [];
        IdlePowerLossIsSafe(lib, d, o.stop.r, o.a);
      }
    }
  }
}
