/**
 Where installed trust comes from.  Whatever happens to a run, a state that is ever loaded was signed by the root
 key for exactly this sequence, store and root; and an update is installed exactly under the conditions spelled out.
 */
module TrustAuthentic {
  import opened Common
  import opened Lines
  import opened Statements
  import opened StatementTexts
  import opened TrustInstall
  import opened TrustSafety
  import opened TrustRuns
  import opened TrustDeaths

  // ------------------------------------------------ what authentic means

  /** What the root key signs for a state. */
  function SignedText(sequence: nat, storeSha: string, rootKey: string): string {
    "aaa-evidence-trust-update-v1" + "\n" + "ed25519" + "\n" + Decimal(sequence) + "\n" + storeSha + "\n" + rootKey + "\n"
  }

  /** The attempt carries the root key's signature for this very state, and the store it is about. */
  predicate Authentic(lib: Library, a: Attempt, st: TrustState) {
    && |a.pinnedRoot| == 32 && lib.sha(a.pinnedRoot) == st.rootKey
    && lib.sha(a.store) == st.storeSha && lib.storeOk(a.store)
    && lib.checkSignature(a.pinnedRoot, SignedText(st.sequence, st.storeSha, st.rootKey), a.update.signature)
    && st.schema == "aaa-evidence-trust-update-state-v1"
    && st.storeFile == "trust-store-" + Padded(st.sequence, 20) + ".json"
  }

  lemma {:induction false} TextIsSigned(sequence: nat, storeSha: string, rootKey: string)
    ensures Message(TrustUpdate(sequence, storeSha, rootKey)) == SignedText(sequence, storeSha, rootKey)
  {
    MessageIsText(TrustUpdate(sequence, storeSha, rootKey));
  }

  /** No signature for another sequence, store or root, nor for another kind of document, is over this text. */
  lemma {:induction false} SignatureServesOneState(st: TrustState, d: Document)
    requires Valid(d) && Digest(st.storeSha) && Digest(st.rootKey)
    requires Message(d) == SignedText(st.sequence, st.storeSha, st.rootKey)
    ensures d == TrustUpdate(st.sequence, st.storeSha, st.rootKey)
  {
    hide Message, SignedText, Digest, IsSha256;
    TextIsSigned(st.sequence, st.storeSha, st.rootKey);
    Sha256IsDigest(st.storeSha);
    Sha256IsDigest(st.rootKey);
    MessagesAreInjective(d, TrustUpdate(st.sequence, st.storeSha, st.rootKey));
  }

  // ------------------------------------------------ when an update is installed

  /** What is installed now leaves room for this update: nothing, or an older state of the same root. */
  predicate Supersedes(lib: Library, current: Loaded, a: Attempt) {
    match current
    case NoState => true
    case State(st) => st.rootKey == lib.sha(a.pinnedRoot) && st.sequence < a.update.sequence
    case Broken => false
  }

  /** The update is well formed, belongs to the root key and the store, and is signed. */
  predicate Genuine(lib: Library, a: Attempt) {
    var u := a.update;
    && u.schema == "aaa-evidence-trust-update-v1" && u.algorithm == "ed25519"
    && 1 <= u.sequence < 18446744073709551616
    && Digest(u.storeSha) && Digest(u.rootKey)
    && |u.signature| == 128 && (forall c :: c in u.signature ==> c in "0123456789abcdef")
    && |a.pinnedRoot| == 32 && lib.sha(a.pinnedRoot) == u.rootKey
    && |a.store| <= 1048576 && lib.storeOk(a.store) && lib.sha(a.store) == u.storeSha
    && lib.checkSignature(a.pinnedRoot, SignedText(u.sequence, u.storeSha, u.rootKey), u.signature)
  }

  /** The name for the store is free, or holds just this store. */
  predicate StoreNameFree(d: Disk, a: Attempt) {
    var name := "trust-store-" + Padded(a.update.sequence, 20) + ".json";
    name in d.live ==> d.live[name].content == a.store
  }

  /** A run does anything at all exactly for a genuine update that supersedes what is installed and finds room for its store. */
  lemma {:induction false} InstallsExactly(lib: Library, d: Disk, a: Attempt)
    ensures InstallOps(lib, d, a) != [] <==>
            Supersedes(lib, Load(lib, d.live), a) && Genuine(lib, a) && StoreNameFree(d, a)
  {
    hide Message, SignedText, Load, Padded, IsHex, IsSha256, Digest;
    var u := a.update;
    TextIsSigned(u.sequence, u.storeSha, u.rootKey);
    Sha256IsDigest(u.storeSha);
    Sha256IsDigest(u.rootKey);
    Sha256IsDigest(u.signature);
    assert |StateOps(lib, a)| == 7;
    if Supersedes(lib, Load(lib, d.live), a) && Genuine(lib, a) && StoreNameFree(d, a) {
      LoadedIsNatural(lib, d.live);
    }
  }

  lemma {:induction false} LoadedIsNatural(lib: Library, dir: Dir)
    ensures CurrentSequence(Load(lib, dir)) >= 0
  {
  }

  lemma {:induction false} AdmittedIsAuthentic(lib: Library, d: Disk, a: Attempt)
    requires Admitted(lib, d, a)
    ensures Authentic(lib, a, NewState(a.update))
  {
    hide Message, SignedText, Load, Padded, IsHex, IsSha256;
    TextIsSigned(a.update.sequence, a.update.storeSha, a.update.rootKey);
  }

  // ------------------------------------------------ the state file

  /** The state file is the one that this run writes. */
  predicate Installed(lib: Library, dir: Dir, a: Attempt) {
    "trust-update-state.json" in dir && dir["trust-update-state.json"] == File(lib.encodeState(NewState(a.update)), true)
  }

  predicate SameStateFile(x: Dir, y: Dir) {
    ("trust-update-state.json" in x <==> "trust-update-state.json" in y)
    && ("trust-update-state.json" in x ==> x["trust-update-state.json"] == y["trust-update-state.json"])
  }

  /** Each of the two directories has an old state file, or the new one. */
  predicate OldOrNew(lib: Library, d: Disk, e: Disk, a: Attempt) {
    && (SameStateFile(e.live, d.live) || SameStateFile(e.live, d.durable) || Installed(lib, e.live, a))
    && (SameStateFile(e.durable, d.live) || SameStateFile(e.durable, d.durable) || Installed(lib, e.durable, a))
  }

  lemma {:induction false} StoreLeavesState(d: Disk, a: Attempt, k: nat)
    ensures SameStateFile(StoreLive(d, a, k), d.live)
  {
    StoreFilenameIsItsOwn(a.update.sequence, "");
    hide StoreFilename;
  }

  lemma {:induction false} StateMoments(lib: Library, dir: Dir, a: Attempt, k: nat)
    requires k <= 7 && TEMP_PREFIX <= a.temp
    ensures SameStateFile(StateLive(lib, dir, a, k), dir) || Installed(lib, StateLive(lib, dir, a, k), a)
  {
    StoreFilenameIsItsOwn(0, a.temp);
    hide NewState;
  }

  lemma {:induction false} KilledOldOrNew(lib: Library, d: Disk, a: Attempt, k: nat)
    requires TempName(d, a.temp) && k <= |InstallOps(lib, d, a)|
    ensures OldOrNew(lib, d, DoAll(d, InstallOps(lib, d, a)[..k]), a)
  {
    hide StoreOps, StateOps, StoreLive, StateLive, DoAll, NewState, Admitted, StorePathUsable;
    StoreFilenameIsItsOwn(0, a.temp);
    var ops := InstallOps(lib, d, a);
    NoSteps(d);
    if ops == [] {
      assert ops[..k] == [];
    } else {
      var x, y := StoreOps(d, a), StateOps(lib, a);
      assert ops == x + y;
      if k <= |x| {
        assert ops[..k] == x[..k];
        StoreLiveIs(d, a, k);
        StoreLeavesState(d, a, k);
      } else {
        assert ops[..k] == x + y[..k - |x|];
        DoAllConcat(d, x, y[..k - |x|]);
        StoreDone(d, a);
        StoreLeavesState(d, a, 4);
        var mid := DoAll(d, x);
        assert |y| == 7 by { StateOpsAre(lib, a); }
        StateLiveIs(lib, mid, a, k - |x|);
        StateMoments(lib, mid.live, a, k - |x|);
        SameTwice(lib, StateLive(lib, mid.live, a, k - |x|), mid.live, d.live);
      }
    }
  }

  lemma {:induction false} SameTwice(lib: Library, x: Dir, y: Dir, z: Dir)
    requires SameStateFile(y, z)
    ensures SameStateFile(x, y) ==> SameStateFile(x, z)
  {
  }

  /** Removing another file leaves the state file. */
  lemma {:induction false} CleanedOldOrNew(lib: Library, d: Disk, e: Disk, a: Attempt, ops: seq<Op>)
    requires OldOrNew(lib, d, e, a) && |ops| <= 1 && (ops != [] ==> ops[0].Remove? && ops[0].name != "trust-update-state.json")
    ensures OldOrNew(lib, d, DoAll(e, ops), a)
  {
    hide NewState;
    NoSteps(e);
    if ops != [] {
      assert ops == [ops[0]];
      OneStep(e, ops[0]);
    }
  }

  lemma {:induction false} RoundOldOrNew(lib: Library, d: Disk, o: Round)
    requires Possible(lib, d, o) && !o.stop.PowerLost?
    ensures OldOrNew(lib, d, After(lib, d, o), o.a)
  {
    hide InstallOps, DoAll, NewState, OldOrNew, StoreFilename;
    var ops := InstallOps(lib, d, o.a);
    match o.stop
    case Done =>
      assert ops[..|ops|] == ops;
      KilledOldOrNew(lib, d, o.a, |ops|);
    case Killed(k) => KilledOldOrNew(lib, d, o.a, k);
    case Failed(k) =>
      KilledOldOrNew(lib, d, o.a, k);
      StoreFilenameIsItsOwn(o.a.update.sequence, o.a.temp);
      DoAllConcat(d, ops[..k], Cleanup(d, o.a, k));
      CleanedOldOrNew(lib, d, DoAll(d, ops[..k]), o.a, Cleanup(d, o.a, k));
  }

  // ------------------------------------------------ every state is vouched for

  /** A state file, if there is one, is synced and holds a state that one of the attempts is authentic for. */
  ghost predicate Vouched(lib: Library, dir: Dir, tried: seq<Attempt>) {
    "trust-update-state.json" in dir ==>
      && dir["trust-update-state.json"].synced
      && exists a, st :: a in tried && Authentic(lib, a, st) && lib.decodeState(dir["trust-update-state.json"].content) == Some(st)
  }

  lemma {:induction false} MoreAttempts(lib: Library, dir: Dir, tried: seq<Attempt>, more: seq<Attempt>)
    requires Vouched(lib, dir, tried)
    ensures Vouched(lib, dir, tried + more)
  {
    hide Authentic;
    if "trust-update-state.json" in dir {
      var a, st :| a in tried && Authentic(lib, a, st) && lib.decodeState(dir["trust-update-state.json"].content) == Some(st);
      assert a in tried + more;
    }
  }

  lemma {:induction false} InstalledIsVouched(lib: Library, d: Disk, dir: Dir, a: Attempt, tried: seq<Attempt>)
    requires Sound(lib) && Admitted(lib, d, a) && Installed(lib, dir, a) && a in tried
    ensures Vouched(lib, dir, tried)
  {
    hide Authentic, NewState, Load, StoreFilename, Message;
    AdmittedIsAuthentic(lib, d, a);
    NewStateIsValid(lib, d, a);
    assert lib.decodeState(lib.encodeState(NewState(a.update))) == Some(NewState(a.update)) by { NewStateReadsBack(lib, a); }
  }

  lemma {:induction false} SameIsVouched(lib: Library, x: Dir, y: Dir, tried: seq<Attempt>)
    requires Vouched(lib, y, tried) && SameStateFile(x, y)
    ensures Vouched(lib, x, tried)
  {
    hide Authentic;
  }

  lemma {:induction false} StepVouched(lib: Library, d: Disk, e: Disk, a: Attempt, tried: seq<Attempt>)
    requires Sound(lib) && OldOrNew(lib, d, e, a) && (Admitted(lib, d, a) || e == d)
    requires Vouched(lib, d.live, tried) && Vouched(lib, d.durable, tried)
    ensures Vouched(lib, e.live, tried + [a]) && Vouched(lib, e.durable, tried + [a])
  {
    hide Vouched, Admitted, Sound, Installed, SameStateFile;
    MoreAttempts(lib, d.live, tried, [a]);
    MoreAttempts(lib, d.durable, tried, [a]);
    if e != d {
      OneVouched(lib, d, e.live, a, tried + [a]);
      OneVouched(lib, d, e.durable, a, tried + [a]);
    }
  }

  lemma {:induction false} OneVouched(lib: Library, d: Disk, dir: Dir, a: Attempt, tried: seq<Attempt>)
    requires Sound(lib) && Admitted(lib, d, a) && a in tried && Vouched(lib, d.live, tried) && Vouched(lib, d.durable, tried)
    requires SameStateFile(dir, d.live) || SameStateFile(dir, d.durable) || Installed(lib, dir, a)
    ensures Vouched(lib, dir, tried)
  {
    hide Vouched, Admitted, Sound, Installed, SameStateFile;
    if SameStateFile(dir, d.live) {
      SameIsVouched(lib, dir, d.live, tried);
    } else if SameStateFile(dir, d.durable) {
      SameIsVouched(lib, dir, d.durable, tried);
    } else {
      InstalledIsVouched(lib, d, dir, a, tried);
    }
  }

  lemma {:induction false} LossVouched(lib: Library, d: Disk, r: Dir, tried: seq<Attempt>)
    requires Vouched(lib, d.live, tried) && Vouched(lib, d.durable, tried) && PowerLoss(d, r)
    ensures Vouched(lib, r, tried)
  {
    hide Authentic;
  }

  /** A round that changes anything was admitted. */
  lemma {:induction false} KilledChanges(lib: Library, d: Disk, a: Attempt, k: nat)
    requires k <= |InstallOps(lib, d, a)|
    ensures Admitted(lib, d, a) || DoAll(d, InstallOps(lib, d, a)[..k]) == d
  {
    hide Admitted, StorePathUsable, StoreOps, StateOps;
    NoSteps(d);
  }

  lemma {:induction false} RoundChanges(lib: Library, d: Disk, o: Round)
    requires Possible(lib, d, o) && !o.stop.PowerLost?
    ensures Admitted(lib, d, o.a) || After(lib, d, o) == d
  {
    hide Admitted, StorePathUsable, StoreOps, StateOps, Cleanup;
    NoSteps(d);
  }

  lemma {:induction false} RoundVouched(lib: Library, d: Disk, o: Round, tried: seq<Attempt>)
    requires Sound(lib) && Possible(lib, d, o) && Vouched(lib, d.live, tried) && Vouched(lib, d.durable, tried)
    ensures Vouched(lib, After(lib, d, o).live, tried + [o.a]) && Vouched(lib, After(lib, d, o).durable, tried + [o.a])
  {
    hide Sound, InstallOps, DoAll, Vouched, OldOrNew, Admitted, PowerLoss, RunOps;
    if o.stop.PowerLost? {
      var e := DoAll(d, InstallOps(lib, d, o.a)[..o.stop.k]);
      KilledOldOrNew(lib, d, o.a, o.stop.k);
      KilledChanges(lib, d, o.a, o.stop.k);
      StepVouched(lib, d, e, o.a, tried);
      LossVouched(lib, e, o.stop.r, tried + [o.a]);
    } else {
      RoundOldOrNew(lib, d, o);
      RoundChanges(lib, d, o);
      StepVouched(lib, d, After(lib, d, o), o.a, tried);
    }
  }

  function AttemptsOf(run: seq<Round>): (tried: seq<Attempt>)
    ensures |tried| == |run| && forall i :: 0 <= i < |tried| ==> tried[i] == run[i].a
  {
    seq(|run|, i requires 0 <= i < |run| => run[i].a)
  }

  lemma {:induction false} RunVouched(lib: Library, d: Disk, run: seq<Round>, tried: seq<Attempt>)
    requires Sound(lib) && PossibleRun(lib, d, run) && Vouched(lib, d.live, tried) && Vouched(lib, d.durable, tried)
    ensures var e := End(lib, d, run);
            Vouched(lib, e.live, tried + AttemptsOf(run)) && Vouched(lib, e.durable, tried + AttemptsOf(run))
    decreases |run|
  {
    hide Sound, Possible, After, Vouched;
    if run == [] {
      assert tried + AttemptsOf(run) == tried;
    } else {
      RoundVouched(lib, d, run[0], tried);
      RunVouched(lib, After(lib, d, run[0]), run[1..], tried + [run[0].a]);
      assert tried + [run[0].a] + AttemptsOf(run[1..]) == tried + AttemptsOf(run);
    }
  }

  lemma {:induction false} LoadedIsVouched(lib: Library, dir: Dir, tried: seq<Attempt>)
    requires Vouched(lib, dir, tried) && Load(lib, dir).State?
    ensures exists a :: a in tried && Authentic(lib, a, Load(lib, dir).st)
  {
    hide Authentic;
    var a, st :| a in tried && Authentic(lib, a, st) && lib.decodeState(dir["trust-update-state.json"].content) == Some(st);
  }

  /** What is loaded is there: the store under its name, whole, with the hash the state gives. */
  lemma {:induction false} LoadedExactly(lib: Library, dir: Dir, st: TrustState)
    ensures Load(lib, dir) == State(st) <==>
            && "trust-update-state.json" in dir && |dir["trust-update-state.json"].content| <= 4096
            && lib.decodeState(dir["trust-update-state.json"].content) == Some(st)
            && st.storeFile in dir && |dir[st.storeFile].content| <= 1048576
            && lib.sha(dir[st.storeFile].content) == st.storeSha && lib.storeOk(dir[st.storeFile].content)
    ensures Load(lib, dir) == NoState <==> "trust-update-state.json" !in dir
  {
  }

  /**
   From an empty disk, through completed, failed and killed installations and losses of power at any step: any state that
   can be loaded, live or durably, was signed by the root key in one of the attempts, for this sequence, store and root.
   */
  lemma {:induction false} EveryStateIsSigned(lib: Library, run: seq<Round>)
    requires Sound(lib) && PossibleRun(lib, Disk(map[], map[]), run)
    ensures var e := End(lib, Disk(map[], map[]), run);
            forall dir :: (dir == e.live || dir == e.durable) && Load(lib, dir).State? ==>
              exists i :: 0 <= i < |run| && Authentic(lib, run[i].a, Load(lib, dir).st)
  {
    hide Sound, PossibleRun, End, Authentic, Load, Vouched;
    assert Vouched(lib, map[], []) by { NothingToVouch(lib); }
    RunVouched(lib, Disk(map[], map[]), run, []);
    var e := End(lib, Disk(map[], map[]), run);
    var tried := AttemptsOf(run);
    assert [] + tried == tried;
    forall dir | (dir == e.live || dir == e.durable) && Load(lib, dir).State?
      ensures exists i :: 0 <= i < |run| && Authentic(lib, run[i].a, Load(lib, dir).st)
    {
      LoadedIsVouched(lib, dir, tried);
      var a :| a in tried && Authentic(lib, a, Load(lib, dir).st);
      var i :| 0 <= i < |tried| && tried[i] == a;
    }
  }

  lemma {:induction false} NothingToVouch(lib: Library)
    ensures Vouched(lib, map[], [])
  {
  }

  /** A run that makes a state load that neither directory held before carries the signature for it. */
  lemma {:induction false} NewStateIsSigned(lib: Library, d: Disk, o: Round, st: TrustState)
    requires Sound(lib) && Possible(lib, d, o) && !o.stop.PowerLost?
    requires Load(lib, After(lib, d, o).live) == State(st)
    requires forall dir: Dir :: (dir == d.live || dir == d.durable) && "trust-update-state.json" in dir ==>
               lib.decodeState(dir["trust-update-state.json"].content) != Some(st)
    ensures Authentic(lib, o.a, st)
  {
    hide Sound, InstallOps, DoAll, Admitted, RunOps, NewState, Authentic, Backed;
    RoundOldOrNew(lib, d, o);
    RoundChanges(lib, d, o);
    if Admitted(lib, d, o.a) {
      AdmittedIsAuthentic(lib, d, o.a);
      NewStateIsValid(lib, d, o.a);
      NewStateReadsBack(lib, o.a);
    }
  }
}
