/**
 Installations that die or fail, with no condition on what was synced: process deaths and failing steps
 never cost a loaded state or a file, and a loss of power is survived exactly on good disks.
 */
module TrustDeaths {
  import opened Common
  import opened Lines
  import opened Statements
  import opened TrustInstall
  import opened TrustSafety
  import opened TrustRuns

  // ------------------------------------------------ the directory at every moment of a run

  /** Every file but the state file is still there as it was. */
  ghost predicate Carried(dir: Dir, later: Dir) {
    forall n :: n in dir && n != STATE_FILE ==> n in later && later[n] == dir[n]
  }

  predicate StateSynced(dir: Dir) {
    STATE_FILE in dir ==> dir[STATE_FILE].synced
  }

  /** From one directory to a later one within a run that installs `next`. */
  ghost predicate Moved(lib: Library, dir: Dir, later: Dir, next: TrustState) {
    && Carried(dir, later)
    && (StateSynced(dir) ==> StateSynced(later))
    && (Load(lib, later) == Load(lib, dir) || Load(lib, later) == State(next))
  }

  function StoreLive(d: Disk, a: Attempt, k: nat): Dir {
    var name := StoreFilename(a.update.sequence);
    if name in d.live || k == 0 then d.live
    else d.live[name := if k == 1 then File("", false) else if k == 2 then File(a.partStore, false) else File(a.store, k >= 4)]
  }

  lemma {:induction false} StoreLiveIs(d: Disk, a: Attempt, k: nat)
    requires k <= |StoreOps(d, a)|
    ensures DoAll(d, StoreOps(d, a)[..k]) == d.(live := StoreLive(d, a, k))
    decreases k
  {
    hide StoreFilename, DoAll;
    StoreOpsAre(d, a);
    if k == 0 {
      NoSteps(d);
      assert StoreOps(d, a)[..0] == [];
    } else {
      StoreLiveIs(d, a, k - 1);
      TakeStep(d, StoreOps(d, a), k - 1);
    }
  }

  function StateLive(lib: Library, dir: Dir, a: Attempt, k: nat): Dir {
    var content := lib.encodeState(NewState(a.update));
    if k <= 1 then dir
    else if k <= 5 then
      dir[a.temp := if k == 2 then File("", false) else if k == 3 then File(a.partState, false) else File(content, k == 5)]
    else dir[a.temp := File(content, true)][STATE_FILE := File(content, true)] - {a.temp}
  }

  lemma {:induction false} StateLiveIs(lib: Library, d: Disk, a: Attempt, k: nat)
    requires k <= 7 && a.temp != STATE_FILE
    ensures |StateOps(lib, a)| == 7
    ensures var live := StateLive(lib, d.live, a, k);
            DoAll(d, StateOps(lib, a)[..k]) == Disk(live, if k == 0 then d.durable else if k < 7 then d.live else live)
    decreases k
  {
    hide NewState, DoAll;
    StateOpsAre(lib, a);
    if k == 0 {
      NoSteps(d);
      assert StateOps(lib, a)[..0] == [];
    } else {
      StateLiveIs(lib, d, a, k - 1);
      TakeStep(d, StateOps(lib, a), k - 1);
    }
  }

  /** What a run needs to get anywhere. */
  ghost predicate Going(lib: Library, d: Disk, a: Attempt) {
    Sound(lib) && Admitted(lib, d, a) && StorePathUsable(d, a) && TempName(d, a.temp)
  }

  lemma {:induction false} GoingFacts(lib: Library, d: Disk, a: Attempt)
    requires Going(lib, d, a)
    ensures var next := NewState(a.update);
            && ValidState(next) && !Load(lib, d.live).Broken?
            && next.storeFile == StoreFilename(a.update.sequence)
            && next.storeFile != STATE_FILE && next.storeFile != a.temp && a.temp != STATE_FILE && a.temp !in d.live
            && |a.store| <= MAX_STORE_BYTES && lib.sha(a.store) == next.storeSha && lib.storeOk(a.store)
            && (Load(lib, d.live).State? ==>
                  Load(lib, d.live).st.rootKey == next.rootKey && Load(lib, d.live).st.sequence < next.sequence)
  {
    StoreFilenameIsItsOwn(a.update.sequence, a.temp);
    hide StoreFilename, Padded, Message;
  }

  lemma {:induction false} FreshName(lib: Library, dir: Dir, x: string, f: File)
    requires x !in dir && x != STATE_FILE && !Load(lib, dir).Broken?
    ensures Load(lib, dir[x := f]) == Load(lib, dir)
  {
    hide ValidState;
  }

  /** Up to the rename the load is what it was. */
  lemma {:induction false} StoreMoment(lib: Library, d: Disk, a: Attempt, k: nat)
    requires Going(lib, d, a)
    ensures var later := StoreLive(d, a, k);
            && Load(lib, later) == Load(lib, d.live) && Moved(lib, d.live, later, NewState(a.update))
            && a.temp !in later
            && (k >= 4 ==> StoreFilename(a.update.sequence) in later && later[StoreFilename(a.update.sequence)].content == a.store)
  {
    hide StoreFilename, Load, Admitted, NewState, Sound;
    GoingFacts(lib, d, a);
    var name := StoreFilename(a.update.sequence);
    NewStoreName(a);
    if name !in d.live && k > 0 {
      FreshName(lib, d.live, name, StoreLive(d, a, k)[name]);
    }
  }

  lemma {:induction false} StateMoment(lib: Library, d: Disk, a: Attempt, dir: Dir, k: nat)
    requires Going(lib, d, a) && dir == StoreLive(d, a, 4)
    ensures var later := StateLive(lib, dir, a, k);
            && Moved(lib, d.live, later, NewState(a.update))
            && Load(lib, later) == if k <= 5 then Load(lib, d.live) else State(NewState(a.update))
  {
    hide StoreFilename, Load, Admitted, NewState, Sound, StoreLive, StorePathUsable;
    GoingFacts(lib, d, a);
    NewStoreName(a);
    StoreMoment(lib, d, a, 4);
    var later := StateLive(lib, dir, a, k);
    if 2 <= k <= 5 {
      FreshName(lib, dir, a.temp, later[a.temp]);
    } else if k > 5 {
      UpdateSha(a);
      NewStateReadsBack(lib, a);
      NewStateLoads(lib, later, NewState(a.update), a.store);
    }
  }

  lemma {:induction false} NewStateReadsBack(lib: Library, a: Attempt)
    requires Sound(lib) && ValidState(NewState(a.update))
    ensures var content := lib.encodeState(NewState(a.update));
            lib.decodeState(content) == Some(NewState(a.update)) && |content| <= MAX_STATE_BYTES
  {
    hide ValidState, NewState;
  }

  lemma {:induction false} NewStateLoads(lib: Library, dir: Dir, st: TrustState, store: string)
    requires STATE_FILE in dir && lib.decodeState(dir[STATE_FILE].content) == Some(st) && |dir[STATE_FILE].content| <= MAX_STATE_BYTES
    requires st.storeFile in dir && dir[st.storeFile].content == store
    requires |store| <= MAX_STORE_BYTES && lib.sha(store) == st.storeSha && lib.storeOk(store)
    ensures Load(lib, dir) == State(st)
  {
  }

  /** The two directories after k steps. */
  ghost predicate Moment(lib: Library, d: Disk, e: Disk, next: TrustState) {
    && Moved(lib, d.live, e.live, next)
    && (e.durable == d.durable
        || (Moved(lib, d.live, e.durable, next)
            && (Load(lib, e.durable) == Load(lib, d.live) || Load(lib, e.live) == State(next))))
  }

  lemma {:induction false} StoreKilled(lib: Library, d: Disk, a: Attempt, k: nat)
    requires Going(lib, d, a) && k <= |StoreOps(d, a)|
    ensures Moment(lib, d, DoAll(d, StoreOps(d, a)[..k]), NewState(a.update))
  {
    hide StoreFilename, Load, Admitted, NewState, Sound, StoreLive, StorePathUsable, DoAll, StoreOps, Moved;
    StoreLiveIs(d, a, k);
    StoreMoment(lib, d, a, k);
  }

  lemma {:induction false} StoreDone(d: Disk, a: Attempt)
    ensures DoAll(d, StoreOps(d, a)) == d.(live := StoreLive(d, a, 4))
  {
    hide StoreFilename, DoAll;
    StoreOpsAre(d, a);
    StoreLiveIs(d, a, |StoreOps(d, a)|);
    assert StoreOps(d, a)[..|StoreOps(d, a)|] == StoreOps(d, a);
  }

  lemma {:induction false} StateKilled(lib: Library, d: Disk, a: Attempt, k: nat)
    requires Going(lib, d, a) && k <= 7
    ensures |StateOps(lib, a)| == 7
    ensures var e := DoAll(DoAll(d, StoreOps(d, a)), StateOps(lib, a)[..k]);
            && Moment(lib, d, e, NewState(a.update))
            && (k == 7 ==> Load(lib, e.live) == State(NewState(a.update)))
  {
    hide StoreFilename, Load, Admitted, NewState, Sound, StoreLive, StateLive, StorePathUsable, DoAll, StoreOps, StateOps, Moved;
    GoingFacts(lib, d, a);
    StoreDone(d, a);
    var mid := DoAll(d, StoreOps(d, a));
    StateLiveIs(lib, mid, a, k);
    StateMoment(lib, d, a, mid.live, k);
    StoreMoment(lib, d, a, 4);
  }

  /** After any number of steps of a run. */
  lemma {:induction false} KilledMoment(lib: Library, d: Disk, a: Attempt, k: nat)
    requires Going(lib, d, a) && k <= |InstallOps(lib, d, a)|
    ensures var e := DoAll(d, InstallOps(lib, d, a)[..k]);
            && Moment(lib, d, e, NewState(a.update))
            && (k == |InstallOps(lib, d, a)| ==> Load(lib, e.live) == State(NewState(a.update)))
  {
    hide StoreFilename, Load, Admitted, NewState, Sound, StorePathUsable, DoAll, StoreOps, StateOps, Moment;
    var x, y := StoreOps(d, a), StateOps(lib, a);
    var ops := InstallOps(lib, d, a);
    StateKilled(lib, d, a, 0);
    if k <= |x| {
      assert ops[..k] == x[..k];
      StoreKilled(lib, d, a, k);
    } else {
      StateKilled(lib, d, a, k - |x|);
      assert ops[..k] == x + y[..k - |x|];
      DoAllConcat(d, x, y[..k - |x|]);
    }
  }

  /** A failing step and the cleaning up after it lead back to a moment of the same run. */
  lemma {:induction false} FailedMoment(lib: Library, d: Disk, a: Attempt, k: nat)
    requires Going(lib, d, a) && k < |InstallOps(lib, d, a)|
    ensures Moment(lib, d, DoAll(d, RunOps(lib, d, a, k)), NewState(a.update))
  {
    hide StoreFilename, Load, Admitted, NewState, Sound, StorePathUsable, DoAll, Moment, InstallOps, StoreOps;
    var ops := InstallOps(lib, d, a);
    var s := |StoreOps(d, a)|;
    DoAllConcat(d, ops[..k], Cleanup(d, a, k));
    if 1 <= k < s {
      StoreCleaned(lib, d, a, k);
      KilledMoment(lib, d, a, 0);
      NoSteps(d);
      assert ops[..0] == [];
    } else if s + 2 <= k <= s + 5 {
      StateCleaned(lib, d, a, k);
      KilledMoment(lib, d, a, s + 1);
    } else {
      KilledMoment(lib, d, a, k);
      NoSteps(DoAll(d, ops[..k]));
    }
  }

  lemma {:induction false} StoreCleaned(lib: Library, d: Disk, a: Attempt, k: nat)
    requires Going(lib, d, a) && 1 <= k < |StoreOps(d, a)|
    ensures |InstallOps(lib, d, a)| >= k
    ensures DoAll(DoAll(d, InstallOps(lib, d, a)[..k]), Cleanup(d, a, k)) == d
  {
    hide StoreFilename, Load, Admitted, NewState, Sound, StorePathUsable, DoAll, StateOps;
    StoreOpsAre(d, a);
    assert InstallOps(lib, d, a)[..k] == StoreOps(d, a)[..k];
    StoreLiveIs(d, a, k);
    var e := DoAll(d, StoreOps(d, a)[..k]);
    OneStep(e, Remove(StoreFilename(a.update.sequence)));
    assert e.live - {StoreFilename(a.update.sequence)} == d.live;
  }

  lemma {:induction false} StateCleaned(lib: Library, d: Disk, a: Attempt, k: nat)
    requires Going(lib, d, a) && |StoreOps(d, a)| + 2 <= k <= |StoreOps(d, a)| + 5
    ensures var s := |StoreOps(d, a)|;
            && |InstallOps(lib, d, a)| == s + 7
            && DoAll(DoAll(d, InstallOps(lib, d, a)[..k]), Cleanup(d, a, k)) == DoAll(d, InstallOps(lib, d, a)[..s + 1])
  {
    hide StoreFilename, Load, Admitted, NewState, Sound, StorePathUsable, DoAll, StateOps, StoreOps, StoreLive;
    GoingFacts(lib, d, a);
    var x, y := StoreOps(d, a), StateOps(lib, a);
    var s := |x|;
    StoreMoment(lib, d, a, 4);
    StoreDone(d, a);
    var mid := DoAll(d, x);
    StateLiveIs(lib, mid, a, k - s);
    StateLiveIs(lib, mid, a, 1);
    assert InstallOps(lib, d, a)[..k] == x + y[..k - s] && InstallOps(lib, d, a)[..s + 1] == x + y[..1];
    DoAllConcat(d, x, y[..k - s]);
    DoAllConcat(d, x, y[..1]);
    var e := DoAll(mid, y[..k - s]);
    OneStep(e, Remove(a.temp));
    assert e.live - {a.temp} == mid.live;
  }

  // ------------------------------------------------ runs of deaths and failures

  ghost predicate NoPowerLoss(run: seq<Round>) {
    forall i :: 0 <= i < |run| ==> !run[i].stop.PowerLost?
  }

  /** What is loaded did not get worse. */
  predicate NoOlder(a: Loaded, b: Loaded) {
    && !b.Broken?
    && CurrentSequence(a) <= CurrentSequence(b)
    && (a.State? ==> b.State? && a.st.rootKey == b.st.rootKey)
  }

  lemma {:induction false} RoundMoment(lib: Library, d: Disk, o: Round)
    requires Sound(lib) && !Load(lib, d.live).Broken? && Possible(lib, d, o) && !o.stop.PowerLost?
    ensures Moment(lib, d, After(lib, d, o), NewState(o.a.update)) || After(lib, d, o) == d
    ensures NoOlder(Load(lib, d.live), Load(lib, After(lib, d, o).live)) && Carried(d.live, After(lib, d, o).live)
    ensures o.stop.Done? && Admitted(lib, d, o.a) && StorePathUsable(d, o.a) ==>
              Load(lib, After(lib, d, o).live) == State(NewState(o.a.update))
  {
    hide StoreFilename, Load, Admitted, NewState, Sound, StorePathUsable, DoAll, RunOps;
    var ops := InstallOps(lib, d, o.a);
    assert ops[..|ops|] == ops;
    NoSteps(d);
    if Admitted(lib, d, o.a) && StorePathUsable(d, o.a) {
      GoingFacts(lib, d, o.a);
      if o.stop.Failed? {
        FailedMoment(lib, d, o.a, o.stop.k);
      } else {
        KilledMoment(lib, d, o.a, if o.stop.Done? then |ops| else o.stop.k);
      }
    } else {
      assert ops == [];
    }
  }

  /**
   Process deaths and failing steps alone, with no further condition: after any run of installations,
   each completed, failed or killed between any two file-system steps, loading succeeds, the loaded
   sequence has not decreased, the root key has not changed, and every file that was there, the state
   file aside, has its bytes.
   */
  lemma {:induction false} DeathsAreHarmless(lib: Library, d: Disk, run: seq<Round>)
    requires Sound(lib) && !Load(lib, d.live).Broken? && PossibleRun(lib, d, run) && NoPowerLoss(run)
    ensures var e := End(lib, d, run);
            && !Load(lib, e.live).Broken?
            && CurrentSequence(Load(lib, e.live)) >= CurrentSequence(Load(lib, d.live))
            && (Load(lib, d.live).State? ==>
                  Load(lib, e.live).State? && Load(lib, e.live).st.rootKey == Load(lib, d.live).st.rootKey)
            && Carried(d.live, e.live)
    decreases |run|
  {
    hide Load, Sound, Possible, After, Moment;
    if run != [] {
      assert !run[0].stop.PowerLost?;
      var mid := After(lib, d, run[0]);
      RoundMoment(lib, d, run[0]);
      assert NoPowerLoss(run[1..]);
      DeathsAreHarmless(lib, mid, run[1..]);
    }
  }

  // ------------------------------------------------ runs with losses of power

  /** Both directories load, the durable one nothing newer, and their state files are synced. */
  predicate Steady(lib: Library, d: Disk) {
    && !Load(lib, d.live).Broken? && !Load(lib, d.durable).Broken?
    && Ordered(Load(lib, d.live), Load(lib, d.durable))
    && StateSynced(d.live) && StateSynced(d.durable)
  }

  lemma {:induction false} GoodIsSteady(lib: Library, d: Disk)
    requires Good(lib, d)
    ensures Steady(lib, d)
  {
    hide ValidState, Anchored;
  }

  lemma {:induction false} MomentIsSteady(lib: Library, d: Disk, e: Disk, a: Attempt)
    requires Steady(lib, d) && Going(lib, d, a) && Moment(lib, d, e, NewState(a.update))
    ensures Steady(lib, e) && Committed(lib, e) >= Committed(lib, d)
    ensures Load(lib, d.durable).State? ==>
              Load(lib, e.durable).State? && Load(lib, e.durable).st.rootKey == Load(lib, d.durable).st.rootKey
  {
    GoingFacts(lib, d, a);
    hide Load, Admitted, NewState, Sound, StorePathUsable, StoreFilename, ValidState, Carried, Going;
  }

  lemma {:induction false} MomentKeepsSettled(lib: Library, d: Disk, e: Disk, next: TrustState)
    requires Moment(lib, d, e, next)
    ensures KeepsSettled(d, e)
  {
    hide Load;
  }

  /** Every loss of power in the run strikes a good disk. */
  ghost predicate StrikesGood(lib: Library, d: Disk, run: seq<Round>)
    requires PossibleRun(lib, d, run)
    decreases |run|
  {
    run == []
    || ((run[0].stop.PowerLost? ==> Good(lib, DoAll(d, InstallOps(lib, d, run[0].a)[..run[0].stop.k])))
        && StrikesGood(lib, After(lib, d, run[0]), run[1..]))
  }

  lemma {:induction false} SteadyRound(lib: Library, d: Disk, o: Round)
    requires Sound(lib) && Steady(lib, d) && Possible(lib, d, o)
    requires o.stop.PowerLost? ==> Good(lib, DoAll(d, InstallOps(lib, d, o.a)[..o.stop.k]))
    ensures var e := After(lib, d, o);
            && Steady(lib, e) && KeepsSettled(d, e) && Committed(lib, e) >= Committed(lib, d)
            && (Load(lib, d.durable).State? ==>
                  Load(lib, e.durable).State? && Load(lib, e.durable).st.rootKey == Load(lib, d.durable).st.rootKey)
  {
    hide StoreFilename, Load, Admitted, NewState, Sound, StorePathUsable, DoAll, RunOps, PowerLoss, Good, Steady, InstallOps, Moment,
         Committed,
         KeepsSettled;
    if !o.stop.PowerLost? {
      NotBroken(lib, d);
      RoundMoment(lib, d, o);
      if After(lib, d, o) != d {
        RoundGoes(lib, d, o);
        MomentIsSteady(lib, d, After(lib, d, o), o.a);
        MomentKeepsSettled(lib, d, After(lib, d, o), NewState(o.a.update));
      } else {
        KeepsSettledItself(d);
      }
    } else {
      StruckRound(lib, d, o);
    }
  }

  lemma {:induction false} NotBroken(lib: Library, d: Disk)
    requires Steady(lib, d)
    ensures !Load(lib, d.live).Broken?
  {
    hide Load;
  }

  /** A run that changes anything was admitted. */
  lemma {:induction false} RoundGoes(lib: Library, d: Disk, o: Round)
    requires Sound(lib) && Possible(lib, d, o) && !o.stop.PowerLost? && After(lib, d, o) != d
    ensures Going(lib, d, o.a)
  {
    hide Load, Admitted, Sound, StorePathUsable, StoreOps, StateOps, Do;
    NoSteps(d);
  }

  lemma {:induction false} StruckRound(lib: Library, d: Disk, o: Round)
    requires Sound(lib) && Steady(lib, d) && Possible(lib, d, o) && o.stop.PowerLost?
    requires Good(lib, DoAll(d, InstallOps(lib, d, o.a)[..o.stop.k]))
    ensures var e := After(lib, d, o);
            && Steady(lib, e) && KeepsSettled(d, e) && Committed(lib, e) >= Committed(lib, d)
            && (Load(lib, d.durable).State? ==>
                  Load(lib, e.durable).State? && Load(lib, e.durable).st.rootKey == Load(lib, d.durable).st.rootKey)
  {
    hide StoreFilename, Load, Admitted, NewState, Sound, StorePathUsable, DoAll, RunOps, PowerLoss, Good, Steady, Moment,
         StoreOps, StateOps, KeepsSettled;
    var ops := InstallOps(lib, d, o.a);
    var f := DoAll(d, ops[..o.stop.k]);
    if Admitted(lib, d, o.a) && StorePathUsable(d, o.a) {
      KilledMoment(lib, d, o.a, o.stop.k);
      MomentIsSteady(lib, d, f, o.a);
      MomentKeepsSettled(lib, d, f, NewState(o.a.update));
    } else {
      NoSteps(d);
      assert ops[..o.stop.k] == [];
      KeepsSettledItself(d);
    }
    PowerLossKeepsSettled(f, o.stop.r);
    KeepsSettledTwice(d, f, Disk(o.stop.r, o.stop.r));
    PowerLossLoads(lib, f, o.stop.r);
    GoodIsSteady(lib, Disk(o.stop.r, o.stop.r));
    LostIsOneOfTwo(lib, f, o.stop.r);
  }

  lemma {:induction false} LostIsOneOfTwo(lib: Library, f: Disk, r: Dir)
    requires Good(lib, f) && (Load(lib, r) == Load(lib, f.live) || Load(lib, r) == Load(lib, f.durable))
    ensures CurrentSequence(Load(lib, r)) >= Committed(lib, f)
    ensures Load(lib, f.durable).State? ==> Load(lib, r).State? && Load(lib, r).st.rootKey == Load(lib, f.durable).st.rootKey
  {
    hide Load, Anchored, ValidState;
  }

  /**
   Any run, with kills, retries and failures anywhere, whose losses of power strike good disks: loading
   always succeeds, the durable sequence never decreases, a durable root key stays, and a store file that
   was settled is never rewritten.
   */
  lemma {:induction false} RunIsSteady(lib: Library, d: Disk, run: seq<Round>)
    requires Sound(lib) && Steady(lib, d) && PossibleRun(lib, d, run) && StrikesGood(lib, d, run)
    ensures var e := End(lib, d, run);
            && Steady(lib, e) && KeepsSettled(d, e) && !Load(lib, e.live).Broken?
            && Committed(lib, e) >= Committed(lib, d)
            && (Load(lib, d.durable).State? ==>
                  Load(lib, e.durable).State? && Load(lib, e.durable).st.rootKey == Load(lib, d.durable).st.rootKey)
    decreases |run|
  {
    hide Load, Sound, Possible, After, Good, Steady, InstallOps, DoAll, Committed, KeepsSettled;
    NotBroken(lib, d);
    if run != [] {
      var mid := After(lib, d, run[0]);
      SteadyRound(lib, d, run[0]);
      RunIsSteady(lib, mid, run[1..]);
      KeepsSettledTwice(d, mid, End(lib, mid, run[1..]));
    } else {
      KeepsSettledItself(d);
    }
  }

  /** A run that never confirms an unsynced store file, as `RunIsSafe` asks, is struck on good disks only. */
  lemma {:induction false} SyncedRunStrikesGood(lib: Library, d: Disk, run: seq<Round>)
    requires Sound(lib) && Good(lib, d) && PossibleRun(lib, d, run) && AlwaysConfirmsSynced(lib, d, run)
    ensures StrikesGood(lib, d, run)
    decreases |run|
  {
    hide Load, Sound, After, Good, DoAll, KeepsSettled, ConfirmsSynced, Admitted, StorePathUsable;
    if run != [] {
      RoundIsSafe(lib, d, run[0]);
      SafeIsGood(lib, d, After(lib, d, run[0]), run[0].a);
      SyncedRunStrikesGood(lib, After(lib, d, run[0]), run[1..]);
      if run[0].stop.PowerLost? {
        StruckWhileSafe(lib, d, run[0].a, run[0].stop.k);
      }
    }
  }

  lemma {:induction false} SafeIsGood(lib: Library, d: Disk, e: Disk, a: Attempt)
    requires SafeChange(lib, d, e, a)
    ensures Good(lib, e)
  {
    hide Good, Load, KeepsSettled;
  }

  lemma {:induction false} StruckWhileSafe(lib: Library, d: Disk, a: Attempt, k: nat)
    requires Sound(lib) && Good(lib, d) && ConfirmsSynced(d, a) && TempName(d, a.temp) && k <= |InstallOps(lib, d, a)|
    ensures Good(lib, DoAll(d, InstallOps(lib, d, a)[..k]))
  {
    hide Load, Sound, Good, DoAll, KeepsSettled, ConfirmsSynced, StoreOps, StateOps, Admitted, StorePathUsable;
    if Admitted(lib, d, a) && StorePathUsable(d, a) {
      InstallPhase(lib, d, a, k);
    } else {
      NoSteps(d);
      assert InstallOps(lib, d, a)[..k] == [];
    }
  }

  /** From nothing installed: whatever such a run does, an update or nothing is loaded, never less than what is durable. */
  lemma {:induction false} RunFromNothing(lib: Library, run: seq<Round>)
    requires Sound(lib) && PossibleRun(lib, Disk(map[], map[]), run) && StrikesGood(lib, Disk(map[], map[]), run)
    ensures var e := End(lib, Disk(map[], map[]), run);
            && !Load(lib, e.live).Broken? && !Load(lib, e.durable).Broken?
            && Committed(lib, e) <= CurrentSequence(Load(lib, e.live))
  {
    hide Load, Sound, Possible, After, Good, InstallOps, DoAll, KeepsSettled;
    EmptyDiskIsGood(lib);
    GoodIsSteady(lib, Disk(map[], map[]));
    RunIsSteady(lib, Disk(map[], map[]), run);
  }

  // ------------------------------------------------ exactly which disks a loss of power spares

  /** A loss of power that keeps one directory's state file, and does as told with one other name. */
  function Lost(d: Disk, dir: Dir, x: string, keep: bool, content: string): Dir
    requires STATE_FILE in dir
  {
    var common := map n | n in d.live && n in d.durable :: File(d.live[n].content, true);
    var stated := common[STATE_FILE := File(dir[STATE_FILE].content, true)];
    if keep then stated[x := File(content, true)] else stated
  }

  lemma {:induction false} LostIsPossible(d: Disk, dir: Dir, x: string, keep: bool, content: string)
    requires (dir == d.live || dir == d.durable) && STATE_FILE in dir && x != STATE_FILE
    requires keep ==> (x in d.live && Survives(d.live[x], File(content, true)))
                      || (x in d.durable && Survives(d.durable[x], File(content, true)))
    ensures PowerLoss(d, Lost(d, dir, x, keep, content))
  {
  }

  lemma {:induction false} LostIsBroken(lib: Library, d: Disk, dir: Dir, x: string, keep: bool, content: string)
    requires Load(lib, dir).State? && x == Load(lib, dir).st.storeFile && x != STATE_FILE
    requires if keep then |content| > MAX_STORE_BYTES || lib.sha(content) != Load(lib, dir).st.storeSha || !lib.storeOk(content)
             else x !in d.live || x !in d.durable
    ensures Load(lib, Lost(d, dir, x, keep, content)).Broken?
  {
    hide ValidState;
  }

  /** A state whose store may be lost can be found broken. */
  lemma {:induction false} UnanchoredBreaks(lib: Library, d: Disk, dir: Dir) returns (r: Dir)
    requires Sound(lib) && (dir == d.live || dir == d.durable)
    requires Load(lib, dir).State? && !Anchored(lib, d, Load(lib, dir).st)
    ensures PowerLoss(d, r) && Load(lib, r).Broken?
  {
    hide ValidState, StoreFilename, PowerLoss, Lost;
    var st := Load(lib, dir).st;
    var x := st.storeFile;
    LoadedStoreName(lib, dir);
    if x !in d.live || x !in d.durable {
      r := Lost(d, dir, x, false, "");
      LostIsPossible(d, dir, x, false, "");
      LostIsBroken(lib, d, dir, x, false, "");
    } else {
      var content := if !d.live[x].synced || !d.durable[x].synced then ""
                     else if !Backed(lib, d.live, st) then d.live[x].content else d.durable[x].content;
      r := Lost(d, dir, x, true, content);
      LostIsPossible(d, dir, x, true, content);
      LostIsBroken(lib, d, dir, x, true, content);
    }
  }

  lemma {:induction false} LoadedStoreName(lib: Library, dir: Dir)
    requires Sound(lib) && Load(lib, dir).State?
    ensures ValidState(Load(lib, dir).st) && Load(lib, dir).st.storeFile != STATE_FILE && STATE_FILE in dir
  {
    StoreFilenameIsItsOwn(Load(lib, dir).st.sequence, "");
    hide StoreFilename, IsSha256;
  }

  /**
   Whatever happened before, every loss of power now leaves something that loads exactly when the disk
   is good: each state that may survive has its store, whole and synced, both seen and durable.
   */
  lemma {:induction false} SparedExactlyWhenGood(lib: Library, d: Disk)
    requires Sound(lib) && Steady(lib, d)
    ensures (forall r :: PowerLoss(d, r) ==> !Load(lib, r).Broken?) <==> Good(lib, d)
  {
    hide PowerLoss, Load, StoreFilename, Anchored, ValidState, Sound;
    if Good(lib, d) {
      forall r | PowerLoss(d, r) ensures !Load(lib, r).Broken? {
        PowerLossLoads(lib, d, r);
      }
    } else if Load(lib, d.live).State? && !Anchored(lib, d, Load(lib, d.live).st) {
      var r := UnanchoredBreaks(lib, d, d.live);
    } else if Load(lib, d.durable).State? && !Anchored(lib, d, Load(lib, d.durable).st) {
      var r := UnanchoredBreaks(lib, d, d.durable);
    } else {
      if Load(lib, d.live).State? { LoadedStoreName(lib, d.live); }
      if Load(lib, d.durable).State? { LoadedStoreName(lib, d.durable); }
      assert false;
    }
  }
}
