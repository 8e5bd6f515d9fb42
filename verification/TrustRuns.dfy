/** Runs of trust-store installations, and the one way a completed installation can still be lost. */
module TrustRuns {
  import opened Common
  import opened Statements
  import opened TrustInstall
  import opened TrustSafety

  // ------------------------------------------------ any run

  ghost predicate PossibleRun(lib: Library, d: Disk, run: seq<Round>)
    decreases |run|
  {
    run == [] || (Possible(lib, d, run[0]) && PossibleRun(lib, After(lib, d, run[0]), run[1..]))
  }

  ghost function End(lib: Library, d: Disk, run: seq<Round>): Disk
    requires PossibleRun(lib, d, run)
    decreases |run|
  {
    if run == [] then d else End(lib, After(lib, d, run[0]), run[1..])
  }

  /** No run confirms a store file whose bytes were never synced. */
  ghost predicate AlwaysConfirmsSynced(lib: Library, d: Disk, run: seq<Round>)
    requires PossibleRun(lib, d, run)
    decreases |run|
  {
    run == [] || (ConfirmsSynced(d, run[0].a) && AlwaysConfirmsSynced(lib, After(lib, d, run[0]), run[1..]))
  }

  /**
   Over any sequence of installations, each completed, killed or cut by a loss of power: loading always
   succeeds, the durable sequence never decreases, a durable root key stays, and a store file that
   was settled is never rewritten.
   */
  lemma {:induction false} RunIsSafe(lib: Library, d: Disk, run: seq<Round>)
    requires Sound(lib) && Good(lib, d) && PossibleRun(lib, d, run) && AlwaysConfirmsSynced(lib, d, run)
    ensures var e := End(lib, d, run);
            && Good(lib, e) && !Load(lib, e.live).Broken?
            && Committed(lib, e) >= Committed(lib, d)
            && (Load(lib, d.durable).State? ==>
                  Load(lib, e.durable).State? && Load(lib, e.durable).st.rootKey == Load(lib, d.durable).st.rootKey)
            && KeepsSettled(d, e)
    decreases |run|
  {
    hide Possible, After, Load, KeepsSettled, Sound, ConfirmsSynced, InstallOps, Anchored;
    assert !Load(lib, d.live).Broken?;
    if run == [] {
      KeepsSettledItself(d);
    } else {
      var mid := After(lib, d, run[0]);
      RoundIsSafe(lib, d, run[0]);
      DurableRootKept(lib, d, mid, run[0].a);
      RunIsSafe(lib, mid, run[1..]);
      KeepsSettledTwice(d, mid, End(lib, mid, run[1..]));
    }
  }

  lemma {:induction false} KeepsSettledItself(d: Disk)
    ensures KeepsSettled(d, d)
  {
  }

  lemma {:induction false} DurableRootKept(lib: Library, d: Disk, e: Disk, a: Attempt)
    requires Good(lib, d) && SafeChange(lib, d, e, a)
    ensures Load(lib, d.durable).State? ==>
              Load(lib, e.durable).State? && Load(lib, e.durable).st.rootKey == Load(lib, d.durable).st.rootKey
  {
    hide StoreFilename, KeepsSettled, Backed, IsSha256;
    if Load(lib, d.durable).State? {
      assert Load(lib, d.durable).st.sequence > 0;
    }
  }

  // ------------------------------------------------ what a completed run leaves

  lemma {:induction false} StoreOpsResult(d: Disk, a: Attempt)
    ensures DoAll(d, StoreOps(d, a))
         == if StoreFilename(a.update.sequence) in d.live then d
            else d.(live := d.live[StoreFilename(a.update.sequence) := File(a.store, true)])
  {
    hide StoreFilename;
    var name := StoreFilename(a.update.sequence);
    if name !in d.live {
      FourSteps(d, Create(name), Write(name, a.partStore), Write(name, a.store), Fsync(name));
    }
  }

  lemma {:induction false} StateOpsResult(lib: Library, d: Disk, a: Attempt)
    requires a.temp != STATE_FILE
    ensures var content := lib.encodeState(NewState(a.update));
            var live := d.live[a.temp := File(content, true)][STATE_FILE := File(content, true)] - {a.temp};
            DoAll(d, StateOps(lib, a)) == Disk(live, live)
  {
    hide NewState, DoAll;
    StateOpsAre(lib, a);
    var ops := StateOps(lib, a);
    assert ops[..0] == [] && ops[..7] == ops;
    NoSteps(d);
    TakeStep(d, ops, 0);
    TakeStep(d, ops, 1);
    TakeStep(d, ops, 2);
    TakeStep(d, ops, 3);
    TakeStep(d, ops, 4);
    TakeStep(d, ops, 5);
    TakeStep(d, ops, 6);
  }

  // ------------------------------------------------ runs without kills

  /** Nothing is pending: what is seen is what would survive. */
  predicate Quiet(d: Disk) {
    d.live == d.durable && forall n :: n in d.live ==> d.live[n].synced
  }

  lemma {:induction false} QuietConfirms(d: Disk, a: Attempt)
    requires Quiet(d)
    ensures ConfirmsSynced(d, a)
  {
    hide StoreFilename;
  }

  lemma {:induction false} QuietAfterRound(lib: Library, d: Disk, o: Round)
    requires Quiet(d) && Possible(lib, d, o) && (o.stop.Done? || o.stop.PowerLost?)
    ensures Quiet(After(lib, d, o))
  {
    hide StoreFilename, Admitted, StorePathUsable, DoAll, StoreOps, StateOps, NewState;
    if o.stop.Done? {
      NoSteps(d);
      if InstallOps(lib, d, o.a) != [] {
        StoreFilenameIsItsOwn(0, o.a.temp);
        StoreOpsResult(d, o.a);
        StateOpsResult(lib, DoAll(d, StoreOps(d, o.a)), o.a);
        DoAllConcat(d, StoreOps(d, o.a), StateOps(lib, o.a));
      }
    } else {
      PowerLossLeavesSynced(DoAll(d, InstallOps(lib, d, o.a)[..o.stop.k]), o.stop.r);
    }
  }

  lemma {:induction false} PowerLossLeavesSynced(d: Disk, r: Dir)
    requires PowerLoss(d, r)
    ensures forall n :: n in r ==> r[n].synced
  {
  }

  ghost predicate NoKills(run: seq<Round>) {
    forall i :: 0 <= i < |run| ==> run[i].stop.Done? || run[i].stop.PowerLost?
  }

  /**
   When the only interruptions are losses of power, no condition is left: every load succeeds, and the
   sequence that is loaded never decreases, under one root key.
   */
  lemma {:induction false} LoadedSequenceNeverDecreases(lib: Library, d: Disk, run: seq<Round>)
    requires Sound(lib) && Good(lib, d) && Quiet(d) && PossibleRun(lib, d, run) && NoKills(run)
    ensures var e := End(lib, d, run);
            && Good(lib, e) && Quiet(e)
            && !Load(lib, e.live).Broken?
            && CurrentSequence(Load(lib, e.live)) >= CurrentSequence(Load(lib, d.live))
            && (Load(lib, d.live).State? ==>
                  Load(lib, e.live).State? && Load(lib, e.live).st.rootKey == Load(lib, d.live).st.rootKey)
    decreases |run|
  {
    hide Possible, After, Load, KeepsSettled, Sound, ConfirmsSynced, InstallOps, Anchored;
    assert !Load(lib, d.live).Broken?;
    if run != [] {
      var mid := After(lib, d, run[0]);
      QuietConfirms(d, run[0].a);
      RoundIsSafe(lib, d, run[0]);
      QuietAfterRound(lib, d, run[0]);
      DurableRootKept(lib, d, mid, run[0].a);
      assert NoKills(run[1..]);
      LoadedSequenceNeverDecreases(lib, mid, run[1..]);
    }
  }

  lemma {:induction false} EmptyDiskIsGood(lib: Library)
    ensures Good(lib, Disk(map[], map[])) && Quiet(Disk(map[], map[]))
    ensures Load(lib, map[]) == NoState
  {
  }

  // ------------------------------------------------ the confirmed but unsynced store file

  /**
   A store file left by a killed run is confirmed by comparing bytes and never synced.  So a completed
   installation that found its store file in place survives every loss of power exactly when that
   file had been synced; otherwise a loss of power can leave a state whose store is gone.
   */
  lemma {:induction false} ConfirmedStoreSurvivesExactlyWhenSynced(lib: Library, d: Disk, a: Attempt)
    requires Sound(lib) && Good(lib, d) && Admitted(lib, d, a) && StorePathUsable(d, a) && TempName(d, a.temp)
    requires StoreFilename(a.update.sequence) in d.live
    ensures (forall r :: PowerLoss(DoAll(d, InstallOps(lib, d, a)), r) ==> !Load(lib, r).Broken?)
            <==> d.live[StoreFilename(a.update.sequence)].synced
  {
    hide StoreFilename, Load, Good, Sound, PowerLoss, Admitted, StorePathUsable, DoAll, InstallOps, StateOps, StoreOps;
    var o := Round(a, Done);
    var e := DoAll(d, InstallOps(lib, d, a));
    assert Possible(lib, d, o) && After(lib, d, o) == e;
    if d.live[StoreFilename(a.update.sequence)].synced {
      RoundIsSafe(lib, d, o);
      forall r | PowerLoss(e, r) ensures !Load(lib, r).Broken? {
        PowerLossLoads(lib, e, r);
        GoodLoads(lib, e);
      }
    } else {
      var r := UnsyncedStoreLost(lib, d, a);
    }
  }

  lemma {:induction false} GoodLoads(lib: Library, d: Disk)
    requires Good(lib, d)
    ensures !Load(lib, d.live).Broken? && !Load(lib, d.durable).Broken?
  {
  }

  lemma {:induction false} UnsyncedStoreLost(lib: Library, d: Disk, a: Attempt) returns (r: Dir)
    requires Sound(lib) && Admitted(lib, d, a) && StorePathUsable(d, a) && TempName(d, a.temp)
    requires StoreFilename(a.update.sequence) in d.live && !d.live[StoreFilename(a.update.sequence)].synced
    ensures PowerLoss(DoAll(d, InstallOps(lib, d, a)), r) && Load(lib, r).Broken?
  {
    hide StoreFilename, StoreOps, StateOps, DoAll, Good, Message;
    var name := StoreFilename(a.update.sequence);
    var content := lib.encodeState(NewState(a.update));
    StoreFilenameIsItsOwn(a.update.sequence, a.temp);
    StoreOpsResult(d, a);
    StateOpsResult(lib, d, a);
    DoAllConcat(d, StoreOps(d, a), StateOps(lib, a));
    var e := DoAll(d, InstallOps(lib, d, a));
    assert name in e.live && !e.live[name].synced;
    r := LoseContent(e, name);
    assert r[STATE_FILE].content == content;
    NewStateIsValid(lib, d, a);
    assert lib.decodeState(content) == Some(NewState(a.update));
  }

  lemma {:induction false} NewStateIsValid(lib: Library, d: Disk, a: Attempt)
    requires Admitted(lib, d, a)
    ensures ValidState(NewState(a.update))
  {
    hide StoreFilename, Message, Load;
  }

  /** A loss of power that keeps every name, and every byte but those of one unsynced file. */
  lemma {:induction false} LoseContent(e: Disk, name: string) returns (r: Dir)
    requires e.live == e.durable && name in e.live && !e.live[name].synced
    ensures PowerLoss(e, r)
    ensures r.Keys == e.live.Keys && r[name] == File("", true)
    ensures forall n :: n in r && n != name ==> r[n].content == e.live[n].content
  {
    r := map n | n in e.live :: if n == name then File("", true) else File(e.live[n].content, true);
  }

  /**
   The failing run on an empty disk, for any update that is accepted there: killed after the store is
   written and before it is synced, retried to the very end, then a loss of power.
   */
  lemma {:induction false} KilledRetriedThenLost(lib: Library, a: Attempt) returns (run: seq<Round>)
    requires Sound(lib) && Admitted(lib, Disk(map[], map[]), a) && TEMP_PREFIX <= a.temp
    ensures PossibleRun(lib, Disk(map[], map[]), run) && Load(lib, End(lib, Disk(map[], map[]), run).live).Broken?
    ensures |run| == 2 && run[0].a == run[1].a == a && run[0].stop == Killed(3)
    ensures run[1].stop.PowerLost? && run[1].stop.k == |InstallOps(lib, After(lib, Disk(map[], map[]), run[0]), a)| > 0
  {
    hide StoreFilename, StateOps, DoAll, Message, Load, PowerLoss, UpdateAccepted, Sound;
    var empty := Disk(map[], map[]);
    var name := StoreFilename(a.update.sequence);
    StoreFilenameIsItsOwn(a.update.sequence, a.temp);
    var half := Disk(map[name := File(a.store, false)], map[]);
    KilledBeforeSync(lib, a);
    NothingLoadsYet(lib, name, half.live);
    var r := UnsyncedStoreLost(lib, half, a);
    var ops := InstallOps(lib, half, a);
    StateOpsAre(lib, a);
    assert ops[..|ops|] == ops;
    run := [Round(a, Killed(3)), Round(a, PowerLost(|ops|, r))];
    assert Possible(lib, empty, run[0]) && After(lib, empty, run[0]) == half;
    assert Possible(lib, half, run[1]) && After(lib, half, run[1]) == Disk(r, r);
    assert run[1..][1..] == [];
    assert PossibleRun(lib, Disk(r, r), []) && End(lib, Disk(r, r), []) == Disk(r, r);
    assert run[1..][0] == run[1];
  }

  lemma {:induction false} NothingLoadsYet(lib: Library, name: string, dir: Dir)
    requires name != STATE_FILE && dir.Keys == {name}
    ensures Load(lib, dir) == NoState && Load(lib, map[]) == NoState
  {
  }

  lemma {:induction false} KilledBeforeSync(lib: Library, a: Attempt)
    requires Admitted(lib, Disk(map[], map[]), a)
    ensures var name := StoreFilename(a.update.sequence);
            var ops := InstallOps(lib, Disk(map[], map[]), a);
            |ops| >= 3 && DoAll(Disk(map[], map[]), ops[..3]) == Disk(map[name := File(a.store, false)], map[])
  {
    hide StoreFilename, StateOps, DoAll, Admitted;
    var d := Disk(map[], map[]);
    var name := StoreFilename(a.update.sequence);
    var ops := InstallOps(lib, d, a);
    assert ops == [Create(name), Write(name, a.partStore), Write(name, a.store)] + ([Fsync(name)] + StateOps(lib, a));
    NoSteps(d);
    assert ops[..0] == [];
    TakeStep(d, ops, 0);
    TakeStep(d, ops, 1);
    TakeStep(d, ops, 2);
  }

  // ------------------------------------------------ what was seen and then lost

  lemma {:induction false} LoadReadsContents(lib: Library, a: Dir, b: Dir)
    requires a.Keys == b.Keys && forall n :: n in a ==> a[n].content == b[n].content
    ensures Load(lib, a) == Load(lib, b)
  {
    hide ValidState;
  }

  /** A loss of power that takes back every directory change that was not synced. */
  lemma {:induction false} BackToDurable(lib: Library, d: Disk) returns (r: Dir)
    ensures PowerLoss(d, r) && Load(lib, r) == Load(lib, d.durable)
  {
    r := map n | n in d.durable :: File(d.durable[n].content, true);
    LoadReadsContents(lib, r, d.durable);
  }

  /**
   The sequence that is loaded survives every loss of power exactly when the durable one is not behind
   it; between the rename and the sync of the directory it is.
   */
  lemma {:induction false} LoadedSequenceSurvivesExactlyWhenDurable(lib: Library, d: Disk)
    requires Good(lib, d)
    ensures (forall r :: PowerLoss(d, r) ==> CurrentSequence(Load(lib, r)) >= CurrentSequence(Load(lib, d.live)))
            <==> Committed(lib, d) == CurrentSequence(Load(lib, d.live))
  {
    hide Load, PowerLoss, Anchored;
    var back := BackToDurable(lib, d);
    assert Committed(lib, d) <= CurrentSequence(Load(lib, d.live));
    if Committed(lib, d) == CurrentSequence(Load(lib, d.live)) {
      forall r | PowerLoss(d, r) ensures CurrentSequence(Load(lib, r)) >= CurrentSequence(Load(lib, d.live)) {
        PowerLossLoads(lib, d, r);
      }
    }
  }

  /** Up to and including the rename, what is durable is the directory from before it. */
  lemma {:induction false} DurableBeforeFinalSync(lib: Library, a: Attempt, e: Disk)
    ensures |StateOps(lib, a)| == 7 && DoAll(e, StateOps(lib, a)[..6]).durable == e.live
  {
    hide NewState, DoAll;
    StateOpsAre(lib, a);
    var ops := StateOps(lib, a);
    assert ops[..0] == [];
    NoSteps(e);
    TakeStep(e, ops, 0);
    TakeStep(e, ops, 1);
    TakeStep(e, ops, 2);
    TakeStep(e, ops, 3);
    TakeStep(e, ops, 4);
    TakeStep(e, ops, 5);
  }

  lemma {:induction false} RenamedNotSynced(lib: Library, d: Disk, a: Attempt)
    requires Ready(lib, d, a)
    ensures var ops := InstallOps(lib, d, a);
            var e := DoAll(d, ops[..|ops| - 1]);
            && |ops| > 0
            && Load(lib, e.live) == State(NewState(a.update)) && Load(lib, e.durable) == Load(lib, d.live)
  {
    hide StoreFilename, Message, Load, Good, StoreOps, StateOps, DoAll, Sound, Admitted, StorePathUsable, ConfirmsSynced, StoreWritten,
         Within, NewState;
    var first, second := StoreOps(d, a), StateOps(lib, a);
    var e := DoAll(d, first);
    assert first[..|first|] == first;
    StorePhase(lib, d, a, |first|);
    AfterRename(lib, d, a, e);
    DurableBeforeFinalSync(lib, a, e);
    var ops := InstallOps(lib, d, a);
    assert ops[..|ops| - 1] == first + second[..6];
    DoAllConcat(d, first, second[..6]);
  }

  /**
   The failing run: on a disk with nothing pending, any admitted update is killed after the rename and
   before the directory is synced.  The new state is loaded, and a loss of power takes it back.
   */
  lemma {:induction false} SeenThenLost(lib: Library, d: Disk, a: Attempt)
    requires Sound(lib) && Good(lib, d) && Quiet(d) && Admitted(lib, d, a) && StorePathUsable(d, a) && TempName(d, a.temp)
    ensures var ops := InstallOps(lib, d, a);
            var e := DoAll(d, ops[..|ops| - 1]);
            && |ops| > 0 && Possible(lib, d, Round(a, Killed(|ops| - 1)))
            && Load(lib, e.live) == State(NewState(a.update)) && Load(lib, e.durable) == Load(lib, d.live)
            && exists r :: PowerLoss(e, r) && Load(lib, r) == Load(lib, d.live)
  {
    hide StoreFilename, Message, Load, Good, PowerLoss, UpdateAccepted, StoreOps, StateOps, DoAll, Sound;
    QuietConfirms(d, a);
    var ops := InstallOps(lib, d, a);
    assert Ready(lib, d, a);
    RenamedNotSynced(lib, d, a);
    var r := BackToDurable(lib, DoAll(d, ops[..|ops| - 1]));
  }
}
