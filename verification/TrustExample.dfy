/** A library and an update with which installations really happen, and the failing runs on them. */
module TrustExample {
  import opened Common
  import opened Lines
  import opened Statements
  import opened TrustInstall
  import opened TrustSafety
  import opened TrustRuns
  import opened TrustDeaths

  // ------------------------------------------------ a codec for states

  function Pow10(k: nat): nat {
    if k == 0 then 1 else 10 * Pow10(k - 1)
  }

  lemma {:induction false} DecimalLength(n: nat, k: nat)
    requires k >= 1 && n < Pow10(k)
    ensures |Decimal(n)| <= k
  {
    if n >= 10 {
      DecimalLength(n / 10, k - 1);
    }
  }

  lemma {:induction false} SequenceTakes20Digits(n: nat)
    requires n < SEQUENCE_BOUND
    ensures |Padded(n, 20)| == 20
  {
    assert Pow10(10) == 100_0000_0000;
    assert Pow10(20) == 1_0000_0000_0000_0000_0000 by { Pow10Adds(10, 10); }
    DecimalLength(n, 20);
  }

  lemma {:induction false} Pow10Adds(a: nat, b: nat)
    ensures Pow10(a + b) == Pow10(a) * Pow10(b)
  {
    if a > 0 {
      Pow10Adds(a - 1, b);
    }
  }

  /** Sequence, store hash and root key, one after another; the rest of a valid state follows from these. */
  function EncodeState(st: TrustState): string {
    Padded(st.sequence, 20) + st.storeSha + st.rootKey
  }

  function DecodeState(s: string): Option<TrustState> {
    if |s| != 148 || !IsDigits(s[..20]) then None
    else
      var sequence := Value(s[..20]);
      var st := TrustState(STATE_SCHEMA, sequence, s[20..84], StoreFilename(sequence), s[84..]);
      if ValidState(st) then Some(st) else None
  }

  lemma {:induction false} StateReadsBack(st: TrustState)
    requires ValidState(st)
    ensures DecodeState(EncodeState(st)) == Some(st) && |EncodeState(st)| <= MAX_STATE_BYTES
  {
    hide StoreFilename;
    SequenceTakes20Digits(st.sequence);
    hide Padded, IsHex;
    var s := EncodeState(st);
    assert s[..20] == Padded(st.sequence, 20);
    assert s[20..84] == st.storeSha && s[84..] == st.rootKey;
  }

  // ------------------------------------------------ one update

  const DIGEST := Repeat('0', 64)

  function Sample(): Library {
    Library(_ => DIGEST, s => s != "", (_, _, _) => true, st => EncodeState(st), s => DecodeState(s))
  }

  function SampleAttempt(): Attempt {
    Attempt("store", Update(TRUST_SCHEMA, ED25519, 1, DIGEST, DIGEST, Repeat('0', 128)), Repeat('k', 32),
            TEMP_PREFIX + "1", "", "")
  }

  const EMPTY_DISK := Disk(map[], map[])

  lemma {:induction false} SampleIsSound()
    ensures Sound(Sample())
  {
    hide EncodeState, DecodeState, ValidState;
    forall st | ValidState(st)
      ensures Sample().decodeState(Sample().encodeState(st)) == Some(st) && |Sample().encodeState(st)| <= MAX_STATE_BYTES
    {
      StateReadsBack(st);
    }
    forall s | DecodeState(s).Some? ensures ValidState(DecodeState(s).value) {
      DecodedIsValid(s);
    }
  }

  lemma {:induction false} DecodedIsValid(s: string)
    requires DecodeState(s).Some?
    ensures ValidState(DecodeState(s).value)
  {
    hide ValidState;
  }

  /** What the lemmas about installations assume can be had: a sound library that admits an update. */
  lemma {:induction false} UpdateIsAdmitted()
    ensures Sound(Sample()) && Admitted(Sample(), EMPTY_DISK, SampleAttempt()) && TempName(EMPTY_DISK, SampleAttempt().temp)
  {
    SampleIsSound();
    hide EncodeState, DecodeState, Message;
  }

  /** Installed without interruption, the update is loaded afterwards. */
  lemma {:induction false} UpdateIsInstalled()
    ensures var a := SampleAttempt();
            Load(Sample(), DoAll(EMPTY_DISK, InstallOps(Sample(), EMPTY_DISK, a)).live) == State(NewState(a.update))
  {
    hide Sample, SampleAttempt, Load, Sound, Admitted, InstallOps, DoAll, StoreFilename;
    var lib, a := Sample(), SampleAttempt();
    UpdateIsAdmitted();
    EmptyDiskIsGood(lib);
    RoundMoment(lib, EMPTY_DISK, Round(a, Done));
  }

  /** The run in which a confirmed but unsynced store is lost, on this library and update. */
  lemma {:induction false} StoreIsLost()
    ensures exists run :: PossibleRun(Sample(), EMPTY_DISK, run) && Load(Sample(), End(Sample(), EMPTY_DISK, run).live).Broken?
  {
    hide Sample, SampleAttempt, Load, Sound, Admitted, InstallOps, DoAll;
    UpdateIsAdmitted();
    var run := KilledRetriedThenLost(Sample(), SampleAttempt());
  }

  /** The run in which a loaded state is taken back. */
  lemma {:induction false} StateIsTakenBack()
    ensures var lib, a := Sample(), SampleAttempt();
            var ops := InstallOps(lib, EMPTY_DISK, a);
            && |ops| > 0
            && var e := DoAll(EMPTY_DISK, ops[..|ops| - 1]);
               Load(lib, e.live) == State(NewState(a.update)) && exists r :: PowerLoss(e, r) && Load(lib, r) == NoState
  {
    hide Sample, SampleAttempt, Load, Sound, Admitted, InstallOps, DoAll, StoreFilename;
    UpdateIsAdmitted();
    EmptyDiskIsGood(Sample());
    SeenThenLost(Sample(), EMPTY_DISK, SampleAttempt());
  }
}
