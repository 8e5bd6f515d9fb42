# AAA: verified models

AAA scans Amiga disk images and keeps an evidence trail.  This project models the parts of it whose
correctness is not visible from one function, and proves what they promise:

- **On-disk formats.** The hunk load-file parser (`HunkFile`, `HunkGrammar`, `HunkDamage`), the walk over
  the AmigaDOS directory graph (`AdfFilesystem`, `AdfBounds`, `AdfTree`, `AdfWalk`, `Paths`, `PathMeaning`)
  and its layout on disk (`AdfBytes`, `AdfLayout`, `AdfTreeWriter`), the reconstruction of file payloads
  (`AdfPayload`, `AdfFileChain`, `AdfFileReading`, `AdfFileWriter`) and the boot-block checksum
  (`Bootblock`), over images as byte sequences (`Bytes`, `AdfImage`).
- **Evidence ledger.** Signed and hashed statements (`Statements`, `StatementTexts`, `Lines`), the hash
  chain (`EvidenceLedger`), checkpoints (`LedgerCheckpoint`), appends (`LedgerAppend`), all of them in the
  words of their format (`LedgerMeaning`), and a concrete ledger (`LedgerExample`).
- **Concurrent and crash protocols.** The job manager (`JobManager`, `JobSafety`, `JobSteps`,
  `JobOutcomes`) with its journal and recovery (`JobJournal`, `JobHistory`, `JobRecovery`, `JobOrder`,
  `JobResults`, `JobExample`), trust-store installation down to single file-system steps
  (`TrustInstall`, `TrustSafety`, `TrustRuns`, `TrustDeaths`, `TrustAuthentic`, `TrustExample`), the
  drop-folder watcher (`DropFolder`, `DropSafety`, `DropMeaning`) and replica publication
  (`ReplicaStore`, `ReplicaSafety`, `ReplicaAlone`).
- **Nested archives.** The recursive scan over a shared budget (`ZipLimits`, `ArchiveScan`,
  `ArchiveSafety`, `ArchiveMeaning`, `ArchiveDisks`), the bootblock database (`SignatureDatabase`,
  `DatabaseMeaning`) and the candidates made from verdicts (`SignatureFactory`, `SignatureSafety`,
  `CandidateMeaning`, `SignatureExample`).
- **Canonical ordering.** Replica sessions identified by a hash of a sorted form (`ReplicaSession`,
  `SessionMeaning`, `ReplicaExample`).

`Common` and `Sorting` hold what several of these share.

Code that changes state step by step is a method or a class proved against a function of its inputs
or old state (`...Spec`); the promises are then lemmas about those functions.  A protocol is a set of
atomic steps (`Enabled`, `Apply`), and its lemmas hold after every interleaving of them, with crashes.
What a `...Spec` function says is held against descriptions that share nothing with it: bytes at their
offsets, texts, limits and names as literals, reference writers, and traces of steps.
Every lemma is proved with automatic induction turned off.

## What is assumed

Cryptography, JSON, clocks and file-system calls are parameters, never axioms.  A module that needs
something of them says so in one predicate, and its lemmas require that predicate.  Each predicate is
shown to hold of a concrete library, on which the operations it is needed for really happen:

- `EvidenceLedger.Sound`: hashes are 64 hexadecimal digits; formatted UTC times have no LF and
  determine the time; the codec round-trips valid records, except that a note which is not UTF-8
  comes back cleaned, and emits no LF or CR; a signature checks under the public half of its key.  Met in
  `LedgerExample.SampleIsSound`.
- `TrustInstall.Sound`: decoding yields only valid states; a valid state, whose sequence is below 2^64,
  has an encoding of at most 4096 characters and is read back from it; an empty store file is rejected.
  Met in `TrustExample.SampleIsSound`, with an update that is installed.
- `ReplicaSession.Sorts`: `sort.Slice` answers with some ordered permutation, any one.  `Injective`:
  the JSON text of a list of valid intents determines it.  Met in `ReplicaExample.SampleSorts`, and a
  session is built with it (`SampleIsBuilt`).
- `JobJournal.Sorts`: likewise for the listing by submission time.  Met in `JobExample.SampleSorts`.
- `ArchiveScan.Bounded`: a limited decoder returns no more bytes and members than it was allowed (for
  ZIP this is proved, `ZipLimits.DecodeZipLimited`).  `Hashing`: hashes are SHA-256 digests.
- `SignatureSafety.Curated`: the database holds only trimmed, non-empty names and sources.  This follows
  from what its parser accepts (`SignatureDatabase.ParsedIsCurated`).  Met, with the two predicates
  above it and a scan, in `SignatureExample.SampleIsTold`.
- `ArchiveDisks.Actual`: images are analysed by size and bootblock digest, matches come from a database.
  Met, for any digests and database, in `ArchiveDisks.ActualScanIsActual`.

SHA-256 is an arbitrary function: where a result rests on it, the lemma exhibits the two different
texts with one hash that would be needed to break it.  File contents and text are sequences of
characters, one per byte, except in `SignatureFactory`, where a character is a code point.  Offsets,
counts and sizes are mathematical integers; where the source's width matters it is written out
(32-bit wrap-around in `Bootblock`, truncated comparisons in `AdfPayload`, 30-bit masks in `HunkFile`,
20 digits in `TrustInstall`), and `HunkGrammar.TotalsFit64Bits` and `AdfPayload.GatheredBytesFit` say
why the others cannot wrap.

## Where a promise has an exact condition

Each of these is a lemma with the exact condition under which the code keeps what one would expect of
it, and comes with a concrete input or run that falls outside.

- `LedgerCheckpoint.CheckpointKeepsVerifying`, `LedgerExample.ReturnBreaksCheckpoint`: `Verify` accepts a
  CR inside a line (JSON white space), `hashesAtSequence` does not.  A checkpoint made from a verified
  ledger is accepted later exactly when its tail line has no CR.
- `LedgerAppend.UncleanAppendBreaksLedger`, `LedgerExample.StrayNoteBreaksLedger`: the statement hashes
  the note's own bytes, JSON replaces bytes that are not UTF-8, so such an append succeeds and the
  ledger then no longer verifies.
- `Bootblock.ValidExactlyWhenSumIsAllOnes`, `OddBlockIsInvalid`: "all 256 words sum to all ones" is the
  same as a valid checksum except when both the stored value and the sum of the others are all ones.
- `TrustRuns.ConfirmedStoreSurvivesExactlyWhenSynced`, `TrustExample.StoreIsLost`: a store file found in
  place is compared but never synced.  A run killed between writing and syncing it, a retry that
  completes, and then a loss of power can leave an installed state whose store is gone.  Deaths and
  failures alone cannot (`TrustDeaths.DeathsAreHarmless`), and a loss of power cannot exactly when it
  strikes a disk whose stores are synced (`TrustDeaths.SparedExactlyWhenGood`).
- `TrustRuns.LoadedSequenceSurvivesExactlyWhenDurable`, `TrustExample.StateIsTakenBack`: a state is loaded
  as soon as it is renamed into place; killed before the directory is synced, a loss of power takes it
  back.  The durable sequence never goes back, the loaded one can, exactly when it is ahead of the
  durable one.
- `JobOrder.SweptTooEarlyExactly`, `PendingFollowsCanceledExactly`, `JobRecovery.PendingAfterCanceled`: a
  submission in flight when shutdown sweeps the map can be journalled pending after it was journalled
  canceled, exactly when it was registered and not yet journalled at the sweep.  The job itself is
  canceled all the same, and recovery closes it (`JobRecovery.CrashThenRecovery`).
- `JobResults.RecoveredExactly`, `ResultIsLost`: a job comes back from a crash with its result exactly when the record of
  the result reached the journal, which a failing recorder can prevent; otherwise it comes back canceled.
- `DropSafety.ProtectedExactlyWhenSaved`, `StoppedBeforeReceipt`: content is kept from being submitted
  again exactly when its own receipt was saved, whatever happens to other receipts.  A stop between
  submitting and saving submits the same content again, so delivery is at least once.
- `SignatureSafety.CandidateMadeExactly`, `SignatureExample.TabInTheSourceFails`: the database parser trims
  the source text of an entry but allows a tab or line break inside; a match on such an entry makes
  candidate generation fail for the whole scan.  `Parse` is only called on the database embedded in the
  program (internal/signatures/db.go:43-49), which has no entries at this commit, so only someone who
  edits that database can supply such a text.

## Model

| member | source | states |
|---|---|---|
| HunkFile.Analyze | internal/hunk/hunk.go:46-184 | The cursor parser computes the word-level reading `AnalyzeSpec`: same segments, totals, header range and warning |
| HunkGrammar.RoundTrip | internal/hunk/hunk.go:46-198 | Writing any well-formed load file and parsing it gives back exactly its segments, range and totals, without warning, whatever trails the last full word |
| HunkGrammar.AcceptsExactlyTheGrammar | internal/hunk/hunk.go:46-198 | A file is recognised without warning if and only if a well-formed header and list of records serialises to its words; the count of the table is not tied to the range |
| HunkDamage.EveryFileIsUnderstood | internal/hunk/hunk.go:46-184 | Every file is no load file, damaged in its header, damaged after some items, or whole, told from its words; and which it is fixes the whole analysis, the warning included |
| HunkGrammar.FlagBitsIgnored | internal/hunk/hunk.go:88-122 | After any well-formed prefix, and whatever follows it, clearing the top two bits of type words and segment lengths changes nothing in the result |
| HunkGrammar.AnalysisAccounted | internal/hunk/hunk.go:46-198 | For any bytes: counts and totals are those of the listed segments, code and data are covered by the file, at most one warning and none unless recognised |
| HunkGrammar.TotalsFit64Bits | internal/hunk/hunk.go:34-44 | The unsigned 64-bit totals cannot wrap for a file below 16 GiB |
| AdfFilesystem.AnalyzeFilesystemBytes | internal/adf/filesystem.go:57-87 | It fails exactly on other sizes or boot blocks; otherwise it reports the stored or expected root, whether that is a root block, and the walk `AnalyzeSpec` from it |
| AdfLayout.OpenedExactly | internal/adf/filesystem.go:57-72 | A disk is analysed exactly for the two sizes, when it starts with `DOS` and a version up to 7 |
| AdfFilesystem.Traversal.Expand | internal/adf/filesystem.go:89-101 | Walking one directory block changes visited set, counts, entries and warnings exactly as `WalkDirectory` says |
| AdfFilesystem.Traversal.FollowChain | internal/adf/filesystem.go:101-163 | One hash chain, with its own set of seen blocks, does what `WalkChain` says, and ends |
| AdfFilesystem.Traversal.Inspect | internal/adf/filesystem.go:115-161 | One header block becomes a file entry, a directory entry with its subtree, or one warning, as `Visit` says |
| AdfBounds.TraversalBounded | internal/adf/filesystem.go:57-189 | For every DD or HD image: files plus directories are the entries, hunk files are counted and are files, no directory block is walked twice, and the listing is bounded by the directory blocks walked |
| AdfLayout.ListingIsTrue | internal/adf/filesystem.go:57-189 | For every DD or HD image, from its bytes: each entry is a header block of its kind whose byte 432 is the length of its name and whose bytes from 433 are the name; its path continues the root or a directory listed before; its payload and hunk analysis are those of its blocks, and all their remarks are among the warnings; and every warning is true of the block it names |
| AdfLayout.VisitByBytes | internal/adf/filesystem.go:115-161 | What a block on a hash chain becomes is told by its bytes: no header, no name (length byte 0 or above 30), a file, a directory, or an unsupported type |
| AdfWalk.ChainByBlocks | internal/adf/filesystem.go:101-163 | On any image a chain is looked at block by block in order, whatever is wrong with one of them, until it ends in 0, loops or leaves the image |
| AdfWalk.ChainEnds | internal/adf/filesystem.go:101-114 | Every chain is such a list of different blocks |
| AdfWalk.DirectoryBySlots | internal/adf/filesystem.go:89-101 | On any image all slots announced at byte 12 are followed in order from byte 24, or depth and table size are refused |
| AdfTree.TreeListedInPreorder | internal/adf/filesystem.go:57-164 | An image that holds a tree is listed in preorder, slot by slot and chain by chain, each directory walked once, with no warning but those about file contents |
| AdfTree.QuietExactlyOnTrees | internal/adf/filesystem.go:57-164 | The traversal gives no warning of its own if and only if the image holds a tree |
| AdfTree.TreePathsSpelled | internal/adf/filesystem.go:128-156 | With ordinary names the listed paths spell the way from the root, in the same order |
| AdfLayout.HeldExactlyWhenLaid | internal/adf/filesystem.go:57-189 | The reader sees a tree exactly where the bytes of the image lay one out, every number and name at its offset |
| AdfTreeWriter.LaidTreeIsListed | internal/adf/filesystem.go:57-164 | An image whose bytes lay out a tree is listed as that tree: names, kinds and header blocks in preorder, paths spelled, no warning but about file contents |
| AdfTreeWriter.QuietExactlyWhenLaid | internal/adf/filesystem.go:57-164 | And no other image is listed without such a warning |
| AdfTreeWriter.TreeReadsBack | internal/adf/filesystem.go:57-189 | Any directory tree the format has room for, written over any image at its literal offsets, is listed as exactly that tree |
| Paths.JoinOrdinary | internal/adf/filesystem.go:128-128 | Joining ordinary names never rewrites a component |
| PathMeaning.JoinSpells | internal/adf/filesystem.go:128-128 | Joining any name to any path spells, in the shortest way, the place reached by walking the name from where the path leads |
| AdfPayload.AnalyzeFilePayload | internal/adf/payload.go:27-116 | The nested loops compute `PayloadSpec`, terminate on every image and read only inside it |
| AdfPayload.GatheredBytesFit | internal/adf/payload.go:101-101 | By counting distinct metadata blocks, the gathered bytes stay below 2^32, so the truncated length comparison is exact |
| AdfFileChain.CompleteExactly | internal/adf/payload.go:43-115 | For every image and header: complete if and only if some chain of good metadata blocks lists good data blocks holding enough bytes, and the data is then the prefix of those bytes |
| AdfFileChain.CompleteOrWarned | internal/adf/payload.go:27-116 | Exactly one of complete and a warning; complete data has the recorded size |
| AdfFileReading.ReadingEnds | internal/adf/payload.go:27-116 | For every image and non-empty file: the reader stops at a point of its chain of blocks that the bytes alone determine, and the bytes there fix the whole result: data and number of blocks, or the warning |
| AdfFileReading.OtherReadings | internal/adf/payload.go:27-42 | An empty file is complete, and a header outside the image is reported |
| AdfFileWriter.ReadsBackWhatWasWritten | internal/adf/payload.go:27-116 | Any non-empty content laid out as header, extension and data blocks (488 or 512 bytes each, slots filled downwards) in any image reads back complete and unchanged |
| AdfImage.Pigeonhole | internal/adf/filesystem.go:166-173 | A set of block numbers inside an image has at most as many members as the image has blocks |
| Bootblock.CalculateBootblockChecksum | internal/adf/adf.go:91-108 | The loop with wrap-around is the end-around-carry sum of the 256 words with word 1 read as zero, complemented; short blocks give 0 |
| Bootblock.CarrySumIsFoldedTotal | internal/adf/adf.go:96-106 | The carry sum is the plain sum taken modulo 2^32 - 1 with 0 kept apart, hence free of order and grouping |
| Bootblock.ChecksumOfBytes | internal/adf/adf.go:91-108 | The calculated checksum as arithmetic on the bytes of the bootblock, bytes 4 to 7 left out |
| Bootblock.StoredChecksumSumsToAllOnes | internal/adf/adf.go:91-108 | Storing the checksum makes all words sum to all ones and is then valid |
| Bootblock.ValidExactlyWhenSumIsAllOnes | internal/adf/adf.go:51-86 | A stored checksum is valid if and only if all words sum to all ones, with the one exception spelled out |
| Bootblock.OddBlockIsInvalid | internal/adf/adf.go:51-86 | The exception exists: a bootblock starting with `DOS` whose words sum to all ones and whose checksum is not valid |
| Bootblock.ReorderingIsInvisible | internal/adf/adf.go:91-108 | Reordering the other words leaves the checksum unchanged |
| Bootblock.SingleChangeDetected | internal/adf/adf.go:91-108 | Changing one other word leaves the checksum unchanged if and only if it swaps 0 and 0xFFFFFFFF beside some nonzero word |
| Statements.MessagesAreInjective | internal/evidenceledger/model.go:151-162 | Equal LF-joined statements come from equal documents, across ledger records, checkpoints, both kinds of trust update and bundle signatures |
| StatementTexts.MessageIsText | internal/evidenceledger/model.go:151-162 | Every message is this very text: constants, numbers and fields in their order, each ended by a line break |
| StatementTexts.Sha256IsDigest | internal/evidenceledger/model.go:251-257 | A digest is 64 characters out of `0123456789abcdef` |
| EvidenceLedger.Verify | internal/evidenceledger/model.go:174-211 | The loop reports the first fault or the summary of `VerifySpec` |
| EvidenceLedger.VerifiedExactlyIntact | internal/evidenceledger/model.go:174-211 | A ledger verifies if and only if it is LF-framed and every line is a valid record, numbered from 1 and linked to the hash of the line before |
| LedgerMeaning.RecordByTheWords | internal/evidenceledger/model.go:107-162 | Which records are valid: schema, number, time, the five events and five kinds, digests, note, and their own hash over the literal statement |
| LedgerMeaning.VerifiedByTheWords | internal/evidenceledger/model.go:174-211 | Verification succeeds exactly for framed lines of valid records numbered from 1 and linked, the first to 64 zeros, and reports the length and the hashes of the last line |
| LedgerMeaning.RejectedByTheWords | internal/evidenceledger/model.go:174-211 | A rejected ledger is rejected for the first thing wrong with its first bad line, or for an unfinished last one |
| EvidenceLedger.EqualHashesEqualPrefixes | internal/evidenceledger/model.go:184-209 | Two verified ledgers with one line hash at n agree on their first n lines, or two of their lines at one index are a collision |
| LedgerCheckpoint.AcceptedLedgerExtendsCheckpointed | internal/evidenceledger/checkpoint.go:137-159 | A ledger accepted under a checkpoint built from L starts with the bytes of L, or a collision is exhibited |
| LedgerCheckpoint.CheckpointKeepsVerifying | internal/evidenceledger/checkpoint.go:175-193 | For a verified ledger that extends the original, the checkpoint is accepted if and only if the checkpointed tail line has no CR |
| LedgerCheckpoint.ReturnBeforeTheRecord | internal/evidenceledger/checkpoint.go:175-193 | A CR before the only record: the ledger verifies and its own checkpoint is refused |
| LedgerExample.ReturnBreaksCheckpoint | internal/evidenceledger/checkpoint.go:175-193 | That input exists: a concrete ledger that verifies, is checkpointed, and fails its own checkpoint |
| LedgerCheckpoint.SignedMessageFixesCheckpoint | internal/evidenceledger/checkpoint.go:161-168 | The signed message determines every field of a checkpoint but the signature |
| LedgerMeaning.BuiltByTheWords | internal/evidenceledger/checkpoint.go:31-56 | A checkpoint is made exactly of a valid ledger with records, of its last one, and signed over the literal message |
| LedgerMeaning.AcceptedByTheWords | internal/evidenceledger/checkpoint.go:116-193 | A checkpoint is accepted if and only if it is well formed and signed with the given key, the ledger is valid, and it has that very record at that number on a line without CR |
| LedgerCheckpoint.StatementFixesRecord | internal/evidenceledger/model.go:120-162 | Records with equal statements agree on every field but their own hash, the note up to a collision |
| LedgerAppend.LedgerFile.Append | cmd/aaa/evidence_ledger.go:112-196 | An append refuses and leaves the file alone, or adds exactly the next line; a file that cannot be opened or was changed meanwhile is left alone, a write cut short leaves a proper prefix of the line, and a failed sync reports failure |
| LedgerAppend.PreviousLineIsLastLine | cmd/aaa/evidence_ledger.go:155-159 | The backwards search for LF finds the last line of the verifier's split |
| LedgerAppend.AppendAddsOneRecord | cmd/aaa/evidence_ledger.go:150-191 | An accepted append keeps the old bytes as a prefix and adds one line; the ledger verifies if and only if the record read back from it is valid |
| LedgerMeaning.AppendedExactly | cmd/aaa/evidence_ledger.go:112-196 | An append is accepted if and only if the ledger is valid and has room and the request is recordable, and the line is the record with the requested event, kind, digest, note and UTC time, numbered and linked |
| LedgerMeaning.RunRecordsRequests | cmd/aaa/evidence_ledger.go:112-196 | Over any run of appends the lines added read, in order, as exactly the accepted requests |
| LedgerAppend.CleanAppendVerifies | cmd/aaa/evidence_ledger.go:150-191 | With a note the codec leaves alone the grown ledger verifies |
| LedgerAppend.UncleanAppendBreaksLedger | internal/evidenceledger/model.go:60-105 | With any other note it does not, unless SHA-256 collides |
| LedgerExample.StrayNoteBreaksLedger | internal/evidenceledger/model.go:60-105 | The failing input: an append to the empty ledger that succeeds and leaves a ledger that no longer verifies |
| LedgerExample.OrdinaryAppend | cmd/aaa/evidence_ledger.go:112-196 | Beside it, an append to the empty ledger that succeeds and verifies |
| LedgerAppend.TornAppendIsDetected | internal/evidenceledger/model.go:174-180 | A write cut short anywhere is reported as a partial final record |
| LedgerAppend.DisturbedAppend | cmd/aaa/evidence_ledger.go:112-196 | Whatever disturbs it, by the kind of disturbance: an append leaves the ledger as it was, or grown by the whole line, or by its first bytes and then reported as torn |
| LedgerAppend.RunKeepsLedger | cmd/aaa/evidence_ledger.go:112-196 | Any run of appends keeps the ledger verifying, the old bytes first, and one record per accepted request |
| LedgerAppend.CheckpointSurvivesAppends | internal/evidenceledger/checkpoint.go:31-56 | A checkpoint taken at any point of a ledger's life is accepted at every later point |
| JobManager.Manager.BeginExecute | internal/daemon/daemon.go:173-184 | A job is started exactly when it is known and pending |
| JobManager.Manager.CancelPending | internal/daemon/daemon.go:210-223 | Exactly the pending jobs are canceled and reported, each once, whatever the map order |
| JobSafety.StepKeeps | internal/daemon/daemon.go:85-246 | Every step of every submitter, worker and the shutdown keeps the invariant |
| JobSafety.StepMovesJobs | internal/daemon/daemon.go:85-229 | A job only moves pending to running to succeeded or failed, or pending to canceled, and leaves the map only after a failed first write |
| JobSafety.TerminalIsFinal | internal/daemon/daemon.go:173-229 | Over any run a terminal state never changes |
| JobSafety.BoundsHold | internal/daemon/daemon.go:138-208 | Over any run each job is scanned at most once, the queue stays within its depth, and at most `workers` jobs are running |
| JobOutcomes.OutcomesAreAnswers | internal/daemon/daemon.go:85-229 | From the list of steps alone: a job has the path it was submitted with, is succeeded or failed only as its scan answered, jobs are taken in queue order, and journal, scans and reported failures are those of the steps |
| JobSteps.SubmitterGoesOn | internal/daemon/daemon.go:100-126 | A submission always goes on in one way; the queue is full exactly when it holds its depth |
| JobSteps.WorkerGoesOn | internal/daemon/daemon.go:162-208 | A worker always goes on with its job; idle, it takes one if there is one, and may leave once shutdown began |
| JobSteps.SubmissionIsOpen | internal/daemon/daemon.go:85-99 | Any path can be submitted under a new identity at any time |
| JobSteps.ShutdownGoesOn | internal/daemon/daemon.go:128-160 | Shutdown begins on request or on a reported error, sweeps exactly when all workers left, and journals before it returns |
| JobSafety.NothingLeftBehind | internal/daemon/daemon.go:210-229 | After the final sweep a job registered before it is terminal, except exactly those whose running record failed |
| JobJournal.LoadLatest | internal/scanhistory/store.go:65-109 | Replay fails exactly when some line is malformed; otherwise it lists the last snapshot of every job once, newest submission first |
| JobJournal.KeptIsLast | internal/scanhistory/store.go:65-99 | A job is kept exactly if some line is a snapshot of it, with the state of the last such line |
| JobJournal.Store.RecoverInterrupted | internal/scanhistory/store.go:114-132 | Recovery appends one canceled snapshot for each pending or running job, in listing order, and nothing else; a failed append stops it there |
| JobJournal.RecoveryClosesInterrupted | internal/scanhistory/store.go:114-132 | After recovery every job is terminal, as recorded or canceled |
| JobJournal.SecondRecoveryIsIdle | internal/scanhistory/store.go:114-132 | A second recovery appends nothing |
| JobJournal.RecoveryResumes | internal/scanhistory/store.go:114-132 | A recovery that a failed append stopped anywhere is completed by the next one, with the outcome of an undisturbed one |
| JobHistory.JournalTellsTheLife | internal/daemon/daemon.go:85-239 | At any moment of any run, without recorder failures, the journal of a job is its life so far, or all but the step about to be recorded, unless its submission was overtaken by the sweep |
| JobRecovery.JournalsOfOvertaken | internal/daemon/daemon.go:100-126 | A submission overtaken by the sweep is canceled, and its journal is one of seven, each with at most one pending and two canceled snapshots |
| JobRecovery.PendingAfterCanceled | internal/daemon/daemon.go:100-126 | The run that journals pending after canceled |
| JobOrder.PendingFollowsCanceledExactly | internal/daemon/daemon.go:100-126 | From any moment after the sweep, and over every continuation without recorder failures, an overtaken submission can be journalled pending after canceled if and only if pending is not the first thing on file about it |
| JobOrder.SweptTooEarlyExactly | internal/daemon/daemon.go:210-228 | At the sweep itself this is so if and only if the submission is registered and not yet journalled |
| JobRecovery.RecoveryNeverInvents | internal/scanhistory/store.go:114-132 | After a crash at any moment of any run, recorder failures and races included, recovery shows a job as canceled or in the state it really had |
| JobResults.RecoveredExactly | internal/scanhistory/store.go:114-132 | After a crash at any moment of any run, recorder failures included, a job comes back with the result it had if and only if a result of it reached the journal, and every other journalled job canceled |
| JobOutcomes.RecoveredIsTheAnswer | internal/scanhistory/store.go:114-132 | A result that comes back after a crash is what the scan answered |
| JobResults.ResultIsLost | internal/daemon/daemon.go:186-208 | The run in which a job succeeds, its last record fails, and recovery closes it as canceled |
| JobRecovery.CrashThenRecovery | internal/scanhistory/store.go:114-132 | After a crash at any moment of a run without recorder failures and a restart, a job journalled to its end keeps that end and every other journalled job is canceled |
| TrustInstall.StateRoot.WriteImmutableOrConfirm | cmd/aaa/trust_update_install.go:207-240 | A missing store file is created, written and synced, and removed again if that fails; an existing one is only compared, and nothing is synced |
| TrustInstall.StateRoot.AtomicReplaceFile | cmd/aaa/trust_update_install.go:242-273 | The state file is replaced by writing, syncing and renaming a temporary file, in this order; if any step fails the temporary file is removed |
| TrustInstall.StateRoot.Install | cmd/aaa/trust_update_install.go:45-74 | One run performs exactly the steps `InstallOps`, up to the one that fails and the cleaning up after it, or none when the update is refused |
| TrustAuthentic.InstallsExactly | cmd/aaa/trust_update_install.go:45-74 | A run does anything exactly for a well-formed update of the pinned root key that is signed over the literal message, names this very store, and is newer than a state of the same root, when its store name is free or holds this store |
| TrustAuthentic.EveryStateIsSigned | internal/evidencebundle/trust_update.go:124-154 | From an empty disk, through failures, deaths and losses of power at any step: every state ever loaded was signed by its root key in one of the attempts, for this sequence, store and root |
| TrustAuthentic.NewStateIsSigned | internal/evidencebundle/trust_update.go:124-154 | A run that makes a state load that was not there before carries the signature for it |
| TrustAuthentic.SignatureServesOneState | internal/evidencebundle/trust_update.go:156-165 | No document of another sequence, store, root or kind has the text that was signed |
| TrustAuthentic.LoadedExactly | cmd/aaa/trust_update_install.go:119-155 | What is loaded is the decoded state file, within 4096 bytes, whose store is there within 1 MiB, hashed as the state says, and valid |
| TrustSafety.StoreFilenameInjective | internal/evidencebundle/trust_state.go:23-28 | Different sequences have different store file names |
| TrustSafety.InstallPhase | cmd/aaa/trust_update_install.go:157-205 | After any number of steps of one run that does not confirm an unsynced store file, what is loaded live or after a loss of power is the old or the new state, with its store |
| TrustSafety.RoundIsSafe | cmd/aaa/trust_update_install.go:119-273 | One run that does not confirm an unsynced store file, completed, failed, killed or cut by a loss of power at any step: the next load succeeds with an old or the new state, the durable sequence does not go back, the root key stays, settled store files keep their bytes |
| TrustRuns.RunIsSafe | cmd/aaa/trust_update_install.go:119-273 | Over any sequence of runs, completed, failed, killed or cut by losses of power, in which no store file is confirmed unsynced: loading succeeds, the durable sequence does not decrease, the root key stays, settled store files keep their bytes |
| TrustDeaths.KilledMoment | cmd/aaa/trust_update_install.go:157-205 | After any number of steps of one run, whatever was synced before: the old or the new state is loaded, only the state file is replaced, and what is durable is unchanged, or loads as before the run, or loads the new state once that is what is seen |
| TrustDeaths.SteadyRound | cmd/aaa/trust_update_install.go:119-273 | One run from any disk that loads, whatever store file it confirms: it still loads live and durably, the durable sequence does not decrease, the root key stays; a loss of power is asked to strike a good disk |
| TrustDeaths.DeathsAreHarmless | cmd/aaa/trust_update_install.go:119-273 | Over any sequence of runs, completed, failed or killed at any step, with no condition on what was synced: loading succeeds, the loaded sequence does not decrease, the root key stays, and every file but the state file keeps its bytes |
| TrustDeaths.StoreCleaned | cmd/aaa/trust_update_install.go:207-223 | A run that fails while writing its store leaves the disk as it was |
| TrustDeaths.StateCleaned | cmd/aaa/trust_update_install.go:242-262 | A run that fails while replacing the state leaves nothing but the store it wrote |
| TrustDeaths.RunIsSteady | cmd/aaa/trust_update_install.go:119-273 | Over any sequence of runs, retries of killed ones included, whose losses of power strike good disks: loading succeeds live and durably, the durable sequence does not decrease, the root key stays, settled store files keep their bytes |
| TrustDeaths.SparedExactlyWhenGood | cmd/aaa/trust_update_install.go:207-240 | On any disk such runs lead to, every loss of power leaves something that loads if and only if each state that may survive has its store whole and synced in both directories |
| TrustDeaths.SyncedRunStrikesGood | cmd/aaa/trust_update_install.go:207-240 | Runs that never confirm an unsynced store file are only ever struck on good disks |
| TrustDeaths.RunFromNothing | cmd/aaa/trust_update_install.go:119-205 | From an empty disk such runs never load anything broken, nor anything older than what is durable |
| TrustRuns.LoadedSequenceNeverDecreases | internal/evidencebundle/trust_update.go:124-154 | When only losses of power interrupt, the loaded sequence never decreases, under one root key, with no further condition |
| TrustRuns.ConfirmedStoreSurvivesExactlyWhenSynced | cmd/aaa/trust_update_install.go:207-240 | A completed run that found its store file in place survives every loss of power if and only if that file had been synced |
| TrustRuns.KilledRetriedThenLost | cmd/aaa/trust_update_install.go:207-240 | The failing run from an empty disk: killed before the sync, completed on retry, power lost, state broken |
| TrustExample.UpdateIsInstalled | cmd/aaa/trust_update_install.go:119-205 | A concrete update on an empty disk is installed and loaded |
| TrustExample.StoreIsLost | cmd/aaa/trust_update_install.go:207-240 | The failing run on that concrete update |
| TrustRuns.LoadedSequenceSurvivesExactlyWhenDurable | cmd/aaa/trust_update_install.go:157-205 | The loaded sequence survives every loss of power if and only if the durable one is not behind it |
| TrustRuns.SeenThenLost | cmd/aaa/trust_update_install.go:157-205 | The failing run, for any update admitted on a quiet disk: killed between rename and directory sync, the new state is loaded and a loss of power takes it back |
| TrustExample.StateIsTakenBack | cmd/aaa/trust_update_install.go:157-205 | The failing run on the concrete update |
| DropFolder.Watcher.Poll | internal/dropfolder/watcher.go:68-134 | One poll changes observations, receipts, the receipt file and the submissions exactly as `PollSpec` |
| DropFolder.Watcher.Prune | internal/dropfolder/receipts.go:64-77 | Observations and receipts are cut down to the present names, and saved only if receipts changed |
| DropMeaning.PollByName | internal/dropfolder/watcher.go:68-134 | After a successful poll every name has the fate that its own history, candidate, staging and queue answer determine; unseen names are forgotten |
| DropMeaning.SubmittedExactly | internal/dropfolder/watcher.go:85-118 | A file is submitted if and only if it was there unchanged for long enough, is not dealt with, is staged, not on record, and the queue takes it |
| DropMeaning.PollFailsExactly | internal/dropfolder/watcher.go:68-134 | A poll fails if and only if the directory cannot be read, some name fails, or receipts to be dropped cannot be saved |
| DropSafety.SubmittedOnlyWhenStable | internal/dropfolder/watcher.go:85-118 | A name is submitted only after the same path, size and time was seen at every poll since one at least `StableFor` earlier, with no failure or restart in between |
| DropSafety.SubmittedOnce | internal/dropfolder/watcher.go:85-118 | A file that stays as it was submitted is not submitted again while the watcher runs |
| DropSafety.ContentNotResubmitted | internal/dropfolder/receipts.go:52-61 | Across polls, failures and restarts, and whatever happens to other receipts, content whose own receipt was saved is not submitted again under a name that stayed present |
| DropSafety.ProtectedExactlyWhenSaved | internal/dropfolder/watcher.go:105-118 | A submission is safe from being repeated in every continuation if and only if receipts are in use and its own was saved; otherwise a restart and two polls `StableFor` apart repeat it |
| DropSafety.StoppedBeforeReceipt | internal/dropfolder/watcher.go:110-118 | The run outside its condition: a stop between submitting and saving the receipt submits the same content twice |
| DropSafety.OnlyPresentNames | internal/dropfolder/receipts.go:64-77 | At any point of any run, after a successful poll observations and receipts are only of present names, and receipts are saved |
| ReplicaStore.ReplicaRoot.ReplicateObject | cmd/aaa/evidence_replica.go:101-197 | Alone, a run succeeds exactly when the object is there and right, or missing with a right source and nothing in the way; only the object itself can be added, also when confirming it fails after it was linked, and a temporary file stays only if it could not be removed |
| ReplicaAlone.RunAlone | cmd/aaa/evidence_replica.go:101-197 | The steps of one run, taken without interruption, succeed exactly if the object is there and right, or missing with a stable and right source, and leave nothing but the object |
| ReplicaStore.ObjectNameInjective | internal/evidencereplica/model.go:38-43 | Different digests have different object names |
| ReplicaStore.TempIsNoObject | cmd/aaa/evidence_replica.go:136-140 | No temporary file name is an object name |
| ReplicaSafety.StepKeeps | cmd/aaa/evidence_replica.go:101-197 | Every step of every concurrent run keeps the root consistent and published objects unchanged |
| ReplicaSafety.ReplicationIsSafe | cmd/aaa/evidence_replica.go:101-197 | Under every interleaving and death of runs, objects hash to their names and never change, and a successful run's object has the receipt's hash and size from then on |
| ReplicaSafety.ExecutionContinues | cmd/aaa/evidence_replica.go:101-197 | From a consistent root every receipt in play stays valid, and whatever step is enabled extends the execution |
| ReplicaSafety.RepeatIsIdle | cmd/aaa/evidence_replica.go:101-117 | Once a run with a receipt has succeeded, every run with that receipt that looks at the destination from then on succeeds and changes no file, and only runs that had looked before can still make a temporary file for it |
| ReplicaSafety.OneSizePerObject | cmd/aaa/evidence_replica.go:101-197 | Two receipts with one digest and different sizes cannot both succeed |
| ReplicaSession.SessionID | internal/evidencereplica/session.go:64-88 | The two loops compute `SessionIdSpec`: the first faulty intent, an empty list, equal neighbours, or the hash of the canonical text |
| ReplicaSession.Validate | internal/evidencereplica/session.go:90-123 | The checks run in order and report the first fault, with the object's index |
| ReplicaSession.BuildSession | internal/evidencereplica/session.go:50-62 | Sort, identify, validate: the result is `BuildSpec` |
| SessionMeaning.BuiltByTheWords | internal/evidencereplica/session.go:50-150 | What building answers in every case: the first bad intent, no objects, a duplicate, a bad time or note, the first bad result, or the session with its literal schema, sorted objects and the hash of their intents |
| SessionMeaning.ObjectByTheWords | internal/evidencereplica/session.go:125-150 | Which objects are valid, and what is reported first for the others |
| SessionMeaning.OrderByTheWords | internal/evidencereplica/session.go:156-167 | Objects are ordered by kind, digest, size and name, texts byte by byte |
| ReplicaSession.IntentTrichotomy | internal/evidencereplica/session.go:156-167 | Of two intents exactly one of less, greater and equal holds |
| ReplicaSession.IntentTransitive | internal/evidencereplica/session.go:156-167 | The order on intents is transitive |
| ReplicaSession.SortedFormIsUnique | internal/evidencereplica/session.go:152-154 | Two ordered arrangements of the same intents are equal, so the unstable sort has one answer |
| ReplicaSession.DuplicatesAreFound | internal/evidencereplica/session.go:77-81 | Comparing neighbours after sorting reports a duplicate if and only if two objects anywhere have one intent |
| ReplicaSession.BuildIgnoresOrder | internal/evidencereplica/session.go:50-62 | For every permutation of the objects and every sort the answer, session or error, is the same |
| ReplicaSession.EqualSetsOneIdentity | internal/evidencereplica/session.go:64-88 | Sessions with equal sets of intents have one ID, whatever their results and errors |
| ReplicaSession.OneIdentityEqualSets | internal/evidencereplica/session.go:82-87 | Sessions with one ID have equal sets of intents, or their canonical texts are a collision |
| ReplicaSession.BuildSucceedsExactly | internal/evidencereplica/session.go:50-150 | Building succeeds if and only if there are objects, all valid, without duplicate intents, and note and time are acceptable |
| ReplicaSession.BuiltSession | internal/evidencereplica/session.go:50-123 | A built session holds exactly the given objects, strictly ascending, and passes its own validation |
| ZipLimits.DecodeZipLimited | internal/archive/archive.go:86-135 | ZIP decoding succeeds if and only if the entries are readable and within both limits, and then returns every regular entry whole and in order |
| ZipLimits.RegularByTheWords | internal/archive/archive.go:86-135 | The members are the files of the archive, each under its name with its whole content, in order |
| ArchiveScan.ArchiveBudget.Reserve | internal/scanner/scanner.go:342-352 | A reservation is made entirely if it fits and changes nothing otherwise |
| ArchiveScan.ScanArchiveMembersDepth | internal/scanner/scanner.go:222-249 | The member loop produces the results and the budget of `MembersSpec` |
| ArchiveScan.ScanMemberPayload | internal/scanner/scanner.go:251-328 | One member, with the analyses of its kind and everything nested in it, produces the result and the budget of `MemberSpec` |
| ArchiveScan.Propagate | internal/scanner/scanner.go:362-386 | The first infected child decides the verdict and detection of a container |
| ArchiveScan.ScanArchiveFile | internal/scanner/scanner.go:164-179 | Scanning an archive file starts the budget with the outer archive and gives the result of `FileSpec` |
| ArchiveSafety.MembersSpend | internal/scanner/scanner.go:222-352 | From any budget, a scan adds exactly the bytes and members of all archives in its results |
| ArchiveSafety.MembersWithinLimits | internal/scanner/scanner.go:330-352 | The budget never leaves 32 MiB and 1024 members, and the reservation after a successful limited decode never fails |
| ArchiveSafety.MembersShape | internal/scanner/scanner.go:310-327 | Nesting stops at the depth limit, and every nested result is one of the members that were reserved |
| ArchiveSafety.ScanIsAccounted | internal/scanner/scanner.go:164-179 | For a whole file the final budget is the exact sum over the result tree, within limits, at most three levels deep, no reservation refused |
| ArchiveSafety.VerdictsNameLeaves | internal/scanner/scanner.go:354-386 | Everywhere in a result a container is infected if and only if some leaf below is, and its detection spells the path to the first such leaf |
| ArchiveMeaning.MemberIsShown | internal/scanner/scanner.go:251-328 | At every depth the result says of each member what its content asks for: the analysis of a disk image, plain or packed, of an executable, the members of an archive, or exactly why not, with literal limits on what was expanded before |
| ArchiveMeaning.FileIsShown | internal/scanner/scanner.go:63-188 | The same for a whole file, and when its scan fails |
| ArchiveMeaning.InfectedExactly | internal/scanner/scanner.go:63-188 | A file is infected if and only if some disk image within reach of the limits is malicious by the database, and the detection names the way to the first one |
| ArchiveDisks.DiskInfectedExactly | internal/scanner/scanner.go:409-450 | With the real analysis and database: if and only if some image of the size of a disk is within reach whose first 1024 bytes have a digest that the database lists as malicious |
| SignatureDatabase.Parse | internal/signatures/db.go:51-84 | A database is accepted if and only if its schema is 1, every entry is sane once trimmed and no digest repeats; it then holds the trimmed entries in order |
| SignatureDatabase.Lookup | internal/signatures/db.go:86-94 | The loop finds the first entry with the normalised digest |
| SignatureDatabase.FoundIsTheEntry | internal/signatures/db.go:86-94 | In a parsed database a digest is found if and only if an entry has it, and then it is that entry |
| SignatureDatabase.ParsedIsCurated | internal/signatures/db.go:51-84 | Whatever a parsed database matches has a trimmed, non-empty name and source |
| DatabaseMeaning.AcceptedByTheWords | internal/signatures/db.go:51-84 | Which databases are accepted, and what each entry is kept as |
| DatabaseMeaning.MatchByTheWords | internal/signatures/db.go:86-94 | A digest in any case and with spaces matches the one entry that has it, and tells its status, name, family and source |
| SignatureFactory.SanitizeFamily | internal/signaturefactory/generate.go:148-165 | The builder loop computes `Sanitized`, stopping at 64 characters |
| CandidateMeaning.SanitizedByTheWords | internal/signaturefactory/generate.go:148-165 | A text without the spaces around it, everything but letters, digits and marks squashed to dashes, cut at 64, without marks at its ends |
| CandidateMeaning.TrimByTheWords | internal/signaturefactory/generate.go:149-164 | Trimming takes off both ends exactly what is to be cut |
| CandidateMeaning.NormalizedByTheWords | internal/signaturefactory/generate.go:136-146 | The family is that of the match, or its name, or `Unknown` |
| SignatureSafety.SanitizedIsEmptyOrValid | internal/signaturefactory/generate.go:136-165 | Any text sanitises to nothing or to a valid family name |
| SignatureSafety.IdentityDetermines | internal/signaturefactory/candidate.go:149-159 | Candidate IDs are equal if and only if family and first 16 hash digits are |
| SignatureFactory.CandidatesFromMember | internal/signaturefactory/generate.go:63-81 | The recursive collection computes `Generated`, and fails if any candidate fails |
| CandidateMeaning.CandidateByTheWords | internal/signaturefactory/candidate.go:223-307 | Which candidates are valid: identity, names, digests, evidence and time |
| CandidateMeaning.BootblockByTheWords | internal/signaturefactory/generate.go:83-115 | The candidate for an infected bootblock field by field, made if and only if the fields are valid |
| CandidateMeaning.FileByTheWords | internal/signaturefactory/generate.go:117-133 | The candidate for a file found infected by other means |
| CandidateMeaning.NodeByTheWords | internal/signaturefactory/generate.go:83-134 | Which of them a result contributes, if any |
| CandidateMeaning.GeneratedByTheWords | internal/signaturefactory/generate.go:63-81 | The candidates of all infected results, each before what is below it, or failure if one fails |
| SignatureFactory.Store.WriteCandidate | internal/signaturefactory/store.go:48-114 | A candidate is accepted exactly when its ID is new or stored with the same content and the file system plays along; nothing stored is replaced |
| SignatureFactory.Store.RecordScanResult | internal/signaturefactory/generate.go:23-61 | Recording computes `RecordSpec`: pruning by verdict, generation, and one write per ID up to the first that fails |
| CandidateMeaning.RecordedByTheWords | internal/signaturefactory/generate.go:23-61 | What recording reports and leaves in the store: the first candidate of each identity in order, up to the first that cannot be stored |
| SignatureSafety.CandidatesAreInfectedLeaves | internal/signaturefactory/generate.go:34-134 | Candidates before removing duplicates are exactly the infected bootblocks of the scan, depth first, never containers and never file hashes |
| SignatureSafety.CandidateMadeExactly | internal/signaturefactory/evidence.go:20-45 | A bootblock candidate can be made if and only if the matched entry's source has no tab or line break |
| SignatureSafety.ScanYieldsCandidatesExactly | internal/signaturefactory/generate.go:34-46 | For a scanned file generation succeeds if and only if every infected leaf's entry has such a source |
| SignatureExample.SampleIsScanned | internal/scanner/scanner.go:430-450 | Any file of the size of a disk whose bootblock is in the database scans as infected by that entry |
| SignatureExample.TabInTheSourceFails | internal/signatures/db.go:51-84 | The failing input, from the parsed database through the scan to the recording: a source text with a tab |
| SignatureSafety.RecordingSucceedsExactly | internal/signaturefactory/generate.go:48-60 | Recording succeeds if and only if all candidates can be made and the first of each ID is new to the store or stored as it is |
| SignatureSafety.EveryLeafIsRecorded | internal/signaturefactory/generate.go:48-60 | After recording, every infected leaf's ID is stored, the first with it as is, and older entries are untouched |
| SignatureSafety.RecordingAgain | internal/signaturefactory/store.go:71-78 | Recording the same infected result again succeeds if and only if the time is the same |
| SignatureExample.SecondScanConflicts | internal/signaturefactory/store.go:71-78 | One image scanned and recorded at two different times: a second record under the ID, with other content, is a conflict |

## Left out

- HTTP API, web interface, command-line parsing, printing and configuration: no invariant beyond one branch.
- ZIP, LHA, LZX, gzip and DMS decompression, external tools and the process limits around them: parameters with their limit contracts; a decoder is a function of its input and limits.
- ArchiveScan.ScanMemberPayload: `DetectFormat` is a parameter, and the listing of a disk image is an abstract value here; `AdfFilesystem` is about the listing itself.
- ArchiveScan.ScanArchiveFile: the other cases of `ScanFile` are in `FileSpec` only; reading the file is not modelled.
- SignatureFactory.Store.RecordScanResult: one process at a time, and stored content is compared as a value, which for database text is the same as comparing its JSON.
- JobManager.Manager.BeginExecute: the other critical sections, channel operations and journal writes are steps of `JobManager.Apply` on a value, so aliasing of the shared map is not captured.
- JobHistory.JournalTellsTheLife: excludes submissions in flight when shutdown sweeps the map, whose journals `JobRecovery.JournalsOfOvertaken` and `JobOrder` describe, and anything after a failed journal write.
- JobRecovery.CrashThenRecovery: for runs without recorder failures; `JobResults.RecoveredExactly` is for all runs.  A crash falls between complete journal lines.
- JobJournal.LoadLatest: which lines are malformed is decided by decoding JSON and is a parameter; the limit on the length of a line is part of it.
- JobSafety.NothingLeftBehind: random job IDs are assumed never to repeat.
- TrustSafety.InstallPhase, TrustSafety.RoundIsSafe: for runs that do not confirm an unsynced store file; `TrustDeaths.KilledMoment` and `TrustDeaths.SteadyRound` are for all.
- TrustRuns.RunIsSafe: likewise, and `TrustDeaths.RunIsSteady` is for all; one installer at a time, since the source takes no lock; it claims safety and not progress, as a partial store file left by a crash blocks a retry of that sequence.
- TrustRuns.LoadedSequenceNeverDecreases: for runs without kills; with kills and no loss of power `TrustDeaths.DeathsAreHarmless`, and with both it is false (`TrustRuns.SeenThenLost`).
- TrustInstall.StateRoot.Install: permissions, symbolic-link checks and the ledger record written after installing are left out, and so is a failing close of the store file; a removal that fails leaves what a kill there leaves, which every theorem about runs covers.
- LedgerAppend.LedgerFile.Append: the exclusive lock makes an append one step; directories are not part of the model.
- DropSafety.ProtectedExactlyWhenSaved: a saved receipt is on file for good; the source does not sync the directory after renaming it into place, so a loss of power is not covered.
- DropFolder.Watcher.Poll: copying and hashing in `Stage` and the checks in `Observe` are answers of the surroundings; their only contract is the snapshot's hash and size.
- ReplicaSafety.ReplicationIsSafe: for a root whose namespace other programs leave alone; permissions and loss of power are left out.
- ReplicaStore.ReplicaRoot.ReplicateObject: directories and their syncing appear only as ways to fail.
- ReplicaSession.Validate: formatting and parsing of times are parameters; the JSON form of a whole session is left out.
- AdfPayload.AnalyzeFilePayload: the SHA-256 of the payload is left out; it is a function of the data, which is part of the result.
- SignatureDatabase.Parse: decoding JSON, and the notes of an entry; lower-casing is that of ASCII, the only one a digest can need.
- AdfFileWriter.ReadsBackWhatWasWritten: for content that is not empty; an empty file is complete by its size alone.
- HunkFile.Analyze: texts of warnings are constructors, not strings.
- EvidenceLedger.Verify: sequences are natural numbers; the 64-bit counter would take 2^64 records to wrap.
- Checkpoint trust store and update, and distribution install and update: the same pattern as trust-store installation.
- Historical scanner parsers, engine registry, acquisition repeatability and ClamAV output: settled by reading one branch.
