# Verified model of the platform's recovery and durable-operation core

The repository keeps four pieces of machinery that must not go wrong quietly: the recovery controller's epoch
store, the durable database operations, the persisted locator adapter and the bounded CSRF token store.  This
project models them in Dafny and proves what they are for, for every input, every run, every crash and every
interleaving.

**Recovery epoch store** (`scripts/platform-recovery-controller-store.py`).  An epoch directory is a map from
file names to documents; a call loads and cross-checks everything, decides, performs up to six single-file
writes and reloads.  A crash or an I/O error is a call that completes only a prefix of its writes (`cut`).
Calls on one epoch hold its locks, so a run is a sequence of whole attempts at any calls on any epochs, each cut
anywhere; `EpochInterleaving` proves that every interleaving of single writes amounts to such a run.  SHA-256, HMAC and canonical JSON are injective constructors in the store model; their byte framing is
modelled on real bytes in `Commitments`, where a digest is any function and results name the two messages that
would have to collide.

- `EpochDocuments`, `EpochLoad`, `EpochCalls`: documents, loading and offline replay, the calls as decisions
- `EpochHistory`, `EpochCrash`, `EpochAtomicity`: what replays, what a torn call leaves, crash atomicity
- `EpochRuns`, `EpochLifetime`, `Supersession`, `EpochLocks`: whole runs, reachable states, the lifetime measure, locks
- `EpochInterleaving`: threads that write one file at a time, reduced to runs of whole attempts
- `EpochBuildable`: which readable disks a run can build, exactly
- `EpochAcceptance`: for every call, exactly when it goes through, what it reports and what it leaves
- `EpochProtocol`: repeated calls, which frames a spool accepts, creations that burn their ref, late supersessions
- `ControllerStore`: the mutable store, one file write at a time, proved to carry out the decided calls

**Durable database operations** (`src/db/durable-operations.ts`): inverse derivation (`AclInverse`, `InversePlan`, `PlanEffects`),
the receipt grammar and the executor (`Receipts`, `Executor`), the locked prewrite protocol (`Prewrite`), the
migration ledger (`MigrationLedger`), strict JSON (`JsonText`, `StrictJson`, `StrictJsonParser`, `JsonGrammar`, `CanonicalJson`, `CanonicalMeaning`)
and prestate normalisation (`Normalise`).  The environment of the executor is a script that says how each step turns
out; the executor leaves a trace of what it sent and saw, and its receipt is compared with that trace.

**Locator adapter** (`scripts/platform-persisted-locator-adapter.py`): the chunked frame reader (`FrameReader`), and
the bounded captures, the readiness latch and the event loop (`Capture`).

**CSRF tokens** (`src/db/csrf-token-repository.ts`): `CsrfTokens`.

`Wrappers`, `Lex`, `Sorting`, `Bags`, `Octets` and `AsciiText` are shared helpers.

## Findings

Places where the code does less, or something other, than its intent suggests.  The model keeps the code as it is and
states exactly when the property holds.

- A supersession of an epoch whose runner has started, or whose ledger is consumed, passes its checks, writes SUPERSEDED
  and then fails its own reload; the epoch stays unreadable (exactly when: `EpochAtomicity.CrashAtomicity`;
  for every such epoch and for a concrete run: `EpochProtocol.TooLate`, `EpochProtocol.LateSupersession`).
- A creation makes the epoch's directories before it validates the private identities and the manifest.  A legal ref of
  122 to 128 characters, whose ledger ref is then too long, or identities the validator refuses, leave an empty directory:
  the call fails, and so does every later call on that ref, a corrected creation included (exactly when:
  `EpochAtomicity.StuckIff`; `EpochProtocol.RefBurned`, `EpochProtocol.LongRefs`, `EpochProtocol.LongIdentities`).
- The load checks accept more disks than any run builds: consumed authority before RUNNER_STARTED or without a data
  commitment, a barrier made for another epoch or from no legal ref, a record of another epoch, gaps between frame file
  names, and frames on a version-2 epoch that was never bound (exactly which: `EpochBuildable.BuildableIff`; a concrete
  family: `EpochLifetime.SpentWithoutFramesLoads`).
- "NONE" stands for "no predecessor" but is also a legal epoch ref, so an epoch called "NONE" accepts a successor that
  was created to replace nothing (`Supersession.NoneIsAmbiguous`).
- A recovery commitment to text fields and a commitment to raw bytes share one framing.  They hash the same message exactly
  for one domain, one field and that field's own bytes, so only the choice of domains keeps the two kinds apart
  (`Commitments.KindsCoincide`).
- The inverse of a supported default-ACL revoke grants again as the current user, while the support check compares the
  old grantor with the creator; such a plan does not round trip when the two differ (`InversePlan.InverseRestores`,
  `InversePlan.ForeignRevokeIsReal`).
- The executor throws instead of returning a receipt in one exit: the plan committed, final verification failed, and the
  prestate was nevertheless observed again, so that no recovery ran.  The environments that lead there are stated exactly,
  and exist for both kinds of plan (`Executor.ExecuteDurablePlan`, `Executor.StrandsReally`).
- Distinct (when, hash) pairs in the migration journal are not enough for completing a ledger that holds a CRLF-aliased
  row: the alias may equal a later entry's hash.  For a loaded journal this is so exactly if a pending migration has the time
  and the CRLF bytes' digest of an aliased one (`MigrationLedger.BlockedIff`, `MigrationLedger.AliasCanBlock`; the loader's
  checks allow it for some digest: `MigrationLedger.SampleBlocks`).  Distinct times are enough
  (`MigrationLedger.DistinctTimesComplete`).
- Normalising a prestate sorts roles by name alone and owned objects by name and owner alone, so the digest depends on row
  order when those repeat (exactly when: `Normalise.OrderIrrelevantIff`; inputs: `Normalise.RoleOrderShows`,
  `Normalise.OwnerOrderShows`).
- A canonical JSON text need not list an object's members in sorted key order, because JavaScript enumerates array indices
  first and numerically: the keys "9" and "10" come out in that order (`CanonicalJson.NineBeforeTen`).  The members are in
  key order exactly if every index key is less than every other key and the index keys increase with their numbers
  (`CanonicalJson.CanonicalInKeyOrderIff`).

## Model

| member | source | states |
|---|---|---|
| EpochDocuments.FrameFits | scripts/platform-recovery-controller-store.py:718-779 | the field bounds of the validators keep the canonical text of every well-formed frame within 16384 bytes |
| EpochDocuments.FrameLength | scripts/platform-recovery-controller-store.py:435-449 | the length of a frame's canonical text: 343 bytes and its fields |
| EpochDocuments.RowIdIff | scripts/platform-recovery-controller-store.py:3015-3021 | a version-2 row id is exactly the decimal text of a number from 1 to 2^63 - 1 |
| EpochHistory.ReplayedHistory | scripts/platform-recovery-controller-store.py:2236-2311 | every frame list the replay accepts is a prefix of the one legal stage history, or such a prefix closed by ABANDON, with its count, byte bound, commit mark and ledger state |
| EpochHistory.ReplaySurvives | scripts/platform-recovery-controller-store.py:2256-2294 | a history without a closing frame replays alike under any later record and ledger, as long as a consumed ledger stays consumed |
| EpochHistory.HashPinsFrames | scripts/platform-recovery-controller-store.py:2256-2294 | two accepted histories with the same last frame hash hold the same frames, whatever the other documents say |
| EpochHistory.FrameDocsAppend | scripts/platform-recovery-controller-store.py:2246-2247 | writing the next numbered frame file appends exactly one frame to the name-ordered list |
| EpochCrash.StepAccepts | scripts/platform-recovery-controller-store.py:3333-3387 | a frame that the online checks accept is accepted by the offline step under the final documents, and the incremental metadata equals the advanced fold |
| EpochCrash.FrameLands | scripts/platform-recovery-controller-store.py:3274-3387 | the whole history with the new frame replays under the final record and ledger |
| EpochCrash.NeverStuck | scripts/platform-recovery-controller-store.py:3356-3375 | the metadata and size checks made after the frame file is written never reject |
| EpochCrash.BindV2Atomic | scripts/platform-recovery-controller-store.py:3023-3068 | binding a version-2 artifact, cut after any of its three writes: the old epoch, an unreadable one, or exactly the bound one |
| EpochCrash.ConsumeAtomic | scripts/platform-recovery-controller-store.py:3236-3249 | consuming restore authority, cut after any of its three writes: the old epoch, an unreadable one, or exactly the consumed one |
| EpochAtomicity.IngestAtomic | scripts/platform-recovery-controller-store.py:3356-3382 | ingesting a frame, cut after any of its two or four writes: the old epoch, an unreadable one, or exactly the epoch with the frame |
| EpochAtomicity.CreateAtomic | scripts/platform-recovery-controller-store.py:2647-2904 | every admitted creation of a new ref takes the ref; it leaves the fresh epoch exactly if the ref has at most 121 characters, the identities are accepted and every write lands, and an unreadable epoch otherwise |
| EpochAtomicity.CrashAtomicity | scripts/platform-recovery-controller-store.py:2906-3143 | for every call on a readable epoch and every prefix of its writes, the next load gives the old snapshot, nothing, or exactly the intended snapshot; a too late supersession gives nothing |
| EpochAtomicity.FailClosed | scripts/platform-recovery-controller-store.py:2529-2609 | once an epoch on disk fails to load, no call changes it, and no call on it or through it succeeds |
| EpochAtomicity.PerformKeepsOk | scripts/platform-recovery-controller-store.py:2104-2105 | every attempt, cut anywhere, keeps records in their own directory and frames numbered without a gap, and touches one epoch only |
| EpochAtomicity.StuckIff | scripts/platform-recovery-controller-store.py:2656-2743 | the calls that change the disk and are then rejected by their own validation are exactly the creations with a legal ref of more than 121 characters or with refused identities; they leave an empty directory |
| EpochRuns.LedgerWriter | scripts/platform-recovery-controller-store.py:3203-3249 | only a restore check on an unspent, readable ledger ever writes the ledger of an existing epoch |
| EpochRuns.SpentForever | scripts/platform-recovery-controller-store.py:3236-3249 | a consumed ledger file stays, byte for byte, through every later attempt |
| EpochRuns.PermitMeaning | scripts/platform-recovery-controller-store.py:3191-3253 | a permit means the runner had started in an active epoch, is idempotent exactly if the ledger was already spent, and leaves a ledger spent on its own id and data |
| EpochRuns.OneWayAuthority | scripts/platform-recovery-controller-store.py:3191-3253 | over any run with crashes, any later permit repeats the first one's transition id and data commitment and is marked idempotent |
| EpochRuns.ClassificationIsOneWay | scripts/platform-recovery-controller-store.py:3183-3190 | an epoch classified CONSUMED is classified CONSUMED in every later state |
| EpochLifetime.AttemptOutcome | scripts/platform-recovery-controller-store.py:2906-3387 | an attempt leaves each epoch as it was, unreadable, freshly created, or exactly as the completed call intends |
| EpochLifetime.ReachableLived | scripts/platform-recovery-controller-store.py:3219-3225 | in every state a run can build, spent authority implies that the runner has started |
| EpochLifetime.SpentTooEarly | scripts/platform-recovery-controller-store.py:2397-2418 | the load checks admit spent authority before the runner has started, and then only in an ACTIVE epoch with no frame or EPOCH_READY alone |
| EpochLifetime.SpentWithoutFramesLoads | scripts/platform-recovery-controller-store.py:2439-2527 | such a disk exists and loads, and no run produces it |
| EpochLifetime.SpoolBounds | scripts/platform-recovery-controller-store.py:47-49 | every readable epoch holds at most four frames and 65536 spool bytes, in a legal history |
| EpochLifetime.CommittedHistory | scripts/platform-recovery-controller-store.py:83-96 | a record is CONSUMED exactly if its frames are EPOCH_READY, RUNNER_STARTED, RESTORE_BEGIN, COMMIT, and then the ledger is spent |
| EpochLifetime.OnlineAgreesWithReplay | scripts/platform-recovery-controller-store.py:3333-3387 | after a completed ingest the stored metadata is the fold over the frame files, the old ones and the new one |
| EpochLifetime.RestoreBeginCloses | scripts/platform-recovery-controller-store.py:3211-3217 | a RESTORE_BEGIN frame that leaves any trace on disk ends the permit window |
| EpochLifetime.NoPermitAfterRestoreBegin | scripts/platform-recovery-controller-store.py:3191-3253 | no permit is returned after a RESTORE_BEGIN frame has put anything on disk |
| EpochLifetime.CreatedRank | scripts/platform-recovery-controller-store.py:2647-2904 | a fresh version-1 epoch can take nine more completed calls, a version-2 epoch eight |
| EpochLifetime.RankDecreases | scripts/platform-recovery-controller-store.py:83-90 | every call that completes its writes strictly lowers the rank over state, binding, ledger and stage |
| EpochLifetime.LifetimeBound | scripts/platform-recovery-controller-store.py:3098-3120 | in any run the completed writing calls on an epoch never exceed its rank |
| EpochLifetime.NineCalls | scripts/platform-recovery-controller-store.py:3098-3120 | after its creation an epoch completes at most nine writing calls |
| EpochLifetime.CommitIsReachable | scripts/platform-recovery-controller-store.py:3098-3387 | from every readable epoch that is not terminal, at most rank many calls end in COMMIT |
| EpochBuildable.BuildableIff | scripts/platform-recovery-controller-store.py:2397-2527 | a readable disk is what some run from an empty store leaves of that epoch, if and only if its frame files are numbered without a gap, its record and barrier name this epoch and a legal predecessor, consumed authority holds a data commitment and a started runner, and an unbound version-2 epoch has no frame but a direct ABANDON |
| EpochBuildable.RunMade | scripts/platform-recovery-controller-store.py:2647-3387 | every run, cut anywhere, leaves only snapshots with those properties |
| EpochBuildable.Reach | scripts/platform-recovery-controller-store.py:2647-3387 | every live or closed snapshot with those properties is built by a run of creation, bindings, transitions, consumption and frames |
| EpochBuildable.ReachSuperseded | scripts/platform-recovery-controller-store.py:3122-3143 | so is every such snapshot of a superseded epoch, through a successor made for it |
| EpochBuildable.SameDisk | scripts/platform-recovery-controller-store.py:2439-2527 | two disks without gaps that load as the same snapshot hold the same documents |
| EpochProtocol.RebindV2 | scripts/platform-recovery-controller-store.py:3023-3041 | a version-2 binding is final: the pair that was bound is answered again without a write, every other pair is refused |
| EpochProtocol.FirstBindingStands | scripts/platform-recovery-controller-store.py:3023-3068 | over any run with crashes, every successful version-2 binding of an epoch names the row and file of the first one |
| EpochProtocol.ConsumeAgain | scripts/platform-recovery-controller-store.py:3203-3218 | after a consumption the same id and data are answered as an idempotent permit whatever ledger digest is named, everything else is refused |
| EpochProtocol.PermitNamesLedger | scripts/platform-recovery-controller-store.py:3219-3253 | in any state and for any cut, a first permit means the call named the digest of the ledger on disk, and carries its own id and data |
| EpochProtocol.OnlyTheNextFrame | scripts/platform-recovery-controller-store.py:3309-3355 | a frame the spool does not refuse is, field by field, the one the store would prepare next |
| EpochProtocol.PreparedIsAccepted | scripts/platform-recovery-controller-store.py:3309-3357 | every frame prepared on a readable epoch is accepted when it is submitted |
| EpochProtocol.RefBurned | scripts/platform-recovery-controller-store.py:2656-2670 | after a creation that got stuck the epoch stays empty and unreadable in the rest of the run, and every call on it fails |
| EpochProtocol.LongRefs | scripts/platform-recovery-controller-store.py:2722-2727 | the boundary: refs of up to 121 characters are created, legal refs of 122 to 128 get stuck |
| EpochProtocol.LongIdentities | scripts/platform-recovery-controller-store.py:2686-2687 | identities that are each within bounds are refused together exactly when their document exceeds its limit |
| EpochProtocol.TooLate | scripts/platform-recovery-controller-store.py:3122-3143 | every live epoch whose runner has started or whose authority is spent passes a supersession by a successor made for it and is then unreadable |
| EpochProtocol.LateSupersession | scripts/platform-recovery-controller-store.py:3143 | a run from an empty store that ends that way |
| EpochAcceptance.RowBinding | scripts/platform-recovery-controller-store.py:2982-2997 | with its writes granted, a row is bound exactly on a live version-1 epoch without a binding, and only the row of its creation; the epoch then loads with that binding, and any other call changes nothing |
| EpochAcceptance.ArtifactBinding | scripts/platform-recovery-controller-store.py:2998-3013 | the artifact is bound exactly on a live version-1 epoch whose row is bound, and only row and file of its creation |
| EpochAcceptance.BindingV2 | scripts/platform-recovery-controller-store.py:3015-3068 | a version-2 epoch is bound exactly while unbound and live, to any legal pair; afterwards the same pair is answered and every other refused |
| EpochAcceptance.MakingReady | scripts/platform-recovery-controller-store.py:3098-3120 | an epoch becomes ready exactly from its first state, and if version 2 once it is bound |
| EpochAcceptance.Activating | scripts/platform-recovery-controller-store.py:3101-3120 | an epoch becomes active exactly when it is ready |
| EpochAcceptance.Superseding | scripts/platform-recovery-controller-store.py:3122-3143 | for two readable epochs: SUPERSEDED is written exactly if the old one is live and the other is new or ready and was made to replace it under its authority; the call succeeds exactly if, besides, the runner has not started and the authority is unspent |
| EpochAcceptance.NoSuccessor | scripts/platform-recovery-controller-store.py:3122-3130 | no epoch supersedes itself or through one that does not load |
| EpochAcceptance.Consuming | scripts/platform-recovery-controller-store.py:3191-3253 | a first permit is given exactly to a legal id naming the ledger digest while the runner of an active epoch waits, a repeated one exactly to the same id and data then |
| EpochAcceptance.Preparing | scripts/platform-recovery-controller-store.py:3274-3331 | a frame is prepared exactly for a stage that can come next, with a payload it may carry, and is the next link of the chain |
| EpochAcceptance.Ingesting | scripts/platform-recovery-controller-store.py:3333-3387 | a frame is taken in exactly if it is the next one of a live epoch; how the epoch then loads, and the receipt |
| EpochAcceptance.Abandoning | scripts/platform-recovery-controller-store.py:3104-3111 | a live epoch can be abandoned exactly when ABANDON can come next |
| EpochAcceptance.Loading | scripts/platform-recovery-controller-store.py:2529-2609 | loading a readable epoch succeeds and changes nothing |
| EpochAcceptance.Creating | scripts/platform-recovery-controller-store.py:2647-2904 | a creation succeeds exactly for a new legal ref of at most 121 characters with legal refs and identities |
| EpochAcceptance.FreshIs | scripts/platform-recovery-controller-store.py:2671-2743 | the fields of a fresh epoch |
| Supersession.SupersededOnce | scripts/platform-recovery-controller-store.py:3122-3143 | in any run an epoch is superseded at most once, torn supersessions included |
| Supersession.SuccessorComesLater | scripts/platform-recovery-controller-store.py:3129-3134 | a successor's own supersession can only come after it has succeeded |
| Supersession.NoSupersessionCycle | scripts/platform-recovery-controller-store.py:3122-3143 | no chain of supersessions of any length closes a cycle |
| Supersession.Origin | scripts/platform-recovery-controller-store.py:2689-2690 | every epoch of a run was created by one of its attempts and keeps that attempt's authority and barrier |
| Supersession.SuccessorWasNamed | scripts/platform-recovery-controller-store.py:3135-3142 | a successor was created earlier naming the epoch it replaces, under the same authority, or the epoch is called NONE and it named nothing |
| Supersession.NoneIsAmbiguous | scripts/platform-recovery-controller-store.py:2689-2690 | the exception for the name NONE happens in a concrete run |
| EpochLocks.AlwaysExclusive | scripts/platform-recovery-controller-store.py:2611-2622 | under every schedule of any number of threads and processes no lock has two holders |
| EpochLocks.WorkIsExclusive | scripts/platform-recovery-controller-store.py:2611-2622 | two calls are never at work on one epoch at once, except a creation beside a call of another process |
| EpochLocks.PlanAscends | scripts/platform-recovery-controller-store.py:3127-3128 | every plan of locks is in increasing order |
| EpochLocks.FindRunnable | scripts/platform-recovery-controller-store.py:3127-3128 | following lock holders from any waiting thread reaches a thread that can step |
| EpochLocks.NoDeadlock | scripts/platform-recovery-controller-store.py:3122-3128 | while any thread has work left, some thread can step |
| EpochLocks.EveryThreadFinishes | scripts/platform-recovery-controller-store.py:2611-2622 | from every reachable configuration all threads can finish, within a computable number of steps |
| EpochInterleaving.ExcludesIff | scripts/platform-recovery-controller-store.py:2611-2622 | one call keeps another from starting exactly if their lock plans share a lock |
| EpochInterleaving.LocksExclude | scripts/platform-recovery-controller-store.py:2611-2622 | under every schedule of the locks, two calls that hold all their locks at once do not exclude each other |
| EpochInterleaving.Serialised | scripts/platform-recovery-controller-store.py:2611-2622 | under every interleaving of single writes by any threads and processes, the store is that of a run of whole attempts in the order of their starts, and every reported success is the result of its attempt there |
| EpochInterleaving.ConcurrentAuthority | scripts/platform-recovery-controller-store.py:3191-3253 | of two permits reported by concurrent calls for one epoch, the one that started later repeats the other and is idempotent |
| ControllerStore.ReadFrameFiles | scripts/platform-recovery-controller-store.py:2236-2311 | the loop over frame files computes the replay |
| ControllerStore.Controller.WriteDocument | scripts/platform-recovery-controller-store.py:2104-2117 | one authority write is one atomic step that lands and succeeds, changes nothing, or lands and is then reported as failed by its read-back or durability check |
| ControllerStore.Controller.LoadUnlocked | scripts/platform-recovery-controller-store.py:2529-2609 | the loader returns exactly what the documents and frames of the epoch load as |
| ControllerStore.Controller.StateUpdateUnlocked | scripts/platform-recovery-controller-store.py:2906-2980 | manifest, then record, then reload; how many of them land depends only on how many writes the adapter completes |
| ControllerStore.Controller.CreateEpoch | scripts/platform-recovery-controller-store.py:2647-2758 | version-1 creation carries out the decided call, rejection after the directories are made included, for every number of landed writes and a last one that is reported as failed |
| ControllerStore.Controller.CreateEpochV2 | scripts/platform-recovery-controller-store.py:2760-2904 | version-2 creation carries out the decided call, rejection after the directories are made included, for every number of landed writes and a last one that is reported as failed |
| ControllerStore.Controller.BindArtifactRow | scripts/platform-recovery-controller-store.py:2982-2997 | row binding carries out the decided call |
| ControllerStore.Controller.BindArtifact | scripts/platform-recovery-controller-store.py:2998-3013 | artifact binding carries out the decided call |
| ControllerStore.Controller.BindArtifactV2 | scripts/platform-recovery-controller-store.py:3015-3068 | version-2 binding carries out the decided call |
| ControllerStore.Controller.TransitionEpoch | scripts/platform-recovery-controller-store.py:3113-3120 | a state transition carries out the decided call |
| ControllerStore.Controller.SupersedeEpoch | scripts/platform-recovery-controller-store.py:3122-3143 | supersession carries out the decided call |
| ControllerStore.Controller.Consume | scripts/platform-recovery-controller-store.py:3191-3253 | the restore check carries out the decided call |
| ControllerStore.Controller.PrepareRunnerFrame | scripts/platform-recovery-controller-store.py:3309-3331 | preparing a frame answers as decided and writes nothing |
| ControllerStore.Controller.IngestUnlocked | scripts/platform-recovery-controller-store.py:3333-3387 | frame file, metadata, then manifest and record: as decided, for every number of completed writes |
| ControllerStore.Controller.AbandonEpochNow | scripts/platform-recovery-controller-store.py:3104-3111 | abandoning prepares and ingests one ABANDON frame as decided |
| ControllerStore.Controller.LedgerSafetyClassification | scripts/platform-recovery-controller-store.py:3183-3190 | an unreadable epoch is classified CONSUMED, a readable one by its ledger |
| Commitments.Frame | scripts/platform-recovery-controller-store.py:782-794 | the loop frames the fields, or fails, as specified |
| Commitments.Utf8Injective | scripts/platform-recovery-controller-store.py:787-789 | strict UTF-8 is injective on texts |
| Commitments.Utf8Bytes | scripts/platform-recovery-controller-store.py:787-789 | each code point is encoded as section 3 of RFC 3629 says, which the stated decoding inverts |
| Commitments.FramedBytes | scripts/platform-recovery-controller-store.py:782-794 | a field is framed as four length bytes, the most significant first, and its UTF-8 form |
| Commitments.FramingFails | scripts/platform-recovery-controller-store.py:782-794 | framing fails exactly on a field with a surrogate or one longer than four length bytes can say |
| Commitments.FramingInjective | scripts/platform-recovery-controller-store.py:782-794 | different field lists, of any lengths, never frame to the same bytes |
| Commitments.MessageFails | scripts/platform-recovery-controller-store.py:797-801 | a recovery commitment is refused exactly for an empty, overlong or non-ASCII domain, or a field that cannot be framed |
| Commitments.RecoveryCommitmentBinds | scripts/platform-recovery-controller-store.py:797-801 | equal recovery commitments mean equal domains and fields, or a hash collision between their messages |
| Commitments.BytesCommitmentBinds | scripts/platform-recovery-controller-store.py:804-813 | equal byte commitments mean equal domains and payloads, or a hash collision between their messages |
| Commitments.KindsCoincide | scripts/platform-recovery-controller-store.py:797-813 | the two kinds of commitment hash the same message exactly for the same domain, one text field, and its own UTF-8 bytes as the payload |
| Commitments.KindsBind | scripts/platform-recovery-controller-store.py:797-813 | a commitment to text fields and one to bytes are equal only in that case, or on a named collision |
| Commitments.ChainBinds | scripts/platform-recovery-controller-store.py:3268-3272 | two hash-valid frame chains with the same last hash belong to one epoch, have one length and are equal link by link, or two links at one distance from their ends show a collision |
| Sorting.CompareTuple | src/db/durable-operations.ts:317-325 | the comparison loop computes the component-wise order, a missing component counting as empty |
| Lex.LessIff | src/db/durable-operations.ts:317-325 | one string comes before another exactly if it is a proper prefix of it or has the smaller code unit at their first difference |
| Sorting.FirstDifference | src/db/durable-operations.ts:317-325 | the first component in which two tuples differ decides, -1 exactly if the left one comes first |
| Sorting.CompareZero | src/db/durable-operations.ts:317-325 | tuples compare equal exactly when all components agree |
| Sorting.Longest | src/db/durable-operations.ts:317-325 | a missing component counts as the empty string |
| Sorting.CompareAntisymmetric | src/db/durable-operations.ts:317-325 | swapping the tuples negates the comparison |
| Sorting.CompareTransitive | src/db/durable-operations.ts:317-325 | the comparison is transitive |
| Sorting.SortedUnique | src/db/durable-operations.ts:317-325 | two sorted lists of the same rows are equal when the key determines the row |
| Sorting.OrderForgottenIff | src/db/durable-operations.ts:1566-1598 | sorting forgets the input order exactly when rows with equal keys are equal |
| AclInverse.EntriesUndone | src/db/durable-operations.ts:2511-2558 | undoing a grant or revoke gives back the same sorted entries, if the entry a revoke removed was granted by the current user |
| AclInverse.SupportedIff | src/db/durable-operations.ts:2511-2700 | a change of grants is supported exactly if the entry it is about was granted by the current user (for default ACLs: by the creator) and, when it changes anything, it turns an explicit list into one that is not empty |
| InversePlan.PrestateArranged | src/db/durable-operations.ts:2367-2476 | the prestate hands out sorted, lower-case entries of the kind the key names |
| InversePlan.DeriveInverseModel | src/db/durable-operations.ts:2321-2350 | the loop with its map of current authorities computes the model of the plan, failures included |
| PlanEffects.OwnerRows | src/db/durable-operations.ts:2393-2433 | the row each class of object gets its owner from; other than database and schema, exactly the one row of its own list with its name |
| PlanEffects.ObjectKnown | src/db/durable-operations.ts:2435-2476 | an object has an authority exactly if it has rows that agree on oid and null flag, a row without a privilege standing alone |
| PlanEffects.ObjectRows | src/db/durable-operations.ts:2435-2476 | an object's entries are exactly its privilege rows, grantor, grantee, lower-cased privilege and option, in order |
| PlanEffects.DefaultsKnown | src/db/durable-operations.ts:2560-2616 | the same for default privileges, where no rows at all mean an absent, empty list |
| PlanEffects.DefaultsFrom | src/db/durable-operations.ts:2560-2616 | the entries and flags of default privileges come from their rows |
| PlanEffects.OwnerStep | src/db/durable-operations.ts:2702-2718 | a plan goes on with a change of owner exactly if it names the current owner; then only the owner changes, and the inverse swaps the two |
| PlanEffects.GrantStep | src/db/durable-operations.ts:2511-2700 | a plan goes on with a grant or revoke exactly if at most one entry is about its grantee and privilege, with the option it names; the entries, the row around them and the inverse afterwards |
| PlanEffects.SupportedStep | src/db/durable-operations.ts:2511-2700 | a grant or revoke keeps the plan free of external restores exactly if the entry came from the right grantor and an explicit list changes into one that is not empty |
| PlanEffects.OwnerFinal | src/db/durable-operations.ts:2321-2350 | a derived plan leaves each object it gives away with the last new owner, under the prestate's oid |
| PlanEffects.OwnerChain | src/db/durable-operations.ts:2702-2718 | each change of owner takes over from the one before it on that object |
| PlanEffects.GrantFinal | src/db/durable-operations.ts:2321-2350 | for each grantee and privilege the plan ends as the last operation naming it says: one entry with the option it named or gave, or none |
| PlanEffects.GrantUntouched | src/db/durable-operations.ts:2321-2350 | entries no operation names stay as the prestate has them |
| InversePlan.TransitionUndone | src/db/durable-operations.ts:2511-2731 | a supported change followed by its inverse gives back the authority before it, unless it removes a foreign default grant |
| InversePlan.StepsUndo | src/db/durable-operations.ts:2303-2309 | running the published steps in order undoes the operations from the last to the first |
| InversePlan.RoundTripFrom | src/db/durable-operations.ts:2289-2350 | the round trip of a supported plan, from any state that extends its final one |
| InversePlan.InverseRestores | src/db/durable-operations.ts:2289-2350 | running the inverse of a supported plan restores every key's prestate authority, entry by entry, exactly if the plan revokes no prestate default grant of a creator other than the current user |
| InversePlan.OwnPlansRestore | src/db/durable-operations.ts:2289-2350 | plans whose default-ACL creators are the current user always round trip |
| InversePlan.ForeignRevokeIsReal | src/db/durable-operations.ts:2648-2700 | a concrete supported plan among approved roles that does not round trip |
| InversePlan.PostForwardIsFinal | src/db/durable-operations.ts:2344-2349 | each recorded post-forward authority is where its own key's operations alone lead |
| Receipts.ReceiptKeepsFacts | src/db/durable-operations.ts:4077-4122 | a made receipt obeys the grammar and never claims a verified, committed or attempted state the run did not report |
| Receipts.MakeReceiptThrows | src/db/durable-operations.ts:4102-4122 | when both the receipt and its fallback are rejected, exactly |
| Receipts.AllowedByCode | src/db/durable-operations.ts:156-199 | the matrix of codes by phase and the list of phases by code are one relation |
| Receipts.PassAndBlocked | src/db/durable-operations.ts:3098-3129 | a valid PASS receipt is one receipt, mutation aside; a valid BLOCKED one is fixed by phase and code |
| Receipts.UnstartedFailure | src/db/durable-operations.ts:3129-3137 | a valid FAIL receipt without a mutation is one of four |
| Receipts.StartedFailure | src/db/durable-operations.ts:3098-3157 | what a valid FAIL receipt after a mutation may say, exactly |
| Receipts.RejectedReceipt | src/db/durable-operations.ts:4100-4120 | what becomes of a rejected receipt, field by field |
| Executor.Prepare | src/db/durable-operations.ts:3786-3852 | before the first mutation nothing but begin, locks and observations is sent, and a cleared run has seen the expected prestate twice after the target lock |
| Executor.ApplyAll | src/db/durable-operations.ts:3870 | operations are sent in order until one fails |
| Executor.RunForward | src/db/durable-operations.ts:3853-3895 | mutation, commit and final verification, with the commit state and readiness each exit reports |
| Executor.RunInverse | src/db/durable-operations.ts:3555-3611 | a commit is only sent behind all inverse steps, in order; the inverse succeeds exactly if every step of it does and it ends in an observation of the expected prestate |
| Executor.RollBackAndVerify | src/db/durable-operations.ts:3951-3975 | rollback is attempted exactly when nothing was committed, and verified only if it returned and the prestate was seen |
| Executor.Recover | src/db/durable-operations.ts:3911-4036 | the failure handler yields a valid receipt unless a committed run ends in a verified observation without any recovery |
| Executor.ExecuteDurablePlan | src/db/durable-operations.ts:3716-4040 | for every environment, migrations included: the exact trace and receipt; there is no receipt exactly if the plan mutates and commits, final verification fails and the prestate is seen again; otherwise the receipt is valid, it is PASS exactly if every step succeeds, and BLOCKED, PASS, VERIFIED and the commit state are faithful to the trace; once a commit is sent, all operations were sent before it, in order, and the same for the inverse; a restore needs a capability, and an inverse starts only after a failed first verification |
| Executor.RecoveryReported | src/db/durable-operations.ts:3951-4036 | which recovery steps a receipt reports as attempted and verified, its restoration state, phase and code, exactly, in terms of the environment |
| Executor.CommitReported | src/db/durable-operations.ts:3876-3895 | a receipt says committed exactly if everything up to the commit went well and it returned, in doubt exactly if the commit lost its connection; readiness is what the last look found |
| Executor.ForeignCode | src/db/durable-operations.ts:3626-3641 | an error without a code tells a lost connection from the rest while mutating and committing |
| Executor.FailedPhase | src/db/durable-operations.ts:3752-3895 | the phase a run fails in, from the first thing that goes wrong |
| Executor.UnstartedReported | src/db/durable-operations.ts:3912-3950 | a receipt before any mutation names that phase and its code, and blocks unless it was the forward run |
| Executor.StrandsReally | src/db/durable-operations.ts:4097-4122 | environments that end without a receipt exist for plans of operations and for migrations |
| Prewrite.AlwaysSafe | src/db/durable-operations.ts:2857-2866 | in every run only the lock holder is past its lock request, and a cleared forward executor sees its plan's prestate committed |
| Prewrite.MutatesOnPrestate | src/db/durable-operations.ts:3810-3852 | whenever a forward executor mutates, the committed state is exactly its plan's prestate |
| Prewrite.AloneWhileMutating | src/db/durable-operations.ts:3810-3895 | from its first mutation until its run ends no executor commits and the committed state stands still |
| Prewrite.CleanRun | src/db/durable-operations.ts:3786-3895 | undisturbed, an executor whose plan matches the committed state commits |
| Prewrite.DriftStops | src/db/durable-operations.ts:3827-3852 | an executor that finds another state can only give up |
| Prewrite.StaleWithoutFreshObservation | src/db/durable-operations.ts:3841-3852 | without the fresh observation a concrete run mutates a state that is not its prestate |
| MigrationLedger.AssertAppliedPrefix | src/db/durable-operations.ts:3472-3496 | the check accepts exactly the rows that match the journal in order, canonically or by alias, without repetition |
| MigrationLedger.AcceptedIff | src/db/durable-operations.ts:3472-3496 | which ledgers are accepted, said without the check: the journal's first rows, some perhaps under their alias, none twice, in a journal numbered from zero |
| MigrationLedger.PrefixClosed | src/db/durable-operations.ts:3472-3496 | every prefix of an accepted ledger is accepted |
| MigrationLedger.AppendAccepted | src/db/durable-operations.ts:3472-3496 | the next canonical row may be appended exactly if the ledger does not hold it |
| MigrationLedger.Completable | src/db/durable-operations.ts:3472-3496 | a ledger can be completed canonically exactly if the pending rows are new to it and to each other |
| MigrationLedger.DistinctJournalCompletes | src/db/durable-operations.ts:3472-3496 | with distinct pairs and no aliased row the pending rows are always new |
| MigrationLedger.DistinctTimesComplete | src/db/durable-operations.ts:3472-3496 | a journal whose times are all different can always be completed, aliased rows or not |
| MigrationLedger.AliasBlocks | src/db/durable-operations.ts:3489-3492 | whenever two entries share their time and the later digest is the earlier alias, the aliased row blocks completion |
| MigrationLedger.BlockedIff | src/db/durable-operations.ts:3472-3496 | with a loaded journal of distinct pairs, an accepted ledger cannot be completed exactly if an aliased row of it and a pending entry share their time and the pending file has the digest of the row's file in CRLF form |
| MigrationLedger.AliasCanBlock | src/db/durable-operations.ts:3231-3272 | in every loaded journal of distinct pairs whose seventh file is the CRLF form of the sixth, at the same time, an aliased sixth row keeps the seventh migration out |
| MigrationLedger.SampleBlocks | src/db/durable-operations.ts:3231-3272 | ten files, a journal and a digest that the loader accepts and that meet those conditions |
| MigrationLedger.ExpectedAreDerived | src/db/durable-operations.ts:3393-3403 | the operations a caller may name are exactly those the primitive would derive |
| MigrationLedger.RunCanonicalMigrationPrimitive | src/db/durable-operations.ts:3380-3452 | the primitive returns exactly when all checks pass, and then the ledger is the rows before followed by the pending canonical rows, or two named ledgers collide; an error carries the mutation mark exactly if the migrator was started and reached the database |
| JsonText.UnescapeEscape | src/db/durable-operations.ts:461-488 | reading back a printed string gives it back, unpaired surrogates included |
| JsonText.PlainText | src/db/durable-operations.ts:327-357 | ordinary text is printed as it is |
| JsonText.EscapedText | src/db/durable-operations.ts:327-357 | what quotes, backslashes and control characters are printed as |
| JsonText.SurrogateText | src/db/durable-operations.ts:327-357 | surrogate pairs are printed as they are, surrogates alone in lower-case hex |
| JsonText.ClosingFound | src/db/durable-operations.ts:461-488 | the scan for the closing quote stops exactly behind a printed string |
| JsonText.NumberRoundTrip | src/db/durable-operations.ts:404-411 | a printed safe integer is scanned back to itself wherever the number must end |
| StrictJson.PrintParse | src/db/durable-operations.ts:377-495 | printing and parsing a value with safe integers and distinct keys gives it back, at any depth |
| StrictJson.PrintedLiterally | src/db/durable-operations.ts:327-357 | canonical text puts nothing but one comma or colon between the parts of a value |
| StrictJson.WhiteSpace | src/db/durable-operations.ts:493-495 | which code units are white space, and which integers are safe |
| StrictJson.AcceptedIsStrict | src/db/durable-operations.ts:414-440 | an accepted text has no duplicate key at any depth and no unsafe integer |
| JsonGrammar.ParsesExactly | src/db/durable-operations.ts:377-501 | the parser accepts exactly the texts of an independent grammar (strings of section 7 and safe integers of section 6 of RFC 8259, distinct keys, white space around every token) and gives each its meaning |
| JsonGrammar.Unambiguous | src/db/durable-operations.ts:377-501 | two derivations of one text have one meaning |
| StrictJsonParser.Parser.ReadValue | src/db/durable-operations.ts:389-412 | the method with the moving index computes the parsing function and leaves the index behind the value |
| StrictJsonParser.Parser.ReadObject | src/db/durable-operations.ts:414-440 | the object loop with its set of keys computes the member list, refusing a repeated key |
| StrictJsonParser.Parser.ReadArray | src/db/durable-operations.ts:442-459 | the array loop computes the item list |
| StrictJsonParser.Parser.ReadString | src/db/durable-operations.ts:461-488 | the quote scan computes the string or fails |
| StrictJsonParser.Parser.ParseAll | src/db/durable-operations.ts:382-387 | the parser terminates and accepts exactly the specified texts |
| CanonicalJson.RoundTrip | src/db/durable-operations.ts:327-357 | parsing the canonical text of a value gives its canonical form |
| CanonicalJson.SerializeInjective | src/db/durable-operations.ts:327-357 | two values serialize alike exactly if their canonical forms are equal |
| CanonicalMeaning.SerializeMeans | src/db/durable-operations.ts:327-357 | two values have the same canonical text exactly if they are the same up to member order at every depth |
| CanonicalJson.OrderForgotten | src/db/durable-operations.ts:351-356 | objects with the same members in any order have the same canonical form |
| CanonicalJson.CanonicalIdempotent | src/db/durable-operations.ts:334-357 | canonicalising twice changes nothing |
| CanonicalJson.EnumerateTwice | src/db/durable-operations.ts:351-356 | an object read back lists its members in the order of the canonical text |
| CanonicalJson.IndexIff | src/db/durable-operations.ts:351-356 | the keys JavaScript lists first are exactly the decimals below 2^32 - 1 |
| CanonicalJson.PrintedInKeyOrderIff | src/db/durable-operations.ts:351-356 | listing sorted members as JavaScript does keeps the key order exactly if index keys precede the others in code-unit order and increase with their numbers |
| CanonicalJson.CanonicalInKeyOrderIff | src/db/durable-operations.ts:351-356 | so the canonical form of an object is in key order exactly under that condition on its keys |
| CanonicalJson.NineBeforeTen | src/db/durable-operations.ts:351-356 | the keys "9" and "10" are sorted one way and listed the other |
| Normalise.ListPermuted | src/db/durable-operations.ts:1548-1739 | reordering rows changes neither whether a list is accepted nor, if the key determines the row, the result |
| Normalise.NormalAcceptsIff | src/db/durable-operations.ts:1492-1757 | a prestate is accepted exactly if every row of every list is in order and its sorted grants are the expected ones |
| Normalise.NormalKeepsRows | src/db/durable-operations.ts:1548-1757 | every list of the normal form holds exactly the rows of the same list of the prestate; privilege rows one for one, with only blanks and letter case changed |
| Normalise.NormalSorts | src/db/durable-operations.ts:1548-1757 | the columns each list is ordered by |
| Normalise.NormalTwice | src/db/durable-operations.ts:1492-1525 | normalising a normalised prestate changes nothing |
| Normalise.OrderIrrelevantIff | src/db/durable-operations.ts:1492-1525 | the normal form ignores row order exactly if role names, and name and owner within each kind of object, determine their rows |
| Normalise.RoleOrderShows | src/db/durable-operations.ts:1548-1571 | two rows of one role name are accepted, beside any accepted grants, and their order decides the normal form |
| Normalise.OwnerOrderShows | src/db/durable-operations.ts:1635-1662 | so are two owned objects of one name and owner |
| FrameReader.Stream.ReadExact | scripts/platform-persisted-locator-adapter.py:261-296 | the bytes returned, kept and unread always concatenate to the input; it fails only at the end of the stream or the deadline |
| FrameReader.Stream.ReadRequestFrame | scripts/platform-persisted-locator-adapter.py:298-327 | reading from chunks gives exactly what decoding the visible bytes in one piece gives, refusals included; with more input at hand after the deadline's chunks it is refused |
| FrameReader.ReadTwice | scripts/platform-persisted-locator-adapter.py:314-327 | two chunkings of the same timely bytes give the same answer |
| FrameReader.BuildDecode | scripts/platform-persisted-locator-adapter.py:340-342 | a built frame of any type decodes exactly if it is a request within the request limit, and then to what its payload parses to |
| FrameReader.BuildBytes | scripts/platform-persisted-locator-adapter.py:340-342 | the twelve header bytes of a built frame |
| FrameReader.DecodesBuilt | scripts/platform-persisted-locator-adapter.py:314-327 | the reader accepts exactly the request frames that could have been built and whose payload parses |
| FrameReader.BuildInjective | scripts/platform-persisted-locator-adapter.py:340-342 | frames of different types or payloads have different bytes |
| Capture.BoundedCapture.Append | scripts/platform-persisted-locator-adapter.py:458-472 | a capture holds the longest prefix that fits and knows exactly whether that is everything |
| Capture.CaptureSet.AppendStdout | scripts/platform-persisted-locator-adapter.py:479-493 | appending to one channel keeps the other and the combined count |
| Capture.CombinedImpliesChannel | scripts/platform-persisted-locator-adapter.py:479-493 | combined overflow always implies overflow of one channel |
| Capture.AdmissionState.Step | scripts/platform-persisted-locator-adapter.py:394-443 | the latch accepts at most once, exactly on the marker, written, in time and without failure, and is closed afterwards |
| Capture.AwaitAdmission | scripts/platform-persisted-locator-adapter.py:857-915 | the query is admitted exactly at the turn that completes the marker and the writer's success, in time, after turns that kept waiting |
| Capture.AwaitTermination | scripts/platform-persisted-locator-adapter.py:923-955 | the loop ends cleanly exactly if the query was written and at some turn both channels have ended and the process has exited with code 0, after quiet turns |
| Capture.ExecuteOperation | scripts/platform-persisted-locator-adapter.py:817-975 | for every interleaving: the query is written exactly if readiness admits it, and the operation succeeds exactly if it then completes and all of standard output behind the marker parses |
| Capture.HandleProtocol | scripts/platform-persisted-locator-adapter.py:983-1011 | STARTED is sent exactly for an accepted request; then exactly one terminal frame: the result if the operation succeeds and it can be framed, else a failure that says whether the query was written |
| CsrfTokens.Repository.CreateBoundedForSession | src/db/csrf-token-repository.ts:25-84 | purge, evict, insert in one transaction that rolls back when the id, or the session, purpose and token hash, are taken by a retained row |
| CsrfTokens.IssuesIff | src/db/csrf-token-repository.ts:32-84 | an issue succeeds exactly if no surviving row has its id, or its session, purpose and token hash |
| CsrfTokens.NewIsIssued | src/db/csrf-token-repository.ts:75-84 | a token new in both keys is always issued |
| CsrfTokens.IssueRows | src/db/csrf-token-repository.ts:32-84 | after an issue the table holds the new row and the surviving ones, and nothing else |
| CsrfTokens.GroupSize | src/db/csrf-token-repository.ts:56-73 | of the active rows the seven newest stay, or all if there are fewer |
| CsrfTokens.IssueKeepsUnique | src/db/schema.ts:213-236 | an issue keeps ids unique, and token hashes within a session and purpose |
| CsrfTokens.AtMostEight | src/db/csrf-token-repository.ts:21-84 | after every issue the session and purpose hold at most eight rows, the new one among them |
| CsrfTokens.OthersUntouched | src/db/csrf-token-repository.ts:32-73 | rows of other sessions and purposes are untouched and stay in order |
| CsrfTokens.EvictsOldest | src/db/csrf-token-repository.ts:147-165 | an evicted active row is no newer than any active row that stays |
| CsrfTokens.EvictsSmallerIds | src/db/csrf-token-repository.ts:156-165 | among rows of one time those with the smaller ids go, if the collation orders ids |
| CsrfTokens.StaysIff | src/db/csrf-token-repository.ts:56-73 | an active row stays exactly if it is not among those beyond the seven newest |
| CsrfTokens.SurvivesSevenIssues | src/db/csrf-token-repository.ts:25-84 | a token newer than the rows of its own session and purpose survives every run of issues, consumptions and revocations with at most seven issues for its own session and purpose, all later than it and before it expires, as long as it is not marked |

## Left out

- POSIX and Win32 durability, directory permissions, root path rules and leftover temporary files: each authority write is one atomic step.
- SHA-256, HMAC and JSON encodings of the store's documents: symbolic and injective in the store model; the encoded lengths of frames and identities are computed from their fields.
- Field formats of the store's documents: refs, private identities, row ids and file names are checked as the source checks them; frame payloads within their field bounds, too; durability flags, restore data and the lengths of the remaining documents are well formed by type, and the source refuses others before it writes anything. Unknown files in an epoch directory are not modelled.
- ControllerStore.Controller.WriteDocument: a write that lands and then raises ends its call, so only the last granted write can be of that kind; in a run such a call is the attempt with the same writes, its success unreported.
- Error codes and the in-memory `safety_state` attached to exceptions, and what `bind_artifact_v2` reports after a failed bind: only whether a call succeeds and what it leaves on disk.
- EpochLoad.Load: does not compare the record's epoch ref with its directory, as the source does not; that they agree is an invariant of every run (`EpochAtomicity.PerformKeepsOk`), and rewritten files go to the directory of the call.
- EpochLocks.WorkIsExclusive: a creation takes only the in-process lock, so a call of another process may run beside it; until the record is written that call cannot load the epoch.
- Controller test mode, `resume_epoch`, `public_projection` and reading authoritative bytes: reads behind the same load.
- AclInverse: letter case is ASCII; the descriptive `restore_authority` of an inverse step, the inverse's digests and the SQL text are not modelled. Inverse steps update entries as the database would, since their `previous_grant_option` is not a usable guard.
- InversePlan.InverseRestores: authorities change as the source's own transition model changes them; what PostgreSQL records as grantor of a default ACL is not modelled.
- Membership and role-posture operations: the code rejects them.
- Receipts: digests, roles, counts and the migration tag, which the plan validator has already checked.
- Executor.ExecuteDurablePlan: observations are a digest and a readiness verdict; Git checks, file manifests and the migrator are outcomes of the script.
- Prewrite: serialization failures raised by the database are aborts; `executeFrozenInverse` makes no fresh observation after its lock, so only forward executors are covered, with inverse executors as other committers.
- MigrationLedger: reading the journal and its files from disk; what the loader then establishes about tags, positions, formats, digests and the eight known aliases is `Loadable`, with any function for the digest. Whether real files meet the condition of `BlockedIff` under SHA-256 is not part of the model.
- StrictJson: negative zero, the key `__proto__`, and JavaScript values that are not JSON.
- Normalise.NormalTwice: the target, journal, readiness records and drift lists, which are checked but not sorted by row, and the comparison of grants with the canonical set, which is a parameter.
- Normalise.RoleOrderShows: normalisation alone; the executor also requires one row each for `platform_runtime`, `platform_app` and `platform_migrator`, so the repeated name is `cloud_admin`.
- FrameReader: the request JSON itself is a parameter; a request's barrier is validated there and again by the operation.
- Capture: the SQL query, process handling, selector classification and the wait after a refused output; writes of public frames are taken to complete.
- CsrfTokens: the locale's collation is any function; other tables, and the HTTP layer that consumes tokens, are not modelled.
- SQL text, catalog queries, readiness and runtime-posture checks, HTTP handlers, pages, cookies and OIDC.
