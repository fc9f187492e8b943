# Veritasor contracts: a Dafny model

This project models the Soroban contracts of the Veritasor attestation protocol and the
off-chain indexer that replays their events, and proves what their operations keep over whole
runs. Each module models one source file or one closely knit group.

| module | what it models |
|---|---|
| `Base` | addresses, keys, machine-integer bounds, transactions, the token ledger |
| `RateLimit` | the sliding-window rate limiter: a pruned timestamp list and a high-water clock |
| `DynamicFees` | tier and volume discounts, the fee arithmetic |
| `Epochs` | the fee-bucket epoch counter and its cleanup summaries |
| `FlatFees` | the flat fee and its bounded per-epoch history |
| `Attestations` | single and batch submission, revocation, migration, cleanup, quotes |
| `AttestationRuns`, `AttestationLimits` | whole runs of that contract: accounting, tokens, epochs, limits |
| `AttestationEntry` | its entry points, composed of the components above |
| `MultiPeriod` | multi-period ranges of the attestation contract |
| `Disputes` | disputes, their indexes, the reference-counted attestor lock |
| `Multisig` | proposals with frozen vote rules |
| `Staking` | attestor staking, the unbonding queue, slashing |
| `Snapshots`, `SnapshotRestore`, `SnapshotExport` | the snapshot contract: indexes, finalization, two-phase restore, export |
| `AuditLog` | the hash-chained audit log |
| `Aggregated` | portfolios, their metrics, versioned root windows |
| `Replay` | the Python indexer that rebuilds attestations from events |

Every contract appears twice. A value-level `State` with one function per operation says what
the operation does: the result is the next state, or `None` when the transaction aborts. A
class holds the storage in fields and changes it step by step with the source's loops; each
method is proved to commit exactly when the function has a next state, to reach that state, and
to leave the storage as it was otherwise (`Base.Tx`). Lemmas are about runs of the functions,
so they carry over to the classes. SHA-256 is a function parameter that is collision-free and
never yields the zero digest where a lemma says so. Verify the project with
`dafny verify dfyconfig.toml`.

## Where the code and its documentation disagree

The model follows the code. Each of these facts is stated by a lemma named in brackets, or by
the specification function itself.

- The indexer rejects an event without a business before it looks at the topic, and epoch,
  summary, checkpoint and fee configuration events carry no business. The contract's full
  stream is therefore rejected as soon as an attestation was submitted or either fee
  configured; only the lifecycle events replay [`Replay.FullStreamReplaysIff`,
  `Replay.ConfiguringStopsReplay`]. A replayed revocation has timestamp zero
  [`Replay.RevocationTimeAgreesIff`].
- A verified dispute witness resolves a dispute without releasing the attestor, and an
  attestation that is archived and submitted again under an open dispute moves the release to
  another attestor. These are exactly the two ways to break the lock count
  [`Disputes.LockLawBreaksIff`, `Disputes.LockLawHoldsThroughoutIff`].
- The order of the two fee discounts is documented not to matter. The two products are checked
  in a fixed order, so on a large base a full discount is free in one position and aborts in
  the other [`DynamicFees.DiscountsCommuteIff`, `DynamicFees.FullDiscountsDiffer`].
- The epoch number equals the elapsed buckets only while the ledger clock never falls back to an
  earlier bucket: the fallback is stored and counted again [`Epochs.EpochIsElapsedBucketsIff`].
- `configure_flat_fee` accepts a negative amount. A quote then subtracts it, a submission does
  not [`AttestationRuns.QuoteIsNextFeeIff`].
- A dry run is documented to keep another batch from being swapped in. Its token covers
  business, period and schema version of each entry, neither its record nor its declared
  count, so it keeps other batches out exactly when it checked nothing or nothing can be
  committed at all [`SnapshotRestore.CommitCommitsIff`, `SnapshotRestore.OnlyCheckedCommitsIff`];
  a record from the future can be stored that way [`SnapshotRestore.UncheckedRecordIsStored`].
  A restore lists no epoch, so a restored record
  is exported only through a listed period of its business
  [`SnapshotExport.RestoredIsExportedIff`]. A commit that aborts rolls its token back like
  everything else.
- The canonical encoding of a record does not name the business, so the export commitment binds
  how often each record occurs, not who holds it [`SnapshotExport.CommitmentDeterminesIff`].
- An export visits a business once per listed epoch, so each record occurs as often as its
  business has periods [`SnapshotExport.ExportMultiplicity`].
- Revoking a multi-period root reaches only the last range with that root
  [`MultiPeriod.RevocationMissesOlderRanges`].
- Rejecting a proposal ignores its status, so an executed proposal reads as executed only until
  someone rejects it [`Multisig.ExecutedStaysIff`]. Initialization accepts duplicate owners; a
  new proposal can pass exactly when the distinct ones reach the threshold
  [`Multisig.NewProposalCanPassIff`]. Later, owners may have been removed: then it can pass
  exactly while those who approved it and its frozen owners still in office reach the frozen
  threshold [`Multisig.CanPassIff`].
- Queue entries slashed to zero stay queued, and a withdrawal of nothing aborts. An attestor
  with a stake is stuck exactly when its queue is full of zeros, and then for good
  [`Staking.ReachableStuckIffClogged`, `Staking.BlockedForGood`]. A slash of an empty stake
  leaves its dispute id unprocessed.
- `get_attestation` reads persistent storage, submission writes instance storage; the model is
  about the instance map.

## Model

| member | source | states |
|---|---|---|
| RateLimit.StoredIsRecentHistory | contracts/attestation/src/rate_limit.rs:193-320 | over any run with any clock and any reconfiguration the stored list is sorted, at most 100 long, and the most recent part of the full history |
| RateLimit.RecordedAtTheLatestTime | contracts/attestation/src/rate_limit.rs:203-211 | an admitted submission is recorded, and the high-water mark set, at the ledger time or the previous mark, whichever is later |
| RateLimit.HistoryIsRunningMaximum | contracts/attestation/src/rate_limit.rs:203-211 | over every run each recorded time is the largest ledger time among the submissions of the business recorded so far |
| RateLimit.IdleBusinessIsAdmitted | contracts/attestation/src/rate_limit.rs:276-294 | over every run a business that was quiet for more than a window is admitted |
| RateLimit.CountWithinMeaning | contracts/attestation/src/rate_limit.rs:225-257 | the count of a closed window is the number of recorded submissions with a time in it |
| RateLimit.PrunedCountsAreExact | contracts/attestation/src/rate_limit.rs:225-257 | counting in the pruned list gives what counting in the full history would |
| RateLimit.NoWindowIsOverfull | contracts/attestation/src/rate_limit.rs:225-320 | after any run with any reconfigurations, from the moment limits are set until the next change no closed window, placed anywhere, holds more of the effective times since then than either limit, even with a clock that runs backwards |
| RateLimit.AdmittedIffWindowsHaveRoom | contracts/attestation/src/rate_limit.rs:276-294 | an attempt is admitted exactly when both true windows have room |
| RateLimit.RateLimiter.SetConfig | contracts/attestation/src/rate_limit.rs:135-172 | stores exactly the valid configurations |
| RateLimit.RateLimiter.AnalyzeSubmissionWindows | contracts/attestation/src/rate_limit.rs:225-257 | one pass yields the pruned list and both counts |
| RateLimit.RateLimiter.CheckRateLimit | contracts/attestation/src/rate_limit.rs:276-294 | admits or aborts as specified; an abort changes nothing |
| RateLimit.RateLimiter.RecordSubmission | contracts/attestation/src/rate_limit.rs:305-320 | prunes, appends the effective time and raises the high-water mark |
| RateLimit.RateLimiter.GetSubmissionCount | contracts/attestation/src/rate_limit.rs:326-334 | counts the live entries of the full window |
| RateLimit.RateLimiter.GetBurstSubmissionCount | contracts/attestation/src/rate_limit.rs:340-348 | counts the live entries of the burst window |
| DynamicFees.ScanPicksLargestThreshold | contracts/attestation/src/dynamic_fees.rs:504-523 | the backward scan picks the discount of the largest threshold reached, and none exactly when no threshold is reached |
| DynamicFees.FeeExistsIff | contracts/attestation/src/dynamic_fees.rs:574-589 | a fee exists exactly when the base is non-negative and both checked products fit; the final range check never fails |
| DynamicFees.FeeIsExactFloor | contracts/attestation/src/dynamic_fees.rs:560-589 | the fee is the exact floor of the discounted base and lies between zero and the base |
| DynamicFees.SmallBaseNeverOverflows | contracts/attestation/src/dynamic_fees.rs:574-589 | no overflow for a base up to the 128-bit maximum divided by the scale |
| DynamicFees.FeeIsMonotone | contracts/attestation/src/dynamic_fees.rs:560-589 | a larger base or smaller discounts never lower the fee |
| DynamicFees.DiscountsCommuteIff | contracts/attestation/src/dynamic_fees.rs:560-589 | exactly when the two discounts commute, on every base: they do unless one is full and the base times the other factor leaves the 128-bit range |
| DynamicFees.FullDiscountsDiffer | contracts/attestation/src/dynamic_fees.rs:560-589 | on every base above a ten-thousandth of the range, a full tier discount charges nothing and a full volume discount aborts |
| DynamicFees.FeeIsAlmostAdditive | contracts/attestation/src/dynamic_fees.rs:560-589 | splitting a base costs at most one unit |
| DynamicFees.EveryScheduleIsValid | contracts/attestation/src/dynamic_fees.rs:415-498 | every reachable schedule has ascending thresholds, paired lists and discounts of at most 10000 |
| DynamicFees.EveryFeeIsTheDiscountedFloor | contracts/attestation/src/dynamic_fees.rs:525-589 | in every reachable schedule a business is charged the discounted floor, and charging cannot abort below the overflow bound |
| DynamicFees.CalculateFeeExistsIff | contracts/attestation/src/dynamic_fees.rs:528-589 | in every valid schedule a business can be charged exactly when the tier-discounted base and then the fully discounted one fit |
| DynamicFees.AttemptCommitsIff | contracts/attestation/src/dynamic_fees.rs:415-498 | exactly which settings are accepted; comparing neighbouring thresholds is enough |
| DynamicFees.SettingsAreTheLastSet | contracts/attestation/src/dynamic_fees.rs:341-456 | over every run the configuration, the tier of a business and that tier's discount are the last accepted ones, and its counter is how often it was counted |
| DynamicFees.BracketsAreReplaced | contracts/attestation/src/dynamic_fees.rs:472-498 | accepted brackets replace both lists whole |
| DynamicFees.FeeSchedule.ConfigureFees | contracts/attestation/src/lib.rs:306-313 | stores a configuration exactly when its base fee is non-negative |
| DynamicFees.FeeSchedule.SetFeeEnabled | contracts/attestation/src/dynamic_fees.rs:341-346 | toggles an existing configuration, otherwise does nothing |
| DynamicFees.FeeSchedule.SetTierDiscount | contracts/attestation/src/dynamic_fees.rs:415-421 | stores tiers up to 9 with at most 10000 basis points |
| DynamicFees.FeeSchedule.SetBusinessTier | contracts/attestation/src/dynamic_fees.rs:431-436 | assigns tiers up to 9 |
| DynamicFees.FeeSchedule.SetVolumeBrackets | contracts/attestation/src/dynamic_fees.rs:472-498 | comparing neighbours accepts exactly the ascending lists of equal length within bounds |
| DynamicFees.FeeSchedule.VolumeDiscountForCount | contracts/attestation/src/dynamic_fees.rs:507-523 | the backward loop computes the specified bracket |
| DynamicFees.FeeSchedule.CalculateFeeFor | contracts/attestation/src/dynamic_fees.rs:528-538 | zero without an enabled configuration, else the discounted fee |
| DynamicFees.FeeSchedule.IncrementBusinessCount | contracts/attestation/src/dynamic_fees.rs:450-456 | adds one to one business |
| Epochs.EpochIsElapsedBucketsIff | contracts/attestation/src/dynamic_fees.rs:768-815 | the epoch is last bucket minus first plus one plus every fallback of the clock; the documented reading holds exactly when there was none |
| Epochs.EveryEndedEpochIsReported | contracts/attestation/src/dynamic_fees.rs:625-644 | in every run, each ended epoch has one summary, in order, whose count still is the stored one |
| Epochs.ReportsAreFinal | contracts/attestation/src/dynamic_fees.rs:625-644 | published boundaries and counts of ended epochs never change, and the epoch never falls |
| Epochs.NoCleanupIsLost | contracts/attestation/src/dynamic_fees.rs:745-767 | reported counts plus the current one are all cleanups ever made, within the 64-bit range |
| Epochs.EpochCounter.AdvanceEpoch | contracts/attestation/src/dynamic_fees.rs:633-644 | reports the ending epoch, then advances |
| Epochs.EpochCounter.HandleEpochRollover | contracts/attestation/src/dynamic_fees.rs:787-815 | advances once per elapsed window, once on first use, and always stores the bucket |
| Epochs.EpochCounter.IncrementCleanupCount | contracts/attestation/src/dynamic_fees.rs:761-767 | counts a cleanup in the current epoch |
| FlatFees.QuoteIsChargeIff | contracts/attestation/src/fees.rs:297-329 | quote and charge agree except for an enabled negative amount |
| FlatFees.PersistEffect | contracts/attestation/src/fees.rs:380-422 | a snapshot keeps the history distinct and within 100 epochs and drops at most the oldest |
| FlatFees.EveryBookIsOk | contracts/attestation/src/fees.rs:374-422 | history and snapshots list the same epochs, distinct and bounded, and the current epoch holds the live configuration |
| FlatFees.HistoryIsFaithful | contracts/attestation/src/fees.rs:357-422 | each retained epoch holds the configuration last in force in it |
| FlatFees.FlatFeeBook.PersistEpochSnapshotFor | contracts/attestation/src/fees.rs:380-422 | the search and pruning loops compute the specified book |
| FlatFees.FlatFeeBook.SetFlatFeeConfig | contracts/attestation/src/fees.rs:86-91 | stores the configuration and its snapshot |
| FlatFees.FlatFeeBook.SetCurrentEpoch | contracts/attestation/src/fees.rs:341-346 | moves to an epoch and snapshots it |
| FlatFees.FlatFeeBook.AdvanceCurrentEpoch | contracts/attestation/src/fees.rs:350-354 | moves to the next epoch |
| Attestations.BatchIsSequential | contracts/attestation/src/lib.rs:1206-1370 | a batch of 1 to 25 items commits exactly when the single path on its items in turn does, and ends in the same ledger, events included |
| Attestations.InTurnIsValidateThenPerform | contracts/attestation/src/lib.rs:1229-1370 | interleaved checks on a growing ledger equal one validation up front plus distinct keys |
| AttestationRuns.SubmissionCommitsIff | contracts/attestation/src/lib.rs:1075-1204 | a submission commits exactly when the item is acceptable, the limiter admits it, both fees can be paid and the counter has room |
| AttestationRuns.SubmissionEffect | contracts/attestation/src/lib.rs:1096-1190 | what a committed submission leaves in limiter, epoch clock, bank, attestations, attestors, schedule, flat fee and revocations, and that nothing else in them moves |
| AttestationRuns.SubmissionStoresTheItem | contracts/attestation/src/lib.rs:1142-1150 | root, timestamp, version, proof hash and expiry of the item are stored, each in its own place |
| AttestationRuns.BatchStoresTheItems | contracts/attestation/src/lib.rs:1288-1302 | so they are for every item of a committed batch |
| AttestationRuns.ChargeCommitsIff | contracts/attestation/src/lib.rs:1136-1138 | exactly when both fees can be charged, in terms of the balances before: the flat fee is paid from what the dynamic fee leaves, and the sum fits |
| AttestationRuns.SubmissionTotals | contracts/attestation/src/lib.rs:1142-1180 | what it adds to the per-period totals, the backfill counter and the event stream |
| AttestationRuns.QuoteIsNextFeeIff | contracts/attestation/src/lib.rs:2797-2801 | the quote is the fee stored by the next successful submission unless an enabled flat amount is negative |
| AttestationRuns.StoredFeeIsPaid | contracts/attestation/src/lib.rs:1136-1138 | the stored fee is the sum of two parts; every account, payers and collectors included, moves by exactly those parts in every token, and every token is conserved |
| AttestationRuns.EveryRunConserves | contracts/attestation/src/lib.rs:1075-1370 | no run creates or destroys a unit of any token |
| AttestationRuns.RevokeCommitsIff | contracts/attestation/src/lib.rs:3228-3241 | exactly when an attestation is revoked, and what is stored |
| AttestationRuns.MigrateCommitsIff | contracts/attestation/src/lib.rs:2387-2445 | exactly when one is migrated: to a higher version, before its expiry, unrevoked |
| AttestationRuns.CleanUpCommitsIff | contracts/attestation/src/lib.rs:1763-1801 | exactly when one is cleaned up: expired, unrevoked, undisputed; one cleanup is counted |
| AttestationRuns.IssueRangeCommitsIff | contracts/attestation/src/lib.rs:2331-2385 | exactly when a multi-period range is issued, what it pays and counts |
| AttestationRuns.FeeChangeEffect | contracts/attestation/src/lib.rs:298-471 | what each change of the fee settings stores and publishes |
| AttestationRuns.FlatFeeChangeEffect | contracts/attestation/src/lib.rs:473-496 | what each change of the flat fee stores and publishes |
| AttestationRuns.CallKeepsOrigin | contracts/attestation/src/lib.rs:842-3241 | no call changes timestamp, fee, proof hash or expiry of a stored attestation; its root changes only with a higher version |
| AttestationRuns.RevokedForGood | contracts/attestation/src/lib.rs:3228-3241 | over every run a revoked attestation stays stored exactly as it was, with the same revoker, time and reason |
| AttestationRuns.EveryLedgerIsAccounted | contracts/attestation/src/lib.rs:1161-1178 | over runs that also issue multi-period ranges, counters and fee totals are a function of the event stream, every checkpoint can be recomputed from the events before it, and there is one backfill checkpoint per hundred submissions |
| AttestationRuns.EveryBoundaryIsPublished | contracts/attestation/src/dynamic_fees.rs:633-644 | the published boundary events are one summary and one advance per ended epoch, in order, with final counts |
| AttestationLimits.NoWindowIsOverfullOnEitherPath | contracts/attestation/src/lib.rs:1271-1335 | from a call that sets the limits until the next one, whatever preceded it, earlier limits included, singles and batch items together fill no window beyond either limit, and they are as many as the counter rose less its multi-period ranges |
| AttestationLimits.LimiterIsLinked | contracts/attestation/src/lib.rs:1098-1100 | over every run, through every reconfiguration, the stored limiter is that of the limiter run alone on what was committed |
| AttestationLimits.RunIsLinked | contracts/attestation/src/lib.rs:1098-1100 | since the limits were last set, counters rise by the items that the limiter recorded and by multi-period ranges |
| AttestationEntry.AttestationContract.Submit | contracts/attestation/src/lib.rs:1075-1204 | the single path, with its own order of checks and effects and a rollback on every abort |
| AttestationEntry.AttestationContract.ValidateBatch | contracts/attestation/src/lib.rs:1229-1269 | the first phase accepts exactly acceptable items with distinct keys |
| AttestationEntry.AttestationContract.SubmitValidated | contracts/attestation/src/lib.rs:1271-1335 | one item of the second phase |
| AttestationEntry.AttestationContract.SubmitBatch | contracts/attestation/src/lib.rs:1206-1370 | the batch path; a failed batch changes nothing |
| AttestationEntry.AttestationContract.ChargeFees | contracts/attestation/src/dynamic_fees.rs:602-610 | both fees, from payer to collectors |
| AttestationEntry.AttestationContract.CollectFlatFee | contracts/attestation/src/fees.rs:316-329 | transfers an enabled positive amount, otherwise nothing |
| AttestationEntry.AttestationContract.WriteSubmission | contracts/attestation/src/lib.rs:1142-1180 | stores the attestation, publishes its events and records it with the limiter |
| AttestationEntry.AttestationContract.RevokeAttestation | contracts/attestation/src/lib.rs:3228-3241 | revokes an existing, unrevoked attestation once |
| AttestationEntry.AttestationContract.MigrateAttestation | contracts/attestation/src/lib.rs:2387-2445 | replaces root and version of a live attestation by a higher version |
| AttestationEntry.AttestationContract.CleanUpExpiredAttestation | contracts/attestation/src/lib.rs:1763-1801 | removes an expired, unrevoked, undisputed attestation and counts it |
| AttestationEntry.AttestationContract.GetFeeQuote | contracts/attestation/src/lib.rs:2797-2801 | dynamic plus flat quote |
| AttestationEntry.AttestationContract.IssueMultiPeriod | contracts/attestation/src/lib.rs:2331-2385 | the fee, the counter and the event of a multi-period submission |
| AttestationEntry.AttestationContract.ConfigureFees | contracts/attestation/src/lib.rs:298-322 | stores and publishes a configuration exactly when its base fee is non-negative |
| AttestationEntry.AttestationContract.SetFeeEnabled | contracts/attestation/src/lib.rs:458-471 | switches a stored configuration and publishes it; without one it changes and publishes nothing |
| AttestationEntry.AttestationContract.ConfigureFlatFee | contracts/attestation/src/lib.rs:473-496 | stores and publishes the flat fee and takes its snapshot |
| Replay.LifecycleStreamRebuildsTheLedger | scripts/indexer_replay.py:191-314 | for every run the lifecycle events replay without error and end with exactly the contract's attestations, revokers and reasons |
| Replay.RevocationTimeAgreesIff | scripts/indexer_replay.py:235-265 | the replayed revocation agrees in everything but its timestamp, which agrees exactly at ledger time zero |
| Replay.FullStreamReplaysIff | scripts/indexer_replay.py:191-206 | the full stream of a run replays exactly when no call of it was a committed submission or a committed configuration of either fee |
| Replay.ConfiguringStopsReplay | contracts/attestation/src/events.rs:1564-1599 | one configuration of either fee is enough, without any attestation |
| Replay.SilentEventStopsReplay | contracts/attestation/src/events.rs:2271-2355 | any event published without a business stops the replay |
| Replay.AppliedIff | scripts/indexer_replay.py:191-314 | exactly when a lifecycle event is applied: its fields are there, numbers are numbers, a live entry for everything but a submission, and the current root and a higher version for a migration |
| Replay.OtherEventsChangeNothing | scripts/indexer_replay.py:191-206 | any other event is skipped if it names a topic and a business and stops the replay if not |
| Replay.AcceptedStreamsHoldTheLive | scripts/indexer_replay.py:151-314 | on every accepted stream there is an entry exactly for the keys whose newest submission or cleanup is a submission |
| Replay.MissingSubmissionIsNoticed | scripts/indexer_replay.py:235-314 | so a stream that lacks a submission is rejected at the next event about its key |
| Replay.IndexerReplayer.ProcessEvent | scripts/indexer_replay.py:191-221 | validation order, topic filter and dispatch of one event |
| Replay.IndexerReplayer.ReduceSubmitted | scripts/indexer_replay.py:223-233 | a submission overwrites the whole entry |
| Replay.IndexerReplayer.ReduceRevoked | scripts/indexer_replay.py:235-265 | a revocation needs a live entry |
| Replay.IndexerReplayer.ReduceMigrated | scripts/indexer_replay.py:267-298 | a migration needs the old root and a higher version |
| Replay.IndexerReplayer.ReduceCleanedUp | scripts/indexer_replay.py:300-314 | a cleanup deletes an existing entry |
| Replay.IndexerReplayer.ReplayStream | scripts/indexer_replay.py:151-154 | the whole stream, stopping at the first error |
| MultiPeriod.EveryStoreIsConsistent | contracts/attestation/src/lib.rs:2331-2385 | active ranges of a business never overlap, and the root index is the backward scan |
| MultiPeriod.SubmitCommitsIff | contracts/attestation/src/lib.rs:2331-2385 | exactly when a range is accepted: not reversed, an expiry after its timestamp and the ledger time, no active range met, fee paid |
| MultiPeriod.VerifyNeedsACoveringRange | contracts/attestation/src/lib.rs:2532-2562 | without an active range that covers the period nothing is verified |
| MultiPeriod.VerifyIsDecidedByTheCoveringRange | contracts/attestation/src/lib.rs:2532-2562 | verification is decided by the one active range covering the period |
| MultiPeriod.RevokeIsBackwardScan | contracts/attestation/src/lib.rs:2699-2723 | constant-time revocation marks exactly the last range with the root, commits exactly when the root occurs, and its index is in bounds |
| MultiPeriod.RevocationMissesOlderRanges | contracts/attestation/src/lib.rs:2699-2723 | a revoked root still proves a period exactly when an older active range carries it |
| MultiPeriod.MultiPeriodContract.SubmitRange | contracts/attestation/src/lib.rs:2331-2385 | the overlap scan and the index update |
| MultiPeriod.MultiPeriodContract.RevokeRange | contracts/attestation/src/lib.rs:2699-2723 | revocation through the index |
| MultiPeriod.MultiPeriodContract.VerifyRange | contracts/attestation/src/lib.rs:2532-2562 | the verification scan |
| Disputes.EligibilityMeaning | contracts/attestation/src/dispute.rs:443-531 | the index scans see every dispute there is, so opening is refused exactly for unfinished or repeated disputes |
| Disputes.OpenCommitsIff | contracts/attestation/src/lib.rs:2952-2993 | exactly when a dispute can be opened, and what is recorded |
| Disputes.StatusMovesOnlyForward | contracts/attestation/src/lib.rs:2995-3108 | which committed calls move a dispute to which status: resolution and witness from open, close from resolved, and a rollback only of a late listed one |
| Disputes.DecisionsCommitIff | contracts/attestation/src/lib.rs:2995-3058 | exactly when a resolution, a witness and a close commit |
| Disputes.DeadlineCommitsIff | contracts/attestation/src/dispute.rs:348-361 | accepts one hour to ninety days and stores it |
| Disputes.RollBackCountsClosed | contracts/attestation/src/lib.rs:3091-3108 | the reported count is the number of disputes closed, at most the limit |
| Disputes.EveryDocketIsOrderly | contracts/attestation/src/dispute.rs:443-531 | both indexes are the increasing lists of matching ids, at most one dispute per attestation is unfinished, nobody disputes an attestation twice |
| Disputes.ClosedIsForever | contracts/attestation/src/dispute.rs:476-502 | a closed dispute is never touched again and parties never change |
| Disputes.RollBackIsExact | contracts/attestation/src/dispute.rs:845-919 | a rollback closes overdue listed disputes and nothing else, all of them unless it stopped at its limit |
| Disputes.LockLawBreaksIff | contracts/attestation/src/dispute.rs:763-804 | where every lock count is exact, a call keeps them exact if and only if it is neither a witness resolution against an attestor nor a submission that displaces the attestor of an open dispute |
| Disputes.LockLawHoldsThroughoutIff | contracts/attestation/src/dispute.rs:763-804 | the lock counts are exact at every point of a run if and only if no call of the run does either |
| Disputes.LockCountsOpenDisputesIff | contracts/attestation/src/dispute.rs:542-583 | without displacement a lock count is the open disputes plus the witness resolutions that hit the attestor, so it is exact if and only if there were none |
| Disputes.ReplacedAttestorStaysLocked | contracts/attestation/src/lib.rs:1513-1582 | a run that displaces an attestor and leaves it locked after every dispute is finished |
| Disputes.DisputeContract.HasOpen | contracts/attestation/src/dispute.rs:517-531 | finds an unfinished dispute of an attestation |
| Disputes.DisputeContract.HasExisting | contracts/attestation/src/dispute.rs:403-420 | finds an earlier dispute of a challenger |
| Disputes.DisputeContract.LockAttestor | contracts/attestation/src/dispute.rs:763-779 | counts one more lock |
| Disputes.DisputeContract.UnlockAttestor | contracts/attestation/src/dispute.rs:790-804 | counts one lock less, removes the entry at zero, and says whether the attestor is free |
| Disputes.DisputeContract.FileDispute | contracts/attestation/src/lib.rs:2952-2993 | files a dispute, extends both indexes, locks the attestor |
| Disputes.DisputeContract.Resolve | contracts/attestation/src/lib.rs:2995-3032 | resolves an open dispute and releases the attestor |
| Disputes.DisputeContract.Close | contracts/attestation/src/lib.rs:3034-3039 | closes a resolved dispute |
| Disputes.DisputeContract.SubmitWitness | contracts/attestation/src/dispute.rs:542-583 | resolves on a verified proof, keeping the lock |
| Disputes.DisputeContract.CheckAndRollBack | contracts/attestation/src/dispute.rs:845-919 | the bounded rollback loop and its count |
| Disputes.DisputeContract.SetDisputeDeadline | contracts/attestation/src/dispute.rs:348-360 | accepts one hour to ninety days |
| Multisig.EveryRunIsGoverned | contracts/attestation/src/multisig.rs:252-642 | over all runs approvals are distinct and entitled by frozen rules, the live threshold stays reachable, each id is dispatched at most once and only with the frozen threshold of approvals |
| Multisig.ExecutedActionTakesEffect | contracts/attestation/src/multisig.rs:650-698 | an executed proposal appends the new owner, removes every occurrence of an owner or sets the threshold, and every other action leaves both alone |
| Multisig.RosterIsEnacted | contracts/attestation/src/multisig.rs:614-698 | over every run owners and threshold are those at its start, changed by the dispatched actions in their order and by nothing else |
| Multisig.CreateCommitsIff | contracts/attestation/src/multisig.rs:252-346 | exactly when a proposal is created, and what it starts with |
| Multisig.CooldownIsObserved | contracts/attestation/src/multisig.rs:252-346 | after an executed threshold change, whatever is called, the next proposal of one is refused until the cooldown has passed |
| Multisig.PendingIff | contracts/attestation/src/multisig.rs:488-497 | a proposal is open exactly while undecided and within its lifetime since creation |
| Multisig.ApproveCommitsIff | contracts/attestation/src/multisig.rs:499-544 | exactly who can approve and when, and that it adds that one approval |
| Multisig.UnapproveEffect | contracts/attestation/src/multisig.rs:791-830 | withdrawing takes back that approval and no other |
| Multisig.RejectCommitsIff | contracts/attestation/src/multisig.rs:546-567 | exactly an owner can reject exactly a stored proposal |
| Multisig.PreviewReports | contracts/attestation/src/multisig.rs:380-479 | the forecast names the true counts and the reason of a refusal |
| Multisig.DispatchCommitsIff | contracts/attestation/src/multisig.rs:650-698 | exactly which actions the council accepts |
| Multisig.CleanupIsExact | contracts/attestation/src/multisig.rs:745-789 | a cleanup removes exactly the proposals among the first ids whose lifetime and grace have passed, and aborts exactly on an overflow |
| Multisig.RulesAreFrozen | contracts/attestation/src/multisig.rs:252-333 | one call never reuses an id and never changes a proposal's rules |
| Multisig.RulesHoldOverRuns | contracts/attestation/src/multisig.rs:252-333 | the same over any run |
| Multisig.DispatchUsesCreationRules | contracts/attestation/src/multisig.rs:252-333 | whatever happens in between, a proposal is dispatched with the action, the owners and the threshold of the ledger that created it |
| Multisig.CountIsVotesUnderSnapshot | contracts/attestation/src/multisig.rs:569-601 | the fallbacks for a missing snapshot are never taken |
| Multisig.PreviewIsExact | contracts/attestation/src/multisig.rs:380-479 | the forecast is positive exactly when marking would succeed |
| Multisig.ExecuteCommitsIff | contracts/attestation/src/lib.rs:2193-2215 | execution commits exactly for an owner, a positive forecast and an accepted action |
| Multisig.OwnersStayDistinct | contracts/attestation/src/multisig.rs:650-678 | one call never adds a duplicate owner |
| Multisig.EveryRunHasDistinctOwners | contracts/attestation/src/multisig.rs:650-678 | a run initialized with distinct owners never has a duplicate |
| Multisig.NewProposalCanPassIff | contracts/attestation/src/multisig.rs:237-246 | some approvals let a new proposal be executed if and only if the distinct owners reach the threshold |
| Multisig.CanPassIff | contracts/attestation/src/multisig.rs:614-642 | any stored proposal can still pass if and only if it is undecided and its approvers, together with its frozen owners still in office, reach the frozen threshold |
| Multisig.DispatchNeedsEnoughOwners | contracts/attestation/src/multisig.rs:614-642 | no run dispatches under rules whose distinct owners cannot reach the threshold |
| Multisig.OneOwnerListedTwiceDeadlocks | contracts/attestation/src/multisig.rs:237-246 | initialization accepts one owner listed twice with threshold two, and then nothing can pass |
| Multisig.TooFewDistinctOwnersDeadlock | contracts/attestation/src/multisig.rs:614-642 | in any reachable council, too few distinct owners make a proposal unexecutable |
| Multisig.ExecutedStaysIff | contracts/attestation/src/multisig.rs:546-554 | a committed call that keeps an executed proposal stored leaves it executed if and only if it is not a rejection of it |
| Multisig.ExecutedUnlessRejected | contracts/attestation/src/multisig.rs:546-554 | over any run an executed proposal, while stored, reads as executed if and only if nobody has rejected it since |
| Multisig.ExecutedCanBecomeRejected | contracts/attestation/src/multisig.rs:546-554 | any owner can reject an executed proposal; only the record changes, and the action cannot run again |
| Multisig.SwapPopRemovesOne | contracts/attestation/src/multisig.rs:791-815 | withdrawing an approval removes exactly that approver |
| Multisig.MultisigContract.CreateProposal | contracts/attestation/src/multisig.rs:252-333 | creates a proposal with its frozen rules |
| Multisig.MultisigContract.ApproveProposal | contracts/attestation/src/multisig.rs:499-544 | adds one entitled approval |
| Multisig.MultisigContract.RevokeApproval | contracts/attestation/src/multisig.rs:791-815 | swap-and-pop of one approval |
| Multisig.MultisigContract.RejectProposal | contracts/attestation/src/multisig.rs:546-554 | rejects whatever the status |
| Multisig.MultisigContract.GetApprovalCount | contracts/attestation/src/multisig.rs:586-601 | counts approvals under the frozen owners |
| Multisig.MultisigContract.MarkProposalExecuted | contracts/attestation/src/multisig.rs:614-642 | marks a pending, unexpired, approved proposal |
| Multisig.MultisigContract.PreviewProposal | contracts/attestation/src/multisig.rs:380-479 | the forecast |
| Multisig.MultisigContract.ExecuteProposal | contracts/attestation/src/lib.rs:2193-2215 | marks, then dispatches; an abort undoes both |
| Multisig.MultisigContract.CleanupExpiredProposals | contracts/attestation/src/multisig.rs:745-789 | removes what is past expiry and grace among the first ids, and counts it |
| Staking.EveryRunIsSolvent | contracts/attestor-staking/src/lib.rs:143-388 | queues sum to `locked`, `locked` stays within `amount`, each attestor's books balance, the contract holds all stakes, no dispute id is punished twice |
| Staking.StakeCommitsIff | contracts/attestor-staking/src/lib.rs:143-164 | exactly when a deposit commits, and what it adds |
| Staking.RequestCommitsIff | contracts/attestor-staking/src/lib.rs:175-225 | exactly when an unstake request is queued |
| Staking.RequestWaits | contracts/attestor-staking/src/lib.rs:204-218 | a request joins the unchanged queue with its amount, unlocks after the unbonding period or with the newest one before it, and adds nothing to what can be withdrawn earlier |
| Staking.NothingLeavesEarly | contracts/attestor-staking/src/lib.rs:175-285 | over every run, an attestor with nothing queued who asks for stake at some time or later can withdraw nothing until a whole unbonding period after that time |
| Staking.PeriodIsLastSet | contracts/attestor-staking/src/lib.rs:614-620 | the unbonding period in force is the one set last |
| Staking.SlashCommitsIff | contracts/attestor-staking/src/lib.rs:310-388 | exactly when a slash commits; the dispute counts as punished only if something was taken |
| Staking.WithdrawCommitsIff | contracts/attestor-staking/src/lib.rs:228-285 | in a vault that covers the attestor's stake, the two invariant assertions are unreachable and a withdrawal commits exactly when something has matured and the receiver has room |
| Staking.ReachableVaultCovers | contracts/attestor-staking/src/lib.rs:143-388 | every reachable contract holds at least each attestor's stake |
| Staking.ReachableWithdrawCommitsIff | contracts/attestor-staking/src/lib.rs:228-285 | so the same holds for every reachable vault |
| Staking.MaturedIsPrefix | contracts/attestor-staking/src/lib.rs:237-247 | in a sorted queue the matured requests are exactly a prefix |
| Staking.WithdrawPaysMaturedPrefix | contracts/attestor-staking/src/lib.rs:228-285 | a withdrawal pays out exactly that prefix and keeps the rest in order |
| Staking.CutIsExact | contracts/attestor-staking/src/lib.rs:345-376 | a cut removes exactly the excess and moves no unlock time |
| Staking.CutIsLastInFirstOut | contracts/attestor-staking/src/lib.rs:345-376 | an older request is touched only when every newer one is empty |
| Staking.SlashTakesFreeStakeFirst | contracts/attestor-staking/src/lib.rs:310-388 | unlocked stake goes first; the rest comes out of the queue and equals the drop in `locked` |
| Staking.StuckIffClogged | contracts/attestor-staking/src/lib.rs:175-285 | an attestor with a stake, a solvent contract and room can neither request nor withdraw at any ledger time if and only if its queue is full of zeros |
| Staking.ReachableStuckIffClogged | contracts/attestor-staking/src/lib.rs:175-285 | the same over every run |
| Staking.CloggingRun | contracts/attestor-staking/src/lib.rs:143-388 | the run that gets there for anyone with eleven units: deposit ten, request one unit ten times, be slashed for all, deposit again |
| Staking.BlockedForGood | contracts/attestor-staking/src/lib.rs:175-285 | once clogged, an attestor is stuck at every later point of every run |
| Staking.SlashingEverythingClogs | contracts/attestor-staking/src/lib.rs:364-376 | slashing a whole stake with a full queue leaves a full queue of zeros |
| Staking.CloggedForever | contracts/attestor-staking/src/lib.rs:175-285 | no step unclogs a queue, and the attestor's own steps abort |
| Staking.StakingContract.StakeFunds | contracts/attestor-staking/src/lib.rs:143-164 | a deposit |
| Staking.StakingContract.Request | contracts/attestor-staking/src/lib.rs:175-225 | a queued unstake request |
| Staking.StakingContract.SplitQueue | contracts/attestor-staking/src/lib.rs:237-247 | splits the queue into a matured total and the rest |
| Staking.StakingContract.WithdrawUnstaked | contracts/attestor-staking/src/lib.rs:228-285 | a withdrawal; an abort changes nothing |
| Staking.StakingContract.TakeFromBack | contracts/attestor-staking/src/lib.rs:356-376 | the backward loop that takes the excess |
| Staking.StakingContract.SlashAttestor | contracts/attestor-staking/src/lib.rs:310-388 | a slash, once per dispute |
| Snapshots.FinalizedCountIsExact | contracts/attestation-snapshot/src/lib.rs:497-518 | the finalized count is the number of live snapshots of the epoch |
| Snapshots.RecordCommitsIff | contracts/attestation-snapshot/src/lib.rs:447-494 | exactly when a snapshot is recorded, and what it changes |
| Snapshots.FinalizeCommitsIff | contracts/attestation-snapshot/src/lib.rs:497-518 | exactly when an epoch is finalized: once, and only with a snapshot |
| Snapshots.SnapshotContract.Record | contracts/attestation-snapshot/src/lib.rs:447-494 | records a snapshot in the map and all three indexes |
| Snapshots.SnapshotContract.Finalize | contracts/attestation-snapshot/src/lib.rs:497-518 | finalizes an epoch once |
| Snapshots.SnapshotContract.IndexPeriodForBusiness | contracts/attestation-snapshot/src/lib.rs:1188-1206 | bounded, duplicate-free period list |
| Snapshots.SnapshotContract.IndexBusinessForEpoch | contracts/attestation-snapshot/src/lib.rs:1208-1226 | bounded, duplicate-free business list |
| Snapshots.SnapshotContract.IndexEpochGlobally | contracts/attestation-snapshot/src/lib.rs:1232-1248 | duplicate-free epoch list |
| Snapshots.SnapshotContract.GetSnapshotsForBusiness | contracts/attestation-snapshot/src/lib.rs:954-973 | the records of a business in period order |
| SnapshotRestore.EveryArchiveIsIndexed | contracts/attestation-snapshot/src/lib.rs:447-930 | recording and restoring in any order: a snapshot exists exactly when both indexes list it, and lists are distinct and bounded |
| SnapshotRestore.FinalizedForever | contracts/attestation-snapshot/src/lib.rs:497-518 | a finalized epoch's metadata, businesses and snapshots never change again |
| SnapshotRestore.ScanFindsExactlyTheUnclean | contracts/attestation-snapshot/src/lib.rs:616-757 | the report is empty exactly for distinct keys, fitting periods, no future time and non-decreasing times per business |
| SnapshotRestore.DryRunReadyIff | contracts/attestation-snapshot/src/lib.rs:616-757 | a dry run arms a token exactly for a clean batch and changes nothing else |
| SnapshotRestore.DryRunCommitsIff | contracts/attestation-snapshot/src/lib.rs:616-757 | exactly when a dry run gives a report: at most 1024 entries of schema version one, and a deadline in range |
| SnapshotRestore.ReportListsTheFaults | contracts/attestation-snapshot/src/lib.rs:616-757 | the report lists exactly the faulty entries, in order, each with its index and its fault, the faults said about the batch itself |
| SnapshotRestore.CountsAgreeIff | contracts/attestation-snapshot/src/lib.rs:840-906 | the count check passes exactly when the first entry of every business declares the number of its entries |
| SnapshotRestore.CommitUsesOneCleanDryRun | contracts/attestation-snapshot/src/lib.rs:786-930 | a commit uses up one clean dry run of the same ordered keys and agrees with the declared counts |
| SnapshotRestore.CommitStoresExactly | contracts/attestation-snapshot/src/lib.rs:786-923 | over every run a successful commit stores precisely its entries of unfinalized epochs and leaves every other snapshot |
| SnapshotRestore.EveryStoredPeriodFits | contracts/attestation-snapshot/src/lib.rs:447-923 | over every run every stored period fits, restored ones included, although a commit does not look at lengths again |
| SnapshotRestore.CommitWritesExactly | contracts/attestation-snapshot/src/lib.rs:908-923 | with distinct keys the write loop stores precisely the entries of unfinalized epochs |
| SnapshotRestore.RestoreRespectsFinalization | contracts/attestation-snapshot/src/lib.rs:908-923 | a restore never touches a finalized epoch |
| SnapshotRestore.WriteEntriesIff | contracts/attestation-snapshot/src/lib.rs:908-923 | entries with distinct keys can be written exactly when both indexes have room for what they add |
| SnapshotRestore.CommitCommitsIff | contracts/attestation-snapshot/src/lib.rs:786-923 | over every run a commit succeeds exactly when the caller has an unused clean dry run of the same ordered keys, in time, the declared counts are right and the indexes have room |
| SnapshotRestore.CommitDoesNotBindRecords | contracts/attestation-snapshot/src/lib.rs:1254-1263 | with every batch that commits, every other one with the same stamps and right declared counts commits too |
| SnapshotRestore.AnyRecordsCommitIff | contracts/attestation-snapshot/src/lib.rs:616-923 | after a clean dry run, exactly in time and with room, its keys can be committed with any records whatever |
| SnapshotRestore.OnlyCheckedCommitsIff | contracts/attestation-snapshot/src/lib.rs:594-615 | a dry run keeps every other batch out exactly when it checked nothing, its time is over or there is no room |
| SnapshotRestore.UncheckedRecordIsStored | contracts/attestation-snapshot/src/lib.rs:616-923 | a run of a dry run and a commit that stores a record from the future |
| SnapshotRestore.RestoreDryRun | contracts/attestation-snapshot/src/lib.rs:616-757 | the dry-run loop |
| SnapshotRestore.CheckCounts | contracts/attestation-snapshot/src/lib.rs:840-906 | each business's first declared count equals its number of entries |
| SnapshotRestore.RestoreCommit | contracts/attestation-snapshot/src/lib.rs:786-930 | the commit; an abort changes nothing, the token included |
| SnapshotExport.ExportMultiplicity | contracts/attestation-snapshot/src/lib.rs:1067-1127 | each live record is exported once per listed epoch that visits its business, and nothing else is |
| SnapshotExport.ExportCompleteIff | contracts/attestation-snapshot/src/lib.rs:1067-1127 | records occur once per period of their business exactly when every snapshot's epoch is listed |
| SnapshotExport.ExportIsOrderIndependent | contracts/attestation-snapshot/src/lib.rs:1067-1127 | the bytes depend on the live snapshots alone, not on the order of indexes |
| SnapshotExport.RecordedRunsExportTheirSnapshots | contracts/attestation-snapshot/src/lib.rs:1067-1127 | two recording runs that reach the same snapshots export the same bytes |
| SnapshotExport.ExportedIff | contracts/attestation-snapshot/src/lib.rs:1067-1098 | a record is exported if and only if it is live and its business has some listed period, its own or another |
| SnapshotExport.RestoredIsExportedIff | contracts/attestation-snapshot/src/lib.rs:908-923 | a restore lists no epoch: afterwards a record is exported if and only if its business has a record of a period listed before |
| SnapshotExport.RestoredOnlyIsNotExported | contracts/attestation-snapshot/src/lib.rs:908-923 | the case of an empty epoch list: nothing restored is exported |
| SnapshotExport.CommitmentDeterminesIff | contracts/attestation-snapshot/src/lib.rs:1067-1143 | with self-delimiting encodings, two archives have the same commitment if and only if every record has the same weight in both, its weight being the visits of the businesses that hold it; which business holds it is not encoded |
| SnapshotExport.SortIsSortedPermutation | contracts/attestation-snapshot/src/lib.rs:1100-1117 | the insertion sort yields a sorted permutation |
| SnapshotExport.LexMeaning | contracts/attestation-snapshot/src/lib.rs:1100-1117 | the byte order: a prefix first, otherwise the smaller byte at the first difference |
| SnapshotExport.SortedIsUnique | contracts/attestation-snapshot/src/lib.rs:1100-1117 | a sorted sequence is determined by its elements |
| SnapshotExport.SinkLeft | contracts/attestation-snapshot/src/lib.rs:1100-1117 | one insertion by adjacent swaps |
| SnapshotExport.SortEntries | contracts/attestation-snapshot/src/lib.rs:1100-1117 | the whole sort |
| SnapshotExport.ExportCommitment | contracts/attestation-snapshot/src/lib.rs:1067-1127 | digest and count of the export |
| AuditLog.ReachableLogIsChained | contracts/audit-log/src/lib.rs:150-226 | the log is one valid chain and each index is the increasing list of matching numbers |
| AuditLog.AppendCommitsIff | contracts/audit-log/src/lib.rs:150-226 | the admin nonce is the log length plus one, so an append commits exactly with that nonce |
| AuditLog.AppendStoresTheCall | contracts/audit-log/src/lib.rs:150-226 | an entry holds what it was called with, each part in its place, under the next number on top of the previous head |
| AuditLog.HeadDeterminesChain | contracts/audit-log/src/lib.rs:84-106 | two chains with the same head are equal entry for entry |
| AuditLog.SameHeadSameLog | contracts/audit-log/src/lib.rs:150-226 | two reachable logs with the same head hold the same entries |
| AuditLog.EntriesAreForever | contracts/audit-log/src/lib.rs:150-226 | an entry never changes |
| AuditLog.AuditLogContract.AppendEntry | contracts/audit-log/src/lib.rs:150-226 | appends to the chain and both indexes |
| Aggregated.DedupIsIdentityIff | contracts/aggregated-attestations/src/lib.rs:175-190 | removing duplicates changes nothing exactly when there are none |
| Aggregated.ConsistentMetricsCoincide | contracts/aggregated-attestations/src/lib.rs:164-330 | a passed consistency check makes both metric queries return the same record |
| Aggregated.ReachableMetricsCoincide | contracts/aggregated-attestations/src/lib.rs:131-330 | the same for every registered portfolio of every run |
| Aggregated.MetricsCoincideIff | contracts/aggregated-attestations/src/lib.rs:164-330 | over consistent rows the two queries return the same record if and only if no business is listed twice |
| Aggregated.TotalIsCappedExactSum | contracts/aggregated-attestations/src/lib.rs:201-217 | without losses, saturating at every step is capping the exact sum once |
| Aggregated.AnomaliesAreCappedExactSum | contracts/aggregated-attestations/src/lib.rs:201-217 | the anomaly total is the exact sum capped at 32 bits |
| Aggregated.MetricsMeaning | contracts/aggregated-attestations/src/lib.rs:175-231 | the metrics count the different businesses and those with a record, and the average is the total divided by the latter towards zero |
| Aggregated.RegisterCommitsIff | contracts/aggregated-attestations/src/lib.rs:131-146 | exactly which portfolios are registered, and that nothing else changes |
| Aggregated.AcceptedRootIsAppended | contracts/aggregated-attestations/src/lib.rs:358-420 | an accepted root is appended to its own list |
| Aggregated.LookupMeaning | contracts/aggregated-attestations/src/lib.rs:433-461 | the answer is a submitted root whose half-open window holds the moment, and every other such root has a lower version |
| Aggregated.SubmitKeepsOrderIff | contracts/aggregated-attestations/src/lib.rs:358-420 | a root is accepted exactly when its window has ended and the list stays ordered by version and window |
| Aggregated.OneRootPerVersion | contracts/aggregated-attestations/src/lib.rs:358-420 | at most one root per version covers a moment |
| Aggregated.ReachableLookupIsTheBest | contracts/aggregated-attestations/src/lib.rs:433-461 | the lookup returns the unique covering root of highest version, and nothing exactly when none covers |
| Aggregated.LaterRootsOnlySupersede | contracts/aggregated-attestations/src/lib.rs:433-461 | an answer is replaced only by a root of higher version |
| Aggregated.EveryRegistryIsOrdered | contracts/aggregated-attestations/src/lib.rs:358-420 | every reachable portfolio is distinct and every root list ordered |
| Aggregated.AggregatedAttestationsContract.RegisterPortfolio | contracts/aggregated-attestations/src/lib.rs:131-146 | the nested comparison accepts exactly the distinct lists within limits |
| Aggregated.AggregatedAttestationsContract.Unique | contracts/aggregated-attestations/src/lib.rs:175-190 | the deduplication loop |
| Aggregated.AggregatedAttestationsContract.GetAggregatedMetrics | contracts/aggregated-attestations/src/lib.rs:164-231 | totals over all rows |
| Aggregated.AggregatedAttestationsContract.CheckBatchSnapshotConsistency | contracts/aggregated-attestations/src/lib.rs:237-268 | every row of every business has the batch time |
| Aggregated.AggregatedAttestationsContract.GetAggregatedMetricsForBatch | contracts/aggregated-attestations/src/lib.rs:274-330 | totals over the rows of one batch |
| Aggregated.AggregatedAttestationsContract.SubmitAggregatedRoot | contracts/aggregated-attestations/src/lib.rs:358-420 | the scan for the newest root and the append |
| Aggregated.AggregatedAttestationsContract.GetAggregatedRootAtTimestamp | contracts/aggregated-attestations/src/lib.rs:433-461 | the lookup loop |

## Left out

- Authentication, roles, admin checks, TTL extension, budget and relayer gas: host plumbing; `paused`, active businesses and caller authorization enter as parameters.
- DAO and reputation calls, collector escrow, staking eligibility and the audit-log call of a slash: calls into other contracts; a slash's verdict is a parameter of a dispute resolution.
- Time-locked proposals of fee configurations and staking contracts: short guards around setters that are modelled.
- Replay.FullStreamReplaysIff: speaks of the calls that a run is made of; pausing, key rotation, collector rotation and time-locked proposals publish events without a business too, and are not among them.
- The relayer-gas and reputation-gate events of a delegated submission: one per transaction, whatever it submits, and skipped by the lifecycle replay.
- Archive rehydration, archiving, `revoke_and_cleanup`, `extend_expiry` and `update_proof_hash`: they mix storage tiers or bypass the reducer; attestations in the model leave only through cleanup.
- The order of a rolled-back slash: a duplicate submission by an attestor triggers a slash and then aborts, so the slash never takes effect.
- AttestationEntry.AttestationContract.IssueMultiPeriod: whether the range is well-formed and free is a parameter; module `MultiPeriod` models that decision and the stored ranges.
- The per-business revocation index and the global revocation sequence: written beside the revocation record, read by nothing modelled.
- The dispute type, the reason code of a revocation and the emergency pause by two signers: carried or guarded, never branched on here.
- Merkle proofs and key rotation: a proof's verdict is a parameter.
- The association vectors of seen pairs and declared counts inside one call are sequences or maps here.
- JSON decoding, the state hash and the command line of the indexer; numbers arrive as numbers, so a numeric string, which Python would convert, counts as malformed.
- `get_total_epoch_count`, paging and other read-only views: easy members.
- Epochs.EpochCounter.AdvanceEpoch: does not model the 64-bit overflow of the epoch counter, which would take as many published events.
- Multisig.MultisigContract.ExecuteProposal: actions other than pausing, owners and threshold are one opaque action whose own success is a parameter.
- Staking.StakingContract.SetUnbonding: does not cap the period, as the source's setter does not either.
- AuditLog.AuditLogContract.InitializeAdmin: only the admin's nonce channel is modelled.
- Replay.LifecycleStreamRebuildsTheLedger: states revocations without their timestamp, because the published event has none; the exact condition is in `Replay.RevocationTimeAgreesIff`.
- Disputes.LockCountsOpenDisputesIff: leaves out submissions that displace the attestor of an open dispute; `Disputes.LockLawBreaksIff` says exactly when that happens.
