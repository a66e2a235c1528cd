# Verified models of the WeVibe hub and dashboard

Dafny models of the scheduling, replay, projection, codec, ranking, gas and synchronization logic of this
repository, with proofs of what the code keeps over whole runs, what its two halves agree on, and exactly where
an expected property stops holding. `dafny verify dfyconfig.toml` checks everything.

Each area has a specification (datatypes and functions), lemmas about it, and, where the source changes state
step by step, methods and classes proved to do what the specification says.

| area | files | what is shown |
|---|---|---|
| Verification queue | `QueueInput`, `QueueState`, `QueueInvariant`, `QueueTexts`, `QueueRuns`, `QueueStorage`, `QueueLoading`, `LoadEffects`, `QueueRoundTrip`, `QueueSnapshot`, `QueueEffects`, `VerifyQueue` | A single-worker scheduler under every interleaving of calls with the awaits of a run, and when a hash ends verified; loading of arbitrary stored payloads; the round trip through storage |
| Chain watcher | `OrgLog`, `OrgEffects`, `OrgReplay`, `OrgConvergence`, `OrgOwnership`, `OrgRecovery`, `ChainWatcher` | What each message makes of the rows; when replaying a block log over half-updated tables ends where one pass ends; catch-up |
| Standing projection | `StandingEngine`, `StandingTallies`, `StandingLog`, `StandingProjection`, `StandingEffects`, `StandingStore` | What the tallies count; rebuild and per-memory recompute agree, batches keep agreement, ties do not matter |
| Codecs | `Powers`, `Bits`, `Base32`, `WireFormat`, `ChainMessages` | Base32 without padding (sections 3.2, 3.5 and 6 of RFC 4648) and the protobuf encoders against a reference reader |
| Ranking | `ByteOrder`, `Keywords`, `Ranking`, `RankScores`, `RankMonotone` | What a score is made of, partition, canonical order, monotonicity |
| Gas and sequences | `Gas`, `SequenceCache` | Exact machine arithmetic, the retry loop, the cached account sequence under every answer of the chain |
| Small protocols | `RateLimiter`, `Merkle`, `MerkleSlices`, `ChunkedQuery`, `EpochSync`, `ExtractionQueue`, `ExtractionEffects`, `ExtractionStore` | Sliding window, Merkle root in two languages, chunked queries and sync, the extraction scheduler |
| Known answers | `KnownAnswers` | Base32 as numbers, the Protocol Buffers guide's examples, Merkle trees |
| Shared | `Wrappers`, `Lists`, `StableSort`, `Text` | Options, insertion-ordered maps, stable sorting and filtering, trimming |

Ids, keys, wallets and fingerprints that the source only compares are numbers. The network, the clock, random
ids, SHA-256, SMTP, the wallet and the database engine are parameters or arbitrary answers. A SQL statement is one
atomic update of a table; a crash may fall between any two statements.

## What does not hold as coded

The code is modelled as it is. These are the places where an expected property fails, each with the lemma that
shows it and, where there is one, the lemma that says exactly when it holds.

- After a retry, a waiting job need not have a run in flight: a retry of an unknown hash returns before
  `processNext` (`QueueRuns.RetryCanLeaveQueueAsleep`; exactly when: `QueueRuns.ProgressExact`).
- A stored queue does not come back unchanged when a job has lost its batch to a reconcile
  (exactly when: `QueueRoundTrip.RoundTrip`).
- Replaying the org log after a crash does not always give the tables of one pass. The unique-wallet constraint can
  answer differently the second time, and a transfer can find a row it did not find the first time
  (`OrgOwnership.SharedWalletDiverges`, `OrgOwnership.EarlyTransferDiverges`; exactly when, for one crash:
  `OrgConvergence.ConvergesExactly`, for every crash: `OrgConvergence.ReplaySafeExactly`). After a crash between a
  member's insertion and the approval of its join request it never does (`OrgConvergence.TornNeverConverges`).
- An event batch that stops at a malformed entry can leave the standing table behind the log
  (`StandingProjection.AbortedBatchFallsBehind`; exactly when its memories' events change:
  `StandingProjection.AbortedBatchExactly`).
- A one-memory load with an empty id reads more than that memory (`StandingLog.EmptyIdReadsAll`; exactly when:
  `StandingLog.QueryExactly` and `StandingLog.LoadExactly`).
- Encoding what base32 decoding gave need not give the string back (exactly when: `Base32.EncodeDecodeExactly`), and
  negative numbers do not survive the protobuf encoders (exactly when: `WireFormat.VarintRoundTrip`).
- The Go Merkle loop can compute another root when leaves share spare capacity
  (`MerkleSlices.SharedCapacityClobbers`; exactly when: `MerkleSlices.RootExactly`).
- On a chain where failed delivery uses up the account sequence, raising the gas limit never helps: only the first
  attempt of a retry loop can be delivered (`SequenceCache.Signer.CommitWithRetries`).
- Search-index ids that are not in lower case never follow the chain (exactly when: `EpochSync.ShownExactly`).
- An accepted resume is thrown away when a run of its session is in flight
  (`ExtractionQueue.ResumedIsLost`; exactly when: `ExtractionQueue.ResumeExactly`).

## Model

| member | source | states |
|---|---|---|
| `QueueRuns.RunsStaySound` | wevibe-dashboard/lib/verify-queue.ts:108-1085 | From a sound queue, every legal interleaving of enqueue, resume, retry, remove and reconcile calls with the answers to the three awaits of a run keeps the queue sound: distinct job hashes, at most one run in flight and `isProcessing` true exactly then, the job in flight first while it is listed, batches non-empty, duplicate-free and pairwise disjoint with verified a subset of hashes, and failed, listed and verified pairwise exclusive |
| `QueueRuns.EmptyIsSound` | wevibe-dashboard/lib/verify-queue.ts:108-112 | The empty queue is sound, so soundness holds in every run from page start |
| `QueueRuns.ProgressExact` | wevibe-dashboard/lib/verify-queue.ts:920-1065 | While connected, no job is left waiting with nothing in flight after a call exactly when the call got as far as `processNext` or nothing was waiting before |
| `QueueRuns.RetryCanLeaveQueueAsleep` | wevibe-dashboard/lib/verify-queue.ts:1019-1066 | A concrete run that leaves a job waiting with nothing in flight: enqueue while disconnected, then retry an unknown hash |
| `QueueInvariant.EnsureHashKeeps` | wevibe-dashboard/lib/verify-queue.ts:411-430 | Placing a hash keeps batches disjoint and non-empty and leaves the hash in exactly the batch returned |
| `QueueInvariant.MarkKeeps` | wevibe-dashboard/lib/verify-queue.ts:432-437 | Marking a hash verified keeps the batch invariants, whether its batch was still there or had to be made |
| `QueueInvariant.ReconcileKeeps` | wevibe-dashboard/lib/verify-queue.ts:455-487 | Dropping settled batches and cached inputs keeps the whole invariant, although a listed job may lose its batch |
| `QueueInvariant.EnqueueKeeps` | wevibe-dashboard/lib/verify-queue.ts:951-1013 | An enqueue of any raw inputs keeps the invariant |
| `QueueInvariant.RetryKeeps` | wevibe-dashboard/lib/verify-queue.ts:1019-1066 | A retry keeps the invariant in each of its branches |
| `QueueInvariant.RemoveKeeps` | wevibe-dashboard/lib/verify-queue.ts:1068-1085 | A removal keeps the invariant, also of a hash in flight |
| `QueueInvariant.SettleKeeps` | wevibe-dashboard/lib/verify-queue.ts:830-918 | Every segment of `runJob` between two awaits, and its `catch` and `finally`, keeps the invariant |
| `QueueEffects.ThrowFails` | wevibe-dashboard/lib/verify-queue.ts:891-918 | After a throw at any of the three awaits `failed` holds exactly the reason for the hash, its batch and marks are as they were, its input is cached to retry from and it has no job; other hashes keep their failures and inputs |
| `QueueEffects.GoodVerifies` | wevibe-dashboard/lib/verify-queue.ts:868-918 | After a good answer to the verify await the hash is verified in its batch, or in the one its run names, with no failure, no cached input and no job; other hashes are left alone |
| `QueueEffects.GoodMovesOn` | wevibe-dashboard/lib/verify-queue.ts:840-867 | A good answer before that moves the run to its next await and the job shown to that stage, and nothing else |
| `QueueEffects.VerifiedExactly` | wevibe-dashboard/lib/verify-queue.ts:830-1085 | Over every legal run from the empty queue a hash ends verified exactly when the verify await of one of its runs came back good and no later retry, removal or reconcile took the mark away |
| `QueueEffects.VerifiedStep` | wevibe-dashboard/lib/verify-queue.ts:411-1085 | The same for one event: which events mark a hash, and which take its mark away |
| `QueueEffects.StartExactly` | wevibe-dashboard/lib/verify-queue.ts:920-949 | When connected and idle the first waiting job runs, from its first await on, and otherwise nothing changes |
| `QueueEffects.EnqueueExactly` | wevibe-dashboard/lib/verify-queue.ts:951-1013 | One new batch lists exactly the given hashes that had neither a job nor a batch, each with a job at the end, the first input given for it cached and its failure cleared; with none nothing changes |
| `QueueEffects.EnqueueInOrder` | wevibe-dashboard/lib/verify-queue.ts:960-990 | They are listed in the order first given |
| `QueueEffects.RetryExactly` | wevibe-dashboard/lib/verify-queue.ts:1019-1066 | A retry clears the failure and lists the hash again, unverified, in its batch or a new one, exactly when it has no job and a cached input; other hashes are left alone |
| `QueueEffects.RemoveExactly` | wevibe-dashboard/lib/verify-queue.ts:1068-1085 | A removal takes the hash's job, failure, input and place in a batch, and with it every batch left with verified hashes only; the run in flight goes on |
| `QueueEffects.ReconcileExactly` | wevibe-dashboard/lib/verify-queue.ts:455-487 | A reconcile drops exactly the batches all of whose hashes are, trimmed, among those given, unless none given is more than blanks |
| `QueueInput.ParserIdempotent` | wevibe-dashboard/lib/verify-queue.ts:235-284 | Parsing, encoding and parsing again gives the same input |
| `QueueInput.SurvivesIffCanonical` | wevibe-dashboard/lib/verify-queue.ts:235-284 | An input comes back unchanged from its own encoding exactly when it is one the parser can produce |
| `QueueInput.ParsedIsCanonical` | wevibe-dashboard/lib/verify-queue.ts:130-260 | Whatever JSON it is given, the parser only produces trimmed, defaulted inputs |
| `LoadEffects.ParsesExactly` | wevibe-dashboard/lib/verify-queue.ts:235-260 | An input parses exactly when its four texts are texts and not blank and its epoch is a finite number, and keeps the texts trimmed |
| `LoadEffects.DefaultsExactly` | wevibe-dashboard/lib/verify-queue.ts:157-233 | A missing base weight is the weight, a missing reason is "excluded", and a reason given is kept untrimmed |
| `LoadEffects.LegacyBatch` | wevibe-dashboard/lib/verify-queue.ts:262-284 | A stored job without a batch id goes to one named after its hash |
| `QueueLoading.LoadsWellFormed` | wevibe-dashboard/lib/verify-queue.ts:602-737 | Loading any stored payload, however malformed, gives disjoint duplicate-free batches with unique ids and verified a subset of hashes, no concluded batch, all jobs queued, and every job and failed hash in exactly one batch that the job names |
| `QueueLoading.BuildsWellFormed` | wevibe-dashboard/lib/verify-queue.ts:680-728 | The same from the parsed lists |
| `QueueLoading.FilterOpenNothing` | wevibe-dashboard/lib/verify-queue.ts:728-728 | The final filter on concluded batches removes nothing |
| `LoadEffects.LoadForgets` | wevibe-dashboard/lib/verify-queue.ts:652-672 | A payload of another version, or of another backend instance, loads as the empty queue |
| `LoadEffects.LoadedJobs` | wevibe-dashboard/lib/verify-queue.ts:674-684 | Of any accepted payload, every stored job that parses comes back, in order, waiting and with its input as parsed |
| `LoadEffects.LoadedInputs` | wevibe-dashboard/lib/verify-queue.ts:686-707 | A job's own input is cached for its hash, and any other hash keeps the input stored last for it |
| `LoadEffects.LoadedFailures` | wevibe-dashboard/lib/verify-queue.ts:709-709 | Each failed hash comes back with the reason stored last for it |
| `QueueRoundTrip.RoundTrip` | wevibe-dashboard/lib/verify-queue.ts:602-737 | A sound queue written and read back by a page of the same backend is the old queue with jobs waiting, concluded batches gone and failure reasons trimmed, exactly when every job and every failed hash had a batch |
| `QueueRoundTrip.PersistedAccepted` | wevibe-dashboard/lib/verify-queue.ts:638-680 | A stored queue is taken over exactly by a page of the same backend instance or when either instance is unknown |
| `QueueRoundTrip.ReloadSound` | wevibe-dashboard/lib/verify-queue.ts:638-737 | A reloaded queue is sound again, homed or not |
| `QueueSnapshot.ReloadShows` | wevibe-dashboard/lib/verify-queue.ts:527-595 | A reload shows the old snapshot with running as pending and fully verified batches dropped, in the same order |
| `QueueSnapshot.ShowsExactly` | wevibe-dashboard/lib/verify-queue.ts:527-595 | In a sound queue an item shows the reason its hash failed for, that it is verified, or how far the run in flight has got with it, each exactly when that is so, and pending otherwise |
| `QueueSnapshot.RebuildSnapshot` | wevibe-dashboard/lib/verify-queue.ts:527-595 | The snapshot loops compute the snapshot function |
| `VerifyQueue.Store.EnsureHashInBatch` | wevibe-dashboard/lib/verify-queue.ts:411-430 | In place, the specified batch list and the index of the hash's batch |
| `VerifyQueue.Store.MarkBatchHashVerified` | wevibe-dashboard/lib/verify-queue.ts:432-437 | In place, the specified marking |
| `VerifyQueue.Store.RemoveHashFromBatches` | wevibe-dashboard/lib/verify-queue.ts:439-453 | The splicing loop leaves exactly the specified batches |
| `VerifyQueue.Store.ReconcileSettledHashes` | wevibe-dashboard/lib/verify-queue.ts:455-487 | The reconcile loops leave exactly the specified queue |
| `VerifyQueue.Store.ProcessNext` | wevibe-dashboard/lib/verify-queue.ts:920-949 | Starts the first waiting job when connected and idle, and nothing otherwise |
| `VerifyQueue.Store.EnqueueVerificationBatch` | wevibe-dashboard/lib/verify-queue.ts:951-1013 | New state is the specified enqueue; storage holds it |
| `VerifyQueue.Store.RetryVerification` | wevibe-dashboard/lib/verify-queue.ts:1019-1066 | New state is the specified retry; storage holds it if anything changed |
| `VerifyQueue.Store.RemoveVerification` | wevibe-dashboard/lib/verify-queue.ts:1068-1085 | New state is the specified removal; storage holds it if anything changed |
| `VerifyQueue.Store.SettleAwait` | wevibe-dashboard/lib/verify-queue.ts:830-918 | New state is the specified segment of `runJob`, which `QueueEffects` describes hash by hash; storage holds it |
| `VerifyQueue.Store.LoadPersistedState` | wevibe-dashboard/lib/verify-queue.ts:638-737 | The loading loops build the specified queue; the storage slot is cleared exactly for a payload of another version or backend, and otherwise left alone |
| `VerifyQueue.NormalizeLoadedBatches` | wevibe-dashboard/lib/verify-queue.ts:489-525 | The normalizing loop computes the specified batches |
| `VerifyQueue.NormalizeUniqueStringArray` | wevibe-dashboard/lib/verify-queue.ts:286-305 | The filtering loop computes the specified list |
| `OrgConvergence.ConvergesExactly` | wevibe-hub/internal/chain/watcher.go:442-789 | A crash after any message and statement, short of the gap between a member's insertion and the approval of its join request, followed by a replay of the whole log, ends in the tables of one uninterrupted pass exactly when the replay promotes each member last with the transfer the first pass did and names each org's leader last as it did; only the tables' own unique-wallet constraint is assumed |
| `OrgOwnership.Converges` | wevibe-hub/internal/chain/watcher.go:442-789 | Where each wallet has one owner in the tables and the log, that is so whenever no leadership transfer comes before its member's row |
| `OrgConvergence.ReplaySafeExactly` | wevibe-hub/internal/chain/watcher.go:442-789 | Replay is safe for every length of log and every such crash exactly when handling any first part of the log twice in a row promotes each member last with the same transfer and names the same leaders; only the unique-wallet constraint is assumed |
| `OrgOwnership.OwnedReplaySafe` | wevibe-hub/internal/chain/watcher.go:442-789 | Where each wallet has one owner in the tables and the log, that is exactly when no transfer comes before its member's row |
| `OrgOwnership.EarlyTransferDiverges` | wevibe-hub/internal/chain/watcher.go:687-756 | Where each wallet has one owner, an early transfer's wallet reaches the row only on a replay |
| `OrgConvergence.TornNeverConverges` | wevibe-hub/internal/chain/watcher.go:545-620 | A crash between inserting a member and approving its request leaves the request open for good |
| `OrgOwnership.SharedWalletDiverges` | wevibe-hub/internal/chain/watcher.go:721-737 | A family of tables and two transfers for which the unique-wallet constraint alone breaks convergence: a promotion refused in the first pass goes through in the replay |
| `OrgOwnership.PassedWalletIsSafe` | wevibe-hub/internal/chain/watcher.go:721-737 | A member may pass the wallet it was promoted with on to another, if it is itself promoted again in between: one owner per wallet is not needed |
| `OrgConvergence.LeaderConverges` | wevibe-hub/internal/chain/watcher.go:741-756 | Where each member is promoted last with the same transfer, an org's leader comes back exactly when the replay names none or the one the first pass named last |
| `OrgOwnership.OrgConverges` | wevibe-hub/internal/chain/watcher.go:741-772 | Where each wallet has one owner, the leader and the status an org row shows converge even when member rows do not |
| `OrgConvergence.EnvelopesConverge` | wevibe-hub/internal/chain/watcher.go:464-508 | Key envelopes converge from every crash |
| `OrgRecovery.CrashesConverge` | wevibe-hub/internal/chain/watcher.go:260-298 | After each of any number of crashes in one block, each replayed from the block's start, completing the block ends where one pass ends, exactly when no crash changes which transfer promotes a member, or names a leader, last; no crash is in the gap before the approval of a join request |
| `OrgRecovery.LifeConverges` | wevibe-hub/internal/chain/watcher.go:260-298 | A hub's whole life, block after block with any crashes of that kind, ends in the tables of the uninterrupted message log |
| `OrgRecovery.OwnedLifeConverges` | wevibe-hub/internal/chain/watcher.go:260-298 | Where each wallet has one owner in the tables and the log, it is enough that no block has a transfer before its member's row |
| `OrgLog.Pick` | wevibe-hub/internal/chain/watcher.go:530-541 | The join request taken is an open one for the key; none is taken only when there is none |
| `OrgEffects.PickForemost` | wevibe-hub/internal/chain/watcher.go:530-541 | The request taken is an open one for the member that no other comes before: confirming ones first, then the latest requested |
| `OrgEffects.AddFromRequest` | wevibe-hub/internal/chain/watcher.go:510-620 | A member without a row who asked to join gets a row on trial and not a full member, or the other way round, as the request was approved, at the approved tier or the standard one, with the request's key, the message's key, role and capabilities and no wallet; the request is approved and nothing else changes; a tier the table rejects leaves everything as it was |
| `OrgEffects.AddInvited` | wevibe-hub/internal/chain/watcher.go:642-685 | One who did not ask gets a full, standard member's row with no registered key |
| `OrgEffects.AddExisting` | wevibe-hub/internal/chain/watcher.go:511-528 | One who has a row takes role and capabilities, confirmed and active, a full member unless on trial; everything else stays |
| `OrgEffects.AddRefusedExactly` | wevibe-hub/internal/chain/watcher.go:510-685 | Adding a new member changes nothing exactly when the role is rejected, the org is unknown or the foremost request's tier is rejected |
| `OrgEffects.TrialStaysTrial` | wevibe-hub/internal/chain/watcher.go:510-620 | Whoever joins on requests approved for a trial is on trial and no full member after the add, however the add is repeated |
| `OrgEffects.CapabilitiesExactly` | wevibe-hub/internal/chain/watcher.go:442-462 | Only the capabilities and the confirmation of the one row change |
| `OrgEffects.RemoveExactly` | wevibe-hub/internal/chain/watcher.go:464-508 | The row stays, inactive, and exactly the member's envelope goes |
| `OrgEffects.TransferExactly` | wevibe-hub/internal/chain/watcher.go:687-756 | Every leader of the org steps down; unless another member has the wallet, the new leader with a row is the only leader, with that wallet, and the org names it; nothing else changes |
| `OrgEffects.CloseExactly` | wevibe-hub/internal/chain/watcher.go:758-789 | The org is closed and exactly its members inactive |
| `OrgReplay.ExistingRun` | wevibe-hub/internal/chain/watcher.go:442-789 | An existing row after a log is the row patched by the log, where a transfer counts as a promotion when the unique-wallet constraint lets it through, and its join requests are left alone |
| `ChainWatcher.Watcher.FindRequest` | wevibe-hub/internal/chain/watcher.go:530-541 | One pass over the table finds the specified request |
| `ChainWatcher.Watcher.ProcessSetMemberCapabilities` | wevibe-hub/internal/chain/watcher.go:442-462 | Leaves the tables the message specifies |
| `ChainWatcher.Watcher.ProcessRemoveMember` | wevibe-hub/internal/chain/watcher.go:464-508 | Leaves the tables the message specifies |
| `ChainWatcher.Watcher.ProcessAddMember` | wevibe-hub/internal/chain/watcher.go:510-685 | Leaves the tables the message specifies, which `OrgEffects` describes row by row, in the update, join-request and invitation branches and when a constraint refuses the insert |
| `ChainWatcher.Watcher.ProcessTransferLeadership` | wevibe-hub/internal/chain/watcher.go:687-756 | Leaves the tables the message specifies, also when the wallet constraint stops it after the demotion |
| `ChainWatcher.Watcher.ProcessCloseOrg` | wevibe-hub/internal/chain/watcher.go:758-789 | Leaves the tables the message specifies |
| `ChainWatcher.Watcher.ProcessTx` | wevibe-hub/internal/chain/watcher.go:300-440 | Applies every message of a transaction in order; one that does not decode changes nothing |
| `ChainWatcher.BlockLogExactly` | wevibe-hub/internal/chain/watcher.go:266-298 | The messages of a block are those of its transactions that decode and have result zero |
| `ChainWatcher.LogSplit` | wevibe-hub/internal/chain/watcher.go:266-298 | In the block's order |
| `ChainWatcher.Watcher.ProcessBlock` | wevibe-hub/internal/chain/watcher.go:260-298 | A missing block or a result count mismatch changes nothing; otherwise the messages of the successful, decodable transactions are applied in order and only then the height is stored, or the block fails with them applied |
| `ChainWatcher.Watcher.CatchUp` | wevibe-hub/internal/chain/watcher.go:191-221 | Success applies heights lastSeen+1 to current once each in order; the first height that fails leaves lastSeen at the height before it, with its messages applied exactly when only storing it failed |
| `ChainWatcher.CrashRecovery` | wevibe-hub/internal/chain/watcher.go:191-298 | After a crash inside block h, catching up from h gives the tables of a hub that never stopped exactly when the catch-up promotes each member last, and names each leader last, as the first pass did; that block h does so is enough |
| `ChainWatcher.OwnedCrashRecovery` | wevibe-hub/internal/chain/watcher.go:191-298 | Where each wallet has one owner over the whole span of blocks, it is enough that no transfer in block h comes before its member's row |
| `ChainWatcher.RetriedCatchUp` | wevibe-hub/internal/chain/watcher.go:191-221 | A failed catch-up followed by a successful one gives what one successful catch-up gives exactly when handling the failed block twice changes no last promotion and no leader named last on the way |
| `StandingEngine.ArrangementIrrelevant` | wevibe-hub/internal/standing/engine.go:112-186 | Two arrangements of the same events that respect the engine's order resolve to the same tallies |
| `StandingEngine.ServesConserved` | wevibe-hub/internal/standing/engine.go:112-186 | Every serve is claimed by exactly one outcome or ends void |
| `StandingTallies.TalliesExactly` | wevibe-hub/internal/standing/engine.go:112-186 | However outcomes claim serves, first come first served, each epoch's serves are the quanta of its serves claimed by an outcome that worked, its denials are its blocks and its serves claimed by one that failed, it is listed as active exactly when a serve or block falls in it, and unobserved outcomes and void serves are counted |
| `StandingTallies.ClaimsExist` | wevibe-hub/internal/standing/engine.go:215-227 | Some assignment of serves to outcomes has every outcome claim the first serve it may: same reference, within the window, not claimed before |
| `StandingTallies.ClaimsUnique` | wevibe-hub/internal/standing/engine.go:215-227 | And only one has |
| `StandingTallies.OneServe` | wevibe-hub/internal/standing/engine.go:112-213 | A serve and one outcome naming it, in whatever order they arrived: the quanta if it worked, one denial if it failed, only activity if late or unobserved |
| `StandingEffects.StandingOfOneServe` | wevibe-hub/internal/chain/standing_projection.go:159-352 | From the rows of the two tables: a submitted serve and an outcome the chain lists come to that tally, over the epochs from one to the other |
| `StandingEffects.StandingOfOneDenial` | wevibe-hub/internal/chain/standing_projection.go:159-352 | A submitted denial comes to one denial in its epoch |
| `StandingEffects.AllServesMarked` | wevibe-hub/internal/chain/watcher_serve.go:28-92 | A serve or denial batch submits exactly the org's pending rows of its kind for the memories listed |
| `StandingEffects.OutcomesMarked` | wevibe-hub/internal/chain/watcher_serve.go:94-167 | An event batch submits exactly the org's rows an accepted entry names before the first malformed one |
| `StandingEngine.ResolvePendingServes` | wevibe-hub/internal/standing/engine.go:112-186 | The loops over events and pending serves compute the fold, which `StandingTallies` counts out |
| `StandingEngine.MatchingServeIndex` | wevibe-hub/internal/standing/engine.go:215-227 | The first serve the outcome pairs with, or -1 |
| `StandingLog.QueryExactly` | wevibe-hub/internal/chain/standing_projection.go:159-180 | The query for one memory is its share of the whole query exactly when every submitted serve or outcome event the question matches, with an empty id matching everything, is that memory's |
| `StandingLog.LoadExactly` | wevibe-hub/internal/chain/standing_projection.go:159-226 | Filtering the whole log by the chain and taking one memory's group is loading that memory alone, in the same order, exactly when no other memory's event that the chain keeps matches the question |
| `StandingLog.LoadOne` | wevibe-hub/internal/chain/standing_projection.go:159-226 | For every memory with a proper id it is |
| `StandingLog.WholeLoadFailsExactly` | wevibe-hub/internal/chain/standing_projection.go:159-226 | The whole load fails exactly when some memory's load does |
| `StandingLog.EmptyIdReadsAll` | wevibe-hub/internal/chain/standing_projection.go:178-178 | With an empty org or memory id the query brings in any other memory's event it matches, serve or outcome |
| `StandingProjection.OrderIrrelevant` | wevibe-hub/internal/chain/standing_projection.go:328-352 | The standing does not depend on the order the database returns tied events in, nor on how the engine's sort breaks ties |
| `StandingProjection.RebuildIsRecompute` | wevibe-hub/internal/chain/standing_projection.go:62-87 | The full rebuild writes what recomputing each memory with events or a row writes |
| `StandingProjection.RebuildIdempotent` | wevibe-hub/internal/chain/standing_projection.go:34-100 | A second rebuild changes nothing |
| `StandingProjection.RebuildResets` | wevibe-hub/internal/chain/standing_projection.go:67-71 | A row whose events are gone goes back to the standing of no events |
| `StandingProjection.AgreesExactly` | wevibe-hub/internal/chain/standing_projection.go:34-100 | The table agrees with the log exactly when a rebuild would change nothing |
| `StandingProjection.ServesKeepAgreement` | wevibe-hub/internal/chain/watcher_serve.go:28-92 | A serve or denial batch whose memories load keeps agreement on every memory |
| `StandingProjection.EventsKeepAgreement` | wevibe-hub/internal/chain/watcher_serve.go:94-167 | An event batch without malformed entries keeps agreement on every memory when its memories load and each entry's fingerprint is that of hub rows about the entry's memory |
| `StandingProjection.AbortedBatchExactly` | wevibe-hub/internal/chain/watcher_serve.go:94-167 | A batch that stops at a malformed entry leaves every memory's load as it was exactly when no accepted entry before it names a row that is not yet submitted and that the chain keeps or cannot answer for; the table then still agrees with the log |
| `StandingProjection.AbortedBatchFallsBehind` | wevibe-hub/internal/chain/watcher_serve.go:115-119 | Otherwise the table falls behind under every policy when such a row's memory had no standing yet or the row makes the load fail |
| `StandingStore.Projection.LoadStandingReplayEvents` | wevibe-hub/internal/chain/standing_projection.go:159-226 | The scanning loop and the chain filter compute the specified load, or fail exactly when it does |
| `StandingStore.FilterOutcomeReplayEventsFromChain` | wevibe-hub/internal/chain/standing_projection.go:241-279 | Fails exactly when the chain does not answer for some gated event; otherwise keeps exactly the accepted ones, in order |
| `StandingStore.GroupStandingEvents` | wevibe-hub/internal/chain/standing_projection.go:150-157 | One group per memory with events: its events in order |
| `StandingStore.Projection.RecomputeFromGrouped` | wevibe-hub/internal/chain/standing_projection.go:328-374 | Writes the standing of the given events, whatever order the engine's sort gives ties |
| `StandingStore.Projection.RecomputeMemoryStanding` | wevibe-hub/internal/chain/standing_projection.go:102-143 | Rewrites one memory's row, or nothing when it cannot be loaded |
| `StandingStore.Projection.SyncStandingFromEvents` | wevibe-hub/internal/chain/standing_projection.go:34-100 | Writes the rebuilt table, or nothing when the load fails |
| `StandingStore.Projection.ProcessServeBatch` | wevibe-hub/internal/chain/watcher_serve.go:28-92 | Marks the rows and recomputes each memory once |
| `StandingStore.Projection.ProcessEventBatch` | wevibe-hub/internal/chain/watcher_serve.go:94-167 | Marks accepted outcomes and recomputes their memories; stops at a malformed entry with the rows before it marked |
| `Base32.DecodeEncode` | wevibe-dashboard/lib/wevibe-auth.ts:153-210 | decode(encode(b)) = b for every byte string |
| `Base32.PairingRoundTrip` | wevibe-dashboard/lib/wevibe-auth.ts:179-210 | The same through the decoder's trimming and upper-casing |
| `Base32.EncodeBits` | wevibe-dashboard/lib/wevibe-auth.ts:153-177 | The code of n bytes has ceil(8n/5) symbols, whose bits are the bytes' bits and then fewer than five zeros |
| `Base32.DecodeBits` | wevibe-dashboard/lib/wevibe-auth.ts:179-210 | An accepted string of n symbols holds floor(5n/8) bytes and then only zero bits |
| `Base32.EncodeDecodeExactly` | wevibe-dashboard/lib/wevibe-auth.ts:153-210 | encode(decode(s)) = s for an accepted s exactly when its length modulo 8 is 0, 2, 4, 5 or 7 |
| `KnownAnswers.EncodedNumber` | wevibe-dashboard/lib/wevibe-auth.ts:153-177 | The code, as a number in radix 32, is the bytes' number in radix 256 moved up by the bits left over |
| `KnownAnswers.DecodedNumber` | wevibe-dashboard/lib/wevibe-auth.ts:179-210 | And so for every string the decoder accepts |
| `KnownAnswers.Alphabet` | wevibe-dashboard/lib/wevibe-auth.ts:28-28 | The symbols are those of RFC 4648 in its order, both ways |
| `Base32.BytesToBase32` | wevibe-dashboard/lib/wevibe-auth.ts:153-177 | The bit-buffer loop computes the code; the buffer stays below 2^12 |
| `Base32.Base32ToBytes` | wevibe-dashboard/lib/wevibe-auth.ts:179-210 | The bit-buffer loop decodes or rejects exactly as specified; the buffer stays below 2^12 |
| `Base32.SmallBuffer` | wevibe-dashboard/lib/wevibe-auth.ts:159-200 | No push takes the buffer to 2^12 |
| `WireFormat.EncodeVarint` | wevibe-dashboard/lib/chain-client.ts:100-109 | The loop computes the varint |
| `WireFormat.VarintRoundTrip` | wevibe-dashboard/lib/chain-client.ts:100-109 | A number reads back in front of any bytes, leaving exactly those, exactly when it is not negative |
| `WireFormat.VarintMinimal` | wevibe-dashboard/lib/chain-client.ts:100-109 | No byte string that reads as the number is shorter |
| `KnownAnswers.GuideExamples` | wevibe-dashboard/lib/chain-client.ts:100-132 | The worked examples of the Protocol Buffers encoding guide come out byte for byte |
| `WireFormat.ParseAll` | wevibe-dashboard/lib/chain-client.ts:111-132 | A wire-format reader gets back every field, in order, for any byte strings |
| `WireFormat.AnyOrderReads` | wevibe-dashboard/lib/chain-client.ts:287-306 | Fields with different numbers may come in any order |
| `WireFormat.EncodeRepeatedStringField` | wevibe-dashboard/lib/chain-client.ts:92-98 | A reader sees the texts in order under their number and every earlier field as before |
| `ChainMessages.TextMessagesRead` | wevibe-dashboard/lib/chain-client.ts:333-348 | MsgRemoveMember, and the other messages of texts only (371-403, 426-441), read back; a field not sent reads as empty |
| `ChainMessages.AddMemberReads` | wevibe-dashboard/lib/chain-client.ts:308-331 | All arguments read back |
| `ChainMessages.SetMemberCapabilitiesReads` | wevibe-dashboard/lib/chain-client.ts:350-369 | All arguments read back |
| `ChainMessages.SetOrgConfigReads` | wevibe-dashboard/lib/chain-client.ts:405-424 | All arguments read back exactly when no number is negative |
| `ChainMessages.RegisterOrgReads` | wevibe-dashboard/lib/chain-client.ts:287-306 | All arguments read back, with field 12 sent before 9 to 11, exactly when no number is negative |
| `ChainMessages.ApproveMemoryReads` | wevibe-dashboard/lib/chain-client.ts:180-215 | Any memory type but "memory" throws; otherwise all arguments read back exactly when the version is not negative |
| `ChainMessages.BuildSubmitCommitment` | wevibe-dashboard/lib/chain-client.ts:141-178 | All arguments read back, any number of keywords in order with weight "1.0" when none is given |
| `ChainMessages.BuildReportMemory` | wevibe-dashboard/lib/chain-client.ts:217-271 | All arguments read back, repeated moderators in order; omitted and empty optional fields read as empty |
| `ChainMessages.BuildSetServingInfo` | wevibe-dashboard/lib/chain-client.ts:443-464 | All arguments read back, the response key trimmed |
| `Keywords.SameKeywords` | wevibe-hub/internal/retrieval/ranking_core.go:87-105 | Permuting or repeating keywords does not change their normal form |
| `Keywords.NormalizedFacts` | wevibe-hub/internal/retrieval/ranking_core.go:87-105 | The normal form is the folded, non-empty keywords, each once, in byte order |
| `Keywords.NormalizedTwice` | wevibe-hub/internal/retrieval/ranking_core.go:87-105 | Normalizing twice is normalizing once, for an idempotent fold |
| `Keywords.NormalizeKeywords` | wevibe-hub/internal/retrieval/ranking_core.go:87-105 | The set, its members in any order, and the sort compute the normal form |
| `Keywords.KeywordsSplit` | wevibe-hub/internal/retrieval/ranking_core.go:107-153 | Matched and unmatched keywords partition the normalized query |
| `Keywords.KeywordOverlap` | wevibe-hub/internal/retrieval/ranking_core.go:107-129 | The loop computes the matched keywords and their share of the query |
| `Keywords.UnmatchedQueryKeywords` | wevibe-hub/internal/retrieval/ranking_core.go:131-153 | The loop computes the remaining keywords in order |
| `Ranking.CountersAddUp` | wevibe-hub/internal/retrieval/ranking_core.go:155-260 | Every candidate lands in exactly one of kept, gate, vector, floor and standing; counters match their lists and add up to the total |
| `Ranking.OrderedUnique` | wevibe-hub/internal/retrieval/ranking_core.go:235-246 | The rows are the only arrangement by final score, highest first, then by input position |
| `Ranking.KeywordsAnyOrder` | wevibe-hub/internal/retrieval/ranking_core.go:155-260 | Permuting or repeating keywords, the query's or a candidate's, changes nothing in the output |
| `Ranking.ScoreOne` | wevibe-hub/internal/retrieval/ranking_core.go:163-233 | The branches and arithmetic for one candidate give its verdict, which `RankScores` describes in terms of the candidate |
| `RankScores.VerdictExactly` | wevibe-hub/internal/retrieval/ranking_core.go:163-211 | Which candidates fall to standing, vector, gate and floor, in this order, and which are kept; the floor looks at the score without denials or freshness |
| `RankScores.RowKeywords` | wevibe-hub/internal/retrieval/ranking_core.go:173-233 | A row's matched and unmatched keywords are exactly the query's that the candidate has and has not, and its overlap is their share |
| `RankScores.RowBoost` | wevibe-hub/internal/retrieval/ranking_core.go:182-190 | The capped boost is the lesser of the overlap weighed by standing and the cap |
| `RankScores.PlainFinal` | wevibe-hub/internal/retrieval/ranking_core.go:191-212 | Without the freshness boost the final score is the vector score plus the capped boost, less a twentieth per pending denial and then not below zero |
| `RankScores.BoostedFinal` | wevibe-hub/internal/retrieval/ranking_core.go:214-221 | The boost multiplies a positive score by one plus the multiplier at age zero, by one from the end of the window on, and evenly in between |
| `RankScores.BareFinal` | wevibe-hub/internal/retrieval/ranking_core.go:163-233 | No shared keyword, no denial and no boost: the final score is the vector score |
| `RankScores.DenialLowers` | wevibe-hub/internal/retrieval/ranking_core.go:210-212 | One more pending denial strictly lowers a positive final score |
| `RankScores.RankedExactly` | wevibe-hub/internal/retrieval/ranking_core.go:155-260 | The rows are exactly those of the kept candidates, the highest final score first |
| `Ranking.ScoreAndRank` | wevibe-hub/internal/retrieval/ranking_core.go:155-260 | The loops compute the specified rows, drop lists and counters |
| `RankMonotone.ScoreMonotone` | wevibe-hub/internal/retrieval/ranking_core.go:163-233 | With a non-negative boost factor, new-memory factor and threshold, raising a kept candidate's vector score or standing or lowering its pending denials or age keeps it kept with no lower a final score |
| `RankMonotone.RaisingNeverHurts` | wevibe-hub/internal/retrieval/ranking_core.go:155-260 | And never moves it to a later position, all else fixed |
| `RankMonotone.PositionIsCount` | wevibe-hub/internal/retrieval/ranking_core.go:235-246 | A row's position is the number of kept rows ahead of it |
| `Gas.BufferLimitExact` | wevibe-hub/internal/chain/broadcast.go:135-152 | Buffer mode gives ceil(7g/5) for exactly the gas values it accepts; the rounding addition cannot wrap |
| `Gas.RetryLimitExact` | wevibe-hub/internal/chain/broadcast.go:153-158 | Retry mode doubles, without wrapping |
| `Gas.FeeExact` | wevibe-hub/internal/chain/broadcast.go:164-182 | The fee is max(2000, ceil(gas/40)), refused exactly above MaxInt64/25 |
| `Gas.FeeMonotone` | wevibe-hub/internal/chain/broadcast.go:135-182 | More simulated gas never costs less, and acceptance is closed downwards |
| `Gas.EscalationExact` | wevibe-hub/internal/chain/broadcast.go:222-230 | The next limit is twice the gas used, refused exactly for zero and where it would wrap |
| `Gas.RunSimulateRetryBroadcast` | wevibe-hub/internal/chain/broadcast.go:559-619 | At most maxRetries+1 numbered attempts against any broadcaster, all but the last out of gas, each limit twice the last gas used; success exactly when the last code is 0; the line after the loop is reached only for -1 retries |
| `Gas.LimitsGrow` | wevibe-hub/internal/chain/broadcast.go:559-619 | When out-of-gas answers report at least the limit as used, the i-th limit is at least 2^i times the first |
| `Gas.AttemptsBounded` | wevibe-hub/internal/chain/broadcast.go:559-619 | So no run makes more than 64 attempts |
| `Gas.AttemptsDetermined` | wevibe-hub/internal/chain/broadcast.go:559-619 | A broadcaster's answers determine the attempts |
| `SequenceCache.Signer.LoadState` | wevibe-hub/internal/chain/broadcast.go:680-710 | A loaded cache is left alone and nothing is asked; otherwise the account is queried, and funded and queried again if it does not exist, and the cache holds the sequence the last query found, if any |
| `SequenceCache.Signer.CommitWithRetries` | wevibe-hub/internal/chain/broadcast.go:559-619 | Every attempt carries the cached sequence, each limit but the first is escalated from the answer before it, the last is one no further attempt is due after, and its answer decides; when failed delivery uses up the sequence, success comes only on the first attempt |
| `SequenceCache.Signer.BroadcastSigned` | wevibe-hub/internal/chain/broadcast.go:819-930 | The transaction is simulated and, under the limit that gives, committed once or with retries; the answers decide between accepted, mismatch and refused; at most one sequence is used, and success means it was the cached one |
| `SequenceCache.Signer.BroadcastMsgsForOrg` | wevibe-hub/internal/chain/broadcast.go:629-678 | By the log of what the chain was asked and answered: the sequence is reloaded exactly when the first broadcast was a mismatch; then either the reload failed and nothing stays cached, or a second broadcast carries the sequence just read; the call succeeds exactly when the last broadcast was accepted, and a failure after a mismatch never leaves the old sequence cached. The cache never exceeds the chain and is at most one behind; the messages take effect at most once, exactly once on success |
| `SequenceCache.AnyRun` | wevibe-hub/internal/chain/broadcast.go:629-678 | Over any run of calls: each reloads at most once and leaves the cache exact after a success and otherwise at most one behind, the chain's sequence never goes back, and messages take effect at least once per success and at most once per call |
| `RateLimiter.HourlyLimit` | wevibe-hub/internal/notifications/email.go:84-107 | In any half-open hour at most ten sends are allowed |
| `RateLimiter.RefusedExactly` | wevibe-hub/internal/notifications/email.go:98-101 | A send is refused exactly when ten were allowed in the hour before it |
| `RateLimiter.AllowedExactly` | wevibe-hub/internal/notifications/email.go:84-107 | A send is allowed exactly when fewer than ten of the sends allowed before it are less than 3600 seconds old |
| `RateLimiter.StoredIsRecent` | wevibe-hub/internal/notifications/email.go:84-107 | The stored history is the sends of the hour before the last call, never more than ten |
| `RateLimiter.CompactInPlace` | wevibe-hub/internal/notifications/email.go:91-96 | The compaction over the front of its own array keeps exactly the unexpired entries in order |
| `RateLimiter.SmtpChannel.AllowSend` | wevibe-hub/internal/notifications/email.go:84-107 | Allows and records as specified for this key, and leaves other keys' histories alone |
| `Merkle.RootAnyOrder` | wevibe-hub/internal/chain/merkle.go:9-37 | The root does not depend on the order of the leaves |
| `KnownAnswers.RootIsTree` | wevibe-hub/internal/chain/merkle.go:24-37 | For two leaves or more the root is the top of the tree over the leaves in byte order, where a node joins the two below it, left first, or a lone one with itself |
| `KnownAnswers.RootOfThree` | wevibe-hub/internal/chain/merkle.go:9-37 | The root of three leaves in two hashes of hashes |
| `KnownAnswers.HexDigits` | wevibe-hub/internal/chain/merkle.go:36-36 | The root is written with two lower-case digits to a byte |
| `Merkle.HexSorts` | wevibe-hub/internal/chain/merkle.go:20-22 | Sorting by hexadecimal text, however ties break, puts leaves in byte order |
| `ByteOrder.HexOrder` | wevibe-hub/internal/chain/merkle.go:20-22 | Comparing hexadecimal texts is comparing bytes |
| `Merkle.RoundsAreLog` | wevibe-hub/internal/chain/merkle.go:24-35 | ceil(log2 n) rounds |
| `Merkle.ComputeMerkleRootGo` | wevibe-hub/internal/chain/merkle.go:9-37 | The Go loop computes the root, in that many rounds |
| `Merkle.ComputeMerkleRootTs` | wevibe-dashboard/lib/merkle.ts:36-71 | The TypeScript loop computes the same root, in as many rounds |
| `MerkleSlices.ClobberedExactly` | wevibe-hub/internal/chain/merkle.go:26-33 | The first round over slices hashes what it would in memory nobody writes exactly when no byte a pair reads was last written, by the append of an earlier pair that fits, with another value |
| `MerkleSlices.RootExactly` | wevibe-hub/internal/chain/merkle.go:9-37 | The Go root over two or more slices is the root of their contents exactly when no byte is so overwritten, unless the hash function collides on two inputs of the two computations |
| `MerkleSlices.SpareApartRoot` | wevibe-hub/internal/chain/merkle.go:9-37 | When no leaf's spare capacity overlaps a leaf, the Go root over slices, sort, odd leaf and later rounds included, is the root of their contents, which the TypeScript loop computes |
| `MerkleSlices.SpareApartIsEnough` | wevibe-hub/internal/chain/merkle.go:29-33 | Then `append` into a leaf changes nothing the round reads |
| `MerkleSlices.SharedCapacityClobbers` | wevibe-hub/internal/chain/merkle.go:29-33 | Three leaves cut from one buffer for which the Go root is not the root of their contents, unless the hash function collides |
| `MerkleSlices.FirstRound` | wevibe-hub/internal/chain/merkle.go:24-35 | The loop over shared memory computes the first round pair by pair, writing where `append` writes |
| `MerkleSlices.ComputeMerkleRoot` | wevibe-hub/internal/chain/merkle.go:9-37 | The whole computation over shared memory gives the specified root; with spare capacity apart, the root of the contents |
| `ChunkedQuery.GetMemoriesBatch` | wevibe-hub/internal/chain/query.go:415-492 | Every request has 1 to 50 hashes and they join to the input; a success answers as one unchunked query, a failure returns nothing |
| `EpochSync.SyncEpochData` | wevibe-hub/internal/chain/sync.go:39-109 | A successful sync leaves every org's memories synced; one that finds them in step makes no updates |
| `EpochSync.SyncOrg` | wevibe-hub/internal/chain/sync.go:45-105 | One org synced, or on failure each memory either as it was or as it should be |
| `EpochSync.SyncedIsInStep` | wevibe-hub/internal/chain/sync.go:81-103 | A synced index shows the chain's lifecycle under every canonical id the chain knows; syncing changes nothing exactly when it already does |
| `EpochSync.SecondSyncIdle` | wevibe-hub/internal/chain/sync.go:39-109 | An immediate second sync finds nothing to update |
| `EpochSync.ShownExactly` | wevibe-hub/internal/chain/sync.go:81-103 | After a sync, an id whose memory the chain knows shows the chain's lifecycle exactly when its spelling is canonical or it already showed it; ids in another spelling are left as they were |
| `ExtractionQueue.RunsKeep` | wevibe-dashboard/lib/extraction-queue.ts:552-640 | In every run from a sound state sessions stay distinct, at most one run is in flight and `isProcessing` is true exactly then, and nothing waits while nothing is in flight |
| `ExtractionQueue.EmptyIsReady` | wevibe-dashboard/lib/extraction-queue.ts:106-110 | The empty queue is such a state |
| `ExtractionQueue.ResumeExactly` | wevibe-dashboard/lib/extraction-queue.ts:675-772 | An accepted resume is never thrown away exactly when no run of its session was in flight at acceptance |
| `ExtractionQueue.ResumedIsLost` | wevibe-dashboard/lib/extraction-queue.ts:580-587 | Otherwise the end of that run throws it away |
| `ExtractionQueue.ResumeRunsInTurn` | wevibe-dashboard/lib/extraction-queue.ts:590-605 | A waiting resume runs once more runs have ended than jobs were ahead of it |
| `ExtractionEffects.EnqueueExactly` | wevibe-dashboard/lib/extraction-queue.ts:607-640 | An enqueue forgets the session's failure and parking; a listed session stays where it is, another waits at the end or runs at once when nothing is in flight |
| `ExtractionEffects.ResumeEffect` | wevibe-dashboard/lib/extraction-queue.ts:745-765 | An accepted resume leaves one job of the session, marked a resume, behind those of all other sessions in their order |
| `ExtractionEffects.ParkExactly` | wevibe-dashboard/lib/extraction-queue.ts:522-534 | Parking marks the session and takes its job off the list while its run stays in flight |
| `ExtractionEffects.FinishExactly` | wevibe-dashboard/lib/extraction-queue.ts:568-605 | The end of a run records its failure, if any, drops the session's job and starts the first that waits; with none nothing is in flight |
| `ExtractionStore.Store.ProcessNext` | wevibe-dashboard/lib/extraction-queue.ts:590-605 | Starts the first waiting job when idle, and nothing otherwise |
| `ExtractionStore.Store.EnqueueExtraction` | wevibe-dashboard/lib/extraction-queue.ts:607-640 | New state is the specified enqueue |
| `ExtractionStore.Store.AcceptResume` | wevibe-dashboard/lib/extraction-queue.ts:745-765 | New state is the specified resume |
| `ExtractionStore.Store.ParkRun` | wevibe-dashboard/lib/extraction-queue.ts:518-526 | New state is the specified parking |
| `ExtractionStore.Store.EndRun` | wevibe-dashboard/lib/extraction-queue.ts:568-588 | New state is the specified end of a run |
| `ExtractionStore.PollJob` | wevibe-dashboard/lib/extraction-queue.ts:465-550 | At most 300 status requests when each sleep takes at least the interval; gives up on failures exactly when the last three requests failed, and overlooks neither three failures in a row nor a deciding answer |

## Left out

- Toasts, progress counters (`runTotal`, `runCompleted`), listeners, object freezing and all other user interface.
- JSON text, `localStorage` failures and quota: storage is taken to keep the value it is given.
- JavaScript numbers: `Number(x)` of a non-number is an arbitrary function; rounding is not modelled, and `NaN` only as a stored value that is not finite.
- ChainMessages.BuildSubmitCommitment: here and in every builder strings are their UTF-8 bytes, so what unpaired surrogates turn into is not modelled.
- Base32.Base32ToBytes: upper-casing is any function (one that leaves the alphabet alone, for the round trip), because Unicode case mapping is not modelled.
- Keywords.NormalizeKeywords: trimming and lower-casing is any function, for the same reason.
- Integers in the standing engine (`uint64` counters) and in the queue serials do not wrap.
- Order of the members when Go ranges over a map, and how a library sort breaks ties: arbitrary where it is proved not to matter.
- StandingStore.Projection.LoadStandingReplayEvents: the query is a stable sort, and its texts compare as numbers; `StandingProjection.OrderIrrelevant` carries the standing over to any other order of ties.
- ChainWatcher.Watcher.FindRequest: between join requests of the same status and time the first in the table is taken, where SQL leaves the choice open.
- Timestamps (`updated_at`, `reviewed_at`, `trial_expires_at`), the trial length, notifications, and the Umbral sidecar in the org bookkeeping.
- Database errors other than constraint violations, and crashes in the middle of one statement.
- `processRegisterOrgBookkeeping`, memory approval, reports and commitment provenance in the watcher: each is one guarded statement that no modelled table depends on.
- The subscription loop and reconnect of the watcher, which never catch up: nothing is claimed about heights missed there.
- StandingStore.Projection.RecomputeFromGrouped: the floating-point fold of `standing.Compute` over the tallies is an arbitrary function `finish`; the Qdrant mirror of the table and the void-serve statistics are not modelled.
- Ranking.ScoreAndRank: scores are reals, so rounding, infinities and NaN are not modelled.
- The boost slots and keyword renormalization outside `ranking_core.go`.
- Keyword match details in ranked rows, which repeat the matched keywords.
- SequenceCache.Signer.BroadcastMsgsForOrg: one sender, and a mismatch error only from a sequence that is not the chain's next.
- SequenceCache.Signer.LoadState: the repeated queries after funding an account are one query, with the answer of the last.
- SequenceCache.Signer.BroadcastSigned: only the commit broadcast is modelled, the one the source has callers for; after a sync broadcast success means only that the transaction was admitted, so it need not be delivered.
- Account numbers, signing, fees paid and balance top-ups around a broadcast, except that they may fail.
- Which org a cached signer was made for: the fee granter is not modelled.
- The growth rule of Go's `append`: a full array is replaced by some larger one.
- `encodeBytesField`, the hexadecimal field encoder that no builder uses.
- Context cancellation in the epoch sync is one of the ways an org's scroll may fail.
- Chunk counters and drafts of the extraction queue, the parked context store, and the fields of a parked job.
