# A verified model of the staking miner

polkadot-staking-miner follows a chain that runs a multi-block election, mines a solution once per
round, submits it page by page, and predicts elections from staking data. This project models the
protocols and data transformations around the solver and proves what they keep, over every run
and every input. The chain, the network and the solver are left open: they appear as parameters,
as answers that may depend on everything that happened before, or as steps of a state machine
that interleave freely.

| file | component |
|---|---|
| `Monitor.dfy`, `MonitorRuns.dfy`, `UndisturbedListener.dfy` | listener, channels of capacity one, timeouts, era pruning, as a state machine |
| `MinerTask.dfy`, `MinerLaws.dfy` | the miner's message loop, its gates and its two caches; every outcome with its exact conditions |
| `SnapshotCache.dfy` | the cache of snapshot pages checked by hash |
| `SubmissionLog.dfy`, `PageBatches.dfy`, `Submission.dfy` | registering a score, sending pages, retrying, bailing |
| `Resume.dfy` | completing an incomplete submission |
| `OldRounds.dfy` | recovering deposits from old rounds |
| `VoterList.dfy`, `VoterFetch.dfy` | the bags-list walk and the windowed voter fetch |
| `Overrides.dfy`, `OverridesLaws.dfy`, `Pagination.dfy` | editing election data, cutting it to capacity, filling pages |
| `Predictions.dfy`, `PredictionViews.dfy` | merging supports and the two prediction views |
| `Failover.dfy`, `Reconnect.dfy` | choosing an endpoint, concurrent reconnects |
| `Scores.dfy`, `Planck.dfy` | the score order and its strategies, printing token amounts |
| `Common.dfy` | shared types and sequence facts |

Where the source updates things step by step, the model does too: loops with invariants, a class
for the snapshot cache, methods that return the log of what they did. Each such method is proved
against a function or a predicate, and the laws are proved about those. The laws
are stated over the inputs, the chain's answers and the results, not by how a function computes
them.

The environment is assumed to behave as follows, and each assumption is a hypothesis of the
lemmas that use it. Storage read at one block never changes. A page is stored together with its
hash, and hashes do not collide (`Consistent`, `CollisionFree`). Within a round the snapshot and
the number of winners are fixed, and mining is a function of them (`Faithful`, `MineFn`). The
events of a page transaction name no page but its own (`Honest`). There is at least one page.
`shady` mode is off. `strict_threshold_better`, which belongs to the election library, is
defined once in `Scores.dfy`.

Properties that turned out not to hold of the code in general are stated with the exact condition
under which they do, and each has an input or a run on which it fails:

- `MonitorRuns.EnteredIffNotLost` and `MonitorRuns.AnnouncementHeardIffNotLost`: fails in
  `MonitorRuns.CancelledEntryIsLost`, and beyond every losing run by `MonitorRuns.LostEntryGoesUnheard`
- `Reconnect.OkWithoutLaterWriteIff`: fails in `Reconnect.OkWithoutLaterWrite`
- `Submission.SuccessMeansCompleteIffOneBatch`: fails in `Submission.EarlySuccess`
- `MinerTask.ResendsTheComplement`: fails in `MinerTask.ShortSolutionRunsOut`
- `Overrides.EditedVotersUnique`: fails in `Overrides.DoubleInclusion`
- `VoterFetch.BufferSuffices`: fails in `VoterFetch.BufferTooSmall`
- `Pagination.Convert`: fails in `Pagination.OverflowingPages`
- `Predictions.TransposingConserves`: fails in `Predictions.SaturationLosesStake`
- `PredictionViews.TotalsAddUp`: fails in `PredictionViews.SelfStakeInTwoRows`
- `Resume.TestsAgreeIffFullLength` and `Scores.LeaderDecidesOnlyWithoutMargin` name theirs in their proofs

The comment on `fetch_voter_list` promises voters sorted by score. The code keeps the list's own
order inside a bag, and the model follows the code.

## Model

| member | source | states |
|---|---|---|
| `MonitorRuns.RunKeepsInv` | src/commands/multi_block/monitor.rs:121-247 | Every state of every run keeps the invariants of the listener's place, the miner's messages, the old-rounds ticks, the prune steps and the Off-phase signals, whatever is skipped, dropped or cancelled. |
| `Monitor.StepKeepsMinerInv` | src/commands/multi_block/monitor.rs:137-247 | Every step keeps: at most one message waits; messages are in block order, at most one per block; blocks are sent only in the signed and snapshot phases, clearing only on a round increment in the Off phase. |
| `Monitor.StepKeepsTickInv` | src/commands/multi_block/monitor.rs:424-447 | Every step keeps: ticks are sent for round increments only, in order, at most one waiting. |
| `Monitor.StepKeepsPruneInv` | src/commands/multi_block/monitor.rs:1062-1087 | Every step keeps: block announcements are for distinct Off blocks in order, and every prune step answers an announcement of its own. |
| `Monitor.StepKeepsLossInv` | src/commands/multi_block/monitor.rs:159-218 | Every step keeps: the pruning flag is what the received signals say, and within the Off phase the signals sent leave pruning active exactly when the entry was not lost, that is, cancelled while pruning was off with none sent since. |
| `MonitorRuns.MinerReceivesInOrder` | src/commands/multi_block/monitor.rs:121-247 | In every run the miner receives a FIFO subsequence of the blocks; if the chain's rounds never fall, its messages' rounds never fall, and a clearing message is of a later round than everything before it. |
| `MonitorRuns.TicksIncrease` | src/commands/multi_block/monitor.rs:139-154 | If the chain's rounds never fall, the rounds of the old-rounds ticks strictly increase, because the round is noted before anything that can be cancelled. |
| `MonitorRuns.PruningIsRateLimited` | src/commands/multi_block/monitor.rs:1048-1102 | Every prune step is triggered by the announcement of a block read as Off, and no delivery of a block triggers two. |
| `MonitorRuns.EnteredIffNotLost` | src/commands/multi_block/monitor.rs:159-218 | In every run, when a block is announced or the Off phase is left, the signals sent hold an entry with no exit after it if and only if no entry was lost. |
| `MonitorRuns.AnnouncementHeardIffNotLost` | src/commands/multi_block/monitor.rs:1048-1066 | In every run an announcement about to be received finds pruning active if and only if no entry was lost when it was sent. |
| `MonitorRuns.PrunesWhileEntered` | src/commands/multi_block/monitor.rs:1048-1102 | In every run a prune step is taken exactly when an announcement is received, an era is found, and the messages received before hold an entry with no exit after it. |
| `MonitorRuns.SignalsArePaired` | src/commands/multi_block/monitor.rs:159-218 | In runs where no entry signal is cancelled, whatever else is, every announcement received finds pruning active, and two exits always have an entry between them. |
| `MonitorRuns.LostEntryGoesUnheard` | src/commands/multi_block/monitor.rs:159-186 | From every run that can lose an entry, the listener can go on to an Off block whose announcement finds pruning inactive. |
| `UndisturbedListener.UndisturbedBlock` | src/commands/multi_block/monitor.rs:121-247 | With room in the channels and nothing in between, one block leads to exactly these messages: a tick on a round increment; clearing if that is in the Off phase; the block in the signed and snapshot phases; entry, exit or announcement by this phase and the one before, the entry leaving no room for an announcement of its own block. |
| `MonitorRuns.CancelledEntryIsLost` | src/commands/multi_block/monitor.rs:159-186 | Such a run: the entry signal waits behind an exit signal not received yet when the timeout cancels it, and is never sent again, since the phase was noted before the send. |
| `MonitorRuns.SubmissionsAreGatedInEveryRun` | src/commands/multi_block/monitor.rs:853-883 | In every interleaving of listener, channels, timeouts and miner, each submitted solution belongs to a block seen in the signed phase, carries its round, and is gated, checked and preceded by the bail it needs. |
| `MonitorRuns.MetricCountsRoundsOnce` | src/commands/multi_block/monitor.rs:1505-1511 | In every run over a chain whose rounds never fall, the outcompeted-rounds metric counts no round twice. |
| `MinerTask.EverySubmissionIsGated` | src/commands/multi_block/monitor.rs:1133-1560 | For any messages in any order: a submitted solution has the message's round, was mined with its page and winner counts checked at that message or an earlier one of the round and kept since, strictly beats the floor read, passes the strategy against every score read and against an own finished submission, and follows a bail exactly when there was an old submission. |
| `MinerTask.DecidesByTheGates` | src/commands/multi_block/monitor.rs:1261-1513 | Given a solution, it is submitted if and only if it beats the floor, passes the strategy against the scores and an own finished submission, differs from an unfinished one, and an old submission can be bailed; the below-minimum error comes exactly when a floor was read and not beaten. `MinerLaws` adds the exact bails, errors and outcompeted rounds. |
| `MinerLaws.EffectsAreExact` | src/commands/multi_block/monitor.rs:1261-1560 | Exactly what is done to the chain: a bail if and only if the floor is beaten, our submission is finished and beaten by the strategy or unfinished with another score, the phase is still signed and the bail goes through; then a submission if and only if no registered score fails the strategy; missing pages only for an unfinished submission of the same score; otherwise nothing. |
| `MinerLaws.UnbeatenSubmissionStays` | src/commands/multi_block/monitor.rs:1301-1308 | A finished submission that the new score does not beat is left alone: no effect, no error, not outcompeted. |
| `MinerLaws.OutcompetedIsExact` | src/commands/multi_block/monitor.rs:1470-1513 | A solution is outcompeted exactly when the scores are looked at, can be read, and one of them is not beaten. |
| `MinerLaws.ErrorsAreExact` | src/commands/multi_block/monitor.rs:1261-1560 | Which answer every error comes from, and which ends of the decision report none. |
| `MinerLaws.IdleBlocks` | src/commands/multi_block/monitor.rs:1154-1229 | A block whose account, phase or own submission does not allow fetching or mining changes nothing and does nothing, and reports exactly the answer that failed. |
| `MinerLaws.MiningBlocks` | src/commands/multi_block/monitor.rs:1154-1254 | Every other signed-phase block obtains a solution and decides by it, or reports why there is none. |
| `MinerLaws.AcceptedIffInOrder` | src/commands/multi_block/monitor.rs:1567-1675 | What the solver returns for the round's own data is accepted if and only if it has the round, at most the allowed pages and the winners asked for, and otherwise the first of these checks that fails is reported. |
| `MinerLaws.CachedSolutionSparesMining` | src/commands/multi_block/monitor.rs:1231-1254 | With a solution of the round at hand, fetch faults and mining timeouts make no difference and the page cache is not touched. |
| `MinerLaws.MinedSolutionIsKept` | src/commands/multi_block/monitor.rs:1236-1250 | An accepted solution is kept for the round; a failed attempt leaves what was kept. |
| `MinerLaws.SnapshotPhaseCollects` | src/commands/multi_block/monitor.rs:1186-1189 | After a snapshot-phase block, unless the network fails, every page on chain is in the cache, the target page too. |
| `MinerLaws.SnapshotPhaseReports` | src/commands/multi_block/monitor.rs:1186-1189 | A snapshot-phase block touches nothing but the page cache, does nothing to the chain, and reports only a read the network refused; without an error every voter page on chain is in the cache. |
| `MinerLaws.ClearingForgets` | src/commands/multi_block/monitor.rs:877-881 | The message that ends a round empties both caches and nothing else. |
| `MinerLaws.WhyNothingWasMined` | src/commands/multi_block/monitor.rs:1567-1675 | Without a solution of the round: a missing page, a failed read and a mining timeout are reported as such. |
| `MinerLaws.RoundsCountedExactly` | src/commands/multi_block/monitor.rs:1505-1511 | Over every sequence of messages, a round is counted as outcompeted if and only if some message of it was. |
| `MinerLaws.EndsAtFirstCriticalError` | src/commands/multi_block/monitor.rs:853-883 | Over every sequence of messages, the task ends with the first missing account, panic or call that failed for good, and handles every message before it. |
| `MinerTask.SubmittedIffGated` | src/commands/multi_block/monitor.rs:853-883 | At an undisturbed block of any run a solution is submitted if and only if the account, phase and own-submission checks pass, re-mining the round gives it, and it passes every gate. |
| `MinerTask.ResendsTheComplement` | src/commands/multi_block/monitor.rs:1360-1368 | With an incomplete submission of the same score, exactly the pages missing from the bitmap are sent, once each, with the cached solution's page of that number; it runs out of bounds exactly when a missing page lies beyond the solution's pages. |
| `MinerTask.ShortSolutionRunsOut` | src/commands/multi_block/monitor.rs:1363-1366 | A solution of one page of two, of which the chain lacks the second, runs out of bounds. |
| `MinerTask.CachesRefineRemining` | src/commands/multi_block/monitor.rs:1231-1254 | From any state of the two caches, an undisturbed block is handled as by the program that reads and mines everything afresh; even a disturbed one submits only what re-mining gives; the caches stay exact. |
| `MinerTask.RunsRefineTheSimpleProgram` | src/commands/multi_block/monitor.rs:853-883 | The same over whole runs of messages, with clears, other rounds, lossy fetches and failures in between. |
| `MinerTask.OutcompetedRoundsCountOnce` | src/commands/multi_block/monitor.rs:1505-1511 | If message rounds never fall, the rounds counted as outcompeted are strictly increasing. |
| `MinerTask.MineAndValidate` | src/commands/multi_block/monitor.rs:1567-1675 | Updates the snapshot object as a full fetch does and returns the mined solution if it has the round, at most the page limit and the wanted number of winners, else the error of the first check that fails. |
| `MinerTask.HandleBlock` | src/commands/multi_block/monitor.rs:1133-1560 | The snapshot object, the cached solution, the last outcompeted round and the outcome are those of the specification `Process`, whose every outcome the laws of `MinerLaws` below describe by the answers alone. |
| `MinerTask.RunMiner` | src/commands/multi_block/monitor.rs:853-883 | The message loop produces the outcomes of `RunTask` and ends early exactly on a critical error. |
| `SnapshotCache.FetchRefinesDirect` | src/dynamic/multi_block.rs:321-333 | From any sound cache, a successful fetch makes the cache read exactly as a direct fetch of every page at this block, in page order; a failed one leaves it sound; without network faults it succeeds exactly when the direct fetch does. |
| `SnapshotCache.LossyFetchKeepsSound` | src/dynamic/multi_block.rs:300-318 | A lossy fetch keeps the cache sound, and when it returns without error every voter page on chain is up to date, and without network faults the target page too; only a network fault makes it fail. |
| `SnapshotCache.KnownPagesAreNotFetched` | src/dynamic/multi_block.rs:369-395 | Pages whose hash is known are not fetched again: it is enough that the hashes can be read. |
| `SnapshotCache.EveryHistoryIsSound` | src/dynamic/multi_block.rs:300-333 | After any mix of clears, lossy and full fetches in any rounds, with any faults, every cached page carries its own hash. |
| `SnapshotCache.Snapshot.constructor` | src/commands/multi_block/types.rs:41-43 | A new cache is empty. |
| `SnapshotCache.Snapshot.SetTarget` | src/commands/multi_block/types.rs:56-58 | Replaces the target page and its hash, nothing else. |
| `SnapshotCache.Snapshot.SetVoterPage` | src/commands/multi_block/types.rs:61-64 | Replaces one voter page and its hash, nothing else, for a page below the number of pages. |
| `SnapshotCache.Snapshot.Reset` | src/commands/multi_block/types.rs:67-70 | Empties the cache. |
| `SnapshotCache.Snapshot.Get` | src/commands/multi_block/types.rs:78-82 | Returns the target page and the voter pages in page order, or the panic when no target page was fetched. |
| `SnapshotCache.Snapshot.CheckAndUpdateVoter` | src/dynamic/multi_block.rs:369-381 | Refines the value-level update of one voter page: fetched only if the hash on chain differs. |
| `SnapshotCache.Snapshot.CheckAndUpdateTarget` | src/dynamic/multi_block.rs:383-395 | Refines the value-level update of the target page. |
| `SnapshotCache.Snapshot.FetchMissingSnapshots` | src/dynamic/multi_block.rs:321-333 | Refines the value-level full fetch, stopping at the first error. |
| `SnapshotCache.Snapshot.FetchMissingSnapshotsLossy` | src/dynamic/multi_block.rs:300-318 | Refines the value-level lossy fetch, which passes over pages not on chain yet. |
| `SubmissionLog.ValidateSignedPhaseOrBail` | src/dynamic/multi_block.rs:873-939 | By the chain's answers alone: it goes on if and only if the signed phase is read with more than the minimum of blocks, and then nothing but the read is on the trace; on a short phase with a page missing our submission is bailed before the error is returned, with none missing or no submission it is not; another phase is reported as a phase change; a failing call is reported as such; no page is sent. |
| `SubmissionLog.BailIncomplete` | src/dynamic/multi_block.rs:888-919 | By the chain's answers alone: our submission is read and, exactly if some page is missing, bailed; a failing read or bail is reported as such. |
| `SubmissionLog.AttemptsAreBounded` | src/dynamic/multi_block.rs:422-449 | A log that obeys the protocol holds at most ten registration attempts. |
| `SubmissionLog.PagesFollowRegistration` | src/dynamic/multi_block.rs:451-506 | In a log that obeys the protocol every page is sent after the one confirmed registration, which directly follows an attempt, and every batch begins right after the phase was read with enough blocks left. |
| `PageBatches.SubmitPagesBatch` | src/dynamic/multi_block.rs:613-729 | Keeps the log legal; on success every sheet was sent in order, the failed pages are distinct and expected, and for distinct pages the failed and the stored ones partition the expected ones; on error a prefix was sent; a chain that judges by what it was sent stores just the pages it takes; a cooperative chain gets no error, and one that stores every page no failure; a chain that never gives a nonce, never takes a page transaction or never settles one leads to an error. |
| `PageBatches.SubmitPagesConcurrent` | src/dynamic/multi_block.rs:732-750 | The failures are exactly the pages not stored. |
| `PageBatches.SubmitPagesChunked` | src/dynamic/multi_block.rs:754-836 | What was sent and what failed is the specification `Chunked` of what the chain stored. |
| `PageBatches.PassAccounts` | src/dynamic/multi_block.rs:709-728 | A pass fails on exactly the pages it sent and the chain did not store. |
| `PageBatches.PassCompleteIffStored` | src/dynamic/multi_block.rs:829-835 | A pass reports no failure exactly when every page was stored, and then all were sent. |
| `PageBatches.FirstFailingChunk` | src/dynamic/multi_block.rs:808-818 | A failing chunked pass sent whole chunks: all before the last one sent are stored, the failures are that chunk's unstored pages, and nothing behind it was sent. |
| `Submission.RegisterScore` | src/dynamic/multi_block.rs:422-449 | At most ten attempts, and the extrinsic error only after all ten; result and trace are those of `Registering`. |
| `Submission.RejectionsAreRetried` | src/dynamic/multi_block.rs:422-449 | On a chain that rejects the first k extrinsics and accepts the next, registration succeeds at attempt k + 1 if k is below ten and reports the extrinsic error after ten attempts otherwise. |
| `Submission.OtherFailuresAreFinal` | src/dynamic/multi_block.rs:422-449 | Any other failure ends the registration at once. |
| `Submission.Register` | src/dynamic/multi_block.rs:408-464 | No page is sent before a `Registered` event, and success means it was seen; a finalized registration without the event is reported as missing it, one that is not finalized as a failed call. |
| `Submission.TakePages` | src/dynamic/multi_block.rs:534-539 | For distinct pages in range the retried sheets carry the original contents, although each is taken out of the solution. |
| `Submission.Submit` | src/dynamic/multi_block.rs:400-594 | Every log obeys the protocol; every page is sent with its original content; too few blocks is reported only with nothing at risk; if the phase runs short while our submission is incomplete it is bailed, the last thing on the trace, and no page is sent; success and failure match the two-pass specification; with one batch success means the whole solution is stored; a failure count is the number of retried pages never stored; on a cooperative chain the only error left is that one, and if the chain stores every page the submission succeeds with everything stored, for every chunk size; on a chain that judges pages by what it was sent, what each pass stores is a function of that chain; whatever the outcome, honest events name only pages that were sent. |
| `Submission.Retry` | src/dynamic/multi_block.rs:521-593 | The retry sends original contents; success means that the second pass left no failure; before failed pages are reported the phase was read with enough blocks left. |
| `Submission.ReportFailure` | src/dynamic/multi_block.rs:567-593 | Before failed pages are reported the phase is checked again, and an incomplete submission is bailed if it runs short. |
| `Submission.SuccessStoresWhatWasSent` | src/dynamic/multi_block.rs:486-566 | A success leaves stored exactly the initial part of the solution the first pass sent. |
| `Submission.SuccessMeansCompleteIffOneBatch` | src/dynamic/multi_block.rs:486-566 | Success stores the whole solution, whatever the chain does, if and only if the pages go out in one batch. |
| `Submission.EarlySuccess` | src/dynamic/multi_block.rs:486-566 | For every solution of more than one chunk, a chain on which `Submit` returns `Ok` with only the first chunk stored: it loses the first transactions and stores all later ones. |
| `Submission.FailureCounts` | src/dynamic/multi_block.rs:563-593 | The pages reported as failed were stored in neither pass; with chunk size 0 they are all the unstored ones. |
| `Resume.MissingIsComplement` | src/commands/multi_block/types.rs:152-154 | The missing pages are the complement of the stored ones, ascending and without repetition. |
| `Resume.CompletenessTestsAgree` | src/commands/multi_block/monitor.rs:1737-1753 | For a bitmap of full length, counting stored pages, testing every bit and having nothing missing agree. |
| `Resume.TestsAgreeIffFullLength` | src/dynamic/multi_block.rs:902-905 | They agree on every bitmap of a given length if and only if that length is the number of pages. |
| `Resume.ResumeProgresses` | src/commands/multi_block/monitor.rs:1360-1417 | A resume pass shrinks the missing pages by exactly what was stored, writes nothing but the solution, and leaves nothing missing if and only if it had no failure. |
| `Resume.NothingMissingIsDone` | src/commands/multi_block/monitor.rs:1717-1754 | With nothing missing the submission reads as done and the chain holds the whole solution. |
| `Resume.RunProgresses` | src/commands/multi_block/monitor.rs:1360-1417 | Over any number of passes the missing pages never grow, and if each gets one page through, as many passes as pages were missing complete the submission. |
| `Resume.SubmissionLeavesPart` | src/dynamic/multi_block.rs:400-594 | From what every log of `Submit` guarantees: it leaves a part of the solution on chain, and exactly the pages not stored are missing. |
| `Resume.ResumingCompletesSubmission` | src/commands/multi_block/monitor.rs:1360-1417 | A submission left incomplete, also one that reported success early, is completed by as many productive resume passes as pages were left, and then reads as done with the whole solution on chain. |
| `OldRounds.RunCleanup` | src/commands/multi_block/monitor.rs:1877-1982 | By the rounds that are due, those before the current one, at most five back and behind the last one scanned: succeeds if and only if the head and the submission of every due round can be read; remembers the round before the current one exactly if it succeeds and some round is due; calls in ascending order for clearing exactly the leftovers among the due rounds and returns how many were cleared; on an error it has called for exactly those before the first unreadable one; the round after the remembered one stays within u32. |
| `OldRounds.ScanRounds` | src/commands/multi_block/monitor.rs:1921-1970 | The calls and the number of successes over a range of rounds; clearing failures do not stop the scan, and an unreadable round stops it with the calls before it made. |
| `OldRounds.ClearingsAreExact` | src/commands/multi_block/monitor.rs:1924-1957 | A scan clears exactly the rounds in which the submission read holds at least one page, with its number of stored pages as the count sent along. |
| `OldRounds.SuccessesAreCleared` | src/commands/multi_block/monitor.rs:1949-1966 | The count reported is the number of rounds cleared. |
| `OldRounds.WitnessCountsPages` | src/commands/multi_block/monitor.rs:1944-1946 | The count sent along is the number of pages stored. |
| `OldRounds.ScansAreDisjoint` | src/commands/multi_block/monitor.rs:1891-1982 | Over every sequence of ticks, completed scans are disjoint, strictly increasing intervals of one to five rounds, and the next round never overflows u32. |
| `OldRounds.ScansWhatIsLeft` | src/commands/multi_block/monitor.rs:1891-1982 | After every sequence of ticks, the next one completes a scan if and only if the head can be read, some round before the current one and at most five back lies above every round scanned so far, and the submission of every such round can be read; the scan covers exactly these rounds, and otherwise nothing changes. |
| `OldRounds.FirstScan` | src/commands/multi_block/monitor.rs:1891-1910 | Before any scan, the first readable tick past round 0 scans the five rounds before its own, or all there are. |
| `OldRounds.CompletedScanCoversWindow` | src/commands/multi_block/monitor.rs:1891-1982 | A completed scan ends right before its tick's round; afterwards each of the five rounds before it has been covered, and no round was covered twice. |
| `OldRounds.ClearOldRounds` | src/commands/multi_block/monitor.rs:911-950 | The tick loop keeps the variable of `Run`, which `ScansWhatIsLeft` describes, and ends at the first tick for which the head or the submission of a due round cannot be read for a critical reason. |
| `VoterList.SortDescending` | src/dynamic/staking.rs:278-281 | The bag bounds, each once, in strictly descending order. |
| `VoterList.FetchVoterList` | src/dynamic/staking.rs:278-388 | The walk terminates on arbitrary maps and returns the accounts of the specification `WalkBags`, each with the score of its node. |
| `VoterList.WalkIsSane` | src/dynamic/staking.rs:301-355 | On arbitrary bags and nodes the walk emits distinct, known accounts, at most the limit of them. |
| `VoterList.WalkIsComplete` | src/dynamic/staking.rs:301-355 | On arbitrary, even corrupt, storage it emits only accounts on the chains and, below the limit, all known ones: cutting a cycle loses nobody. |
| `VoterList.WalkCapped` | src/dynamic/staking.rs:301-330 | A smaller limit yields a prefix of the walk with a larger one. |
| `VoterList.WalkIsConcatenatedChains` | src/dynamic/staking.rs:278-355 | On a well-formed list the walk is the prefix of the chains concatenated by descending bound. |
| `VoterList.ScoresDescendAcrossBags` | src/dynamic/staking.rs:278-355 | If nodes are filed by score, an earlier voter from another bag has a strictly larger score. |
| `VoterFetch.RunTask` | src/dynamic/staking.rs:431-455 | A batch task retries transient errors only, a bounded number of times. |
| `VoterFetch.TaskDelivers` | src/dynamic/staking.rs:561-640 | A successful task delivers the lookups of its batch, whichever attempt produced them. |
| `VoterFetch.TaskOutcome` | src/dynamic/staking.rs:431-455 | A task succeeds if and only if one of its nine attempts gets through with only transient errors before it and every controller in its batch of twenty can be resolved; otherwise it reports the malformed controller, the first permanent error, or the ninth transient one. |
| `VoterFetch.FetchVoters` | src/dynamic/staking.rs:393-546 | With batches of 20 and a window of 10 the result is the sequential filter-map in list order cut to the limit; it succeeds exactly when every task does, else fails with the first failing batch. |
| `VoterFetch.SelectionIsExact` | src/dynamic/staking.rs:595-640 | The sequential selection keeps exactly the listed accounts that nominate somebody without being suppressed, or do not nominate but validate, in list order, each with its nominations or itself and with the active stake of its controller's ledger, cut to u64, if there is a readable one and its score otherwise. |
| `VoterFetch.BufferSuffices` | src/dynamic/staking.rs:180-185 | Selecting from the first limit + 100 voters equals selecting from all if and only if these hold enough eligible ones or nobody eligible is left; at most 100 ineligible ones suffice. |
| `VoterFetch.BufferTooSmall` | src/dynamic/staking.rs:180-185 | With a limit of one and 101 ineligible voters in front, the only eligible one is missed. |
| `VoterFetch.CappedWalkSuffices` | src/dynamic/staking.rs:393-405 | From storage to voters: capping the walk at the extended limit changes nothing if at most 100 of the voters listed are ineligible. |
| `VoterFetch.SelectionKeepsDistinct` | src/dynamic/staking.rs:463-491 | Selection never repeats a listed account. |
| `Overrides.IncludeCandidates` | src/dynamic/election_data.rs:187-236 | Fails with the first unreadable address or registers every included candidate and casts its self-vote. |
| `Overrides.IncludeVoters` | src/dynamic/election_data.rs:243-263 | Overwrites or appends each included voter through an index map built beforehand. |
| `Overrides.ApplyOverrides` | src/dynamic/election_data.rs:169-266 | The in-place edits yield the edited lists, or the first error in the order the code reads addresses. |
| `OverridesLaws.ParseIsExact` | src/dynamic/election_data.rs:175-263 | The overrides are applied if and only if every address in them can be read, and then as the file says: exclusions as sets of accounts, candidates with their self-stake or none, voters with stake and targets; otherwise the first unreadable address is reported, in the order of the four stages. |
| `OverridesLaws.SelfVoteOf` | src/dynamic/election_data.rs:214-235 | An account's self-vote comes from its last inclusion with a positive self-stake, and without one there is none. |
| `OverridesLaws.RetainIsFilter` | src/dynamic/election_data.rs:184-241 | Excluding drops exactly the entries of the excluded accounts and keeps the order. |
| `OverridesLaws.EditInPlace` | src/dynamic/election_data.rs:209-212 | An inclusion overwrites its account's entry in place or comes last, and leaves every other entry alone. |
| `OverridesLaws.EditedCandidatesUnique` | src/dynamic/election_data.rs:209-212 | Unlike the voters, the candidates stay unique whatever is included. |
| `Overrides.CandidatePrecedence` | src/dynamic/election_data.rs:172-206 | For every account: included beats excluded beats fetched. |
| `Overrides.VoterPrecedence` | src/dynamic/election_data.rs:187-263 | For every account: included beats excluded beats candidate self-vote beats fetched, with the exact rule for repeated inclusions. |
| `Overrides.EditedVotersUnique` | src/dynamic/election_data.rs:243-263 | The edited voters are unique if and only if no account without an entry is included twice. |
| `Overrides.DoubleInclusion` | src/dynamic/election_data.rs:243-263 | Including a new account twice leaves it with two entries. |
| `Overrides.ApplyingTwiceIsApplyingOnce` | src/dynamic/election_data.rs:169-266 | Given distinct inclusions, applying the same overrides again changes no account's entry. |
| `Pagination.CutToCapacity` | src/dynamic/election_data.rs:92-111 | Keeps exactly the voters ranked within capacity, in their original order. |
| `Pagination.SelectVoters` | src/dynamic/election_data.rs:92-111 | The cut is made exactly when the voters exceed a positive capacity. |
| `Pagination.Paginate` | src/dynamic/election_data.rs:119-145 | Every page but the last is full and none is empty; over the pages, the k-th voter has the account and the stake of the k-th one given and the first of its targets, as many as fit the bound; without room on a page there is one empty page for each voter. |
| `Pagination.Convert` | src/dynamic/election_data.rs:49-166 | The kept voters are the given ones, or as many as pages times page size of the strongest, in their order; over the pages before reversal, the k-th voter has the account and the stake of the k-th kept one and the first of its targets, all if they fit the bound; pages are reversed for staking data; at most `Pages` pages if and only if the capacity is positive or the voters are no more than that, and then later truncation drops no page. |
| `Pagination.OverflowingPages` | src/dynamic/election_data.rs:92-93 | Without room on any page, two voters take two pages where one is allowed. |
| `Pagination.PagesDetermined` | src/dynamic/election_data.rs:119-144 | Content and page size determine the pages. |
| `Pagination.PagesCount` | src/dynamic/election_data.rs:119-144 | The number of pages is the voters divided by the page size, rounded up. |
| `Pagination.WeakestAreDropped` | src/dynamic/election_data.rs:92-111 | No dropped voter has more stake than a kept one. |
| `Pagination.KeptStakesAreTop` | src/dynamic/election_data.rs:92-111 | However ties are resolved, the kept stakes are the top of the descending order. |
| `Pagination.ReversedPagesAscend` | src/dynamic/election_data.rs:157-163 | Voters that arrive strongest first end up with no voter stronger than one on a later page. |
| `Predictions.MergeSupports` | src/dynamic/election_data.rs:291-302 | Every winner's rows are its rows of all pages in order, and its total their saturating sum. |
| `Predictions.MergingIsAdditive` | src/dynamic/election_data.rs:291-302 | Totals and rows of a winner are its own for one support and add up, rows in order, over pages read one after the other. |
| `Predictions.MergingConserves` | src/dynamic/election_data.rs:291-302 | Merging keeps the sum over all rows. |
| `Predictions.Transpose` | src/dynamic/election_data.rs:304-316 | The map holds, for each voter and winner, the saturated sum of the voter's rows under that winner. |
| `Predictions.TransposingConserves` | src/dynamic/election_data.rs:304-316 | Transposing never gains stake and keeps all of it if and only if every cell fits u128. |
| `Predictions.SaturationLosesStake` | src/dynamic/election_data.rs:309-314 | Two rows of the largest stake behind one validator saturate into one cell and lose stake. |
| `PredictionViews.RankWinners` | src/dynamic/election_data.rs:318-324 | The winners by descending total, ties in account order. |
| `PredictionViews.ShownAreStrongest` | src/dynamic/election_data.rs:318-324 | No winner left out is backed by more than one shown. |
| `PredictionViews.ClassifyTargets` | src/dynamic/election_data.rs:412-436 | The loop over targets yields the specification `Classify`. |
| `PredictionViews.ClassesMean` | src/dynamic/election_data.rs:412-435 | Active means shown and funded, with the funded amount; inactive means shown and unfunded; waiting means not shown. |
| `PredictionViews.TargetsPartition` | src/dynamic/election_data.rs:412-435 | Every target lands in exactly one class, as often as it was nominated. |
| `PredictionViews.ClassesSorted` | src/dynamic/election_data.rs:412-435 | The three classes are the targets in nomination order, told apart by whether a target is shown and whether the supports give it stake of this nominator. |
| `PredictionViews.ViewsAgree` | src/dynamic/election_data.rs:304-436 | A nominator's rows under a shown winner add up to its own row for that winner, in both views and back to the supports; the winner appears as active, as often as nominated, exactly when that sum is positive. |
| `PredictionViews.ShownAreNotListed` | src/dynamic/election_data.rs:334-346 | Whoever the nominator view shows is no shown validator, never votes for itself alone, and has a snapshot entry with exactly these data. |
| `PredictionViews.NotSkippedAreShown` | src/dynamic/election_data.rs:403-446 | Conversely, every entry of an account that is no shown validator and never votes for itself alone is shown, with its stake and its targets classified. |
| `PredictionViews.TotalsAddUp` | src/dynamic/election_data.rs:347-380 | If a total is the sum of its rows, it is self-stake plus nominator rows if and only if all of the winner's own stake is in its first row. |
| `PredictionViews.SelfStakeInTwoRows` | src/dynamic/election_data.rs:348-361 | A winner whose own stake comes in two rows shows a total that its self-stake and nominators do not add up to. |
| `PredictionViews.OneRowEach` | src/dynamic/election_data.rs:347-354 | That is so when each account backs the winner once. |
| `PredictionViews.BuildValidators` | src/dynamic/election_data.rs:347-380 | One view per winner, in order. |
| `PredictionViews.SortIsStable` | src/dynamic/election_data.rs:356-364 | Rows of equal stake keep their order. |
| `PredictionViews.BuildNominators` | src/dynamic/election_data.rs:403-446 | One view per voter that is not skipped, in order. |
| `PredictionViews.BuildPredictions` | src/dynamic/election_data.rs:291-448 | From paged supports and snapshot: the validators shown are the strongest winners by rank, as many as desired, each with its saturated total, the stake of its first own row, and the other rows by descending stake, equal ones in order; an account appears among the nominators if and only if it is a voter, no shown validator, and no entry of it has itself as its only target; it then appears once per entry, in snapshot order, with that entry's stake and its targets in nomination order as shown and funded (with the funded amount), shown and unfunded, or not shown. |
| `Failover.ConnectWithFailover` | src/client.rs:144-200 | Follows the cyclic schedule, returns the first endpoint that accepts, and fails only when every scheduled attempt failed, with the last error; a single endpoint is asked three times and fails only if it refuses all three. |
| `Failover.ScheduleVisitsEachOnce` | src/client.rs:154-156 | From any start a pool of several endpoints is visited once each, every one the successor of the one before. |
| `Failover.FirstToAccept` | src/client.rs:154-180 | A successful search ends at the first endpoint in cyclic order that accepts: every one before it was asked and refused. |
| `Failover.OneGoodEndpointSuffices` | src/client.rs:144-200 | If one endpoint always accepts, the attempts cannot all fail. |
| `Reconnect.StepKeepsInv` | src/client.rs:260-309 | Every atomic step of any number of concurrent calls keeps the invariant. |
| `Reconnect.OneCommitPerGeneration` | src/client.rs:260-309 | The generation counts the commits, no captured generation commits twice, and each commit installed what its search reached from the successor of the index it replaced. |
| `Reconnect.ReadersSeeTheIndexedEndpoint` | src/client.rs:280-296 | Whenever no writer holds the lock, the installed client is the one the index names. |
| `Reconnect.OkMeansNewConnection` | src/client.rs:280-309 | A call that returns without error saw a newer connection become visible since it began, and one written since then unless a writer was between its two stores when it began. |
| `Reconnect.UndisturbedCallCommits` | src/client.rs:260-309 | A call that connects and meets no other call commits: its connection and index are installed, the generation rises by one, the lock is free and no other call changes. |
| `Reconnect.FailoverReturnsOnlyLast` | src/client.rs:265-309 | In every run each commit installs the endpoint its search reached from the successor of the one it replaces, and the replaced endpoint itself if and only if every other one refused. |
| `Reconnect.OkWithoutLaterWriteIff` | src/client.rs:260-309 | From every reachable state, a new call can return without error although nothing is written after it began if and only if a writer is then between its client store and its generation bump. |
| `Reconnect.OkWithoutLaterWrite` | src/client.rs:280-296 | Such a state is reachable. |
| `Reconnect.MutualExclusion` | src/client.rs:280-296 | No two calls are in the critical section together. |
| `Scores.BetterIsAntitone` | src/utils.rs:115-133 | Better by a larger margin implies better by a smaller one. |
| `Scores.MarginsMean` | src/utils.rs:115-133 | Better by a margin, in full: by more than the margin in the minimal stake, or as good in it and by more in the sum, or as good in both and lower by more in the sum of squares; saturation of the bounds makes no difference. |
| `Scores.MulCeilIsCeiling` | src/utils.rs:115-133 | The margin is the exact product rounded up. |
| `Scores.TwoPercent` | src/utils.rs:340-356 | Against a minimal stake of 100 and with two percent, better means 103 or more and no worse means 98 or more. |
| `Scores.StrategiesNest` | src/utils.rs:115-133 | Better by e, leading, no worse than e, always: each strategy implies the next, and margins nest. |
| `Scores.LeadingGatesAreOneComparison` | src/commands/multi_block/monitor.rs:1692-1713 | Under `IfLeading` the floor gate and the list gate together are one comparison with the best of floor and list. |
| `Scores.LeaderDecidesOnlyWithoutMargin` | src/commands/multi_block/monitor.rs:1704-1710 | Comparing with the leading score alone would be enough if and only if the margin is zero. |
| `Planck.PrintThenParse` | src/utils.rs:289-309 | For every u128 amount printing succeeds exactly up to 38 decimals, and the text reads back as the amount. |
| `Planck.ParseThenPrint` | src/utils.rs:289-309 | The printer yields the only canonical text of a number. |
| `Planck.PrintedIsCanonical` | src/utils.rs:296-308 | The fraction has at most `decimals` digits and no trailing zero, the whole part no leading one. |
| `Planck.EmptyFractionIsUnreachable` | src/utils.rs:300-308 | The branch for a fraction trimmed to nothing is never taken. |
| `Planck.DivisorFits` | src/utils.rs:290-291 | 10 to the decimals fits u128 exactly up to 38. |

## Left out

- RPC, storage decoding, signing, nonces, SS58 and JSON, metrics other than the outcompeted-rounds counter, the HTTP server and the command line: library wrappers and input/output.
- The mining algorithm and the feasibility check: library code, taken as a function of their input.
- Wall-clock time: a timeout is a step or an answer that may come at any point where the code waits.
- `shady` mode: it bypasses the gates on purpose.
- Subscription recreation and the error classes of the listener: a block that cannot be read is one the listener does not see.
- Memory ordering: the atomics of the client are relaxed in the source, while `Reconnect` interleaves their operations in one order; the write lock already orders all of them but the two loads at the start of a call.
- Page transactions of one batch are sent in order and awaited in any order; their events are read one transaction at a time.
- The tasks of the voter fetch run concurrently in the source; since the storage they read never changes, each is modelled where it is awaited.
- The panic when the phase is no longer signed at a single page of a batch is kept as an error of the batch; nothing is claimed to rule it out.
- Nothing is claimed about the dispatch of a finalized bail, only that it was finalized.
- Machine integers that cannot matter at realistic sizes: the voter limit plus 100 and the capacity are not cut at the largest `usize`.
- Overflow of 10 to the decimals in `planck_to_token` is an absent result here; the source panics or wraps depending on its build.
- Fetching candidates and the snapshot commands, and decoding bags and nodes: they decode storage entries into the lists and maps the walk and the edits start from, and those are arbitrary here.
- A recreated subscription may deliver a block again: each delivery counts as a block of its own, for pruning too.
- Reconnect.OkMeansNewConnection: does not promise a store after the call began when a writer was between its client store and its generation bump then, because exactly there the code does not, as `Reconnect.OkWithoutLaterWriteIff` shows.
- MinerTask.CachesRefineRemining: the equality with the simple program is for undisturbed blocks, because a cached solution spares the miner faults and timeouts the simple program would meet.
