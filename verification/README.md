# Verified model of the water-credit backend

Dafny models and proofs for the parts of the backend whose correctness is not
visible in any one function: the oracle submission pipeline, reading batches,
governance, the chain indexer, list pagination, and a few small codecs and
formulas. `dafny verify dfyconfig.toml` checks everything.

## How the models are built

- A protocol is a state, a datatype of atomic actions (one SQL statement or
  transaction, one chain read, one broadcast, one landing), and runs: every
  legal interleaving of actions. Invariants are proved action by action and
  lifted to all runs.
- Code that updates state step by step is a class whose methods are proved
  against the same states and functions. Where other processes may act between
  two statements, the method calls `Interfere`, of which only the contract is
  known. The result is proved to be a legal run of the protocol in which each
  step is marked as the call's own or not, and its own are a complete script.
- `save()` of an entity loaded earlier writes every column back. Such a row is
  kept in the state from its load to its save, and anything may happen between.
- Where a promise does not hold of every run, the theorem says of each run
  exactly when it does, and a reachable state shows the failure. The condition
  is one that the save could test, or a lock that the call could take.
- Clocks, database ids, RPC answers and failures are parameters or actions.

| file | what it covers |
|---|---|
| `OracleProtocol.dfy` | state, actions and runs of the oracle nonce protocol |
| `OracleExactlyOnce.dfy` | one project per oracle address: exactly-once over every run |
| `OracleSharedAddress.dfy` | several projects per address: what is lost and exactly when |
| `OracleReconcile.dfy` | the renumber and gap loops of `reconcile` |
| `OracleProcessor.dfy` | `processSubmission` and `triggerSubmission` as code, with interference |
| `ReadingBatches.dfy`, `BatchGuarantees.dfy`, `BatchServices.dfy` | batches: protocol, guarantees over runs, services as code |
| `Governance.dfy` | proposals and votes with two writers, quorum, conservation of tallies |
| `GovernanceLifecycle.dfy`, `GovernanceLocks.dfy` | what a proposal goes through, and which calls must lock its row |
| `GovernanceDelivery.dfy` | indexed votes delivered again, on-chain ids not unique |
| `GovernanceService.dfy` | the governance calls and the indexer's handlers as code, with interference |
| `ConfigTimelock.dfy`, `ConfigService.dfy` | timelocked configuration changes: protocol and calls as code |
| `IndexerPaging.dfy` | the poll loop over `getEvents` |
| `KeysetPagination.dfy` | cursor and offset pagination |
| `RateLimiter.dfy` | the Redis request counter |
| `ApiKeys.dfy`, `ReadingPayload.dfy`, `CertificateNumbers.dfy`, `Strings.dfy` | printed forms and their inverses |
| `CreditScoring.dfy` | the credit formula over the reals |
| `Basics.dfy` | options, a member of a non-empty set |

## Where the code differs from its comments

- Exactly-once and the nonce order hold with one project per oracle address and
  only then. The unique constraint is per project, the contract's nonce per
  oracle (`ExactlyOnceIffOneProject`).
- With one project the re-sequencing branch never commits: the nonce it wants is
  always taken (`ResequencingNeverCommits`), and `findStaleSubmissions` is
  non-empty only when a landing falls between its nonce read and its query
  (`StaleListingIsEmpty`).
- A submission that was accepted, and after which another one was accepted too,
  is reported FAILED by the processor until a sweep confirms it
  (`DecisionFollowsTheChain`, `QuietReconcileSettles`).
- Three calls save a proposal row they loaded before a chain call or a lookup:
  `createProposal`, `executeProposal` and the indexer. A vote in between is lost
  from the tallies, a decided proposal becomes ACTIVE again and an EXECUTED one
  PASSED (`UnlockedCreation`, `UnlockedExecutionLosesAVote`,
  `UnlockedExecutionUndoesExecuted`, `UnlockedIndexing`). It takes a lock in all
  three to keep the tallies and in the first two to keep the lifecycle
  (`ConservedIffLocked`, `MachineIffLocked`).
- A first vote against that is indexed after a proposal has passed can leave it
  PASSED without a majority (`PassedHasMajorityIff`).
- Nothing makes on-chain ids of proposals unique, and the handler of an indexed
  vote takes any row with that id: delivered again, a vote can be counted on a
  second proposal (`RedeliveryCountsTwice`; exactly when it is not:
  `OverlapIsHarmlessIff`).
- `vote()` writes EXPIRED and then throws, so that write is rolled back.
- `cancelConfigChange` can mark an applied change CANCELLED, and two writers of
  the live configuration can undo each other (`FinalIffGuarded`,
  `NoWriteLostIffGuarded`).
- `resolveBatch` says that the scheduler picks up the batches it closes; the
  scheduler only looks at PENDING rows, so they are never submitted
  (`StrandedForever`).
- `resolveBatch` says that after its INSERT the project has exactly one PENDING
  batch. Between INSERT and SELECT a scheduler can claim it, and the SELECT finds
  none (`NothingToSelect`; exactly when: `SelectFindsNoneIff`).
- A reading can join a batch after a scheduler has claimed it, because its
  ingestion resolved the batch before the window closed (`LateReadingJoins`); a
  test at insertion would prevent it (`FrozenIffTested`).
- Confirming a batch saves a row loaded earlier: it can undo the count of such a
  reading and overwrite credits the indexer has set (`StaleConfirmLosesAReading`,
  `StaleConfirmRewritesCredits`).
- The rate limiter calls itself a sliding window; it is a fixed window that lets
  `2 * max - 1` requests through in one window length (`SlidesIffOne`).
- A page of `getEvents` that ends inside a ledger, or fails, is passed over for
  good (`CutAnswerLosesAnEvent`, `MissedIsLost`).
- Certificate numbers are called strictly increasing. Their sequence values are;
  as strings they ascend only up to block 999 (`AscendingIffThreeDigitBlocks`).

## Model

| member | source | states |
|---|---|---|
| OracleExactlyOnce.ExactlyOnceAlways | src/modules/oracle/oracle-processor.ts:158-335 | over every run of a one-project deployment (lost acknowledgements, retries, late landings, racing sweeps, indexer): a submission was accepted once iff its nonce is at most the on-chain nonce, else never; every CONFIRMED row was accepted exactly once |
| OracleExactlyOnce.ChainFollowsAllocation | src/modules/oracle/oracle.service.ts:133-157 | the chain accepts submissions in allocation order; row nonces are the allocation positions 1, 2, 3, ... and never change |
| OracleExactlyOnce.AllocatedNonceIsFresh | src/modules/oracle/oracle.service.ts:139-145 | max + 1 is one more than the number of submissions and beyond the on-chain nonce |
| OracleExactlyOnce.DecisionFollowsTheChain | src/modules/oracle/oracle-processor.ts:192-257 | what each branch of the nonce comparison means: sent iff next to be accepted, CONFIRMED iff last accepted, FAILED though accepted iff accepted earlier |
| OracleExactlyOnce.ResequencingNeverCommits | src/modules/oracle/oracle-processor.ts:248-255 | with one project the save of a re-sequenced nonce always violates the unique constraint |
| OracleExactlyOnce.EveryOtherNonceIsTaken | src/modules/oracle/entities/oracle-submission.entity.ts:23 | a save collides iff it would change the row's nonce |
| OracleExactlyOnce.StaleListingIsEmpty | src/modules/oracle/oracle.service.ts:311-330 | the stale list is empty iff nothing confirmed landed after its own nonce read; empty if nothing landed in between |
| OracleExactlyOnce.IndexedIsAccepted | src/modules/indexer/indexer.service.ts:562-575 | over every run of a one-project deployment the event of an accepted transaction makes the indexer confirm exactly the accepted submission, unless it is CONFIRMED already |
| OracleExactlyOnce.ComparisonChangesOneColumn | src/modules/oracle/oracle-processor.ts:192-257 | the comparison changes the status of the row or moves it to the next nonce, never both and nothing else |
| OracleExactlyOnce.StepKeepsInv | src/modules/oracle/oracle-processor.ts:158-335 | every action of jobs, sweeps, indexer and chain keeps the protocol invariant |
| OracleExactlyOnce.LandKeepsInv | src/modules/oracle/oracle-processor.ts:281-303 | whichever transaction lands, also after its sender gave up, belongs to the next submission in allocation order |
| OracleExactlyOnce.FindStaleKeepsInv | src/modules/oracle/oracle.service.ts:384-419 | copies renumbered from a racing stale list can be written back at any later time without harm |
| OracleExactlyOnce.FindToConfirmKeepsInv | src/modules/oracle/oracle.service.ts:421-445 | so can copies confirmed by the gap sweep or the indexer |
| OracleSharedAddress.ExactlyOnceIffOneProject | src/modules/oracle/entities/oracle-submission.entity.ts:23 | exactly-once holds over all runs iff at most one project uses the oracle address |
| OracleSharedAddress.AtMostOnceIffOneProjectOrCareful | src/modules/oracle/oracle-processor.ts:158-335 | no submission is accepted twice in any run iff there is one project, or both one live job per submission and an atomic stale query: neither alone is enough |
| OracleSharedAddress.AtMostOnceWhenCareful | src/modules/oracle/oracle-processor.ts:158-335 | at-most-once for any number of projects with both |
| OracleSharedAddress.WrongConfirmation | src/modules/oracle/oracle-processor.ts:199-216 | a run in which a row of one project is CONFIRMED although only the other project's submission landed at its nonce |
| OracleSharedAddress.DoubleLanding | src/modules/oracle/oracle-processor.ts:248-285 | with two live jobs of a submission, however the stale query is made, a run in which it is accepted twice |
| OracleSharedAddress.DoubleLandingByStaleQuery | src/modules/oracle/oracle.service.ts:311-330 | with a stale query that reads the nonce before the rows, and one live job throughout, a run in which a submission is accepted twice |
| OracleReconcile.RenumberKeepsOrder | src/modules/oracle/oracle.service.ts:384-419 | after every single save of the renumber loop stale rows are distinct and in order and no nonce was raised; the rows saved so far are PENDING at onChain + 1, onChain + 2, ... and otherwise as found, all other rows are untouched |
| OracleReconcile.RenumberCollision | src/modules/oracle/oracle.service.ts:395-400 | a save of the loop aborts iff a row outside the stale list holds that nonce; stale rows never collide |
| OracleReconcile.StaleAscends | src/modules/oracle/oracle.service.ts:322-329 | the i-th stale nonce is at least onChain + 1 + i |
| OracleReconcile.SubmissionTable.Save | src/modules/oracle/entities/oracle-submission.entity.ts:23 | a save writes the whole row, or throws and changes nothing |
| OracleReconcile.SubmissionTable.Find | src/modules/oracle/oracle.service.ts:322-329 | exactly the matching rows, each once, by ascending nonce |
| OracleReconcile.SubmissionTable.RenumberStale | src/modules/oracle/oracle.service.ts:384-419 | the loop stops at the first taken nonce; it completes iff the range it hands out is free; its own second nonce read may be later |
| OracleReconcile.SubmissionTable.ConfirmGaps | src/modules/oracle/oracle.service.ts:421-445 | exactly the PENDING and FAILED rows at or below the nonce become CONFIRMED |
| OracleReconcile.SubmissionTable.Reconcile | src/modules/oracle/oracle.service.ts:371-478 | both loops in sequence on the quiet table of one project, whatever lands between the two nonce reads; succeeds iff the renumbered range is free |
| OracleReconcile.QuietReconcileSettles | src/modules/oracle/oracle.service.ts:421-445 | from any reachable one-project state a quiet reconcile leaves CONFIRMED exactly the accepted submissions, rows still SUBMITTED excepted |
| OracleProcessor.Oracle.ProcessSubmission | src/modules/oracle/oracle-processor.ts:133-335 | with arbitrary interference between its I/O steps an attempt is a legal run of the protocol whose own actions form a complete attempt; what it saves last is in the table or collides: FAILED if it ended unconfigured, rejected or unsent, CONFIRMED if a success was reported; a missing or CONFIRMED row changes nothing |
| OracleProcessor.Oracle.Check | src/modules/oracle/oracle-processor.ts:175-192 | no contract id: FAILED is saved; unreadable nonce: the attempt is abandoned and saves nothing; otherwise read, then compare |
| OracleProcessor.Oracle.Compare | src/modules/oracle/oracle-processor.ts:194-257 | last accepted nonce: CONFIRMED; older: FAILED; next: sent; beyond: FAILED if a row created later is CONFIRMED, else re-sequenced to the next nonce |
| OracleProcessor.Oracle.Resequence | src/modules/oracle/oracle-processor.ts:248-255 | save the new nonce, and only if that succeeds go on to send |
| OracleProcessor.Oracle.Send | src/modules/oracle/oracle-processor.ts:259-303 | invalid snapshot: FAILED is saved; otherwise SUBMITTED is saved before anything is broadcast, or FAILED if that save throws |
| OracleProcessor.Oracle.Transmit | src/modules/oracle/oracle-processor.ts:287-335 | at most one broadcast per attempt, ending in reported success saved as CONFIRMED, or in FAILED |
| OracleProcessor.Oracle.AwaitOutcome | src/modules/oracle/oracle-processor.ts:307-335 | CONFIRMED is saved only for a reported success of a landed transaction, FAILED otherwise |
| OracleProcessor.Oracle.TriggerSubmission | src/modules/oracle/oracle.service.ts:123-184 | inserts one row with maximum + 1, a legal step of the protocol |
| OracleProcessor.Oracle.MaxNonce | src/modules/oracle/oracle.service.ts:139-145 | the maximum nonce, 0 for an empty table |
| OracleProcessor.AttemptsKeepExactlyOnce | src/modules/oracle/oracle-processor.ts:133-335 | after any such attempt in any reachable state exactly-once still holds |
| BatchGuarantees.ClaimsAlternate | src/modules/oracle/oracle-scheduler.service.ts:273-326 | with any number of replicas claims and releases of a batch alternate, submissions never exceed claims and claims never exceed releases + 1; only non-empty batches with a closed window are claimed; at most one PENDING batch per project |
| BatchGuarantees.AtMostOneEligible | src/modules/oracle/oracle-scheduler.service.ts:336-348 | the eligible list has at most one batch |
| BatchGuarantees.ResolveGivesTheOpenBatch | src/modules/sensors/sensors.service.ts:364-424 | with nothing in between, closing and inserting leave the project exactly one PENDING batch, created within the window |
| BatchGuarantees.PendingStays | src/modules/sensors/sensors.service.ts:396-424 | which single steps take a PENDING batch away from its project: a claim, a close with a later cutoff, a mint event, a confirming save, and no other |
| BatchGuarantees.SelectFindsIff | src/modules/sensors/sensors.service.ts:396-424 | whatever runs between the INSERT and the SELECT, the batch is there throughout iff none of those steps occurs |
| BatchGuarantees.SelectFindsNoneIff | src/modules/sensors/sensors.service.ts:393-424 | after the INSERT, the SELECT finds no row iff some step takes the PENDING batch the project has by then and no later step opens or releases one |
| BatchGuarantees.NothingToSelect | src/modules/sensors/sensors.service.ts:393-424 | a reachable state in which UPDATE and INSERT leave the open batch alone, and a later one, its window closed and the batch claimed, with nothing to select |
| BatchGuarantees.ReadingsAreNeverOvercounted | src/modules/sensors/sensors.service.ts:223-244 | over every run no (device, timestamp, signature) is stored twice and readingCount never exceeds the stored readings of the batch |
| BatchGuarantees.ReadingsAreConservedIff | src/modules/oracle/oracle-processor.ts:352-358 | over every run readingCount equals the stored readings of the batch in every state iff no confirming save follows an insertion into its batch that came after its load |
| BatchGuarantees.SaveStaysCountedIff | src/modules/oracle/oracle.service.ts:458-464 | one whole-row save keeps the count right iff no reading of the batch was stored since the load |
| BatchGuarantees.StaleConfirmLosesAReading | src/modules/oracle/oracle-processor.ts:352-358 | a reachable state in which such a save makes a right count wrong |
| BatchGuarantees.ReplayChangesNothing | src/modules/sensors/sensors.service.ts:245-273 | resolving a batch and replaying a stored reading stores nothing and changes no count |
| BatchGuarantees.ConfirmedIsTerminal | src/modules/oracle/oracle-processor.ts:337-397 | over any continuation CONFIRMED is terminal and credits are set iff CONFIRMED |
| BatchGuarantees.CreditsAreWriteOnceIff | src/modules/oracle/oracle-processor.ts:337-397 | over every run credits never change once set iff no confirming save finds its batch CONFIRMED with other credits |
| BatchGuarantees.StaleConfirmRewritesCredits | src/modules/indexer/indexer.service.ts:407-424 | a reachable state in which a confirming save overwrites credits the indexer has set |
| BatchGuarantees.ClaimedBatchIsFrozen | src/modules/sensors/sensors.service.ts:364-391 | after its first claim no reading joins a batch, released or not, iff no ingestion that resolved it stores one after its window has closed |
| BatchGuarantees.TestedInsertionsFreeze | src/modules/sensors/sensors.service.ts:223-244 | so in every run whose insertions test the window every claimed batch is frozen |
| BatchGuarantees.FrozenIffTested | src/modules/sensors/sensors.service.ts:223-244 | claimed batches are frozen in every run iff insertions test the window |
| BatchGuarantees.LateReadingJoins | src/modules/sensors/sensors.service.ts:223-244 | a reachable state with a reading that resolved the open batch inside its window, and a later one in which the batch is claimed and that reading joins it |
| BatchGuarantees.ExpiredBatchesAreStranded | src/modules/sensors/sensors.service.ts:366-379 | resolveBatch strands a PENDING batch iff it is older than the window |
| BatchGuarantees.StrandedForever | src/modules/oracle/oracle-scheduler.service.ts:336-348 | a batch closed without a claim is never claimed or submitted in any continuation |
| ReadingBatches.StepKeepsInv | src/migrations/012_sensor_batch_unique_pending.sql:93-95 | every statement of ingestion, scheduler, processor, reconcile and indexer keeps index, history, credits and count bounds, stale saves included |
| ReadingBatches.ReleaseKeepsInv | src/modules/oracle/oracle-scheduler.service.ts:307-312 | a release makes a SUBMITTED batch PENDING again unless its project has a PENDING one; then it throws and changes neither batches nor history; the invariant is kept |
| ReadingBatches.MintKeepsInv | src/modules/indexer/indexer.service.ts:407-424 | the COALESCE update confirms exactly the open batches of the project and gives them the amount; no batch that has credits changes; the invariant is kept |
| BatchServices.Tables.ResolveBatch | src/modules/sensors/sensors.service.ts:364-424 | with anybody acting between its three statements, a legal run whose own steps close, insert unless present, and select a PENDING batch of the project, or find that there is none |
| BatchServices.Tables.CloseExpiredBatch | src/modules/sensors/sensors.service.ts:371-379 | the UPDATE makes exactly the PENDING batches of the project created before the cutoff SUBMITTED |
| BatchServices.Tables.OpenFreshBatch | src/modules/sensors/sensors.service.ts:384-392 | the INSERT adds an empty PENDING batch created now iff the project has none |
| BatchServices.Tables.InsertReading | src/modules/sensors/sensors.service.ts:223-244 | reading and counter change together or not at all |
| BatchServices.Tables.IngestReading | src/modules/sensors/sensors.service.ts:199-292 | with anybody acting between any two statements, a legal run whose own steps resolve and then insert; it ends with the reading stored exactly once, or fails because the SELECT found no batch |
| BatchServices.Tables.ConfirmSubmittedBatch | src/modules/oracle/oracle-processor.ts:337-397 | confirms exactly the submission's own batch if it was SUBMITTED at the lookup: a legal run whose own save writes the row as it was then |
| BatchServices.Tables.FindEligibleBatches | src/modules/oracle/oracle-scheduler.service.ts:336-348 | exactly the PENDING batches of the project with readings that are older than 15 minutes, oldest first |
| BatchServices.Tables.ClaimBatch | src/modules/oracle/oracle-scheduler.service.ts:278-290 | a claim succeeds iff the row is still PENDING, and then makes it SUBMITTED; otherwise nothing changes |
| BatchServices.Tables.ReleaseBatch | src/modules/oracle/oracle-scheduler.service.ts:307-312 | the release throws, changing nothing, iff the batch is still SUBMITTED and its project has another PENDING batch; otherwise a SUBMITTED one is PENDING again |
| BatchServices.Tables.SubmitProjectBatches | src/modules/oracle/oracle-scheduler.service.ts:265-329 | with interference the pass is a legal run; its own steps are, per listed batch in order, a lost claim, or claim and submission, or claim and release; the counters are the accepted and the released ones; only a throwing release ends the pass early and loses them |
| KeysetPagination.WalkAscends | src/common/pagination/keyset-paginator.ts:99-138 | with arbitrary inserts and deletes between pages the rows of a walk come strictly ordered, so none repeats |
| KeysetPagination.WalkIsInOrder | src/common/pagination/keyset-paginator.ts:60-74 | in terms of the columns: by sort column and then id, rising for ASC and falling for DESC, past the cursor |
| KeysetPagination.WalkCovers | src/common/pagination/keyset-paginator.ts:99-138 | a row past the start that is present at every fetch of a completed walk is returned |
| KeysetPagination.WalkIsSound | src/common/pagination/keyset-paginator.ts:99-138 | every returned row was in the table when its page was fetched |
| KeysetPagination.KeysetPageIsPage | src/common/pagination/keyset-paginator.ts:99-138 | in terms of the columns: a page holds rows past the cursor in order; every row past it that is left out comes after all of them, and there is one iff hasMore; then the page is full and the cursor is its last row |
| KeysetPagination.OffsetPageIsOffsetPage | src/common/pagination/keyset-paginator.ts:148-159 | in terms of the columns: an offset page follows (page - 1) * limit rows of the table in order, and every row on neither comes after both |
| KeysetPagination.KeysetPageIsOffsetPage | src/common/pagination/keyset-paginator.ts:99-159 | on a static table the keyset page that starts at row (page - 1) * limit is that offset page, and its cursor leads to the next one |
| KeysetPagination.WalkPagesAreOffsetPages | src/common/pagination/keyset-paginator.ts:99-159 | on a static table page k of the walk from the start is page k of offset mode |
| KeysetPagination.StaticWalkIsTheList | src/common/pagination/keyset-paginator.ts:99-138 | on a static table the pages concatenate to the sorted table and the walk completes |
| KeysetPagination.SortedUniquely | src/common/pagination/keyset-paginator.ts:60-74 | the (sort, id) order is total: a table is listed in exactly one way |
| KeysetPagination.OffsetRepeatsAfterInsert | src/common/pagination/keyset-paginator.ts:140-159 | offset mode repeats a row after one insert in front |
| KeysetPagination.QueryBuilder.GetMany | src/common/pagination/keyset-paginator.ts:124 | the rows in order of sort column and id, skipped and limited |
| KeysetPagination.PaginateKeyset | src/common/pagination/keyset-paginator.ts:99-138 | such a keyset page, newest first unless the list says otherwise |
| KeysetPagination.PaginateOffset | src/common/pagination/keyset-paginator.ts:148-159 | such an offset page with the total, newest first unless the list says otherwise |
| KeysetPagination.Paginate | src/common/pagination/keyset-paginator.ts:166-178 | a cursor selects a keyset page, otherwise an offset page; defaults 1, 20 and newest first |
| IndexerPaging.CursorIncreases | src/modules/indexer/indexer.service.ts:231-264 | each page starts right after its predecessor and ends no earlier than it starts, the first at the cursor and the last at the tip; each asks for 10000 ledgers or up to the tip |
| IndexerPaging.PageCountsUpTo | src/modules/indexer/indexer.service.ts:280-331 | a page counts up to the last event returned but not beyond its end, and to its end if nothing came back or the call failed |
| IndexerPaging.PollCovers | src/modules/indexer/indexer.service.ts:231-264 | with complete answers and no failed call every event from the old cursor to the tip is fetched |
| IndexerPaging.EverySavedCursorIsCovered | src/modules/indexer/indexer.service.ts:240-262 | at every saved cursor each archived event up to it was fetched or lies in a failed page |
| IndexerPaging.SkippedIsLost | src/modules/indexer/indexer.service.ts:280-331 | within a poll an event the cursor has passed is fetched by an earlier page or never |
| IndexerPaging.CoversIff | src/modules/indexer/indexer.service.ts:280-331 | a poll covers an archive iff every page, when the cursor moves past it, has its archived events in its own answer or an earlier one |
| IndexerPaging.MissedIsLost | src/modules/indexer/indexer.service.ts:173-271 | over any number of later polls, some of which throw, an event the saved cursor has passed is fetched iff that first poll fetched it |
| IndexerPaging.PassedIsNeverFetched | src/modules/indexer/indexer.service.ts:173-271 | no poll fetches an event at or below the cursor it starts from |
| IndexerPaging.CutAnswerLosesAnEvent | src/modules/indexer/indexer.service.ts:280-331 | an answer cut inside a ledger: the poll does not cover it, and the event is fetched by no later poll |
| IndexerPaging.IndexerService.PollRange | src/modules/indexer/indexer.service.ts:231-264 | the loop terminates and dispatches the pages in order, up to the one whose cursor save throws; the cursor is at the tip or after the last save that succeeded; exactly the recognised events fetched are dispatched, so every recognised archived event of the range if each page is served |
| IndexerPaging.IndexerService.DoPoll | src/modules/indexer/indexer.service.ts:173-271 | an unreachable node throws; cold start only seeds; caught up or unconfigured changes nothing; otherwise the range up to a save that throws |
| IndexerPaging.IndexerService.RunPollCycle | src/modules/indexer/indexer.service.ts:157-171 | an overlapping cycle does nothing; otherwise what the poll does in each of its cases, cold start included; the flag is restored whether or not it throws |
| IndexerPaging.IndexerService.ProcessEvents | src/modules/indexer/indexer.service.ts:335-347 | dispatches the recognised events, each as often as it occurs and in their order, and no other |
| IndexerPaging.RecognisedCounts | src/modules/indexer/indexer.service.ts:335-347 | an event is dispatched as often as it was fetched if it is recognised, and never otherwise |
| Governance.TalliesAreConservedIff | src/modules/governance/governance.service.ts:418-456 | over every run of API calls and indexed events the tallies equal the vote rows per support value in every state iff no save of a loaded proposal row follows a vote on it that came after the load |
| Governance.SaveBalancesIff | src/modules/indexer/indexer.service.ts:636-649 | one such save keeps the tallies right iff nobody has voted on the proposal since the load |
| Governance.OtherStepBalances | src/modules/governance/governance.service.ts:515-611 | every other step of both writers keeps them right |
| Governance.VotesAreNeverOvercounted | src/modules/indexer/indexer.service.ts:672-710 | over every run, stale saves included, no wallet votes twice on a proposal and no tally exceeds the vote rows |
| GovernanceDelivery.DeliveryIsNoOpIff | src/modules/indexer/indexer.service.ts:672-710 | delivering a vote changes nothing, whichever row with its on-chain id is found, iff every such row has the vote |
| GovernanceDelivery.EveryDeliveryProcessesIff | src/modules/indexer/indexer.service.ts:672-710 | afterwards every such row has the vote, whichever is found, iff there is at most one or all had it |
| GovernanceDelivery.SomeDeliveryProcessesIff | src/modules/indexer/indexer.service.ts:672-710 | for some choice of the row iff at most one lacked it |
| GovernanceDelivery.RedeliveryIsNoOpIff | src/modules/indexer/indexer.service.ts:672-710 | delivering any page of votes, in any order and number, changes nothing for every choice of rows iff each vote is on every row it may go to |
| GovernanceDelivery.OverlapIsHarmlessIff | src/modules/indexer/indexer.service.ts:672-710 | repeating votes of an earlier page changes nothing for every choice of rows iff each names at most one proposal or was on all of them before |
| GovernanceDelivery.RedeliveryCountsTwice | src/migrations/007_governance_vote_unique_on_chain_id.sql:55-58 | a reachable state with two proposals of one on-chain id, in which a vote delivered twice is counted on both |
| Governance.QuorumMatchesTurnout | src/modules/governance/governance.service.ts:112-135 | in percentage mode quorum is met iff the floored turnout reaches the threshold; the mode is exactly threshold > 0 and population > 0 |
| Governance.TurnoutIsEverybody | src/modules/governance/governance.service.ts:112-135 | votes for and against count alike: equal sums give equal quorums; with everybody voting turnout is 10000 basis points |
| Governance.QuorumCountsVoters | src/modules/governance/governance.service.ts:96-135 | along every run whose saves miss no vote, quorum is met iff enough wallets have voted on the proposal, in both modes |
| Governance.QuorumIsMonotone | src/modules/governance/governance.service.ts:112-135 | more votes or a smaller positive population never lose the quorum |
| GovernanceLifecycle.LifecycleIff | src/modules/governance/governance.service.ts:418-772 | over every API run each step moves each proposal along the state machine (votes one by one while ACTIVE, decided by majority or expired, PASSED to EXECUTED, nothing else) iff every save after a registration finds the row as it was loaded |
| GovernanceLifecycle.NeverActiveAgainIff | src/modules/governance/governance.service.ts:436-445 | over every run, indexer included, no proposal becomes ACTIVE again iff the second save of createProposal always finds it still ACTIVE |
| GovernanceLifecycle.ExecutedIsTerminalIff | src/modules/governance/governance.service.ts:727 | over every run EXECUTED is terminal iff no save after a registration finds its proposal EXECUTED |
| GovernanceLifecycle.PassedHasMajorityIff | src/modules/indexer/indexer.service.ts:672-710 | over every run, stale saves included, every PASSED proposal has a majority iff each first vote against that the indexer adds to a PASSED one meets a lead of more than one |
| GovernanceLocks.ConservedIffLocked | src/modules/governance/governance.service.ts:418-772 | no run breaks the tallies iff createProposal, executeProposal and the indexer lock the row from load to save |
| GovernanceLocks.MachineIffLocked | src/modules/governance/governance.service.ts:418-772 | no API run leaves the state machine iff createProposal and executeProposal do |
| GovernanceLocks.LockedSavesAreFresh | src/modules/governance/governance.service.ts:418-772 | a locked row is saved as it was loaded, with no vote missed, in every run |
| GovernanceLocks.UnlockedCreation | src/modules/governance/governance.service.ts:436-445 | a run in which the second save of createProposal loses a vote and makes a PASSED proposal ACTIVE |
| GovernanceLocks.UnlockedExecutionLosesAVote | src/modules/governance/governance.service.ts:718-728 | a run in which a second executeProposal loses a vote indexed since its load |
| GovernanceLocks.UnlockedExecutionUndoesExecuted | src/modules/governance/governance.service.ts:718-763 | a run in which a second executeProposal makes an EXECUTED proposal PASSED again |
| GovernanceLocks.UnlockedIndexing | src/modules/indexer/indexer.service.ts:636-649 | a run in which the proposal_executed handler loses a vote |
| GovernanceLifecycle.OutcomesAreEarned | src/modules/governance/governance.service.ts:658-763 | over API runs whose saves after a registration find the row as loaded: PASSED and EXECUTED imply a majority, REJECTED none, EXECUTED a call at or after deadline plus timelock with quorum met again |
| GovernanceLifecycle.SettledStaysSettled | src/modules/governance/governance.service.ts:531-609 | over such runs a proposal that left ACTIVE has frozen tallies and moves at most from PASSED to EXECUTED |
| GovernanceLifecycle.DecidedByQuorum | src/modules/governance/governance.service.ts:585-609 | over such runs a proposal is decided only by a vote in time after which the quorum of that moment was met, and its tallies are still those |
| GovernanceLifecycle.QuorumDecidesForGood | src/modules/governance/governance.service.ts:585-609 | over such runs the accepted vote that meets the quorum fixes outcome and tallies for good |
| GovernanceLifecycle.NoVoteAfterDeadline | src/modules/governance/governance.service.ts:531-550 | over such runs votes after the deadline change no tally and decide nothing |
| GovernanceService.GovernanceService.CastVote | src/modules/governance/governance.service.ts:515-647 | refused exactly for unknown proposals, for inactive or expired ones and for wallets that have voted, changing nothing; otherwise one row, one more on its side, and PASSED or REJECTED by the majority iff turnout reaches the threshold |
| GovernanceService.GovernanceService.OnGovernanceVoteCast | src/modules/indexer/indexer.service.ts:672-710 | finds any row with the on-chain id, none, one or several, and adds row and counter there unless the wallet has voted on it |
| GovernanceService.GovernanceService.CreateProposal | src/modules/governance/governance.service.ts:418-456 | with anybody acting during the chain call, a legal run whose own steps insert the row and, if registered, save all of it again as it was inserted; the row is in the table at the end |
| GovernanceService.GovernanceService.GetProposalById | src/modules/governance/governance.service.ts:776-793 | an ACTIVE proposal becomes EXPIRED iff its deadline lies in the past; nothing else changes |
| GovernanceService.GovernanceService.CheckExecutable | src/modules/governance/governance.service.ts:658-700 | which check refuses an execution, each under exactly its condition |
| GovernanceService.GovernanceService.ExecuteProposal | src/modules/governance/governance.service.ts:658-772 | with anybody acting between its I/O steps, a legal run whose own steps are: expire, go on iff the loaded row has passed, its timelock is over and its quorum still met, register and save the loaded row, write EXECUTED only after the chain call succeeded; the answer names the check that failed |
| GovernanceService.GovernanceService.OnGovernanceProposalExecuted | src/modules/indexer/indexer.service.ts:629-650 | finds a row with the on-chain id if there is one, else a PASSED one if there is one; with anybody acting before the save, a legal run whose own save writes the loaded row, EXECUTED and with that id, unless it was EXECUTED already |
| ConfigTimelock.WritesAreEarned | src/modules/governance/governance.service.ts:155-385 | over every run, with cancels, passes and emergency updates interleaved at will: no change is written twice, each write has the values of its change, a scheduled one not before the timelock in force at its proposal has passed; nothing PENDING is written, everything APPLIED is |
| ConfigTimelock.TimelockIsServed | src/modules/governance/governance.service.ts:155-385 | over every run each write to the live config stems from an emergency update, or from a proposal of the same values made at least the timelock earlier that the live config held when it was made |
| ConfigTimelock.DecidedIsFinalIff | src/modules/governance/governance.service.ts:211-235 | over every run a change that left PENDING never changes again, and a CANCELLED one was never written, iff no cancellation is saved over a change applied since its load |
| ConfigTimelock.ConfigFollowsLogIff | src/modules/governance/governance.service.ts:242-385 | over every run the live config is the initial one overlaid by the writes in order iff every save of it finds the fields it does not set as they were loaded |
| ConfigTimelock.FinalIffGuarded | src/modules/governance/governance.service.ts:211-235 | decisions are final and cancelled changes unwritten in all runs iff the save of a cancellation tests that the row is still PENDING; a run shows the failure |
| ConfigTimelock.NoWriteLostIffGuarded | src/modules/governance/governance.service.ts:242-385 | no run loses a write to the live config iff its saves test that it is as loaded; two emergency updates show the failure |
| ConfigService.LastWriterWins | src/modules/governance/governance.service.ts:300-319 | after the transactions of a pass each field has the value of the last applied change naming it in effectiveAt order, or its old value |
| ConfigService.PassIsARun | src/modules/governance/governance.service.ts:300-319 | with no other transaction open on a due change, the transactions of a pass, none skipped, are a run of their own, which leaves that configuration and marks exactly the changes it applied |
| ConfigService.PassAlone | src/modules/governance/governance.service.ts:300-319 | a pass that runs with no step of anybody else in between skips none, and ends with that configuration and those marks |
| ConfigService.RunReopensNothing | src/modules/governance/governance.service.ts:329-338 | over every run no change leaves the table and none that was decided becomes PENDING |
| ConfigService.ConfigService.ProposeConfigChange | src/modules/governance/governance.service.ts:155-197 | a PENDING change with these values, due the TimelockPeriod of the live config from now; refused without fields; no other row changes |
| ConfigService.ConfigService.CancelConfigChange | src/modules/governance/governance.service.ts:211-235 | with anybody acting in between, a legal run whose own save writes the loaded row as CANCELLED iff it was PENDING at the load |
| ConfigService.ConfigService.EmergencyConfigUpdate | src/modules/governance/governance.service.ts:242-291 | for a super admin with fields only: a legal run whose own steps record the change and save the config it loaded with the fields set |
| ConfigService.ConfigService.FindDue | src/modules/governance/governance.service.ts:301-307 | exactly the PENDING changes due by now, by effectiveAt |
| ConfigService.ConfigService.ApplyLocked | src/modules/governance/governance.service.ts:321-385 | with the row locked: skipped iff no longer PENDING, rolled back on failure, otherwise the config is written and the row APPLIED together |
| ConfigService.ConfigService.ApplyDueConfigChanges | src/modules/governance/governance.service.ts:300-319 | with anybody acting between any two statements, a legal run whose own steps are one transaction per due change in order: skipped only if decided meanwhile, rolled back only by its own failure, otherwise committed; a failure blocks no other |
| RateLimiter.IntervalBound | src/modules/auth/guards/rate-limit.guard.ts:27-33 | over every trace with a monotone clock an interval of one window length holds at most 2 * max - 1 admitted requests of a key |
| RateLimiter.WindowAdmitsItsFirst | src/modules/auth/guards/rate-limit.guard.ts:52-59 | a counter window admits exactly its first max requests |
| RateLimiter.WindowsAreApart | src/modules/auth/guards/rate-limit.guard.ts:27-33 | window starts of a key are at least windowMs apart |
| RateLimiter.BoundIsReached | src/modules/auth/guards/rate-limit.guard.ts:27-33 | a trace that reaches 2 * max - 1 |
| RateLimiter.SlidesIffOne | src/modules/auth/guards/rate-limit.guard.ts:21-26 | the sliding-window promise holds iff max is at most 1 |
| RateLimiter.RateLimitGuard.Eval | src/modules/auth/guards/rate-limit.guard.ts:27-33 | one more in a live window, or 1 in a window that begins now; an expiry is never prolonged |
| RateLimiter.RateLimitGuard.CanActivate | src/modules/auth/guards/rate-limit.guard.ts:40-69 | unlimited routes and a Redis that is down admit and count nothing; otherwise admitted iff the count is within the limit; the bound holds at all times |
| ApiKeys.ParseInvertsPrint | src/common/guards/api-key.guard.ts:82-88 | the guard parses a key to (device, secret) iff it is their printed form and the secret has no underscore |
| ApiKeys.ParseUndoesPrint | src/common/utils/api-key.util.ts:13-21 | device ids with underscores survive the round trip |
| ApiKeys.SecretsAgree | src/common/utils/api-key.util.ts:27-34 | verifier and guard extract the same secret; the guard also demands the prefix |
| ApiKeys.AcceptedIffPrinted | src/common/guards/api-key.guard.ts:74-130 | a device is authenticated iff the key was printed for it with a matching secret and the body names no other device |
| ApiKeys.VerdictsAreExact | src/common/guards/api-key.guard.ts:74-90 | a key is called missing iff it is empty and malformed iff it is not printed from any device and underscore-free secret |
| ApiKeys.PrintedVerdicts | src/common/guards/api-key.guard.ts:92-130 | the refusal of a printed key: unknown device, no hash, other secret, other device in the body, in that order |
| ReadingPayload.BuildReadingPayload | src/modules/sensors/sensors.service.ts:33-52 | the loop yields device id, timestamp and the seven values in the order signed, each spelled out |
| ReadingPayload.PayloadDetermines | src/modules/sensors/sensors.service.ts:33-52 | for all inputs equal payloads iff equal values, null and absent identified, and equal device id joined to timestamp |
| ReadingPayload.UnambiguousIffFree | src/modules/sensors/sensors.service.ts:38 | device id and timestamp are determined iff neither contains the separator |
| ReadingPayload.PayloadIsInjective | src/modules/sensors/sensors.service.ts:33-52 | injective on separator-free fields |
| CertificateNumbers.ValueIsRecoverable | src/modules/credits/certificate.service.ts:102-108 | the sequence value is recovered from every number, for blocks of any size |
| CertificateNumbers.FormatIsInjective | src/modules/credits/certificate.service.ts:102-108 | numbers are equal iff year and value are |
| CertificateNumbers.GroupsAre | src/modules/credits/certificate.service.ts:102-108 | every number splits into WQC, the year, a block of at least three digits and a serial of four, with their values |
| CertificateNumbers.AscendingIffThreeDigitBlocks | src/modules/credits/certificate.service.ts:85-93 | within a year the strings ascend up to a value iff it is below ten million |
| CertificateNumbers.CertificateService.GenerateCertificateNumber | src/modules/credits/certificate.service.ts:94-109 | every number issued is new, whatever the years |
| CreditScoring.CreditBounds | src/modules/oracle/credit-scoring.service.ts:20-87 | credits lie between 0 and (sum of weights) * area for every snapshot |
| CreditScoring.CreditsAreMonotone | src/modules/oracle/credit-scoring.service.ts:20-87 | non-decreasing in flow, non-increasing in nitrogen, phosphorus, temperature and pH deviation |
| CreditScoring.PhDeviationIsDistance | src/modules/oracle/credit-scoring.service.ts:63-69 | the pH deviation is the distance to the band |
| CreditScoring.FullAwardIffFlawless | src/modules/oracle/credit-scoring.service.ts:50-87 | the bound is reached exactly by full flow, no nitrogen, no phosphorus and no penalty |
| CreditScoring.EntriesSetTheirReadings | src/modules/oracle/credit-scoring.service.ts:25-40 | each snapshot entry sets the reading it names and no other; flow_rate counts only while flowRate is absent or null |
| CreditScoring.NitrogenHasItsPrice | src/modules/oracle/credit-scoring.service.ts:43-61 | while the penalty is covered, each unit less of nitrogen between 10 and 0 earns a tenth of its weight per hectare |
| CreditScoring.PhosphorusHasItsPrice | src/modules/oracle/credit-scoring.service.ts:43-61 | likewise phosphorus |
| CreditScoring.FlowHasItsPrice | src/modules/oracle/credit-scoring.service.ts:43-56 | while the penalty is covered, flow between 0 and 1 earns its weight per hectare and unit |
| CreditScoring.NutrientsEnd | src/modules/oracle/credit-scoring.service.ts:43-46 | nutrients below 0 or above 10 earn no more and no less |
| CreditScoring.FlowEnds | src/modules/oracle/credit-scoring.service.ts:49-51 | nor does flow below 0 or above 1 |
| CreditScoring.AcidityHasItsPrice | src/modules/oracle/credit-scoring.service.ts:59-83 | while covered, pH outside its band costs one point of score per hectare and unit |
| CreditScoring.HeatHasItsPrice | src/modules/oracle/credit-scoring.service.ts:70-83 | so does heat above its limit |
| CreditScoring.MildHeatIsFree | src/modules/oracle/credit-scoring.service.ts:70-74 | heat up to its limit, or without one, costs nothing |
| CreditScoring.MissingPhForfeits | src/modules/oracle/credit-scoring.service.ts:25-40 | a pH read as 0 earns nothing once the band starts at or above the sum of weights |
| Strings.SplitUndoesJoin | src/common/guards/api-key.guard.ts:82-87 | split recovers separator-free parts |
| Strings.JoinUndoesSplit | src/common/guards/api-key.guard.ts:82-87 | join recovers the string |

## Left out

- Late acknowledgements by hash: a reported success is allowed for any landed transaction of the submission at its nonce, which over-approximates the lookup by transaction hash.
- On-chain nonce reads in a sweep return any earlier value; a job's own read is taken as current.
- Transaction expiry is an action that may happen at any time, not the 30 second bound.
- Columns `tx_hash` and `result`, drift metrics and notifications of the oracle pipeline.
- The mapping from snapshot to contract arguments in `mapSnapshotToPayload`: only whether it succeeds.
- Chain rollback inside the oracle protocol: the chain is append-only there, and the renumber loop after a rollback is proved on a quiet table in `OracleReconcile.dfy`.
- Interference between the two loops of reconcile in `OracleReconcile.SubmissionTable.Reconcile`; racing sweeps are actions of the protocol.
- Chain rollback between the two nonce reads of `reconcile`.
- OracleReconcile.SubmissionTable.Reconcile: rows of one project only, because with several projects the stale list is no longer strictly ascending.
- One clock for application and database.
- `runSubmissionCycle` around `submitProjectBatches`: the overlap flag, the project loop and the miss counter.
- Aggregation of readings (SQL medians) and the alerts after ingestion; `validateTimestamp`, `validateParameters` and the signature check come before the modelled part.
- Minted-credit totals: one mint event confirms every open batch of the project, so totals through the indexer are not conserved.
- Registration and execution calls on chain: their answers are parameters. Audit events. The governance config a call reads is a parameter of the call, and `createProposal` takes the deadline.
- `getProposalById` and its expiry update are one step, and so is `proposeConfigChange`: its read of the timelock and its insert.
- Lookup and insert of an indexed vote are one step, and the fallback lookup of an executed proposal returns any PASSED one, not the newest.
- Column-level validation of config values.
- How events are decoded and what their handlers do: an event is recognised or not; errors of handlers are swallowed by dispatch.
- Events of ledgers that the node no longer keeps.
- Sub-millisecond sort keys, cursor encoding and the column names of pagination; keys are immutable integers.
- Request keys combine address and handler name; all requests of a key are taken to carry the same limit. Redis restarts and evictions are not modelled.
- bcrypt is a function of the secret; timing equalisation is not modelled.
- Sequence values beyond 2^53, where the service loses precision.
- Binary floating point and NaN in the credit formula.
- Retirements, authentication, portfolio sums, project status, analytics and the HTTP layer: simpler or I/O.
