# aicortex, modelled and verified

A Dafny model of aicortex's governed memory store and of the algorithms around it. What is proved
here is about the model; the model takes the branches, the guards, the constants and the order of
the statements of the Rust sources cited below.

## What is modelled

**The store as a step system** (`store_*.dfy`, `succession.dfy`). The tables are one value, `Db`. An
SQL statement is a value of `Statement`; running one yields the next tables with the number of rows
it changed, or aborts where a NOT NULL, unique or foreign-key constraint is violated. A transaction
is a list of statements: all of it or none.

Every operation reads first, stages a list, and commits later. A *run* is a sequence of states in
which each step is one commit whose requests were staged from readings of **any** earlier states,
each reading from a state of its own. Captures, merges, supersessions, deadlines, expiry, redigests,
worker commits, re-embedding, activation, dropping a revision, erasures and scope erasures interleave
without restriction, any number of runners at once, and a runner may stop between any two of its
commits (its remaining requests then never appear). No lease is assumed. Two things are recorded
beside the tables to state what is promised: the Decisions in the ledger, and for each erasure
operation the rows that vanished while it committed, counted on the tables and not by the journal.

The central invariant says that every state is well kept, that nothing hangs on an erased memory,
that work is queued under recorded models only, that the journal adds up to what really vanished, and
that each state follows every earlier one. It holds in every state of every run (`StoreRuns.RunKeeps`); the
theorems about whole runs follow from it.

`store_engine.dfy` and `store_lifecycle.dfy` hold the code that builds these statement lists, as
loops pushing onto a transaction under construction, each proved to produce exactly the list the
theorems are about; the drain loop is run against a store object until the scope is empty.

**Claims as of a moment** (`claim_*.dfy`, apart from admission and time). The append-only history as
a class; the projection as definitions (which claims win a slot) with theorems about them; and the
projection as it runs, loop by loop, proved to compute exactly those definitions and to fail exactly
where they do. How a civil time maps to an interval of seconds is a parameter: any function.

**Paged top-k scan** (`scan.dfy`), **chunking** (`chunker.dfy`), **WordPiece** (`wordpiece.dfy`),
**gate normalization** (`normalize.dfy`), **civil dates and times** (`claim_time.dfy`),
**the fixed-point norm check and vector bytes** (`norm.dfy`), **claim admission**
(`closed_walk.dfy`, `claim_admission*.dfy`) and **predicate registries**
(`predicate_registry.dfy`, `predicate_rebuild.dfy`). Each states the result it is for without naming
the algorithm, and proves the algorithm against that.

Parameters stand for what is outside: Unicode composition (with four properties of normalization
form C of UAX #15, listed at `ComposesLikeNFC`), white-space and punctuation classes, time-zone
resolution, the scores of a scan (integers in a total order), credential detectors, and the clock.
Binary32 numbers are read as section 3.4 of IEEE 754-2019 says, UTF-8 as section 3 of RFC 3629 says,
and civil dates are the calendar of section 5.2.2 of ISO 8601-1:2019.

## What turned out false, and when it holds

Each is a result: the input is a run or a value given by a lemma, and another lemma says exactly when
the code does meet the property.

- Counters. In a state of a run every counter is the number of its rows if and only if no erasure
  committed before it named its own target twice (`StoreAgreement.CountersAgreeIff`). That never happens
  where no capture derives a memory from itself (`StoreAgreement.CountersAgree`); but a capture may, and a
  cascade over such a memory commits and miscounts (`StoreWitness.SelfDerivationMiscounts`).
- Embedding coverage. After a finished re-embedding pass, while its revision is active, a live memory has
  neither work nor vectors at it if and only if it was quarantined and had none when the pass began, a
  supersession has released it since, and nothing committed since has given it any
  (`StoreCoverage.PassUncoversIff`). `StoreWitness.CorrectionUncovers` is such a run.
- Finished work. Work finished at the active revision for a live memory left vectors, unless a worker
  finished it whose own number had come to be active under another model, and none has embedded the memory
  at that revision (`StoreCompletion.FinishedIsBareIff`). That cannot happen to a worker whose number was recorded when
  it began (`StoreCompletion.CompletedIsEmbedded`); `StoreWitness.MistakenWorkerLeavesNothing` is a run in
  which it does.
- Scope erasure. Asked for again, it looks at memories and keys and not at claims:
  `StoreReplay.ReplayOverlooksClaims` says exactly when it starts nothing, over any run and any readings, and
  that the claims it may leave were all recorded since the scope was emptied.
  `StoreWitness.ClaimAloneIsOverlooked` is a run from empty tables that leaves one.
- Expiry. The commit does not look at deadlines again. It expires a memory that is no longer due if and
  only if the batch names it, it is still active, and the last deadline committed for it since the due
  memories were read is open or later (`StoreDeadlines.DeadlineNotRechecked`).
  `StoreWitness.ClearedDeadlineExpires` is such a run.
- Source order is not transitive when only some of the claims compared carry a revision, and relations
  may supersede in a circle; both leave a slot with an empty value (`ClaimTheorems.MixedRevisionsLoseAll`,
  `ClaimTheorems.MutualSupersessionLosesAll`). A slot with a standing claim has no winner if and only if its
  claims supersede each other without exception, or those with a revision and those without overtake each
  other (`ClaimTheorems.SlotLosesAllIff`); so it has one where relations point back in time and revisions
  are given uniformly (`ClaimTheorems.SlotHasWinner`).
- The error a registry rebuild reports depends on the order of its documents
  (`PredicateRegistry.ReportedErrorDependsOnOrder`); whether it reports one does not. The report is the same
  in every order if and only if the documents at the first key that cannot be rebuilt past would be
  refused alike, each offered first (`RebuildErrors.ReportIndependentIff`); so it is wherever no two
  different documents claim one version (`RebuildErrors.OneEachReportsAlike`).

One limit is no contradiction, but worth knowing: a claim stays valid at the version it names, and
re-addressed to a later version it may not be. `PredicateRegistry.ClaimSurvivesIff` says exactly when it is,
and `PredicateRegistry.FirstUnitStrandsNumbers` shows an accepted change under which it is not.

## Model

| member | source | states |
|---|---|---|
| StoreRuns.RunKeeps | crates/aicortex-store/src/lifecycle.rs:112-163 | Every state of every run, whatever was stale when it was staged, satisfies the whole invariant and follows every earlier state: erased stays erased, no quarantine comes back, revisions keep their meaning, coverage at the active revision is kept, settled totals stay. |
| StoreTheorems.ErasedLeavesNothing | crates/aicortex-store/src/erasure.rs:496-614 | Once a memory is erased, in that and every later state it is erased and blank, and no chunk, vector, provenance, derivation as a child, source, memory-linked key, work item or attempt names it. |
| StoreTheorems.SupersessionAcyclic | crates/aicortex-store/src/lifecycle.rs:139-148 | No reachable state has a supersession cycle, although several supersessions may be staged on one stale state and committed in any order. |
| StoreTheorems.ContentHeldOnce | crates/aicortex-store/src/migrations.rs:131-169 | Two memories that exist and carry one fingerprint are one memory, in every reachable state. |
| StoreTheorems.RegistryStands | crates/aicortex-embed/src/registry.rs:115-159 | A registry with any revision has exactly one active, the highest recorded; the active number never falls; a recorded revision never changes its identity. |
| StoreCompletion.FinishedIsBareIff | crates/aicortex-embed/src/worker.rs:426-470 | Work finished at the revision that is active, in any reachable state, is for a memory that is there; and it left no vectors for it if and only if a worker finished it that found its own number active under another model, and no worker has embedded the memory at that revision. |
| StoreCompletion.CompletedIsEmbedded | crates/aicortex-embed/src/worker.rs:303-345 | Where every worker that completes without vectors began when a model was recorded under its number, work finished at the active revision left vectors. |
| StoreCompletion.VectorsAreEmbedded | crates/aicortex-embed/src/worker.rs:531-600 | A memory that is there has vectors at the active revision if and only if a worker's commit put some there. |
| StoreWitness.MistakenWorkerLeavesNothing | crates/aicortex-embed/src/worker.rs:426-442 | A run: a worker bound to an unrecorded model begins, its number is recorded for another model and activated, and the worker then finishes work of that model without vectors. |
| StoreTheorems.PassCovers | crates/aicortex-embed/src/worker.rs:925-1001 | After a pass for the active revision ended with nothing more, and for as long as that revision stays active, every live memory has work or a vector at it, or was quarantined and had neither when the pass began. |
| StoreCoverage.PassUncoversIff | crates/aicortex-embed/src/worker.rs:925-1001 | After such a pass a memory that is there is live and without work and vectors at the revision if and only if it was quarantined and without them when the pass began, a supersession of it has committed since, and no commit since staged any for it. |
| StoreCoverage.EffectsCover | crates/aicortex-store/src/lifecycle.rs:232-300 | A transaction in which some request stages work or vectors for a memory at the active revision, and which commits, leaves the memory covered, whatever else it does and however stale its readings. |
| StoreTheorems.SupersessionMoves | crates/aicortex-store/src/lifecycle.rs:320-386 | A supersession that commits, however old its reading, leaves the memory superseded by its heir and brings no work and no vector. |
| StoreWitness.CorrectionUncovers | crates/aicortex-store/src/lifecycle.rs:320-386 | A run: a quarantined memory, a model activated, a pass that ends with nothing to do, and a correction of the memory; it is live, and neither queued nor embedded. |
| StoreTheorems.ActivationRace | crates/aicortex-embed/src/activation.rs:40-83 | If the commit of an activation stands after a stale reading of the latest number and of the active model, its number means its own model and is active; either nothing changed, or the number is new and another model was active until then. |
| StoreAgreement.CountersAgreeIff | crates/aicortex-store/src/counters.rs:1-73 | In a state of any run every counter is the number of rows of its kind and status if and only if no erasure committed before that state listed its own target among the memories derived from it and found it alive. |
| StoreAgreement.CountersAgree | crates/aicortex-store/src/counters.rs:1-73 | In every state of a run in which no capture derives a memory from itself, every counter is the number of rows of its kind and status. |
| StoreAgreement.DriftLasts | crates/aicortex-store/src/erasure.rs:347-361 | No commit brings the counter of erased memories of a kind nearer to its rows once it runs ahead. |
| StoreWitness.SelfDerivationMiscounts | crates/aicortex-store/src/erasure.rs:518-528 | A run: a capture names itself as a parent, a cascading erasure of it commits, and some counter is not the number of its rows. |
| StoreAgreement.ClampNeverFires | crates/aicortex-store/src/counters.rs:51-54 | As long as no erasure has named its target twice, no counter statement of any committed request would go below zero where it runs, at whatever place in its transaction. |
| StoreScope.ReadyOnlyWhenEmpty | crates/aicortex-store/src/erasure.rs:830-906 | A scope operation becomes ready only by a commit of its own drain, which leaves no live memory, no live claim and no digest key. |
| StoreScope.LedgerIsFinal | crates/aicortex-store/src/erasure.rs:985-1037 | A Decision in the ledger belongs to an operation that was ready, is never replaced, and carries the rows that operation destroyed and its number of batches, then and in every later state. |
| StoreScope.DrainIsTallied | crates/aicortex-store/src/erasure.rs:1162-1206 | A drain that commits adds to its own operation exactly the rows that vanish between the two states. |
| StoreScope.ErasureIsTallied | crates/aicortex-store/src/erasure.rs:496-614 | The erasure of one memory starts and settles its operation in one commit, and its totals are the rows that vanish in it. |
| StoreScope.SettledNeverDrains | crates/aicortex-store/src/erasure.rs:875-880 | An operation that drains was settled in no earlier state, so a completed operation destroys nothing that came after it. |
| StoreScope.StartsOverDelivered | crates/aicortex-store/src/erasure.rs:755-800 | A new scope operation starts only where there was no receipt, or one that is ready, delivered and in the ledger. |
| StoreReplay.ReplayOverlooksClaims | crates/aicortex-store/src/erasure.rs:755-771 | In any run, a request that read a delivered receipt, the memories and the keys, each at any moment, starts no operation exactly when it found no memory and no key; and every claim alive in any state since the delivered operation became ready was recorded since that commit, which left the scope empty. |
| StoreReplay.MadeReady | crates/aicortex-store/src/erasure.rs:830-906 | Every ready operation was made ready by one commit, by which it stopped draining and which left the scope empty. |
| StoreWitness.ClaimAloneIsOverlooked | crates/aicortex-store/src/erasure.rs:755-771 | A run: a scope is erased, its Decision appended and its receipt delivered, a claim is recorded, and no new operation may start on that reading. |
| StoreScope.BatchNeverAborts | crates/aicortex-store/src/erasure.rs:1060-1079 | An erasure batch violates no constraint in any state, whatever its shells: vectors go before the chunks they refer to. |
| StoreScope.DrainCommitsAlways | crates/aicortex-store/src/erasure.rs:830-906 | A drain of an operation that is still draining always commits, however old its batch. |
| StoreEngine.DrainScope | crates/aicortex-store/src/erasure.rs:803-814 | Without new writes a scope of n memories is drained in as many commits as batches of the bounded size are needed, each leaving one journal row; the scope is then empty and its receipt ready. |
| StoreEngine.RoundsIsCeiling | crates/aicortex-store/src/erasure.rs:83-84 | The number of commits is n over the bounded batch size, rounded up. |
| StoreEngine.Store.DrainOneBatch | crates/aicortex-store/src/erasure.rs:830-906 | One drain of fresh content takes min(n, batch, 200) memories, journals what vanished, and reports done exactly when the scope is empty. |
| StoreEngine.Store.Txn | crates/aicortex-store/src/erasure.rs:870-906 | All the lines run, or nothing changes. |
| StoreEngine.StageErasure | crates/aicortex-store/src/erasure.rs:496-614 | The loops that stage an erasure build exactly the transaction the theorems are about. |
| StoreEngine.StageDrain | crates/aicortex-store/src/erasure.rs:830-900 | The same for a drain. |
| StoreEngine.StageSweep | crates/aicortex-store/src/erasure.rs:1060-1079 | One deletion per swept table per shell, and the span they occupy. |
| StoreEngine.StageTombstones | crates/aicortex-store/src/erasure.rs:1320-1354 | All counter moves first, then all tombstones; the span is the tombstones'. |
| StoreEngine.StageQueue | crates/aicortex-store/src/erasure.rs:1122-1149 | Attempts before work, per shell, and the span. |
| StoreEngine.Account | crates/aicortex-store/src/erasure.rs:1162-1206 | The accounting loop interleaves one journal update after each counted statement, between opening and closing the row. |
| StoreAccounting.AccountedRuns | crates/aicortex-store/src/erasure.rs:1151-1206 | An accounted batch does to the tables what the bare batch does, aborts exactly when it does, and leaves one journal row equal to the difference of the tables before and after, or none if nothing went. |
| StoreAccounting.BatchMovesTotals | crates/aicortex-store/src/erasure.rs:415-425 | A batch moves the totals read for its own operation by exactly what went, and no other operation's. |
| StoreErasing.EraseRuns | crates/aicortex-store/src/erasure.rs:496-614 | An erasure commits only for a memory that is still there and has no receipt; then the receipt is ready and the journal says what went. |
| StoreScope.EraseCommitsIff | crates/aicortex-store/src/erasure.rs:496-614 | And it commits whenever that holds, whatever its shells. |
| StoreErasing.DrainRuns | crates/aicortex-store/src/erasure.rs:875-900 | A drain commits only while its operation is still draining, and makes it ready exactly when it leaves the scope empty. |
| StoreErasing.BatchKeeps | crates/aicortex-store/src/erasure.rs:342-372 | An erasure batch keeps the invariant however stale its shells are. |
| StoreErasing.ShellsAtNames | crates/aicortex-store/src/erasure.rs:518-528 | The shells of a cascade are the listed memories that were still there when each was looked up, each once when each was listed once. |
| StoreBalance.BatchKeepsBalance | crates/aicortex-store/src/erasure.rs:347-361 | An erasure whose shells name each memory once keeps every counter equal to its rows and never clamps, whatever committed since the shells were read. |
| StoreBalance.CascadeBalancesIff | crates/aicortex-store/src/erasure.rs:518-528 | A cascading erasure keeps counters and rows in agreement if and only if the memory is not recorded as derived from itself. |
| StoreCounters.RepeatedShellUnbalances | crates/aicortex-store/src/erasure.rs:347-361 | A live memory named twice in one batch always breaks the agreement. |
| StoreBalance.SupersedeBalances | crates/aicortex-store/src/lifecycle.rs:372-384 | A supersession that commits moves its unit from the bucket the row is really in, however old the reading. |
| StoreBalance.InsertBalances | crates/aicortex-store/src/memory_repo.rs:263-326 | A capture's insert keeps the counters equal to the rows. |
| StoreCounters.ExpiryBalances | crates/aicortex-store/src/lifecycle.rs:803-856 | An expiry batch runs and keeps the agreement whatever moved since its due memories were read. |
| StoreInvariants.ExecKeeps | crates/aicortex-store/src/migrations.rs:131-169 | Every statement that runs keeps kinds and columns in step, fingerprints unique, links acyclic, one active revision, key references valid, and moves no row backwards. |
| Succession.SuccessorsAreReachable | crates/aicortex-store/src/lifecycle.rs:139-148 | The recursive query of the committing statement answers reachability, on cyclic tables too, and ends. |
| Succession.LinkKeepsAcyclic | crates/aicortex-store/src/lifecycle.rs:139-148 | Writing the link keeps the table acyclic if and only if the prior is not among the heir's successors: the guard is exactly what is needed. |
| StoreLifecycle.WalkAgreesWithGuard | crates/aicortex-store/src/lifecycle.rs:334-350 | On one state the walk before staging refuses for a cycle only where the guard would, and clears only where the guard would pass. |
| StoreLifecycle.CheckChain | crates/aicortex-store/src/lifecycle.rs:334-350 | The successor walk as a loop computes that verdict, giving up after 10000 steps. |
| StoreOperations.CaptureKeeps | crates/aicortex-store/src/lifecycle.rs:232-300 | A capture, inserting or merging, commits only where it leaves nothing hanging on an erased memory and nothing uncovered beside an active model, whatever happened since its three readings and in whatever order they came. |
| StoreOperations.EmbeddingCovers | crates/aicortex-store/src/embedding_memory.rs:212-330 | If a capture's embedding statements committed, the revision active at the commit has work for the memory. |
| StoreLifecycle.MergeInto | crates/aicortex-store/src/lifecycle.rs:715-729 | Folding a repeat into its row: one more use up to the bound, the later date, a title if there was none, and the media that were missing, in order. |
| StoreLifecycle.UnseenCompletes | crates/aicortex-store/src/lifecycle.rs:715-729 | After a merge every medium of both is there, and none twice if none was. |
| StoreLifecycle.MergeAgain | crates/aicortex-store/src/lifecycle.rs:715-729 | Merging the same repeat again changes no content, and a merge never changes the text or the parents. |
| StoreLifecycle.StageExpiry | crates/aicortex-store/src/lifecycle.rs:803-856 | The fenced batch: counters of each kind first, then the rows they counted. |
| StoreDeadlines.DeadlineNotRechecked | crates/aicortex-store/src/lifecycle.rs:560-635 | An expiry commit expires a memory that is no longer due if and only if the batch names it, it is still active, and the last deadline committed for it between the due reading and the commit is open or later than the moment of the pass. |
| StoreDeadlines.DeadlineFollows | crates/aicortex-store/src/lifecycle.rs:560-635 | In any later state of a run a memory that is still there has the deadline last committed for it, and otherwise the one it had. |
| StoreWitness.ClearedDeadlineExpires | crates/aicortex-store/src/lifecycle.rs:803-856 | A run: a memory is due when read, its deadline is cleared, and the expiry then expires it. |
| StoreLifecycle.StageRedigest | crates/aicortex-store/src/lifecycle.rs:637-695 | One bounded batch of rows whose digest is missing, lowest ids first. |
| StoreLifecycle.StageReembedding | crates/aicortex-embed/src/worker.rs:950-1001 | A batch stages guard, guard and work for the first missing memories after the cursor; the cursor becomes the last of them; `more` says whether more than the limit were missing. |
| StoreLifecycle.StageVectors | crates/aicortex-embed/src/worker.rs:531-600 | The worker's transaction: two guards, two deletions, then a chunk and its vector in turn, then completion. |
| StoreDerivatives.WorkerReplaces | crates/aicortex-embed/src/worker.rs:531-601 | A worker's commit is a replacement: the old rows of that memory at that revision are gone, the new ones are there, and no other row moved. |
| StoreDerivatives.WorkerKeeps | crates/aicortex-embed/src/worker.rs:812-834 | A worker's commit keeps the invariant: the memory was live and the identity active. |
| StoreDerivatives.MootStaysMoot | crates/aicortex-embed/src/worker.rs:610-655 | An item completed without vectors, on a reading in which the memory was gone or the active model was not the worker's, is beyond use in every later state, unless that reading showed the worker's number active under another model. |
| StoreDerivatives.StrangeWasUnrecorded | crates/aicortex-embed/src/worker.rs:330-345 | A worker that passed the check before claiming finds its number active under another model only if nothing was recorded under that number at the check. |
| StoreDerivatives.ReembedKeeps | crates/aicortex-embed/src/worker.rs:898-907 | A committed re-embedding batch covers every memory it names, whatever was read. |
| StoreDerivatives.ActivationRuns | crates/aicortex-embed/src/registry.rs:125-159 | What an activation that commits leaves: its revision active and nothing else, none above it, and its identity not another than before. |
| StoreDerivatives.DropRuns | crates/aicortex-embed/src/registry.rs:300-353 | A drop that commits found every embeddable memory with a vector at the active revision; it removes the chunks and vectors of an inactive recorded revision, touches no other revision's vectors, and does nothing to the active one. |
| ClaimHistories.ValidateTime | crates/aicortex-claims/src/history.rs:101-109 | A record's time is accepted exactly when it says when it holds in the way its predicate asks: an interval, a source time that is there, or none. |
| ClaimHistories.ClaimHistory.AppendClaim | crates/aicortex-claims/src/history.rs:234-247 | A claim is appended exactly when its id is new and its number unused in its scope; nothing else changes. |
| ClaimHistories.ClaimHistory.AppendRelation | crates/aicortex-claims/src/history.rs:251-272 | A relation is appended exactly when its endpoints are known and a supersession stays within a slot. |
| ClaimHistories.ClaimHistory.AppendRetraction | crates/aicortex-claims/src/history.rs:275-283 | A retraction is appended exactly when its claim is known. |
| ClaimTheorems.AsOfIsStable | crates/aicortex-claims/src/projection.rs:367-372 | Appending any claims, relations and retractions beyond the knowledge bound changes neither the view nor the proposals nor whether projection succeeds. |
| ClaimTheorems.ViewDependsOnKnowledge | crates/aicortex-claims/src/projection.rs:426-494 | Two histories that agree on what is within the bound give the same view and fail together. |
| ClaimTheorems.ArrivalOrderIsIrrelevant | crates/aicortex-claims/src/projection.rs:416-591 | Histories with the same claims and permuted relations and retractions project to the same view. |
| ClaimTheorems.SlotsInOrder | crates/aicortex-claims/src/projection.rs:567-570 | One entry for each slot with a known claim, in strictly increasing slot order. |
| ClaimTheorems.CandidatesAreWinners | crates/aicortex-claims/src/projection.rs:472-551 | The candidates of a slot are its winners, each once, in claim order. |
| ClaimTheorems.ValueMeansAgreement | crates/aicortex-claims/src/projection.rs:552-566 | A slot with standing claims is reported as a value exactly when its candidates agree. |
| ClaimTheorems.ProposalsAreDisagreements | crates/aicortex-claims/src/projection.rs:555-566 | The proposals are exactly the ordered pairs of candidates of one slot whose values differ. |
| ClaimTheorems.ConflictsAreProposed | crates/aicortex-claims/src/projection.rs:555-566 | A slot is conflicted if and only if it has a proposal. |
| ClaimTheorems.UserAndSupplierBothKept | crates/aicortex-claims/src/projection.rs:496-535 | A standing user claim and a standing supplier claim that disagree are both shown, in a conflict, whatever their authority or order. |
| ClaimTheorems.SlotLosesAllIff | crates/aicortex-claims/src/projection.rs:374-391 | A slot with an unretracted covering claim shows nothing if and only if every such claim is superseded by one of them with authority enough, or source order is compared, both claims with and without a revision are compared, and each of the foremost of either side is overtaken by one of the other. |
| ClaimTheorems.SlotHasWinner | crates/aicortex-claims/src/projection.rs:374-391 | If active supersessions point back in transaction order and revisions are given by all or none of the claims whose source order is compared, a slot with an unretracted covering claim has a candidate. |
| ClaimTheorems.MixedRevisionsLoseAll | crates/aicortex-claims/src/projection.rs:374-391 | Revision 1 at time 10, revision 2 at time 1 and no revision at time 5 beat each other in a circle and leave an empty value. |
| ClaimTheorems.MutualSupersessionLosesAll | crates/aicortex-claims/src/projection.rs:472-494 | Two claims that supersede each other leave an empty value. |
| ProjectionEngine.Project | crates/aicortex-claims/src/projection.rs:416-591 | The loops succeed exactly when every time they need resolves and every comparison they make can be made, and then compute exactly the defined view. |
| ProjectionEngine.ResolveSlot | crates/aicortex-claims/src/projection.rs:460-568 | One slot, from its grouped claims: retraction, relations, authority, source order and conflict give the defined state. |
| ProjectionEngine.CompareAll | crates/aicortex-claims/src/projection.rs:516-533 | The pairwise comparison finds exactly the claims no other comes after, and fails exactly when two cannot be compared. |
| Scan.ScanRows | crates/aicortex-index/src/scan.rs:286-385 | A scan returns the best k of the rows it visited, score descending then id ascending, which is scoring them all, sorting and taking k; untruncated it visited every row once, truncated a whole number of pages from the front. |
| Scan.TopK.Offer | crates/aicortex-index/src/topk.rs:105-119 | After any offers the heap holds exactly the best k of what was offered. |
| Scan.TopK.Admits | crates/aicortex-index/src/topk.rs:92-103 | What is not admitted is what an offer would not retain. |
| Scan.TopK.IntoSorted | crates/aicortex-index/src/topk.rs:133-147 | The retained entries in rank order. |
| Scan.BestKIsPrefix | crates/aicortex-index/src/topk.rs:47-75 | The best k of a set, ranked, are the first k of the set ranked. |
| Scan.NextPage | crates/aicortex-index/src/scan.rs:320-367 | Each page is the next rows after the cursor, as many as fit, so the cursor advances and no row is visited twice. |
| Chunker.Split | crates/aicortex-embed/src/chunk.rs:76-138 | A successful split has strictly rising starts, ends that never fall, no gap, boundaries between characters, chunks of at most max(target, one character), overlaps as asked or an advance of one character, the last chunk at the end of the body, and no more chunks than allowed; it is refused exactly when the list of chunks it would make without a limit is longer than allowed, and is that list otherwise. |
| Chunker.ReassemblesPrefix | crates/aicortex-embed/src/chunk.rs:76-138 | Dropping the overlaps gives back the text up to the last end. |
| Chunker.BoundariesAreOffsets | crates/aicortex-embed/src/chunk.rs:149-155 | The byte test for a boundary holds exactly between characters of well-formed UTF-8. |
| Chunker.SentenceBoundaries | crates/aicortex-embed/src/chunk.rs:157-180 | One pass finds, in rising order, exactly the two ends of the text, the places after a line feed, and those after the first white space that follows a sentence mark. |
| WordPiece.PushWord | crates/aicortex-embed/src/wordpiece.rs:204-245 | A word contributes its greedy segmentation, or the one unknown id. |
| WordPiece.TokensMean | crates/aicortex-embed/src/wordpiece.rs:204-245 | The ids are the unknown one, or those of pieces that concatenate to the word, each the longest vocabulary match where it starts; and the word decides which. |
| WordPiece.GreedyIsUnique | crates/aicortex-embed/src/wordpiece.rs:215-240 | There is one greedy segmentation. |
| WordPiece.Encode | crates/aicortex-embed/src/wordpiece.rs:148-158 | Encoding with a limit gives exactly the first `limit` ids of the unlimited encoding. |
| WordPiece.EncodingStaysBelow | crates/aicortex-embed/src/wordpiece.rs:139-146 | Every id of every encoding is below the bound. |
| WordPiece.Words | crates/aicortex-embed/src/wordpiece.rs:186-202 | The accumulating loop computes the words: split at white space, with punctuation alone where asked. |
| WordPiece.MarkSeparates | crates/aicortex-embed/src/wordpiece.rs:186-202 | Punctuation separates, and is a word of its own. |
| WordPiece.SpaceSeparates | crates/aicortex-embed/src/wordpiece.rs:186-202 | White space separates, and disappears. |
| Normalize.NormalIsIdempotent | crates/aicortex-gate/src/normalize.rs:84-104 | Normalizing twice is normalizing once. |
| Normalize.NormalIsClean | crates/aicortex-gate/src/normalize.rs:76-104 | No removed character, no line with trailing white space and none at the end, and composed. |
| Normalize.FixedIffClean | crates/aicortex-gate/src/normalize.rs:84-104 | The texts normalization leaves alone are exactly the clean ones. |
| Normalize.FingerprintSurvivesStorage | crates/aicortex-store/src/fingerprint.rs:84-107 | The fingerprint of an admitted body is that of its stored row, and two bodies share one exactly when the gate makes them the same. |
| Normalize.NothingVisibleLost | crates/aicortex-gate/src/normalize.rs:84-104 | Trimming takes white space only: what can be seen of the composed text stays, in order. |
| Normalize.Normalized | crates/aicortex-gate/src/normalize.rs:84-104 | The method, line by line, computes the normal form. |
| ClaimTime.ConstructorsAreExact | crates/aicortex-types/src/claim_time.rs:190-290 | The constructors accept exactly the years, months and days that exist. |
| ClaimTime.MonthsMakeYear | crates/aicortex-types/src/claim_time.rs:190-203 | Twelve months make 365 days, or 366 in a Gregorian leap year. |
| ClaimTime.DateSurvivesPrinting | crates/aicortex-types/src/claim_time.rs:318-355 | A date that exists is read back as itself, at its precision. |
| ClaimTime.DateTextIsCanonical | crates/aicortex-types/src/claim_time.rs:318-355 | A text that is read is what its date prints as, and the date exists. |
| ClaimTime.DatesOnTheWire | crates/aicortex-types/src/claim_time.rs:364-386 | Writing and reading dates are inverse both ways. |
| ClaimTime.TimeSurvivesPrinting | crates/aicortex-types/src/claim_time.rs:573-683 | A time that happens is read back as itself, at its precision. |
| ClaimTime.TimeTextIsCanonical | crates/aicortex-types/src/claim_time.rs:650-683 | A text that is read is what its time prints as. |
| ClaimTime.TimesOnTheWire | crates/aicortex-types/src/claim_time.rs:690-725 | Writing and reading times in a zone are inverse both ways. |
| ClaimTime.ZoneRoundTrip | crates/aicortex-types/src/claim_time.rs:487-531 | A zone is read back as itself, and a raw zone that is read carries nothing else. |
| Norm.HasNormalizedNorm | crates/aicortex-embed/src/provider.rs:190-239 | The loop with its checked steps answers exactly whether every exponent is small and the sum of the cut squares lies within the two bounds; nothing overflows for any vector a 16-bit width allows. |
| Norm.AcceptanceIsSound | crates/aicortex-embed/src/provider.rs:190-239 | What is accepted has an exact squared norm of at least 0.998001 and below 1.002001 + n 2^-45. |
| Norm.AcceptanceIsComplete | crates/aicortex-embed/src/provider.rs:190-239 | Every vector of n components with exact squared norm in [0.998001 + n 2^-45, 1.002001] is accepted. |
| Norm.FixedCuts | crates/aicortex-embed/src/provider.rs:211-229 | The fixed-point value is the exact magnitude shifted down, for every exponent, and a subnormal gives zero. |
| Norm.ValidateBatch | crates/aicortex-embed/src/provider.rs:145-188 | A batch passes exactly when it has one vector per input, each of the declared width, none zero, and each of unit length where declared; the order of what is reported otherwise. |
| Norm.ZeroIsNotUnit | crates/aicortex-embed/src/provider.rs:167-187 | A vector of zeros of either sign never passes for unit length. |
| Norm.BytesRoundTrip | crates/aicortex-embed/src/provider.rs:83-118 | A vector is read back from its bytes bit for bit, and only bytes of such a vector are read. |
| ClosedWalk.RefusalOutranksHold | crates/aicortex-gate/src/walk.rs:111-150 | With distinct ids and every requirement registered, the second judgement is the first: the first refusal wins, else the first hold, else a pass. |
| ClosedWalk.OrderDecidesOnlyTheReason | crates/aicortex-gate/src/walk.rs:1-26 | Registering the same steps in another order changes at most the reason. |
| ClosedWalk.IncompleteRefuses | crates/aicortex-gate/src/walk.rs:14-18 | A walk without a required step, or without steps, refuses. |
| ClosedWalk.SharedIdMisleads | crates/aicortex-gate/src/walk.rs:139-150 | Two steps with one id turn a hold into a refusal, so distinct ids are needed. |
| AdmissionTheorems.WalkIsTheCascade | crates/aicortex-gate/src/claim_gate.rs:11-39 | The closed walk of ten steps gives the documented order of questions: first refusal, then the ground's hold, then an admission that building the claim never takes back. |
| AdmissionTheorems.AdmitsIff | crates/aicortex-gate/src/claim_gate.rs:730-870 | A proposal is admitted exactly when it satisfies every condition of a list that names no order. |
| AdmissionTheorems.StricterNeverFavours | crates/aicortex-gate/src/claim_gate.rs:355-383 | A policy with lower ceilings, a higher floor, and fewer or harder grounds never turns a refusal into a hold or either into an admission. |
| AdmissionTheorems.StricterAdmitsTheSame | crates/aicortex-gate/src/claim_gate.rs:355-383 | What it still admits, the laxer policy admits with the same relations, corrections and conflicts at no less authority. |
| AdmissionTheorems.CeilingsOnlyHold | crates/aicortex-gate/src/claim_gate.rs:358-371 | Lowering ceilings alone refuses nothing new and changes no refusal. |
| AdmissionTheorems.ScoresDecideNothing | crates/aicortex-gate/src/claim_gate.rs:29-30 | Other scores on the same side of the floor give the same verdict, reason, authority and relations; any difference is one of the two refusing for the floor. |
| AdmissionTheorems.InferenceNeverAdmits | crates/aicortex-gate/src/claim_gate.rs:304-335 | No legal policy admits a proposal whose evidence is model scores and corroboration only. |
| AdmissionTheorems.QualificationCheckIsExact | crates/aicortex-gate/src/claim_gate.rs:324-334 | A policy admits nothing on such evidence if and only if each of its qualifications asks for more than inference. |
| AdmissionTheorems.OnlyPeopleSpeakForUsers | crates/aicortex-gate/src/claim_gate.rs:1012-1062 | What anyone but a person proposes never reaches a user's level, is never sourced from a user and corrects nothing. |
| AdmissionTheorems.DishonestStatementsEarnNothing | crates/aicortex-gate/src/claim_gate.rs:1012-1062 | A statement that is not honoured leaves the authority earned as it is without it. |
| AdmissionTheorems.AdmittedRelationsAreAllowed | crates/aicortex-gate/src/claim_gate.rs:914-966 | Every target of an admitted claim is known, in its scope and another claim; a user's claim supersedes no supplier's; without review it supersedes nothing of higher authority. |
| AdmissionTheorems.AdmittedRelationsAreCarried | crates/aicortex-gate/src/claim_gate.rs:914-966 | Every relation asked for is carried, from the claim and in order. |
| AdmissionTheorems.CorrectionsKeepConflicts | crates/aicortex-gate/src/claim_gate.rs:914-998 | Corrections are the targets an honoured statement supersedes or contradicts; conflicts are the supplier claims it contradicts, and nothing else. |
| ClaimAdmission.NewPolicy | crates/aicortex-gate/src/claim_gate.rs:304-335 | A policy is adopted exactly when it is named, lists each ceiling once and under its cap, and qualifies nothing on inference; what each refusal means. |
| ClaimAdmission.RelateAll | crates/aicortex-gate/src/claim_gate.rs:914-966 | The loop over the relations computes what the steps judge by. |
| ClaimAdmission.EarnedIsHighest | crates/aicortex-gate/src/claim_gate.rs:1037-1062 | The authority earned is reached by some item and exceeded by none; there is none only when no item earns. |
| PredicateRegistry.RegisteredIsChained | crates/aicortex-claims/src/registry.rs:156-193 | In every registry reached by any run of offers, every version keeps every subject kind, predicate, value kind, cardinality, unit and variant of every earlier one, although a check looks at the latest only. |
| PredicateRegistry.RegisteredForGood | crates/aicortex-claims/src/registry.rs:186-193 | A registered document stays, unchanged, whatever is offered later. |
| PredicateRegistry.Successor | crates/aicortex-claims/src/registry.rs:224-250 | No error exactly when the later document keeps everything. |
| PredicateRegistry.RegistrySnapshot.Admit | crates/aicortex-claims/src/registry.rs:186-193 | A new document is inserted under its key and nothing else changes; the chain is kept. |
| PredicateRegistry.FromSets | crates/aicortex-claims/src/registry.rs:141-149 | Sorting and admitting in turn, up to the first refusal. |
| PredicateRegistry.RebuildsIff | crates/aicortex-claims/src/registry.rs:141-149 | A rebuild succeeds exactly when the documents are coherent, a condition with no word about order, and then holds exactly them. |
| PredicateRegistry.OrderIsIrrelevant | crates/aicortex-claims/src/registry.rs:141-149 | The order and repetition of the documents changes neither success nor the snapshot. |
| PredicateRegistry.RowsRebuildTheRegistry | crates/aicortex-store/src/predicate_registry_repo.rs:60-79 | A registry grown by any run of offers is read back as itself from its rows. |
| PredicateRegistry.ClaimSurvivesIff | crates/aicortex-claims/src/lib.rs:187-242 | A claim valid at one version is valid at a later one exactly when that has not withdrawn the predicate, narrowed its subjects or stances, or given units to a number stated without one. |
| PredicateRegistry.FirstUnitStrandsNumbers | crates/aicortex-claims/src/lib.rs:244-272 | After an accepted second version that adds the first unit, a number without one is valid at the version it names, and refused when re-addressed to version 2. |
| PredicateRegistry.ReportedErrorDependsOnOrder | crates/aicortex-claims/src/registry.rs:141-149 | Of two documents that claim one version, the order given decides which error is reported. |
| RebuildErrors.ReportIndependentIff | crates/aicortex-claims/src/registry.rs:141-149 | A rebuild reports the same in every order of its documents if and only if those at the first key it cannot pass would be refused alike, each offered first. |
| RebuildErrors.OneEachReportsAlike | crates/aicortex-claims/src/registry.rs:141-149 | Where no two different documents claim one version, every order gives the same result, error included. |
| RebuildErrors.SortSplits | crates/aicortex-claims/src/registry.rs:141-149 | Sorting puts what lies before a key first, then what is at it in the order given, then what lies after it. |

## Left out

- Scopes: one scope is modelled; every statement of the sources names its scope, so scopes do not meet except in the shared model registry, which is modelled.
- Leases, the outbox, processing receipts and their claims, holds and attempt budgets: the store library is not part of this model. A transaction is taken as all or nothing, a work item as staged if absent and updated only if present.
- The ledger's hash chain and archive: an append is taken as one entry per operation, repeated only with equal content.
- Scrubbing of claim relations, admissions, proposals and retractions during erasure: rows beside claims, deleted by statements of the same shape as those modelled.
- The check for journal rows of an older schema before a scope erasure starts.
- Erasing one claim in place (`claim_repo.rs`, `stage_erase`) is not a step of the system; claims go with the memory they cite or with the scope.
- A digest key that names a memory is staged in the transaction of that memory's capture.
- Corrections (`correct`) are a capture and a supersession in one transaction, both of which are modelled.
- Expiry batches: any set of memories due when read, instead of the first by deadline.
- Which of several unresolvable times the projection reports: only that it fails.
- Hashing: the fingerprint is the normal form itself, as an injective stand-in, and leaves out the scope component that the stored digest also covers.
- Floating-point scores, dot products and pooling; the scan takes scores as given.
- Zone names and offsets as text: their shape checks are parameters.
- StoreTheorems.PassCovers: excepts memories quarantined and without work or vectors when the pass began, because a supersession may release them so; StoreCoverage.PassUncoversIff is exact.
- StoreCompletion.CompletedIsEmbedded: for workers whose number was recorded when they began; StoreCompletion.FinishedIsBareIff is exact.
- StoreAgreement.CountersAgree: for runs in which no capture derives a memory from itself; StoreAgreement.CountersAgreeIff is exact.
- StoreLifecycle.WalkAgreesWithGuard: says nothing about a walk longer than its bound, which the source refuses.
- ClaimTheorems.SlotHasWinner: sufficient hypotheses only; ClaimTheorems.SlotLosesAllIff is exact.
- WordPiece.Words: takes text already normalized; the tokenizer's own lowercasing, accent stripping, control removal and spacing of ideographs (wordpiece.rs:160-185) are not modelled.
- ClosedWalk.IncompleteRefuses: not which reason is given when a required step is missing and another step refuses; the gate's library decides.
- PredicateRegistry.Validate: the text's normalization and the credential detectors are parameters.
- Listing memories page by page, and the filters of a listing.
- Upper bounds on chunk and vector payload sizes and on work attempts.
- The HTTP surface, events, metrics, configuration, artifact download, remote providers and secret detectors.
