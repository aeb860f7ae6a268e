# CDC lakehouse pipeline: a verified model

This project models the change-data-capture pipeline from the source workload to the Gold tables as
one stack of state machines and proves the properties its design relies on. Each file is one
component:

| layer | modules |
|---|---|
| source ledger | `Ledger`, `Workload`, `WorkloadRun` |
| Bronze writer and its object keys | `Bronze`, `BronzeLoop`, `BronzeListing`, `Encodings` |
| manifests and the frozen source control | `Manifest`, `ManifestValidation`, `ManifestFields`, `LedgerControl`, `SourceControlFields` |
| audit evidence | `Audit`, `AuditRows`, `Classification` |
| batch control plane | `Control` (transactions as functions), `ControlPlane` (the same as a class over its tables), `ControlInvariant`, `ControlGuarantees`, `Sealing`, `Lifecycle`, `Progress`, `FirstBatch` |
| what published batches say together | `Publication`, `Transactions` |
| Raw Vault loads | `RawVault`, `Compression`, `IncrementalLoad`, `PersistedState`, `BoundaryLaw`, `Hubs`, `LoanContext`, `LoanLookup`, `VaultTables`, `RunContents`, `BoundedRun` |
| control plane and Raw Vault together | `Pipeline`, `JobPipeline`, `LoanPipeline`, `FirstLake` |
| current state and Gold | `CurrentState`, `Gold`, `GoldState`, `PublishedGold`, `Portfolio`, `Lineage`, `Provenance` |

The code that changes state is a class or a method with loops (`ControlPlane.ControlPlane`,
`Bronze.BronzeWriter`, `BoundedRun.VaultJob`, `Workload.Transaction`, `Workload.SourceDatabase`,
and the methods of `Manifest`, `ManifestValidation`, `LedgerControl`, `Audit`, `Classification`), each
proved equal to a function; the laws are lemmas about those functions and about runs of steps.

The main results:

* After any interleaving of creations, starts, merges, loads, crashes, failures, retries, replays,
  supersessions and publications, whenever the last created batch is published every satellite is
  the change detection over all Bronze events up to the published highs
  (`Pipeline.PublishedVaultIsRebuild`), the loan effectivity satellite included if every sealed batch
  that first shows a loan also holds its application (`LoanPipeline.PublishedLakeIsRebuild`). A load
  raises exactly when superseded batches left rows of the events it re-selects, and such a batch is
  never published.
* Over the tables such a run leaves, a loan is in the Gold fact exactly when, among the Bronze events up
  to the published highs, the last events of the loan, of its context and of its dimensions say so
  (`PublishedGold.PublishedLoanFactIsTheFold`).
* A bounded run that ends without error leaves every satellite it names with exactly the rows the load of
  its batch yields, and every hub, link and quarantine key it staged (`BoundedRun.WholeRunStoresItsRows`);
  within the pipeline these tables are the rebuild (`JobPipeline.JobLeavesTheRebuild`).
* A whole bounded run, cut after any merge and repeated any number of times, ends as one uninterrupted
  run exactly when its batch is empty or its loan links are settled (`BoundedRun.WholeRunConverges`).
* Published intervals start at -1, are contiguous and never meet the exclusion constraint; each
  Bronze object below the highs is in exactly one published manifest, and the union is what the
  legacy capped reader selects.
* No source transaction is split across published batches.
* A successful attempt carries exactly its four task proofs and a passing audit, and history never
  changes; an attempt that runs to its end publishes its batch exactly when its counts reconcile.
  The batch of a failed run can be retried at once, and the retry publishes (`Lifecycle.FailedRunIsRetried`).
* The Bronze store is always a gap-free prefix of each log, under several writers, crashes and resets, and
  every committed message is stored with its own key and value (`Bronze.CommittedMessagesAreStored`).
* The lineage of Gold is exactly the stored rows behind it (`Provenance.LineageIsExact`), and each portfolio
  row counts and sums the facts of its customer and currency (`Portfolio.PortfolioCountsAndSums`).

The hypotheses about runs can be met: `FirstBatch.SomeRunPublishes` exhibits a run of the control plane
that publishes a batch, `FirstBatch.SomePipelineRunPublishes` one that also loads a satellite, and
`FirstLake.SomeLakeRunPublishes` one with hub merge, link merge and loan effectivity load.

## Findings

Some promises hold only under a condition. Each condition is proved exact; where a failing input is
instructive it is given too.

* Null positions. The builders order ascending with nulls last and the readers descending with nulls
  last. The incremental table equals the rebuild, whatever the states are, exactly when the batch
  lies behind the history and no null decides a pair of history rows of an entity it touches
  (`IncrementalLoad.RebuildLawIsExact`, `IncrementalLoad.NullPositionBreaksTheRebuild`).
* Boundary check. The check for out-of-order positions compares the batch with the latest stored row, not
  with the latest event, because unchanged states are not stored. A late event behind that row and in
  front of a dropped one passes it (`BoundaryLaw.LateRowPassesTheCheck`). The load raises or leaves the
  rebuild, whatever the states are, exactly when, by positions alone, the batch passes behind no row of
  some entity it touches, or behind every row it passes lies the entity's whole history and no later
  history row is ranked below that row (`BoundaryLaw.BoundedLawIsExact`).
* Loans. A loan is loaded as in a full rebuild exactly when the first batch that holds it also holds
  its application; otherwise its first events are dropped without a quarantine row
  (`LoanContext.LoanIsKeptExactlyWithItsApplication`). A replay inserts nothing exactly when no loan
  event whose application the batch lacks meets a new link of its loan that is ranked first among the
  new links and ahead of all stored ones, with its application in the hub, while the event's own link
  under that number is neither stored nor staged (`LoanContext.ReplayIsStableExactly`). Batches in which
  each loan names one application always satisfy this (`LoanContext.RereadingOwnLinksIsStable`).
* Hubs. The incremental hub keeps first arrivals exactly when no later batch brings an earlier one
  (`Hubs.IncrementalHubIsRebuild`).
* Stale listing. A sealed batch continues the published chain exactly when its listing shows every
  partition of the last publication (`ControlGuarantees.ChainContinuesExactlyWhenListingCovers`).
* Orphaned manifest. After a crash between the manifest write and the commit, the batch id can be
  created only by sealing the identical payload, which a later clock reading excludes
  (`ControlGuarantees.OrphanedManifestDecides`).
* Quarantine. Rows are deduplicated by event id and reason, so an invalid event is quarantined for
  sure exactly when it has a reason no other event of its id has
  (`Classification.QuarantinedExactlyByAnOwnReason`). The writer derives ids from coordinates and
  always sets an operation, so two events that share both need a foreign Bronze object; then one
  passes as accepted and the classification check does not notice
  (`Classification.SharedIdentityEscapesQuarantine`).
* Detail rows. Dimensions rank by event time first; they show the last state, whatever the states
  are, exactly when event times follow positions (`CurrentState.DetailsShowTheLastState`).
* Hash pre-images. The `||` join is injective exactly on alphabets without a pipe
  (`Encodings.JoinInjectiveExactlyWithoutPipes`), and a blank column has the key of the text `^^`
  (`Encodings.HashKeysAgreeExactly`).
* Workload. A scenario commits twice exactly when another process commits it between the COMPLETED
  check and the commit of the first, or when an exception reopened its COMPLETED row
  (`Ledger.CommitsOnceExactly`). The second needs one process only: the log line behind the commit
  stands inside the same `try` (`Ledger.LateExceptionCommitsTwice`).

## Assumptions

* SHA-256 is injective: a digest is a constructor around, or the text of, its pre-image.
* `created_at` and `published_at` increase in commit order, so order of rows stands for them.
* Every control-plane function is one transaction; object-store writes survive its rollback.
* Bronze, event bodies and the workload ledger are append-only. A listing is one snapshot, shows
  every partition of the last publication (`ListingCovers`) and, for the satellite results, whatever
  earlier manifests sealed (`ListingGrows`); `dags/cdc_raw_vault_dag.py:84` runs one DAG run at a time.
* Loads run while their attempt runs, hubs before links before satellites
  (`dags/cdc_raw_vault_dag.py:179-188`), and `load_satellites` evidence is recorded after its job loaded
  every table. Any task may repeat, crash or be superseded.
* For the loan effectivity rows and the fact: a loan keeps its application id and an application its number,
  batches show an application inserted before they show it changed, and each loan first with its application.
* Events of one entity come from one topic partition, their offsets agree with the window order, and
  no null decides one of its pairs; event ids identify rows (`RawVault.Contract`). The exact results
  above need distinct coordinates only.
* The COMPLETED check of a workload scenario and its RUNNING mark are one step.

## Model

| member | source | states |
|---|---|---|
| Encodings.KeyRoundTrip | cdc/bronze/writer.py:173-182 | every object key the writer prints, in any folder, parses back to its topic, partition and offset |
| Encodings.KeysDetermineCoordinates | pipeline_control/manifest.py:45-53 | two coordinates never share an object key |
| Encodings.ParseIsExact | pipeline_control/manifest.py:45-53 | a key has a coordinate exactly when its last three segments are a topic, a decimal partition and a decimal offset with its ending, up to one final newline |
| Encodings.PaddedToTwenty | cdc/bronze/writer.py:173-182 | the offset is printed in decimal with leading zeros up to twenty digits |
| Encodings.RowEncodingIsInjective | operations/collect_phase0_baseline.py:282-312 | for a fixed number of columns the length-prefixed row text, null as `-1:`, decodes to one row only |
| Encodings.JoinInjectiveExactlyWithoutPipes | scripts/4_process_cdc_raw_vault.py:284-294 | the delimiter join of several components is injective over an alphabet if and only if the alphabet has no pipe |
| Encodings.HashKeysAgreeExactly | scripts/4_process_cdc_raw_vault.py:275-294 | over columns without a pipe two keys of a namespace have one hash pre-image if and only if they agree column by column up to blanks and case, a blank also agreeing with the text of the null token |
| Manifest.DiscoverBronzeObjects | pipeline_control/manifest.py:75-117 | the listing loop raises exactly on an empty result or a repeated coordinate or key, and otherwise returns exactly the parseable objects in manifest order |
| Manifest.GroupByPartition | pipeline_control/manifest.py:130-148 | the grouping pass rejects exactly unparseable listings and groups every item under its partition in first-seen order |
| Manifest.SelectPartitions | pipeline_control/manifest.py:150-180 | the per-partition pass reports the first error and otherwise accumulates the bounds and selected items of all partitions |
| Manifest.BuildManifestPayload | pipeline_control/manifest.py:120-204 | the builder's loops compute the specified payload or error for every input |
| ManifestValidation.BuildSealsExactlyTheInterval | pipeline_control/manifest.py:150-204 | a built manifest holds exactly the listed objects above the previous highs, sorted and duplicate-free, with exact bounds and totals per partition |
| ManifestValidation.BuiltDocumentIsAccepted | pipeline_control/manifest.py:207-324 | whatever the builder returns passes the validator |
| ManifestValidation.ValidateSourceControl | pipeline_control/manifest.py:327-370 | accepts exactly controls with increasing transaction ids, non-negative columns and matching sums |
| ManifestValidation.TallyObjects | pipeline_control/manifest.py:269-303 | the object loop accepts exactly lists that fit the bounds and tallies counts and bytes per partition |
| ManifestValidation.ValidateObjects | pipeline_control/manifest.py:266-315 | accepts exactly sorted, duplicate-free, in-bounds object lists with exact per-partition totals |
| ManifestValidation.ValidateManifestDocument | pipeline_control/manifest.py:214-324 | a document is accepted if and only if checksum, batch id, version, semantics, bounds, objects and control are all right |
| ManifestValidation.PartitionsAddUp | pipeline_control/manifest.py:311-321 | the partition rows of an accepted bounded manifest sum to its object count and bytes |
| ManifestFields.PayloadIsAcceptedExactly | pipeline_control/manifest.py:214-370 | in the fields of the document: known version and interval text, bounds well-formed and strictly increasing, objects within them, strictly increasing by coordinate, adding up per partition and in all, and for version 3 a consistent source control; version 1 needs the bounds and the legacy reader only |
| ManifestFields.BuiltExactly | pipeline_control/manifest.py:130-170 | a payload is built exactly when the listing is not empty, every key names a coordinate, no partition shows an offset twice, and none shows only offsets below the one published before |
| ManifestFields.BuiltPayloadSeals | pipeline_control/manifest.py:150-204 | and then has one bound per listed partition, from the previous high to the greatest listed offset, and exactly the objects above the previous highs, in strict order, with exact totals |
| LedgerControl.SummarizeBronzeTransactions | pipeline_control/manifest.py:373-425 | one pass gives each observed transaction's exact count and LSN range, in order, and exact per-table and per-operation counts, or rejects an unreadable body |
| LedgerControl.LedgerRowsThroughObservedBoundary | pipeline_control/control.py:76-85 | keeps the rows up to the greatest boundary of an observed transaction |
| LedgerControl.BuildSourceControl | pipeline_control/control.py:88-178 | the control built from ledger and bodies equals its specification, and fails exactly on unreadable bodies |
| LedgerControl.ListedRowsAreExact | pipeline_control/control.py:76-103 | a control lists exactly the ledger rows past the published boundary and not past the last observed transaction |
| LedgerControl.BoundaryHighIsLastListed | pipeline_control/control.py:104-178 | the frozen high boundary is the greatest listed one, or the previous one when nothing is listed |
| LedgerControl.LsnRangeIsExact | pipeline_control/manifest.py:408-419 | a transaction's recorded LSN range is attained by its events and bounds them all |
| LedgerControl.BuiltControlIsAccepted | pipeline_control/control.py:104-178 | a control built from a well-formed ledger passes the manifest validator |
| LedgerControl.SelectedEventsAreConserved | pipeline_control/control.py:104-178 | ledger-observed plus untracked events equals the number of selected objects |
| LedgerControl.TrackedExactlyWhenAttributed | pipeline_control/control.py:115-160 | nothing is untracked if and only if every event belongs to a listed transaction; if those are complete their expectations add up to the objects |
| LedgerControl.CountersAddUp | pipeline_control/manifest.py:381-425 | per-table and per-operation counts each sum to the number of events |
| SourceControlFields.ControlSaysExactly | pipeline_control/control.py:76-178 | the control lists, in order of transaction id, exactly the ledger rows past the published boundary and up to the last observed one, each with the number and the LSN range of its events; it counts the events of no listed transaction and those per table and operation, and its high boundary is the greatest listed one |
| Audit.ValidateAuditPayload | pipeline_control/audit.py:62-109 | accepts exactly payloads of the given attempt with consistent, strictly ordered rules |
| Audit.BuiltEvidenceIsAccepted | pipeline_control/audit.py:28-109 | evidence built from distinct reconciled rows is accepted, and has no failed rule if and only if every row balances |
| Audit.EvidencePassesExactlyWhenComplete | scripts/4_process_cdc_raw_vault.py:1357-1479 | a batch's evidence passes if and only if every sealed object was read once, classification conserves, no key is missing and the source control is balanced |
| AuditRows.PayloadIsAcceptedExactly | pipeline_control/audit.py:62-109 | in its own columns: schema and rule version, the attempt's identity, a watermark, and rules that are named, consistent and strictly increasing by rule id and object name |
| AuditRows.EvidenceSaysExactly | scripts/4_process_cdc_raw_vault.py:1337-1479 | the evidence of a batch holds exactly the rules over sealed objects, coordinates, classification, source ledger and loaded tables, each with its two values, difference and verdict, and the manifest's bounds as watermark |
| ControlPlane.ControlPlane.ReadPreviousHighs | pipeline_control/control.py:255-264 | reads the highs of the latest publication |
| ControlPlane.ControlPlane.ReadManifest | pipeline_control/manifest.py:530-547 | succeeds exactly when the stored document is valid and has the expected checksum and batch id |
| ControlPlane.ControlPlane.CreateOrGetBatch | pipeline_control/control.py:211-363 | discovery first, then the lookup or the new batch: result and new tables and store equal the specified transaction, with or without a crash after the manifest write |
| ControlPlane.ControlPlane.MaxAttemptNumber | pipeline_control/control.py:416-420 | finds the greatest attempt number of the batch, 0 if none |
| ControlPlane.ControlPlane.StartAttempt | pipeline_control/control.py:366-444 | result and new tables equal the specified transaction |
| ControlPlane.ControlPlane.RecordTaskSuccess | pipeline_control/control.py:447-586 | result and new tables equal the specified transaction, a failing audit keeping its row |
| ControlPlane.ControlPlane.InsertIntervals | pipeline_control/control.py:661-672 | inserts all advancing bounds, or refuses exactly when the exclusion constraint does |
| ControlPlane.ControlPlane.PublishBatch | pipeline_control/control.py:589-696 | result and new tables equal the specified transaction, rolled back as a whole on an overlap |
| ControlPlane.ControlPlane.FailAirflowRun | pipeline_control/control.py:699-739 | fails the running attempt and its running batch, nothing else |
| ControlPlane.ControlPlane.SupersedeBatch | pipeline_control/control.py:742-762 | supersedes exactly created or failed batches |
| ControlPlane.ControlPlane.PersistAuditEvidence | pipeline_control/audit.py:112-122 | the first evidence file of an attempt wins and a different second one is refused |
| Lifecycle.CreatingABatch | pipeline_control/control.py:211-363 | once every attempt and batch is finished a new id is created exactly when the listing is well-formed and the payload can be sealed and is not contradicted by a stored one; then one CREATED row, its log and its document are written, and nothing else changes |
| Sealing.SealedInFields | pipeline_control/control.py:255-286 | the payload of a new batch seals the discovered objects above the highs, with a source control over exactly these objects behind the published boundary |
| Sealing.DiscoverySucceedsExactly | pipeline_control/manifest.py:75-117 | the discovery succeeds exactly when some key names a coordinate and no two listed keys name the same one |
| Sealing.DiscoveryListsExactly | pipeline_control/manifest.py:75-117 | and then hands on exactly the objects whose keys name a coordinate |
| Sealing.HighsAreLastPublished | pipeline_control/control.py:255-264 | the highs a batch continues are those of the batch published last, partition by partition, and -1 elsewhere |
| Sealing.BoundaryIsGreatest | pipeline_control/control.py:93-102 | the boundary it continues is the greatest of the transactions listed in published batches |
| Lifecycle.StartingARun | pipeline_control/control.py:366-444 | a new run opens an attempt under the next number exactly when its batch is created, failed, or published as the last one, and no attempt runs; the batch then runs unless it is published, and nothing else changes |
| Lifecycle.AnswerOfStart | pipeline_control/control.py:416-444 | a new run is told its number and that it is active exactly when it was opened |
| Lifecycle.StartingAgain | pipeline_control/control.py:366-379 | asking again for a run that exists changes nothing and answers its own number and state, or refuses a run of another batch |
| Lifecycle.RecordingALoad | pipeline_control/control.py:447-530 | a load task is recorded exactly when the manifest is the stored one and the run is active under it; then one evidence row with the manifest's totals is written |
| Lifecycle.RecordingTheReconciliation | pipeline_control/control.py:447-586 | the reconciliation needs besides a stored, consistent evidence file of the attempt; a file with failed rules leaves its failing audit row and no evidence |
| Lifecycle.AnswerOfReconciliation | pipeline_control/control.py:447-586 | the reconciliation is acknowledged exactly when its evidence is written, that is, when every rule of the file passes |
| Lifecycle.PublishingARun | pipeline_control/control.py:589-696 | an active run publishes exactly when the four tasks are proven under its manifest and its audit passes: the attempt succeeds and the batch is published last with intervals and both transitions; a batch published before keeps its row |
| Lifecycle.IntervalRows | pipeline_control/control.py:661-672 | the interval rows of a batch are its bounds that advance, each with its own low and high |
| Lifecycle.OverlapIsRefused | pipeline_control/init/001_schema.sql:146-150 | over any tables, a publication whose interval would share an offset with an existing one is refused as a whole |
| Lifecycle.AnswerOfPublishing | pipeline_control/control.py:589-660 | publication answers yes exactly when it takes place, or did for this run under this manifest |
| Lifecycle.FailingARun | pipeline_control/control.py:699-739 | the attempt of an active run is aborted and its batch, if running, failed with a log row; a published batch keeps its row, and a run unknown or ended changes nothing |
| Lifecycle.FailedRunReopens | pipeline_control/control.py:366-444 | the batch of a failed run is opened at once by a new run under the next attempt number |
| Lifecycle.FailedRunIsRetried | pipeline_control/control.py:366-739 | and that run publishes the batch exactly when its counts reconcile |
| Lifecycle.SupersedingABatch | pipeline_control/control.py:742-762 | exactly a created or failed batch is given up, after which no attempt runs and every batch is finished |
| ControlInvariant.SealedFacts | pipeline_control/control.py:255-286 | a freshly sealed payload is valid, takes every new listed object, continues the chain and lists only transactions past the published boundary |
| ControlInvariant.CreateKeepsInv | pipeline_control/control.py:211-363 | creation, crashed or not, keeps the control-plane invariant |
| ControlInvariant.StartKeepsInv | pipeline_control/control.py:366-444 | starting an attempt keeps the invariant |
| ControlInvariant.RecordKeepsInv | pipeline_control/control.py:447-586 | recording evidence keeps the invariant |
| ControlInvariant.PublishKeepsInv | pipeline_control/control.py:589-696 | publication keeps the invariant |
| ControlInvariant.FailKeepsInv | pipeline_control/control.py:699-739 | failing a run keeps the invariant |
| ControlInvariant.SupersedeKeepsInv | pipeline_control/control.py:742-762 | superseding keeps the invariant |
| ControlInvariant.ReachableInv | pipeline_control/control.py:211-762 | every interleaving of the steps, crashes included, satisfies the invariant |
| ControlInvariant.PublishedIntervalsReach | pipeline_control/control.py:255-271 | the intervals of the first n publications are contiguous and reach the n-th highs |
| ControlInvariant.ContiguousExcludes | pipeline_control/init/001_schema.sql:135-151 | contiguous intervals never overlap |
| ControlGuarantees.OneBatchAtATime | pipeline_control/control.py:231-253 | in every reachable state one unfinished batch at most, the last created; one running attempt at most, on it or on the last published; logs are allowed paths and VALIDATED is never committed |
| ControlGuarantees.LogsLeadToTheState | pipeline_control/control.py:43-61 | in every reachable state each log begins with the creation, leads over the allowed transitions only, and ends in the state of its batch |
| ControlGuarantees.PublishedIntervalsAreContiguous | pipeline_control/control.py:255-271 | in every reachable state published intervals start at -1, continue each other per partition, and reach the next batch's lows |
| ControlGuarantees.PublishNeverOverlaps | pipeline_control/init/001_schema.sql:146-150 | a publication never meets the exclusion constraint |
| ControlGuarantees.NoOffsetIsPublishedTwice | pipeline_control/init/001_schema.sql:135-151 | in every reachable state no offset of a partition lies in two published intervals |
| ControlGuarantees.ChainContinuesExactlyWhenListingCovers | pipeline_control/control.py:217-271 | a sealed batch continues the chain if and only if its listing shows every partition of the last publication |
| ControlGuarantees.HistoryNeverChanges | pipeline_control/manifest.py:453-505 | stored documents, audits, logs, publications, finished batches and ended attempts with their evidence never change later |
| ControlGuarantees.SuccessIsProven | pipeline_control/control.py:601-634 | a successful attempt has exactly the four task rows with its checksum, reader mode and partition sums, and a passing audit matching its file |
| ControlGuarantees.PublishedIsComplete | pipeline_control/control.py:632-634 | a published batch read every sealed object once and its source control is balanced |
| ControlGuarantees.RowsMatchTheirManifests | pipeline_control/control.py:286-355 | in every reachable state each batch row points at a stored valid document with its checksum and id and repeats its bounds and source control |
| ControlGuarantees.ExistingBatchIsReturned | pipeline_control/control.py:211-229 | asking for an existing batch changes nothing and returns its own checksum, or the error of the discovery that comes first, which fails exactly on an empty or repeating listing |
| ControlGuarantees.OrphanedManifestDecides | pipeline_control/control.py:286-312 | over an orphaned manifest creation succeeds if and only if the tables admit it and the payload sealed now is the stored one |
| Progress.FullAttemptPublishesExactly | pipeline_control/control.py:366-696 | from every reachable state an attempt that runs to its end over a created or failed batch publishes it if and only if its counts reconcile with the sealed manifest |
| FirstBatch.SomeRunPublishes | pipeline_control/control.py:211-696 | a run over one event and one ledger row that meets the hypotheses of the publication results and publishes a batch |
| FirstBatch.SomePipelineRunPublishes | pipeline_control/control.py:211-696 | a run that also loads a satellite, meets the hypotheses of the pipeline results and ends published |
| Publication.SealTakesInterval | pipeline_control/manifest.py:150-181 | a manifest holds exactly the Bronze objects within its bounds |
| Publication.EachObjectIsPublishedOnce | pipeline_control/control.py:661-672 | a Bronze object is in exactly one published manifest, once, if and only if it lies at or below its partition's published high |
| Publication.UnionIsTheCappedReader | scripts/4_process_cdc_raw_vault.py:297-337 | published manifests together hold what the legacy reader selects under the last highs |
| Transactions.PublishedTransactionsAreDisjoint | pipeline_control/control.py:88-103 | published batches list disjoint transactions with increasing commit boundaries |
| Transactions.PublishedTransactionsAreWhole | scripts/4_process_cdc_raw_vault.py:1395-1419 | every event of a published batch belongs to a listed complete transaction, and the expected counts sum to its objects |
| Transactions.NoTransactionIsSplit | pipeline_control/control.py:76-178 | a transaction with an event in one published batch has as many there as its ledger row expects and none in any other |
| Compression.OrdersAgreeExactlyWithoutNulls | scripts/4_process_cdc_raw_vault.py:989-1012 | the ascending and descending window orders decide a pair alike if and only if no null decides it |
| Compression.CompressionKeepsEveryState | scripts/4_process_cdc_raw_vault.py:678-694 | for each raw row the last kept row not behind it carries the same state, nulls or not |
| Compression.CompressionKeepsOnlyChanges | scripts/4_process_cdc_raw_vault.py:678-694 | two kept rows of an entity with no kept row between them differ in state |
| Compression.LatestKeptCarriesLastState | scripts/4_process_cdc_raw_vault.py:986-1006 | if the ranking follows the window order on an entity, its kept row ranked first exists and carries the state of its last raw row |
| Compression.RankingShowsLastStateExactly | scripts/4_process_cdc_raw_vault.py:986-1006 | for every assignment of states the kept row ranked first carries the last state, if and only if the ranking puts the later of any two rows of an entity first |
| IncrementalLoad.IncrementalCompressionIsRebuild | scripts/4_process_cdc_raw_vault.py:973-1057 | if the batch lies behind the history and no null decides a pair of an entity it touches, per-batch change detection plus the comparison with persisted state is change detection over the whole history, A-B-A included |
| IncrementalLoad.RebuildLawIsExact | scripts/4_process_cdc_raw_vault.py:973-1057 | that law holds for every assignment of states if and only if this condition on positions holds |
| IncrementalLoad.LoadRebuildsOrRaises | scripts/4_process_cdc_raw_vault.py:986-1057 | a bounded load raises if and only if superseded rows of its events remain; otherwise the table becomes the rebuild |
| IncrementalLoad.ReplayInsertsNothing | scripts/4_process_cdc_raw_vault.py:915-945 | repeating a successful load gives the same table and cannot raise |
| PersistedState.LoadRefusesExactly | scripts/4_process_cdc_raw_vault.py:973-1043 | a load is refused for its order exactly when some entity's first row of the batch begins at or behind, by LSN or by offset, the latest row an earlier batch stored for it, and as a duplicate exactly when two of its changes share an event |
| PersistedState.LoadStoresExactly | scripts/4_process_cdc_raw_vault.py:915-1057 | otherwise it adds exactly the rows that change the state of the preceding batch row, or lead the batch and differ from the latest stored row, if their event is not stored yet |
| BoundaryLaw.BoundedLawIsExact | scripts/4_process_cdc_raw_vault.py:973-1057 | for all assignments of states the load of a batch raises or leaves the rebuild, if and only if a condition on positions holds: the batch passes behind no row that can be latest of some entity it touches, or each row it passes behind has the entity's whole history before the batch and no later history row ranked below it |
| BoundaryLaw.LateRowPassesTheCheck | scripts/4_process_cdc_raw_vault.py:1007-1043 | an input without that condition: a late row between the stored row and one of unchanged state loads without a raise, and the table lacks a row of the rebuild |
| IncrementalLoad.NullPositionBreaksTheRebuild | scripts/4_process_cdc_raw_vault.py:624-629 | with one null LSN the incremental table differs from the rebuild |
| BoundedRun.VaultJob.Merge | scripts/4_process_cdc_raw_vault.py:915-945 | inserts exactly the candidates whose event is not stored, and counts candidates and inserted rows |
| BoundedRun.VaultJob.LoadTable | scripts/4_process_cdc_raw_vault.py:948-970 | refuses candidates that repeat an event before writing, otherwise merges them |
| BoundedRun.VaultJob.LoadLoanLinks | scripts/4_process_cdc_raw_vault.py:565-590 | the loan link is staged over the links and hub stored at that moment and merged by hash key |
| BoundedRun.VaultJob.RunValidate | scripts/4_process_cdc_raw_vault.py:1060-1072 | refuses a batch without events before anything is written, otherwise merges its quarantine rows |
| BoundedRun.VaultJob.RunCore | scripts/4_process_cdc_raw_vault.py:1075-1095 | hub after hub, then the two links, are the core tasks of the plan |
| BoundedRun.VaultJob.RunSatellites | scripts/4_process_cdc_raw_vault.py:1191-1219 | the table loop and the current-state satellites: without an error every named satellite, loan effectivity included, holds exactly what the bounded load of its events yields over the tables before, and an error comes exactly when one of these loads raises |
| BoundedRun.VaultJob.RunCurrent | scripts/4_process_cdc_raw_vault.py:1154-1188 | the last three satellites are all compared before the first of them is merged |
| BoundedRun.VaultJob.RunJob | scripts/4_process_cdc_raw_vault.py:1697-1790 | a manifest without objects runs nothing; a whole run succeeds exactly when it has events and no load raises, and then stores every key and row of the batch |
| BoundedRun.WholeRunStoresItsRows | scripts/4_process_cdc_raw_vault.py:1060-1219 | behind a run that ends without error every satellite holds exactly the result of loading its events into the table before, and every hub, link and quarantine key staged is in its table |
| VaultTables.CrashAndRetryConverge | scripts/4_process_cdc_raw_vault.py:1060-1219 | a run of event count, hub merges, link merges and satellites, loan effectivity resolved over the current links included, ends as one uninterrupted run wherever it is cut and repeated, if and only if it refuses an empty batch or its loan links are settled |
| BoundedRun.WholeRunConverges | scripts/4_process_cdc_raw_vault.py:1060-1219 | the same for the whole plan of a bounded run, the condition stated over the number of events, the stored links and the application numbers stored or staged |
| VaultTables.AnyCrashesConverge | scripts/4_process_cdc_raw_vault.py:1075-1219 | so do any number of cut or raising runs |
| VaultTables.RetriedTasksInsertNothing | scripts/4_process_cdc_raw_vault.py:1075-1219 | tasks executed again in any order behind their first success leave the tables of one run as far as it got |
| VaultTables.OneApplicationConverges | cdc/DATA_VAULT_MAPPING.md:125-127 | a batch in which each loan names one application settles its links over any vault, so every retry converges |
| Pipeline.BatchFollowsHistory | scripts/4_process_cdc_raw_vault.py:1007-1012 | a batch's rows lie behind the published history of each entity |
| Pipeline.ReachablePipe | scripts/4_process_cdc_raw_vault.py:1191-1219 | control steps and table loads in any order keep control invariant, table invariant and the link between them |
| Pipeline.PublishedVaultIsRebuild | scripts/4_process_cdc_raw_vault.py:608-694 | after any run whose last created batch is published, every satellite equals change detection over all events up to the published highs |
| Pipeline.UnpublishedVaultKeepsTheRebuild | scripts/4_process_cdc_raw_vault.py:973-1057 | before that, a satellite holds the published rebuild and at most rows of the unpublished batch's events |
| Pipeline.LoadRaisesExactlyOnSupersededRows | pipeline_control/control.py:742-762 | in every reachable state a load raises if and only if superseded rows of its events remain |
| Pipeline.SupersededRowsBlockPublication | pipeline_control/control.py:589-635 | while such rows remain no step publishes the batch |
| Pipeline.RepeatedLoadInsertsNothing | pipeline_control/control.py:407-413 | repeating a load, or replaying the last published batch, inserts nothing |
| JobPipeline.JobLeavesTheRebuild | scripts/4_process_cdc_raw_vault.py:1191-1219 | in every reachable state a whole job over the events of the running batch that ends without error leaves each satellite as change detection over published and batch events |
| JobPipeline.JobRaisesExactlyOnSupersededRows | scripts/4_process_cdc_raw_vault.py:973-1043 | and it raises exactly when the batch is empty or superseded rows of its events remain in some table |
| Hubs.KeptAreFirstArrivals | scripts/4_process_cdc_raw_vault.py:411-423 | one row per key remains, and no row of its key arrives before it |
| Hubs.FirstArrivalInFields | scripts/4_process_cdc_raw_vault.py:411-423 | in the columns compared: the kept row was loaded no later than any other of its key, then is effective no later, then comes first by topic, partition and offset, nulls last |
| Hubs.LoadIsInsertOnly | scripts/4_process_cdc_raw_vault.py:1075-1095 | a load adds the batch's new keys, keeps stored rows, and repeated adds nothing |
| Hubs.HubHasEveryKeyOnce | scripts/4_process_cdc_raw_vault.py:426-436 | after any batches a hub has exactly one row per key ever seen |
| Hubs.IncrementalHubIsRebuild | scripts/4_process_cdc_raw_vault.py:411-436 | the incremental hub stores a first arrival over the whole history for every key if and only if no later batch brings an arrival before all those of the key's first batch |
| LoanContext.ReplayIsStableExactly | scripts/4_process_cdc_raw_vault.py:470-590 | a second core phase over a batch changes nothing if and only if no loan event whose application the batch lacks meets a new link of its loan ranked ahead of all stored and new ones, its application in the hub, while the event's own link under that number is neither stored nor staged |
| LoanContext.RereadingOwnLinksIsStable | scripts/4_process_cdc_raw_vault.py:470-562 | over any vault, if each loan of the batch names one application, re-reading the links just written changes no answer, and that condition holds |
| LoanContext.LatestAppIsTop | scripts/4_process_cdc_raw_vault.py:529-544 | no application event of the id outranks the chosen one |
| LoanContext.LatestLinkIsTop | scripts/4_process_cdc_raw_vault.py:479-490 | no persisted link of the loan outranks the chosen one |
| LoanLookup.ResolvedIsGiven | scripts/4_process_cdc_raw_vault.py:470-562 | a loan event is given the number of its batch's application event with the greatest LSN and position, otherwise that of the loan's stored link ranked first, if the hub has it, otherwise none |
| LoanLookup.CoreStoresExactly | scripts/4_process_cdc_raw_vault.py:565-590 | the core phase adds to the hub exactly the batch's numbers, and to the links only those of loan events so given a number, under keys not stored before |
| LoanLookup.CoreMissesNoLink | scripts/4_process_cdc_raw_vault.py:565-590 | every loan event that is no delete and is given a number has a link under its key behind the core phase |
| LoanLookup.EffectivityIsExact | scripts/4_process_cdc_raw_vault.py:764-798 | every loan event given a number stages one effectivity row, its context and status text as the state, deletes included, and nothing else is staged |
| LoanContext.ChangedApplicationBreaksReplay | cdc/DATA_VAULT_MAPPING.md:125-127 | an input without that condition: a replay inserts another link |
| LoanContext.IncrementalResolves | scripts/4_process_cdc_raw_vault.py:498-562 | a loan event resolves exactly when its batch has the application or an earlier batch had it with an event of the loan |
| LoanContext.RebuildResolves | scripts/4_process_cdc_raw_vault.py:529-562 | in a full rebuild it resolves exactly when any batch has the application |
| LoanContext.LoanIsKeptExactlyWithItsApplication | scripts/4_process_cdc_raw_vault.py:545-562 | incremental loading of a loan equals the rebuild if and only if the first batch with the loan holds its application |
| LoanContext.KeptLoanResolvesByEventAlone | scripts/4_process_cdc_raw_vault.py:764-798 | a loan that starts in its application's batch resolves every event to one number, so its effectivity rows depend on the event alone |
| LoanPipeline.ResolvedRowsAreStagedExactly | scripts/4_process_cdc_raw_vault.py:764-798 | the effectivity rows resolved over the links of the moment are those fixed per event if and only if every loan event of the batch finds its application |
| LoanPipeline.EveryLoadFindsItsApplications | scripts/4_process_cdc_raw_vault.py:470-562 | in any run of creations, merges, loads, retries, supersessions and publications, if sealed batches show applications inserted first and each loan first together with its application, every effectivity load resolves every loan event of its batch |
| LoanPipeline.PublishedLakeIsRebuild | scripts/4_process_cdc_raw_vault.py:764-798 | when the last created batch of such a run is published, every satellite, the loan effectivity included, is change detection over all events up to the published highs |
| FirstLake.SomeLakeRunPublishes | dags/cdc_raw_vault_dag.py:179-188 | a run with hub merge, link merge and effectivity load that meets these hypotheses and ends published |
| Classification.ClassificationConservesExactly | scripts/4_process_cdc_raw_vault.py:1367-1394 | accepted plus distinct quarantined keys equals the events if and only if each quarantined key is one event, whatever its number of reasons |
| Classification.DistinctObjectsConserve | scripts/4_process_cdc_raw_vault.py:1367-1394 | a batch of distinct objects always conserves |
| Classification.QuarantinedExactlyByAnOwnReason | scripts/4_process_cdc_raw_vault.py:801-857 | whichever row of a hash is kept, an event is quarantined if and only if it has a reason no other event of its identity has |
| Classification.QuarantineIsExact | scripts/4_process_cdc_raw_vault.py:825-857 | exactly the events with a reason are quarantined, whichever rows are kept, if and only if each of them has a reason of its own |
| Classification.ContractReasonsAreExact | scripts/4_process_cdc_raw_vault.py:825-843 | each of the six contract codes is given exactly to the events its check rejects and no earlier check did, stated over the event's own fields |
| Classification.KeyReasonsAreExact | scripts/4_process_cdc_raw_vault.py:844-857 | a missing-key code is given exactly to the events of its table that carry an image and whose key is null or blank |
| Classification.NoReasonExactlyWhenWellFormed | scripts/4_process_cdc_raw_vault.py:825-857 | an event has no reason exactly when it is well formed in those terms |
| Classification.QuarantineHashesAgreeExactly | scripts/4_process_cdc_raw_vault.py:801-812 | two quarantine rows share a hash key exactly when event id and reason agree |
| Classification.SharedIdentityEscapesQuarantine | scripts/4_process_cdc_raw_vault.py:857 | with a shared identity an invalid event is accepted unnoticed |
| Classification.LoadedHubMissesNothing | scripts/4_process_cdc_raw_vault.py:1276-1304 | after a load no hub or link key of the batch is missing |
| Classification.LoadedSatelliteMissesNothing | scripts/4_process_cdc_raw_vault.py:1305-1327 | restaging a loaded satellite batch finds every event in its table |
| Classification.BoundedReconciliationRows | scripts/4_process_cdc_raw_vault.py:1337-1354 | one row per checked table, passing exactly when the table holds every staged key |
| CurrentState.CurrentStatusIsTheFold | dbt/models/intermediate/int_current_entity_status.sql:3-31 | an entity is current if and only if its last change is not a delete, although only changes are stored |
| CurrentState.CurrentContextIsTheFold | dbt/models/intermediate/int_current_application_context.sql:3-21 | the current context is the context of the last change, unless that is a delete |
| CurrentState.PublishedStatusIsTheFold | dbt/models/intermediate/int_current_entity_status.sql:3-31 | the same over the satellite the pipeline loaded, after any run that ends published |
| CurrentState.PublishedContextIsTheFold | dbt/models/intermediate/int_current_application_context.sql:3-21 | the same for contexts |
| CurrentState.DetailsShowTheLastState | dbt/models/gold/dim_customer_current.sql:15-22 | for every assignment of states the detail row shown for each entity carries its last state, if and only if event times follow positions |
| CurrentState.BackdatedEventShowsStaleDetails | dbt/models/gold/dim_customer_current.sql:15-22 | an input without that condition: the earlier detail row is shown |
| Gold.CurrentIsOnePerKey | dbt/models/intermediate/int_current_loan_context.sql:3-21 | a current-state view has at most one row per key, all active |
| Gold.RankFirstIsTop | dbt/models/gold/dim_customer_current.sql:15-38 | every key keeps a row and no row of its key outranks it |
| Gold.BaseExact | dbt/models/gold/dim_customer_current.sql:48-75 | a dimension row is exactly a hub row with an active status and a latest detail row |
| Gold.LoansAreExact | dbt/models/gold/fct_loans_current.sql:43-88 | the loan fact holds exactly the active loans with details, active context, application and all four active dimensions |
| Gold.FactsHaveOneRowPerKey | dbt/models/gold/fct_loans_current.sql:71-88 | facts have one row per hash key for every vault |
| Gold.NothingDeletedInLoans | dbt/tests/assert_deleted_entities_absent_from_current_gold.sql:1-43 | behind a loan fact the loan, its context and every dimension are active |
| GoldState.StatusViewIsTheFold | dbt/models/intermediate/int_current_entity_status.sql:3-31 | the current-status view over the compressed satellite has a row of a key if and only if the last change of the key is no delete |
| GoldState.LoanFactIsTheFold | dbt/models/gold/fct_loans_current.sql:43-88 | a loan is in the fact if and only if the last changes of loan, context and dimensions are no deletes, the application is in its hub, and loan and dimensions have details |
| PublishedGold.PublishedLoanFactIsTheFold | dbt/models/gold/fct_loans_current.sql:43-88 | over the hubs and satellites a published run leaves, a loan is in the fact if and only if, among the Bronze events up to the published highs, loan, context and dimensions have details and no delete as last event; the application is never missing |
| Portfolio.PortfolioGrain | dbt/models/gold/agg_customer_loan_portfolio.sql:20-26 | one portfolio row per customer and currency |
| Portfolio.PortfolioCountsAndSums | dbt/models/gold/agg_customer_loan_portfolio.sql:1-26 | a portfolio row counts the facts of its customer and currency and those of each status, and its principal is the sum of their principals, null when none has one |
| Portfolio.EveryLoanHasItsRow | dbt/models/gold/agg_customer_loan_portfolio.sql:20-26 | every fact is counted in exactly one portfolio row, that of its customer and currency |
| Portfolio.PortfolioReconciles | dbt/tests/assert_customer_portfolio_reconciles.sql:1-32 | per currency, loan counts, status counts and principal sums of the portfolio equal the fact's |
| Lineage.DimensionsAreTraced | dbt/models/gold/gold_row_lineage.sql:89-186 | every dimension row has lineage |
| Lineage.FactsAreTraced | dbt/models/gold/gold_row_lineage.sql:188-278 | every fact row has lineage |
| Lineage.PortfolioIsTraced | dbt/models/gold/gold_row_lineage.sql:280-326 | every portfolio row has lineage |
| Lineage.LineageHasNoDuplicates | dbt/tests/assert_gold_row_lineage_unique.sql:1-9 | no Gold key names one source event of one satellite twice |
| Provenance.LineageIsExact | dbt/models/gold/gold_row_lineage.sql:73-326 | a lineage row exists exactly for the latest detail row of each current entity, the current context row of each application and loan, and the loan and customer details behind each portfolio row |
| Provenance.TracedEventIsStored | dbt/models/gold/gold_row_lineage.sql:73-326 | every event a lineage row names is that of a row of the satellite it names, under a key the Gold row shows: the latest of the key by event time, LSN and position, or an active context row |
| Bronze.PersistedIsAPrefix | cdc/bronze/writer.py:285-323 | under any writers, crashes, restarts and resets the stored messages of a partition are exactly a prefix of its log that covers every committed offset |
| Bronze.CommittedMessagesAreStored | cdc/bronze/writer.py:166-214 | in every run each committed message has its object under its own path, with its coordinate, key and value |
| Bronze.PersistedPrefixCarriesTheMessages | cdc/bronze/writer.py:166-214 | at any moment a prefix of the log that covers the commits is stored in full, and no object of a later message |
| Bronze.NothingIsOverwritten | cdc/bronze/writer.py:237-255 | an object that exists is never changed or removed |
| Bronze.ReplayAddsNothing | cdc/bronze/writer.py:225-255 | delivering a committed message again adds no object and does not stop the writer |
| Bronze.ConflictStopsTheWriter | cdc/bronze/writer.py:225-234 | a writer stops exactly on an unacceptable message or a key taken by another event, storing and committing nothing |
| Bronze.DeliveryStopsExactly | cdc/bronze/writer.py:217-260 | a delivery stops the writer exactly when it is unreadable, names an unsafe or unknown part, or finds its key taken by another coordinate or by another key and value |
| Bronze.BronzeWriter.PersistRecord | cdc/bronze/writer.py:237-260 | creates an absent key, accepts the same event, refuses another one, and passes a storage error on whether or not the object was created |
| Bronze.BronzeWriter.Run | cdc/bronze/writer.py:285-323 | the poll loop has the specified effect on store, commits and outcome, for storage errors and failed commits too, applied or not |
| BronzeLoop.LoopHandlesEachResult | cdc/bronze/writer.py:285-323 | field by field: an empty result is ignored, a broker error or stop signal ends the loop with nothing changed, and a message is stored in full under its own path before the commit, unless it cannot be written or its path is taken |
| BronzeLoop.TurnStoresTheNextMessage | cdc/bronze/writer.py:285-323 | one turn of a writer stores the next message of its partition and commits behind it |
| BronzeLoop.AssignmentContinues | cdc/bronze/writer.py:263-283 | a writer assigned a partition continues at its committed offset, or at the first without one |
| BronzeLoop.SomeMessageIsStored | cdc/bronze/writer.py:285-323 | a run over an empty store in which a message is sent, stored and committed |
| Bronze.DeliveryIsThreeSteps | cdc/bronze/writer.py:306-308 | one turn of the loop, with or without a fault, is the poll, put and commit of the several-writer machine up to a crash |
| BronzeListing.ListingsAreClosed | pipeline_control/manifest.py:75-117 | a listing shows only objects of any later one, and with an object every earlier offset of its partition |
| Ledger.CommitsOnceExactly | source/workload/workload.py:159-237 | for every script and every sequence of steps of any processes, no scenario commits twice if and only if no process commits one that another committed while it stood in its action, or whose COMPLETED row an exception had reopened |
| WorkloadRun.InvokingAProcess | source/workload/workload.py:100-134 | a process enters its run before the first scenario unless refused, completed or raising; refused or raising it leaves the run FAILED |
| WorkloadRun.AdvancingAProcess | source/workload/workload.py:159-190 | a process skips a completed scenario, marks any other RUNNING before its action without losing what its row says, and behind the last one marks the run COMPLETED |
| WorkloadRun.ActingInAProcess | source/workload/workload.py:191-216 | an action commits its changes together with the COMPLETED row that counts them and names the commit |
| WorkloadRun.RaisingInAProcess | source/workload/workload.py:148-225 | an exception ends the process, fails its run and the row of the scenario it is executing, which keeps its count and transaction |
| Ledger.LedgerIsSound | source/workload/workload.py:159-237 | with one process per run that condition is that no scenario is committed after an exception in the log line behind its commit; without one a row is COMPLETED exactly when its changes committed; a COMPLETED run has all scenarios COMPLETED |
| Ledger.RowsAreTruthful | source/workload/workload.py:191-216 | a row names a transaction of its own scenario, a COMPLETED row names one, and it counts that transaction's changes if the actions report what they change |
| Ledger.RowsHaveUniqueTxids | source/init/006_add_workload_audit_boundary.sql:11-13 | no two rows name one transaction, whatever processes do |
| Ledger.CompletedRowsStay | source/workload/workload.py:168-237 | a completed row is rewritten exactly by another commit of its scenario or by an exception in a process executing it |
| Ledger.TwoProcessesCommitTwice | source/workload/workload.py:168-188 | an input of the first kind: two processes on one run id commit a scenario twice |
| Ledger.LateExceptionCommitsTwice | source/workload/workload.py:217-237 | an input of the second kind: with one process per run, one whose log line raises behind its commit, invoked again, commits a scenario twice |
| Workload.Transaction.Snapshot | source/workload/workload.py:272-436 | for any sizes the reported event count is the number of changed rows, table by table, and it fails exactly when it divides by zero or the database refuses one of its rows |
| Workload.Transaction.InsertInstallments | source/workload/workload.py:240-269 | raises exactly on a zero count or a refused row, otherwise inserts and reports exactly the given number of rows |
| Workload.Transaction.ApproveLoan | source/workload/workload.py:517-579 | raises exactly without a pending application, a rate or an installment or on a refused row, otherwise reports two plus the installments, which is what it changed |
| Workload.SourceDatabase.Start | source/workload/workload.py:100-134 | starts or resumes a run, refuses different options, and skips a completed run; its log line may raise behind the commit |
| Workload.SourceDatabase.RunAction | source/workload/workload.py:439-677 | each of the six actions raises exactly when its query finds too little or the database refuses one of its rows, the ledger row included, and otherwise reports as many changes as it made |
| Workload.SourceDatabase.ExecuteEvent | source/workload/workload.py:159-237 | skips a completed scenario, commits data and ledger row together, or leaves a FAILED row: without data when the action raises, behind the commit when the log line does |
| Workload.SourceDatabase.RunChanges | source/workload/workload.py:690-717 | performs the scenarios in order up to the first that raises |
| Workload.SourceDatabase.Execute | source/workload/workload.py:894-920 | the run is closed COMPLETED or FAILED with its exit code, also when its options differ from those it was started with, and an exception of its first or last log line leaves it FAILED, be it completed |
| WorkloadRun.InvokingARun | source/workload/workload.py:894-920 | an invocation exits with 0 and a COMPLETED run row exactly when nothing raised or the run was completed before under the same options, otherwise with 1 and a FAILED row; refused and completed runs perform no scenario, and other runs stay |
| WorkloadRun.ExecutingTheScenarios | source/workload/workload.py:690-717 | scenarios are performed up to the first that raises; nothing raises exactly when every log line succeeds and every action does unless its scenario is completed by then; rows of other scenarios and runs stay, and new commits are those of performed actions |
| WorkloadRun.StopsAtTheFirstRaise | source/workload/workload.py:690-717 | a run that raises stops at the first scenario that does, behind the completed ones before it |
| WorkloadRun.ExecutingAScenario | source/workload/workload.py:159-225 | a completed scenario is skipped; any other commits its changes with a COMPLETED row that counts them and names the commit, or leaves a FAILED row, behind the commit if only the log line raised |
| WorkloadRun.SnapshotInNumbers | source/workload/workload.py:272-436 | the size of the snapshot in closed form, and it raises exactly for applications without customers or loans without installments |
| WorkloadRun.ActionsInNumbers | source/workload/workload.py:272-677 | how many rows each of the six actions changes and reports, and when it raises, in numbers |
| Workload.TurnIsSteps | source/workload/workload.py:159-237 | executing one event is what the process machine of the ledger does between two scenarios |
| Workload.RunCompletesAll | source/workload/workload.py:690-717 | a run that raises nowhere completes every scenario |
| Workload.CompletedRunIsIdempotent | source/workload/workload.py:168-177 | repeating a completed run changes nothing |

## Left out

- LoanPipeline.PublishedLakeIsRebuild: a load that misses an application drops its rows instead of raising; runs over batches that show a loan first without its application are not covered, `LoanIsKeptExactlyWithItsApplication` says what they lose.
- BoundedRun.VaultJob.RunValidate: the quarantine rows of a run are taken as given, one per hash.
- Publication.EachObjectIsPublishedOnce: a listing is assumed to show every earlier offset of its partition, which `BronzeListing.ListingsAreClosed` proves of the writer.
- Transactions.PublishedTransactionsAreDisjoint: orders commit boundaries, not the event LSN ranges stored beside them, which the code does not compare.
- ManifestValidation.ValidateManifestDocument: works on typed payloads, so checks of JSON types and the optional totals of version 1 documents are not modelled.
- Bronze.BronzeWriter.Run: JSON and envelope parsing is a flag of the message, the schema list and folder prefix are constants, and offsets are positions in an uncompacted log.
- Workload.Transaction.Snapshot: columns, dates and generated names are left out; only which rows change, and which one the database refuses, is kept.
- Encodings.HashKeysAgreeExactly: upper case of ASCII letters only.
- Portfolio.PortfolioReconciles: averages and first and last dates of the portfolio are left out.
- Gold.LoansAreExact: casts, age bands and timestamps of the selected columns are left out.
- The per-rule audit result table: it repeats the rules of the stored evidence file.
- The current-state fixture of the workload: straight-line counts of two or three rows.
- `fail_airflow_run` when the database is unreachable: the step then does not happen.
- The comparison of two baseline reports and its collectors: report plumbing.
- The unbounded legacy run, the live source counts and the overwrite-only medallion scripts.
- Spark, Delta, S3, Kafka, PostgreSQL, Airflow, Trino and dbt themselves: only their contracts (atomic merge, conditional put, ordered poll, transactional commit).
- Catalog, observability, access control, dashboards and deployment.
