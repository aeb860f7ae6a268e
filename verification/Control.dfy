/**
 The batch control plane as atomic transactions over its tables and the object store.

 `created` and `published` hold the batch ids in the order of created_at and published_at, a
 logical clock that advances with each commit. Object-store writes survive a rolled-back
 transaction; everything else of a raising transaction is undone.
 */
module Control {
  import opened Wrappers
  import opened Manifest
  import opened ManifestValidation
  import opened LedgerControl
  import opened Audit

  datatype BatchState = CREATED | RUNNING | VALIDATED | PUBLISHED | FAILED | SUPERSEDED

  datatype AttemptState = ACTIVE | SUCCESS | ABORTED

  datatype Task = ValidateBronze | LoadCore | LoadSatellites | ReconcileAll | UnexpectedTask(name: string)

  datatype Uri = ManifestUri(batchId: string)

  datatype Batch = Batch(airflowRunId: string, uri: Uri, sha: Digest, state: BatchState,
                         partitions: seq<Bound>, transactions: seq<Transaction>,
                         boundaryHigh: Option<int>, expected: int, observed: int, untracked: int)

  datatype Attempt = Attempt(batchId: string, number: nat, sha: Digest, state: AttemptState)

  datatype Evidence = Evidence(sha: Digest, readerMode: string, objects: int, bytes: int)

  /** The digest of an evidence file is the file itself: SHA-256 is injective. */
  datatype AuditRow = AuditRow(evidence: AuditPayload, state: Verdict, ruleCount: nat, failedRules: nat)

  datatype Interval = Interval(batchId: string, topic: string, partition: int, low: int, high: int)

  datatype StateEvent = StateEvent(from: Option<BatchState>, to: BatchState)

  datatype Db = Db(batches: map<string, Batch>, created: seq<string>, published: seq<string>,
                   attempts: map<string, Attempt>, evidence: map<(string, nat, Task), Evidence>,
                   audits: map<(string, nat), AuditRow>, intervals: seq<Interval>,
                   log: map<string, seq<StateEvent>>)

  datatype Store = Store(manifests: map<Uri, Document>, auditFiles: map<(string, nat), AuditPayload>)

  datatype World = World(db: Db, store: Store)

  datatype ControlError =
    | BadBatchId | RunningAttempt | Unfinished | Unknown | WrongState | NotLatest | ForeignRun
    | UnexpectedEvidence | ChecksumDiffers | MissingEvidence | AuditNotPassing | AuditFailed
    | AuditConflict | Overlap | ManifestFailure(error: ManifestError) | Crashed

  const EXPECTED_TASKS: set<Task> := {ValidateBronze, LoadCore, LoadSatellites, ReconcileAll}

  // ---------------------------------------------------------------- state machine of a batch

  predicate AllowedTransition(from: BatchState, to: BatchState) {
    (from, to) in {(CREATED, RUNNING), (FAILED, RUNNING), (RUNNING, VALIDATED), (VALIDATED, PUBLISHED),
                   (RUNNING, FAILED), (CREATED, SUPERSEDED), (FAILED, SUPERSEDED)}
  }

  /** A state log is a path of allowed transitions from creation to the current state. */
  predicate LogPath(events: seq<StateEvent>, current: BatchState) {
    && events != [] && events[0] == StateEvent(None, CREATED) && events[|events| - 1].to == current
    && forall i | 0 < i < |events| ::
         events[i].from == Some(events[i - 1].to) && AllowedTransition(events[i - 1].to, events[i].to)
  }

  // ---------------------------------------------------------------- queries

  predicate HasRunningAttempt(db: Db) {
    exists run | run in db.attempts :: db.attempts[run].state == ACTIVE
  }

  predicate IsUnfinished(batch: Batch) {
    batch.state != PUBLISHED && batch.state != SUPERSEDED
  }

  predicate HasUnfinishedBatch(db: Db) {
    exists id | id in db.batches :: IsUnfinished(db.batches[id])
  }

  function HighsOf(bounds: seq<Bound>): map<Identity, int> {
    if bounds == [] then map[] else
    HighsOf(bounds[..|bounds| - 1])[BoundId(bounds[|bounds| - 1]) := bounds[|bounds| - 1].high]
  }

  /** Watermark highs of the batch with the greatest published_at. */
  function PreviousHighs(db: Db): map<Identity, int> {
    if db.published == [] || db.published[|db.published| - 1] !in db.batches then map[]
    else HighsOf(db.batches[db.published[|db.published| - 1]].partitions)
  }

  function MaxOption(a: Option<int>, b: Option<int>): Option<int> {
    if a.None? then b else if b.None? || b.value <= a.value then a else b
  }

  function MaxBoundary(ts: seq<Transaction>): Option<int> {
    if ts == [] then None else MaxOption(MaxBoundary(ts[..|ts| - 1]), Some(ts[|ts| - 1].boundary))
  }

  /** Greatest source boundary over the transactions of all published batches. */
  function PublishedBoundary(batches: map<string, Batch>, published: seq<string>): Option<int> {
    if published == [] then None else
    var id := published[|published| - 1];
    MaxOption(PublishedBoundary(batches, published[..|published| - 1]),
              if id in batches then MaxBoundary(batches[id].transactions) else None)
  }

  ghost function Numbers(attempts: map<string, Attempt>, batchId: string): set<nat> {
    set run | run in attempts && attempts[run].batchId == batchId :: attempts[run].number
  }

  /** `n` is coalesce(max(attempt_number), 0) over the batch. */
  ghost predicate IsLastNumber(attempts: map<string, Attempt>, batchId: string, n: nat) {
    && (forall run | run in attempts && attempts[run].batchId == batchId :: attempts[run].number <= n)
    && (n == 0 || n in Numbers(attempts, batchId))
  }

  ghost function LastNumber(attempts: map<string, Attempt>, batchId: string): (n: nat)
    ensures IsLastNumber(attempts, batchId, n)
  {
    var numbers := Numbers(attempts, batchId);
    assert forall run | run in attempts && attempts[run].batchId == batchId :: attempts[run].number in numbers;
    MaxOf(numbers)
  }

  ghost function MaxOf(numbers: set<nat>): (n: nat)
    ensures (forall x | x in numbers :: x <= n) && (numbers == {} ==> n == 0) && (numbers != {} ==> n in numbers)
  {
    if numbers == {} then 0 else
    var x :| x in numbers;
    var rest := MaxOf(numbers - {x});
    assert numbers == (numbers - {x}) + {x};
    if rest > x then rest else x
  }

  function TasksOf(db: Db, batchId: string, number: nat): set<Task> {
    set k | k in db.evidence && k.0 == batchId && k.1 == number :: k.2
  }

  predicate EvidenceComplete(db: Db, batchId: string, number: nat, sha: Digest) {
    && TasksOf(db, batchId, number) == EXPECTED_TASKS
    && forall k | k in db.evidence && k.0 == batchId && k.1 == number :: db.evidence[k].sha == sha
  }

  predicate AuditPasses(db: Db, batchId: string, number: nat) {
    && (batchId, number) in db.audits
    && db.audits[(batchId, number)].state == PASS && db.audits[(batchId, number)].failedRules == 0
  }

  /** read_manifest with the expected checksum and batch id. */
  predicate ReadsManifest(store: Store, uri: Uri, sha: Digest, batchId: string) {
    && uri in store.manifests
    && var document := store.manifests[uri];
       document.sha == Sha256(document.payload) == sha && document.payload.batchId == batchId
           && Accepted(document.payload)
  }

  /** Half-open ranges (low, high] of one partition that share an offset. */
  predicate Overlaps(a: Interval, b: Interval) {
    a.topic == b.topic && a.partition == b.partition && a.low < b.high && b.low < a.high
  }

  function IntervalsOf(batchId: string, bounds: seq<Bound>): seq<Interval> {
    if bounds == [] then [] else
    var rest, b := IntervalsOf(batchId, bounds[..|bounds| - 1]), bounds[|bounds| - 1];
    if b.high > b.low then rest + [Interval(batchId, b.topic, b.partition, b.low, b.high)] else rest
  }

  predicate ExclusionHolds(intervals: seq<Interval>) {
    forall i, j | 0 <= i < j < |intervals| :: !Overlaps(intervals[i], intervals[j])
  }

  // ---------------------------------------------------------------- create_or_get_batch

  /** `page` is what the bucket listing returned, before the transaction. */
  datatype CreateInput = CreateInput(batchId: string, airflowRunId: string, page: seq<BronzeObject>,
                                     bodies: map<string, Body>, ledger: seq<LedgerRow>, now: string,
                                     sourceAdapter: string, contractVersion: string)

  /** The objects the discovery found. */
  function Listing(c: CreateInput): seq<BronzeObject> {
    if Discover(c.page).Ok? then Objects(Discover(c.page).value) else []
  }

  /** The payload a fresh batch would seal: a preliminary selection, its control, the final payload. */
  function SealedPayload(db: Db, c: CreateInput): Result<Payload, ManifestError> {
    var highs := PreviousHighs(db);
    var preliminary := BuildPayload(c.batchId, Listing(c), highs, c.sourceAdapter, c.contractVersion, c.now, None);
    if preliminary.Err? then preliminary
    else if !AllReadable(c.bodies, preliminary.value.objects) then Err(Malformed)
    else
      var control := SourceControlFor(PublishedBoundary(db.batches, db.published), c.ledger,
                                      Events(c.bodies, preliminary.value.objects));
      BuildPayload(c.batchId, Listing(c), highs, c.sourceAdapter, c.contractVersion, c.now, Some(control))
  }

  function NewBatch(c: CreateInput, payload: Payload): Batch {
    var sc := payload.sourceControl;
    Batch(c.airflowRunId, ManifestUri(c.batchId), Sha256(payload), CREATED, payload.partitions,
          if sc.Some? then sc.value.transactions else [], if sc.Some? then sc.value.boundaryHigh else None,
          if sc.Some? then sc.value.expected else 0, if sc.Some? then sc.value.observed else 0,
          if sc.Some? then sc.value.untracked else 0)
  }

  function InsertBatch(db: Db, c: CreateInput, payload: Payload): Db {
    db.(batches := db.batches[c.batchId := NewBatch(c, payload)], created := db.created + [c.batchId],
        log := db.log[c.batchId := [StateEvent(None, CREATED)]])
  }

  /** write_immutable_manifest: identical bytes are accepted, different bytes raise. */
  predicate ManifestConflicts(store: Store, uri: Uri, document: Document) {
    uri in store.manifests && store.manifests[uri] != document
  }

  /** `crash`: the process dies after the object-store write and before the commit. */
  function CreateOrGet(w: World, c: CreateInput, crash: bool): (Result<Digest, ControlError>, World) {
    if c.batchId == "" || |c.batchId| > 250 then (Err(BadBatchId), w)
    else if Discover(c.page).Err? then (Err(ManifestFailure(Discover(c.page).error)), w)
    else if c.batchId in w.db.batches then
      var b := w.db.batches[c.batchId];
      if ReadsManifest(w.store, b.uri, b.sha, c.batchId) then (Ok(b.sha), w) else (Err(ManifestFailure(Missing)), w)
    else if HasRunningAttempt(w.db) then (Err(RunningAttempt), w)
    else if HasUnfinishedBatch(w.db) then (Err(Unfinished), w)
    else
      var sealed := SealedPayload(w.db, c);
      if sealed.Err? then (Err(ManifestFailure(sealed.error)), w)
      else
        var uri, document := ManifestUri(c.batchId), Document(Sha256(sealed.value), sealed.value);
        if ManifestConflicts(w.store, uri, document) then (Err(ManifestFailure(Conflict)), w)
        else
          var store := w.store.(manifests := w.store.manifests[uri := document]);
          if crash then (Err(Crashed), World(w.db, store))
          else (Ok(document.sha), World(InsertBatch(w.db, c, sealed.value), store))
  }

  // ---------------------------------------------------------------- start_attempt

  function Appended(log: map<string, seq<StateEvent>>, batchId: string, events: seq<StateEvent>)
    : map<string, seq<StateEvent>>
  {
    log[batchId := (if batchId in log then log[batchId] else []) + events]
  }

  predicate LastCreated(db: Db, batchId: string) {
    db.created != [] && db.created[|db.created| - 1] == batchId
  }

  ghost function Start(db: Db, batchId: string, run: string): (Result<(nat, AttemptState), ControlError>, Db) {
    if run in db.attempts then
      var a := db.attempts[run];
      (if a.batchId == batchId then Ok((a.number, a.state)) else Err(ForeignRun), db)
    else if batchId !in db.batches then (Err(Unknown), db)
    else
      var b := db.batches[batchId];
      if b.state !in {CREATED, FAILED, PUBLISHED} then (Err(WrongState), db)
      else if HasRunningAttempt(db) then (Err(RunningAttempt), db)
      else if b.state == PUBLISHED && !LastCreated(db, batchId) then (Err(NotLatest), db)
      else
        var number := LastNumber(db.attempts, batchId) + 1;
        var started := db.(attempts := db.attempts[run := Attempt(batchId, number, b.sha, ACTIVE)]);
        (Ok((number, ACTIVE)),
         if b.state == PUBLISHED then started
         else started.(batches := db.batches[batchId := b.(state := RUNNING)],
                       log := Appended(db.log, batchId, [StateEvent(Some(b.state), RUNNING)])))
  }

  // ---------------------------------------------------------------- record_task_success

  /** The row a query by batch and run finds while the attempt may still be worked on. */
  predicate AttemptOpen(db: Db, batchId: string, run: string) {
    && run in db.attempts && db.attempts[run].batchId == batchId && batchId in db.batches
    && db.attempts[run].state == ACTIVE && db.batches[batchId].state in {RUNNING, PUBLISHED}
  }

  function AuditRowOf(file: AuditPayload): AuditRow {
    var failed := FailedRules(file.rules);
    AuditRow(file, if failed == 0 then PASS else FAIL, |file.rules|, failed)
  }

  function WithEvidence(db: Db, batchId: string, number: nat, task: Task, payload: Payload): Db {
    db.(evidence := db.evidence[(batchId, number, task) :=
                      Evidence(Sha256(payload), payload.readerMode, payload.objectCount, payload.inputBytes)])
  }

  /** Storing the audit row; an attempt's first row wins and a different second one raises. */
  function StoreAudit(w: World, batchId: string, run: string, number: nat, sha: Digest): Result<Db, ControlError> {
    if (batchId, number) !in w.store.auditFiles then Err(AuditConflict)
    else
      var file := w.store.auditFiles[(batchId, number)];
      if !(OfAttempt(file, batchId, number, run, sha) && AuditAccepted(file)) then Err(AuditConflict)
      else
        var key, row := (batchId, number), AuditRowOf(file);
        var audits := if key in w.db.audits then w.db.audits else w.db.audits[key := row];
        if audits[key].evidence != file || audits[key].state != row.state then Err(AuditConflict)
        else Ok(w.db.(audits := audits))
  }

  function Record(w: World, batchId: string, run: string, task: Task, uri: Uri, sha: Digest)
    : (Result<(), ControlError>, Db)
  {
    if task !in EXPECTED_TASKS then (Err(UnexpectedEvidence), w.db)
    else if !ReadsManifest(w.store, uri, sha, batchId) then (Err(ManifestFailure(Malformed)), w.db)
    else if !AttemptOpen(w.db, batchId, run) then (Err(WrongState), w.db)
    else if w.db.attempts[run].sha != sha then (Err(ChecksumDiffers), w.db)
    else
      var number := w.db.attempts[run].number;
      if task == ReconcileAll then
        var stored := StoreAudit(w, batchId, run, number, sha);
        if stored.Err? then (Err(stored.error), w.db)
        else if FailedRules(w.store.auditFiles[(batchId, number)].rules) > 0 then (Err(AuditFailed), stored.value)
        else (Ok(()), WithEvidence(stored.value, batchId, number, task, sha.payload))
      else (Ok(()), WithEvidence(w.db, batchId, number, task, sha.payload))
  }

  // ---------------------------------------------------------------- publish_batch

  function Publish(db: Db, batchId: string, run: string, sha: Digest): (Result<(), ControlError>, Db) {
    if run in db.attempts && db.attempts[run].batchId == batchId && batchId in db.batches
       && db.attempts[run].state == SUCCESS && db.batches[batchId].state == PUBLISHED
    then (if db.attempts[run].sha == sha then Ok(()) else Err(ChecksumDiffers), db)
    else if !AttemptOpen(db, batchId, run) then (Err(WrongState), db)
    else if db.attempts[run].sha != sha then (Err(ChecksumDiffers), db)
    else
      var a, b := db.attempts[run], db.batches[batchId];
      if !EvidenceComplete(db, batchId, a.number, sha) then (Err(MissingEvidence), db)
      else if !AuditPasses(db, batchId, a.number) then (Err(AuditNotPassing), db)
      else
        var attempts := db.attempts[run := a.(state := SUCCESS)];
        if b.state == PUBLISHED then (Ok(()), db.(attempts := attempts))
        else
          var intervals := db.intervals + IntervalsOf(batchId, b.partitions);
          if !ExclusionHolds(intervals) then (Err(Overlap), db)
          else (Ok(()),
                db.(attempts := attempts, batches := db.batches[batchId := b.(state := PUBLISHED)],
                    published := db.published + [batchId], intervals := intervals,
                    log := Appended(db.log, batchId, [StateEvent(Some(RUNNING), VALIDATED),
                        StateEvent(Some(VALIDATED), PUBLISHED)])))
  }

  // ---------------------------------------------------------------- fail_airflow_run, supersede_batch

  function FailRun(db: Db, run: string): Db {
    if run !in db.attempts || db.attempts[run].state != ACTIVE || db.attempts[run].batchId !in db.batches then db
    else
      var a := db.attempts[run];
      var b := db.batches[a.batchId];
      var failed := db.(attempts := db.attempts[run := a.(state := ABORTED)]);
      if b.state == RUNNING then
        failed.(batches := db.batches[a.batchId := b.(state := FAILED)],
                log := Appended(db.log, a.batchId, [StateEvent(Some(RUNNING), FAILED)]))
      else failed
  }

  function Supersede(db: Db, batchId: string): (Result<(), ControlError>, Db) {
    if batchId !in db.batches || db.batches[batchId].state !in {CREATED, FAILED} then (Err(WrongState), db)
    else
      var b := db.batches[batchId];
      (Ok(()), db.(batches := db.batches[batchId := b.(state := SUPERSEDED)],
                   log := Appended(db.log, batchId, [StateEvent(Some(b.state), SUPERSEDED)])))
  }

  /** persist_audit_evidence: the first file of an attempt wins, different bytes raise. */
  function WriteAuditFile(store: Store, batchId: string, number: nat, file: AuditPayload): Store {
    if (batchId, number) in store.auditFiles then store
    else store.(auditFiles := store.auditFiles[(batchId, number) := file])
  }
}
