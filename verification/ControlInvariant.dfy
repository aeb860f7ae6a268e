/** What every committed state of the control plane satisfies, for every interleaving of its steps. */
module ControlInvariant {
  import opened Wrappers
  import opened Ordering
  import opened Encodings
  import opened Manifest
  import opened ManifestValidation
  import opened LedgerControl
  import opened Audit
  import opened Control

  // ---------------------------------------------------------------- steps

  datatype Op =
    | OpCreate(c: CreateInput, crash: bool)
    | OpStart(batchId: string, run: string)
    | OpRecord(batchId: string, run: string, task: Task, uri: Uri, sha: Digest)
    | OpReconcile(batchId: string, run: string, counts: Counts, missing: seq<(string, int)>)
    | OpPublish(batchId: string, run: string, sha: Digest)
    | OpFail(run: string)
    | OpSupersede(batchId: string)

  /** The reconcile job of an attempt writes the evidence it computed for its own manifest. */
  function ReconcileStep(w: World, batchId: string, run: string, counts: Counts, missing: seq<(string, int)>): World {
    if run in w.db.attempts && w.db.attempts[run].batchId == batchId && batchId in w.db.batches
        && DistinctTables(missing) then
      var a, payload := w.db.attempts[run], w.db.batches[batchId].sha.payload;
      var file := BuildAuditPayload(batchId, a.number, run, payload, AuditRules(BatchRows(payload, counts, missing)));
      w.(store := WriteAuditFile(w.store, batchId, a.number, file))
    else w
  }

  ghost function Apply(w: World, op: Op): World {
    match op
    case OpCreate(c, crash) => CreateOrGet(w, c, crash).1
    case OpStart(batchId, run) => w.(db := Start(w.db, batchId, run).1)
    case OpRecord(batchId, run, task, uri, sha) => w.(db := Record(w, batchId, run, task, uri, sha).1)
    case OpReconcile(batchId, run, counts, missing) => ReconcileStep(w, batchId, run, counts, missing)
    case OpPublish(batchId, run, sha) => w.(db := Publish(w.db, batchId, run, sha).1)
    case OpFail(run) => w.(db := FailRun(w.db, run))
    case OpSupersede(batchId) => w.(db := Supersede(w.db, batchId).1)
  }

  // ---------------------------------------------------------------- environment

  /** The listing still shows every partition of the last published batch. */
  ghost predicate ListingCovers(db: Db, listing: seq<BronzeObject>) {
    forall id | id in PreviousHighs(db) ::
      exists i | 0 <= i < |listing| :: ItemOf(listing[i]).Some? && Id(ItemOf(listing[i]).value) == id
  }

  ghost predicate SizesOk(listing: seq<BronzeObject>) {
    forall i | 0 <= i < |listing| :: listing[i].sizeBytes >= 0
  }

  ghost predicate Admissible(w: World, op: Op) {
    op.OpCreate? ==> ListingCovers(w.db, Listing(op.c)) && SizesOk(Listing(op.c)) && LedgerOk(op.c.ledger)
  }

  const EMPTY_WORLD := World(Db(map[], [], [], map[], map[], map[], [], map[]), Store(map[], map[]))

  /** The world after a run of steps from the empty tables. */
  ghost function Run(ops: seq<Op>): World {
    if ops == [] then EMPTY_WORLD else Apply(Run(ops[..|ops| - 1]), ops[|ops| - 1])
  }

  ghost predicate AdmissibleRun(ops: seq<Op>) {
    forall i | 0 <= i < |ops| :: Admissible(Run(ops[..i]), ops[i])
  }

  // ---------------------------------------------------------------- invariant

  ghost predicate IdsOk(db: Db) {
    && Unique(db.created) && Unique(db.published)
    && (forall id :: id in db.created <==> id in db.batches)
    && (forall id :: id in db.batches <==> id in db.log)
    && (forall id :: id in db.published <==> id in db.batches && db.batches[id].state == PUBLISHED)
  }

  /** At most one unfinished batch, and it is the last created. */
  ghost predicate UnfinishedIsLast(db: Db) {
    forall id | id in db.batches && IsUnfinished(db.batches[id]) :: LastCreated(db, id)
  }

  /** Each state log is a path of allowed transitions to the batch's state, which is never VALIDATED. */
  ghost predicate LogsOk(db: Db) {
    forall id | id in db.batches ::
      id in db.log && LogPath(db.log[id], db.batches[id].state) && db.batches[id].state != VALIDATED
  }

  ghost predicate AttemptsOk(db: Db) {
    && (forall run | run in db.attempts ::
          && db.attempts[run].batchId in db.batches && db.attempts[run].number > 0
          && db.attempts[run].sha == db.batches[db.attempts[run].batchId].sha)
    && (forall r, s | r in db.attempts && s in db.attempts && db.attempts[r].batchId == db.attempts[s].batchId
                      && db.attempts[r].number == db.attempts[s].number :: r == s)
  }

  /** At most one running attempt; its batch is running, or is the last created and published. */
  ghost predicate RunningOk(db: Db) {
    && (forall r, s | r in db.attempts && s in db.attempts && db.attempts[r].state == ACTIVE
         && db.attempts[s].state == ACTIVE :: r == s)
    && (forall r | r in db.attempts && db.attempts[r].state == ACTIVE && db.attempts[r].batchId in db.batches ::
          && LastCreated(db, db.attempts[r].batchId)
          && db.batches[db.attempts[r].batchId].state in {RUNNING, PUBLISHED})
    && (forall id | id in db.batches && db.batches[id].state == RUNNING ::
          exists r | r in db.attempts :: db.attempts[r].batchId == id && db.attempts[r].state == ACTIVE)
  }

  predicate HasAttempt(db: Db, batchId: string, number: nat) {
    exists run | run in db.attempts :: db.attempts[run].batchId == batchId && db.attempts[run].number == number
  }

  /** Task evidence belongs to an attempt, names an expected task and carries the batch's own manifest totals. */
  ghost predicate EvidenceOk(db: Db) {
    forall k | k in db.evidence ::
      && HasAttempt(db, k.0, k.1) && k.2 in EXPECTED_TASKS && k.0 in db.batches
      && var payload := db.batches[k.0].sha.payload;
         db.evidence[k] == Evidence(db.batches[k.0].sha, payload.readerMode, payload.objectCount, payload.inputBytes)
  }

  /** A stored audit row describes the immutable evidence file of its attempt. */
  ghost predicate AuditsOk(w: World) {
    forall k | k in w.db.audits ::
      && HasAttempt(w.db, k.0, k.1) && k.0 in w.db.batches && k in w.store.auditFiles
      && w.db.audits[k] == AuditRowOf(w.store.auditFiles[k])
  }

  ghost predicate BuiltFile(file: AuditPayload, batchId: string, number: nat, payload: Payload) {
    exists run, counts, missing | DistinctTables(missing) ::
      file == BuildAuditPayload(batchId, number, run, payload, AuditRules(BatchRows(payload, counts, missing)))
  }

  ghost predicate FilesOk(w: World) {
    forall k | k in w.store.auditFiles ::
      && HasAttempt(w.db, k.0, k.1) && k.0 in w.db.batches
      && BuiltFile(w.store.auditFiles[k], k.0, k.1, w.db.batches[k.0].sha.payload)
  }

  /** Every successful attempt proved all four tasks and a passing audit; so did every published batch. */
  ghost predicate SuccessOk(db: Db) {
    && (forall run | run in db.attempts && db.attempts[run].state == SUCCESS ::
          && EvidenceComplete(db, db.attempts[run].batchId, db.attempts[run].number, db.attempts[run].sha)
          && AuditPasses(db, db.attempts[run].batchId, db.attempts[run].number)
          && db.attempts[run].batchId in db.batches && db.batches[db.attempts[run].batchId].state == PUBLISHED)
    && (forall id | id in db.batches && db.batches[id].state == PUBLISHED ::
          exists run | run in db.attempts :: db.attempts[run].batchId == id && db.attempts[run].state == SUCCESS)
  }

  /** Each batch row points at a stored, valid document with its checksum, id, bounds and control. */
  ghost predicate StoreOk(w: World) {
    && (forall uri | uri in w.store.manifests ::
          w.store.manifests[uri].sha == Sha256(w.store.manifests[uri].payload)
          && w.store.manifests[uri].payload.batchId == uri.batchId)
    && (forall id | id in w.db.batches ::
          var b := w.db.batches[id];
          && b.uri == ManifestUri(id) && ReadsManifest(w.store, b.uri, b.sha, id)
          && b.sha.payload.schemaVersion == 3 && b.sha.payload.sourceControl.Some?
          && b.partitions == b.sha.payload.partitions && SameControl(b, b.sha.payload.sourceControl.value))
  }

  /** The source columns of a batch row are those of its frozen control. */
  predicate SameControl(b: Batch, sc: SourceControl) {
    && b.transactions == sc.transactions && b.boundaryHigh == sc.boundaryHigh
    && b.expected == sc.expected && b.observed == sc.observed && b.untracked == sc.untracked
  }

  function HighsAt(db: Db, k: nat): map<Identity, int>
    requires k <= |db.published|
  {
    if k == 0 || db.published[k - 1] !in db.batches then map[] else HighsOf(db.batches[db.published[k - 1]].partitions)
  }

  /** Bounds that continue the previous highs, new partitions from -1, and drop no partition. */
  ghost predicate Continues(highs: map<Identity, int>, bounds: seq<Bound>) {
    && PartitionsAccepted(bounds)
    && (forall b | b in bounds :: b.low == Low(highs, BoundId(b)))
    && (forall id | id in highs :: id in BoundIds(bounds))
  }

  ghost predicate ChainOk(db: Db) {
    && (forall k | 0 <= k < |db.published| && db.published[k] in db.batches ::
          Continues(HighsAt(db, k), db.batches[db.published[k]].partitions))
    && (forall id | id in db.batches && IsUnfinished(db.batches[id]) ::
          Continues(PreviousHighs(db), db.batches[id].partitions))
  }

  function AllIntervals(batches: map<string, Batch>, published: seq<string>): seq<Interval> {
    if published == [] then [] else
    var id := published[|published| - 1];
    AllIntervals(batches, published[..|published| - 1])
    + if id in batches then IntervalsOf(id, batches[id].partitions) else []
  }

  ghost predicate PastBoundaries(previous: Option<int>, ts: seq<Transaction>) {
    forall t | t in ts :: previous.None? || t.boundary > previous.value
  }

  /** Source transactions of a batch lie behind the boundary of every batch published before it. */
  ghost predicate BoundariesOk(db: Db) {
    && (forall k | 0 <= k < |db.published| && db.published[k] in db.batches ::
          PastBoundaries(PublishedBoundary(db.batches, db.published[..k]), db.batches[db.published[k]].transactions))
    && (forall id | id in db.batches && IsUnfinished(db.batches[id]) ::
          PastBoundaries(PublishedBoundary(db.batches, db.published), db.batches[id].transactions))
  }

  ghost predicate Inv(w: World) {
    && IdsOk(w.db) && UnfinishedIsLast(w.db) && LogsOk(w.db) && AttemptsOk(w.db) && RunningOk(w.db)
    && EvidenceOk(w.db) && AuditsOk(w) && FilesOk(w) && SuccessOk(w.db) && StoreOk(w)
    && ChainOk(w.db) && BoundariesOk(w.db) && w.db.intervals == AllIntervals(w.db.batches, w.db.published)
  }

  // ---------------------------------------------------------------- frames: state-only changes of a batch

  /** Two batch tables that agree on everything but batch states, and may have grown. */
  ghost predicate SameSealed(before: map<string, Batch>, after: map<string, Batch>) {
    forall id | id in before :: id in after && after[id] == before[id].(state := after[id].state)
  }

  lemma {:induction false} AllIntervalsFrame(before: map<string, Batch>, after: map<string, Batch>,
                                             published: seq<string>)
    requires SameSealed(before, after) && forall id | id in published :: id in before
    ensures AllIntervals(after, published) == AllIntervals(before, published)
  {
    if published != [] {
      AllIntervalsFrame(before, after, published[..|published| - 1]);
    }
  }

  lemma {:induction false} PublishedBoundaryFrame(before: map<string, Batch>, after: map<string, Batch>,
                                                  published: seq<string>)
    requires SameSealed(before, after) && forall id | id in published :: id in before
    ensures PublishedBoundary(after, published) == PublishedBoundary(before, published)
  {
    if published != [] {
      PublishedBoundaryFrame(before, after, published[..|published| - 1]);
    }
  }

  /** A batch that may be published next: it continues the highs and lies past the published boundary. */
  ghost predicate NextInChain(db: Db, b: Batch) {
    && Continues(PreviousHighs(db), b.partitions)
    && PastBoundaries(PublishedBoundary(db.batches, db.published), b.transactions)
  }

  /** Steps that publish nothing leave the chain of published bounds as it was. */
  lemma ChainFrame(before: Db, after: Db)
    requires IdsOk(before) && ChainOk(before) && BoundariesOk(before)
    requires SameSealed(before.batches, after.batches) && after.published == before.published
    requires forall id | id in after.batches && IsUnfinished(after.batches[id]) ::
               || (id in before.batches && IsUnfinished(before.batches[id]))
               || NextInChain(before, after.batches[id])
    ensures ChainOk(after) && BoundariesOk(after)
    ensures AllIntervals(after.batches, after.published) == AllIntervals(before.batches, before.published)
  {
    var p := before.published;
    AllIntervalsFrame(before.batches, after.batches, p);
    PublishedBoundaryFrame(before.batches, after.batches, p);
    forall k | 0 <= k < |p|
      ensures Continues(HighsAt(after, k), after.batches[p[k]].partitions)
      ensures PastBoundaries(PublishedBoundary(after.batches, p[..k]), after.batches[p[k]].transactions)
    {
      assert p[k] in p;
      if k > 0 { assert p[k - 1] in p; }
      PublishedBoundaryFrame(before.batches, after.batches, p[..k]);
    }
    if p != [] { assert p[|p| - 1] in p; }
  }

  /** A batch that changes state with its log keeps the batch-level invariants. */
  lemma StateChangeKeeps(before: Db, after: Db, id: string, to: BatchState, events: seq<StateEvent>)
    requires IdsOk(before) && UnfinishedIsLast(before) && LogsOk(before)
    requires id in before.batches && IsUnfinished(before.batches[id])
    requires after.batches == before.batches[id := before.batches[id].(state := to)]
    requires after.created == before.created && after.log == Appended(before.log, id, events)
    requires after.published == if to == PUBLISHED then before.published + [id] else before.published
    requires to != VALIDATED && LogPath(before.log[id] + events, to)
    ensures IdsOk(after) && UnfinishedIsLast(after) && LogsOk(after)
  {
    hide LogPath, IdsOk, LogsOk, UnfinishedIsLast, Appended;
    StateChangeKeepsIds(before, after, id, to, events);
    StateChangeKeepsLast(before, after, id, to);
    StateChangeKeepsLogs(before, after, id, to, events);
  }

  lemma StateChangeKeepsLast(before: Db, after: Db, id: string, to: BatchState)
    requires UnfinishedIsLast(before) && id in before.batches && IsUnfinished(before.batches[id])
    requires after.batches == before.batches[id := before.batches[id].(state := to)] && after.created == before.created
    ensures UnfinishedIsLast(after)
  {
  }

  lemma StateChangeKeepsIds(before: Db, after: Db, id: string, to: BatchState, events: seq<StateEvent>)
    requires IdsOk(before) && id in before.batches && IsUnfinished(before.batches[id])
    requires after.batches == before.batches[id := before.batches[id].(state := to)]
    requires after.created == before.created && after.log == Appended(before.log, id, events)
    requires after.published == if to == PUBLISHED then before.published + [id] else before.published
    ensures IdsOk(after)
  {
    assert id !in before.published;
    assert forall x :: x in before.log <==> x in after.log;
    hide Appended;
  }

  lemma StateChangeKeepsLogs(before: Db, after: Db, id: string, to: BatchState, events: seq<StateEvent>)
    requires LogsOk(before) && id in before.batches && to != VALIDATED
    requires after.batches == before.batches[id := before.batches[id].(state := to)]
    requires after.log == Appended(before.log, id, events) && LogPath(before.log[id] + events, to)
    ensures LogsOk(after)
  {
    hide LogPath;
  }

  /** One more allowed transition extends a log path. */
  lemma LogStep(events: seq<StateEvent>, current: BatchState, to: BatchState)
    requires LogPath(events, current) && AllowedTransition(current, to)
    ensures LogPath(events + [StateEvent(Some(current), to)], to)
  {
    var grown := events + [StateEvent(Some(current), to)];
    forall i | 0 < i < |grown|
      ensures grown[i].from == Some(grown[i - 1].to) && AllowedTransition(grown[i - 1].to, grown[i].to)
    {
      if i < |events| { assert grown[i] == events[i] && grown[i - 1] == events[i - 1]; }
    }
  }

  /** Evidence, audits, files and stored manifests survive changes of batch states and attempts. */
  lemma SealedFrame(before: World, after: World)
    requires EvidenceOk(before.db) && AuditsOk(before) && FilesOk(before) && StoreOk(before)
    requires SameSealed(before.db.batches, after.db.batches) && after.db.batches.Keys == before.db.batches.Keys
    requires after.store == before.store && after.db.evidence == before.db.evidence
             && after.db.audits == before.db.audits
    requires forall run | run in before.db.attempts :: run in after.db.attempts
               && after.db.attempts[run].batchId == before.db.attempts[run].batchId
               && after.db.attempts[run].number == before.db.attempts[run].number
    ensures EvidenceOk(after.db) && AuditsOk(after) && FilesOk(after) && StoreOk(after)
  {
    hide BuiltFile, ReadsManifest;
    forall k: (string, nat) | HasAttempt(before.db, k.0, k.1) ensures HasAttempt(after.db, k.0, k.1) {
    }
    forall id | id in after.db.batches
      ensures ReadsManifest(after.store, after.db.batches[id].uri, after.db.batches[id].sha, id)
    {
    }
  }

  // ---------------------------------------------------------------- supersede and fail

  lemma LogOf(db: Db, id: string)
    requires LogsOk(db) && id in db.batches
    ensures id in db.log && LogPath(db.log[id], db.batches[id].state)
  {
    hide LogPath;
  }

  /** Attempts that change nothing but their state. */
  ghost predicate SameAttempts(before: Db, after: Db) {
    && after.attempts.Keys == before.attempts.Keys
    && forall run | run in before.attempts :: after.attempts[run] ==
         before.attempts[run].(state := after.attempts[run].state)
  }

  lemma AttemptsFrame(before: Db, after: Db)
    requires AttemptsOk(before) && SameAttempts(before, after) && SameSealed(before.batches, after.batches)
    ensures AttemptsOk(after)
  {
    forall run | run in after.attempts
      ensures after.attempts[run].batchId in after.batches && after.attempts[run].number > 0
      ensures after.attempts[run].sha == after.batches[after.attempts[run].batchId].sha
    {
      assert run in before.attempts;
    }
    forall r, s | r in after.attempts && s in after.attempts && after.attempts[r].batchId == after.attempts[s].batchId
                  && after.attempts[r].number == after.attempts[s].number
      ensures r == s
    {
      assert r in before.attempts && s in before.attempts;
    }
  }

  /** Success rows stay proved while no evidence, audit, success or publication is touched. */
  lemma SuccessFrame(before: Db, after: Db)
    requires SuccessOk(before)
    requires after.evidence == before.evidence && after.audits == before.audits
    requires forall id | id in before.batches && before.batches[id].state == PUBLISHED ::
               id in after.batches && after.batches[id].state == PUBLISHED
    requires forall id | id in after.batches && after.batches[id].state == PUBLISHED ::
               id in before.batches && before.batches[id].state == PUBLISHED
    requires forall run | run in before.attempts && before.attempts[run].state == SUCCESS ::
               run in after.attempts && after.attempts[run] == before.attempts[run]
    requires forall run | run in after.attempts && after.attempts[run].state == SUCCESS ::
               run in before.attempts && before.attempts[run] == after.attempts[run]
    ensures SuccessOk(after)
  {
    forall id, n, sha | EvidenceComplete(before, id, n, sha) ensures EvidenceComplete(after, id, n, sha) {
      assert TasksOf(after, id, n) == TasksOf(before, id, n);
    }
    hide EvidenceComplete, TasksOf;
  }

  lemma SupersedeKeepsRunning(db: Db, batchId: string)
    requires RunningOk(db)
    ensures RunningOk(Supersede(db, batchId).1)
  {
    hide Appended;
  }

  lemma SupersedeKeepsInv(w: World, batchId: string)
    requires Inv(w)
    ensures Inv(w.(db := Supersede(w.db, batchId).1))
  {
    hide IdsOk, UnfinishedIsLast, LogsOk, AttemptsOk, RunningOk, SuccessOk, EvidenceOk, AuditsOk, FilesOk, StoreOk;
    hide ChainOk, BoundariesOk;
    hide LogPath, AllIntervals, Appended;
    var db := Supersede(w.db, batchId).1;
    if Supersede(w.db, batchId).0.Ok? {
      var from := w.db.batches[batchId].state;
      LogOf(w.db, batchId);
      LogStep(w.db.log[batchId], from, SUPERSEDED);
      StateChangeKeeps(w.db, db, batchId, SUPERSEDED, [StateEvent(Some(from), SUPERSEDED)]);
      AttemptsFrame(w.db, db);
      SupersedeKeepsRunning(w.db, batchId);
      SuccessFrame(w.db, db);
      SealedFrame(w, w.(db := db));
      ChainFrame(w.db, db);
    }
  }

  lemma FailKeepsRunning(db: Db, run: string)
    requires RunningOk(db) && AttemptsOk(db)
    ensures RunningOk(FailRun(db, run))
  {
    hide Appended, AttemptsOk;
    var after := FailRun(db, run);
    if after != db {
      OnlyRunning(db, run);
      assert forall r | r in after.attempts :: after.attempts[r].state != ACTIVE;
      assert forall id | id in after.batches :: after.batches[id].state != RUNNING;
    }
  }

  /** While an attempt runs, no other attempt does and no other batch is running. */
  lemma OnlyRunning(db: Db, run: string)
    requires RunningOk(db) && run in db.attempts && db.attempts[run].state == ACTIVE
    ensures forall r | r in db.attempts && db.attempts[r].state == ACTIVE :: r == run
    ensures forall id | id in db.batches && db.batches[id].state == RUNNING :: id == db.attempts[run].batchId
  {
    forall id | id in db.batches && db.batches[id].state == RUNNING ensures id == db.attempts[run].batchId {
      var r :| r in db.attempts && db.attempts[r].batchId == id && db.attempts[r].state == ACTIVE;
      assert r == run;
    }
  }

  lemma FailKeepsBatches(db: Db, run: string)
    requires IdsOk(db) && UnfinishedIsLast(db) && LogsOk(db)
    ensures var after := FailRun(db, run); IdsOk(after) && UnfinishedIsLast(after) && LogsOk(after)
  {
    hide IdsOk, UnfinishedIsLast, LogsOk, LogPath, Appended;
    var after := FailRun(db, run);
    if after != db {
      var id := db.attempts[run].batchId;
      if db.batches[id].state == RUNNING {
        LogOf(db, id);
        LogStep(db.log[id], RUNNING, FAILED);
        StateChangeKeeps(db, after, id, FAILED, [StateEvent(Some(RUNNING), FAILED)]);
      } else {
        UntouchedBatches(db, after);
      }
    }
  }

  lemma FailKeepsInv(w: World, run: string)
    requires Inv(w)
    ensures Inv(w.(db := FailRun(w.db, run)))
  {
    hide IdsOk, UnfinishedIsLast, LogsOk, AttemptsOk, RunningOk, SuccessOk, EvidenceOk, AuditsOk, FilesOk, StoreOk;
    hide ChainOk, BoundariesOk;
    hide LogPath, AllIntervals, Appended;
    hide FailRun;
    FailIsStateOnly(w.db, run);
    var db := FailRun(w.db, run);
    if db != w.db {
      FailKeepsBatches(w.db, run);
      FailKeepsRunning(w.db, run);
      AttemptsFrame(w.db, db);
      SuccessFrame(w.db, db);
      SealedFrame(w, w.(db := db));
      ChainFrame(w.db, db);
    }
  }

  lemma FailIsStateOnly(db: Db, run: string)
    ensures var after := FailRun(db, run);
            && SameAttempts(db, after) && SameSealed(db.batches, after.batches) && after.batches.Keys == db.batches.Keys
            && after == db.(attempts := after.attempts, batches := after.batches, log := after.log)
            && (forall r | r in db.attempts :: db.attempts[r].state == SUCCESS <==> after.attempts[r].state == SUCCESS)
            && (forall id | id in db.batches :: db.batches[id].state == PUBLISHED <==>
                 after.batches[id].state == PUBLISHED)
            && (forall id | id in db.batches :: IsUnfinished(db.batches[id]) <==> IsUnfinished(after.batches[id]))
  {
    hide Appended, SameAttempts, SameSealed, IsUnfinished;
    FailAttempts(db, run);
    FailBatches(db, run);
  }

  lemma FailAttempts(db: Db, run: string)
    ensures var after := FailRun(db, run);
            SameAttempts(db, after) && forall r | r in db.attempts ::
                db.attempts[r].state == SUCCESS <==> after.attempts[r].state == SUCCESS
  {
    hide Appended;
  }

  lemma FailBatches(db: Db, run: string)
    ensures var after := FailRun(db, run);
            && SameSealed(db.batches, after.batches) && after.batches.Keys == db.batches.Keys
            && (forall id | id in db.batches :: db.batches[id].state == PUBLISHED <==>
                 after.batches[id].state == PUBLISHED)
            && (forall id | id in db.batches :: IsUnfinished(db.batches[id]) <==> IsUnfinished(after.batches[id]))
  {
    hide Appended;
  }

  lemma UntouchedBatches(before: Db, after: Db)
    requires IdsOk(before) && UnfinishedIsLast(before) && LogsOk(before)
    requires after.batches == before.batches && after.created == before.created && after.published == before.published
             && after.log == before.log
    ensures IdsOk(after) && UnfinishedIsLast(after) && LogsOk(after)
  {
    hide LogPath;
  }

  // ---------------------------------------------------------------- start

  lemma NumberIsFresh(attempts: map<string, Attempt>, batchId: string, run: string)
    requires run in attempts && attempts[run].batchId == batchId
    ensures attempts[run].number < LastNumber(attempts, batchId) + 1
  {
    hide LastNumber;
    assert IsLastNumber(attempts, batchId, LastNumber(attempts, batchId));
  }

  lemma NewAttempt(before: Db, after: Db, run: string, a: Attempt)
    requires AttemptsOk(before) && SameSealed(before.batches, after.batches)
    requires run !in before.attempts && after.attempts == before.attempts[run := a]
    requires a.batchId in before.batches && a.sha == before.batches[a.batchId].sha && a.number > 0
    requires forall r | r in before.attempts && before.attempts[r].batchId == a.batchId ::
               before.attempts[r].number < a.number
    ensures AttemptsOk(after)
  {
    forall r | r in after.attempts
      ensures after.attempts[r].batchId in after.batches && after.attempts[r].number > 0
      ensures after.attempts[r].sha == after.batches[after.attempts[r].batchId].sha
    {
      if r != run { assert r in before.attempts; }
    }
  }

  lemma StartKeepsAttempts(db: Db, batchId: string, run: string)
    requires AttemptsOk(db)
    ensures AttemptsOk(Start(db, batchId, run).1)
  {
    hide Start, LastNumber, IsLastNumber, AttemptsOk;
    var after := Start(db, batchId, run).1;
    StartEffect(db, batchId, run);
    if after.attempts == db.attempts {
      AttemptsFrame(db, after);
    } else {
      forall r | r in db.attempts && db.attempts[r].batchId == batchId
        ensures db.attempts[r].number < after.attempts[run].number
      {
        NumberIsFresh(db.attempts, batchId, r);
      }
      NewAttempt(db, after, run, after.attempts[run]);
    }
  }

  lemma StartEffect(db: Db, batchId: string, run: string)
    ensures var after := Start(db, batchId, run).1;
            && SameSealed(db.batches, after.batches)
            && (after.attempts == db.attempts ||
                (run !in db.attempts && batchId in db.batches
                 && after.attempts == db.attempts[run :=
                      Attempt(batchId, LastNumber(db.attempts, batchId) + 1, db.batches[batchId].sha, ACTIVE)]))
  {
    hide Appended, LastNumber, HasRunningAttempt, LastCreated, SameSealed;
    StartSeals(db, batchId, run);
  }

  lemma StartSeals(db: Db, batchId: string, run: string)
    ensures SameSealed(db.batches, Start(db, batchId, run).1.batches)
  {
    hide Appended, LastNumber, HasRunningAttempt, LastCreated;
  }

  lemma StartKeepsRunning(db: Db, batchId: string, run: string)
    requires RunningOk(db) && AttemptsOk(db) && UnfinishedIsLast(db)
    ensures RunningOk(Start(db, batchId, run).1)
  {
    hide Appended, AttemptsOk, LastNumber, RunningOk, UnfinishedIsLast;
    var after := Start(db, batchId, run).1;
    if after != db {
      StartedAlone(db, after, batchId, run);
    }
  }

  lemma StartedAlone(db: Db, after: Db, batchId: string, run: string)
    requires RunningOk(db) && UnfinishedIsLast(db) && !HasRunningAttempt(db) && batchId in db.batches
    requires run in after.attempts && after.attempts == db.attempts[run := after.attempts[run]]
    requires after.attempts[run].batchId == batchId && after.attempts[run].state == ACTIVE
             && after.created == db.created
    requires if db.batches[batchId].state == PUBLISHED then LastCreated(db, batchId) && after.batches == db.batches
             else
               IsUnfinished(db.batches[batchId])
               && after.batches == db.batches[batchId := db.batches[batchId].(state := RUNNING)]
    ensures RunningOk(after)
  {
    assert forall r | r in db.attempts :: db.attempts[r].state != ACTIVE;
    assert forall id | id in db.batches :: db.batches[id].state != RUNNING;
  }

  lemma StartKeepsInv(w: World, batchId: string, run: string)
    requires Inv(w)
    ensures Inv(w.(db := Start(w.db, batchId, run).1))
  {
    hide IdsOk, UnfinishedIsLast, LogsOk, AttemptsOk, RunningOk, SuccessOk, EvidenceOk, AuditsOk, FilesOk, StoreOk;
    hide ChainOk, BoundariesOk;
    hide LogPath, AllIntervals, Appended, LastNumber;
    var db := Start(w.db, batchId, run).1;
    if db != w.db {
      var from := w.db.batches[batchId].state;
      if from == PUBLISHED {
        UntouchedBatches(w.db, db);
      } else {
        LogOf(w.db, batchId);
        LogStep(w.db.log[batchId], from, RUNNING);
        StateChangeKeeps(w.db, db, batchId, RUNNING, [StateEvent(Some(from), RUNNING)]);
      }
      StartKeepsAttempts(w.db, batchId, run);
      StartKeepsRunning(w.db, batchId, run);
      SuccessFrame(w.db, db);
      SealedFrame(w, w.(db := db));
      ChainFrame(w.db, db);
    }
  }

  // ---------------------------------------------------------------- evidence

  /** The audit part of recording: rows are only added, and each is the stored file's row. */
  lemma StoreAuditAdds(w: World, batchId: string, run: string, number: nat, sha: Digest)
    requires AuditsOk(w) && StoreAudit(w, batchId, run, number, sha).Ok?
    requires batchId in w.db.batches && HasAttempt(w.db, batchId, number)
    ensures var db := StoreAudit(w, batchId, run, number, sha).value;
            && db == w.db.(audits := db.audits) && AuditsOk(w.(db := db))
            && (forall k | k in w.db.audits :: k in db.audits && db.audits[k] == w.db.audits[k])
  {
    hide OfAttempt, AuditAccepted, AuditRowOf;
    var db := StoreAudit(w, batchId, run, number, sha).value;
    forall k: (string, nat) | HasAttempt(w.db, k.0, k.1) ensures HasAttempt(db, k.0, k.1) {
    }
  }

  /** What recording may change: audit rows and one evidence row of the open attempt. */
  lemma RecordEffect(w: World, batchId: string, run: string, task: Task, uri: Uri, sha: Digest)
    requires AttemptsOk(w.db) && AuditsOk(w)
    ensures var db := Record(w, batchId, run, task, uri, sha).1;
            && db == w.db.(audits := db.audits, evidence := db.evidence) && AuditsOk(w.(db := db))
            && (forall k | k in w.db.audits :: k in db.audits && db.audits[k] == w.db.audits[k])
            && (db.evidence == w.db.evidence ||
                (AttemptOpen(w.db, batchId, run) && task in EXPECTED_TASKS && sha == w.db.batches[batchId].sha
                 && db.evidence == WithEvidence(w.db, batchId, w.db.attempts[run].number, task, sha.payload).evidence))
  {
    hide ReadsManifest, OfAttempt, AuditAccepted, AuditRowOf, AuditsOk, StoreAudit;
    if AttemptOpen(w.db, batchId, run) {
      var number := w.db.attempts[run].number;
      assert HasAttempt(w.db, batchId, number);
      if task == ReconcileAll && StoreAudit(w, batchId, run, number, sha).Ok? {
        StoreAuditAdds(w, batchId, run, number, sha);
        var stored := StoreAudit(w, batchId, run, number, sha).value;
        AuditsFrame(w.(db := stored), w.(db := WithEvidence(stored, batchId, number, task, sha.payload)));
      }
      AuditsFrame(w, w.(db := WithEvidence(w.db, batchId, number, task, sha.payload)));
    }
  }

  lemma AuditsFrame(before: World, after: World)
    requires AuditsOk(before) && after.store == before.store && after.db.audits == before.db.audits
    requires after.db.attempts == before.db.attempts && after.db.batches == before.db.batches
    ensures AuditsOk(after)
  {
    hide AuditRowOf;
    forall k: (string, nat) | HasAttempt(before.db, k.0, k.1) ensures HasAttempt(after.db, k.0, k.1) {
    }
  }

  lemma EvidenceAdded(before: Db, after: Db, batchId: string, run: string, task: Task)
    requires EvidenceOk(before) && AttemptOpen(before, batchId, run) && task in EXPECTED_TASKS
    requires after == before.(audits := after.audits, evidence := after.evidence)
    requires after.evidence == WithEvidence(before, batchId, before.attempts[run].number, task,
               before.batches[batchId].sha.payload).evidence
    requires before.batches[batchId].sha == Sha256(before.batches[batchId].sha.payload)
    ensures EvidenceOk(after)
  {
    var key := (batchId, before.attempts[run].number, task);
    forall id, n | HasAttempt(before, id, n) ensures HasAttempt(after, id, n) {
      var r :| r in before.attempts && before.attempts[r].batchId == id && before.attempts[r].number == n;
      assert r in after.attempts;
    }
    assert HasAttempt(before, batchId, before.attempts[run].number);
    forall k | k in after.evidence && k != key ensures k in before.evidence && after.evidence[k] == before.evidence[k] {
    }
  }

  /** Proved rows of successful attempts are out of reach of a recording for an open attempt. */
  lemma SuccessSurvivesRecord(before: Db, after: Db, batchId: string, run: string)
    requires SuccessOk(before) && AttemptsOk(before)
    requires run in before.attempts && before.attempts[run].state == ACTIVE && before.attempts[run].batchId == batchId
    requires after == before.(audits := after.audits, evidence := after.evidence)
    requires forall k | k in before.audits :: k in after.audits && after.audits[k] == before.audits[k]
    requires forall k: (string, nat, Task) | (k.0, k.1) != (batchId, before.attempts[run].number) ::
               (k in before.evidence <==> k in after.evidence)
                   && (k in before.evidence ==> after.evidence[k] == before.evidence[k])
    ensures SuccessOk(after)
  {
    forall r | r in before.attempts && before.attempts[r].state == SUCCESS
      ensures EvidenceComplete(after, before.attempts[r].batchId, before.attempts[r].number, before.attempts[r].sha)
    {
      var id, n := before.attempts[r].batchId, before.attempts[r].number;
      assert (id, n) != (batchId, before.attempts[run].number);
      EvidenceFrame(before, after, id, n, before.attempts[r].sha);
    }
    hide EvidenceComplete;
  }

  lemma EvidenceFrame(before: Db, after: Db, id: string, n: nat, sha: Digest)
    requires EvidenceComplete(before, id, n, sha)
    requires forall k: (string, nat, Task) | k.0 == id && k.1 == n ::
               (k in before.evidence <==> k in after.evidence)
                   && (k in before.evidence ==> after.evidence[k] == before.evidence[k])
    ensures EvidenceComplete(after, id, n, sha)
  {
    assert TasksOf(after, id, n) == TasksOf(before, id, n);
  }

  lemma RecordKeepsInv(w: World, batchId: string, run: string, task: Task, uri: Uri, sha: Digest)
    requires Inv(w)
    ensures Inv(w.(db := Record(w, batchId, run, task, uri, sha).1))
  {
    hide IdsOk, UnfinishedIsLast, LogsOk, AttemptsOk, RunningOk, SuccessOk, EvidenceOk, AuditsOk, FilesOk, StoreOk;
    hide ChainOk, BoundariesOk;
    hide AllIntervals, Record, ReadsManifest;
    var db := Record(w, batchId, run, task, uri, sha).1;
    RecordEffect(w, batchId, run, task, uri, sha);
    ShaIsDigest(w, batchId);
    if db.evidence != w.db.evidence {
      EvidenceAdded(w.db, db, batchId, run, task);
      SuccessSurvivesRecord(w.db, db, batchId, run);
    } else {
      NothingRecorded(w.db, db);
    }
    TablesFrame(w.db, db);
    SealedTablesFrame(w, w.(db := db));
  }

  lemma ShaIsDigest(w: World, id: string)
    requires StoreOk(w)
    ensures id in w.db.batches ==> w.db.batches[id].sha == Sha256(w.db.batches[id].sha.payload)
  {
    hide Accepted;
  }

  lemma NothingRecorded(before: Db, after: Db)
    requires EvidenceOk(before) && SuccessOk(before)
    requires after == before.(audits := after.audits)
    requires forall k | k in before.audits :: k in after.audits && after.audits[k] == before.audits[k]
    ensures EvidenceOk(after) && SuccessOk(after)
  {
    forall id, n, sha | EvidenceComplete(before, id, n, sha) ensures EvidenceComplete(after, id, n, sha) {
      EvidenceFrame(before, after, id, n, sha);
    }
    hide EvidenceComplete;
    forall id, n | HasAttempt(before, id, n) ensures HasAttempt(after, id, n) {
      var r :| r in before.attempts && before.attempts[r].batchId == id && before.attempts[r].number == n;
      assert r in after.attempts;
    }
  }

  /** Changes of evidence and audit rows do not touch batches, attempts or publication. */
  lemma TablesFrame(before: Db, after: Db)
    requires after == before.(audits := after.audits, evidence := after.evidence)
    requires IdsOk(before) && UnfinishedIsLast(before) && LogsOk(before) && AttemptsOk(before) && RunningOk(before)
    requires ChainOk(before) && BoundariesOk(before)
    ensures IdsOk(after) && UnfinishedIsLast(after) && LogsOk(after) && AttemptsOk(after) && RunningOk(after)
    ensures ChainOk(after) && BoundariesOk(after)
  {
    hide ChainOk, BoundariesOk, AttemptsOk, IdsOk, UnfinishedIsLast, LogsOk, RunningOk, NextInChain, AllIntervals;
    ChainFrame(before, after);
    AttemptsFrame(before, after);
    UntouchedBatches(before, after);
    RunningFrame(before, after);
  }

  lemma RunningFrame(before: Db, after: Db)
    requires RunningOk(before)
    requires after.attempts == before.attempts && after.batches == before.batches && after.created == before.created
    ensures RunningOk(after)
  {
  }

  lemma SealedTablesFrame(before: World, after: World)
    requires FilesOk(before) && StoreOk(before)
    requires after.store == before.store && after.db.batches == before.db.batches
             && after.db.attempts == before.db.attempts
    ensures FilesOk(after) && StoreOk(after)
  {
    hide BuiltFile, ReadsManifest;
  }

  // ---------------------------------------------------------------- audit files

  lemma ReconcileKeepsInv(w: World, batchId: string, run: string, counts: Counts, missing: seq<(string, int)>)
    requires Inv(w)
    ensures Inv(ReconcileStep(w, batchId, run, counts, missing))
  {
    hide IdsOk, UnfinishedIsLast, LogsOk, AttemptsOk, RunningOk, SuccessOk, EvidenceOk, AuditsOk, FilesOk, StoreOk;
    hide ChainOk, BoundariesOk;
    hide AllIntervals, BuildAuditPayload, AuditRules, BatchRows, DistinctTables;
    var after := ReconcileStep(w, batchId, run, counts, missing);
    if after != w {
      var number := w.db.attempts[run].number;
      var file := after.store.auditFiles[(batchId, number)];
      assert BuiltFile(file, batchId, number, w.db.batches[batchId].sha.payload);
      FileAdded(w, after, batchId, number, file);
    }
  }

  lemma FileAdded(before: World, after: World, batchId: string, number: nat, file: AuditPayload)
    requires AuditsOk(before) && FilesOk(before) && StoreOk(before)
    requires batchId in before.db.batches && BuiltFile(file, batchId, number, before.db.batches[batchId].sha.payload)
    requires (batchId, number) !in before.store.auditFiles && HasAttempt(before.db, batchId, number)
    requires after == before.(store := before.store.(auditFiles := before.store.auditFiles[(batchId, number) := file]))
    ensures AuditsOk(after) && FilesOk(after) && StoreOk(after)
  {
    hide BuiltFile, AuditRowOf, Accepted;
  }

  // ---------------------------------------------------------------- create

  lemma BoundsContinue(p: Payload, items: seq<Item>, highs: map<Identity, int>)
    requires SealsInterval(p, items, highs)
    requires forall id | id in highs :: exists x :: x in items && Id(x) == id
    ensures Continues(highs, p.partitions)
  {
    hide SortedBy, UniqueCoordinates, UniqueKeys, CountsExact, AllParse, Bytes, PartitionsAccepted, BoundFits;
    forall b | b in p.partitions ensures b.low == Low(highs, BoundId(b)) {
      assert BoundFits(items, highs, b);
      BoundLow(items, highs, b);
    }
  }

  lemma BoundLow(items: seq<Item>, highs: map<Identity, int>, b: Bound)
    requires BoundFits(items, highs, b)
    ensures b.low == Low(highs, BoundId(b))
  {
  }

  lemma CoveredInItems(db: Db, listing: seq<BronzeObject>)
    requires ListingCovers(db, listing) && AllParse(listing)
    ensures forall id | id in PreviousHighs(db) :: exists x :: x in Items(listing) && Id(x) == id
  {
    hide ParseBronzeCoordinate, PreviousHighs;
    forall id | id in PreviousHighs(db) ensures exists x :: x in Items(listing) && Id(x) == id {
      var i :| 0 <= i < |listing| && ItemOf(listing[i]).Some? && Id(ItemOf(listing[i]).value) == id;
      assert Items(listing)[i] in Items(listing);
    }
  }

  lemma ControlIsPastBoundary(previous: Option<int>, ledger: seq<LedgerRow>, events: seq<Readout>)
    requires LedgerOk(ledger)
    ensures PastBoundaries(previous, SourceControlFor(previous, ledger, events).transactions)
  {
    var rows := LedgerInterval(previous, ledger, events);
    LedgerIntervalExact(previous, ledger, events);
    var ts := TransactionsOf(rows, events);
    forall t | t in ts ensures previous.None? || t.boundary > previous.value {
      var i :| 0 <= i < |ts| && ts[i] == t;
      assert rows[i] in rows;
    }
  }

  /** Whatever a fresh batch seals is valid, continues the chain, and takes every new object of the listing. */
  lemma SealedFacts(db: Db, c: CreateInput)
    requires SealedPayload(db, c).Ok? && ListingCovers(db, Listing(c)) && SizesOk(Listing(c)) && LedgerOk(c.ledger)
    ensures var p := SealedPayload(db, c).value;
            && p.batchId == c.batchId && Accepted(p) && p.schemaVersion == 3 && p.sourceControl.Some?
            && AllParse(Listing(c)) && SealsInterval(p, Items(Listing(c)), PreviousHighs(db))
            && Continues(PreviousHighs(db), p.partitions)
            && PastBoundaries(PublishedBoundary(db.batches, db.published), p.sourceControl.value.transactions)
  {
    hide BuildPayload, Accepted, SealsInterval, PreviousHighs, SourceControlFor, AllReadable, Events, Continues;
    hide PastBoundaries, SourceControlOk;
    hide PublishedBoundary, LedgerOk, ListingCovers, ParseBronzeCoordinate;
    var highs := PreviousHighs(db);
    var preliminary := BuildPayload(c.batchId, Listing(c), highs, c.sourceAdapter, c.contractVersion, c.now,
        None).value;
    var events, previous := Events(c.bodies, preliminary.objects), PublishedBoundary(db.batches, db.published);
    var control := SourceControlFor(previous, c.ledger, events);
    BuiltControlIsAccepted(previous, c.ledger, events);
    ControlIsPastBoundary(previous, c.ledger, events);
    BuildSealsExactlyTheInterval(c.batchId, Listing(c), highs, c.sourceAdapter, c.contractVersion, c.now,
        Some(control));
    BuiltDocumentIsAccepted(c.batchId, Listing(c), highs, c.sourceAdapter, c.contractVersion, c.now, Some(control));
    BuiltHeader(c, highs, Some(control));
    CoveredInItems(db, Listing(c));
    BoundsContinue(SealedPayload(db, c).value, Items(Listing(c)), highs);
  }

  lemma BuiltHeader(c: CreateInput, highs: map<Identity, int>, control: Option<SourceControl>)
    requires BuildPayload(c.batchId, Listing(c), highs, c.sourceAdapter, c.contractVersion, c.now, control).Ok?
    ensures var p := BuildPayload(c.batchId, Listing(c), highs, c.sourceAdapter, c.contractVersion, c.now,
              control).value;
            && p.batchId == c.batchId && p.sourceControl == control && (control.Some? ==> p.schemaVersion == 3)
  {
    hide AllParse, FirstError, Selected, Bounds, Bytes;
  }

  lemma ManifestWritten(before: World, store: Store, batchId: string, document: Document)
    requires StoreOk(before) && FilesOk(before) && AuditsOk(before) && batchId !in before.db.batches
    requires document.sha == Sha256(document.payload) && document.payload.batchId == batchId
    requires store == before.store.(manifests := before.store.manifests[ManifestUri(batchId) := document])
    ensures StoreOk(before.(store := store)) && FilesOk(before.(store := store)) && AuditsOk(before.(store := store))
  {
    hide Accepted, BuiltFile, AuditRowOf;
  }

  lemma InsertKeepsIds(db: Db, c: CreateInput, p: Payload)
    requires IdsOk(db) && UnfinishedIsLast(db) && LogsOk(db)
    requires c.batchId !in db.batches && !HasUnfinishedBatch(db)
    ensures var after := InsertBatch(db, c, p); IdsOk(after) && UnfinishedIsLast(after) && LogsOk(after)
  {
    InsertedLast(db, c, p);
    InsertedLog(db, c, p);
    assert c.batchId !in db.created;
    hide LogPath, LogsOk, UnfinishedIsLast;
  }

  lemma InsertedLast(db: Db, c: CreateInput, p: Payload)
    requires !HasUnfinishedBatch(db)
    ensures UnfinishedIsLast(InsertBatch(db, c, p))
  {
    assert forall id | id in db.batches :: !IsUnfinished(db.batches[id]);
  }

  lemma InsertedLog(db: Db, c: CreateInput, p: Payload)
    requires LogsOk(db) && c.batchId !in db.batches
    ensures LogsOk(InsertBatch(db, c, p))
  {
    assert LogPath([StateEvent(None, CREATED)], CREATED);
    hide LogPath;
  }

  lemma InsertKeepsAttempts(db: Db, c: CreateInput, p: Payload)
    requires AttemptsOk(db) && RunningOk(db) && SuccessOk(db)
    requires c.batchId !in db.batches && !HasRunningAttempt(db)
    ensures var after := InsertBatch(db, c, p); AttemptsOk(after) && RunningOk(after) && SuccessOk(after)
  {
    hide AttemptsOk, SuccessOk, RunningOk, HasRunningAttempt;
    var after := InsertBatch(db, c, p);
    AttemptsFrame(db, after);
    SuccessFrame(db, after);
    InsertKeepsRunning(db, c, p);
  }

  lemma InsertKeepsRunning(db: Db, c: CreateInput, p: Payload)
    requires RunningOk(db) && c.batchId !in db.batches && !HasRunningAttempt(db)
    ensures RunningOk(InsertBatch(db, c, p))
  {
    var after := InsertBatch(db, c, p);
    assert forall r | r in after.attempts :: after.attempts[r].state != ACTIVE;
    assert forall id | id in after.batches && after.batches[id].state == RUNNING ::
        id in db.batches && after.batches[id] == db.batches[id];
  }

  lemma InsertKeepsSealed(w: World, c: CreateInput, p: Payload)
    requires AuditsOk(w) && FilesOk(w) && StoreOk(w) && EvidenceOk(w.db)
    requires c.batchId !in w.db.batches && p.batchId == c.batchId && Accepted(p) && p.schemaVersion == 3
             && p.sourceControl.Some?
    requires ManifestUri(c.batchId) in w.store.manifests
             && w.store.manifests[ManifestUri(c.batchId)] == Document(Sha256(p), p)
    ensures var after := w.(db := InsertBatch(w.db, c, p));
            AuditsOk(after) && FilesOk(after) && StoreOk(after) && EvidenceOk(after.db)
  {
    hide EvidenceOk, AuditsOk, FilesOk, StoreOk, Accepted, InsertBatch;
    InsertKeepsStore(w, c, p);
    InsertKeepsEvidence(w, c, p);
  }

  lemma InsertKeepsStore(w: World, c: CreateInput, p: Payload)
    requires FilesOk(w) && StoreOk(w)
    requires c.batchId !in w.db.batches && p.batchId == c.batchId && Accepted(p) && p.schemaVersion == 3
             && p.sourceControl.Some?
    requires ManifestUri(c.batchId) in w.store.manifests
             && w.store.manifests[ManifestUri(c.batchId)] == Document(Sha256(p), p)
    ensures var after := w.(db := InsertBatch(w.db, c, p)); FilesOk(after) && StoreOk(after)
  {
    hide Accepted, BuiltFile;
  }

  lemma InsertKeepsEvidence(w: World, c: CreateInput, p: Payload)
    requires AuditsOk(w) && EvidenceOk(w.db) && c.batchId !in w.db.batches
    ensures var after := w.(db := InsertBatch(w.db, c, p)); AuditsOk(after) && EvidenceOk(after.db)
  {
    hide AuditRowOf;
    var after := w.(db := InsertBatch(w.db, c, p));
    forall k: (string, nat) | HasAttempt(w.db, k.0, k.1) ensures HasAttempt(after.db, k.0, k.1) {
    }
    hide HasAttempt;
  }

  lemma InsertKeepsChain(db: Db, c: CreateInput, p: Payload)
    requires IdsOk(db) && ChainOk(db) && BoundariesOk(db) && db.intervals == AllIntervals(db.batches, db.published)
    requires c.batchId !in db.batches && !HasUnfinishedBatch(db)
    requires Continues(PreviousHighs(db), p.partitions) && p.sourceControl.Some?
    requires PastBoundaries(PublishedBoundary(db.batches, db.published), p.sourceControl.value.transactions)
    ensures var after := InsertBatch(db, c, p);
            ChainOk(after) && BoundariesOk(after) && after.intervals == AllIntervals(after.batches, after.published)
  {
    hide Continues, PastBoundaries;
    var after := InsertBatch(db, c, p);
    assert NextInChain(db, after.batches[c.batchId]);
    forall id | id in after.batches && IsUnfinished(after.batches[id])
      ensures (id in db.batches && IsUnfinished(db.batches[id])) || NextInChain(db, after.batches[id])
    {
    }
    ChainFrame(db, after);
  }

  lemma CreateKeepsInv(w: World, c: CreateInput, crash: bool)
    requires Inv(w) && Admissible(w, OpCreate(c, crash))
    ensures Inv(CreateOrGet(w, c, crash).1)
  {
    hide IdsOk, UnfinishedIsLast, LogsOk, AttemptsOk, RunningOk, SuccessOk, EvidenceOk, AuditsOk, FilesOk, StoreOk;
    hide ChainOk, BoundariesOk;
    hide AllIntervals, ReadsManifest, SealedPayload, ListingCovers, SizesOk, LedgerOk, Accepted, SealsInterval;
    hide Continues, PastBoundaries, InsertBatch;
    hide HasRunningAttempt, HasUnfinishedBatch, PreviousHighs, PublishedBoundary;
    var after := CreateOrGet(w, c, crash).1;
    if after != w {
      var p := SealedPayload(w.db, c).value;
      SealedFacts(w.db, c);
      ManifestWritten(w, after.store, c.batchId, Document(Sha256(p), p));
      if !crash {
        InsertKeepsIds(w.db, c, p);
        InsertKeepsAttempts(w.db, c, p);
        InsertKeepsSealed(w.(store := after.store), c, p);
        InsertKeepsChain(w.db, c, p);
      }
    }
  }

  // ---------------------------------------------------------------- published intervals

  function IntervalId(iv: Interval): Identity { (iv.topic, iv.partition) }

  /** The high of the last interval of a partition, -1 before the first. */
  function ChainHigh(ivs: seq<Interval>, id: Identity): int {
    if ivs == [] then -1
    else if IntervalId(ivs[|ivs| - 1]) == id then ivs[|ivs| - 1].high
    else ChainHigh(ivs[..|ivs| - 1], id)
  }

  /** In publish order every interval is non-empty and starts where its partition's previous one ended. */
  ghost predicate Contiguous(ivs: seq<Interval>) {
    forall k | 0 <= k < |ivs| :: ivs[k].low < ivs[k].high && ivs[k].low == ChainHigh(ivs[..k], IntervalId(ivs[k]))
  }

  lemma ContiguousGrows(ivs: seq<Interval>, iv: Interval)
    requires Contiguous(ivs) && iv.low < iv.high && iv.low == ChainHigh(ivs, IntervalId(iv))
    ensures Contiguous(ivs + [iv])
    ensures forall id :: ChainHigh(ivs + [iv], id) == if id == IntervalId(iv) then iv.high else ChainHigh(ivs, id)
  {
    var grown := ivs + [iv];
    assert grown[..|ivs|] == ivs;
    forall k | 0 <= k < |grown|
      ensures grown[k].low < grown[k].high && grown[k].low == ChainHigh(grown[..k], IntervalId(grown[k]))
    {
      if k < |ivs| { assert grown[..k] == ivs[..k]; }
    }
  }

  ghost predicate Reaches(ivs: seq<Interval>, highs: map<Identity, int>) {
    Contiguous(ivs) && forall id :: ChainHigh(ivs, id) == Low(highs, id)
  }

  lemma {:induction false} HighsOfExact(bounds: seq<Bound>)
    ensures forall id :: id in HighsOf(bounds) <==> exists i :: 0 <= i < |bounds| && BoundId(bounds[i]) == id
  {
    if bounds != [] {
      var front := bounds[..|bounds| - 1];
      HighsOfExact(front);
      forall id | exists i :: 0 <= i < |bounds| && BoundId(bounds[i]) == id ensures id in HighsOf(bounds) {
        var i :| 0 <= i < |bounds| && BoundId(bounds[i]) == id;
        if i < |front| { assert BoundId(front[i]) == id; }
      }
      forall id | id in HighsOf(bounds) ensures exists i :: 0 <= i < |bounds| && BoundId(bounds[i]) == id {
        if id in HighsOf(front) {
          var i :| 0 <= i < |front| && BoundId(front[i]) == id;
          assert BoundId(bounds[i]) == id;
        } else {
          assert BoundId(bounds[|bounds| - 1]) == id;
        }
      }
    }
  }

  /** Highs after part of a batch's bounds: theirs where they speak, the earlier ones elsewhere. */
  function Advanced(highs: map<Identity, int>, bounds: seq<Bound>, id: Identity): int {
    if id in HighsOf(bounds) then HighsOf(bounds)[id] else Low(highs, id)
  }

  lemma {:induction false} BoundsExtend(ivs: seq<Interval>, highs: map<Identity, int>, batchId: string,
                                        bounds: seq<Bound>)
    requires Reaches(ivs, highs)
    requires forall b | b in bounds :: b.low <= b.high && b.low == Low(highs, BoundId(b))
    requires forall i, j | 0 <= i < j < |bounds| :: BoundId(bounds[i]) != BoundId(bounds[j])
    ensures var grown := ivs + IntervalsOf(batchId, bounds);
            Contiguous(grown) && forall id :: ChainHigh(grown, id) == Advanced(highs, bounds, id)
  {
    hide Contiguous, ChainHigh;
    if bounds == [] {
      assert ivs + IntervalsOf(batchId, bounds) == ivs;
    } else {
      var front, b := bounds[..|bounds| - 1], bounds[|bounds| - 1];
      assert b in bounds;
      BoundsExtend(ivs, highs, batchId, front);
      var before := ivs + IntervalsOf(batchId, front);
      HighsOfExact(front);
      assert BoundId(b) !in HighsOf(front);
      assert forall id :: Advanced(highs, bounds, id) == if id == BoundId(b) then b.high
          else Advanced(highs, front, id);
      if b.high > b.low {
        var iv := Interval(batchId, b.topic, b.partition, b.low, b.high);
        ContiguousGrows(before, iv);
        assert ivs + IntervalsOf(batchId, bounds) == before + [iv];
      }
    }
  }

  lemma BatchExtends(ivs: seq<Interval>, highs: map<Identity, int>, batchId: string, bounds: seq<Bound>)
    requires Reaches(ivs, highs) && Continues(highs, bounds)
    ensures Reaches(ivs + IntervalsOf(batchId, bounds), HighsOf(bounds))
  {
    forall b | b in bounds ensures b.low <= b.high {
      var i :| 0 <= i < |bounds| && bounds[i] == b;
      assert BoundOk(bounds[i]);
    }
    forall i, j | 0 <= i < j < |bounds| ensures BoundId(bounds[i]) != BoundId(bounds[j]) {
      assert BoundIds(bounds)[i] != BoundIds(bounds)[j];
    }
    BoundsExtend(ivs, highs, batchId, bounds);
    HighsOfExact(bounds);
    forall id | id in highs ensures id in HighsOf(bounds) {
      var i :| 0 <= i < |bounds| && BoundIds(bounds)[i] == id;
      assert BoundId(bounds[i]) == id;
    }
  }

  /** The intervals of the first n publications reach exactly the highs of the n-th. */
  lemma {:induction false} PublishedIntervalsReach(db: Db, n: nat)
    requires n <= |db.published| && IdsOk(db) && ChainOk(db)
    ensures Reaches(AllIntervals(db.batches, db.published[..n]), HighsAt(db, n))
  {
    hide IdsOk, ChainOk, Continues, Reaches, IntervalsOf, HighsOf;
    if n == 0 {
      NothingReached();
    } else {
      PublishedIntervalsReach(db, n - 1);
      ChainAt(db, n - 1);
      assert db.published[..n][..n - 1] == db.published[..n - 1];
      var id := db.published[n - 1];
      BatchExtends(AllIntervals(db.batches, db.published[..n - 1]), HighsAt(db, n - 1), id, db.batches[id].partitions);
    }
  }

  lemma NothingReached()
    ensures Reaches([], map[])
  {
  }

  lemma ChainAt(db: Db, k: nat)
    requires k < |db.published| && IdsOk(db) && ChainOk(db)
    ensures db.published[k] in db.batches && Continues(HighsAt(db, k), db.batches[db.published[k]].partitions)
  {
    hide Continues, HighsAt, LogPath;
    assert db.published[k] in db.published;
  }

  lemma {:induction false} HighsOnlyGrow(ivs: seq<Interval>, i: nat)
    requires Contiguous(ivs) && i < |ivs|
    ensures ivs[i].high <= ChainHigh(ivs, IntervalId(ivs[i]))
  {
    var front := ivs[..|ivs| - 1];
    if i < |front| {
      assert Contiguous(front) by {
        forall k | 0 <= k < |front|
          ensures front[k].low < front[k].high && front[k].low == ChainHigh(front[..k], IntervalId(front[k]))
        {
          assert front[..k] == ivs[..k];
        }
      }
      HighsOnlyGrow(front, i);
      assert ivs[..|ivs| - 1] == front;
      assert ivs[|ivs| - 1].low == ChainHigh(front, IntervalId(ivs[|ivs| - 1]));
    }
  }

  /** Contiguous intervals never overlap, so the exclusion constraint has nothing to refuse. */
  lemma ContiguousExcludes(ivs: seq<Interval>)
    requires Contiguous(ivs)
    ensures ExclusionHolds(ivs)
  {
    forall i, j | 0 <= i < j < |ivs| ensures !Overlaps(ivs[i], ivs[j]) {
      var front := ivs[..j];
      assert Contiguous(front) by {
        forall k | 0 <= k < |front|
          ensures front[k].low < front[k].high && front[k].low == ChainHigh(front[..k], IntervalId(front[k]))
        {
          assert front[..k] == ivs[..k];
        }
      }
      HighsOnlyGrow(front, i);
      assert front[i] == ivs[i];
    }
  }

  /** No publication of a batch that may come next meets the exclusion constraint. */
  lemma NextBatchExcludesNothing(db: Db, id: string)
    requires IdsOk(db) && ChainOk(db) && db.intervals == AllIntervals(db.batches, db.published)
    requires id in db.batches && IsUnfinished(db.batches[id])
    ensures ExclusionHolds(db.intervals + IntervalsOf(id, db.batches[id].partitions))
  {
    var n := |db.published|;
    PublishedIntervalsReach(db, n);
    assert db.published[..n] == db.published;
    BatchExtends(db.intervals, PreviousHighs(db), id, db.batches[id].partitions);
    ContiguousExcludes(db.intervals + IntervalsOf(id, db.batches[id].partitions));
  }

  // ---------------------------------------------------------------- publish

  lemma PublishedBoundaryGrows(db: Db, after: Db, id: string)
    requires IdsOk(db) && id in db.batches && after.published == db.published + [id]
             && SameSealed(db.batches, after.batches)
    ensures forall k | 0 <= k <= |db.published| ::
              PublishedBoundary(after.batches, after.published[..k]) == PublishedBoundary(db.batches, db.published[..k])
  {
    forall k | 0 <= k <= |db.published|
      ensures PublishedBoundary(after.batches, after.published[..k]) == PublishedBoundary(db.batches, db.published[..k])
    {
      assert after.published[..k] == db.published[..k];
      forall x | x in db.published[..k] ensures x in db.batches {
        assert x in db.published;
      }
      PublishedBoundaryFrame(db.batches, after.batches, db.published[..k]);
    }
  }

  ghost predicate PublishedNext(db: Db, after: Db, id: string) {
    && id in db.batches && IsUnfinished(db.batches[id])
    && after.batches == db.batches[id := db.batches[id].(state := PUBLISHED)] && after.published == db.published + [id]
    && after.intervals == db.intervals + IntervalsOf(id, db.batches[id].partitions)
  }

  lemma PreviousIsLast(db: Db)
    ensures PreviousHighs(db) == HighsAt(db, |db.published|)
  {
  }

  lemma HighsStay(db: Db, after: Db, id: string, k: nat)
    requires IdsOk(db) && PublishedNext(db, after, id) && k <= |db.published|
    ensures HighsAt(after, k) == HighsAt(db, k)
  {
    hide HighsOf, IntervalsOf;
    if k > 0 { assert db.published[k - 1] in db.published; }
  }

  /** The batch published is the one that continues the chain, and nothing else was unfinished. */
  lemma PublishKeepsChain(db: Db, after: Db, id: string)
    requires IdsOk(db) && ChainOk(db) && UnfinishedIsLast(db) && PublishedNext(db, after, id)
    ensures ChainOk(after)
  {
    hide Continues, HighsAt, IntervalsOf, PreviousHighs;
    var p := db.published;
    PreviousIsLast(db);
    assert forall other | other in after.batches :: !IsUnfinished(after.batches[other]);
    forall k | 0 <= k < |after.published|
      ensures Continues(HighsAt(after, k), after.batches[after.published[k]].partitions)
    {
      HighsStay(db, after, id, k);
      if k < |p| { assert p[k] in p; }
    }
  }

  lemma PublishKeepsBoundaries(db: Db, after: Db, id: string)
    requires IdsOk(db) && BoundariesOk(db) && UnfinishedIsLast(db) && PublishedNext(db, after, id)
    ensures BoundariesOk(after)
  {
    hide PastBoundaries, IntervalsOf;
    var p := db.published;
    PublishedBoundaryGrows(db, after, id);
    hide PublishedBoundary;
    assert p[..|p|] == p;
    assert forall other | other in after.batches :: !IsUnfinished(after.batches[other]);
    forall k | 0 <= k < |after.published|
      ensures PastBoundaries(PublishedBoundary(after.batches, after.published[..k]),
                after.batches[after.published[k]].transactions)
    {
      if k < |p| { assert p[k] in p; }
    }
  }

  lemma PublishKeepsIntervals(db: Db, after: Db, id: string)
    requires IdsOk(db) && db.intervals == AllIntervals(db.batches, db.published) && PublishedNext(db, after, id)
    ensures after.intervals == AllIntervals(after.batches, after.published)
  {
    AllIntervalsFrame(db.batches, after.batches, db.published);
    assert after.published[..|db.published|] == db.published;
  }

  lemma PublishKeepsRunning(db: Db, after: Db, run: string)
    requires RunningOk(db) && run in db.attempts && db.attempts[run].state == ACTIVE
             && db.attempts[run].batchId in db.batches
    requires after.attempts == db.attempts[run := db.attempts[run].(state := SUCCESS)]
    requires var id := db.attempts[run].batchId; after.batches == db.batches[id := db.batches[id].(state := PUBLISHED)]
    ensures RunningOk(after)
  {
    forall id | id in db.batches && db.batches[id].state == RUNNING ensures id == db.attempts[run].batchId {
      var r :| r in db.attempts && db.attempts[r].batchId == id && db.attempts[r].state == ACTIVE;
      assert r == run;
    }
    forall r | r in after.attempts ensures after.attempts[r].state != ACTIVE {
    }
  }

  lemma PublishKeepsSuccess(db: Db, after: Db, run: string)
    requires SuccessOk(db) && run in db.attempts && db.attempts[run].state == ACTIVE
             && db.attempts[run].batchId in db.batches
    requires EvidenceComplete(db, db.attempts[run].batchId, db.attempts[run].number, db.attempts[run].sha)
    requires AuditPasses(db, db.attempts[run].batchId, db.attempts[run].number)
    requires after.attempts == db.attempts[run := db.attempts[run].(state := SUCCESS)]
    requires var id := db.attempts[run].batchId; after.batches == db.batches[id := db.batches[id].(state := PUBLISHED)]
    requires after.evidence == db.evidence && after.audits == db.audits
    ensures SuccessOk(after)
  {
    SameProofs(db, after);
    hide EvidenceComplete, AuditPasses;
    forall id | id in after.batches && after.batches[id].state == PUBLISHED
      ensures exists r | r in after.attempts :: after.attempts[r].batchId == id && after.attempts[r].state == SUCCESS
    {
      if id == db.attempts[run].batchId {
        assert after.attempts[run].state == SUCCESS;
      } else {
        var r :| r in db.attempts && db.attempts[r].batchId == id && db.attempts[r].state == SUCCESS;
        assert after.attempts[r] == db.attempts[r];
      }
    }
  }

  lemma SameProofs(db: Db, after: Db)
    requires after.evidence == db.evidence && after.audits == db.audits
    ensures forall id, n, sha :: EvidenceComplete(after, id, n, sha) == EvidenceComplete(db, id, n, sha)
    ensures forall id, n :: AuditPasses(after, id, n) == AuditPasses(db, id, n)
  {
    forall id, n, sha ensures EvidenceComplete(after, id, n, sha) == EvidenceComplete(db, id, n, sha) {
      assert TasksOf(after, id, n) == TasksOf(db, id, n);
    }
  }

  lemma PublishKeepsBatches(db: Db, after: Db, id: string)
    requires IdsOk(db) && UnfinishedIsLast(db) && LogsOk(db) && id in db.batches && db.batches[id].state == RUNNING
    requires after.batches == db.batches[id := db.batches[id].(state := PUBLISHED)] && after.created == db.created
    requires after.published == db.published + [id]
    requires after.log == Appended(db.log, id, [StateEvent(Some(RUNNING), VALIDATED),
               StateEvent(Some(VALIDATED), PUBLISHED)])
    ensures IdsOk(after) && UnfinishedIsLast(after) && LogsOk(after)
  {
    hide IdsOk, UnfinishedIsLast, LogsOk, LogPath;
    LogOf(db, id);
    LogStep(db.log[id], RUNNING, VALIDATED);
    LogStep(db.log[id] + [StateEvent(Some(RUNNING), VALIDATED)], VALIDATED, PUBLISHED);
    assert db.log[id] + [StateEvent(Some(RUNNING), VALIDATED)] + [StateEvent(Some(VALIDATED), PUBLISHED)]
        == db.log[id] + [StateEvent(Some(RUNNING), VALIDATED), StateEvent(Some(VALIDATED), PUBLISHED)];
    StateChangeKeeps(db, after, id, PUBLISHED, [StateEvent(Some(RUNNING), VALIDATED),
        StateEvent(Some(VALIDATED), PUBLISHED)]);
  }

  /** What a publication changes, when it changes anything. */
  ghost predicate Published(db: Db, after: Db, batchId: string, run: string) {
    && AttemptOpen(db, batchId, run) && EvidenceComplete(db, batchId, db.attempts[run].number, db.attempts[run].sha)
    && AuditPasses(db, batchId, db.attempts[run].number)
    && after.attempts == db.attempts[run := db.attempts[run].(state := SUCCESS)]
    && after.batches == db.batches[batchId := db.batches[batchId].(state := PUBLISHED)]
    && after == db.(attempts := after.attempts, batches := after.batches, published := after.published,
                    intervals := after.intervals, log := after.log)
    && (if db.batches[batchId].state == PUBLISHED
        then after.published == db.published && after.intervals == db.intervals && after.log == db.log
        else
          && after.published == db.published + [batchId]
          && after.intervals == db.intervals + IntervalsOf(batchId, db.batches[batchId].partitions)
          && after.log == Appended(db.log, batchId,
               [StateEvent(Some(RUNNING), VALIDATED), StateEvent(Some(VALIDATED), PUBLISHED)]))
  }

  lemma PublishEffect(db: Db, batchId: string, run: string, sha: Digest)
    ensures var after := Publish(db, batchId, run, sha).1; after == db || Published(db, after, batchId, run)
  {
    hide EvidenceComplete, AuditPasses, ExclusionHolds, IntervalsOf, Appended;
  }

  lemma PublishedFrames(w: World, db: Db, batchId: string, run: string)
    requires AttemptsOk(w.db) && EvidenceOk(w.db) && AuditsOk(w) && FilesOk(w) && StoreOk(w)
             && Published(w.db, db, batchId, run)
    ensures var after := w.(db := db);
            AttemptsOk(db) && EvidenceOk(db) && AuditsOk(after) && FilesOk(after) && StoreOk(after)
  {
    hide AttemptsOk, EvidenceOk, AuditsOk, FilesOk, StoreOk, EvidenceComplete, AuditPasses, IntervalsOf, Appended;
    AttemptsFrame(w.db, db);
    SealedFrame(w, w.(db := db));
  }

  lemma PublishKeepsInv(w: World, batchId: string, run: string, sha: Digest)
    requires Inv(w)
    ensures Inv(w.(db := Publish(w.db, batchId, run, sha).1))
  {
    hide IdsOk, UnfinishedIsLast, LogsOk, AttemptsOk, RunningOk, SuccessOk, EvidenceOk, AuditsOk, FilesOk, StoreOk;
    hide ChainOk, BoundariesOk;
    hide AllIntervals, EvidenceComplete, AuditPasses, IntervalsOf, Appended, Publish;
    var db := Publish(w.db, batchId, run, sha).1;
    PublishEffect(w.db, batchId, run, sha);
    if db != w.db {
      PublishedFrames(w, db, batchId, run);
      PublishKeepsRunning(w.db, db, run);
      PublishKeepsSuccess(w.db, db, run);
      if w.db.batches[batchId].state == RUNNING {
        PublishKeepsBatches(w.db, db, batchId);
        PublishKeepsChain(w.db, db, batchId);
        PublishKeepsBoundaries(w.db, db, batchId);
        PublishKeepsIntervals(w.db, db, batchId);
      } else {
        UntouchedBatches(w.db, db);
        ChainFrame(w.db, db);
      }
    }
  }

  // ---------------------------------------------------------------- every reachable state

  lemma InvHasIds(w: World)
    requires Inv(w)
    ensures IdsOk(w.db)
  {
  }

  lemma EmptyWorldInv()
    ensures Inv(EMPTY_WORLD)
  {
    hide LogPath, Continues, PastBoundaries, EvidenceComplete, AuditPasses, ReadsManifest, BuiltFile, Accepted;
  }

  lemma StepKeepsInv(w: World, op: Op)
    requires Inv(w) && Admissible(w, op)
    ensures Inv(Apply(w, op))
  {
    hide Inv, Admissible;
    match op
    case OpCreate(c, crash) => CreateKeepsInv(w, c, crash);
    case OpStart(batchId, run) => StartKeepsInv(w, batchId, run);
    case OpRecord(batchId, run, task, uri, sha) => RecordKeepsInv(w, batchId, run, task, uri, sha);
    case OpReconcile(batchId, run, counts, missing) => ReconcileKeepsInv(w, batchId, run, counts, missing);
    case OpPublish(batchId, run, sha) => PublishKeepsInv(w, batchId, run, sha);
    case OpFail(run) => FailKeepsInv(w, run);
    case OpSupersede(batchId) => SupersedeKeepsInv(w, batchId);
  }

  /** Every interleaving of the steps, crashes included, stays within the invariant. */
  lemma {:induction false} ReachableInv(ops: seq<Op>)
    requires AdmissibleRun(ops)
    ensures Inv(Run(ops))
  {
    hide Inv, Admissible, Apply;
    if ops == [] {
      EmptyWorldInv();
    } else {
      var front := ops[..|ops| - 1];
      forall i | 0 <= i < |front| ensures Admissible(Run(front[..i]), front[i]) {
        assert front[..i] == ops[..i] && front[i] == ops[i];
      }
      ReachableInv(front);
      StepKeepsInv(Run(front), ops[|ops| - 1]);
    }
  }
}
