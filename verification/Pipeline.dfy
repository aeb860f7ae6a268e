/**
 The control plane and the satellites together: batches are sealed, attempts load the satellite
 tables one by one, fail, are retried, superseded or published, in any interleaving the control
 plane admits. Each table load is one atomic merge; a crash is a run that simply goes no further.
 */
module Pipeline {
  import opened Wrappers
  import opened Ordering
  import opened Encodings
  import opened Manifest
  import opened ManifestValidation
  import opened LedgerControl
  import opened Audit
  import opened Control
  import opened ControlInvariant
  import opened ControlGuarantees
  import opened Publication
  import opened RawVault
  import opened Compression
  import opened IncrementalLoad

  /** Per satellite table, the row staged from the event under an object key, if it stages one. */
  datatype Source = Source(history: History, staging: map<string, map<string, Row>>)

  datatype Pipe = Pipe(control: World, tables: map<string, set<Stored>>, loaded: map<string, set<string>>)

  datatype Step = ControlStep(op: Op) | LoadStep(run: string, table: string)

  function Staged(stage: map<string, Row>, objects: seq<BronzeObject>): set<Row> {
    set o | o in objects && o.objectKey in stage :: stage[o.objectKey]
  }

  /** Rows of the events at or below the highs. */
  ghost function Past(stage: map<string, Row>, bronze: seq<BronzeObject>, highs: map<Identity, int>): set<Row> {
    set o | o in bronze && o.objectKey in stage && Below(highs, o) :: stage[o.objectKey]
  }

  predicate RowAt(r: Row, o: BronzeObject) {
    && ItemOf(o).Some? && r.topic == ItemOf(o).value.topic && r.partition == ItemOf(o).value.partition
    && r.offset == ItemOf(o).value.offset
  }

  ghost predicate SourceOk(s: Source) {
    forall t | t in s.staging ::
      && (forall o | o in s.history.bronze && o.objectKey in s.staging[t] :: RowAt(s.staging[t][o.objectKey], o))
      && Contract(Staged(s.staging[t], s.history.bronze))
  }

  // ---------------------------------------------------------------- steps

  /** One satellite of the bounded run of an attempt: all or nothing. */
  function LoadOne(s: Source, p: Pipe, run: string, table: string): Result<set<Stored>, LoadError>
    requires run in p.control.db.attempts && p.control.db.attempts[run].batchId in p.control.db.batches
    requires table in s.staging && table in p.tables
  {
    var id := p.control.db.attempts[run].batchId;
    LoadBounded(p.tables[table], id, Staged(s.staging[table], p.control.db.batches[id].sha.payload.objects))
  }

  predicate MayLoad(s: Source, p: Pipe, run: string, table: string) {
    && run in p.control.db.attempts && p.control.db.attempts[run].state == ACTIVE
    && p.control.db.attempts[run].batchId in p.control.db.batches && table in s.staging && table in p.tables
  }

  ghost function Next(s: Source, p: Pipe, step: Step): Pipe {
    match step
    case ControlStep(op) => p.(control := Apply(p.control, op))
    case LoadStep(run, table) =>
      if MayLoad(s, p, run, table) && LoadOne(s, p, run, table).Ok? then
        p.(tables := p.tables[table := LoadOne(s, p, run, table).value],
           loaded := p.loaded[run := (if run in p.loaded then p.loaded[run] else {}) + {table}])
      else p
  }

  /** A later listing still shows whatever an earlier manifest sealed. */
  ghost predicate ListingGrows(db: Db, listing: seq<BronzeObject>) {
    forall id, o | id in db.batches && o in db.batches[id].sha.payload.objects :: o in listing
  }

  /** The load task of an attempt reports success only after loading every table. */
  ghost predicate Allowed(s: Source, p: Pipe, step: Step) {
    step.ControlStep? ==>
      && Admissible(p.control, step.op)
      && (step.op.OpCreate? ==> Sees(s.history, step.op.c) && ListingGrows(p.control.db, Listing(step.op.c)))
      && (step.op.OpRecord? && step.op.task == LoadSatellites ==>
            step.op.run in p.loaded && s.staging.Keys <= p.loaded[step.op.run])
  }

  ghost function Initial(s: Source): Pipe {
    Pipe(EMPTY_WORLD, map t | t in s.staging :: {}, map[])
  }

  ghost function Runs(s: Source, steps: seq<Step>): Pipe {
    if steps == [] then Initial(s) else Next(s, Runs(s, steps[..|steps| - 1]), steps[|steps| - 1])
  }

  ghost predicate AllowedRun(s: Source, steps: seq<Step>) {
    && SourceOk(s) && LedgerOk(s.history.ledger)
    && forall i | 0 <= i < |steps| :: Allowed(s, Runs(s, steps[..i]), steps[i])
  }

  // ---------------------------------------------------------------- the batch under load

  function LatestId(db: Db): string
    requires db.created != []
  {
    db.created[|db.created| - 1]
  }

  /** Highs below the last created batch: those of the publication before it. */
  ghost function Base(db: Db): map<Identity, int> {
    if db.created != [] && LatestId(db) in db.batches && db.batches[LatestId(db)].state == PUBLISHED
        && db.published != []
    then HighsAt(db, |db.published| - 1) else PreviousHighs(db)
  }

  ghost predicate Frontier(db: Db) {
    db.created != [] ==>
      && LatestId(db) in db.batches
      && (db.batches[LatestId(db)].state == PUBLISHED ==>
           db.published != [] && db.published[|db.published| - 1] == LatestId(db))
      && Continues(Base(db), db.batches[LatestId(db)].partitions)
  }

  /** Published history and the batch's own changes, nothing of another batch in between. */
  ghost predicate Complete(table: set<Stored>, history: set<Row>, batch: string, rows: set<Row>) {
    Others(table, batch) == KeepStateChanges(history) && Project(table) == KeepStateChanges(history + rows)
  }

  ghost function HistoryOf(s: Source, db: Db, t: string): set<Row>
    requires t in s.staging
  {
    Past(s.staging[t], s.history.bronze, Base(db))
  }

  function RowsOf(s: Source, b: Batch, t: string): set<Row>
    requires t in s.staging
  {
    Staged(s.staging[t], b.sha.payload.objects)
  }

  ghost predicate TableOk(s: Source, db: Db, t: string, table: set<Stored>)
    requires t in s.staging
  {
    && (forall v | v in table :: v.batch in db.batches)
    && (if db.created == [] then table == {} else
        var id := LatestId(db);
        && id in db.batches
        && UnderLoad(table, HistoryOf(s, db, t), id, RowsOf(s, db.batches[id], t))
        && (db.batches[id].state == PUBLISHED ==>
             Complete(table, HistoryOf(s, db, t), id, RowsOf(s, db.batches[id], t))))
  }

  ghost predicate LoadedOf(s: Source, p: Pipe, run: string, t: string)
    requires t in s.staging && t in p.tables
  {
    var db := p.control.db;
    (run in p.loaded && t in p.loaded[run] && run in db.attempts && db.created != []
     && LatestId(db) in db.batches && db.attempts[run].batchId == LatestId(db))
    ==> Complete(p.tables[t], HistoryOf(s, db, t), LatestId(db), RowsOf(s, db.batches[LatestId(db)], t))
  }

  /** Load evidence exists only for attempts that loaded every table. */
  ghost predicate EvidenceMeansLoaded(s: Source, p: Pipe) {
    var db := p.control.db;
    && (forall run | run in p.loaded :: run in db.attempts)
    && forall run | run in db.attempts
                    && (db.attempts[run].batchId, db.attempts[run].number, LoadSatellites) in db.evidence ::
         run in p.loaded && s.staging.Keys <= p.loaded[run]
  }

  ghost predicate TablesOk(s: Source, p: Pipe) {
    && p.tables.Keys == s.staging.Keys
    && (forall t | t in s.staging :: TableOk(s, p.control.db, t, p.tables[t]))
    && (forall run, t | t in s.staging :: LoadedOf(s, p, run, t))
  }

  ghost predicate PipeInv(s: Source, p: Pipe) {
    && Inv(p.control) && SealedIn(s.history, p.control.db) && Frontier(p.control.db)
    && EvidenceMeansLoaded(s, p) && TablesOk(s, p)
  }

  // ---------------------------------------------------------------- loads

  /** A load that does not raise completes its table; a table under load stays under load. */
  lemma LoadCompletes(table: set<Stored>, history: set<Row>, batch: string, rows: set<Row>)
    requires UnderLoad(table, history, batch, rows) && LoadBounded(table, batch, rows).Ok?
    ensures var after := LoadBounded(table, batch, rows).value;
            UnderLoad(after, history, batch, rows) && Complete(after, history, batch, rows)
            && (forall v | v in after :: v in table || v.batch == batch)
  {
    hide Contract, Follows, KeepStateChanges, ChangedRows, UniqueEvents, CrossesBoundary;
    LoadRebuildsOrRaises(table, history, batch, rows);
    assert Others(table, batch) == KeepStateChanges(history);
  }

  lemma LoadKeepsTables(s: Source, p: Pipe, run: string, table: string)
    requires PipeInv(s, p)
    ensures PipeInv(s, Next(s, p, LoadStep(run, table)))
  {
    hide Inv, SealedIn, Frontier, UnderLoad, Complete, LoadBounded, Base, Past, TablesOk;
    var q := Next(s, p, LoadStep(run, table));
    if q != p {
      ActiveIsLatest(p.control, run);
      LoadKeepsEachTable(s, p, q, run, table);
      assert q.control == p.control;
      forall r | r in p.loaded ensures r in q.loaded && p.loaded[r] <= q.loaded[r] {
      }
    }
  }

  lemma LoadKeepsEachTable(s: Source, p: Pipe, q: Pipe, run: string, table: string)
    requires TablesOk(s, p) && MayLoad(s, p, run, table) && LoadOne(s, p, run, table).Ok?
             && q == Next(s, p, LoadStep(run, table))
    requires p.control.db.created != [] && LatestId(p.control.db) == p.control.db.attempts[run].batchId
    ensures TablesOk(s, q)
  {
    hide UnderLoad, Complete, LoadBounded, Base, Past;
    var db := p.control.db;
    var id := LatestId(db);
    assert TableOk(s, db, table, p.tables[table]);
    LoadCompletes(p.tables[table], HistoryOf(s, db, table), id, RowsOf(s, db.batches[id], table));
    assert TableOk(s, db, table, q.tables[table]);
    forall t | t in s.staging ensures TableOk(s, db, t, q.tables[t]) {
      assert TableOk(s, db, t, p.tables[t]);
    }
    forall r, t | t in s.staging ensures LoadedOf(s, q, r, t) {
      assert LoadedOf(s, p, r, t);
    }
  }

  lemma ActiveIsLatest(w: World, run: string)
    requires Inv(w) && run in w.db.attempts && w.db.attempts[run].state == ACTIVE
    ensures w.db.created != [] && LatestId(w.db) == w.db.attempts[run].batchId && LatestId(w.db) in w.db.batches
  {
    hide IdsOk, UnfinishedIsLast, LogsOk, EvidenceOk, AuditsOk, FilesOk, SuccessOk, StoreOk, ChainOk, BoundariesOk;
  }

  // ---------------------------------------------------------------- control steps that seal or publish nothing

  /** The last created batch keeps its payload and stays on its side of publication. */
  ghost predicate SameFrontier(before: Db, after: Db) {
    && after.created == before.created && after.published == before.published
    && SameSealed(before.batches, after.batches)
    && forall id | id in before.batches :: before.batches[id].state == PUBLISHED <==>
         after.batches[id].state == PUBLISHED
  }

  lemma SameHighs(before: Db, after: Db, k: nat)
    requires SameFrontier(before, after) && IdsOk(before) && k <= |before.published|
    ensures HighsAt(after, k) == HighsAt(before, k)
  {
    hide HighsOf, LogPath;
    if k > 0 { assert before.published[k - 1] in before.published; }
  }

  lemma SameBase(before: Db, after: Db)
    requires SameFrontier(before, after) && IdsOk(before) && Frontier(before)
    ensures Base(after) == Base(before) && Frontier(after)
  {
    hide Continues, HighsAt, PreviousHighs, IdsOk;
    PreviousIsLast(before);
    PreviousIsLast(after);
    SameHighs(before, after, |before.published|);
    if before.published != [] { SameHighs(before, after, |before.published| - 1); }
  }

  lemma TableFrame(s: Source, before: Db, after: Db, t: string, table: set<Stored>)
    requires t in s.staging && TableOk(s, before, t, table) && SameFrontier(before, after)
             && Base(after) == Base(before)
    ensures TableOk(s, after, t, table)
  {
    hide UnderLoad, Complete, Base, Past;
  }

  lemma QuietStep(s: Source, p: Pipe, q: Pipe)
    requires PipeInv(s, p) && Inv(q.control) && SealedIn(s.history, q.control.db) && q == p.(control := q.control)
    requires SameFrontier(p.control.db, q.control.db)
    requires forall run | run in p.control.db.attempts :: run in q.control.db.attempts
               && q.control.db.attempts[run].batchId == p.control.db.attempts[run].batchId
    requires EvidenceMeansLoaded(s, q)
    ensures PipeInv(s, q)
  {
    hide SealedIn, UnderLoad, Complete, Past, Base, Inv, IdsOk, SameFrontier, TablesOk, EvidenceMeansLoaded, Frontier;
    InvHasIds(p.control);
    SameBase(p.control.db, q.control.db);
    FrontierIsBatch(p.control.db);
    LoadedAreAttempts(s, p);
    TablesFrame(s, p, q);
  }

  lemma FrontierIsBatch(db: Db)
    requires Frontier(db)
    ensures db.created != [] ==> LatestId(db) in db.batches
  {
  }

  lemma LoadedAreAttempts(s: Source, p: Pipe)
    requires EvidenceMeansLoaded(s, p)
    ensures forall run | run in p.loaded :: run in p.control.db.attempts
  {
  }

  lemma TablesFrame(s: Source, p: Pipe, q: Pipe)
    requires TablesOk(s, p) && q == p.(control := q.control) && SameFrontier(p.control.db, q.control.db)
    requires Base(q.control.db) == Base(p.control.db)
             && (p.control.db.created != [] ==> LatestId(p.control.db) in p.control.db.batches)
    requires forall run | run in q.control.db.attempts && run !in p.control.db.attempts :: run !in p.loaded
    requires forall run | run in p.control.db.attempts :: run in q.control.db.attempts
               && q.control.db.attempts[run].batchId == p.control.db.attempts[run].batchId
    ensures TablesOk(s, q)
  {
    hide UnderLoad, Complete, Base, Past;
    forall t | t in s.staging ensures TableOk(s, q.control.db, t, q.tables[t]) {
      TableFrame(s, p.control.db, q.control.db, t, p.tables[t]);
    }
    hide TableOk;
    forall run, t | t in s.staging ensures LoadedOf(s, q, run, t) {
      LoadedFrame(s, p, q, run, t);
    }
  }

  lemma LoadedFrame(s: Source, p: Pipe, q: Pipe, run: string, t: string)
    requires t in s.staging && t in p.tables && LoadedOf(s, p, run, t)
    requires q == p.(control := q.control) && SameFrontier(p.control.db, q.control.db)
    requires Base(q.control.db) == Base(p.control.db)
             && (p.control.db.created != [] ==> LatestId(p.control.db) in p.control.db.batches)
    requires run in q.control.db.attempts && run !in p.control.db.attempts ==> run !in p.loaded
    requires run in p.control.db.attempts ==>
               run in q.control.db.attempts && q.control.db.attempts[run].batchId == p.control.db.attempts[run].batchId
    ensures LoadedOf(s, q, run, t)
  {
    hide Complete, Base, Past;
  }

  /** Steps that neither create nor publish a batch leave the frontier where it was. */
  lemma FrontierStays(w: World, op: Op)
    requires Inv(w) && Inv(Apply(w, op)) && Apply(w, op).db.published == w.db.published && !op.OpCreate?
    ensures SameFrontier(w.db, Apply(w, op).db)
    ensures forall run | run in w.db.attempts :: run in Apply(w, op).db.attempts
              && Apply(w, op).db.attempts[run].batchId == w.db.attempts[run].batchId
              && Apply(w, op).db.attempts[run].number == w.db.attempts[run].number
  {
    StepSettles(w, op);
    BatchesOnlyFromCreate(w, op);
    CreatedOnlyByCreate(w, op);
    InvHasIds(w);
    InvHasIds(Apply(w, op));
    hide Apply, Inv, IdsOk, SameFrontier, AttemptsSettle, BatchesSettle, HistoryGrows, StoreGrows, AuditsStay;
    SamePublished(w.db, Apply(w, op).db);
    SettledAttempts(w.db, Apply(w, op).db);
  }

  lemma SamePublished(before: Db, after: Db)
    requires IdsOk(before) && IdsOk(after) && BatchesSettle(before, after)
    requires after.batches.Keys == before.batches.Keys && after.created == before.created
             && after.published == before.published
    ensures SameFrontier(before, after)
  {
    hide LogPath;
    forall id | id in before.batches
      ensures before.batches[id].state == PUBLISHED <==> after.batches[id].state == PUBLISHED
    {
      assert id in before.published <==> id in after.published;
    }
  }

  lemma SettledAttempts(before: Db, after: Db)
    requires AttemptsSettle(before, after)
    ensures forall run | run in before.attempts :: run in after.attempts
              && after.attempts[run].batchId == before.attempts[run].batchId
              && after.attempts[run].number == before.attempts[run].number
  {
    hide SameEvidence;
  }

  lemma CreatedOnlyByCreate(w: World, op: Op)
    requires !op.OpCreate?
    ensures Apply(w, op).db.created == w.db.created
  {
    hide OfAttempt, AuditAccepted, LastNumber, EvidenceComplete, AuditPasses, ExclusionHolds, IntervalsOf;
    hide ReadsManifest;
    hide BuildAuditPayload, AuditRules, BatchRows, HasRunningAttempt, Appended;
  }

  /** New attempts start without evidence, and load evidence is recorded only for a loaded attempt. */
  lemma EvidenceStaysBacked(s: Source, p: Pipe, op: Op)
    requires Inv(p.control) && Inv(Apply(p.control, op)) && EvidenceMeansLoaded(s, p) && Allowed(s, p, ControlStep(op))
             && !op.OpCreate?
    ensures EvidenceMeansLoaded(s, p.(control := Apply(p.control, op)))
  {
    var q := p.(control := Apply(p.control, op));
    match op
    case OpRecord(batchId, run, task, uri, sha) => RecordIsBacked(s, p, q, op);
    case OpStart(batchId, run) => StartIsBacked(s, p, q, op);
    case OpReconcile(batchId, run, counts, missing) => SameRows(s, p, q, op);
    case OpPublish(batchId, run, sha) => SameRows(s, p, q, op);
    case OpFail(run) => SameRows(s, p, q, op);
    case OpSupersede(batchId) => SameRows(s, p, q, op);
  }

  ghost predicate SameNumbers(before: Db, after: Db) {
    && after.attempts.Keys == before.attempts.Keys
    && forall run | run in before.attempts ::
         after.attempts[run].batchId == before.attempts[run].batchId
             && after.attempts[run].number == before.attempts[run].number
  }

  lemma SameRows(s: Source, p: Pipe, q: Pipe, op: Op)
    requires EvidenceMeansLoaded(s, p) && q == p.(control := Apply(p.control, op))
    requires op.OpReconcile? || op.OpPublish? || op.OpFail? || op.OpSupersede?
    ensures EvidenceMeansLoaded(s, q)
  {
    NumbersStay(p.control, op);
    hide Apply;
  }

  lemma NumbersStay(w: World, op: Op)
    requires op.OpReconcile? || op.OpPublish? || op.OpFail? || op.OpSupersede?
    ensures var after := Apply(w, op); SameNumbers(w.db, after.db) && after.db.evidence == w.db.evidence
  {
    hide Publish, FailRun, BuildAuditPayload, AuditRules, BatchRows, Appended;
    match op
    case OpReconcile(batchId, run, counts, missing) =>
    case OpSupersede(batchId) =>
    case OpPublish(batchId, run, sha) =>
      PublishEffect(w.db, batchId, run, sha);
      hide EvidenceComplete, AuditPasses, IntervalsOf;
    case OpFail(run) => FailIsStateOnly(w.db, run);
  }

  lemma StartIsBacked(s: Source, p: Pipe, q: Pipe, op: Op)
    requires Inv(p.control) && EvidenceMeansLoaded(s, p) && op.OpStart? && q == p.(control := Apply(p.control, op))
    ensures EvidenceMeansLoaded(s, q)
  {
    hide Inv, Start, EvidenceMeansLoaded;
    if op.run !in p.control.db.attempts { StartedFresh(p.control, op.batchId, op.run); }
    StartKeepsRows(p.control.db, op.batchId, op.run);
    BackedFrame(s, p, q, op.run);
  }

  lemma BackedFrame(s: Source, p: Pipe, q: Pipe, run: string)
    requires EvidenceMeansLoaded(s, p) && q == p.(control := q.control)
             && q.control.db.evidence == p.control.db.evidence
    requires forall r | r in p.control.db.attempts ::
               r in q.control.db.attempts && q.control.db.attempts[r] == p.control.db.attempts[r]
    requires forall r | r in q.control.db.attempts && r !in p.control.db.attempts ::
               var a := q.control.db.attempts[r];
               (a.batchId, a.number, LoadSatellites) !in p.control.db.evidence
    ensures EvidenceMeansLoaded(s, q)
  {
  }

  lemma StartKeepsRows(db: Db, batchId: string, run: string)
    ensures var after := Start(db, batchId, run).1;
            && after.evidence == db.evidence
            && (forall r | r in db.attempts :: r in after.attempts && after.attempts[r] == db.attempts[r])
            && (forall r | r in after.attempts && r !in db.attempts :: r == run)
  {
    hide LastNumber, Appended, HasRunningAttempt;
  }

  /** A new attempt's number has no evidence yet. */
  lemma StartedFresh(w: World, batchId: string, run: string)
    requires Inv(w) && run !in w.db.attempts
    ensures var after := Start(w.db, batchId, run).1;
            run in after.attempts ==>
              (after.attempts[run].batchId, after.attempts[run].number, LoadSatellites) !in w.db.evidence
  {
    hide IdsOk, UnfinishedIsLast, LogsOk, RunningOk, AuditsOk, FilesOk, SuccessOk, StoreOk, ChainOk, BoundariesOk;
    hide AttemptsOk;
    hide LastNumber, IsLastNumber, Appended, HasRunningAttempt;
    var after := Start(w.db, batchId, run).1;
    if run in after.attempts && (batchId, after.attempts[run].number, LoadSatellites) in w.db.evidence {
      var r :| r in w.db.attempts && w.db.attempts[r].batchId == batchId
          && w.db.attempts[r].number == after.attempts[run].number;
      NumberIsFresh(w.db.attempts, batchId, r);
    }
  }

  lemma RecordIsBacked(s: Source, p: Pipe, q: Pipe, op: Op)
    requires Inv(p.control) && EvidenceMeansLoaded(s, p) && op.OpRecord? && q == p.(control := Apply(p.control, op))
    requires Allowed(s, p, ControlStep(op))
    ensures EvidenceMeansLoaded(s, q)
  {
    hide IdsOk, UnfinishedIsLast, LogsOk, RunningOk, EvidenceOk, FilesOk, SuccessOk, StoreOk, ChainOk, BoundariesOk;
    hide Record, AuditsOk, AttemptsOk;
    var w := p.control;
    RecordEffect(w, op.batchId, op.run, op.task, op.uri, op.sha);
    AttemptsAreNumbered(w);
    var after := q.control.db;
    forall r | r in after.attempts
               && (after.attempts[r].batchId, after.attempts[r].number, LoadSatellites) in after.evidence
      ensures r in p.loaded && s.staging.Keys <= p.loaded[r]
    {
      if (after.attempts[r].batchId, after.attempts[r].number, LoadSatellites) !in w.db.evidence {
        assert r == op.run;
      }
    }
  }

  lemma AttemptsAreNumbered(w: World)
    requires AttemptsOk(w.db)
    ensures forall r, t | r in w.db.attempts && t in w.db.attempts
            && w.db.attempts[r].batchId == w.db.attempts[t].batchId
              && w.db.attempts[r].number == w.db.attempts[t].number :: r == t
  {
  }

  lemma QuietControlStep(s: Source, p: Pipe, op: Op)
    requires PipeInv(s, p) && Allowed(s, p, ControlStep(op)) && !op.OpCreate?
    requires Apply(p.control, op).db.published == p.control.db.published
    ensures PipeInv(s, Next(s, p, ControlStep(op)))
  {
    hide Apply, Inv, SealedIn, Frontier, EvidenceMeansLoaded, TablesOk, Admissible;
    var q := Next(s, p, ControlStep(op));
    StepKeepsInv(p.control, op);
    StepKeepsSealed(s.history, p.control, op);
    FrontierStays(p.control, op);
    EvidenceStaysBacked(s, p, op);
    QuietStep(s, p, q);
  }

  // ---------------------------------------------------------------- rows of the history and of a batch

  lemma IntervalSplits(h: History, highs: map<Identity, int>, p: Payload)
    requires Continues(highs, p.partitions) && TakesInterval(h, p)
    ensures forall o | o in h.bronze :: Below(HighsOf(p.partitions), o) <==> Below(highs, o) || o in p.objects
    ensures forall o | o in p.objects :: o in h.bronze && !Below(highs, o)
  {
    hide Continues, HighsOf, WithinSome, ParseBronzeCoordinate;
    forall o | o in h.bronze && ItemOf(o).Some?
      ensures Below(HighsOf(p.partitions), o) <==> Below(highs, o) || o in p.objects
      ensures o in p.objects ==> !Below(highs, o)
    {
      AdvanceByInterval(highs, p.partitions, ItemOf(o).value);
    }
  }

  /** The history grows by exactly the rows of the batch whose bounds advance it. */
  lemma PastAdvances(h: History, stage: map<string, Row>, highs: map<Identity, int>, p: Payload)
    requires Continues(highs, p.partitions) && TakesInterval(h, p)
    ensures Past(stage, h.bronze, HighsOf(p.partitions)) == Past(stage, h.bronze, highs) + Staged(stage, p.objects)
    ensures forall o | o in p.objects :: o in h.bronze && !Below(highs, o)
  {
    IntervalSplits(h, highs, p);
    hide Continues, HighsOf, TakesInterval, Below;
    var all, past, own := Past(stage, h.bronze, HighsOf(p.partitions)), Past(stage, h.bronze, highs),
        Staged(stage, p.objects);
    forall r ensures r in all <==> r in past + own {
      if r in all {
        var o :| o in h.bronze && o.objectKey in stage && Below(HighsOf(p.partitions), o) && stage[o.objectKey] == r;
        assert Below(highs, o) || o in p.objects;
      }
      if r in past {
        var o :| o in h.bronze && o.objectKey in stage && Below(highs, o) && stage[o.objectKey] == r;
        assert Below(HighsOf(p.partitions), o);
      }
      if r in own {
        var o :| o in p.objects && o.objectKey in stage && stage[o.objectKey] == r;
        assert Below(HighsOf(p.partitions), o);
      }
    }
  }

  /** The rows of a batch lie behind the history of every entity, and together they keep the contract. */
  lemma BatchFollowsHistory(s: Source, t: string, highs: map<Identity, int>, p: Payload)
    requires SourceOk(s) && t in s.staging && Continues(highs, p.partitions) && TakesInterval(s.history, p)
    ensures var past, own := Past(s.staging[t], s.history.bronze, highs), Staged(s.staging[t], p.objects);
            Contract(past + own) && Follows(past, own)
  {
    var stage, bronze := s.staging[t], s.history.bronze;
    var past, own := Past(stage, bronze, highs), Staged(stage, p.objects);
    PastAdvances(s.history, stage, highs, p);
    hide Continues, TakesInterval, Contract, Below;
    assert past + own <= Staged(stage, bronze);
    SubsetContract(Staged(stage, bronze), past + own);
    forall a, b | a in past && b in own && a.entity == b.entity ensures Before(a, b) {
      var o :| o in bronze && o.objectKey in stage && Below(highs, o) && stage[o.objectKey] == a;
      var q :| q in p.objects && q.objectKey in stage && stage[q.objectKey] == b;
      EarlierIsBefore(past + own, highs, o, q, a, b);
    }
  }

  lemma EarlierIsBefore(rows: set<Row>, highs: map<Identity, int>, o: BronzeObject, q: BronzeObject, a: Row, b: Row)
    requires Contract(rows) && a in rows && b in rows && a.entity == b.entity
    requires RowAt(a, o) && RowAt(b, q) && Below(highs, o) && !Below(highs, q)
    ensures Before(a, b)
  {
    hide ParseBronzeCoordinate, Before;
  }

  // ---------------------------------------------------------------- publication

  lemma PublishingStep(s: Source, p: Pipe, op: Op)
    requires PipeInv(s, p) && Allowed(s, p, ControlStep(op)) && op.OpPublish?
    requires Apply(p.control, op).db.published != p.control.db.published
    ensures PipeInv(s, Next(s, p, ControlStep(op)))
  {
    hide Inv, SealedIn, Frontier, EvidenceMeansLoaded, TablesOk, Admissible, Publish;
    var q := Next(s, p, ControlStep(op));
    StepKeepsInv(p.control, op);
    StepKeepsSealed(s.history, p.control, op);
    EvidenceStaysBacked(s, p, op);
    PublishEffect(p.control.db, op.batchId, op.run, op.sha);
    hide EvidenceComplete, AuditPasses, Appended, IntervalsOf;
    ActiveIsLatest(p.control, op.run);
    InvHasIds(p.control);
    PublishedBase(p.control.db, q.control.db, op.batchId, op.run);
    PublishedTables(s, p, q, op.batchId, op.run);
  }

  lemma PublishedBase(db: Db, after: Db, id: string, run: string)
    requires IdsOk(db) && Frontier(db) && Published(db, after, id, run) && after.published != db.published
    requires db.created != [] && LatestId(db) == id
    ensures Base(after) == Base(db) && Frontier(after) && db.batches[id].state != PUBLISHED
  {
    hide Continues, HighsOf, EvidenceComplete, AuditPasses, Appended, IntervalsOf, LogPath;
    forall x | x in db.published ensures x in db.batches && x != id {
    }
    var n := |db.published|;
    assert after.published[..n] == db.published;
    if n > 0 { assert db.published[n - 1] in db.published; }
    PreviousIsLast(db);
    assert HighsAt(after, n) == HighsAt(db, n);
  }

  /** The publishing attempt recorded its load, so every table is complete. */
  lemma PublishedTables(s: Source, p: Pipe, q: Pipe, id: string, run: string)
    requires EvidenceMeansLoaded(s, p) && TablesOk(s, p) && q == p.(control := q.control)
    requires Published(p.control.db, q.control.db, id, run) && Base(q.control.db) == Base(p.control.db)
    requires p.control.db.created != [] && LatestId(p.control.db) == id
    ensures TablesOk(s, q)
  {
    hide Base, Past, UnderLoad, Complete, AuditPasses, Appended, IntervalsOf;
    var db := p.control.db;
    assert LoadSatellites in TasksOf(db, id, db.attempts[run].number);
    assert (id, db.attempts[run].number, LoadSatellites) in db.evidence;
    hide EvidenceComplete;
    forall t | t in s.staging ensures TableOk(s, q.control.db, t, q.tables[t]) {
      assert TableOk(s, db, t, p.tables[t]);
      assert LoadedOf(s, p, run, t);
    }
    forall r, t | t in s.staging ensures LoadedOf(s, q, r, t) {
      assert LoadedOf(s, p, run, t);
    }
  }

  // ---------------------------------------------------------------- creation

  /** Whatever the last batch sealed above the highs, a later batch over the same highs seals again. */
  lemma LaterSealReselects(s: Source, db: Db, id: string, c: CreateInput)
    requires SealedIn(s.history, db) && id in db.batches
             && Continues(PreviousHighs(db), db.batches[id].sha.payload.partitions)
    requires Sees(s.history, c) && ListingGrows(db, Listing(c)) && SealedPayload(db, c).Ok?
    ensures forall o | o in db.batches[id].sha.payload.objects :: o in SealedPayload(db, c).value.objects
  {
    hide ParseBronzeCoordinate, PreviousHighs, SealedPayload, Sees, Continues, Controlled;
    var earlier, later := db.batches[id].sha.payload, SealedPayload(db, c).value;
    SealedSeals(db, c);
    IntervalSplits(s.history, PreviousHighs(db), earlier);
    forall o | o in earlier.objects ensures o in later.objects {
      ObjectIsItem(Listing(c), o);
      ObjectIsItem(later.objects, o);
      assert Low(PreviousHighs(db), Id(ItemOf(o).value)) < ItemOf(o).value.offset;
    }
  }

  lemma RowsReselected(stage: map<string, Row>, earlier: seq<BronzeObject>, later: seq<BronzeObject>)
    requires forall o | o in earlier :: o in later
    ensures Staged(stage, earlier) <= Staged(stage, later)
  {
  }

  /** A table nobody loads any more is ready for the next batch. */
  lemma HandOver(table: set<Stored>, history: set<Row>, batch: string, rows: set<Row>, next: string, nextRows: set<Row>)
    requires UnderLoad(table, history, batch, rows) && rows <= nextRows
    requires forall v | v in table :: v.batch != next
    requires Contract(history + nextRows) && Follows(history, nextRows)
    ensures UnderLoad(table, history, next, nextRows)
  {
    hide Contract, Follows, KeepStateChanges;
    KeptAreRows(rows);
    assert Others(table, batch) <= Others(table, next);
    forall v | v in table ensures v.row in KeepStateChanges(history) + nextRows {
      if v.batch != batch { assert v.row in Others(table, batch); }
    }
  }

  /** The table of a published batch is the history of the next one. */
  lemma HandOverComplete(table: set<Stored>, history: set<Row>, batch: string, rows: set<Row>, next: string,
                         nextRows: set<Row>)
    requires Complete(table, history, batch, rows)
    requires forall v | v in table :: v.batch != next
    requires Contract(history + rows + nextRows) && Follows(history + rows, nextRows)
    ensures UnderLoad(table, history + rows, next, nextRows)
  {
    hide Contract, Follows, KeepStateChanges;
    assert Others(table, next) == Project(table);
  }

  lemma FirstBatch(batch: string, rows: set<Row>)
    requires Contract(rows)
    ensures UnderLoad({}, {}, batch, rows)
  {
    assert {} + rows == rows;
  }

  lemma NothingBelowNothing(stage: map<string, Row>, bronze: seq<BronzeObject>)
    ensures Past(stage, bronze, map[]) == {}
  {
    hide ParseBronzeCoordinate;
  }

  ghost predicate Inserted(db: Db, after: Db, c: CreateInput) {
    && SealedPayload(db, c).Ok? && c.batchId !in db.batches && !HasUnfinishedBatch(db)
    && after == InsertBatch(db, c, SealedPayload(db, c).value)
  }

  lemma CreateEffect(w: World, c: CreateInput, crash: bool)
    ensures var after := CreateOrGet(w, c, crash).1.db; after == w.db || Inserted(w.db, after, c)
  {
    hide ReadsManifest, HasRunningAttempt, HasUnfinishedBatch, SealedPayload, InsertBatch, ManifestConflicts;
  }

  lemma InsertedBase(db: Db, after: Db, c: CreateInput)
    requires IdsOk(db) && Inserted(db, after, c) && Continues(PreviousHighs(db), SealedPayload(db, c).value.partitions)
    ensures Base(after) == PreviousHighs(db) && Frontier(after) && LatestId(after) == c.batchId
    ensures SealedPayload(db, c).value == after.batches[c.batchId].sha.payload
  {
    hide SealedPayload, Continues, HighsOf, LogPath, HasUnfinishedBatch;
    if db.published != [] { assert db.published[|db.published| - 1] in db.published; }
  }

  /** Before a creation every batch is finished, so the last one is published or superseded. */
  lemma LatestFinished(db: Db, c: CreateInput, after: Db)
    requires Inserted(db, after, c) && Frontier(db) && db.created != []
    ensures LatestId(db) in db.batches && db.batches[LatestId(db)].state in {PUBLISHED, SUPERSEDED}
    ensures db.batches[LatestId(db)].state != PUBLISHED ==> Base(db) == PreviousHighs(db)
  {
    hide SealedPayload, Continues, HighsOf, HighsAt, PreviousHighs;
    assert !IsUnfinished(db.batches[LatestId(db)]);
  }

  lemma NextTable(s: Source, db: Db, after: Db, c: CreateInput, t: string, table: set<Stored>)
    requires SourceOk(s) && t in s.staging && TableOk(s, db, t, table) && Frontier(db) && SealedIn(s.history, db)
             && IdsOk(db)
    requires Inserted(db, after, c) && Sees(s.history, c) && ListingGrows(db, Listing(c))
    requires Continues(PreviousHighs(db), SealedPayload(db, c).value.partitions)
    requires TakesInterval(s.history, SealedPayload(db, c).value)
    requires forall id | id in db.batches :: db.batches[id].partitions == db.batches[id].sha.payload.partitions
    ensures TableOk(s, after, t, table)
  {
    hide SealedPayload, Continues, TakesInterval, Controlled, Sees, ListingGrows, Contract, Follows, KeepStateChanges;
    hide ChangedRows, UnderLoad, Complete;
    hide HasUnfinishedBatch, HighsAt, PreviousHighs, LogPath, Frontier, Base, Past, Staged, IdsOk, SealedIn, HighsOf;
    var highs, p := PreviousHighs(db), SealedPayload(db, c).value;
    var stage, bronze := s.staging[t], s.history.bronze;
    InsertedBase(db, after, c);
    BatchFollowsHistory(s, t, highs, p);
    if db.created == [] {
      NothingPublished(db);
      NothingBelowNothing(stage, bronze);
      assert Past(stage, bronze, highs) + Staged(stage, p.objects) == Staged(stage, p.objects);
      FirstBatch(c.batchId, Staged(stage, p.objects));
    } else {
      LatestFinished(db, c, after);
      var id := LatestId(db);
      var earlier := db.batches[id].sha.payload;
      SealedOne(s.history, db, id);
      FrontierContinues(db);
      if db.batches[id].state == PUBLISHED {
        PublishedHighsAdvance(db);
        PastAdvances(s.history, stage, Base(db), earlier);
        HandOverComplete(table, HistoryOf(s, db, t), id, RowsOf(s, db.batches[id], t), c.batchId,
            Staged(stage, p.objects));
      } else {
        LaterSealReselects(s, db, id, c);
        RowsReselected(stage, earlier.objects, p.objects);
        HandOver(table, HistoryOf(s, db, t), id, RowsOf(s, db.batches[id], t), c.batchId, Staged(stage, p.objects));
      }
    }
  }

  lemma NothingPublished(db: Db)
    requires IdsOk(db) && db.created == []
    ensures PreviousHighs(db) == map[]
  {
    hide LogPath;
    if db.published != [] { HasElement(db.published); }
  }

  lemma SealedOne(h: History, db: Db, id: string)
    requires SealedIn(h, db) && id in db.batches
    ensures TakesInterval(h, db.batches[id].sha.payload)
  {
    hide TakesInterval, Controlled;
  }

  lemma FrontierContinues(db: Db)
    requires Frontier(db) && db.created != []
    ensures LatestId(db) in db.batches && Continues(Base(db), db.batches[LatestId(db)].partitions)
  {
    hide Continues, Base;
  }

  lemma PublishedHighsAdvance(db: Db)
    requires Frontier(db) && db.created != [] && LatestId(db) in db.batches
             && db.batches[LatestId(db)].state == PUBLISHED
    ensures PreviousHighs(db) == HighsOf(db.batches[LatestId(db)].partitions)
  {
    hide Continues, HighsOf;
  }

  lemma CreationStep(s: Source, p: Pipe, op: Op)
    requires SourceOk(s) && PipeInv(s, p) && Allowed(s, p, ControlStep(op)) && op.OpCreate?
    ensures PipeInv(s, Next(s, p, ControlStep(op)))
  {
    hide Inv, SealedIn, Frontier, EvidenceMeansLoaded, TablesOk, Admissible, Sees, ListingGrows, SourceOk, CreateOrGet;
    hide Inserted;
    var q := Next(s, p, ControlStep(op));
    StepKeepsInv(p.control, op);
    StepKeepsSealed(s.history, p.control, op);
    CreateEffect(p.control, op.c, op.crash);
    if q.control.db == p.control.db {
      SameTables(s, p, q);
    } else {
      InsertedPipe(s, p, q, op);
    }
  }

  lemma SameTables(s: Source, p: Pipe, q: Pipe)
    requires PipeInv(s, p) && Inv(q.control) && q == p.(control := q.control) && q.control.db == p.control.db
    ensures PipeInv(s, q)
  {
    hide Inv, SealedIn, Frontier, TableOk, Complete;
    assert forall run, t | t in s.staging :: LoadedOf(s, p, run, t) ==> LoadedOf(s, q, run, t);
  }

  lemma InsertedPipe(s: Source, p: Pipe, q: Pipe, op: Op)
    requires SourceOk(s) && PipeInv(s, p) && Allowed(s, p, ControlStep(op)) && op.OpCreate?
    requires Inv(q.control) && SealedIn(s.history, q.control.db) && q == p.(control := q.control)
    requires Inserted(p.control.db, q.control.db, op.c)
    ensures PipeInv(s, q)
  {
    hide Inv, SealedIn, Frontier, TableOk, Complete, Sees, ListingGrows, SourceOk, SealedPayload, Inserted, Continues;
    hide TakesInterval;
    hide ListingCovers, SizesOk, LedgerOk;
    var db, after, c := p.control.db, q.control.db, op.c;
    InvHasIds(p.control);
    assert Continues(PreviousHighs(db), SealedPayload(db, c).value.partitions)
        && TakesInterval(s.history, SealedPayload(db, c).value) by {
      InsertedSealed(db, after, c);
      SealedFacts(db, c);
      SealTakesInterval(s.history, db, c);
    }
    PayloadsOfBatches(p.control);
    InsertedBase(db, after, c);
    forall t | t in s.staging ensures TableOk(s, after, t, p.tables[t]) {
      NextTable(s, db, after, c, t, p.tables[t]);
    }
    NewBatchIsUnloaded(s, p, q, c);
  }

  lemma InsertedSealed(db: Db, after: Db, c: CreateInput)
    requires Inserted(db, after, c)
    ensures SealedPayload(db, c).Ok?
  {
  }

  lemma NewBatchIsUnloaded(s: Source, p: Pipe, q: Pipe, c: CreateInput)
    requires EvidenceMeansLoaded(s, p) && TablesOk(s, p) && Inv(p.control) && q == p.(control := q.control)
    requires Inserted(p.control.db, q.control.db, c) && LatestId(q.control.db) == c.batchId
    ensures EvidenceMeansLoaded(s, q) && forall run, t | t in s.staging :: LoadedOf(s, q, run, t)
  {
    hide IdsOk, UnfinishedIsLast, LogsOk, RunningOk, EvidenceOk, AuditsOk, FilesOk, SuccessOk, StoreOk, ChainOk;
    hide BoundariesOk;
    hide SealedPayload, HasUnfinishedBatch, Complete, TableOk, Base;
  }

  // ---------------------------------------------------------------- every reachable state

  lemma StartInv(s: Source)
    ensures PipeInv(s, Initial(s))
  {
    EmptyWorldInv();
  }

  lemma NextKeepsInv(s: Source, p: Pipe, step: Step)
    requires SourceOk(s) && PipeInv(s, p) && Allowed(s, p, step)
    ensures PipeInv(s, Next(s, p, step))
  {
    hide PipeInv, SourceOk, Apply, Admissible;
    match step
    case LoadStep(run, table) => LoadKeepsTables(s, p, run, table);
    case ControlStep(op) =>
      if op.OpCreate? {
        CreationStep(s, p, op);
      } else if Apply(p.control, op).db.published == p.control.db.published {
        QuietControlStep(s, p, op);
      } else {
        OnlyPublishPublishes(p.control, op);
        PublishingStep(s, p, op);
      }
  }

  lemma OnlyPublishPublishes(w: World, op: Op)
    requires !op.OpCreate? && Apply(w, op).db.published != w.db.published
    ensures op.OpPublish?
  {
    hide OfAttempt, AuditAccepted, LastNumber, Publish, FailRun, ReadsManifest;
    hide BuildAuditPayload, AuditRules, BatchRows, HasRunningAttempt, Appended;
    if op.OpFail? { FailIsStateOnly(w.db, op.run); }
  }

  lemma {:induction false} ReachablePipe(s: Source, steps: seq<Step>)
    requires AllowedRun(s, steps)
    ensures PipeInv(s, Runs(s, steps))
  {
    hide PipeInv, SourceOk, Next, Allowed, LedgerOk;
    if steps == [] {
      StartInv(s);
    } else {
      var front := steps[..|steps| - 1];
      forall i | 0 <= i < |front| ensures Allowed(s, Runs(s, front[..i]), front[i]) {
        assert front[..i] == steps[..i] && front[i] == steps[i];
      }
      ReachablePipe(s, front);
      assert steps[..|steps| - 1] == front;
      NextKeepsInv(s, Runs(s, front), steps[|steps| - 1]);
    }
  }

  // ---------------------------------------------------------------- what holds in every reachable state

  /** Change detection applied once to all Bronze events at or below the published highs. */
  ghost function Rebuild(s: Source, db: Db, t: string): set<Row>
    requires t in s.staging
  {
    KeepStateChanges(Past(s.staging[t], s.history.bronze, PreviousHighs(db)))
  }

  /**
   After any run of creations, loads, crashes, retries, replays and publications: when the last
   created batch is published, every satellite, read without the batch column, is the rebuild over
   all Bronze events up to the published highs.
   */
  lemma PublishedVaultIsRebuild(s: Source, steps: seq<Step>, t: string)
    requires AllowedRun(s, steps) && t in s.staging
    requires var db := Runs(s, steps).control.db;
             db.created != [] && LatestId(db) in db.batches && db.batches[LatestId(db)].state == PUBLISHED
    ensures t in Runs(s, steps).tables && Project(Runs(s, steps).tables[t]) == Rebuild(s, Runs(s, steps).control.db, t)
  {
    hide AllowedRun, SourceOk, Contract, Follows, SealedIn, Frontier, TakesInterval;
    hide Runs, Inv, UnderLoad, KeepStateChanges, Past, Base, EvidenceMeansLoaded, Continues, HighsOf, PreviousHighs;
    ReachablePipe(s, steps);
    var p := Runs(s, steps);
    var db := p.control.db;
    InvHasPayloads(p.control);
    assert TableOk(s, db, t, p.tables[t]);
    SealedOne(s.history, db, LatestId(db));
    FrontierContinues(db);
    PublishedHighsAdvance(db);
    PastAdvances(s.history, s.staging[t], Base(db), db.batches[LatestId(db)].sha.payload);
  }

  lemma InvHasPayloads(w: World)
    requires Inv(w)
    ensures forall id | id in w.db.batches :: w.db.batches[id].partitions == w.db.batches[id].sha.payload.partitions
  {
    PayloadsOfBatches(w);
  }

  /**
   Between a creation and its publication the satellites still hold the whole rebuild of the
   published history, plus at most rows of events the unpublished batch itself selects.
   */
  lemma UnpublishedVaultKeepsTheRebuild(s: Source, steps: seq<Step>, t: string)
    requires AllowedRun(s, steps) && t in s.staging
    requires var db := Runs(s, steps).control.db;
             db.created != [] && LatestId(db) in db.batches && db.batches[LatestId(db)].state != PUBLISHED
    ensures var p := Runs(s, steps);
            && t in p.tables
            && Rebuild(s, p.control.db, t) <= Project(p.tables[t])
               <= Rebuild(s, p.control.db, t) + RowsOf(s, p.control.db.batches[LatestId(p.control.db)], t)
  {
    hide AllowedRun, SourceOk, LoadedOf;
    hide Runs, Inv, Contract, Follows, KeepStateChanges, Past, EvidenceMeansLoaded, Continues, HighsOf, PreviousHighs;
    hide SealedIn;
    ReachablePipe(s, steps);
    var p := Runs(s, steps);
    var db := p.control.db;
    assert TableOk(s, db, t, p.tables[t]);
    var rows := RowsOf(s, db.batches[LatestId(db)], t);
    KeptAreRows(rows);
    forall v | v in p.tables[t] ensures v.row in Rebuild(s, db, t) + rows {
      if v.batch != LatestId(db) { assert v.row in Others(p.tables[t], LatestId(db)); }
    }
  }

  /** A load raises exactly when superseded batches left rows of the events it re-selects. */
  lemma LoadRaisesExactlyOnSupersededRows(s: Source, steps: seq<Step>, run: string, t: string)
    requires AllowedRun(s, steps) && MayLoad(s, Runs(s, steps), run, t)
    ensures var p := Runs(s, steps);
            var id := p.control.db.attempts[run].batchId;
            && (LoadOne(s, p, run, t).Err? <==>
                  LeftBySuperseded(p.tables[t], id, RowsOf(s, p.control.db.batches[id], t)))
            && (LoadOne(s, p, run, t).Ok? ==>
                  Project(LoadOne(s, p, run, t).value) ==
                      KeepStateChanges(HistoryOf(s, p.control.db, t) + RowsOf(s, p.control.db.batches[id], t)))
  {
    ReachablePipe(s, steps);
    var p := Runs(s, steps);
    hide Runs, Inv, UnderLoad, KeepStateChanges, Past, Base, EvidenceMeansLoaded, SealedIn, Frontier, LoadBounded;
    hide LeftBySuperseded;
    ActiveIsLatest(p.control, run);
    var db := p.control.db;
    assert TableOk(s, db, t, p.tables[t]);
    LoadRebuildsOrRaises(p.tables[t], HistoryOf(s, db, t), LatestId(db), RowsOf(s, db.batches[LatestId(db)], t));
  }

  /** While some table still holds such rows, no step can publish the batch. */
  lemma SupersededRowsBlockPublication(s: Source, steps: seq<Step>, op: Op, t: string)
    requires AllowedRun(s, steps) && t in s.staging && Allowed(s, Runs(s, steps), ControlStep(op)) && op.OpPublish?
    requires var p := Runs(s, steps);
             && p.control.db.created != [] && LatestId(p.control.db) in p.control.db.batches && t in p.tables
             && LeftBySuperseded(p.tables[t], LatestId(p.control.db),
                  RowsOf(s, p.control.db.batches[LatestId(p.control.db)], t))
    ensures Apply(Runs(s, steps).control, op).db.published == Runs(s, steps).control.db.published
  {
    ReachablePipe(s, steps);
    var p := Runs(s, steps);
    var q := Next(s, p, ControlStep(op));
    NextKeepsInv(s, p, ControlStep(op));
    hide Runs, SourceOk, Allowed, AllowedRun;
    if q.control.db.published != p.control.db.published {
      PublishingIsComplete(s, p, op, t);
    }
  }

  lemma PublishingIsComplete(s: Source, p: Pipe, op: Op, t: string)
    requires PipeInv(s, p) && op.OpPublish? && t in s.staging && p.control.db.created != []
             && LatestId(p.control.db) in p.control.db.batches
    requires Apply(p.control, op).db.published != p.control.db.published
    ensures t in p.tables && !LeftBySuperseded(p.tables[t], LatestId(p.control.db),
              RowsOf(s, p.control.db.batches[LatestId(p.control.db)], t))
  {
    hide Inv, SealedIn, Frontier, TableOk, Publish, UnderLoad, Base, Past;
    var db := p.control.db;
    PublishEffect(db, op.batchId, op.run, op.sha);
    ActiveIsLatest(p.control, op.run);
    hide AuditPasses, Appended, IntervalsOf;
    assert LoadSatellites in TasksOf(db, op.batchId, db.attempts[op.run].number);
    assert LoadedOf(s, p, op.run, t);
    BatchIsAboveHistory(s, p, t);
    CompleteLeavesNothing(p.tables[t], HistoryOf(s, db, t), LatestId(db), RowsOf(s, db.batches[LatestId(db)], t));
  }

  lemma BatchIsAboveHistory(s: Source, p: Pipe, t: string)
    requires PipeInv(s, p) && t in s.staging && p.control.db.created != []
             && LatestId(p.control.db) in p.control.db.batches
    ensures t in p.tables
    ensures var db := p.control.db;
            UnderLoad(p.tables[t], HistoryOf(s, db, t), LatestId(db), RowsOf(s, db.batches[LatestId(db)], t))
  {
    hide Inv, SealedIn, Frontier, EvidenceMeansLoaded, UnderLoad, Base, Past, LoadedOf;
    assert TableOk(s, p.control.db, t, p.tables[t]);
  }

  lemma CompleteLeavesNothing(table: set<Stored>, history: set<Row>, batch: string, rows: set<Row>)
    requires UnderLoad(table, history, batch, rows) && Complete(table, history, batch, rows)
    ensures !LeftBySuperseded(table, batch, rows)
  {
    KeptAreRows(history);
    hide KeepStateChanges, ChangedRows;
    forall d | d in Others(table, batch) ensures d !in rows {
      assert !Before(d, d);
    }
  }

  lemma CompleteIsStable(table: set<Stored>, history: set<Row>, batch: string, rows: set<Row>)
    requires UnderLoad(table, history, batch, rows) && Complete(table, history, batch, rows)
    ensures LoadBounded(table, batch, rows) == Ok(table)
  {
    CompleteLeavesNothing(table, history, batch, rows);
    LoadRebuildsOrRaises(table, history, batch, rows);
    IncrementalCompressionIsRebuild(history, rows);
    hide KeepStateChanges, Contract, Follows;
    var changed := ChangedRows(KeepStateChanges(history), KeepStateChanges(rows));
    assert LoadBounded(table, batch, rows).value == MergeInsertOnly(table, batch, changed);
    hide ChangedRows;
    forall r | r in changed ensures exists v | v in table :: v.row.eventId == r.eventId {
      assert r in Project(table);
      var v :| v in table && v.row == r;
      assert v.row.eventId == r.eventId;
    }
    assert MergeInsertOnly(table, batch, changed) == table;
  }

  /** Repeating a load that succeeded, or replaying the published batch, inserts nothing anywhere. */
  lemma RepeatedLoadInsertsNothing(s: Source, steps: seq<Step>, run: string, t: string)
    requires AllowedRun(s, steps) && MayLoad(s, Runs(s, steps), run, t)
    requires var p := Runs(s, steps);
             || p.control.db.batches[p.control.db.attempts[run].batchId].state == PUBLISHED
             || exists other :: other in p.loaded && t in p.loaded[other] && other in p.control.db.attempts
                  && p.control.db.attempts[other].batchId == p.control.db.attempts[run].batchId
    ensures Next(s, Runs(s, steps), LoadStep(run, t)).tables == Runs(s, steps).tables
  {
    ReachablePipe(s, steps);
    var p := Runs(s, steps);
    hide Runs, AllowedRun, Inv, UnderLoad, Complete, Past, Base, SealedIn, Frontier, LoadBounded, SourceOk;
    ActiveIsLatest(p.control, run);
    var db := p.control.db;
    var id := LatestId(db);
    assert TableOk(s, db, t, p.tables[t]);
    if db.batches[id].state != PUBLISHED {
      var other :| other in p.loaded && t in p.loaded[other] && other in db.attempts
          && db.attempts[other].batchId == id;
      assert LoadedOf(s, p, other, t);
    }
    CompleteHere(s, p, run, t);
  }

  lemma CompleteHere(s: Source, p: Pipe, run: string, t: string)
    requires MayLoad(s, p, run, t) && p.control.db.created != []
             && p.control.db.attempts[run].batchId == LatestId(p.control.db)
    requires var db := p.control.db; var rows := RowsOf(s, db.batches[LatestId(db)], t);
             UnderLoad(p.tables[t], HistoryOf(s, db, t), LatestId(db), rows)
                 && Complete(p.tables[t], HistoryOf(s, db, t), LatestId(db), rows)
    ensures Next(s, p, LoadStep(run, t)).tables == p.tables
  {
    hide UnderLoad, Complete, Past, Base, LoadBounded;
    var db := p.control.db;
    CompleteIsStable(p.tables[t], HistoryOf(s, db, t), LatestId(db), RowsOf(s, db.batches[LatestId(db)], t));
    assert p.tables[t := p.tables[t]] == p.tables;
  }
}
