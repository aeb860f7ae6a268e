/**
 The steps that end, reopen and free a batch, told in the rows they leave: a failed run can be retried
 and the retry publishes, a superseded batch makes room for the next one, a published one can be replayed.
 */
module Lifecycle {
  import opened Wrappers
  import opened Manifest
  import opened Audit
  import opened Control
  import opened ControlInvariant
  import opened ControlGuarantees
  import opened Progress

  /** No attempt is running. */
  predicate AllEnded(db: Db) {
    forall run | run in db.attempts :: db.attempts[run].state == SUCCESS || db.attempts[run].state == ABORTED
  }

  /** Every batch is published or given up. */
  predicate AllFinished(db: Db) {
    forall id | id in db.batches :: db.batches[id].state == PUBLISHED || db.batches[id].state == SUPERSEDED
  }

  // ---------------------------------------------------------------- fail_airflow_run

  /**
   Failing a run ends its attempt and fails its batch if that is still running; a published batch keeps
   its row. No other row changes, and a run that is unknown or has ended changes nothing.
   */
  lemma FailingARun(w: World, run: string)
    requires Inv(w)
    ensures var db, t := w.db, Apply(w, OpFail(run));
            if run in db.attempts && db.attempts[run].state == ACTIVE then
              var a := db.attempts[run];
              && a.batchId in db.batches && a.batchId in db.log
              && t.db.attempts == db.attempts[run := Attempt(a.batchId, a.number, a.sha, ABORTED)] && AllEnded(t.db)
              && (if db.batches[a.batchId].state == RUNNING then
                    && t.db.batches == db.batches[a.batchId := db.batches[a.batchId].(state := FAILED)]
                    && t.db.log == db.log[a.batchId := db.log[a.batchId] + [StateEvent(Some(RUNNING), FAILED)]]
                  else
                    db.batches[a.batchId].state == PUBLISHED && t.db.batches == db.batches && t.db.log == db.log)
              && t == World(db.(attempts := t.db.attempts, batches := t.db.batches, log := t.db.log), w.store)
            else t == w
  {
    hide UnfinishedIsLast, LogsOk, EvidenceOk, AuditsOk, FilesOk, SuccessOk, StoreOk, ChainOk, BoundariesOk;
    hide AllIntervals;
  }

  /** A run whose batch has not been published yet. */
  ghost predicate RunsBatch(db: Db, id: string, run: string) {
    && run in db.attempts && db.attempts[run].batchId == id && db.attempts[run].state == ACTIVE
    && id in db.batches && db.batches[id].state == RUNNING
  }

  /** A waiting batch is opened by a new run under the next number, and runs. */
  ghost predicate OpenedNext(before: Db, after: Db, id: string, run: string) {
    && RunsBatch(after, id, run) && NextNumber(before.attempts, id, after.attempts[run].number)
    && after.attempts[run].sha == after.batches[id].sha
  }

  lemma WaitingBatchOpens(w: World, id: string, run: string)
    requires Inv(w) && Waiting(w, id, run)
    ensures OpenedNext(w.db, Apply(w, OpStart(id, run)).db, id, run)
  {
    hide Inv, Apply, Progress.Proven, NextNumber, LastNumber, IsLastNumber;
    StartsUnderway(w, id, run);
    LastNumberIsNext(w.db.attempts, id);
  }

  /** The batch of a failed run can be retried: the next run opens an attempt under the next number. */
  lemma FailedRunReopens(w: World, id: string, run: string, next: string)
    requires Inv(w) && RunsBatch(w.db, id, run) && next !in w.db.attempts
    ensures OpenedNext(w.db, Apply(Apply(w, OpFail(run)), OpStart(id, next)).db, id, next)
  {
    FailingARun(w, run);
    FailKeepsInv(w, run);
    hide Inv, Apply;
    var t := Apply(w, OpFail(run));
    RetryNumber(w, t, id, run);
    WaitingBatchOpens(t, id, next);
    hide NextNumber;
    SameNext(w.db, t.db, Apply(t, OpStart(id, next)).db, id, next);
  }

  lemma SameNext(before: Db, failed: Db, after: Db, id: string, run: string)
    requires OpenedNext(failed, after, id, run) && NextNumber(before.attempts, id, LastNumber(failed.attempts, id) + 1)
    ensures OpenedNext(before, after, id, run)
  {
    LastNumberIsNext(failed.attempts, id);
    NextNumberIsUnique(failed.attempts, id, after.attempts[run].number, LastNumber(failed.attempts, id) + 1);
  }

  /** And if it runs to its end it publishes the batch exactly when its counts reconcile. */
  lemma FailedRunIsRetried(w: World, id: string, run: string, next: string, counts: Counts,
                           missing: seq<(string, int)>)
    requires Inv(w) && RunsBatch(w.db, id, run) && next !in w.db.attempts && DistinctTables(missing)
    ensures var b := w.db.batches[id];
            var end := ApplyAll(Apply(w, OpFail(run)), FullAttempt(id, next, b.uri, b.sha, counts, missing)).db;
            && id in end.batches
            && (end.batches[id].state == PUBLISHED <==> Reconciles(b.sha.payload, counts, missing))
            && (end.batches[id].state == PUBLISHED ==> id in end.published)
  {
    FailingARun(w, run);
    FailKeepsInv(w, run);
    hide Inv, Apply, ApplyAll, Reconciles, FullAttempt;
    FullAttemptFrom(Apply(w, OpFail(run)), id, next, counts, missing);
  }

  /** One more than the greatest number of the batch's attempts. */
  ghost predicate NextNumber(attempts: map<string, Attempt>, id: string, n: nat) {
    && n > 0 && (forall r | r in attempts && attempts[r].batchId == id :: attempts[r].number < n)
    && (n == 1 || exists r :: r in attempts && attempts[r].batchId == id && attempts[r].number == n - 1)
  }

  lemma LastNumberIsNext(attempts: map<string, Attempt>, id: string)
    ensures NextNumber(attempts, id, LastNumber(attempts, id) + 1)
  {
    var n := LastNumber(attempts, id);
    if n > 0 {
      assert n in Numbers(attempts, id);
      var r :| r in attempts && attempts[r].batchId == id && attempts[r].number == n;
    }
  }

  lemma NextNumberIsUnique(attempts: map<string, Attempt>, id: string, n: nat, k: nat)
    requires NextNumber(attempts, id, n) && NextNumber(attempts, id, k)
    ensures n == k
  {
  }

  lemma RetryNumber(w: World, t: World, id: string, run: string)
    requires run in w.db.attempts && w.db.attempts[run].batchId == id
    requires t.db.attempts == w.db.attempts[run := w.db.attempts[run].(state := ABORTED)]
    ensures NextNumber(w.db.attempts, id, LastNumber(t.db.attempts, id) + 1)
  {
    LastNumberIsNext(t.db.attempts, id);
    var n := LastNumber(t.db.attempts, id) + 1;
    forall r | r in w.db.attempts
      ensures r in t.db.attempts && t.db.attempts[r] == w.db.attempts[r].(state := t.db.attempts[r].state)
    {
    }
    if n > 1 {
      var r :| r in t.db.attempts && t.db.attempts[r].batchId == id && t.db.attempts[r].number == n - 1;
      assert w.db.attempts[r].batchId == id && w.db.attempts[r].number == n - 1;
    }
  }

  // ---------------------------------------------------------------- supersede_batch

  /**
   Superseding gives a created or failed batch up and nothing else: then no attempt runs and every batch
   is finished. Any other batch id is refused and changes nothing.
   */
  lemma SupersedingABatch(w: World, id: string)
    requires Inv(w)
    ensures var db, t := w.db, Apply(w, OpSupersede(id));
            if id in db.batches && (db.batches[id].state == CREATED || db.batches[id].state == FAILED) then
              && id in db.log && Supersede(db, id).0.Ok? && AllEnded(t.db) && AllFinished(t.db)
              && t == World(db.(batches := db.batches[id := db.batches[id].(state := SUPERSEDED)],
                                log := db.log[id := db.log[id]
                                                 + [StateEvent(Some(db.batches[id].state), SUPERSEDED)]]), w.store)
            else t == w && Supersede(db, id).0 == Err(WrongState)
  {
    hide LogsOk, EvidenceOk, AuditsOk, FilesOk, SuccessOk, StoreOk, ChainOk, BoundariesOk, AttemptsOk;
    hide AllIntervals;
    if id in w.db.batches && (w.db.batches[id].state == CREATED || w.db.batches[id].state == FAILED) {
      NoAttemptRuns(w, id);
    }
  }

  // ---------------------------------------------------------------- create_or_get_batch

  /**
   Once everything is ended and finished a new id is admitted: it is created if and only if the listing is
   well-formed, the payload can be sealed and no other payload was stored under the id before.
   */
  lemma CreatingABatch(w: World, c: CreateInput)
    requires Inv(w) && c.batchId !in w.db.batches
    ensures var (result, t) := CreateOrGet(w, c, false);
            var sealed := SealedPayload(w.db, c);
            && (result.Ok? <==>
                  && 1 <= |c.batchId| <= 250 && AllEnded(w.db) && AllFinished(w.db) && Discover(c.page).Ok?
                       && sealed.Ok?
                  && (ManifestUri(c.batchId) in w.store.manifests ==>
                        w.store.manifests[ManifestUri(c.batchId)].payload == sealed.value
                        && w.store.manifests[ManifestUri(c.batchId)].sha == Sha256(sealed.value)))
            && (result.Err? ==> t == w)
            && (result.Ok? ==>
                  && result.value == Sha256(sealed.value)
                  && t.db.created == w.db.created + [c.batchId] && t.db.batches.Keys == w.db.batches.Keys + {c.batchId}
                  && (forall id | id in w.db.batches :: t.db.batches[id] == w.db.batches[id])
                  && t.db.batches[c.batchId].state == CREATED && t.db.batches[c.batchId].sha == Sha256(sealed.value)
                  && t.db.batches[c.batchId].airflowRunId == c.airflowRunId
                  && t.db == w.db.(batches := t.db.batches, created := t.db.created, log := t.db.log)
                  && t.db.log == w.db.log[c.batchId := [StateEvent(None, CREATED)]]
                  && t.store.auditFiles == w.store.auditFiles
                  && t.store.manifests ==
                       w.store.manifests[ManifestUri(c.batchId) := Document(Sha256(sealed.value), sealed.value)])
  {
    hide UnfinishedIsLast, LogsOk, RunningOk, EvidenceOk, AuditsOk, FilesOk, SuccessOk, StoreOk, ChainOk, BoundariesOk;
    hide AllIntervals, SealedPayload, Discover, AttemptsOk, IdsOk;
    assert HasRunningAttempt(w.db) <==> !AllEnded(w.db);
    assert HasUnfinishedBatch(w.db) <==> !AllFinished(w.db);
  }

  // ---------------------------------------------------------------- start_attempt

  /**
   A new run opens an attempt if and only if its batch waits, or is the last created and published, and no
   attempt runs. A waiting batch then runs; a published one keeps its row. Otherwise nothing changes.
   */
  lemma StartingARun(w: World, id: string, run: string)
    requires Inv(w) && run !in w.db.attempts
    ensures var db, t := w.db, Apply(w, OpStart(id, run));
            if id in db.batches && AllEnded(db)
               && (db.batches[id].state == CREATED || db.batches[id].state == FAILED
                   || (db.batches[id].state == PUBLISHED && db.created != []
                        && db.created[|db.created| - 1] == id)) then
              && id in db.log && run in t.db.attempts && NextNumber(db.attempts, id, t.db.attempts[run].number)
              && t.db.attempts == db.attempts[run := Attempt(id, t.db.attempts[run].number, db.batches[id].sha, ACTIVE)]
              && (if db.batches[id].state == PUBLISHED then t.db.batches == db.batches && t.db.log == db.log
                  else
                    && t.db.batches == db.batches[id := db.batches[id].(state := RUNNING)]
                    && t.db.log == db.log[id := db.log[id] + [StateEvent(Some(db.batches[id].state), RUNNING)]])
              && t == World(db.(attempts := t.db.attempts, batches := t.db.batches, log := t.db.log), w.store)
            else t == w
  {
    hide UnfinishedIsLast, LogsOk, RunningOk, EvidenceOk, AuditsOk, FilesOk, SuccessOk, StoreOk, ChainOk, BoundariesOk;
    hide AllIntervals, AttemptsOk, NextNumber;
    assert HasRunningAttempt(w.db) <==> !AllEnded(w.db);
    LastNumberIsNext(w.db.attempts, id);
  }

  /** Asking again for a run that exists changes nothing and answers its own number and state. */
  lemma StartingAgain(w: World, id: string, run: string)
    requires run in w.db.attempts
    ensures Apply(w, OpStart(id, run)) == w
    ensures Start(w.db, id, run).0 ==
              if w.db.attempts[run].batchId == id then Ok((w.db.attempts[run].number, w.db.attempts[run].state))
              else Err(ForeignRun)
  {
  }

  // ---------------------------------------------------------------- record_task_success

  /** The run may still report: its attempt on the batch is active, under this manifest. */
  predicate MayReport(db: Db, id: string, run: string, sha: Digest) {
    && run in db.attempts && db.attempts[run].batchId == id && db.attempts[run].state == ACTIVE
    && db.attempts[run].sha == sha
    && id in db.batches && (db.batches[id].state == RUNNING || db.batches[id].state == PUBLISHED)
  }

  /** The document at the address is valid, and is the one named. */
  predicate IsStored(store: Store, uri: Uri, id: string, sha: Digest) {
    && uri in store.manifests && store.manifests[uri].sha == sha && Sha256(store.manifests[uri].payload) == sha
    && store.manifests[uri].payload.batchId == id && ManifestValidation.Accepted(store.manifests[uri].payload)
  }

  /**
   The three load tasks are recorded if and only if the manifest is the stored one and the run may report;
   then one evidence row with the manifest's totals is written, and nothing else. No other task is known.
   */
  lemma RecordingALoad(w: World, id: string, run: string, task: Task, uri: Uri, sha: Digest)
    requires task != ReconcileAll
    ensures var db, t := w.db, Apply(w, OpRecord(id, run, task, uri, sha));
            if (task == ValidateBronze || task == LoadCore || task == LoadSatellites)
               && IsStored(w.store, uri, id, sha) && MayReport(db, id, run, sha) then
              && Record(w, id, run, task, uri, sha).0.Ok?
              && var p := w.store.manifests[uri].payload;
                 t == w.(db := db.(evidence := db.evidence[(id, db.attempts[run].number, task) :=
                                                 Evidence(sha, p.readerMode, p.objectCount, p.inputBytes)]))
            else t == w && Record(w, id, run, task, uri, sha).0.Err?
  {
    hide ManifestValidation.Accepted;
  }

  /**
   The reconciliation is recorded if and only if, besides, the attempt's evidence file is stored, is of this
   run and manifest, is consistent, has no failed rule and is not contradicted by an audit row of the attempt.
   A consistent file with failed rules leaves its audit row but no evidence.
   */
  lemma RecordingTheReconciliation(w: World, id: string, run: string, uri: Uri, sha: Digest)
    requires Inv(w)
    ensures var db, t := w.db, Apply(w, OpRecord(id, run, ReconcileAll, uri, sha));
            if IsStored(w.store, uri, id, sha) && MayReport(db, id, run, sha)
               && (id, db.attempts[run].number) in w.store.auditFiles
               && OfAttempt(w.store.auditFiles[(id, db.attempts[run].number)], id, db.attempts[run].number, run, sha)
               && AuditAccepted(w.store.auditFiles[(id, db.attempts[run].number)]) then
              var key, p := (id, db.attempts[run].number), w.store.manifests[uri].payload;
              var file := w.store.auditFiles[key];
              var failed := FailedRules(file.rules);
              && key in t.db.audits && t.db.audits[key].evidence == file && t.db.audits[key].failedRules == failed
              && (t.db.audits[key].state == PASS <==> failed == 0) && t.db.audits[key].ruleCount == |file.rules|
              && t.db.audits == db.audits[key := t.db.audits[key]]
              && t.db.evidence == (if failed > 0 then db.evidence else
                   db.evidence[(id, key.1, ReconcileAll) := Evidence(sha, p.readerMode, p.objectCount, p.inputBytes)])
              && t == w.(db := db.(audits := t.db.audits, evidence := t.db.evidence))
            else t == w
  {
    hide ManifestValidation.Accepted, AuditAccepted, OfAttempt, FailedRules, IdsOk, UnfinishedIsLast, LogsOk;
    hide AttemptsOk, RunningOk, EvidenceOk, FilesOk, SuccessOk, StoreOk, ChainOk, BoundariesOk, AllIntervals;
    var key := (id, if run in w.db.attempts then w.db.attempts[run].number else 0);
    if key in w.db.audits { assert w.db.audits[key] == AuditRowOf(w.store.auditFiles[key]); }
  }

  // ---------------------------------------------------------------- publish_batch

  /** Exactly the four tasks of the attempt are proven against the manifest, and its audit passes. */
  ghost predicate IsProven(db: Db, id: string, number: nat, sha: Digest) {
    && (forall task :: (id, number, task) in db.evidence <==>
          task == ValidateBronze || task == LoadCore || task == LoadSatellites || task == ReconcileAll)
    && (forall k | k in db.evidence && k.0 == id && k.1 == number :: db.evidence[k].sha == sha)
    && (id, number) in db.audits && db.audits[(id, number)].state == PASS
    && db.audits[(id, number)].failedRules == 0
  }

  lemma ProvenIsComplete(db: Db, id: string, number: nat, sha: Digest)
    ensures IsProven(db, id, number, sha) <==>
              EvidenceComplete(db, id, number, sha) && AuditPasses(db, id, number)
  {
    forall task ensures (id, number, task) in db.evidence <==> task in TasksOf(db, id, number) {
    }
    assert forall task :: task in EXPECTED_TASKS <==>
        task == ValidateBronze || task == LoadCore || task == LoadSatellites || task == ReconcileAll;
    hide TasksOf;
  }

  /**
   A run publishes its batch if and only if it may report and is proven: the attempt succeeds, the batch is
   published last, with its intervals and both transitions; a batch published before keeps its row.
   */
  lemma PublishingARun(w: World, id: string, run: string, sha: Digest)
    requires Inv(w)
    ensures var db, t := w.db, Apply(w, OpPublish(id, run, sha));
            if MayReport(db, id, run, sha) && IsProven(db, id, db.attempts[run].number, sha) then
              && id in db.log && t.store == w.store
              && t.db.attempts == db.attempts[run := Attempt(id, db.attempts[run].number, sha, SUCCESS)]
              && t.db.created == db.created && t.db.evidence == db.evidence && t.db.audits == db.audits
              && (if db.batches[id].state == PUBLISHED then
                    t.db.batches == db.batches && t.db.published == db.published && t.db.intervals == db.intervals
                    && t.db.log == db.log
                  else
                    && t.db.batches == db.batches[id := db.batches[id].(state := PUBLISHED)]
                    && t.db.published == db.published + [id]
                    && t.db.intervals == db.intervals + IntervalsOf(id, db.batches[id].partitions)
                    && t.db.log == db.log[id := db.log[id] + [StateEvent(Some(RUNNING), VALIDATED),
                                                              StateEvent(Some(VALIDATED), PUBLISHED)]])
            else t == w
  {
    hide Inv, IsProven, EvidenceComplete, AuditPasses, ExclusionHolds, IntervalsOf;
    if MayReport(w.db, id, run, sha) {
      ProvenIsComplete(w.db, id, w.db.attempts[run].number, sha);
      PublishNeverOverlaps(w, id, run, sha);
      HasLog(w, id);
    }
  }

  /**
   Over any tables, reachable or not: a publication whose interval would share an offset with an existing one is
   refused as a whole.
   */
  lemma OverlapIsRefused(db: Db, id: string, run: string, sha: Digest, iv: Interval, bound: Bound)
    requires MayReport(db, id, run, sha) && IsProven(db, id, db.attempts[run].number, sha)
    requires db.batches[id].state == RUNNING && iv in db.intervals && bound in db.batches[id].partitions
    requires iv.topic == bound.topic && iv.partition == bound.partition && bound.low < bound.high
    requires iv.low < bound.high && bound.low < iv.high
    ensures Publish(db, id, run, sha) == (Err(Overlap), db)
  {
    hide IsProven, EvidenceComplete, AuditPasses;
    ProvenIsComplete(db, id, db.attempts[run].number, sha);
    var added := IntervalsOf(id, db.batches[id].partitions);
    IntervalRows(id, db.batches[id].partitions);
    var next := Interval(id, bound.topic, bound.partition, bound.low, bound.high);
    var i :| 0 <= i < |db.intervals| && db.intervals[i] == iv;
    assert next in added by {
      assert bound in db.batches[id].partitions && next ==
          Interval(id, bound.topic, bound.partition, bound.low, bound.high);
    }
    var j :| 0 <= j < |added| && added[j] == next;
    hide IntervalsOf;
    var all := db.intervals + added;
    assert all[i] == iv && all[|db.intervals| + j] == next;
  }

  lemma HasLog(w: World, id: string)
    requires Inv(w) && id in w.db.batches
    ensures id in w.db.log
  {
    hide UnfinishedIsLast, LogsOk, RunningOk, EvidenceOk, AuditsOk, FilesOk, SuccessOk, StoreOk, ChainOk, BoundariesOk;
    hide AllIntervals, AttemptsOk;
  }

  /** The interval rows of a batch are its bounds that advance, each with its own low and high. */
  lemma {:induction false} IntervalRows(id: string, bounds: seq<Bound>)
    ensures forall iv :: iv in IntervalsOf(id, bounds) <==>
              exists b :: b in bounds && b.low < b.high && iv == Interval(id, b.topic, b.partition, b.low, b.high)
  {
    if bounds != [] {
      var front, last := bounds[..|bounds| - 1], bounds[|bounds| - 1];
      IntervalRows(id, front);
      assert forall b :: b in bounds <==> b in front || b == last;
    }
  }

  // ---------------------------------------------------------------- what the callers are told

  /** Publication answers yes exactly when it takes place, or did for this run under this manifest. */
  lemma AnswerOfPublishing(w: World, id: string, run: string, sha: Digest)
    requires Inv(w)
    ensures Publish(w.db, id, run, sha).0.Ok? <==>
              || (run in w.db.attempts && w.db.attempts[run] == Attempt(id, w.db.attempts[run].number, sha, SUCCESS)
                  && id in w.db.batches && w.db.batches[id].state == PUBLISHED)
              || (MayReport(w.db, id, run, sha) && IsProven(w.db, id, w.db.attempts[run].number, sha))
  {
    hide Inv, IsProven, EvidenceComplete, AuditPasses, ExclusionHolds, IntervalsOf;
    if MayReport(w.db, id, run, sha) {
      ProvenIsComplete(w.db, id, w.db.attempts[run].number, sha);
      PublishNeverOverlaps(w, id, run, sha);
    }
  }

  /** The reconciliation is acknowledged exactly when its evidence is written, with its audit row passing. */
  lemma AnswerOfReconciliation(w: World, id: string, run: string, uri: Uri, sha: Digest)
    requires Inv(w)
    ensures var db := w.db;
            Record(w, id, run, ReconcileAll, uri, sha).0.Ok? <==>
              && IsStored(w.store, uri, id, sha) && MayReport(db, id, run, sha)
              && (id, db.attempts[run].number) in w.store.auditFiles
              && OfAttempt(w.store.auditFiles[(id, db.attempts[run].number)], id, db.attempts[run].number, run, sha)
              && AuditAccepted(w.store.auditFiles[(id, db.attempts[run].number)])
              && forall i | 0 <= i < |w.store.auditFiles[(id, db.attempts[run].number)].rules| ::
                   w.store.auditFiles[(id, db.attempts[run].number)].rules[i].status == PASS
  {
    hide ManifestValidation.Accepted, AuditAccepted, OfAttempt, FailedRules, IdsOk, UnfinishedIsLast, LogsOk;
    hide AttemptsOk, RunningOk, EvidenceOk, FilesOk, SuccessOk, StoreOk, ChainOk, BoundariesOk, AllIntervals;
    var key := (id, if run in w.db.attempts then w.db.attempts[run].number else 0);
    if key in w.db.audits { assert w.db.audits[key] == AuditRowOf(w.store.auditFiles[key]); }
    if key in w.store.auditFiles { NoFailureMeansAllPass(w.store.auditFiles[key].rules); }
  }

  /** A new run is told its attempt is active exactly when it was opened, and under which number. */
  lemma AnswerOfStart(w: World, id: string, run: string)
    requires Inv(w) && run !in w.db.attempts
    ensures var t := Apply(w, OpStart(id, run));
            && (Start(w.db, id, run).0.Ok? <==> run in t.db.attempts)
            && (run in t.db.attempts ==> Start(w.db, id, run).0 == Ok((t.db.attempts[run].number, ACTIVE)))
  {
    hide Inv;
  }
}
