/** A created or failed batch can always be finished: one attempt that runs to its end publishes it. */
module Progress {
  import opened Wrappers
  import opened Manifest
  import opened Audit
  import opened Control
  import opened ControlInvariant
  import opened ControlGuarantees

  /** The steps of one attempt over a batch, none of them failing. */
  function FullAttempt(id: string, run: string, uri: Uri, sha: Digest, counts: Counts, missing: seq<(string, int)>)
    : seq<Op>
  {
    [OpStart(id, run), OpRecord(id, run, ValidateBronze, uri, sha), OpRecord(id, run, LoadCore, uri, sha),
     OpRecord(id, run, LoadSatellites, uri, sha), OpReconcile(id, run, counts, missing),
     OpRecord(id, run, ReconcileAll, uri, sha), OpPublish(id, run, sha)]
  }

  ghost function ApplyAll(w: World, ops: seq<Op>): World {
    if ops == [] then w else Apply(ApplyAll(w, ops[..|ops| - 1]), ops[|ops| - 1])
  }

  lemma ApplyNext(w: World, ops: seq<Op>, i: nat)
    requires i < |ops|
    ensures ApplyAll(w, ops[..i + 1]) == Apply(ApplyAll(w, ops[..i]), ops[i])
  {
    assert ops[..i + 1][..i] == ops[..i];
  }

  /** What the reconciliation of the batch has to find. */
  predicate Reconciles(p: Payload, counts: Counts, missing: seq<(string, int)>) {
    && counts.events == counts.coordinates == p.objectCount
    && counts.accepted + counts.quarantined == counts.events
    && (forall i | 0 <= i < |missing| :: missing[i].1 == 0)
    && SourceBalanced(p.sourceControl)
  }

  /** The batch waits for an attempt, and the run is new. */
  ghost predicate Waiting(w: World, id: string, run: string) {
    id in w.db.batches && w.db.batches[id].state in {CREATED, FAILED} && run !in w.db.attempts
  }

  /** Exactly these tasks of the attempt are proven, against this manifest. */
  ghost predicate Proven(db: Db, id: string, n: nat, sha: Digest, tasks: set<Task>) {
    TasksOf(db, id, n) == tasks && forall k | k in db.evidence && k.0 == id && k.1 == n :: db.evidence[k].sha == sha
  }

  /** The attempt is open with the evidence of these tasks and no audit row yet. */
  ghost predicate Underway(w: World, id: string, run: string, n: nat, sha: Digest, tasks: set<Task>) {
    && AttemptOpen(w.db, id, run) && w.db.batches[id].state == RUNNING && w.db.batches[id].sha == sha
    && w.db.attempts[run] == Attempt(id, n, sha, ACTIVE) && Proven(w.db, id, n, sha, tasks)
    && (id, n) !in w.db.audits
  }

  lemma StartsUnderway(w: World, id: string, run: string)
    requires Inv(w) && Waiting(w, id, run)
    ensures var n := LastNumber(w.db.attempts, id) + 1;
            var t := Apply(w, OpStart(id, run));
            Underway(t, id, run, n, w.db.batches[id].sha, {}) && t.store == w.store
  {
    hide Inv, Appended, HasRunningAttempt;
    NoAttemptRuns(w, id);
    NothingProven(w, id);
  }

  /** The next attempt has no evidence, no evidence file and no audit row yet. */
  lemma NothingProven(w: World, id: string)
    requires Inv(w)
    ensures var n := LastNumber(w.db.attempts, id) + 1;
            && (id, n) !in w.db.audits && (id, n) !in w.store.auditFiles && TasksOf(w.db, id, n) == {}
            && forall k | k in w.db.evidence && k.0 == id :: k.1 != n
  {
    hide IdsOk, UnfinishedIsLast, LogsOk, AttemptsOk, RunningOk, SuccessOk, StoreOk, ChainOk, BoundariesOk;
    hide AllIntervals, BuiltFile;
    var n := LastNumber(w.db.attempts, id) + 1;
    assert forall r | r in w.db.attempts && w.db.attempts[r].batchId == id :: w.db.attempts[r].number < n;
    assert !HasAttempt(w.db, id, n);
  }

  lemma NoAttemptRuns(w: World, id: string)
    requires Inv(w) && id in w.db.batches && w.db.batches[id].state in {CREATED, FAILED}
    ensures !HasRunningAttempt(w.db)
  {
    hide IdsOk, LogsOk, EvidenceOk, AuditsOk, FilesOk, SuccessOk, StoreOk, ChainOk, BoundariesOk, AllIntervals;
    assert IsUnfinished(w.db.batches[id]);
  }

  lemma RecordsTask(w: World, id: string, run: string, n: nat, sha: Digest, tasks: set<Task>, task: Task, uri: Uri)
    requires Underway(w, id, run, n, sha, tasks) && ReadsManifest(w.store, uri, sha, id)
    requires task in EXPECTED_TASKS && task != ReconcileAll && sha == Sha256(sha.payload)
    ensures var t := Apply(w, OpRecord(id, run, task, uri, sha));
            Underway(t, id, run, n, sha, tasks + {task}) && t.store == w.store
  {
    hide ReadsManifest;
    EvidenceAdds(w.db, id, n, task, sha, tasks);
  }

  lemma EvidenceAdds(db: Db, id: string, n: nat, task: Task, sha: Digest, tasks: set<Task>)
    requires Proven(db, id, n, sha, tasks) && sha == Sha256(sha.payload)
    ensures Proven(WithEvidence(db, id, n, task, sha.payload), id, n, sha, tasks + {task})
  {
    var after := WithEvidence(db, id, n, task, sha.payload);
    forall x ensures x in TasksOf(after, id, n) <==> x in TasksOf(db, id, n) + {task} {
      if x in TasksOf(db, id, n) { assert (id, n, x) in after.evidence; }
      if x == task { assert (id, n, task) in after.evidence; }
    }
  }

  /** All evidence recorded and the audit passing. */
  ghost predicate Finished(w: World, id: string, run: string, n: nat, sha: Digest) {
    && AttemptOpen(w.db, id, run) && w.db.batches[id].state == RUNNING
    && w.db.attempts[run] == Attempt(id, n, sha, ACTIVE) && Proven(w.db, id, n, sha, EXPECTED_TASKS)
    && AuditPasses(w.db, id, n)
  }

  ghost predicate Unfinished(w: World, id: string, run: string, n: nat) {
    && AttemptOpen(w.db, id, run) && w.db.attempts[run].number == n && !AuditPasses(w.db, id, n)
    && w.db.batches[id].state == RUNNING
  }

  function EvidenceFile(id: string, run: string, n: nat, payload: Payload, counts: Counts, missing: seq<(string, int)>)
    : AuditPayload
  {
    BuildAuditPayload(id, n, run, payload, AuditRules(BatchRows(payload, counts, missing)))
  }

  lemma ReconcileWrites(w: World, id: string, run: string, n: nat, sha: Digest, tasks: set<Task>, counts: Counts,
                        missing: seq<(string, int)>)
    requires Underway(w, id, run, n, sha, tasks) && (id, n) !in w.store.auditFiles && DistinctTables(missing)
    ensures var t := Apply(w, OpReconcile(id, run, counts, missing));
            && t.db == w.db && t.store.manifests == w.store.manifests && (id, n) in t.store.auditFiles
            && t.store.auditFiles[(id, n)] == EvidenceFile(id, run, n, sha.payload, counts, missing)
  {
    hide BuildAuditPayload, AuditRules, BatchRows, Proven;
  }

  /** Recording the evidence file of an attempt succeeds exactly when it has no failed rule. */
  lemma RecordsAudit(w: World, id: string, run: string, n: nat, sha: Digest, uri: Uri, tasks: set<Task>)
    requires Underway(w, id, run, n, sha, tasks) && ReadsManifest(w.store, uri, sha, id) && sha == Sha256(sha.payload)
    requires (id, n) in w.store.auditFiles && tasks + {ReconcileAll} == EXPECTED_TASKS
    requires var file := w.store.auditFiles[(id, n)]; OfAttempt(file, id, n, run, sha) && AuditAccepted(file)
    ensures var t := Apply(w, OpRecord(id, run, ReconcileAll, uri, sha));
            if FailedRules(w.store.auditFiles[(id, n)].rules) == 0 then Finished(t, id, run, n, sha)
                else Unfinished(t, id, run, n)
  {
    hide ReadsManifest, AuditAccepted, OfAttempt, FailedRules, WithEvidence;
    var stored := StoreAudit(w, id, run, n, sha);
    var key := (id, n);
    assert stored == Ok(w.db.(audits := w.db.audits[key := AuditRowOf(w.store.auditFiles[key])]));
    assert Proven(stored.value, id, n, sha, tasks);
    EvidenceAdds(stored.value, id, n, ReconcileAll, sha, tasks);
    EvidenceElsewhere(stored.value, id, n, ReconcileAll, sha.payload);
  }

  lemma EvidenceElsewhere(db: Db, id: string, n: nat, task: Task, payload: Payload)
    ensures var after := WithEvidence(db, id, n, task, payload);
            after.attempts == db.attempts && after.batches == db.batches && after.audits == db.audits
  {
  }

  /** The reconcile job writes its evidence file, and recording it succeeds exactly when the counts reconcile. */
  lemma ReconcilesAndRecords(w: World, id: string, run: string, n: nat, sha: Digest, uri: Uri, counts: Counts,
                             missing: seq<(string, int)>)
    requires Underway(w, id, run, n, sha, EXPECTED_TASKS - {ReconcileAll}) && ReadsManifest(w.store, uri, sha, id)
    requires (id, n) !in w.store.auditFiles && DistinctTables(missing) && sha == Sha256(sha.payload)
             && sha.payload.partitions != []
    ensures var t := Apply(Apply(w, OpReconcile(id, run, counts, missing)), OpRecord(id, run, ReconcileAll, uri, sha));
            if Reconciles(sha.payload, counts, missing) then Finished(t, id, run, n, sha) else Unfinished(t, id, run, n)
  {
    var s := Apply(w, OpReconcile(id, run, counts, missing));
    ReconcileWrites(w, id, run, n, sha, EXPECTED_TASKS - {ReconcileAll}, counts, missing);
    hide Apply, AuditAccepted, OfAttempt, FailedRules, BuildAuditPayload, BatchRows, AuditRules, Finished, Unfinished;
    EvidencePassesExactlyWhenComplete(id, n, run, sha.payload, counts, missing);
    assert EXPECTED_TASKS - {ReconcileAll} + {ReconcileAll} == EXPECTED_TASKS;
    RecordsAudit(s, id, run, n, sha, uri, EXPECTED_TASKS - {ReconcileAll});
  }

  lemma PublishesProven(w: World, id: string, run: string, n: nat, sha: Digest)
    requires Inv(w) && Finished(w, id, run, n, sha)
    ensures var t := Apply(w, OpPublish(id, run, sha));
            id in t.db.batches && t.db.batches[id].state == PUBLISHED && t.db.published == w.db.published + [id]
  {
    hide Inv, ExclusionHolds, IntervalsOf, Appended, AuditPasses, TasksOf;
    PublishNeverOverlaps(w, id, run, sha);
    assert EvidenceComplete(w.db, id, n, sha);
  }

  lemma UnprovenStays(w: World, id: string, run: string, n: nat, sha: Digest)
    requires Unfinished(w, id, run, n)
    ensures Apply(w, OpPublish(id, run, sha)).db == w.db
  {
  }

  lemma ManifestOfBatch(w: World, id: string)
    requires Inv(w) && id in w.db.batches
    ensures var b := w.db.batches[id];
            b.sha == Sha256(b.sha.payload) && ReadsManifest(w.store, b.uri, b.sha, id) && b.sha.payload.partitions != []
  {
    hide IdsOk, UnfinishedIsLast, LogsOk, AttemptsOk, RunningOk, EvidenceOk, AuditsOk, FilesOk, SuccessOk, ChainOk;
    hide BoundariesOk, AllIntervals;
  }

  lemma {:induction false} StepsKeepInv(w: World, ops: seq<Op>)
    requires Inv(w) && forall op | op in ops :: !op.OpCreate?
    ensures Inv(ApplyAll(w, ops))
  {
    hide Inv, Apply;
    if ops != [] {
      StepsKeepInv(w, ops[..|ops| - 1]);
      StepKeepsInv(ApplyAll(w, ops[..|ops| - 1]), ops[|ops| - 1]);
    }
  }

  lemma FullAttemptFrom(w: World, id: string, run: string, counts: Counts, missing: seq<(string, int)>)
    requires Inv(w) && Waiting(w, id, run) && DistinctTables(missing)
    ensures var b := w.db.batches[id];
            var t := ApplyAll(w, FullAttempt(id, run, b.uri, b.sha, counts, missing));
            && id in t.db.batches
            && (t.db.batches[id].state == PUBLISHED <==> Reconciles(b.sha.payload, counts, missing))
            && (t.db.batches[id].state == PUBLISHED ==> id in t.db.published)
  {
    hide Inv, Apply, ApplyAll, Underway, Finished, Unfinished, Reconciles, ReadsManifest, DistinctTables;
    var b := w.db.batches[id];
    var sha, n := b.sha, LastNumber(w.db.attempts, id) + 1;
    ManifestOfBatch(w, id);
    var plan := FullAttempt(id, run, b.uri, sha, counts, missing);
    var w1 := Apply(w, plan[0]);
    var w2 := Apply(w1, plan[1]);
    var w3 := Apply(w2, plan[2]);
    var w4 := Apply(w3, plan[3]);
    var w6 := Apply(Apply(w4, plan[4]), plan[5]);
    NothingProven(w, id);
    Unrolled(w, plan);
    StepsKeepInv(w, plan[..6]);
    StartsUnderway(w, id, run);
    RecordsTask(w1, id, run, n, sha, {}, ValidateBronze, b.uri);
    RecordsTask(w2, id, run, n, sha, {} + {ValidateBronze}, LoadCore, b.uri);
    RecordsTask(w3, id, run, n, sha, {} + {ValidateBronze} + {LoadCore}, LoadSatellites, b.uri);
    assert {} + {ValidateBronze} + {LoadCore} + {LoadSatellites} == EXPECTED_TASKS - {ReconcileAll};
    ReconcilesAndRecords(w4, id, run, n, sha, b.uri, counts, missing);
    if Reconciles(sha.payload, counts, missing) {
      PublishesProven(w6, id, run, n, sha);
    } else {
      UnprovenStays(w6, id, run, n, sha);
      StillRunning(w6, id, run, n);
    }
  }

  lemma Unrolled(w: World, plan: seq<Op>)
    requires |plan| == 7
    ensures ApplyAll(w, plan[..6]) == Apply(Apply(Apply(Apply(Apply(Apply(w, plan[0]), plan[1]), plan[2]), plan[3]),
              plan[4]), plan[5])
    ensures ApplyAll(w, plan) == Apply(ApplyAll(w, plan[..6]), plan[6])
  {
    hide Apply;
    assert plan[..7] == plan && plan[..0] == [];
    assert ApplyAll(w, plan[..0]) == w;
    ApplyNext(w, plan, 0);
    ApplyNext(w, plan, 1);
    ApplyNext(w, plan, 2);
    ApplyNext(w, plan, 3);
    ApplyNext(w, plan, 4);
    ApplyNext(w, plan, 5);
    ApplyNext(w, plan, 6);
  }

  lemma StillRunning(w: World, id: string, run: string, n: nat)
    requires Unfinished(w, id, run, n)
    ensures id in w.db.batches && w.db.batches[id].state == RUNNING
  {
  }

  /**
   From every reachable state: an attempt that runs to its end over a created or failed batch publishes
   it, if and only if what it counted reconciles with the sealed manifest.
   */
  lemma FullAttemptPublishesExactly(ops: seq<Op>, id: string, run: string, counts: Counts, missing: seq<(string, int)>)
    requires AdmissibleRun(ops) && Waiting(Run(ops), id, run) && DistinctTables(missing)
    ensures var w := Run(ops);
            var b := w.db.batches[id];
            var t := ApplyAll(w, FullAttempt(id, run, b.uri, b.sha, counts, missing));
            && id in t.db.batches
            && (t.db.batches[id].state == PUBLISHED <==> Reconciles(b.sha.payload, counts, missing))
            && (t.db.batches[id].state == PUBLISHED ==> id in t.db.published)
  {
    var w := Run(ops);
    ReachableInv(ops);
    FullAttemptFrom(w, id, run, counts, missing);
  }
}
