/**
 The control plane in the form of its tables: every operation updates them row by row inside one
 transaction, and a raising operation rolls its table updates back. Object-store writes stay.
 */
module ControlPlane {
  import opened Wrappers
  import opened Manifest
  import opened ManifestValidation
  import opened LedgerControl
  import opened Audit
  import opened Control

  lemma LastNumberIsUnique(attempts: map<string, Attempt>, batchId: string, n: nat)
    requires IsLastNumber(attempts, batchId, n)
    ensures n == LastNumber(attempts, batchId)
  {
    hide LastNumber;
    var last := LastNumber(attempts, batchId);
    assert IsLastNumber(attempts, batchId, last);
  }

  /** Greatest attempt number among the visited rows. */
  ghost predicate LastAmong(attempts: map<string, Attempt>, runs: set<string>, batchId: string, n: nat) {
    && (forall run | run in runs && run in attempts && attempts[run].batchId == batchId :: attempts[run].number <= n)
    && (n == 0 ||
        exists run :: run in runs && run in attempts && attempts[run].batchId == batchId && attempts[run].number == n)
  }

  lemma AllVisited(attempts: map<string, Attempt>, batchId: string, n: nat)
    requires LastAmong(attempts, attempts.Keys, batchId, n)
    ensures n == LastNumber(attempts, batchId)
  {
    assert IsLastNumber(attempts, batchId, n);
    LastNumberIsUnique(attempts, batchId, n);
  }

  lemma {:induction false} ExclusionGrows(intervals: seq<Interval>, iv: Interval)
    ensures ExclusionHolds(intervals + [iv]) <==>
              ExclusionHolds(intervals) && forall i | 0 <= i < |intervals| :: !Overlaps(intervals[i], iv)
  {
    var grown := intervals + [iv];
    if ExclusionHolds(grown) {
      forall i, j | 0 <= i < j < |intervals| ensures !Overlaps(intervals[i], intervals[j]) {
        assert grown[i] == intervals[i] && grown[j] == intervals[j];
      }
      forall i | 0 <= i < |intervals| ensures !Overlaps(intervals[i], iv) {
        assert grown[i] == intervals[i] && grown[|intervals|] == iv;
      }
    }
  }

  lemma {:induction false} ExclusionOfPrefix(intervals: seq<Interval>, more: seq<Interval>)
    requires ExclusionHolds(intervals + more)
    ensures ExclusionHolds(intervals)
  {
    forall i, j | 0 <= i < j < |intervals| ensures !Overlaps(intervals[i], intervals[j]) {
      assert (intervals + more)[i] == intervals[i] && (intervals + more)[j] == intervals[j];
    }
  }

  lemma IntervalsOfGrows(batchId: string, bounds: seq<Bound>, i: nat)
    requires i < |bounds|
    ensures var b := bounds[i];
            IntervalsOf(batchId, bounds[..i + 1]) ==
            IntervalsOf(batchId, bounds[..i]) + if b.high > b.low
                then [Interval(batchId, b.topic, b.partition, b.low, b.high)] else []
  {
    assert bounds[..i + 1][..i] == bounds[..i];
  }

  lemma {:induction false} IntervalsOfPrefix(batchId: string, bounds: seq<Bound>, i: nat)
    requires i <= |bounds|
    ensures IntervalsOf(batchId, bounds[..i]) <= IntervalsOf(batchId, bounds)
    decreases |bounds| - i
  {
    if i < |bounds| {
      IntervalsOfGrows(batchId, bounds, i);
      IntervalsOfPrefix(batchId, bounds, i + 1);
    } else {
      assert bounds[..i] == bounds;
    }
  }

  lemma OverlapIsFinal(intervals: seq<Interval>, batchId: string, bounds: seq<Bound>, i: nat)
    requires i <= |bounds| && !ExclusionHolds(intervals + IntervalsOf(batchId, bounds[..i]))
    ensures !ExclusionHolds(intervals + IntervalsOf(batchId, bounds))
  {
    IntervalsOfPrefix(batchId, bounds, i);
    var part, whole := IntervalsOf(batchId, bounds[..i]), IntervalsOf(batchId, bounds);
    assert intervals + whole == (intervals + part) + whole[|part|..];
    if ExclusionHolds(intervals + whole) { ExclusionOfPrefix(intervals + part, whole[|part|..]); }
  }

  lemma AppendedTwice(log: map<string, seq<StateEvent>>, batchId: string, first: StateEvent, second: StateEvent)
    ensures Appended(Appended(log, batchId, [first]), batchId, [second]) == Appended(log, batchId, [first, second])
  {
    var before := if batchId in log then log[batchId] else [];
    assert before + [first] + [second] == before + [first, second];
  }

  class ControlPlane {
    var batches: map<string, Batch>
    var created: seq<string>
    var published: seq<string>
    var attempts: map<string, Attempt>
    var evidence: map<(string, nat, Task), Evidence>
    var audits: map<(string, nat), AuditRow>
    var intervals: seq<Interval>
    var log: map<string, seq<StateEvent>>
    var manifests: map<Uri, Document>
    var auditFiles: map<(string, nat), AuditPayload>

    function Tables(): Db
      reads this
    {
      Db(batches, created, published, attempts, evidence, audits, intervals, log)
    }

    function Snapshot(): World
      reads this
    {
      World(Tables(), Store(manifests, auditFiles))
    }

    /** The exclusion constraint of the interval table. */
    ghost predicate Valid()
      reads this
    {
      ExclusionHolds(intervals)
    }

    constructor ()
      ensures Valid() && Snapshot() == World(Db(map[], [], [], map[], map[], map[], [], map[]), Store(map[], map[]))
    {
      batches, created, published, attempts := map[], [], [], map[];
      evidence, audits, intervals, log := map[], map[], [], map[];
      manifests, auditFiles := map[], map[];
    }

    method Rollback(db: Db)
      requires ExclusionHolds(db.intervals)
      modifies this
      ensures Valid() && Snapshot() == old(Snapshot()).(db := db)
    {
      batches, created, published, attempts := db.batches, db.created, db.published, db.attempts;
      evidence, audits, intervals, log := db.evidence, db.audits, db.intervals, db.log;
    }

    method LogEvent(batchId: string, event: StateEvent)
      modifies this`log
      ensures log == Appended(old(log), batchId, [event])
    {
      log := log[batchId := (if batchId in log then log[batchId] else []) + [event]];
    }

    // -------------------------------------------------------------- create_or_get_batch

    /** Watermark highs of the latest publication, partition by partition. */
    method ReadPreviousHighs() returns (highs: map<Identity, int>)
      ensures highs == PreviousHighs(Tables())
    {
      highs := map[];
      if published == [] || published[|published| - 1] !in batches {
        return;
      }
      var rows := batches[published[|published| - 1]].partitions;
      for i := 0 to |rows|
        invariant highs == HighsOf(rows[..i])
      {
        assert rows[..i + 1][..i] == rows[..i];
        highs := highs[BoundId(rows[i]) := rows[i].high];
      }
      assert rows[..|rows|] == rows;
    }

    /** read_manifest: stored, unchanged, of this batch, and valid. */
    method ReadManifest(uri: Uri, sha: Digest, batchId: string) returns (ok: bool)
      ensures ok <==> ReadsManifest(Snapshot().store, uri, sha, batchId)
    {
      if uri !in manifests {
        return false;
      }
      var checked := ValidateManifestDocument(manifests[uri], Some(sha), Some(batchId));
      ok := checked.Ok?;
    }

    method SealPayload(c: CreateInput) returns (r: Result<Payload, ManifestError>)
      ensures r == SealedPayload(Tables(), c)
    {
      var highs := ReadPreviousHighs();
      var preliminary := BuildManifestPayload(c.batchId, Listing(c), highs, c.sourceAdapter, c.contractVersion, c.now,
          None);
      if preliminary.Err? {
        return preliminary;
      }
      var control := BuildSourceControl(PublishedBoundary(batches, published), c.ledger, c.bodies,
          preliminary.value.objects);
      if control.Err? {
        return Err(Malformed);
      }
      r := BuildManifestPayload(c.batchId, Listing(c), highs, c.sourceAdapter, c.contractVersion, c.now,
          Some(control.value));
    }

    method CreateOrGetBatch(c: CreateInput, crash: bool) returns (r: Result<Digest, ControlError>)
      requires Valid()
      modifies this
      ensures Valid() && (r, Snapshot()) == CreateOrGet(old(Snapshot()), c, crash)
    {
      hide Discover, ReadsManifest, SealedPayload, NewBatch, HasRunningAttempt, HasUnfinishedBatch, ExclusionHolds;
      if c.batchId == "" || |c.batchId| > 250 {
        return Err(BadBatchId);
      }
      var objects := DiscoverBronzeObjects(c.page);
      if objects.Err? {
        return Err(ManifestFailure(objects.error));
      }
      if c.batchId in batches {
        var ok := ReadManifest(batches[c.batchId].uri, batches[c.batchId].sha, c.batchId);
        return if ok then Ok(batches[c.batchId].sha) else Err(ManifestFailure(Missing));
      }
      if HasRunningAttempt(Tables()) {
        return Err(RunningAttempt);
      }
      if HasUnfinishedBatch(Tables()) {
        return Err(Unfinished);
      }
      var sealed := SealPayload(c);
      if sealed.Err? {
        return Err(ManifestFailure(sealed.error));
      }
      var uri, document := ManifestUri(c.batchId), Document(Sha256(sealed.value), sealed.value);
      if uri in manifests && manifests[uri] != document {
        return Err(ManifestFailure(Conflict));
      }
      manifests := manifests[uri := document];
      if crash {
        return Err(Crashed);
      }
      batches := batches[c.batchId := NewBatch(c, sealed.value)];
      created := created + [c.batchId];
      log := log[c.batchId := [StateEvent(None, CREATED)]];
      r := Ok(document.sha);
    }

    // -------------------------------------------------------------- start_attempt

    /** coalesce(max(attempt_number), 0) over the batch's rows. */
    method MaxAttemptNumber(batchId: string) returns (n: nat)
      ensures n == LastNumber(attempts, batchId)
    {
      n := 0;
      var pending := attempts.Keys;
      while pending != {}
        invariant pending <= attempts.Keys
        invariant LastAmong(attempts, attempts.Keys - pending, batchId, n)
        decreases |pending|
      {
        var run :| run in pending;
        if attempts[run].batchId == batchId && attempts[run].number > n {
          n := attempts[run].number;
        }
        pending := pending - {run};
      }
      assert attempts.Keys - pending == attempts.Keys;
      AllVisited(attempts, batchId, n);
    }

    method StartAttempt(batchId: string, run: string) returns (r: Result<(nat, AttemptState), ControlError>)
      requires Valid()
      modifies this
      ensures Valid() && manifests == old(manifests) && auditFiles == old(auditFiles)
      ensures (r, Tables()) == Start(old(Tables()), batchId, run)
    {
      hide LastNumber;
      if run in attempts {
        var a := attempts[run];
        return if a.batchId == batchId then Ok((a.number, a.state)) else Err(ForeignRun);
      }
      if batchId !in batches {
        return Err(Unknown);
      }
      var b := batches[batchId];
      if b.state !in {CREATED, FAILED, PUBLISHED} {
        return Err(WrongState);
      }
      if HasRunningAttempt(Tables()) {
        return Err(RunningAttempt);
      }
      if b.state == PUBLISHED && (created == [] || created[|created| - 1] != batchId) {
        return Err(NotLatest);
      }
      var last := MaxAttemptNumber(batchId);
      attempts := attempts[run := Attempt(batchId, last + 1, b.sha, ACTIVE)];
      if b.state != PUBLISHED {
        batches := batches[batchId := b.(state := RUNNING)];
        LogEvent(batchId, StateEvent(Some(b.state), RUNNING));
      }
      r := Ok((last + 1, ACTIVE));
    }

    // -------------------------------------------------------------- record_task_success

    method CountFailedRules(rules: seq<Rule>) returns (n: nat)
      ensures n == FailedRules(rules)
    {
      n := 0;
      for i := 0 to |rules|
        invariant n == FailedRules(rules[..i])
      {
        assert rules[..i + 1][..i] == rules[..i];
        if rules[i].status == FAIL {
          n := n + 1;
        }
      }
      assert rules[..|rules|] == rules;
    }

    method RecordTaskSuccess(batchId: string, run: string, task: Task, uri: Uri, sha: Digest)
      returns (r: Result<(), ControlError>)
      requires Valid()
      modifies this
      ensures Valid() && manifests == old(manifests) && auditFiles == old(auditFiles)
      ensures (r, Tables()) == Record(old(Snapshot()), batchId, run, task, uri, sha)
    {
      hide FailedRules, OfAttempt, AuditAccepted, ReadsManifest;
      if task !in EXPECTED_TASKS {
        return Err(UnexpectedEvidence);
      }
      var readable := ReadManifest(uri, sha, batchId);
      if !readable {
        return Err(ManifestFailure(Malformed));
      }
      if !AttemptOpen(Tables(), batchId, run) {
        return Err(WrongState);
      }
      if attempts[run].sha != sha {
        return Err(ChecksumDiffers);
      }
      var number := attempts[run].number;
      var failed := 0;
      if task == ReconcileAll {
        var key := (batchId, number);
        if key !in auditFiles {
          return Err(AuditConflict);
        }
        var file := auditFiles[key];
        var checked := ValidateAuditPayload(file, batchId, number, run, sha);
        if checked.Err? {
          return Err(AuditConflict);
        }
        failed := CountFailedRules(file.rules);
        var row := AuditRow(file, if failed == 0 then PASS else FAIL, |file.rules|, failed);
        var saved := audits;
        if key !in audits {
          audits := audits[key := row];
        }
        if audits[key].evidence != file || audits[key].state != row.state {
          audits := saved;
          return Err(AuditConflict);
        }
      }
      if failed > 0 {
        return Err(AuditFailed);
      }
      evidence := evidence[(batchId, number, task) :=
        Evidence(sha, sha.payload.readerMode, sha.payload.objectCount, sha.payload.inputBytes)];
      r := Ok(());
    }

    // -------------------------------------------------------------- publish_batch

    /** Inserts the advancing bounds one by one; stops at the first row the constraint refuses. */
    method InsertIntervals(batchId: string, bounds: seq<Bound>) returns (ok: bool)
      requires Valid()
      modifies this`intervals
      ensures ok <==> ExclusionHolds(old(intervals) + IntervalsOf(batchId, bounds))
      ensures ok ==> intervals == old(intervals) + IntervalsOf(batchId, bounds) && Valid()
    {
      assert intervals == old(intervals) + IntervalsOf(batchId, bounds[..0]);
      for i := 0 to |bounds|
        invariant intervals == old(intervals) + IntervalsOf(batchId, bounds[..i]) && Valid()
      {
        hide IntervalsOf, ExclusionHolds;
        IntervalsOfGrows(batchId, bounds, i);
        var b := bounds[i];
        if b.high > b.low {
          var iv := Interval(batchId, b.topic, b.partition, b.low, b.high);
          ExclusionGrows(intervals, iv);
          assert intervals + [iv] == old(intervals) + IntervalsOf(batchId, bounds[..i + 1]);
          if exists k | 0 <= k < |intervals| :: Overlaps(intervals[k], iv) {
            OverlapIsFinal(old(intervals), batchId, bounds, i + 1);
            return false;
          }
          intervals := intervals + [iv];
        }
      }
      assert bounds[..|bounds|] == bounds;
      ok := true;
    }

    /** The tables of a running batch after its publication. */
    static function PublishedTables(db: Db, batchId: string, run: string): Db
      requires run in db.attempts && batchId in db.batches
    {
      db.(attempts := db.attempts[run := db.attempts[run].(state := SUCCESS)],
          batches := db.batches[batchId := db.batches[batchId].(state := PUBLISHED)],
          published := db.published + [batchId],
          intervals := db.intervals + IntervalsOf(batchId, db.batches[batchId].partitions),
          log := Appended(db.log, batchId, [StateEvent(Some(RUNNING), VALIDATED),
              StateEvent(Some(VALIDATED), PUBLISHED)]))
    }

    /** VALIDATED, intervals, attempt, PUBLISHED; all undone when the interval table refuses a row. */
    method AdvanceToPublished(batchId: string, run: string) returns (ok: bool)
      requires Valid() && run in attempts && batchId in batches
      modifies this
      ensures Valid() && manifests == old(manifests) && auditFiles == old(auditFiles)
      ensures ok <==> ExclusionHolds(old(intervals) + IntervalsOf(batchId, old(batches)[batchId].partitions))
      ensures Tables() == if ok then PublishedTables(old(Tables()), batchId, run) else old(Tables())
    {
      hide ExclusionHolds, IntervalsOf, Appended;
      var a, b, before := attempts[run], batches[batchId], Tables();
      batches := batches[batchId := b.(state := VALIDATED)];
      LogEvent(batchId, StateEvent(Some(RUNNING), VALIDATED));
      ok := InsertIntervals(batchId, b.partitions);
      if !ok {
        Rollback(before);
        return;
      }
      attempts := attempts[run := a.(state := SUCCESS)];
      batches := batches[batchId := b.(state := PUBLISHED)];
      published := published + [batchId];
      LogEvent(batchId, StateEvent(Some(VALIDATED), PUBLISHED));
      AppendedTwice(before.log, batchId, StateEvent(Some(RUNNING), VALIDATED), StateEvent(Some(VALIDATED), PUBLISHED));
      assert batches == before.batches[batchId := b.(state := PUBLISHED)];
    }

    method PublishBatch(batchId: string, run: string, sha: Digest) returns (r: Result<(), ControlError>)
      requires Valid()
      modifies this
      ensures Valid() && manifests == old(manifests) && auditFiles == old(auditFiles)
      ensures (r, Tables()) == Publish(old(Tables()), batchId, run, sha)
    {
      hide ExclusionHolds, IntervalsOf, EvidenceComplete, AuditPasses, Appended;
      if run in attempts && attempts[run].batchId == batchId && batchId in batches
         && attempts[run].state == SUCCESS && batches[batchId].state == PUBLISHED
      {
        return if attempts[run].sha == sha then Ok(()) else Err(ChecksumDiffers);
      }
      if !AttemptOpen(Tables(), batchId, run) {
        return Err(WrongState);
      }
      if attempts[run].sha != sha {
        return Err(ChecksumDiffers);
      }
      if !EvidenceComplete(Tables(), batchId, attempts[run].number, sha) {
        return Err(MissingEvidence);
      }
      if !AuditPasses(Tables(), batchId, attempts[run].number) {
        return Err(AuditNotPassing);
      }
      if batches[batchId].state == PUBLISHED {
        attempts := attempts[run := attempts[run].(state := SUCCESS)];
        return Ok(());
      }
      var ok := AdvanceToPublished(batchId, run);
      r := if ok then Ok(()) else Err(Overlap);
    }

    // -------------------------------------------------------------- fail_airflow_run, supersede_batch

    method FailAirflowRun(run: string)
      requires Valid()
      modifies this
      ensures Valid() && manifests == old(manifests) && auditFiles == old(auditFiles)
      ensures Tables() == FailRun(old(Tables()), run)
    {
      if run !in attempts || attempts[run].state != ACTIVE || attempts[run].batchId !in batches {
        return;
      }
      var a := attempts[run];
      var b := batches[a.batchId];
      attempts := attempts[run := a.(state := ABORTED)];
      if b.state == RUNNING {
        batches := batches[a.batchId := b.(state := FAILED)];
        LogEvent(a.batchId, StateEvent(Some(RUNNING), FAILED));
      }
    }

    method SupersedeBatch(batchId: string) returns (r: Result<(), ControlError>)
      requires Valid()
      modifies this
      ensures Valid() && manifests == old(manifests) && auditFiles == old(auditFiles)
      ensures (r, Tables()) == Supersede(old(Tables()), batchId)
    {
      if batchId !in batches || batches[batchId].state !in {CREATED, FAILED} {
        return Err(WrongState);
      }
      var b := batches[batchId];
      batches := batches[batchId := b.(state := SUPERSEDED)];
      LogEvent(batchId, StateEvent(Some(b.state), SUPERSEDED));
      r := Ok(());
    }

    /** persist_audit_evidence: a first file is written; a different second one raises. */
    method PersistAuditEvidence(batchId: string, number: nat, file: AuditPayload) returns (r: Result<(), ControlError>)
      modifies this`auditFiles
      ensures auditFiles == WriteAuditFile(old(Snapshot()).store, batchId, number, file).auditFiles
      ensures r.Ok? <==> auditFiles[(batchId, number)] == file
    {
      if (batchId, number) in auditFiles {
        return if auditFiles[(batchId, number)] == file then Ok(()) else Err(AuditConflict);
      }
      auditFiles := auditFiles[(batchId, number) := file];
      r := Ok(());
    }
  }
}
