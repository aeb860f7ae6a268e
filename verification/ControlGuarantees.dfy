/** What callers of the control plane may rely on in every reachable state. */
module ControlGuarantees {
  import opened Wrappers
  import opened Ordering
  import opened Encodings
  import opened Manifest
  import opened ManifestValidation
  import opened LedgerControl
  import opened Audit
  import opened Control
  import opened ControlInvariant

  // ---------------------------------------------------------------- one batch at a time

  ghost predicate ActiveOf(db: Db, batchId: string, run: string) {
    run in db.attempts && db.attempts[run].batchId == batchId && db.attempts[run].state == ACTIVE
  }

  /**
   In every reachable state at most one batch is unfinished and it is the last created; at most one
   attempt runs, on a running batch or on the last created one after its publication; a running
   batch has its one attempt; each log is a path of allowed transitions that never rests in VALIDATED.
   */
  lemma OneBatchAtATime(ops: seq<Op>)
    requires AdmissibleRun(ops)
    ensures var db := Run(ops).db;
            && (forall a, b | a in db.batches && b in db.batches && IsUnfinished(db.batches[a])
                 && IsUnfinished(db.batches[b]) :: a == b)
            && (forall a | a in db.batches && IsUnfinished(db.batches[a]) :: LastCreated(db, a))
            && (forall r, s, a, b | ActiveOf(db, a, r) && ActiveOf(db, b, s) :: r == s && a == b)
            && (forall r, a | ActiveOf(db, a, r) ::
                 a in db.batches && LastCreated(db, a) && db.batches[a].state in {RUNNING, PUBLISHED})
            && (forall a | a in db.batches && db.batches[a].state == RUNNING :: exists r :: ActiveOf(db, a, r))
            && (forall a | a in db.batches ::
                  a in db.log && LogPath(db.log[a], db.batches[a].state) && db.batches[a].state != VALIDATED)
  {
    ReachableInv(ops);
    hide LogPath, EvidenceOk, AuditsOk, FilesOk, SuccessOk, StoreOk, ChainOk, BoundariesOk, AllIntervals, IdsOk, Run;
    var db := Run(ops).db;
    forall a | a in db.batches && db.batches[a].state == RUNNING ensures exists r :: ActiveOf(db, a, r) {
      var r :| r in db.attempts && db.attempts[r].batchId == a && db.attempts[r].state == ACTIVE;
      assert ActiveOf(db, a, r);
    }
  }

  /** What a state may turn into; PUBLISHED and SUPERSEDED stay. */
  predicate MayBecome(from: BatchState, to: BatchState) {
    match from
    case CREATED => to == RUNNING || to == SUPERSEDED
    case RUNNING => to == VALIDATED || to == FAILED
    case VALIDATED => to == PUBLISHED
    case FAILED => to == RUNNING || to == SUPERSEDED
    case PUBLISHED => false
    case SUPERSEDED => false
  }

  /** Each log begins with the creation, leads from state to state and ends in the state of its batch. */
  lemma LogsLeadToTheState(ops: seq<Op>, id: string)
    requires AdmissibleRun(ops) && id in Run(ops).db.batches
    ensures var db := Run(ops).db;
            && id in db.log && db.log[id] != [] && db.log[id][0] == StateEvent(None, CREATED)
            && db.log[id][|db.log[id]| - 1].to == db.batches[id].state
            && forall i | 0 < i < |db.log[id]| ::
                 db.log[id][i].from == Some(db.log[id][i - 1].to) && MayBecome(db.log[id][i - 1].to, db.log[id][i].to)
  {
    hide Run, AdmissibleRun, LogPath, LastCreated, IsUnfinished, ActiveOf;
    OneBatchAtATime(ops);
    PathLeads(Run(ops).db.log[id], Run(ops).db.batches[id].state);
  }

  lemma PathLeads(events: seq<StateEvent>, current: BatchState)
    requires LogPath(events, current)
    ensures events != [] && events[0] == StateEvent(None, CREATED) && events[|events| - 1].to == current
    ensures forall i | 0 < i < |events| ::
              events[i].from == Some(events[i - 1].to) && MayBecome(events[i - 1].to, events[i].to)
  {
  }

  // ---------------------------------------------------------------- intervals

  /** Some offset of one partition lies in both half-open ranges. */
  ghost predicate ShareAnOffset(a: Interval, b: Interval) {
    a.topic == b.topic && a.partition == b.partition && exists o: int :: InRange(a, o) && InRange(b, o)
  }

  predicate InRange(a: Interval, offset: int) { a.low < offset <= a.high }

  lemma OverlapIsASharedOffset(a: Interval, b: Interval)
    requires a.low < a.high && b.low < b.high
    ensures Overlaps(a, b) <==> ShareAnOffset(a, b)
  {
    if Overlaps(a, b) {
      var o := if a.low > b.low then a.low + 1 else b.low + 1;
      assert InRange(a, o) && InRange(b, o);
    }
  }

  /** In every reachable state no offset lies in two published intervals. */
  lemma NoOffsetIsPublishedTwice(ops: seq<Op>)
    requires AdmissibleRun(ops)
    ensures var ivs := Run(ops).db.intervals;
            forall i, j | 0 <= i < j < |ivs| :: !ShareAnOffset(ivs[i], ivs[j])
  {
    PublishedIntervalsAreContiguous(ops);
    hide Run, ShareAnOffset, Overlaps, AdmissibleRun, ChainHigh, PreviousHighs;
    var ivs := Run(ops).db.intervals;
    forall i, j | 0 <= i < j < |ivs| ensures !ShareAnOffset(ivs[i], ivs[j]) {
      OverlapIsASharedOffset(ivs[i], ivs[j]);
    }
  }

  /**
   In publish order each partition's intervals start at -1, continue each other and never overlap;
   they reach exactly the highs the next manifest will start from.
   */
  lemma PublishedIntervalsAreContiguous(ops: seq<Op>)
    requires AdmissibleRun(ops)
    ensures var db := Run(ops).db;
            Contiguous(db.intervals) && ExclusionHolds(db.intervals)
            && forall id :: ChainHigh(db.intervals, id) == Low(PreviousHighs(db), id)
  {
    hide Run, AllIntervals, PreviousHighs, ExclusionHolds, Contiguous, ChainHigh, HighsAt, Low, AdmissibleRun;
    hide IdsOk, UnfinishedIsLast, LogsOk, AttemptsOk, RunningOk, EvidenceOk, AuditsOk, FilesOk, SuccessOk, StoreOk;
    hide ChainOk, BoundariesOk;
    ReachableInv(ops);
    var db := Run(ops).db;
    PublishedIntervalsReach(db, |db.published|);
    assert db.published[..|db.published|] == db.published;
    PreviousIsLast(db);
    ContiguousExcludes(db.intervals);
  }

  /** A publication never meets the exclusion constraint. */
  lemma PublishNeverOverlaps(w: World, batchId: string, run: string, sha: Digest)
    requires Inv(w)
    ensures Publish(w.db, batchId, run, sha).0 != Err(Overlap)
  {
    hide LogPath, EvidenceOk, AuditsOk, FilesOk, SuccessOk, StoreOk, ChainOk, BoundariesOk, AllIntervals, IdsOk;
    hide EvidenceComplete, AuditPasses, ExclusionHolds, IntervalsOf, Appended;
    if AttemptOpen(w.db, batchId, run) && w.db.batches[batchId].state == RUNNING {
      NextBatchExcludesNothing(w.db, batchId);
    }
  }

  /**
   A sealed batch continues the published chain exactly when the listing still shows every partition
   of the last publication; a staler listing silently drops a partition's high.
   */
  lemma ChainContinuesExactlyWhenListingCovers(db: Db, c: CreateInput)
    requires SealedPayload(db, c).Ok?
    ensures Continues(PreviousHighs(db), SealedPayload(db, c).value.partitions) <==> ListingCovers(db, Listing(c))
  {
    hide ParseBronzeCoordinate, PreviousHighs, SealedPayload, SealsInterval, Continues, ListingCovers;
    var p := SealedPayload(db, c).value;
    SealedSeals(db, c);
    if ListingCovers(db, Listing(c)) {
      CoveredInItems(db, Listing(c));
      BoundsContinue(p, Items(Listing(c)), PreviousHighs(db));
    }
    if Continues(PreviousHighs(db), p.partitions) {
      ContinuedIsListed(Items(Listing(c)), PreviousHighs(db), p);
      ItemsCover(db, Listing(c));
    }
  }

  lemma ItemsCover(db: Db, listing: seq<BronzeObject>)
    requires AllParse(listing) && forall id | id in PreviousHighs(db) :: exists x :: x in Items(listing) && Id(x) == id
    ensures ListingCovers(db, listing)
  {
    hide ParseBronzeCoordinate, PreviousHighs;
    var items := Items(listing);
    forall id | id in PreviousHighs(db)
      ensures exists i | 0 <= i < |listing| :: ItemOf(listing[i]).Some? && Id(ItemOf(listing[i]).value) == id
    {
      var x :| x in items && Id(x) == id;
      var i :| 0 <= i < |items| && items[i] == x;
      assert ItemOf(listing[i]).Some? && Id(ItemOf(listing[i]).value) == id;
    }
  }

  lemma ContinuedIsListed(items: seq<Item>, highs: map<Identity, int>, p: Payload)
    requires SealsInterval(p, items, highs) && Continues(highs, p.partitions)
    ensures forall id | id in highs :: exists x :: x in items && Id(x) == id
  {
    hide SortedBy, UniqueCoordinates, UniqueKeys, CountsExact, AllParse, Bytes, PartitionsAccepted, BoundFits;
    forall id | id in highs ensures exists x :: x in items && Id(x) == id {
      var k :| 0 <= k < |p.partitions| && BoundIds(p.partitions)[k] == id;
      assert p.partitions[k] in p.partitions;
      BoundIsListed(items, highs, p.partitions[k]);
    }
  }

  lemma BoundIsListed(items: seq<Item>, highs: map<Identity, int>, b: Bound)
    requires BoundFits(items, highs, b)
    ensures exists x :: x in items && Id(x) == BoundId(b)
  {
  }

  lemma SealedSeals(db: Db, c: CreateInput)
    requires SealedPayload(db, c).Ok?
    ensures AllParse(Listing(c)) && SealsInterval(SealedPayload(db, c).value, Items(Listing(c)), PreviousHighs(db))
  {
    hide BuildPayload, SealsInterval, PreviousHighs, SourceControlFor, AllReadable, Events, PublishedBoundary;
    hide ParseBronzeCoordinate;
    var highs := PreviousHighs(db);
    var preliminary := BuildPayload(c.batchId, Listing(c), highs, c.sourceAdapter, c.contractVersion, c.now,
        None).value;
    var control := SourceControlFor(PublishedBoundary(db.batches, db.published), c.ledger,
        Events(c.bodies, preliminary.objects));
    BuildSealsExactlyTheInterval(c.batchId, Listing(c), highs, c.sourceAdapter, c.contractVersion, c.now,
        Some(control));
  }

  // ---------------------------------------------------------------- what never changes

  ghost predicate StoreGrows(before: Store, after: Store) {
    && (forall u | u in before.manifests :: u in after.manifests && after.manifests[u] == before.manifests[u])
    && (forall k | k in before.auditFiles :: k in after.auditFiles && after.auditFiles[k] == before.auditFiles[k])
  }

  ghost predicate HistoryGrows(before: Db, after: Db) {
    && before.created <= after.created && before.published <= after.published && before.intervals <= after.intervals
    && forall id | id in before.log :: id in after.log && before.log[id] <= after.log[id]
  }

  /** Batch rows change only their state, and not even that once published or superseded. */
  ghost predicate BatchesSettle(before: Db, after: Db) {
    forall id | id in before.batches ::
      && id in after.batches && after.batches[id] == before.batches[id].(state := after.batches[id].state)
      && (!IsUnfinished(before.batches[id]) ==> after.batches[id] == before.batches[id])
  }

  ghost predicate SameEvidence(before: Db, after: Db, id: string, number: nat) {
    forall k: (string, nat, Task) | k.0 == id && k.1 == number ::
      (k in before.evidence <==> k in after.evidence)
          && (k in before.evidence ==> after.evidence[k] == before.evidence[k])
  }

  /** Attempt rows change only their state, and neither it nor their evidence once they ended. */
  ghost predicate AttemptsSettle(before: Db, after: Db) {
    forall run | run in before.attempts ::
      var a := before.attempts[run];
      && run in after.attempts && after.attempts[run] == a.(state := after.attempts[run].state)
      && (a.state != ACTIVE ==> after.attempts[run] == a && SameEvidence(before, after, a.batchId, a.number))
  }

  ghost predicate AuditsStay(before: Db, after: Db) {
    forall k | k in before.audits :: k in after.audits && after.audits[k] == before.audits[k]
  }

  ghost predicate Settles(before: World, after: World) {
    && StoreGrows(before.store, after.store) && HistoryGrows(before.db, after.db)
    && BatchesSettle(before.db, after.db) && AttemptsSettle(before.db, after.db) && AuditsStay(before.db, after.db)
  }

  lemma SettlesIsReflexive(w: World)
    ensures Settles(w, w)
  {
  }

  lemma SettlesIsTransitive(a: World, b: World, c: World)
    requires Settles(a, b) && Settles(b, c)
    ensures Settles(a, c)
  {
    AttemptsSettleOn(a.db, b.db, c.db);
    hide AttemptsSettle;
  }

  lemma AttemptsSettleOn(a: Db, b: Db, c: Db)
    requires AttemptsSettle(a, b) && AttemptsSettle(b, c)
    ensures AttemptsSettle(a, c)
  {
    forall run | run in a.attempts
      ensures run in c.attempts && c.attempts[run] == a.attempts[run].(state := c.attempts[run].state)
      ensures a.attempts[run].state != ACTIVE ==>
                c.attempts[run] == a.attempts[run] && SameEvidence(a, c, a.attempts[run].batchId,
                    a.attempts[run].number)
    {
      assert run in b.attempts;
    }
  }

  lemma CreateSettles(w: World, c: CreateInput, crash: bool)
    requires IdsOk(w.db)
    ensures Settles(w, CreateOrGet(w, c, crash).1)
  {
    hide ReadsManifest, SealedPayload, HasRunningAttempt, HasUnfinishedBatch, HistoryGrows, BatchesSettle;
    hide AttemptsSettle, IdsOk, InsertBatch;
    var after := CreateOrGet(w, c, crash).1;
    SettlesIsReflexive(w);
    if after.db != w.db {
      InsertSettles(w.db, c, SealedPayload(w.db, c).value);
    }
  }

  lemma InsertSettles(db: Db, c: CreateInput, p: Payload)
    requires IdsOk(db) && c.batchId !in db.batches
    ensures var after := InsertBatch(db, c, p);
            HistoryGrows(db, after) && BatchesSettle(db, after) && AttemptsSettle(db, after) && AuditsStay(db, after)
  {
    hide LogPath;
    AttemptsUntouched(db, InsertBatch(db, c, p));
    hide AttemptsSettle;
  }

  lemma AttemptsUntouched(before: Db, after: Db)
    requires forall run | run in before.attempts :: run in after.attempts && after.attempts[run] == before.attempts[run]
    requires after.evidence == before.evidence
    ensures AttemptsSettle(before, after)
  {
  }

  lemma StartGrows(db: Db, batchId: string, run: string)
    ensures var after := Start(db, batchId, run).1; HistoryGrows(db, after) && BatchesSettle(db, after)
  {
    hide LastNumber, HasRunningAttempt, HistoryGrows, BatchesSettle, Appended;
    var after := Start(db, batchId, run).1;
    if batchId in db.batches && after.batches != db.batches {
      StateMoves(db, after, batchId, RUNNING, [StateEvent(Some(db.batches[batchId].state), RUNNING)]);
    } else {
      NothingMoves(db, after);
    }
  }

  lemma NothingMoves(db: Db, after: Db)
    requires after.batches == db.batches && after.created == db.created && after.published == db.published
    requires after.intervals == db.intervals && after.log == db.log
    ensures HistoryGrows(db, after) && BatchesSettle(db, after)
  {
  }

  /** One unfinished batch moves to another state and its log grows. */
  lemma StateMoves(db: Db, after: Db, id: string, to: BatchState, events: seq<StateEvent>)
    requires id in db.batches && (IsUnfinished(db.batches[id]) || to == db.batches[id].state)
    requires after.batches == db.batches[id := db.batches[id].(state := to)]
             && after.log == Appended(db.log, id, events)
    requires after.created == db.created && db.published <= after.published && db.intervals <= after.intervals
    ensures HistoryGrows(db, after) && BatchesSettle(db, after)
  {
  }

  lemma StartSettles(w: World, batchId: string, run: string)
    ensures Settles(w, w.(db := Start(w.db, batchId, run).1))
  {
    hide LastNumber, HistoryGrows, BatchesSettle;
    StartGrows(w.db, batchId, run);
    AttemptsUntouched(w.db, Start(w.db, batchId, run).1);
    SettlesIsReflexive(w);
    hide AttemptsSettle;
  }

  lemma RecordSettles(w: World, batchId: string, run: string, task: Task, uri: Uri, sha: Digest)
    requires AttemptsOk(w.db) && AuditsOk(w)
    ensures Settles(w, w.(db := Record(w, batchId, run, task, uri, sha).1))
  {
    hide Record, AuditsOk, AttemptsSettle, HistoryGrows, BatchesSettle, AttemptsOk;
    var after := Record(w, batchId, run, task, uri, sha).1;
    RecordEffect(w, batchId, run, task, uri, sha);
    SettlesIsReflexive(w);
    NothingMoves(w.db, after);
    RecordAttemptsSettle(w.db, after, batchId, run);
  }

  /** An open attempt's number is not shared with any attempt that ended. */
  lemma RecordAttemptsSettle(db: Db, after: Db, batchId: string, run: string)
    requires AttemptsOk(db) && after == db.(audits := after.audits, evidence := after.evidence)
    requires after.evidence == db.evidence ||
             (AttemptOpen(db, batchId, run) && exists task, payload ::
                after.evidence == WithEvidence(db, batchId, db.attempts[run].number, task, payload).evidence)
    ensures AttemptsSettle(db, after)
  {
  }

  lemma ReconcileSettles(w: World, batchId: string, run: string, counts: Counts, missing: seq<(string, int)>)
    ensures Settles(w, ReconcileStep(w, batchId, run, counts, missing))
  {
    hide BuildAuditPayload, AuditRules, BatchRows;
    SettlesIsReflexive(w);
    AttemptsUntouched(w.db, w.db);
    hide AttemptsSettle;
  }

  lemma PublishSettles(w: World, batchId: string, run: string, sha: Digest)
    ensures Settles(w, w.(db := Publish(w.db, batchId, run, sha).1))
  {
    hide Publish, EvidenceComplete, AuditPasses, IntervalsOf;
    PublishEffect(w.db, batchId, run, sha);
  }

  lemma FailSettles(w: World, run: string)
    ensures Settles(w, w.(db := FailRun(w.db, run)))
  {
    hide HistoryGrows, BatchesSettle, AttemptsSettle, Appended;
    var after := FailRun(w.db, run);
    FailAttemptsSettle(w.db, run);
    SettlesIsReflexive(w);
    if after.batches != w.db.batches {
      StateMoves(w.db, after, w.db.attempts[run].batchId, FAILED, [StateEvent(Some(RUNNING), FAILED)]);
    } else {
      FailWithoutMove(w.db, run);
      NothingMoves(w.db, after);
    }
  }

  lemma FailWithoutMove(db: Db, run: string)
    requires FailRun(db, run).batches == db.batches
    ensures FailRun(db, run).log == db.log
  {
    hide Appended;
    var id := if run in db.attempts then db.attempts[run].batchId else "";
    if id in db.batches && db.batches[id].state == RUNNING {
      assert db.batches[id := db.batches[id].(state := FAILED)][id] != db.batches[id];
    }
  }

  lemma FailAttemptsSettle(db: Db, run: string)
    ensures AttemptsSettle(db, FailRun(db, run))
  {
    hide Appended;
  }

  lemma SupersedeSettles(w: World, batchId: string)
    ensures Settles(w, w.(db := Supersede(w.db, batchId).1))
  {
  }

  lemma StepSettles(w: World, op: Op)
    requires Inv(w)
    ensures Settles(w, Apply(w, op))
  {
    hide Settles, CreateOrGet, Start, Record, ReconcileStep, Publish, FailRun, Supersede;
    hide IdsOk, UnfinishedIsLast, LogsOk, AttemptsOk, RunningOk, SuccessOk, EvidenceOk, AuditsOk, FilesOk, StoreOk;
    hide ChainOk, BoundariesOk;
    match op
    case OpCreate(c, crash) => CreateSettles(w, c, crash);
    case OpStart(batchId, run) => StartSettles(w, batchId, run);
    case OpRecord(batchId, run, task, uri, sha) => RecordSettles(w, batchId, run, task, uri, sha);
    case OpReconcile(batchId, run, counts, missing) => ReconcileSettles(w, batchId, run, counts, missing);
    case OpPublish(batchId, run, sha) => PublishSettles(w, batchId, run, sha);
    case OpFail(run) => FailSettles(w, run);
    case OpSupersede(batchId) => SupersedeSettles(w, batchId);
  }

  /**
   Whatever happens after step k: stored documents and audit rows stay as they were, event logs,
   publications and intervals only grow, finished batches keep their row and ended attempts keep
   their row and exactly their evidence.
   */
  lemma {:induction false} HistoryNeverChanges(ops: seq<Op>, k: nat)
    requires AdmissibleRun(ops) && k <= |ops|
    ensures Settles(Run(ops[..k]), Run(ops))
  {
    hide Settles, Apply, Inv, Admissible;
    if k == |ops| {
      assert ops[..k] == ops;
      SettlesIsReflexive(Run(ops));
    } else {
      var front := ops[..|ops| - 1];
      AdmissibleFront(ops);
      assert front[..k] == ops[..k];
      HistoryNeverChanges(front, k);
      ReachableInv(front);
      StepSettles(Run(front), ops[|ops| - 1]);
      SettlesIsTransitive(Run(ops[..k]), Run(front), Run(ops));
    }
  }

  lemma AdmissibleFront(ops: seq<Op>)
    requires AdmissibleRun(ops) && ops != []
    ensures AdmissibleRun(ops[..|ops| - 1])
  {
    hide Admissible, Run;
    var front := ops[..|ops| - 1];
    forall i | 0 <= i < |front| ensures Admissible(Run(front[..i]), front[i]) {
      assert front[..i] == ops[..i] && front[i] == ops[i];
    }
  }

  // ---------------------------------------------------------------- what publication proves

  /** The totals every task of a batch reports: those of its partition rows. */
  ghost predicate EvidenceMatches(e: Evidence, b: Batch) {
    && e.sha == b.sha && e.readerMode == BOUNDED
    && e.objects == SumCounts(b.partitions) && e.bytes == SumBytes(b.partitions)
  }

  /** The four task rows and the passing audit row of an attempt, matching its stored evidence file. */
  ghost predicate Proven(w: World, id: string, number: nat) {
    && id in w.db.batches
    && TasksOf(w.db, id, number) == EXPECTED_TASKS
    && (forall k | k in w.db.evidence && k.0 == id && k.1 == number ::
         EvidenceMatches(w.db.evidence[k], w.db.batches[id]))
    && (id, number) in w.db.audits && (id, number) in w.store.auditFiles
    && w.db.audits[(id, number)] == AuditRowOf(w.store.auditFiles[(id, number)])
    && FailedRules(w.store.auditFiles[(id, number)].rules) == 0
  }

  /**
   A successful attempt has exactly the four task rows with its batch's checksum, reader mode and
   partition sums, and a passing audit that matches the stored file.
   */
  lemma SuccessIsProven(ops: seq<Op>, run: string)
    requires AdmissibleRun(ops) && run in Run(ops).db.attempts && Run(ops).db.attempts[run].state == SUCCESS
    ensures var w := Run(ops); Proven(w, w.db.attempts[run].batchId, w.db.attempts[run].number)
  {
    ReachableInv(ops);
    hide Run;
    var w := Run(ops);
    SuccessFacts(w, run);
    ProvenHere(w, w.db.attempts[run].batchId, w.db.attempts[run].number);
  }

  lemma EvidenceIsSum(w: World, k: (string, nat, Task))
    requires EvidenceOk(w.db) && StoreOk(w) && k in w.db.evidence
    ensures k.0 in w.db.batches && EvidenceMatches(w.db.evidence[k], w.db.batches[k.0])
  {
    hide Accepted, SumCounts, SumBytes;
    var payload := w.db.batches[k.0].sha.payload;
    PartitionsAddUp(payload);
    BoundedMode(payload);
  }

  lemma BoundedMode(payload: Payload)
    requires Accepted(payload) && payload.schemaVersion == 3
    ensures payload.readerMode == BOUNDED && payload.objectCount == |payload.objects| && payload.partitions != []
  {
    hide ItemsAccepted, SourceControlOk, AllParse, Bytes;
  }

  lemma SuccessFacts(w: World, run: string)
    requires Inv(w) && run in w.db.attempts && w.db.attempts[run].state == SUCCESS
    ensures var id, number := w.db.attempts[run].batchId, w.db.attempts[run].number;
            && id in w.db.batches && TasksOf(w.db, id, number) == EXPECTED_TASKS
            && (id, number) in w.db.audits && (id, number) in w.store.auditFiles
            && w.db.audits[(id, number)] == AuditRowOf(w.store.auditFiles[(id, number)])
            && FailedRules(w.store.auditFiles[(id, number)].rules) == 0
            && BuiltFile(w.store.auditFiles[(id, number)], id, number, w.db.batches[id].sha.payload)
  {
    hide IdsOk, UnfinishedIsLast, LogsOk, AttemptsOk, RunningOk, EvidenceOk, StoreOk, ChainOk, BoundariesOk, BuiltFile;
    hide FailedRules;
  }

  /** Evidence of a run that read every sealed object exactly once and lost no target key. */
  ghost predicate CompleteFile(file: AuditPayload, id: string, number: nat, payload: Payload) {
    exists run, counts: Counts, missing: seq<(string, int)> | DistinctTables(missing) ::
      && file == BuildAuditPayload(id, number, run, payload, AuditRules(BatchRows(payload, counts, missing)))
      && counts.events == counts.coordinates == counts.accepted + counts.quarantined == payload.objectCount
      && forall i | 0 <= i < |missing| :: missing[i].1 == 0
  }

  lemma PassingFileIsComplete(file: AuditPayload, id: string, number: nat, payload: Payload)
    requires BuiltFile(file, id, number, payload) && FailedRules(file.rules) == 0 && payload.partitions != []
    ensures CompleteFile(file, id, number, payload) && SourceBalanced(payload.sourceControl)
  {
    hide SourceBalanced, BuildAuditPayload, AuditRules, BatchRows, DistinctTables, FailedRules;
    var writer, counts, missing :| DistinctTables(missing)
      && file == BuildAuditPayload(id, number, writer, payload, AuditRules(BatchRows(payload, counts, missing)));
    EvidencePassesExactlyWhenComplete(id, number, writer, payload, counts, missing);
  }

  /**
   A published batch is proven by a run that read every sealed object once and lost no target key,
   and its frozen source control is balanced: nothing untracked, every listed transaction complete.
   */
  lemma PublishedIsComplete(w: World, id: string)
    requires Inv(w) && id in w.db.batches && w.db.batches[id].state == PUBLISHED
    ensures var payload := w.db.batches[id].sha.payload;
            && SourceBalanced(payload.sourceControl) && payload.objectCount == |payload.objects|
            && exists number :: Proven(w, id, number)
                 && CompleteFile(w.store.auditFiles[(id, number)], id, number, payload)
  {
    hide SourceBalanced, FailedRules, Accepted, BuiltFile;
    var run := SuccessfulRun(w.db, id);
    SuccessFacts(w, run);
    var payload := w.db.batches[id].sha.payload;
    BoundedMode(payload);
    ProvenHere(w, id, w.db.attempts[run].number);
    PassingFileIsComplete(w.store.auditFiles[(id, w.db.attempts[run].number)], id, w.db.attempts[run].number, payload);
  }

  lemma ProvenHere(w: World, id: string, number: nat)
    requires EvidenceOk(w.db) && StoreOk(w) && id in w.db.batches && TasksOf(w.db, id, number) == EXPECTED_TASKS
    requires (id, number) in w.db.audits && (id, number) in w.store.auditFiles
    requires w.db.audits[(id, number)] == AuditRowOf(w.store.auditFiles[(id, number)])
    requires FailedRules(w.store.auditFiles[(id, number)].rules) == 0
    ensures Proven(w, id, number)
  {
    hide EvidenceOk, StoreOk, EvidenceMatches;
    forall k | k in w.db.evidence && k.0 == id && k.1 == number
      ensures EvidenceMatches(w.db.evidence[k], w.db.batches[id])
    {
      EvidenceIsSum(w, k);
    }
  }

  ghost function SuccessfulRun(db: Db, id: string): (run: string)
    requires SuccessOk(db) && id in db.batches && db.batches[id].state == PUBLISHED
    ensures run in db.attempts && db.attempts[run].batchId == id && db.attempts[run].state == SUCCESS
  {
    var run :| run in db.attempts && db.attempts[run].batchId == id && db.attempts[run].state == SUCCESS;
    run
  }

  // ---------------------------------------------------------------- manifests and their rows

  /**
   In every reachable state, a crash between manifest write and commit included, each batch row
   points at a stored document with its checksum and id, and repeats that document's bounds and
   source control.
   */
  lemma RowsMatchTheirManifests(ops: seq<Op>, id: string)
    requires AdmissibleRun(ops) && id in Run(ops).db.batches
    ensures var w := Run(ops);
            var b := w.db.batches[id];
            && b.uri in w.store.manifests && w.store.manifests[b.uri] == Document(b.sha, b.sha.payload)
            && b.sha == Sha256(w.store.manifests[b.uri].payload) && b.sha.payload.batchId == id
                 && Accepted(b.sha.payload)
            && b.partitions == b.sha.payload.partitions && b.sha.payload.sourceControl.Some?
            && SameControl(b, b.sha.payload.sourceControl.value)
  {
    hide IdsOk, UnfinishedIsLast, LogsOk, AttemptsOk, RunningOk, EvidenceOk, AuditsOk, FilesOk, SuccessOk, ChainOk;
    hide BoundariesOk;
    hide Run, Accepted, AdmissibleRun;
    ReachableInv(ops);
  }

  /**
   Asking again for an existing batch changes nothing and returns its own checksum, whatever else is
   given, as long as the discovery that comes first finds distinct objects.
   */
  lemma ExistingBatchIsReturned(w: World, c: CreateInput, crash: bool)
    requires Inv(w) && c.batchId in w.db.batches
    ensures CreateOrGet(w, c, crash) ==
              (if c.batchId == "" || |c.batchId| > 250 then Err(BadBatchId)
               else match Discover(c.page)
                    case Err(error) => Err(ManifestFailure(error))
                    case Ok(_) => Ok(w.db.batches[c.batchId].sha), w)
    ensures Discover(c.page).Ok? <==>
              Parsed(c.page) != [] && UniqueCoordinates(Parsed(c.page)) && UniqueKeys(Parsed(c.page))
  {
    hide ReadsManifest, IdsOk, UnfinishedIsLast, LogsOk, AttemptsOk, RunningOk, EvidenceOk, AuditsOk, FilesOk;
    hide SuccessOk, ChainOk, BoundariesOk;
  }

  /**
   A manifest written by a crashed creation stays without a row. Creating its batch later succeeds
   exactly when the tables admit a new batch and the payload sealed now is the stored one.
   */
  lemma OrphanedManifestDecides(w: World, c: CreateInput)
    requires Inv(w) && c.batchId !in w.db.batches && ManifestUri(c.batchId) in w.store.manifests
    ensures CreateOrGet(w, c, false).0.Ok? <==>
              && 0 < |c.batchId| <= 250 && Discover(c.page).Ok? && !HasRunningAttempt(w.db) && !HasUnfinishedBatch(w.db)
              && SealedPayload(w.db, c) == Ok(w.store.manifests[ManifestUri(c.batchId)].payload)
    ensures c.now != w.store.manifests[ManifestUri(c.batchId)].payload.createdAt ==> CreateOrGet(w, c, false).0.Err?
  {
    hide IdsOk, UnfinishedIsLast, LogsOk, AttemptsOk, RunningOk, EvidenceOk, AuditsOk, FilesOk, SuccessOk, ChainOk;
    hide BoundariesOk;
    hide ReadsManifest, HasRunningAttempt, HasUnfinishedBatch;
    if SealedPayload(w.db, c).Ok? {
      SealedNow(w.db, c);
    }
    hide SealedPayload;
  }

  lemma SealedNow(db: Db, c: CreateInput)
    requires SealedPayload(db, c).Ok?
    ensures SealedPayload(db, c).value.createdAt == c.now
  {
    hide AllParse, FirstError, Selected, Bounds, Bytes, Sort, SourceControlFor, PreviousHighs, PublishedBoundary;
    hide AllReadable;
  }
}
