/**
 What the published manifests say together about Bronze and about the source ledger.

 Bronze, its bodies and the ledger are append-only, so every step sees a part of one final
 history; a listing shows, with an object, every earlier offset of its partition.
 */
module Publication {
  import opened Wrappers
  import opened Ordering
  import opened Encodings
  import opened Manifest
  import opened ManifestValidation
  import opened LedgerControl
  import opened Audit
  import opened Control
  import opened ControlInvariant
  import opened ControlGuarantees

  datatype History = History(bronze: seq<BronzeObject>, bodies: map<string, Body>, ledger: seq<LedgerRow>)

  ghost predicate Sees(h: History, c: CreateInput) {
    && (forall o | o in Listing(c) :: o in h.bronze)
    && (forall o, p | o in Listing(c) && p in h.bronze && Precedes(p, o) :: p in Listing(c))
    && (forall k | k in c.bodies :: k in h.bodies && c.bodies[k] == h.bodies[k])
    && (forall r | r in c.ledger :: r in h.ledger)
  }

  /** Same partition, no larger offset. */
  predicate Precedes(p: BronzeObject, o: BronzeObject) {
    ItemOf(p).Some? && ItemOf(o).Some? && Id(ItemOf(p).value) == Id(ItemOf(o).value)
        && ItemOf(p).value.offset <= ItemOf(o).value.offset
  }

  ghost predicate RunIn(h: History, ops: seq<Op>) {
    && LedgerOk(h.ledger) && AdmissibleRun(ops)
    && forall i | 0 <= i < |ops| && ops[i].OpCreate? :: Sees(h, ops[i].c)
  }

  // ---------------------------------------------------------------- what every manifest holds

  /** A manifest holds exactly the Bronze objects inside its bounds. */
  ghost predicate TakesInterval(h: History, p: Payload) {
    forall o :: o in p.objects <==> o in h.bronze && ItemOf(o).Some? && WithinSome(p.partitions, ItemOf(o).value)
  }

  ghost predicate ControlledBy(h: History, p: Payload, previous: Option<int>, ledger: seq<LedgerRow>) {
    && LedgerOk(ledger) && (forall r | r in ledger :: r in h.ledger)
    && AllReadable(h.bodies, p.objects)
    && p.sourceControl == Some(SourceControlFor(previous, ledger, Events(h.bodies, p.objects)))
  }

  ghost predicate Controlled(h: History, p: Payload) {
    exists previous, ledger :: ControlledBy(h, p, previous, ledger)
  }

  ghost predicate SealedIn(h: History, db: Db) {
    forall id | id in db.batches :: TakesInterval(h, db.batches[id].sha.payload)
        && Controlled(h, db.batches[id].sha.payload)
  }

  lemma ObjectIsItem(objects: seq<BronzeObject>, o: BronzeObject)
    requires AllParse(objects)
    ensures o in objects <==> ItemOf(o).Some? && ItemOf(o).value in Items(objects)
  {
    hide ParseBronzeCoordinate;
    if o in objects {
      var i :| 0 <= i < |objects| && objects[i] == o;
      assert Items(objects)[i] == ItemOf(o).value;
    }
    if ItemOf(o).Some? && ItemOf(o).value in Items(objects) {
      var i :| 0 <= i < |objects| && Items(objects)[i] == ItemOf(o).value;
      assert objects[i] == o by { assert ItemOf(objects[i]).value.file == ItemOf(o).value.file; }
    }
  }

  lemma WithinMeansNew(items: seq<Item>, highs: map<Identity, int>, p: Payload, x: Item)
    requires SealsInterval(p, items, highs) && x in items
    ensures Low(highs, Id(x)) < x.offset <==> WithinSome(p.partitions, x)
  {
    hide SortedBy, UniqueCoordinates, UniqueKeys, CountsExact, AllParse, Bytes, PartitionsAccepted;
    if Low(highs, Id(x)) < x.offset {
      var k :| 0 <= k < |p.partitions| && BoundIds(p.partitions)[k] == Id(x);
      assert p.partitions[k] in p.partitions;
    }
    if WithinSome(p.partitions, x) {
      var k :| 0 <= k < |p.partitions| && BoundId(p.partitions[k]) == Id(x)
          && p.partitions[k].low < x.offset <= p.partitions[k].high;
      assert p.partitions[k] in p.partitions;
    }
  }

  lemma WithinIsListed(h: History, c: CreateInput, highs: map<Identity, int>, p: Payload, o: BronzeObject)
    requires Sees(h, c) && AllParse(Listing(c)) && SealsInterval(p, Items(Listing(c)), highs)
    requires o in h.bronze && ItemOf(o).Some? && WithinSome(p.partitions, ItemOf(o).value)
    ensures o in Listing(c)
  {
    hide ParseBronzeCoordinate;
    hide SortedBy, UniqueCoordinates, UniqueKeys, CountsExact, Bytes, PartitionsAccepted;
    var x := ItemOf(o).value;
    var k :| 0 <= k < |p.partitions| && BoundId(p.partitions[k]) == Id(x)
        && p.partitions[k].low < x.offset <= p.partitions[k].high;
    var b := p.partitions[k];
    assert b in p.partitions;
    var y :| y in Items(Listing(c)) && Id(y) == BoundId(b) && y.offset == b.high;
    var i :| 0 <= i < |Listing(c)| && Items(Listing(c))[i] == y;
    assert Listing(c)[i] in Listing(c) && Precedes(o, Listing(c)[i]);
  }

  lemma SealTakesInterval(h: History, db: Db, c: CreateInput)
    requires Sees(h, c) && SealedPayload(db, c).Ok?
    ensures TakesInterval(h, SealedPayload(db, c).value)
  {
    hide ParseBronzeCoordinate, SealedPayload, PreviousHighs;
    SealedSeals(db, c);
    var p, items, highs := SealedPayload(db, c).value, Items(Listing(c)), PreviousHighs(db);
    forall o ensures o in p.objects <==> o in h.bronze && ItemOf(o).Some? && WithinSome(p.partitions, ItemOf(o).value) {
      hide WithinSome, Sees;
      ObjectIsItem(p.objects, o);
      ObjectIsItem(Listing(c), o);
      if o in p.objects {
        WithinMeansNew(items, highs, p, ItemOf(o).value);
        assert o in h.bronze by { SeenIsBronze(h, c, o); }
      }
      if o in h.bronze && ItemOf(o).Some? && WithinSome(p.partitions, ItemOf(o).value) {
        WithinIsListed(h, c, highs, p, o);
        WithinMeansNew(items, highs, p, ItemOf(o).value);
      }
    }
  }

  lemma SeenIsBronze(h: History, c: CreateInput, o: BronzeObject)
    requires Sees(h, c) && o in Listing(c)
    ensures o in h.bronze
  {
  }

  lemma SealIsControlled(h: History, db: Db, c: CreateInput)
    requires Sees(h, c) && LedgerOk(c.ledger) && SealedPayload(db, c).Ok?
    ensures Controlled(h, SealedPayload(db, c).value)
  {
    hide AllParse, FirstError, Selected, Bounds, Bytes, Sort, SourceControlFor, PreviousHighs, PublishedBoundary;
    hide LedgerOk;
    var p := SealedPayload(db, c).value;
    BodiesAgree(c.bodies, h.bodies, p.objects);
    assert ControlledBy(h, p, PublishedBoundary(db.batches, db.published), c.ledger);
  }

  lemma BodiesAgree(seen: map<string, Body>, all: map<string, Body>, objects: seq<BronzeObject>)
    requires forall k | k in seen :: k in all && seen[k] == all[k]
    requires AllReadable(seen, objects)
    ensures AllReadable(all, objects) && Events(all, objects) == Events(seen, objects)
  {
    hide Readable;
    forall i | 0 <= i < |objects|
      ensures objects[i].objectKey in all && Readable(objects[i].objectKey, all[objects[i].objectKey])
    {
    }
  }

  /** Batches appear only by sealing, and their sealed payload never changes. */
  lemma StepKeepsSealed(h: History, w: World, op: Op)
    requires Inv(w) && Admissible(w, op) && SealedIn(h, w.db) && (op.OpCreate? ==> Sees(h, op.c))
    ensures SealedIn(h, Apply(w, op).db)
  {
    hide TakesInterval, Controlled, Sees, SealedPayload, ReadsManifest, Inv, AllIntervals;
    hide HasRunningAttempt, HasUnfinishedBatch, StoreAudit, LastNumber, EvidenceComplete, AuditPasses, ExclusionHolds;
    hide IntervalsOf;
    hide BuildAuditPayload, AuditRules, BatchRows, ManifestConflicts;
    if op.OpCreate? {
      if SealedPayload(w.db, op.c).Ok? {
        SealTakesInterval(h, w.db, op.c);
        SealIsControlled(h, w.db, op.c);
      }
    } else {
      StepSettles(w, op);
      BatchesOnlyFromCreate(w, op);
    }
  }

  lemma BatchesOnlyFromCreate(w: World, op: Op)
    requires !op.OpCreate?
    ensures Apply(w, op).db.batches.Keys == w.db.batches.Keys
  {
    hide OfAttempt, AuditAccepted, LastNumber, EvidenceComplete, AuditPasses, ExclusionHolds, IntervalsOf;
    hide ReadsManifest;
    hide BuildAuditPayload, AuditRules, BatchRows, HasRunningAttempt, Appended;
  }

  lemma {:induction false} ReachableSealed(h: History, ops: seq<Op>)
    requires RunIn(h, ops)
    ensures SealedIn(h, Run(ops).db)
  {
    hide Admissible, Apply, Sees, Inv, LedgerOk;
    if ops != [] {
      var front := ops[..|ops| - 1];
      AdmissibleFront(ops);
      forall i | 0 <= i < |front| && front[i].OpCreate? ensures Sees(h, front[i].c) { assert front[i] == ops[i]; }
      ReachableSealed(h, front);
      ReachableInv(front);
      StepKeepsSealed(h, Run(front), ops[|ops| - 1]);
    }
  }

  // ---------------------------------------------------------------- coverage

  /** The n-th publication holds the object. */
  ghost predicate Holds(db: Db, k: int, o: BronzeObject) {
    0 <= k < |db.published| && db.published[k] in db.batches && o in db.batches[db.published[k]].sha.payload.objects
  }

  /** The object lies at or below the highs. */
  ghost predicate Below(highs: map<Identity, int>, o: BronzeObject) {
    ItemOf(o).Some? && ItemOf(o).value.offset <= Low(highs, Id(ItemOf(o).value))
  }

  lemma {:induction false} HighsOfLookup(bounds: seq<Bound>, k: nat)
    requires k < |bounds| && forall i, j | 0 <= i < j < |bounds| :: BoundId(bounds[i]) != BoundId(bounds[j])
    ensures BoundId(bounds[k]) in HighsOf(bounds) && HighsOf(bounds)[BoundId(bounds[k])] == bounds[k].high
  {
    if k < |bounds| - 1 { HighsOfLookup(bounds[..|bounds| - 1], k); }
  }

  lemma DistinctBounds(bounds: seq<Bound>)
    requires PartitionsAccepted(bounds)
    ensures forall i, j | 0 <= i < j < |bounds| :: BoundId(bounds[i]) != BoundId(bounds[j])
    ensures forall i | 0 <= i < |bounds| :: bounds[i].low <= bounds[i].high
  {
    forall i, j | 0 <= i < j < |bounds| ensures BoundId(bounds[i]) != BoundId(bounds[j]) {
      assert BoundIds(bounds)[i] != BoundIds(bounds)[j];
    }
  }

  /** Bounds that continue the highs advance them over exactly their own interval. */
  lemma AdvanceByInterval(highs: map<Identity, int>, bounds: seq<Bound>, x: Item)
    requires Continues(highs, bounds)
    ensures x.offset <= Low(HighsOf(bounds), Id(x)) <==> x.offset <= Low(highs, Id(x)) || WithinSome(bounds, x)
    ensures WithinSome(bounds, x) ==> Low(highs, Id(x)) < x.offset
  {
    DistinctBounds(bounds);
    HighsOfExact(bounds);
    SamePartitions(bounds, x);
    if Id(x) in BoundIds(bounds) {
      var k :| 0 <= k < |bounds| && BoundIds(bounds)[k] == Id(x);
      HighsOfLookup(bounds, k);
      assert bounds[k] in bounds;
      WithinOwnBound(bounds, k, x);
    }
  }

  lemma SamePartitions(bounds: seq<Bound>, x: Item)
    ensures Id(x) in BoundIds(bounds) <==> Id(x) in HighsOf(bounds)
    ensures WithinSome(bounds, x) ==> Id(x) in BoundIds(bounds)
  {
    HighsOfExact(bounds);
    forall k | 0 <= k < |bounds| ensures BoundIds(bounds)[k] == BoundId(bounds[k]) {
    }
    hide HighsOf;
    if Id(x) in HighsOf(bounds) {
      var k :| 0 <= k < |bounds| && BoundId(bounds[k]) == Id(x);
      assert BoundIds(bounds)[k] == Id(x);
    }
  }

  lemma WithinOwnBound(bounds: seq<Bound>, k: nat, x: Item)
    requires k < |bounds| && BoundId(bounds[k]) == Id(x)
    requires forall i, j | 0 <= i < j < |bounds| :: BoundId(bounds[i]) != BoundId(bounds[j])
    ensures WithinSome(bounds, x) <==> bounds[k].low < x.offset <= bounds[k].high
  {
  }

  ghost predicate Covered(h: History, db: Db, n: nat)
    requires n <= |db.published|
  {
    forall o :: (exists k :: k < n && Holds(db, k, o)) <==> o in h.bronze && Below(HighsAt(db, n), o)
  }

  lemma PublicationTakes(h: History, db: Db, k: nat, o: BronzeObject)
    requires IdsOk(db) && ChainOk(db) && SealedIn(h, db) && k < |db.published|
    requires forall id | id in db.batches :: db.batches[id].partitions == db.batches[id].sha.payload.partitions
    ensures Holds(db, k, o) ==> o in h.bronze && ItemOf(o).Some?
    ensures o in h.bronze && ItemOf(o).Some? ==>
              (Below(HighsAt(db, k + 1), o) <==> Below(HighsAt(db, k), o) || Holds(db, k, o))
    ensures Holds(db, k, o) ==> !Below(HighsAt(db, k), o)
  {
    hide ParseBronzeCoordinate, Continues, Controlled, BoundariesOk, HighsOf, WithinSome;
    assert db.published[k] in db.published;
    if o in h.bronze && ItemOf(o).Some? {
      AdvanceByInterval(HighsAt(db, k), db.batches[db.published[k]].partitions, ItemOf(o).value);
    }
  }

  lemma {:induction false} PublicationsCover(h: History, db: Db, n: nat)
    requires IdsOk(db) && ChainOk(db) && SealedIn(h, db) && n <= |db.published|
    requires forall id | id in db.batches :: db.batches[id].partitions == db.batches[id].sha.payload.partitions
    ensures Covered(h, db, n)
  {
    hide IdsOk, ChainOk, SealedIn, ParseBronzeCoordinate;
    if n == 0 {
      hide Holds;
      forall o | ItemOf(o).Some? ensures !Below(HighsAt(db, 0), o) {
      }
    } else {
      PublicationsCover(h, db, n - 1);
      forall o ensures (exists k :: k < n && Holds(db, k, o)) <==> o in h.bronze && Below(HighsAt(db, n), o) {
        PublicationTakes(h, db, n - 1, o);
        hide Holds, HighsAt;
        assert (exists k :: k < n && Holds(db, k, o)) <==>
            (exists k :: k < n - 1 && Holds(db, k, o)) || Holds(db, n - 1, o);
      }
    }
  }

  /** The legacy reader keeps events at or below some bound's high. */
  ghost predicate LegacySelects(bounds: seq<Bound>, x: Item) {
    exists i | 0 <= i < |bounds| :: BoundId(bounds[i]) == Id(x) && x.offset <= bounds[i].high
  }

  /**
   Every Bronze object at or below its partition's published high is in exactly one published
   manifest, once; no other object is in any.
   */
  lemma EachObjectIsPublishedOnce(h: History, ops: seq<Op>, o: BronzeObject)
    requires RunIn(h, ops)
    ensures var db := Run(ops).db;
            && ((exists k :: Holds(db, k, o)) <==> o in h.bronze && Below(PreviousHighs(db), o))
            && (forall j, k | Holds(db, j, o) && Holds(db, k, o) :: j == k)
            && (forall k | Holds(db, k, o) :: UniqueObjects(db.batches[db.published[k]].sha.payload))
  {
    ReachableInv(ops);
    ReachableSealed(h, ops);
    hide Run, IdsOk, ChainOk, SealedIn, Covered, PreviousHighs, Below, RunIn, UniqueObjects;
    hide UnfinishedIsLast, LogsOk, AttemptsOk, RunningOk, EvidenceOk, AuditsOk, FilesOk, SuccessOk, StoreOk;
    hide BoundariesOk, AllIntervals;
    var db := Run(ops).db;
    PayloadsOfBatches(Run(ops));
    PublicationsCover(h, db, |db.published|);
    AllCovered(h, db, o);
    HoldsOnce(h, db, o);
  }

  lemma AllCovered(h: History, db: Db, o: BronzeObject)
    requires Covered(h, db, |db.published|)
    ensures (exists k :: Holds(db, k, o)) <==> o in h.bronze && Below(PreviousHighs(db), o)
  {
    hide Below;
    PreviousIsLast(db);
    assert (exists k :: Holds(db, k, o)) <==> (exists k :: k < |db.published| && Holds(db, k, o));
  }

  ghost predicate UniqueObjects(p: Payload) {
    forall a, b | 0 <= a < b < |p.objects| :: p.objects[a] != p.objects[b]
  }

  lemma PayloadsOfBatches(w: World)
    requires Inv(w)
    ensures forall id | id in w.db.batches ::
              w.db.batches[id].partitions == w.db.batches[id].sha.payload.partitions
                  && UniqueObjects(w.db.batches[id].sha.payload)
  {
    hide IdsOk, UnfinishedIsLast, LogsOk, AttemptsOk, RunningOk, EvidenceOk, AuditsOk, FilesOk, SuccessOk, ChainOk;
    hide BoundariesOk;
    hide Accepted;
    forall id | id in w.db.batches ensures UniqueObjects(w.db.batches[id].sha.payload) {
      AcceptedIsUnique(w.db.batches[id].sha.payload);
    }
  }

  lemma AcceptedIsUnique(p: Payload)
    requires Accepted(p) && p.schemaVersion == 3
    ensures UniqueObjects(p)
  {
    hide SourceControlOk, ParseBronzeCoordinate, Fits, CountsExact, Bytes, PartitionsAccepted;
    forall a, b | 0 <= a < b < |p.objects| ensures p.objects[a] != p.objects[b] {
      assert Items(p.objects)[a].file.objectKey != Items(p.objects)[b].file.objectKey;
    }
  }

  lemma HoldsOnce(h: History, db: Db, o: BronzeObject)
    requires IdsOk(db) && ChainOk(db) && SealedIn(h, db)
    requires forall id | id in db.batches :: db.batches[id].partitions == db.batches[id].sha.payload.partitions
    ensures forall j, k | Holds(db, j, o) && Holds(db, k, o) :: j == k
  {
    forall j, k | Holds(db, j, o) && Holds(db, k, o) && j < k ensures false {
      PublicationsCover(h, db, k);
      PublicationTakes(h, db, k, o);
    }
  }

  /** All published manifests together hold what the legacy reader selects under the last one's highs. */
  lemma UnionIsTheCappedReader(h: History, ops: seq<Op>, o: BronzeObject)
    requires RunIn(h, ops) && Run(ops).db.published != []
    ensures var db := Run(ops).db;
            var last := db.published[|db.published| - 1];
            && last in db.batches
            && ((exists k :: Holds(db, k, o)) <==>
                o in h.bronze && ItemOf(o).Some? && LegacySelects(db.batches[last].partitions, ItemOf(o).value))
  {
    hide Run, Holds, HighsOf, LegacySelects, PartitionsAccepted, UniqueObjects;
    hide UnfinishedIsLast, LogsOk, AttemptsOk, RunningOk, EvidenceOk, AuditsOk, FilesOk, SuccessOk, StoreOk, ChainOk;
    hide BoundariesOk, AllIntervals;
    EachObjectIsPublishedOnce(h, ops, o);
    ReachableInv(ops);
    var db := Run(ops).db;
    var last := db.published[|db.published| - 1];
    assert last in db.published;
    LastContinues(db);
    if ItemOf(o).Some? {
      LegacyIsBelow(db.batches[last].partitions, ItemOf(o).value);
    }
  }

  lemma LastContinues(db: Db)
    requires ChainOk(db) && IdsOk(db) && db.published != []
    ensures PartitionsAccepted(db.batches[db.published[|db.published| - 1]].partitions)
  {
    assert db.published[|db.published| - 1] in db.published;
  }

  lemma LegacyIsBelow(bounds: seq<Bound>, x: Item)
    requires PartitionsAccepted(bounds)
    ensures LegacySelects(bounds, x) <==> x.offset <= Low(HighsOf(bounds), Id(x))
  {
    DistinctBounds(bounds);
    HighsOfExact(bounds);
    if Id(x) in HighsOf(bounds) {
      var k :| 0 <= k < |bounds| && BoundId(bounds[k]) == Id(x);
      HighsOfLookup(bounds, k);
    }
  }
}
