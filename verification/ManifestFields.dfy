/**
 Manifests in the fields of their documents: which documents are accepted, and which payload a listing
 and the previous highs determine.
 */
module ManifestFields {
  import opened Wrappers
  import opened Ordering
  import opened Encodings
  import opened Manifest
  import opened ManifestValidation

  function CoordinateOf(o: BronzeObject): Option<Coordinate> {
    ParseBronzeCoordinate(o.objectKey)
  }

  predicate InPart(o: BronzeObject, topic: string, partition: int) {
    CoordinateOf(o).Some? && CoordinateOf(o).value.topic == topic && CoordinateOf(o).value.partition == partition
  }

  /** Both keys name a coordinate, and the first names the smaller one. */
  ghost predicate Earlier(a: BronzeObject, b: BronzeObject) {
    && CoordinateOf(a).Some? && CoordinateOf(b).Some?
    && var c, d := CoordinateOf(a).value, CoordinateOf(b).value;
       || Precedes(c.topic, d.topic)
       || (c.topic == d.topic && (c.partition < d.partition || (c.partition == d.partition && c.offset < d.offset)))
  }

  function Positions(objects: seq<BronzeObject>, topic: string, partition: int): set<nat> {
    set i: nat | i < |objects| && InPart(objects[i], topic, partition)
  }

  function PartSize(objects: seq<BronzeObject>, topic: string, partition: int): int {
    if objects == [] then 0 else
    PartSize(objects[..|objects| - 1], topic, partition)
    + if InPart(objects[|objects| - 1], topic, partition) then objects[|objects| - 1].sizeBytes else 0
  }

  function TotalSize(objects: seq<BronzeObject>): int {
    if objects == [] then 0 else TotalSize(objects[..|objects| - 1]) + objects[|objects| - 1].sizeBytes
  }

  // ---------------------------------------------------------------- what is accepted

  ghost predicate BoundsInOrder(bounds: seq<Bound>) {
    && bounds != []
    && (forall i | 0 <= i < |bounds| ::
          bounds[i].topic != "" && bounds[i].partition >= 0 && bounds[i].low <= bounds[i].high)
    && (forall i, j | 0 <= i < j < |bounds| ::
          || Precedes(bounds[i].topic, bounds[j].topic)
          || (bounds[i].topic == bounds[j].topic && bounds[i].partition < bounds[j].partition))
  }

  /** A named object of a size that is not negative, above the low and not above the high of its partition. */
  ghost predicate ObjectInBounds(bounds: seq<Bound>, o: BronzeObject) {
    && o.objectKey != "" && o.sizeBytes >= 0
    && exists b :: b in bounds && InPart(o, b.topic, b.partition) && b.low < CoordinateOf(o).value.offset <= b.high
  }

  ghost predicate ObjectsInOrder(bounds: seq<Bound>, objects: seq<BronzeObject>) {
    && (forall i | 0 <= i < |objects| :: ObjectInBounds(bounds, objects[i]))
    && (forall i, j | 0 <= i < j < |objects| :: Earlier(objects[i], objects[j]))
    && (forall b | b in bounds :: b.objectCount == |Positions(objects, b.topic, b.partition)|
                                  && b.inputBytes == PartSize(objects, b.topic, b.partition))
  }

  lemma IdsInOrder(a: Bound, b: Bound)
    ensures IdLe(BoundId(a), BoundId(b)) && BoundId(a) != BoundId(b) <==>
              Precedes(a.topic, b.topic) || (a.topic == b.topic && a.partition < b.partition)
  {
    PrecedesExactly(a.topic, b.topic);
  }

  lemma BoundsAreAcceptedExactly(bounds: seq<Bound>)
    ensures PartitionsAccepted(bounds) <==> BoundsInOrder(bounds)
  {
    hide IdLe, Precedes;
    forall i, j | 0 <= i < j < |bounds|
      ensures IdLe(BoundIds(bounds)[i], BoundIds(bounds)[j]) && BoundIds(bounds)[i] != BoundIds(bounds)[j] <==>
                Precedes(bounds[i].topic, bounds[j].topic)
                || (bounds[i].topic == bounds[j].topic && bounds[i].partition < bounds[j].partition)
    {
      IdsInOrder(bounds[i], bounds[j]);
    }
  }

  lemma ItemInFields(o: BronzeObject)
    ensures ItemOf(o).Some? <==> CoordinateOf(o).Some?
    ensures ItemOf(o).Some? ==>
              var c := CoordinateOf(o).value; ItemOf(o).value == Item(o, c.topic, c.partition, c.offset)
  {
    hide ParseBronzeCoordinate;
  }

  lemma FitsExactly(bounds: seq<Bound>, o: BronzeObject)
    ensures ItemOf(o).Some? && Fits(bounds, ItemOf(o).value) <==> ObjectInBounds(bounds, o)
  {
    ItemInFields(o);
    hide ParseBronzeCoordinate;
    if ItemOf(o).Some? {
      if i :| 0 <= i < |bounds| && BoundId(bounds[i]) == Id(ItemOf(o).value)
              && bounds[i].low < ItemOf(o).value.offset <= bounds[i].high {
        assert bounds[i] in bounds;
      }
    }
  }

  lemma {:induction false} GroupInFields(objects: seq<BronzeObject>, topic: string, partition: int)
    requires AllParse(objects)
    ensures var group := InPartition(Items(objects), (topic, partition));
            |group| == |Positions(objects, topic, partition)| && Bytes(group) == PartSize(objects, topic, partition)
  {
    if objects != [] {
      var n := |objects| - 1;
      var front, o := objects[..n], objects[n];
      assert objects[..n + 1] == objects;
      hide ParseBronzeCoordinate, Id, InPart, Positions, ItemOf, InPartition, Bytes;
      ItemsGrow(objects, n);
      GroupInFields(front, topic, partition);
      GroupTotalsGrow(Items(front), ItemOf(o).value, (topic, partition));
      SameGroup(o, topic, partition);
      PositionsGrow(objects, topic, partition);
    }
  }

  lemma PositionsGrow(objects: seq<BronzeObject>, topic: string, partition: int)
    requires objects != []
    ensures |Positions(objects, topic, partition)| == |Positions(objects[..|objects| - 1], topic, partition)|
              + if InPart(objects[|objects| - 1], topic, partition) then 1 else 0
  {
    hide InPart;
    var n := |objects| - 1;
    assert Positions(objects, topic, partition)
        == Positions(objects[..n], topic, partition) + if InPart(objects[n], topic, partition) then {n} else {};
  }

  lemma {:induction false} SizeInFields(objects: seq<BronzeObject>)
    requires AllParse(objects)
    ensures Bytes(Items(objects)) == TotalSize(objects)
  {
    if objects != [] {
      var n := |objects| - 1;
      assert objects[..n + 1] == objects;
      KeyHasTopic(objects[n]);
      hide ParseBronzeCoordinate, ItemOf;
      ItemsGrow(objects, n);
      SizeInFields(objects[..n]);
      assert Items(objects)[..n] == Items(objects[..n]);
    }
  }

  lemma SameGroup(o: BronzeObject, topic: string, partition: int)
    ensures ItemOf(o).Some? ==>
              (Id(ItemOf(o).value) == (topic, partition) <==> InPart(o, topic, partition))
              && ItemOf(o).value.file == o
  {
    ItemInFields(o);
    hide ParseBronzeCoordinate;
  }

  lemma ItemsInOrder(a: Item, b: Item)
    requires ItemOf(a.file) == Some(a) && ItemOf(b.file) == Some(b)
    ensures (ManifestLe(a, b) && !(Id(a) == Id(b) && a.offset == b.offset)) <==> Earlier(a.file, b.file)
  {
    ItemInFields(a.file);
    ItemInFields(b.file);
    PrecedesExactly(a.topic, b.topic);
    hide ParseBronzeCoordinate, Precedes, StringLe;
  }

  /** Sorted without a repeated key or coordinate means strictly increasing by coordinate. */
  lemma OrderInFields(objects: seq<BronzeObject>)
    requires AllParse(objects)
    ensures SortedBy(ManifestLe, Items(objects)) && UniqueKeys(Items(objects)) && UniqueCoordinates(Items(objects))
       <==> forall i, j | 0 <= i < j < |objects| :: Earlier(objects[i], objects[j])
  {
    var items := Items(objects);
    ItemsAreWellParsed(objects);
    forall i | 0 <= i < |objects| ensures items[i].file == objects[i] { KeyHasTopic(objects[i]); }
    hide ParseBronzeCoordinate, ItemOf, Earlier, ManifestLe, Id;
    forall i, j | 0 <= i < j < |objects|
      ensures (ManifestLe(items[i], items[j])
               && !(Id(items[i]) == Id(items[j]) && items[i].offset == items[j].offset))
         <==> Earlier(objects[i], objects[j])
    {
      ItemsInOrder(items[i], items[j]);
    }
    if forall i, j | 0 <= i < j < |objects| :: Earlier(objects[i], objects[j]) {
      WellParsedKeysAreUnique(items);
    }
  }

  lemma ObjectsAreAcceptedExactly(bounds: seq<Bound>, objects: seq<BronzeObject>)
    ensures AllParse(objects) && ItemsAccepted(bounds, Items(objects)) <==> ObjectsInOrder(bounds, objects)
  {
    AllInBounds(bounds, objects);
    hide ItemOf, Fits, ObjectInBounds, Earlier, ManifestLe, UniqueKeys, UniqueCoordinates, SortedBy, AllParse, Items;
    if AllParse(objects) {
      OrderInFields(objects);
      CountsInFields(bounds, objects);
    }
  }

  lemma AllInBounds(bounds: seq<Bound>, objects: seq<BronzeObject>)
    ensures AllParse(objects) && (forall k | 0 <= k < |objects| :: Fits(bounds, Items(objects)[k]))
       <==> forall i | 0 <= i < |objects| :: ObjectInBounds(bounds, objects[i])
  {
    forall i | 0 <= i < |objects|
      ensures ItemOf(objects[i]).Some? && Fits(bounds, ItemOf(objects[i]).value) <==> ObjectInBounds(bounds, objects[i])
    {
      FitsExactly(bounds, objects[i]);
    }
    hide ItemOf, Fits, ObjectInBounds;
    if AllParse(objects) && forall k | 0 <= k < |objects| :: Fits(bounds, Items(objects)[k]) {
      forall i | 0 <= i < |objects| ensures ObjectInBounds(bounds, objects[i]) {
        assert Fits(bounds, Items(objects)[i]);
      }
    }
  }

  lemma CountsInFields(bounds: seq<Bound>, objects: seq<BronzeObject>)
    requires AllParse(objects)
    ensures (forall i | 0 <= i < |bounds| :: CountsExact(bounds[i], Items(objects)))
       <==> forall b | b in bounds :: b.objectCount == |Positions(objects, b.topic, b.partition)|
                                      && b.inputBytes == PartSize(objects, b.topic, b.partition)
  {
    forall b: Bound
      ensures CountsExact(b, Items(objects)) <==>
                b.objectCount == |Positions(objects, b.topic, b.partition)|
                && b.inputBytes == PartSize(objects, b.topic, b.partition)
    {
      GroupInFields(objects, b.topic, b.partition);
    }
    hide CountsExact, Positions, PartSize, Items;
    if forall i | 0 <= i < |bounds| :: CountsExact(bounds[i], Items(objects)) {
      forall b | b in bounds ensures CountsExact(b, Items(objects)) {
        var i :| 0 <= i < |bounds| && bounds[i] == b;
      }
    }
  }

  function ExpectedTotal(ts: seq<Transaction>): int {
    if ts == [] then 0 else ts[0].expected + ExpectedTotal(ts[1..])
  }

  function ObservedTotal(ts: seq<Transaction>): int {
    if ts == [] then 0 else ts[0].observed + ObservedTotal(ts[1..])
  }

  lemma {:induction false} TotalsAgree(ts: seq<Transaction>)
    ensures SumExpected(ts) == ExpectedTotal(ts) && SumObserved(ts) == ObservedTotal(ts)
  {
    if ts != [] {
      TotalsAgree(ts[1..]);
      SumsFromTheFront(ts);
    }
  }

  lemma {:induction false} SumsFromTheFront(ts: seq<Transaction>)
    requires ts != []
    ensures SumExpected(ts) == ts[0].expected + SumExpected(ts[1..])
    ensures SumObserved(ts) == ts[0].observed + SumObserved(ts[1..])
  {
    if |ts| > 1 {
      SumsFromTheFront(ts[..|ts| - 1]);
      assert ts[..|ts| - 1][1..] == ts[1..][..|ts| - 2];
    }
  }

  ghost predicate ControlIsConsistent(sc: SourceControl) {
    && sc.contractVersion == "postgres-workload-ledger-v1" && sc.positionType == "postgres_lsn"
    && sc.expected >= 0 && sc.observed >= 0 && sc.untracked >= 0
    && (forall t | t in sc.transactions :: t.txid >= 0 && t.expected >= 0 && t.observed >= 0 && t.boundary >= 0)
    && (forall i, j | 0 <= i < j < |sc.transactions| :: sc.transactions[i].txid < sc.transactions[j].txid)
    && ExpectedTotal(sc.transactions) == sc.expected && ObservedTotal(sc.transactions) == sc.observed
  }

  /**
   A payload is accepted if and only if its version and interval text are known, its bounds are well-formed and
   strictly increasing by partition, and it is either a version 1 document of the legacy reader, or its objects lie
   within their bounds, strictly increase by coordinate and add up in number and size, per partition and in
   all, and a version 3 document has a consistent source control.
   */
  lemma PayloadIsAcceptedExactly(p: Payload)
    ensures Accepted(p) <==>
              && (p.schemaVersion == 1 || p.schemaVersion == 2 || p.schemaVersion == 3)
              && p.semantics == "(watermark_low, watermark_high]" && BoundsInOrder(p.partitions)
              && (if p.schemaVersion == 1 then p.readerMode == "history_snapshot_capped_at_high" else
                  && p.readerMode == "bounded_object_list" && ObjectsInOrder(p.partitions, p.objects)
                  && p.objectCount == |p.objects| && p.inputBytes == TotalSize(p.objects)
                  && (p.schemaVersion == 3 ==> p.sourceControl.Some? && ControlIsConsistent(p.sourceControl.value)))
  {
    BoundsAreAcceptedExactly(p.partitions);
    ObjectsAreAcceptedExactly(p.partitions, p.objects);
    if p.sourceControl.Some? { TotalsAgree(p.sourceControl.value.transactions); }
    if AllParse(p.objects) { SizeInFields(p.objects); }
    hide BoundsInOrder, ObjectsInOrder, PartitionsAccepted, ItemsAccepted, AllParse, TotalSize, Bytes;
    hide SumExpected, SumObserved, ExpectedTotal, ObservedTotal;
  }

  // ---------------------------------------------------------------- what is built

  /** The offset published before for the object's partition, -1 if none was. */
  function PreviousHigh(highs: map<Identity, int>, topic: string, partition: int): int {
    if (topic, partition) in highs then highs[(topic, partition)] else -1
  }

  ghost predicate SamePart(a: BronzeObject, b: BronzeObject) {
    && CoordinateOf(a).Some? && CoordinateOf(b).Some?
    && CoordinateOf(a).value.topic == CoordinateOf(b).value.topic
    && CoordinateOf(a).value.partition == CoordinateOf(b).value.partition
  }

  /** The partition of the object still shows an offset that is not below the one published before. */
  ghost predicate NotRegressed(objects: seq<BronzeObject>, highs: map<Identity, int>, o: BronzeObject) {
    exists x :: x in objects && SamePart(o, x)
      && CoordinateOf(x).value.offset >= PreviousHigh(highs, CoordinateOf(x).value.topic,
           CoordinateOf(x).value.partition)
  }

  /** The sealed bound of a partition: from the previous high to the greatest listed offset, with its totals. */
  ghost predicate BoundSeals(b: Bound, p: Payload, objects: seq<BronzeObject>, highs: map<Identity, int>) {
    && b.low == PreviousHigh(highs, b.topic, b.partition)
    && (exists o :: o in objects && InPart(o, b.topic, b.partition) && CoordinateOf(o).value.offset == b.high)
    && (forall o | o in objects && InPart(o, b.topic, b.partition) :: CoordinateOf(o).value.offset <= b.high)
    && b.objectCount == |Positions(p.objects, b.topic, b.partition)|
    && b.inputBytes == PartSize(p.objects, b.topic, b.partition)
  }

  ghost predicate IsSelected(objects: seq<BronzeObject>, highs: map<Identity, int>, o: BronzeObject) {
    && o in objects && CoordinateOf(o).Some?
    && var c := CoordinateOf(o).value; PreviousHigh(highs, c.topic, c.partition) < c.offset
  }

  /** One bound for each listed partition. */
  ghost predicate BoundsSeal(p: Payload, objects: seq<BronzeObject>, highs: map<Identity, int>) {
    && BoundsInOrder(p.partitions)
    && (forall b | b in p.partitions :: BoundSeals(b, p, objects, highs))
    && (forall o | o in objects :: exists b :: b in p.partitions && InPart(o, b.topic, b.partition))
  }

  /** Exactly the listed objects above the previous highs, in strict order, with their totals. */
  ghost predicate ObjectsSeal(p: Payload, objects: seq<BronzeObject>, highs: map<Identity, int>) {
    && (forall o :: o in p.objects <==> IsSelected(objects, highs, o))
    && (forall i, j | 0 <= i < j < |p.objects| :: Earlier(p.objects[i], p.objects[j]))
    && p.objectCount == |p.objects| && p.inputBytes == TotalSize(p.objects)
  }

  lemma ItemInPart(objects: seq<BronzeObject>, x: Item)
    requires AllParse(objects) && x in Items(objects)
    ensures x.file in objects && ItemOf(x.file) == Some(x)
    ensures CoordinateOf(x.file) == Some(Coordinate(x.topic, x.partition, x.offset))
  {
    ItemsAreWellParsed(objects);
    var i :| 0 <= i < |objects| && Items(objects)[i] == x;
    KeyHasTopic(objects[i]);
    ItemInFields(objects[i]);
    hide ParseBronzeCoordinate;
  }

  lemma PartHasItem(objects: seq<BronzeObject>, o: BronzeObject)
    requires AllParse(objects) && o in objects
    ensures ItemOf(o).Some? && ItemOf(o).value in Items(objects)
    ensures CoordinateOf(o).Some?
    ensures var c := CoordinateOf(o).value; ItemOf(o).value == Item(o, c.topic, c.partition, c.offset)
  {
    var i :| 0 <= i < |objects| && objects[i] == o;
    ItemInFields(o);
    hide ParseBronzeCoordinate;
    assert Items(objects)[i] == ItemOf(o).value;
  }

  lemma SelectedInFields(p: Payload, objects: seq<BronzeObject>, highs: map<Identity, int>, o: BronzeObject)
    requires AllParse(objects) && SealsInterval(p, Items(objects), highs)
    ensures o in p.objects <==> IsSelected(objects, highs, o)
  {
    hide ItemOf, CoordinateOf, BoundFits, PartitionsAccepted, CountsExact, ManifestLe, UniqueCoordinates, UniqueKeys;
    hide SortedBy, BoundIds, Bytes;
    if o in p.objects {
      PartHasItem(p.objects, o);
      ItemInPart(objects, ItemOf(o).value);
    }
    if IsSelected(objects, highs, o) {
      PartHasItem(objects, o);
      ItemInPart(p.objects, ItemOf(o).value);
    }
  }

  lemma BoundInFields(p: Payload, objects: seq<BronzeObject>, highs: map<Identity, int>, b: Bound)
    requires AllParse(objects) && BoundFits(Items(objects), highs, b)
    requires AllParse(p.objects) && CountsExact(b, Items(p.objects))
    ensures BoundSeals(b, p, objects, highs)
  {
    hide CoordinateOf, InPartition, Positions, PartSize, Bytes, AllParse, Items;
    GroupInFields(p.objects, b.topic, b.partition);
    HighestInFields(objects, highs, b);
  }

  lemma HighestInFields(objects: seq<BronzeObject>, highs: map<Identity, int>, b: Bound)
    requires AllParse(objects) && BoundFits(Items(objects), highs, b)
    ensures exists o :: o in objects && InPart(o, b.topic, b.partition) && CoordinateOf(o).value.offset == b.high
    ensures forall o | o in objects && InPart(o, b.topic, b.partition) :: CoordinateOf(o).value.offset <= b.high
  {
    hide ItemOf, CoordinateOf, AllParse, Items;
    var x :| x in Items(objects) && Id(x) == BoundId(b) && x.offset == b.high;
    ItemInPart(objects, x);
    assert InPart(x.file, b.topic, b.partition);
    forall o | o in objects && InPart(o, b.topic, b.partition) ensures CoordinateOf(o).value.offset <= b.high {
      PartHasItem(objects, o);
    }
  }

  /**
   Whatever is built seals the listing: one bound for each listed partition, from the previous high to the
   greatest listed offset, and exactly the objects above the previous highs, in order, with exact totals.
   */
  lemma BuiltPayloadSeals(batchId: string, objects: seq<BronzeObject>, highs: map<Identity, int>, adapter: string,
                          version: string, createdAt: string, control: Option<SourceControl>)
    requires BuildPayload(batchId, objects, highs, adapter, version, createdAt, control).Ok?
    ensures var p := BuildPayload(batchId, objects, highs, adapter, version, createdAt, control).value;
            && p.schemaVersion == (if control.Some? then 3 else 2) && p.batchId == batchId && p.sourceAdapter == adapter
            && p.contractVersion == version && p.createdAt == createdAt && p.sourceControl == control
            && p.semantics == "(watermark_low, watermark_high]" && p.readerMode == "bounded_object_list"
            && BoundsSeal(p, objects, highs) && ObjectsSeal(p, objects, highs)
  {
    var p := BuildPayload(batchId, objects, highs, adapter, version, createdAt, control).value;
    BuildSealsExactlyTheInterval(batchId, objects, highs, adapter, version, createdAt, control);
    hide AllParse, Items;
    BoundsInFields(p, objects, highs);
    ObjectsInFields(p, objects, highs);
    hide BoundsSeal, ObjectsSeal, SealsInterval, FirstError, Selected, Bounds, Sort, Identities, Bytes;
  }

  lemma ObjectsInFields(p: Payload, objects: seq<BronzeObject>, highs: map<Identity, int>)
    requires AllParse(objects) && SealsInterval(p, Items(objects), highs)
    ensures ObjectsSeal(p, objects, highs)
  {
    hide Items, AllParse, SealsInterval, TotalSize, Earlier, IsSelected, CoordinateOf, ItemOf;
    TotalsInFields(p, Items(objects), highs);
    forall o ensures o in p.objects <==> IsSelected(objects, highs, o) { SelectedInFields(p, objects, highs, o); }
  }

  lemma TotalsInFields(p: Payload, items: seq<Item>, highs: map<Identity, int>)
    requires SealsInterval(p, items, highs)
    ensures forall i, j | 0 <= i < j < |p.objects| :: Earlier(p.objects[i], p.objects[j])
    ensures p.objectCount == |p.objects| && p.inputBytes == TotalSize(p.objects)
  {
    hide Items, AllParse, ManifestLe, Bytes, TotalSize, Earlier, PartitionsAccepted, UniqueCoordinates, UniqueKeys;
    hide SortedBy, BoundFits, CountsExact, BoundIds;
    OrderInFields(p.objects);
    SizeInFields(p.objects);
  }

  lemma BoundsInFields(p: Payload, objects: seq<BronzeObject>, highs: map<Identity, int>)
    requires AllParse(objects) && SealsInterval(p, Items(objects), highs)
    ensures BoundsSeal(p, objects, highs)
  {
    BoundsAreAcceptedExactly(p.partitions);
    hide ItemOf, Items, AllParse, ManifestLe, Bytes, BoundsInOrder, PartitionsAccepted, UniqueCoordinates, UniqueKeys;
    hide SortedBy, BoundFits, CountsExact, BoundSeals;
    forall b | b in p.partitions ensures BoundSeals(b, p, objects, highs) { BoundInFields(p, objects, highs, b); }
    forall o | o in objects ensures exists b :: b in p.partitions && InPart(o, b.topic, b.partition) {
      var b := BoundOf(p, objects, o, highs);
    }
  }

  lemma BoundOf(p: Payload, objects: seq<BronzeObject>, o: BronzeObject, highs: map<Identity, int>) returns (b: Bound)
    requires AllParse(objects) && SealsInterval(p, Items(objects), highs) && o in objects
    ensures b in p.partitions && InPart(o, b.topic, b.partition)
  {
    PartHasItem(objects, o);
    hide CoordinateOf, ItemOf, AllParse, ManifestLe, Bytes, PartitionsAccepted, UniqueCoordinates, UniqueKeys, SortedBy;
    hide BoundFits, CountsExact, Items;
    assert Id(ItemOf(o).value) in BoundIds(p.partitions);
    var i :| 0 <= i < |p.partitions| && BoundIds(p.partitions)[i] == Id(ItemOf(o).value);
    b := p.partitions[i];
  }

  // ---------------------------------------------------------------- when it is built

  lemma {:induction false} GroupOffsetsDistinct(items: seq<Item>, id: Identity)
    ensures DistinctOffsets(InPartition(items, id)) <==>
              forall i, j | 0 <= i < j < |items| && Id(items[i]) == id && Id(items[j]) == id ::
                items[i].offset != items[j].offset
  {
    if items != [] {
      var n := |items| - 1;
      var front, last := items[..n], items[n];
      GroupOffsetsDistinct(front, id);
      InPartitionExact(front, id);
      hide InPartition;
      var group := InPartition(front, id);
      assert InPartition(items, id) == if Id(last) == id then group + [last] else group by { OneMore(items, id); }
      if Id(last) == id {
        LastOffsetIsNew(group, last);
        forall i | 0 <= i < n && Id(items[i]) == id ensures items[i] in group { assert front[i] == items[i]; }
        forall x | x in group ensures exists i :: 0 <= i < n && items[i] == x {
          var i :| 0 <= i < n && front[i] == x;
          assert items[i] == x;
        }
      }
    }
  }

  lemma OneMore(items: seq<Item>, id: Identity)
    requires items != []
    ensures InPartition(items, id) ==
              var group := InPartition(items[..|items| - 1], id);
              if Id(items[|items| - 1]) == id then group + [items[|items| - 1]] else group
  {
  }

  lemma LastOffsetIsNew(group: seq<Item>, last: Item)
    ensures DistinctOffsets(group + [last]) <==>
              DistinctOffsets(group) && forall x | x in group :: x.offset != last.offset
  {
    var all := group + [last];
    if DistinctOffsets(all) {
      forall i, j | 0 <= i < j < |group| ensures group[i].offset != group[j].offset {
        assert all[i].offset != all[j].offset;
      }
      forall x | x in group ensures x.offset != last.offset {
        var i :| 0 <= i < |group| && group[i] == x;
        assert all[i].offset != all[|group|].offset;
      }
    }
  }

  ghost predicate NoRepeatedOffset(objects: seq<BronzeObject>) {
    forall i, j | 0 <= i < j < |objects| && SamePart(objects[i], objects[j]) ::
      CoordinateOf(objects[i]).value.offset != CoordinateOf(objects[j]).value.offset
  }

  ghost predicate GroupsDistinct(items: seq<Item>) {
    forall id :: DistinctOffsets(InPartition(items, id))
  }

  lemma RepeatsInFields(objects: seq<BronzeObject>)
    requires AllParse(objects)
    ensures GroupsDistinct(Items(objects)) <==> NoRepeatedOffset(objects)
  {
    var items := Items(objects);
    if NoRepeatedOffset(objects) {
      forall id ensures DistinctOffsets(InPartition(items, id)) { NoRepeatInGroup(objects, id); }
    }
    if GroupsDistinct(items) { DistinctGroupsRepeatNothing(objects); }
    hide GroupsDistinct, NoRepeatedOffset;
  }

  lemma DistinctGroupsRepeatNothing(objects: seq<BronzeObject>)
    requires AllParse(objects) && GroupsDistinct(Items(objects))
    ensures NoRepeatedOffset(objects)
  {
    hide InPartition, DistinctOffsets, CoordinateOf, ItemOf, Items, AllParse;
    forall i, j | 0 <= i < j < |objects| && SamePart(objects[i], objects[j])
      ensures CoordinateOf(objects[i]).value.offset != CoordinateOf(objects[j]).value.offset
    {
      assert DistinctOffsets(InPartition(Items(objects), Id(Items(objects)[i])));
      RepeatInGroup(objects, i, j);
    }
  }

  lemma ItemAt(objects: seq<BronzeObject>, i: nat)
    requires AllParse(objects) && i < |objects|
    ensures var x := Items(objects)[i];
            CoordinateOf(objects[i]) == Some(Coordinate(x.topic, x.partition, x.offset))
  {
    ItemInFields(objects[i]);
    hide ParseBronzeCoordinate;
  }

  lemma NoRepeatInGroup(objects: seq<BronzeObject>, id: Identity)
    requires AllParse(objects) && NoRepeatedOffset(objects)
    ensures DistinctOffsets(InPartition(Items(objects), id))
  {
    var items := Items(objects);
    GroupOffsetsDistinct(items, id);
    hide InPartition, DistinctOffsets, CoordinateOf, ItemOf, Items, AllParse;
    forall i, j | 0 <= i < j < |items| && Id(items[i]) == id && Id(items[j]) == id
      ensures items[i].offset != items[j].offset
    {
      ItemAt(objects, i);
      ItemAt(objects, j);
      assert SamePart(objects[i], objects[j]);
    }
  }

  lemma RepeatInGroup(objects: seq<BronzeObject>, i: nat, j: nat)
    requires AllParse(objects) && i < j < |objects| && SamePart(objects[i], objects[j])
    requires DistinctOffsets(InPartition(Items(objects), Id(Items(objects)[i])))
    ensures CoordinateOf(objects[i]).value.offset != CoordinateOf(objects[j]).value.offset
  {
    var items := Items(objects);
    ItemAt(objects, i);
    ItemAt(objects, j);
    GroupOffsetsDistinct(items, Id(items[i]));
    hide InPartition, DistinctOffsets, CoordinateOf, ItemOf, Items, AllParse;
    assert Id(items[i]) == Id(items[j]);
  }

  lemma PartitionIsFine(items: seq<Item>, highs: map<Identity, int>, id: Identity)
    requires exists x :: x in items && Id(x) == id
    ensures PartitionError(items, highs, id).None? <==>
              DistinctOffsets(InPartition(items, id))
              && exists x :: x in items && Id(x) == id && x.offset >= Low(highs, id)
  {
    var ordered := PartitionItems(items, id);
    PartitionItemsSorted(items, id);
    LastIsHighest(ordered);
    if DistinctOffsets(ordered) { OffsetsStayDistinct(ordered, InPartition(items, id)); }
    if DistinctOffsets(InPartition(items, id)) { OffsetsStayDistinct(InPartition(items, id), ordered); }
    hide PartitionItems, InPartition, DistinctOffsets, SortedBy, ItemLe;
  }

  lemma HighsInFields(objects: seq<BronzeObject>, highs: map<Identity, int>, o: BronzeObject)
    requires AllParse(objects) && o in objects
    ensures var id := Id(ItemOf(o).value);
            (exists x :: x in Items(objects) && Id(x) == id && x.offset >= Low(highs, id)) <==>
            NotRegressed(objects, highs, o)
  {
    PartHasItem(objects, o);
    var id := Id(ItemOf(o).value);
    hide ItemOf, CoordinateOf, AllParse, Items;
    if x :| x in Items(objects) && Id(x) == id && x.offset >= Low(highs, id) {
      ItemInPart(objects, x);
      assert SamePart(o, x.file);
    }
    if NotRegressed(objects, highs, o) {
      var y :| y in objects && SamePart(o, y)
        && CoordinateOf(y).value.offset >= PreviousHigh(highs, CoordinateOf(y).value.topic,
             CoordinateOf(y).value.partition);
      PartHasItem(objects, y);
      assert Id(ItemOf(y).value) == id;
    }
  }

  /**
   A payload is built if and only if the listing is not empty, every key names a coordinate, no partition shows
   an offset twice, and none shows only offsets below the one published before.
   */
  lemma BuiltExactly(batchId: string, objects: seq<BronzeObject>, highs: map<Identity, int>, adapter: string,
                     version: string, createdAt: string, control: Option<SourceControl>)
    ensures BuildPayload(batchId, objects, highs, adapter, version, createdAt, control).Ok? <==>
              && objects != [] && (forall o | o in objects :: CoordinateOf(o).Some?) && NoRepeatedOffset(objects)
              && forall o | o in objects :: NotRegressed(objects, highs, o)
  {
    ParseInFields(objects);
    hide CoordinateOf, ItemOf, AllParse, Items, NotRegressed, NoRepeatedOffset, FirstError, Sort, Identities, Bytes;
    hide Selected, Bounds;
    if AllParse(objects) && objects != [] { NoErrorInFields(objects, highs); }
  }

  lemma ParseInFields(objects: seq<BronzeObject>)
    ensures AllParse(objects) <==> forall o | o in objects :: CoordinateOf(o).Some?
  {
    forall o: BronzeObject ensures ItemOf(o).Some? <==> CoordinateOf(o).Some? { ItemInFields(o); }
    hide CoordinateOf, ItemOf;
    if AllParse(objects) {
      forall o | o in objects ensures CoordinateOf(o).Some? {
        var i :| 0 <= i < |objects| && objects[i] == o;
      }
    }
  }

  lemma NoErrorInFields(objects: seq<BronzeObject>, highs: map<Identity, int>)
    requires AllParse(objects)
    ensures FirstError(Items(objects), highs, Sort(IdLe, Identities(Items(objects)))).None? <==>
              NoRepeatedOffset(objects) && forall o | o in objects :: NotRegressed(objects, highs, o)
  {
    var items := Items(objects);
    var ids := Sort(IdLe, Identities(items));
    IdentitiesSorted(items);
    NoFirstError(items, highs, ids);
    RepeatsInFields(objects);
    hide ItemOf, CoordinateOf, AllParse, Items, PartitionError, Low, FirstError, Sort;
    hide Identities, NotRegressed, NoRepeatedOffset, StrictlySorted, IdLe, GroupsDistinct;
    if forall id | id in ids :: PartitionError(items, highs, id).None? {
      forall id | id in Identities(items) ensures PartitionError(items, highs, id).None? { assert id in ids; }
      FinePartitions(objects, highs);
    }
    if GroupsDistinct(items) && forall o | o in objects :: NotRegressed(objects, highs, o) {
      forall id | id in ids ensures PartitionError(items, highs, id).None? { FinePartition(objects, highs, id); }
    }
  }

  lemma FinePartitions(objects: seq<BronzeObject>, highs: map<Identity, int>)
    requires AllParse(objects)
    requires forall id | id in Identities(Items(objects)) :: PartitionError(Items(objects), highs, id).None?
    ensures GroupsDistinct(Items(objects)) && forall o | o in objects :: NotRegressed(objects, highs, o)
  {
    var items := Items(objects);
    hide ItemOf, CoordinateOf, AllParse, Items, PartitionError, Low, Identities, NotRegressed, InPartition;
    hide DistinctOffsets;
    forall o | o in objects ensures NotRegressed(objects, highs, o) { PartIsChecked(objects, highs, o); }
    forall id ensures DistinctOffsets(InPartition(items, id)) {
      if id in Identities(items) {
        var o := PartIsListed(objects, id);
        PartIsChecked(objects, highs, o);
      } else {
        NoItemsOf(items, id);
      }
    }
  }

  lemma FinePartition(objects: seq<BronzeObject>, highs: map<Identity, int>, id: Identity)
    requires AllParse(objects) && GroupsDistinct(Items(objects)) && id in Identities(Items(objects))
    requires forall o | o in objects :: NotRegressed(objects, highs, o)
    ensures PartitionError(Items(objects), highs, id).None?
  {
    hide ItemOf, CoordinateOf, AllParse, Items, PartitionError, Low, Identities, NotRegressed, InPartition;
    hide DistinctOffsets;
    var o := PartIsListed(objects, id);
    PartIsChecked(objects, highs, o);
  }

  function PartOf(o: BronzeObject): Identity {
    if ItemOf(o).Some? then Id(ItemOf(o).value) else ("", 0)
  }

  lemma PartIsChecked(objects: seq<BronzeObject>, highs: map<Identity, int>, o: BronzeObject)
    requires AllParse(objects) && o in objects
    ensures PartOf(o) in Identities(Items(objects))
    ensures PartitionError(Items(objects), highs, PartOf(o)).None? <==>
              DistinctOffsets(InPartition(Items(objects), PartOf(o))) && NotRegressed(objects, highs, o)
  {
    PartHasItem(objects, o);
    HighsInFields(objects, highs, o);
    IdentitiesExact(Items(objects));
    hide ItemOf, CoordinateOf, AllParse, Items, InPartition, DistinctOffsets, PartitionError, Low, Identities;
    hide NotRegressed;
    PartitionIsFine(Items(objects), highs, PartOf(o));
    var i :| 0 <= i < |Items(objects)| && Items(objects)[i] == ItemOf(o).value;
  }

  lemma PartIsListed(objects: seq<BronzeObject>, id: Identity) returns (o: BronzeObject)
    requires AllParse(objects) && id in Identities(Items(objects))
    ensures o in objects && PartOf(o) == id
  {
    IdentitiesExact(Items(objects));
    hide ItemOf, CoordinateOf, AllParse, Items, Identities;
    var i :| 0 <= i < |Items(objects)| && Id(Items(objects)[i]) == id;
    ItemInPart(objects, Items(objects)[i]);
    o := Items(objects)[i].file;
  }

  lemma NoItemsOf(items: seq<Item>, id: Identity)
    requires id !in Identities(items)
    ensures DistinctOffsets(InPartition(items, id))
  {
    IdentitiesExact(items);
    GroupOffsetsDistinct(items, id);
    hide InPartition, DistinctOffsets, Identities;
  }
}
