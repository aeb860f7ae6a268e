/**
 Validation of stored manifest documents, and the agreement of the builder with the validator.
 */
module ManifestValidation {
  import opened Wrappers
  import opened Ordering
  import opened Encodings
  import opened Manifest

  // ---------------------------------------------------------------- what the validator accepts

  predicate BoundOk(bound: Bound) {
    bound.topic != "" && bound.partition >= 0 && bound.low <= bound.high
  }

  function BoundIds(bounds: seq<Bound>): seq<Identity> {
    seq(|bounds|, i requires 0 <= i < |bounds| => BoundId(bounds[i]))
  }

  predicate PartitionsAccepted(bounds: seq<Bound>) {
    && bounds != []
    && (forall i | 0 <= i < |bounds| :: BoundOk(bounds[i]))
    && StrictlySorted(BoundIds(bounds))
  }

  predicate WithinSome(bounds: seq<Bound>, item: Item) {
    exists i | 0 <= i < |bounds| :: BoundId(bounds[i]) == Id(item) && bounds[i].low < item.offset <= bounds[i].high
  }

  predicate DescriptorOk(o: BronzeObject) {
    o.objectKey != "" && o.sizeBytes >= 0
  }

  predicate Fits(bounds: seq<Bound>, item: Item) {
    DescriptorOk(item.file) && WithinSome(bounds, item)
  }

  predicate CountsExact(bound: Bound, items: seq<Item>) {
    && bound.objectCount == |InPartition(items, BoundId(bound))|
    && bound.inputBytes == Bytes(InPartition(items, BoundId(bound)))
  }

  predicate ItemsAccepted(bounds: seq<Bound>, items: seq<Item>) {
    && (forall i | 0 <= i < |items| :: Fits(bounds, items[i]))
    && SortedBy(ManifestLe, items) && UniqueKeys(items) && UniqueCoordinates(items)
    && (forall i | 0 <= i < |bounds| :: CountsExact(bounds[i], items))
  }

  predicate ObjectsAccepted(payload: Payload) {
    && AllParse(payload.objects)
    && ItemsAccepted(payload.partitions, Items(payload.objects))
    && payload.objectCount == |payload.objects|
    && payload.inputBytes == Bytes(Items(payload.objects))
  }

  predicate TransactionOk(t: Transaction) {
    t.txid >= 0 && t.expected >= 0 && t.observed >= 0 && t.boundary >= 0
  }

  function SumExpected(ts: seq<Transaction>): int {
    if ts == [] then 0 else SumExpected(ts[..|ts| - 1]) + ts[|ts| - 1].expected
  }

  function SumObserved(ts: seq<Transaction>): int {
    if ts == [] then 0 else SumObserved(ts[..|ts| - 1]) + ts[|ts| - 1].observed
  }

  predicate SourceControlOk(sc: SourceControl) {
    && sc.contractVersion == "postgres-workload-ledger-v1" && sc.positionType == "postgres_lsn"
    && sc.expected >= 0 && sc.observed >= 0 && sc.untracked >= 0
    && (forall i | 0 <= i < |sc.transactions| :: TransactionOk(sc.transactions[i]))
    && (forall i, j | 0 <= i < j < |sc.transactions| :: sc.transactions[i].txid < sc.transactions[j].txid)
    && SumExpected(sc.transactions) == sc.expected && SumObserved(sc.transactions) == sc.observed
  }

  predicate Accepted(payload: Payload) {
    && payload.schemaVersion in {1, 2, 3} && payload.semantics == SEMANTICS
    && PartitionsAccepted(payload.partitions)
    && if payload.schemaVersion == 1 then payload.readerMode == LEGACY else
       && payload.readerMode == BOUNDED
       && ObjectsAccepted(payload)
       && (payload.schemaVersion == 3 ==> payload.sourceControl.Some? && SourceControlOk(payload.sourceControl.value))
  }

  // ---------------------------------------------------------------- the validator

  method ValidateSourceControl(sc: SourceControl) returns (ok: bool)
    ensures ok <==> SourceControlOk(sc)
  {
    if sc.contractVersion != "postgres-workload-ledger-v1" || sc.positionType != "postgres_lsn"
       || sc.expected < 0 || sc.observed < 0 || sc.untracked < 0 {
      return false;
    }
    var expectedTotal, observedTotal := 0, 0;
    var i := 0;
    while i < |sc.transactions|
      invariant 0 <= i <= |sc.transactions|
      invariant forall k | 0 <= k < i :: TransactionOk(sc.transactions[k])
      invariant expectedTotal == SumExpected(sc.transactions[..i])
      invariant observedTotal == SumObserved(sc.transactions[..i])
    {
      var t := sc.transactions[i];
      if !TransactionOk(t) {
        return false;
      }
      assert sc.transactions[..i + 1][..i] == sc.transactions[..i];
      expectedTotal, observedTotal := expectedTotal + t.expected, observedTotal + t.observed;
      i := i + 1;
    }
    assert sc.transactions[..i] == sc.transactions;
    ok := (forall a, b | 0 <= a < b < |sc.transactions| :: sc.transactions[a].txid < sc.transactions[b].txid)
          && expectedTotal == sc.expected && observedTotal == sc.observed;
  }

  /** The counters of the object pass, one entry per partition met so far. */
  ghost predicate Tallied(count: map<Identity, int>, bytes: map<Identity, int>, items: seq<Item>) {
    && count.Keys == bytes.Keys
    && (forall id | id in count :: count[id] == |InPartition(items, id)| && bytes[id] == Bytes(InPartition(items, id)))
    && (forall id | id !in count :: InPartition(items, id) == [])
  }

  lemma TallyStarts()
    ensures Tallied(map[], map[], [])
  {
  }

  lemma GroupTotalsGrow(items: seq<Item>, item: Item, id: Identity)
    ensures |InPartition(items + [item], id)| == |InPartition(items, id)| + if Id(item) == id then 1 else 0
    ensures Bytes(InPartition(items + [item], id)) ==
            Bytes(InPartition(items, id)) + if Id(item) == id then item.file.sizeBytes else 0
  {
    GroupsGrow(items, item);
    var group := InPartition(items, id);
    assert (group + [item])[..|group|] == group;
  }

  lemma TallyGrows(count: map<Identity, int>, bytes: map<Identity, int>, items: seq<Item>, item: Item)
    requires Tallied(count, bytes, items)
    ensures var id, size := Id(item), item.file.sizeBytes;
            Tallied(count[id := (if id in count then count[id] else 0) + 1],
                    bytes[id := (if id in bytes then bytes[id] else 0) + size], items + [item])
  {
    var own, size := Id(item), item.file.sizeBytes;
    var count' := count[own := (if own in count then count[own] else 0) + 1];
    var bytes' := bytes[own := (if own in bytes then bytes[own] else 0) + size];
    forall id
      ensures id in count' ==> count'[id] == |InPartition(items + [item], id)|
      ensures id in bytes' ==> bytes'[id] == Bytes(InPartition(items + [item], id))
      ensures id !in count' ==> InPartition(items + [item], id) == []
    {
      GroupTotalsGrow(items, item, id);
      if id !in count { assert InPartition(items, id) == []; }
    }
    assert count'.Keys == bytes'.Keys;
  }

  ghost predicate ObjectsFit(bounds: seq<Bound>, objects: seq<BronzeObject>) {
    AllParse(objects) && forall k | 0 <= k < |objects| :: Fits(bounds, Items(objects)[k])
  }

  lemma FitGrows(bounds: seq<Bound>, objects: seq<BronzeObject>, i: nat)
    requires i < |objects| && ObjectsFit(bounds, objects[..i])
    ensures ObjectsFit(bounds, objects[..i + 1]) <==> ItemOf(objects[i]).Some? && Fits(bounds, ItemOf(objects[i]).value)
    ensures ObjectsFit(bounds, objects) ==> ItemOf(objects[i]).Some? && Fits(bounds, ItemOf(objects[i]).value)
  {
    hide ParseBronzeCoordinate, Fits;
    assert objects[..i + 1][i] == objects[i];
    if ItemOf(objects[i]).Some? {
      ItemsGrow(objects, i);
      var grown := Items(objects[..i + 1]);
      assert forall k | 0 <= k < i :: grown[k] == Items(objects[..i])[k];
      assert grown[i] == ItemOf(objects[i]).value;
      assert AllParse(objects) ==> Items(objects)[i] == grown[i];
    }
  }

  /** Object pass of the validator: descriptors, coordinates, bounds, and the running tallies. */
  method TallyObjects(bounds: seq<Bound>, objects: seq<BronzeObject>)
    returns (ok: bool, items: seq<Item>, count: map<Identity, int>, bytes: map<Identity, int>)
    ensures ok <==> ObjectsFit(bounds, objects)
    ensures ok ==> items == Items(objects) && Tallied(count, bytes, items)
  {
    TallyStarts();
    hide ParseBronzeCoordinate, Fits, Tallied;
    items, count, bytes := [], map[], map[];
    var i := 0;
    while i < |objects|
      invariant 0 <= i <= |objects| && ObjectsFit(bounds, objects[..i]) && items == Items(objects[..i])
      invariant Tallied(count, bytes, items)
    {
      var item := ItemOf(objects[i]);
      FitGrows(bounds, objects, i);
      if item.None? || !Fits(bounds, item.value) {
        return false, items, count, bytes;
      }
      ItemsGrow(objects, i);
      TallyGrows(count, bytes, items, item.value);
      var id := Id(item.value);
      count := count[id := (if id in count then count[id] else 0) + 1];
      bytes := bytes[id := (if id in bytes then bytes[id] else 0) + item.value.file.sizeBytes];
      items := items + [item.value];
      i := i + 1;
    }
    assert objects[..i] == objects;
    ok := true;
  }

  /** Comparison of the tallies with the declared counts; an unmet partition tallies zero. */
  method CheckCounts(bounds: seq<Bound>, count: map<Identity, int>, bytes: map<Identity, int>, ghost items: seq<Item>)
    returns (ok: bool)
    requires Tallied(count, bytes, items)
    ensures ok <==> forall k | 0 <= k < |bounds| :: CountsExact(bounds[k], items)
  {
    var j := 0;
    while j < |bounds|
      invariant 0 <= j <= |bounds|
      invariant forall k | 0 <= k < j :: CountsExact(bounds[k], items)
    {
      var id := BoundId(bounds[j]);
      if bounds[j].objectCount != (if id in count then count[id] else 0)
         || bounds[j].inputBytes != (if id in bytes then bytes[id] else 0) {
        assert !CountsExact(bounds[j], items);
        return false;
      }
      j := j + 1;
    }
    ok := true;
  }

  method ValidateObjects(bounds: seq<Bound>, objects: seq<BronzeObject>) returns (ok: bool)
    ensures ok <==> AllParse(objects) && ItemsAccepted(bounds, Items(objects))
  {
    hide ParseBronzeCoordinate;
    var tallied, items, count, bytes := TallyObjects(bounds, objects);
    if !tallied {
      return false;
    }
    if !(SortedBy(ManifestLe, items) && UniqueKeys(items) && UniqueCoordinates(items)) {
      return false;
    }
    ok := CheckCounts(bounds, count, bytes, items);
  }

  /** `validate_manifest_document`; an absent expectation is not checked. */
  method ValidateManifestDocument(document: Document, expectedSha: Option<Digest>, expectedBatchId: Option<string>)
    returns (r: Result<Payload, ManifestError>)
    ensures r.Ok? <==> && document.sha == Sha256(document.payload)
                       && (expectedSha.Some? ==> expectedSha.value == document.sha)
                       && (expectedBatchId.Some? ==> expectedBatchId.value == document.payload.batchId)
                       && Accepted(document.payload)
    ensures r.Ok? ==> r.value == document.payload
  {
    hide ParseBronzeCoordinate;
    var payload := document.payload;
    if document.sha != Sha256(payload) || (expectedSha.Some? && expectedSha.value != Sha256(payload)) {
      return Err(WrongChecksum);
    }
    if expectedBatchId.Some? && expectedBatchId.value != payload.batchId {
      return Err(WrongBatch);
    }
    if payload.schemaVersion !in {1, 2, 3} || payload.semantics != SEMANTICS || payload.partitions == [] {
      return Err(Malformed);
    }
    if !PartitionsAccepted(payload.partitions) {
      return Err(Malformed);
    }
    if payload.schemaVersion == 1 {
      return if payload.readerMode == LEGACY then Ok(payload) else Err(Malformed);
    }
    if payload.readerMode != BOUNDED {
      return Err(Malformed);
    }
    var objectsOk := ValidateObjects(payload.partitions, payload.objects);
    if !objectsOk || payload.objectCount != |payload.objects| || payload.inputBytes != Bytes(Items(payload.objects)) {
      return Err(Malformed);
    }
    if payload.schemaVersion == 3 {
      if payload.sourceControl.None? {
        return Err(Malformed);
      }
      var controlOk := ValidateSourceControl(payload.sourceControl.value);
      if !controlOk {
        return Err(Malformed);
      }
    }
    r := Ok(payload);
  }

  // ---------------------------------------------------------------- the builder selects exactly the interval

  /** Every item is what its own key parses to. */
  ghost predicate WellParsed(items: seq<Item>) {
    forall i | 0 <= i < |items| :: ItemOf(items[i].file) == Some(items[i])
  }

  lemma {:induction false} InPartitionExact(items: seq<Item>, id: Identity)
    ensures forall x :: x in InPartition(items, id) <==> x in items && Id(x) == id
  {
    if items != [] {
      var front := items[..|items| - 1];
      InPartitionExact(front, id);
      assert items == front + [items[|items| - 1]];
    }
  }

  lemma {:induction false} AboveExact(items: seq<Item>, low: int)
    requires SortedBy(ItemLe, items) && DistinctOffsets(items)
    ensures forall x :: x in Above(items, low) <==> x in items && low < x.offset
    ensures forall i, j | 0 <= i < j < |Above(items, low)| :: Above(items, low)[i].offset < Above(items, low)[j].offset
  {
    if items != [] {
      var front, last := items[..|items| - 1], items[|items| - 1];
      LastIsAbove(items);
      hide SortedBy, DistinctOffsets, ItemLe;
      assert items == front + [last];
      AboveExact(front, low);
    }
  }

  lemma LastIsAbove(items: seq<Item>)
    requires SortedBy(ItemLe, items) && DistinctOffsets(items) && items != []
    ensures var front, last := items[..|items| - 1], items[|items| - 1];
            SortedBy(ItemLe, front) && DistinctOffsets(front) && forall x | x in front :: x.offset < last.offset
  {
    var front, last := items[..|items| - 1], items[|items| - 1];
    forall x | x in front ensures x.offset < last.offset {
      var i :| 0 <= i < |front| && front[i] == x;
      assert ItemLe(items[i], items[|items| - 1]) && items[i].offset != last.offset;
    }
  }

  lemma PartitionItemsSorted(items: seq<Item>, id: Identity)
    ensures multiset(PartitionItems(items, id)) == multiset(InPartition(items, id))
    ensures SortedBy(ItemLe, PartitionItems(items, id))
    ensures forall x :: x in PartitionItems(items, id) <==> x in items && Id(x) == id
  {
    ItemLeIsTotal();
    SortIsOrderedPermutation(ItemLe, InPartition(items, id));
    SameMultisetSameElements(PartitionItems(items, id), InPartition(items, id));
    InPartitionExact(items, id);
  }

  lemma LastIsHighest(ordered: seq<Item>)
    requires SortedBy(ItemLe, ordered)
    ensures forall x | x in ordered :: x.offset <= HighOf(ordered)
    ensures ordered != [] ==> exists x :: x in ordered && x.offset == HighOf(ordered)
  {
    forall x | x in ordered ensures x.offset <= HighOf(ordered) {
      var i :| 0 <= i < |ordered| && ordered[i] == x;
      if i < |ordered| - 1 { assert ItemLe(ordered[i], ordered[|ordered| - 1]); }
    }
    if ordered != [] { assert ordered[|ordered| - 1] in ordered; }
  }

  /** One partition's selection: the listed objects above the previous high, in offset order. */
  lemma SelectedInExact(items: seq<Item>, previousHighs: map<Identity, int>, id: Identity)
    requires PartitionError(items, previousHighs, id).None?
    ensures forall x :: x in SelectedIn(items, previousHighs, id) <==>
              x in items && Id(x) == id && Low(previousHighs, id) < x.offset
    ensures forall i, j | 0 <= i < j < |SelectedIn(items, previousHighs, id)| ::
              SelectedIn(items, previousHighs, id)[i].offset < SelectedIn(items, previousHighs, id)[j].offset
    ensures forall x | x in items && Id(x) == id :: x.offset <= HighOf(PartitionItems(items, id))
    ensures DistinctOffsets(InPartition(items, id))
  {
    var ordered := PartitionItems(items, id);
    PartitionItemsSorted(items, id);
    AboveExact(ordered, Low(previousHighs, id));
    LastIsHighest(ordered);
    OffsetsStayDistinct(ordered, InPartition(items, id));
  }

  lemma OffsetsStayDistinct(a: seq<Item>, b: seq<Item>)
    requires multiset(a) == multiset(b) && DistinctOffsets(a)
    ensures DistinctOffsets(b)
  {
    assert Unique(a);
    SameMultisetSameElements(a, b);
    forall i, j | 0 <= i < j < |b| ensures b[i].offset != b[j].offset {
      assert b[i] in a && b[j] in a && b[i] != b[j];
      var x, y :| 0 <= x < |a| && 0 <= y < |a| && a[x] == b[i] && a[y] == b[j];
      if x < y { assert a[x].offset != a[y].offset; } else { assert a[y].offset != a[x].offset; }
    }
  }

  // ---------------------------------------------------------------- build, then validate

  lemma {:induction false} InPartitionConcat(a: seq<Item>, b: seq<Item>, id: Identity)
    ensures InPartition(a + b, id) == InPartition(a, id) + InPartition(b, id)
  {
    if b == [] {
      assert a + b == a;
    } else {
      var last := b[|b| - 1];
      assert (a + b)[..|a + b| - 1] == a + b[..|b| - 1];
      InPartitionConcat(a, b[..|b| - 1], id);
    }
  }

  lemma {:induction false} InPartitionOfOne(items: seq<Item>, own: Identity, id: Identity)
    requires forall x | x in items :: Id(x) == own
    ensures InPartition(items, id) == if id == own then items else []
  {
    if items != [] {
      var front := items[..|items| - 1];
      assert items == front + [items[|items| - 1]];
      InPartitionOfOne(front, own, id);
    }
  }

  /** The concatenated selection: what it contains, how it is grouped, how it is ordered. */
  lemma {:induction false} SelectedExact(items: seq<Item>, previousHighs: map<Identity, int>, ids: seq<Identity>)
    requires StrictlySorted(ids) && forall id | id in ids :: PartitionError(items, previousHighs, id).None?
    ensures forall x :: x in Selected(items, previousHighs, ids) <==>
              x in items && Id(x) in ids && Low(previousHighs, Id(x)) < x.offset
    ensures forall id :: InPartition(Selected(items, previousHighs, ids), id) ==
              if id in ids then SelectedIn(items, previousHighs, id) else []
    ensures SortedBy(ManifestLe, Selected(items, previousHighs, ids))
    ensures UniqueCoordinates(Selected(items, previousHighs, ids))
  {
    if ids != [] {
      var front, last := ids[..|ids| - 1], ids[|ids| - 1];
      var before, own := Selected(items, previousHighs, front), SelectedIn(items, previousHighs, last);
      assert ids == front + [last];
      assert last !in front;
      SelectedExact(items, previousHighs, front);
      SelectedInExact(items, previousHighs, last);
      forall id
        ensures InPartition(before + own, id) == if id in ids then SelectedIn(items, previousHighs, id) else []
      {
        InPartitionConcat(before, own, id);
        InPartitionOfOne(own, last, id);
      }
      AppendLaterPartition(before, own, front, last);
    }
  }

  lemma AppendLaterPartition(before: seq<Item>, own: seq<Item>, front: seq<Identity>, last: Identity)
    requires SortedBy(ManifestLe, before) && UniqueCoordinates(before)
    requires forall x | x in before :: Id(x) in front
    requires forall x | x in own :: Id(x) == last
    requires forall i, j | 0 <= i < j < |own| :: own[i].offset < own[j].offset
    requires last !in front && forall id | id in front :: IdLe(id, last)
    ensures SortedBy(ManifestLe, before + own) && UniqueCoordinates(before + own)
  {
    var all := before + own;
    forall i, j | 0 <= i < j < |all|
      ensures ManifestLe(all[i], all[j]) && !(Id(all[i]) == Id(all[j]) && all[i].offset == all[j].offset)
    {
      assert i < |before| ==> all[i] == before[i] && before[i] in before;
      assert i >= |before| ==> all[i] == own[i - |before|] && own[i - |before|] in own;
      assert j < |before| ==> all[j] == before[j];
      assert j >= |before| ==> all[j] == own[j - |before|] && own[j - |before|] in own;
    }
  }

  lemma {:induction false} NoFirstError(items: seq<Item>, previousHighs: map<Identity, int>, ids: seq<Identity>)
    ensures FirstError(items, previousHighs, ids).None? <==>
            forall id | id in ids :: PartitionError(items, previousHighs, id).None?
  {
    if ids != [] {
      NoFirstError(items, previousHighs, ids[..|ids| - 1]);
      assert ids == ids[..|ids| - 1] + [ids[|ids| - 1]];
    }
  }

  /** Reading back the descriptors of well-parsed items gives the items. */
  lemma ItemsOfObjects(items: seq<Item>)
    requires WellParsed(items)
    ensures AllParse(Objects(items)) && Items(Objects(items)) == items
  {
    hide ParseBronzeCoordinate;
    forall i | 0 <= i < |items| ensures ItemOf(Objects(items)[i]) == Some(items[i]) {
      assert Objects(items)[i] == items[i].file;
    }
  }

  lemma ItemsAreWellParsed(objects: seq<BronzeObject>)
    requires AllParse(objects)
    ensures WellParsed(Items(objects))
    ensures forall x | x in Items(objects) :: x.topic != "" && x.file.objectKey != ""
  {
    forall i | 0 <= i < |objects|
      ensures ItemOf(Items(objects)[i].file) == Some(Items(objects)[i])
      ensures Items(objects)[i].topic != "" && Items(objects)[i].file.objectKey != ""
    {
      KeyHasTopic(objects[i]);
    }
  }

  lemma KeyHasTopic(o: BronzeObject)
    requires ItemOf(o).Some?
    ensures ItemOf(o).value.file == o && ItemOf(o).value.topic != "" && o.objectKey != ""
  {
    ParsedTopicIsNonEmpty(o.objectKey);
  }

  lemma ParsedTopicIsNonEmpty(key: string)
    requires ParseBronzeCoordinate(key).Some?
    ensures ParseBronzeCoordinate(key).value.topic != "" && key != ""
  {
    hide LastSlash;
    hide Between;
    hide ParseNat;
  }

  lemma WellParsedKeysAreUnique(items: seq<Item>)
    requires WellParsed(items) && UniqueCoordinates(items)
    ensures UniqueKeys(items)
  {
    hide ParseBronzeCoordinate;
    forall i, j | 0 <= i < j < |items| ensures items[i].file.objectKey != items[j].file.objectKey {
      assert ItemOf(items[i].file) == Some(items[i]) && ItemOf(items[j].file) == Some(items[j]);
    }
  }

  lemma SelectionIsWellParsed(items: seq<Item>, selected: seq<Item>)
    requires WellParsed(items) && forall x | x in selected :: x in items
    ensures WellParsed(selected)
  {
    hide ParseBronzeCoordinate;
    forall i | 0 <= i < |selected| ensures ItemOf(selected[i].file) == Some(selected[i]) {
      assert selected[i] in items;
    }
  }

  /** A sealed bound of a partition: the previous high below, the highest listed offset above. */
  ghost predicate BoundFits(items: seq<Item>, previousHighs: map<Identity, int>, b: Bound) {
    && b.low == Low(previousHighs, BoundId(b))
    && (exists x :: x in items && Id(x) == BoundId(b) && x.offset == b.high)
    && (forall x | x in items && Id(x) == BoundId(b) :: x.offset <= b.high)
  }

  /** Exactly the listed objects above their partition's previous high are sealed. */
  ghost predicate SealsInterval(p: Payload, items: seq<Item>, previousHighs: map<Identity, int>) {
    && AllParse(p.objects)
    && (forall x :: x in Items(p.objects) <==> x in items && Low(previousHighs, Id(x)) < x.offset)
    && PartitionsAccepted(p.partitions)
    && (forall x | x in items :: Id(x) in BoundIds(p.partitions))
    && (forall b | b in p.partitions :: BoundFits(items, previousHighs, b))
    && SortedBy(ManifestLe, Items(p.objects)) && UniqueCoordinates(Items(p.objects)) && UniqueKeys(Items(p.objects))
    && (forall i | 0 <= i < |p.partitions| :: CountsExact(p.partitions[i], Items(p.objects)))
    && p.objectCount == |p.objects| && p.inputBytes == Bytes(Items(p.objects))
  }

  lemma BuildSealsExactlyTheInterval(batchId: string, objects: seq<BronzeObject>, previousHighs: map<Identity, int>,
                                     sourceAdapter: string, contractVersion: string, createdAt: string,
                                     sourceControl: Option<SourceControl>)
    requires BuildPayload(batchId, objects, previousHighs, sourceAdapter, contractVersion, createdAt, sourceControl).Ok?
    ensures AllParse(objects)
    ensures SealsInterval(
              BuildPayload(batchId, objects, previousHighs, sourceAdapter, contractVersion, createdAt,
                  sourceControl).value,
              Items(objects), previousHighs)
  {
    hide ParseBronzeCoordinate, PartitionItems, FirstError, Bounds, Selected, Sort, Identities, Bytes, InPartition;
    hide WellParsed;
    hide SortedBy, ManifestLe, UniqueCoordinates, UniqueKeys, PartitionsAccepted, BoundFits, CountsExact, Items;
    hide Objects, AllParse;
    var p := BuildPayload(batchId, objects, previousHighs, sourceAdapter, contractVersion, createdAt,
        sourceControl).value;
    var items := Items(objects);
    ItemsAreWellParsed(objects);
    SortedPartitionsSeal(items, previousHighs);
    var ids := Sort(IdLe, Identities(items));
    var selected := Selected(items, previousHighs, ids);
    SelectionIsWellParsed(items, selected);
    ItemsOfObjects(selected);
    WellParsedKeysAreUnique(selected);
  }

  lemma SortedPartitionsSeal(items: seq<Item>, previousHighs: map<Identity, int>)
    requires items != [] && forall x | x in items :: x.topic != ""
    requires FirstError(items, previousHighs, Sort(IdLe, Identities(items))).None?
    ensures var ids := Sort(IdLe, Identities(items));
            var selected, bounds := Selected(items, previousHighs, ids), Bounds(items, previousHighs, ids);
            && (forall x :: x in selected <==> x in items && Low(previousHighs, Id(x)) < x.offset)
            && PartitionsAccepted(bounds)
            && (forall x | x in items :: Id(x) in BoundIds(bounds))
            && (forall b | b in bounds :: BoundFits(items, previousHighs, b))
            && SortedBy(ManifestLe, selected) && UniqueCoordinates(selected)
            && (forall i | 0 <= i < |bounds| :: CountsExact(bounds[i], selected))
  {
    hide Sort, Identities, FirstError, Selected, PartitionError, InPartition, Bytes, ManifestLe;
    var ids := Sort(IdLe, Identities(items));
    IdentitiesExact(items);
    IdentitiesSorted(items);
    NoFirstError(items, previousHighs, ids);
    SelectedExact(items, previousHighs, ids);
    var selected, bounds := Selected(items, previousHighs, ids), Bounds(items, previousHighs, ids);
    forall x | x in items ensures Id(x) in ids {
      var i :| 0 <= i < |items| && items[i] == x;
      assert Id(items[i]) == Id(x);
    }
    assert items[0] in items;
    assert BoundIds(bounds) == ids;
    forall i | 0 <= i < |bounds|
      ensures BoundOk(bounds[i]) && BoundFits(items, previousHighs, bounds[i]) && CountsExact(bounds[i], selected)
    {
      assert ids[i] in ids;
      var k :| 0 <= k < |items| && Id(items[k]) == ids[i];
      assert items[k] in items;
      PartitionBoundFits(items, previousHighs, items[k]);
    }
  }

  lemma PartitionBoundFits(items: seq<Item>, previousHighs: map<Identity, int>, x: Item)
    requires x in items && PartitionError(items, previousHighs, Id(x)).None?
    ensures BoundFits(items, previousHighs, BoundFor(items, previousHighs, Id(x)))
    ensures BoundFor(items, previousHighs, Id(x)).low <= BoundFor(items, previousHighs, Id(x)).high
  {
    PartitionItemsSorted(items, Id(x));
    LastIsHighest(PartitionItems(items, Id(x)));
  }

  /** Whatever the builder returns, the validator accepts. */
  lemma BuiltDocumentIsAccepted(batchId: string, objects: seq<BronzeObject>, previousHighs: map<Identity, int>,
                                sourceAdapter: string, contractVersion: string, createdAt: string,
                                sourceControl: Option<SourceControl>)
    requires BuildPayload(batchId, objects, previousHighs, sourceAdapter, contractVersion, createdAt, sourceControl).Ok?
    requires forall i | 0 <= i < |objects| :: objects[i].sizeBytes >= 0
    requires sourceControl.Some? ==> SourceControlOk(sourceControl.value)
    ensures Accepted(BuildPayload(batchId, objects, previousHighs, sourceAdapter, contractVersion, createdAt,
              sourceControl).value)
  {
    hide ParseBronzeCoordinate, Bounds, Selected, FirstError, Sort, Identities, Bytes, InPartition;
    var p := BuildPayload(batchId, objects, previousHighs, sourceAdapter, contractVersion, createdAt,
        sourceControl).value;
    BuildSealsExactlyTheInterval(batchId, objects, previousHighs, sourceAdapter, contractVersion, createdAt,
        sourceControl);
    ItemsAreWellParsed(objects);
    SealedItemsFit(p, objects, previousHighs);
  }

  lemma SealedItemsFit(p: Payload, objects: seq<BronzeObject>, previousHighs: map<Identity, int>)
    requires AllParse(objects) && SealsInterval(p, Items(objects), previousHighs)
    requires forall i | 0 <= i < |objects| :: objects[i].sizeBytes >= 0
    requires forall x | x in Items(objects) :: x.file.objectKey != ""
    ensures forall i | 0 <= i < |p.objects| :: Fits(p.partitions, Items(p.objects)[i])
  {
    hide ParseBronzeCoordinate;
    var sealed, items := Items(p.objects), Items(objects);
    forall i | 0 <= i < |sealed| ensures Fits(p.partitions, sealed[i]) {
      var x := sealed[i];
      assert x in sealed && x in items;
      var k :| 0 <= k < |items| && items[k] == x;
      assert items[k].file == objects[k];
      var b :| 0 <= b < |p.partitions| && BoundIds(p.partitions)[b] == Id(x);
      assert p.partitions[b] in p.partitions;
    }
  }

  // ---------------------------------------------------------------- totals over the partitions

  function SumCounts(bounds: seq<Bound>): int {
    if bounds == [] then 0 else SumCounts(bounds[..|bounds| - 1]) + bounds[|bounds| - 1].objectCount
  }

  function SumBytes(bounds: seq<Bound>): int {
    if bounds == [] then 0 else SumBytes(bounds[..|bounds| - 1]) + bounds[|bounds| - 1].inputBytes
  }

  /** The bounds with their totals recomputed from the items. */
  function Retallied(bounds: seq<Bound>, items: seq<Item>): (retallied: seq<Bound>)
    ensures |retallied| == |bounds|
    ensures forall i | 0 <= i < |bounds| :: retallied[i] == bounds[i].(
              objectCount := |InPartition(items, BoundId(bounds[i]))|,
              inputBytes := Bytes(InPartition(items, BoundId(bounds[i]))))
  {
    seq(|bounds|, i requires 0 <= i < |bounds| => bounds[i].(
      objectCount := |InPartition(items, BoundId(bounds[i]))|,
      inputBytes := Bytes(InPartition(items, BoundId(bounds[i])))))
  }

  /** One more item is counted by the one bound of its partition, if there is one. */
  lemma {:induction false} OneBoundCounts(bounds: seq<Bound>, items: seq<Item>, x: Item)
    requires forall i, j | 0 <= i < j < |bounds| :: BoundId(bounds[i]) != BoundId(bounds[j])
    ensures var here := Id(x) in BoundIds(bounds);
            && SumCounts(Retallied(bounds, items + [x])) ==
                 SumCounts(Retallied(bounds, items)) + (if here then 1 else 0)
            && SumBytes(Retallied(bounds, items + [x])) ==
                 SumBytes(Retallied(bounds, items)) + (if here then x.file.sizeBytes else 0)
  {
    if bounds == [] {
      assert Retallied(bounds, items) == [] && Retallied(bounds, items + [x]) == [];
    } else {
      var front, b := bounds[..|bounds| - 1], bounds[|bounds| - 1];
      OneBoundCounts(front, items, x);
      GroupTotalsGrow(items, x, BoundId(b));
      TotalsUnfold(bounds, items);
      TotalsUnfold(bounds, items + [x]);
      LastBoundIsNew(bounds);
      hide SumCounts, SumBytes, Retallied, BoundIds, InPartition, Bytes;
    }
  }

  lemma TotalsUnfold(bounds: seq<Bound>, items: seq<Item>)
    requires bounds != []
    ensures var front, own := bounds[..|bounds| - 1], InPartition(items, BoundId(bounds[|bounds| - 1]));
            && SumCounts(Retallied(bounds, items)) == SumCounts(Retallied(front, items)) + |own|
            && SumBytes(Retallied(bounds, items)) == SumBytes(Retallied(front, items)) + Bytes(own)
  {
    hide InPartition, Bytes;
    assert Retallied(bounds, items)[..|bounds| - 1] == Retallied(bounds[..|bounds| - 1], items);
  }

  lemma LastBoundIsNew(bounds: seq<Bound>)
    requires bounds != [] && forall i, j | 0 <= i < j < |bounds| :: BoundId(bounds[i]) != BoundId(bounds[j])
    ensures var front, id := bounds[..|bounds| - 1], BoundId(bounds[|bounds| - 1]);
            id !in BoundIds(front) && forall x :: x in BoundIds(bounds) <==> x in BoundIds(front) || x == id
  {
    var front := bounds[..|bounds| - 1];
    assert BoundIds(bounds) == BoundIds(front) + [BoundId(bounds[|bounds| - 1])];
  }

  lemma {:induction false} NothingToCount(bounds: seq<Bound>)
    ensures SumCounts(Retallied(bounds, [])) == 0 && SumBytes(Retallied(bounds, [])) == 0
  {
    if bounds != [] {
      var front := bounds[..|bounds| - 1];
      NothingToCount(front);
      assert Retallied(bounds, [])[..|front|] == Retallied(front, []);
    }
  }

  lemma {:induction false} EveryItemCountedOnce(bounds: seq<Bound>, items: seq<Item>)
    requires forall i, j | 0 <= i < j < |bounds| :: BoundId(bounds[i]) != BoundId(bounds[j])
    requires forall x | x in items :: Id(x) in BoundIds(bounds)
    ensures SumCounts(Retallied(bounds, items)) == |items| && SumBytes(Retallied(bounds, items)) == Bytes(items)
  {
    hide InPartition, SumCounts, SumBytes, Retallied, BoundIds;
    if items == [] {
      NothingToCount(bounds);
    } else {
      var front, x := items[..|items| - 1], items[|items| - 1];
      assert x in items;
      EveryItemCountedOnce(bounds, front);
      OneBoundCounts(bounds, front, x);
      assert front + [x] == items;
    }
  }

  /** The partition rows of an accepted bounded manifest add up to its totals. */
  lemma PartitionsAddUp(payload: Payload)
    requires Accepted(payload) && payload.schemaVersion != 1
    ensures SumCounts(payload.partitions) == payload.objectCount && SumBytes(payload.partitions) == payload.inputBytes
  {
    hide ParseBronzeCoordinate, SourceControlOk;
    var bounds, items := payload.partitions, Items(payload.objects);
    forall i, j | 0 <= i < j < |bounds| ensures BoundId(bounds[i]) != BoundId(bounds[j]) {
      assert BoundIds(bounds)[i] != BoundIds(bounds)[j];
    }
    forall x | x in items ensures Id(x) in BoundIds(bounds) {
      var k :| 0 <= k < |items| && items[k] == x;
      assert Fits(bounds, items[k]);
      var i :| 0 <= i < |bounds| && BoundId(bounds[i]) == Id(items[k]);
      assert BoundIds(bounds)[i] == Id(x);
    }
    EveryItemCountedOnce(bounds, items);
    assert Retallied(bounds, items) == bounds by {
      forall i | 0 <= i < |bounds| ensures Retallied(bounds, items)[i] == bounds[i] {
        assert CountsExact(bounds[i], items);
      }
    }
  }
}
