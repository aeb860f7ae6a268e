/**
 Immutable CDC offset manifests: selection of the objects in (low, high] per topic partition,
 validation of a stored document, and the frozen source-ledger control.

 The SHA-256 of a canonical payload is a constructor, that is, an injective function.
 */
module Manifest {
  import opened Wrappers
  import opened Ordering
  import opened Encodings

  datatype BronzeObject = BronzeObject(objectKey: string, sizeBytes: int, storageEtag: string)

  /** A listed object with the coordinate parsed from its key. */
  datatype Item = Item(file: BronzeObject, topic: string, partition: nat, offset: nat)

  type Identity = (string, int)

  datatype Bound = Bound(topic: string, partition: int, low: int, high: int,
                         objectCount: int, inputBytes: int)

  datatype Verdict = PASS | FAIL

  datatype Transaction = Transaction(txid: int, runId: string, eventKey: string, boundaryLsn: string,
                                     boundary: int, expected: int, observed: int,
                                     lsnLow: Option<int>, lsnHigh: Option<int>, status: Verdict)

  datatype SourceControl = SourceControl(contractVersion: string, positionType: string,
                                         previousBoundary: Option<int>, boundaryHigh: Option<int>,
                                         expected: int, observed: int, untracked: int,
                                         tableCounts: map<string, int>, operationCounts: map<string, int>,
                                         transactions: seq<Transaction>)

  datatype Payload = Payload(schemaVersion: int, batchId: string, sourceAdapter: string,
                             contractVersion: string, createdAt: string, semantics: string,
                             readerMode: string, partitions: seq<Bound>, objects: seq<BronzeObject>,
                             objectCount: int, inputBytes: int, sourceControl: Option<SourceControl>)

  datatype Digest = Sha256(payload: Payload)

  datatype Document = Document(sha: Digest, payload: Payload)

  datatype ManifestError =
    | NoCoordinate | Empty | DuplicateOffset | Regressed
    | WrongChecksum | WrongBatch | Malformed | Conflict | Missing

  const BOUNDED := "bounded_object_list"
  const LEGACY := "history_snapshot_capped_at_high"
  const SEMANTICS := "(watermark_low, watermark_high]"

  // ---------------------------------------------------------------- listed items

  function ItemOf(o: BronzeObject): Option<Item> {
    match ParseBronzeCoordinate(o.objectKey)
    case None => None
    case Some(c) => Some(Item(o, c.topic, c.partition, c.offset))
  }

  predicate AllParse(objects: seq<BronzeObject>) {
    forall i | 0 <= i < |objects| :: ItemOf(objects[i]).Some?
  }

  function Items(objects: seq<BronzeObject>): (items: seq<Item>)
    requires AllParse(objects)
    ensures |items| == |objects|
  {
    seq(|objects|, i requires 0 <= i < |objects| => ItemOf(objects[i]).value)
  }

  function Objects(items: seq<Item>): seq<BronzeObject> {
    seq(|items|, i requires 0 <= i < |items| => items[i].file)
  }

  function Id(item: Item): Identity { (item.topic, item.partition) }

  function BoundId(bound: Bound): Identity { (bound.topic, bound.partition) }

  predicate IdLe(a: Identity, b: Identity) {
    if a.0 == b.0 then a.1 <= b.1 else StringLe(a.0, b.0)
  }

  /** Order of objects inside one partition. */
  predicate ItemLe(a: Item, b: Item) {
    if a.offset == b.offset then StringLe(a.file.objectKey, b.file.objectKey) else a.offset < b.offset
  }

  /** Order of objects in a manifest: coordinate, then key. */
  predicate ManifestLe(a: Item, b: Item) {
    if Id(a) == Id(b) then ItemLe(a, b) else IdLe(Id(a), Id(b))
  }

  predicate StrictlySorted(ids: seq<Identity>) {
    forall i, j | 0 <= i < j < |ids| :: IdLe(ids[i], ids[j]) && ids[i] != ids[j]
  }

  // ---------------------------------------------------------------- discovery

  predicate UniqueCoordinates(items: seq<Item>) {
    forall i, j | 0 <= i < j < |items| :: !(Id(items[i]) == Id(items[j]) && items[i].offset == items[j].offset)
  }

  predicate UniqueKeys(items: seq<Item>) {
    forall i, j | 0 <= i < j < |items| :: items[i].file.objectKey != items[j].file.objectKey
  }

  /** The parseable objects of a bucket listing, in listing order. */
  function Parsed(page: seq<BronzeObject>): seq<Item> {
    if page == [] then [] else
    var rest, item := Parsed(page[..|page| - 1]), ItemOf(page[|page| - 1]);
    if item.Some? then rest + [item.value] else rest
  }

  /**
   discover_bronze_objects: keys without a coordinate are skipped; an empty result or a repeated
   coordinate or key raises; otherwise the parsed objects are returned in manifest order.
   */
  function Discover(page: seq<BronzeObject>): Result<seq<Item>, ManifestError> {
    var items := Parsed(page);
    if items == [] then Err(Empty)
    else if !UniqueCoordinates(items) || !UniqueKeys(items) then Err(DuplicateOffset)
    else Ok(Sort(ManifestLe, items))
  }

  method DiscoverBronzeObjects(page: seq<BronzeObject>) returns (r: Result<seq<Item>, ManifestError>)
    ensures r == Discover(page)
    ensures r.Ok? <==> Parsed(page) != [] && UniqueCoordinates(Parsed(page)) && UniqueKeys(Parsed(page))
    ensures r.Ok? ==> multiset(r.value) == multiset(Parsed(page)) && SortedBy(ManifestLe, r.value)
  {
    hide ParseBronzeCoordinate;
    var items: seq<Item> := [];
    for i := 0 to |page|
      invariant items == Parsed(page[..i])
    {
      assert page[..i + 1][..i] == page[..i];
      var item := ItemOf(page[i]);
      if item.Some? {
        items := items + [item.value];
      }
    }
    assert page[..|page|] == page;
    if items == [] {
      return Err(Empty);
    }
    if !UniqueCoordinates(items) || !UniqueKeys(items) {
      return Err(DuplicateOffset);
    }
    ManifestLeIsTotal();
    SortIsOrderedPermutation(ManifestLe, items);
    r := Ok(Sort(ManifestLe, items));
  }

  lemma ManifestLeIsTotal()
    ensures TotalPreorder(ManifestLe)
  {
    IdLeIsTotal();
    ItemLeIsTotal();
    hide IdLe, ItemLe;
    forall a: Item, b: Item, c: Item | ManifestLe(a, b) && ManifestLe(b, c) ensures ManifestLe(a, c) {
    }
  }

  // ---------------------------------------------------------------- selection

  function InPartition(items: seq<Item>, id: Identity): seq<Item> {
    if items == [] then [] else
    var rest := InPartition(items[..|items| - 1], id);
    if Id(items[|items| - 1]) == id then rest + [items[|items| - 1]] else rest
  }

  /** The partitions of a listing in order of first appearance. */
  function Identities(items: seq<Item>): seq<Identity> {
    if items == [] then [] else
    var rest := Identities(items[..|items| - 1]);
    var id := Id(items[|items| - 1]);
    if id in rest then rest else rest + [id]
  }

  function Low(previousHighs: map<Identity, int>, id: Identity): int {
    if id in previousHighs then previousHighs[id] else -1
  }

  function PartitionItems(items: seq<Item>, id: Identity): seq<Item> {
    Sort(ItemLe, InPartition(items, id))
  }

  function Above(items: seq<Item>, low: int): seq<Item> {
    if items == [] then [] else
    var rest := Above(items[..|items| - 1], low);
    if low < items[|items| - 1].offset then rest + [items[|items| - 1]] else rest
  }

  function Bytes(items: seq<Item>): int {
    if items == [] then 0 else Bytes(items[..|items| - 1]) + items[|items| - 1].file.sizeBytes
  }

  predicate DistinctOffsets(items: seq<Item>) {
    forall i, j | 0 <= i < j < |items| :: items[i].offset != items[j].offset
  }

  function HighOf(items: seq<Item>): int {
    if items == [] then -1 else items[|items| - 1].offset
  }

  function SelectedIn(items: seq<Item>, previousHighs: map<Identity, int>, id: Identity): seq<Item> {
    Above(PartitionItems(items, id), Low(previousHighs, id))
  }

  function BoundFor(items: seq<Item>, previousHighs: map<Identity, int>, id: Identity): Bound {
    var selected := SelectedIn(items, previousHighs, id);
    Bound(id.0, id.1, Low(previousHighs, id), HighOf(PartitionItems(items, id)), |selected|, Bytes(selected))
  }

  function PartitionError(items: seq<Item>, previousHighs: map<Identity, int>, id: Identity): Option<ManifestError> {
    var ordered := PartitionItems(items, id);
    if !DistinctOffsets(ordered) then Some(DuplicateOffset)
    else if HighOf(ordered) < Low(previousHighs, id) then Some(Regressed)
    else None
  }

  function FirstError(items: seq<Item>, previousHighs: map<Identity, int>, ids: seq<Identity>): Option<ManifestError> {
    if ids == [] then None else
    var earlier := FirstError(items, previousHighs, ids[..|ids| - 1]);
    if earlier.Some? then earlier else PartitionError(items, previousHighs, ids[|ids| - 1])
  }

  function Bounds(items: seq<Item>, previousHighs: map<Identity, int>, ids: seq<Identity>): (bounds: seq<Bound>)
    ensures |bounds| == |ids|
    ensures forall i | 0 <= i < |ids| :: bounds[i] == BoundFor(items, previousHighs, ids[i])
  {
    if ids == [] then [] else
    Bounds(items, previousHighs, ids[..|ids| - 1]) + [BoundFor(items, previousHighs, ids[|ids| - 1])]
  }

  function Selected(items: seq<Item>, previousHighs: map<Identity, int>, ids: seq<Identity>): seq<Item> {
    if ids == [] then [] else
    Selected(items, previousHighs, ids[..|ids| - 1]) + SelectedIn(items, previousHighs, ids[|ids| - 1])
  }

  function BuildPayload(batchId: string, objects: seq<BronzeObject>, previousHighs: map<Identity, int>,
                        sourceAdapter: string, contractVersion: string, createdAt: string,
                        sourceControl: Option<SourceControl>): Result<Payload, ManifestError>
  {
    if !AllParse(objects) then Err(NoCoordinate)
    else if objects == [] then Err(Empty)
    else
      var items := Items(objects);
      var ids := Sort(IdLe, Identities(items));
      var error := FirstError(items, previousHighs, ids);
      if error.Some? then Err(error.value) else
      var selected := Selected(items, previousHighs, ids);
      Ok(Payload(if sourceControl.Some? then 3 else 2, batchId, sourceAdapter, contractVersion, createdAt,
                 SEMANTICS, BOUNDED, Bounds(items, previousHighs, ids), Objects(selected),
                 |selected|, Bytes(selected), sourceControl))
  }

  lemma ItemsGrow(objects: seq<BronzeObject>, i: nat)
    requires i < |objects| && AllParse(objects[..i]) && ItemOf(objects[i]).Some?
    ensures AllParse(objects[..i + 1])
    ensures Items(objects[..i + 1]) == Items(objects[..i]) + [ItemOf(objects[i]).value]
  {
    hide ParseBronzeCoordinate;
  }

  lemma GroupsGrow(items: seq<Item>, item: Item)
    ensures Identities(items + [item]) == if Id(item) in Identities(items) then Identities(items)
              else Identities(items) + [Id(item)]
    ensures forall id :: InPartition(items + [item], id) == if Id(item) == id then InPartition(items, id) + [item]
              else InPartition(items, id)
  {
    assert (items + [item])[..|items|] == items;
  }

  /** The default dictionary of the grouping pass, with its keys in insertion order. */
  ghost predicate Grouping(keys: seq<Identity>, grouped: map<Identity, seq<Item>>, items: seq<Item>) {
    && keys == Identities(items)
    && (forall id :: id in grouped <==> id in keys)
    && (forall id | id in grouped :: grouped[id] == InPartition(items, id))
    && (forall id | id !in grouped :: InPartition(items, id) == [])
  }

  lemma NothingGrouped()
    ensures Grouping([], map[], [])
  {
  }

  lemma GroupingGrows(keys: seq<Identity>, grouped: map<Identity, seq<Item>>, items: seq<Item>, item: Item)
    requires Grouping(keys, grouped, items)
    ensures var id := Id(item);
            if id in grouped then Grouping(keys, grouped[id := grouped[id] + [item]], items + [item])
            else Grouping(keys + [id], grouped[id := []][id := [] + [item]], items + [item])
  {
    GroupsGrow(items, item);
    hide Identities, InPartition;
  }

  /** First pass of `build_manifest_payload`: parse every key and group by topic partition. */
  method GroupByPartition(objects: seq<BronzeObject>)
    returns (parsed: bool, keys: seq<Identity>, grouped: map<Identity, seq<Item>>)
    ensures parsed <==> AllParse(objects)
    ensures parsed ==> Grouping(keys, grouped, Items(objects))
  {
    keys, grouped := [], map[];
    NothingGrouped();
    hide ParseBronzeCoordinate, Grouping;
    var i := 0;
    while i < |objects|
      invariant 0 <= i <= |objects| && AllParse(objects[..i])
      invariant Grouping(keys, grouped, Items(objects[..i]))
    {
      var item := ItemOf(objects[i]);
      if item.None? {
        return false, keys, grouped;
      }
      ItemsGrow(objects, i);
      GroupingGrows(keys, grouped, Items(objects[..i]), item.value);
      var id := Id(item.value);
      if id !in grouped {
        keys := keys + [id];
        grouped := grouped[id := []];
      }
      grouped := grouped[id := grouped[id] + [item.value]];
      i := i + 1;
    }
    assert objects[..i] == objects;
    parsed := true;
  }

  lemma SelectionGrows(items: seq<Item>, previousHighs: map<Identity, int>, ids: seq<Identity>, j: nat)
    requires j < |ids|
    ensures Bounds(items, previousHighs, ids[..j + 1]) ==
              Bounds(items, previousHighs, ids[..j]) + [BoundFor(items, previousHighs, ids[j])]
    ensures Selected(items, previousHighs, ids[..j + 1]) ==
              Selected(items, previousHighs, ids[..j]) + SelectedIn(items, previousHighs, ids[j])
    ensures FirstError(items, previousHighs, ids[..j]).None? ==>
              FirstError(items, previousHighs, ids[..j + 1]) == PartitionError(items, previousHighs, ids[j])
  {
    assert ids[..j + 1][..j] == ids[..j];
  }

  /** Second pass of `build_manifest_payload`: bounds and objects of the sorted partitions. */
  method SelectPartitions(grouped: map<Identity, seq<Item>>, ids: seq<Identity>,
                          previousHighs: map<Identity, int>, ghost items: seq<Item>)
    returns (error: Option<ManifestError>, bounds: seq<Bound>, bounded: seq<Item>)
    requires forall id | id in ids :: id in grouped && grouped[id] == InPartition(items, id)
    ensures error == FirstError(items, previousHighs, ids)
    ensures error.None? ==>
              bounds == Bounds(items, previousHighs, ids) && bounded == Selected(items, previousHighs, ids)
  {
    bounds, bounded := [], [];
    var j := 0;
    assert FirstError(items, previousHighs, ids[..0]).None?;
    assert Bounds(items, previousHighs, ids[..0]) == [] && Selected(items, previousHighs, ids[..0]) == [];
    hide FirstError, Bounds, Selected, Sort, Above, Bytes, InPartition, DistinctOffsets;
    while j < |ids|
      invariant 0 <= j <= |ids|
      invariant FirstError(items, previousHighs, ids[..j]).None?
      invariant bounds == Bounds(items, previousHighs, ids[..j])
      invariant bounded == Selected(items, previousHighs, ids[..j])
    {
      SelectionGrows(items, previousHighs, ids, j);
      var id := ids[j];
      var ordered := Sort(ItemLe, grouped[id]);
      if !DistinctOffsets(ordered) {
        FirstErrorIsFinal(items, previousHighs, ids, j + 1);
        return Some(DuplicateOffset), bounds, bounded;
      }
      var low := if id in previousHighs then previousHighs[id] else -1;
      var high := HighOf(ordered);
      if high < low {
        FirstErrorIsFinal(items, previousHighs, ids, j + 1);
        return Some(Regressed), bounds, bounded;
      }
      var selected := Above(ordered, low);
      bounded := bounded + selected;
      bounds := bounds + [Bound(id.0, id.1, low, high, |selected|, Bytes(selected))];
      j := j + 1;
    }
    assert ids[..j] == ids;
    error := None;
  }

  method BuildManifestPayload(batchId: string, objects: seq<BronzeObject>, previousHighs: map<Identity, int>,
                              sourceAdapter: string, contractVersion: string, createdAt: string,
                              sourceControl: Option<SourceControl>)
    returns (r: Result<Payload, ManifestError>)
    ensures r == BuildPayload(batchId, objects, previousHighs, sourceAdapter, contractVersion, createdAt, sourceControl)
  {
    hide ParseBronzeCoordinate;
    var parsed, keys, grouped := GroupByPartition(objects);
    if !parsed {
      return Err(NoCoordinate);
    }
    ghost var items := Items(objects);
    IdentitiesExact(items);
    assert objects != [] ==> Id(items[0]) in keys;
    if keys == [] {
      return Err(Empty);
    }
    IdentitiesSorted(items);
    var ids := Sort(IdLe, keys);
    var error, bounds, bounded := SelectPartitions(grouped, ids, previousHighs, items);
    if error.Some? {
      return Err(error.value);
    }
    r := Ok(Payload(if sourceControl.Some? then 3 else 2, batchId, sourceAdapter, contractVersion, createdAt,
                    SEMANTICS, BOUNDED, bounds, Objects(bounded), |bounded|, Bytes(bounded), sourceControl));
  }

  lemma {:induction false} FirstErrorIsFinal(items: seq<Item>, previousHighs: map<Identity, int>, ids: seq<Identity>,
                                             k: nat)
    requires k <= |ids| && FirstError(items, previousHighs, ids[..k]).Some?
    ensures FirstError(items, previousHighs, ids) == FirstError(items, previousHighs, ids[..k])
    decreases |ids|
  {
    if k == |ids| {
      assert ids[..k] == ids;
    } else {
      var front := ids[..|ids| - 1];
      assert front[..k] == ids[..k];
      FirstErrorIsFinal(items, previousHighs, front, k);
    }
  }

  // ---------------------------------------------------------------- order facts

  lemma IdLeIsTotal()
    ensures TotalPreorder(IdLe)
    ensures forall a, b :: IdLe(a, b) && IdLe(b, a) ==> a == b
  {
    forall a: Identity, b: Identity ensures (IdLe(a, b) || IdLe(b, a)) && (IdLe(a, b) && IdLe(b, a) ==> a == b) {
      StringLeTotal(a.0, b.0);
    }
    forall a: Identity, b: Identity, c: Identity | IdLe(a, b) && IdLe(b, c) ensures IdLe(a, c) {
      StringLeTotal(a.0, b.0);
      StringLeTotal(b.0, c.0);
      if StringLe(a.0, b.0) && StringLe(b.0, c.0) { StringLeTransitive(a.0, b.0, c.0); }
    }
  }

  lemma ItemLeIsTotal()
    ensures TotalPreorder(ItemLe)
  {
    forall a: Item, b: Item ensures ItemLe(a, b) || ItemLe(b, a) {
      StringLeTotal(a.file.objectKey, b.file.objectKey);
    }
    forall a: Item, b: Item, c: Item | ItemLe(a, b) && ItemLe(b, c) ensures ItemLe(a, c) {
      if a.offset == b.offset == c.offset {
        StringLeTransitive(a.file.objectKey, b.file.objectKey, c.file.objectKey);
      }
    }
  }

  lemma {:induction false} IdentitiesExact(items: seq<Item>)
    ensures Unique(Identities(items))
    ensures forall id :: id in Identities(items) <==> exists i :: 0 <= i < |items| && Id(items[i]) == id
  {
    if items != [] {
      var front := items[..|items| - 1];
      IdentitiesExact(front);
      var last := Id(items[|items| - 1]);
      forall id ensures id in Identities(items) <==> exists i :: 0 <= i < |items| && Id(items[i]) == id {
        if id in Identities(front) {
          var i :| 0 <= i < |front| && Id(front[i]) == id;
          assert Id(items[i]) == id;
        } else if id == last {
          assert Id(items[|items| - 1]) == id;
        } else {
          assert forall i :: 0 <= i < |front| ==> front[i] == items[i];
        }
      }
    }
  }

  lemma IdentitiesSorted(items: seq<Item>)
    ensures StrictlySorted(Sort(IdLe, Identities(items)))
    ensures forall id :: id in Sort(IdLe, Identities(items)) <==> id in Identities(items)
  {
    var ids := Identities(items);
    IdLeIsTotal();
    IdentitiesExact(items);
    SortIsOrderedPermutation(IdLe, ids);
    SameMultisetSameElements(Sort(IdLe, ids), ids);
  }
}
