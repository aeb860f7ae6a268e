/** What a new batch seals: the listing it discovers, the highs and the boundary it continues, and its payload. */
module Sealing {
  import opened Wrappers
  import opened Ordering
  import opened Manifest
  import opened ManifestValidation
  import opened ManifestFields
  import opened LedgerControl
  import opened SourceControlFields
  import opened Control

  // ---------------------------------------------------------------- discovery

  /** No two positions of the listing name one coordinate. */
  ghost predicate NoCoordinateTwice(page: seq<BronzeObject>) {
    forall i, j | 0 <= i < j < |page| && CoordinateOf(page[i]).Some? :: CoordinateOf(page[i]) != CoordinateOf(page[j])
  }

  lemma ParsedGrows(page: seq<BronzeObject>)
    requires page != []
    ensures var front, last := page[..|page| - 1], ItemOf(page[|page| - 1]);
            Parsed(page) == if last.Some? then Parsed(front) + [last.value] else Parsed(front)
  {
    hide ItemOf;
  }

  lemma {:induction false} ParsedInFields(page: seq<BronzeObject>)
    ensures forall x :: x in Parsed(page) <==> x.file in page && ItemOf(x.file) == Some(x)
    ensures WellParsed(Parsed(page))
  {
    if page != [] {
      ParsedGrows(page);
      var front, o := page[..|page| - 1], page[|page| - 1];
      ParsedInFields(front);
      ItemInFields(o);
      hide ItemOf, CoordinateOf, Parsed;
      assert forall y :: y in page <==> y in front || y == o;
      NamesAreItems();
    }
  }

  lemma OneMoreCoordinate(items: seq<Item>, x: Item)
    ensures UniqueCoordinates(items + [x]) <==>
              UniqueCoordinates(items) && forall y | y in items :: !(Id(y) == Id(x) && y.offset == x.offset)
  {
    var all := items + [x];
    if UniqueCoordinates(all) {
      forall i, j | 0 <= i < j < |items| ensures !(Id(items[i]) == Id(items[j]) && items[i].offset == items[j].offset) {
        assert all[i] == items[i] && all[j] == items[j];
      }
      forall y | y in items ensures !(Id(y) == Id(x) && y.offset == x.offset) {
        var i :| 0 <= i < |items| && items[i] == y;
        assert all[i] == y && all[|items|] == x;
      }
    }
  }

  lemma OneMoreName(page: seq<BronzeObject>, o: BronzeObject)
    ensures NoCoordinateTwice(page + [o]) <==>
              NoCoordinateTwice(page)
              && forall y | y in page && CoordinateOf(y).Some? :: CoordinateOf(y) != CoordinateOf(o)
  {
    hide CoordinateOf;
    var all := page + [o];
    if NoCoordinateTwice(all) {
      forall i, j | 0 <= i < j < |page| && CoordinateOf(page[i]).Some?
        ensures CoordinateOf(page[i]) != CoordinateOf(page[j])
      {
        assert all[i] == page[i] && all[j] == page[j];
      }
      forall y | y in page && CoordinateOf(y).Some? ensures CoordinateOf(y) != CoordinateOf(o) {
        var i :| 0 <= i < |page| && page[i] == y;
        assert all[i] == y && all[|page|] == o;
      }
    }
  }

  lemma {:induction false} UniqueInFields(page: seq<BronzeObject>)
    ensures UniqueCoordinates(Parsed(page)) <==> NoCoordinateTwice(page)
  {
    if page != [] {
      var front, o := page[..|page| - 1], page[|page| - 1];
      assert front + [o] == page;
      hide ItemOf, CoordinateOf, Parsed, UniqueCoordinates, NoCoordinateTwice;
      UniqueInFields(front);
      ParsedGrows(page);
      OneMoreName(front, o);
      ItemInFields(o);
      if ItemOf(o).Some? {
        OneMoreCoordinate(Parsed(front), ItemOf(o).value);
        NewNameIsNewItem(front, o);
      }
    }
  }

  lemma NewNameIsNewItem(front: seq<BronzeObject>, o: BronzeObject)
    requires ItemOf(o).Some?
    ensures (forall y | y in Parsed(front) ::
               !(Id(y) == Id(ItemOf(o).value) && y.offset == ItemOf(o).value.offset))
       <==> forall y | y in front && CoordinateOf(y).Some? :: CoordinateOf(y) != CoordinateOf(o)
  {
    ParsedInFields(front);
    forall y: BronzeObject
      ensures ItemOf(y).Some? <==> CoordinateOf(y).Some?
      ensures ItemOf(y).Some? ==>
                ItemOf(y).value == Item(y, CoordinateOf(y).value.topic, CoordinateOf(y).value.partition,
                                        CoordinateOf(y).value.offset)
    {
      ItemInFields(y);
    }
    hide ItemOf, CoordinateOf, Parsed;
    forall y | y in front && CoordinateOf(y).Some? ensures ItemOf(y).value in Parsed(front) {
    }
  }

  /** The discovery succeeds if and only if some key of the listing names a coordinate and none names one twice. */
  lemma DiscoverySucceedsExactly(c: CreateInput)
    ensures Discover(c.page).Ok? <==> (exists o :: o in c.page && CoordinateOf(o).Some?) && NoCoordinateTwice(c.page)
  {
    ParsedInFields(c.page);
    UniqueInFields(c.page);
    var items := Parsed(c.page);
    if UniqueCoordinates(items) { WellParsedKeysAreUnique(items); }
    HasElement(items);
    NamesAreItems();
    hide ItemOf, CoordinateOf, Parsed, ManifestLe, Sort, UniqueCoordinates, NoCoordinateTwice, UniqueKeys, WellParsed;
    if o :| o in c.page && CoordinateOf(o).Some? { assert ItemOf(o).value in items; }
  }

  lemma NamesAreItems()
    ensures forall o :: ItemOf(o).Some? <==> CoordinateOf(o).Some?
    ensures forall o | ItemOf(o).Some? :: ItemOf(o).value.file == o
  {
    forall o: BronzeObject
      ensures ItemOf(o).Some? <==> CoordinateOf(o).Some?
      ensures ItemOf(o).Some? ==> ItemOf(o).value.file == o
    {
      ItemInFields(o);
    }
    hide ItemOf, CoordinateOf;
  }

  /** And it hands on exactly the objects whose keys name a coordinate. */
  lemma DiscoveryListsExactly(c: CreateInput, o: BronzeObject)
    requires Discover(c.page).Ok?
    ensures o in Listing(c) <==> o in c.page && CoordinateOf(o).Some?
  {
    ParsedInFields(c.page);
    var items := Parsed(c.page);
    var sorted := Sort(ManifestLe, items);
    ManifestLeIsTotal();
    SortIsOrderedPermutation(ManifestLe, items);
    SameMultisetSameElements(sorted, items);
    FilesOf(sorted);
    NamesAreItems();
    hide ItemOf, CoordinateOf, Parsed, ManifestLe, Sort, UniqueCoordinates, UniqueKeys, WellParsed, Objects;
    if o in Listing(c) {
      var x :| x in sorted && x.file == o;
    }
    if o in c.page && CoordinateOf(o).Some? { assert ItemOf(o).value in sorted; }
  }

  lemma FilesOf(items: seq<Item>)
    ensures forall o :: o in Objects(items) <==> exists x :: x in items && x.file == o
  {
    forall o ensures o in Objects(items) <==> exists x :: x in items && x.file == o {
      if o in Objects(items) {
        var i :| 0 <= i < |items| && Objects(items)[i] == o;
        assert items[i] in items;
      }
      if x :| x in items && x.file == o {
        var i :| 0 <= i < |items| && items[i] == x;
        assert Objects(items)[i] == o;
      }
    }
  }

  // ---------------------------------------------------------------- where the batch begins

  /** The highs are those of the batch published last, partition by partition. */
  lemma HighsAreLastPublished(db: Db, topic: string, partition: int)
    requires db.published != [] && db.published[|db.published| - 1] in db.batches
    ensures var bounds, high := db.batches[db.published[|db.published| - 1]].partitions,
                                PreviousHigh(PreviousHighs(db), topic, partition);
            if exists b :: b in bounds && b.topic == topic && b.partition == partition
            then exists b :: b in bounds && b.topic == topic && b.partition == partition && high == b.high
            else high == -1
  {
    var bounds := db.batches[db.published[|db.published| - 1]].partitions;
    HighsInBounds(bounds, topic, partition);
    hide HighsOf;
  }

  lemma {:induction false} HighsInBounds(bounds: seq<Bound>, topic: string, partition: int)
    ensures var highs := HighsOf(bounds);
            && ((topic, partition) in highs <==> exists b ::
                 b in bounds && b.topic == topic && b.partition == partition)
            && ((topic, partition) in highs ==>
                  exists b :: b in bounds && b.topic == topic && b.partition == partition
                              && b.high == highs[(topic, partition)])
  {
    if bounds != [] {
      var front, last := bounds[..|bounds| - 1], bounds[|bounds| - 1];
      HighsInBounds(front, topic, partition);
      assert forall b :: b in bounds <==> b in front || b == last;
      var highs := HighsOf(bounds);
      if last.topic == topic && last.partition == partition {
        assert last in bounds && highs[(topic, partition)] == last.high;
      }
    }
  }

  /** A transaction listed in a published batch. */
  ghost predicate IsPublished(batches: map<string, Batch>, published: seq<string>, t: Transaction) {
    exists id :: id in published && id in batches && t in batches[id].transactions
  }

  /** The boundary is the greatest of the transactions listed in published batches, if there is one. */
  lemma {:induction false} BoundaryIsGreatest(batches: map<string, Batch>, published: seq<string>)
    ensures var boundary := PublishedBoundary(batches, published);
            && (boundary.Some? ==> exists t :: IsPublished(batches, published, t) && boundary == Some(t.boundary))
            && forall t | IsPublished(batches, published, t) :: boundary.Some? && t.boundary <= boundary.value
  {
    if published != [] {
      var front, last := published[..|published| - 1], published[|published| - 1];
      BoundaryIsGreatest(batches, front);
      forall t ensures IsPublished(batches, published, t) <==>
                         IsPublished(batches, front, t) || (last in batches && t in batches[last].transactions)
      {
        assert forall id :: id in published <==> id in front || id == last;
      }
      if last in batches { GreatestOfBatch(batches[last].transactions); }
      hide IsPublished, MaxBoundary;
    }
  }

  lemma {:induction false} GreatestOfBatch(ts: seq<Transaction>)
    ensures MaxBoundary(ts).Some? ==> exists t :: t in ts && MaxBoundary(ts) == Some(t.boundary)
    ensures forall t | t in ts :: MaxBoundary(ts).Some? && t.boundary <= MaxBoundary(ts).value
  {
    if ts != [] { GreatestOfBatch(ts[..|ts| - 1]); }
  }

  // ---------------------------------------------------------------- the payload

  /**
   The payload a new batch seals: the objects discovered above the highs published last, and a source control
   over exactly these objects that begins behind the boundary published before.
   */
  lemma SealedInFields(db: Db, c: CreateInput)
    requires SealedPayload(db, c).Ok? && UniqueTxids(c.ledger)
    ensures var p, highs, listed := SealedPayload(db, c).value, PreviousHighs(db), Listing(c);
            && p.schemaVersion == 3 && p.batchId == c.batchId && p.sourceAdapter == c.sourceAdapter
            && p.contractVersion == c.contractVersion && p.createdAt == c.now
            && BoundsSeal(p, listed, highs) && ObjectsSeal(p, listed, highs)
            && AllReadable(c.bodies, p.objects) && p.sourceControl.Some?
            && var sc, events, previous := p.sourceControl.value, Events(c.bodies, p.objects),
                                           PublishedBoundary(db.batches, db.published);
               && sc.previousBoundary == previous && ListsInterval(sc, previous, c.ledger, events)
               && CountsEvents(sc, events)
  {
    var highs, listed := PreviousHighs(db), Listing(c);
    var preliminary := BuildPayload(c.batchId, listed, highs, c.sourceAdapter, c.contractVersion, c.now, None).value;
    var events, previous := Events(c.bodies, preliminary.objects), PublishedBoundary(db.batches, db.published);
    var control := SourceControlFor(previous, c.ledger, events);
    hide PreviousHighs, PublishedBoundary, SourceControlFor, AllReadable, Listing;
    SameObjects(c, highs, control);
    BuiltPayloadSeals(c.batchId, listed, highs, c.sourceAdapter, c.contractVersion, c.now, Some(control));
    ControlSaysExactly(previous, c.ledger, events);
    hide BuildPayload, BoundsSeal, ObjectsSeal, ListsInterval, CountsEvents;
  }

  lemma SameObjects(c: CreateInput, highs: map<Identity, int>, control: SourceControl)
    ensures var first := BuildPayload(c.batchId, Listing(c), highs, c.sourceAdapter, c.contractVersion, c.now, None);
            var second := BuildPayload(c.batchId, Listing(c), highs, c.sourceAdapter, c.contractVersion, c.now,
                                       Some(control));
            (first.Ok? <==> second.Ok?) && (first.Ok? ==> first.value.objects == second.value.objects)
  {
    hide AllParse, FirstError, Selected, Bounds, Bytes, Listing;
  }
}
