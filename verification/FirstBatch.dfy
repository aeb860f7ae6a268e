/** One event, one ledger row, one batch: a run of the control plane that reaches a publication. */
module FirstBatch {
  import opened Wrappers
  import opened Ordering
  import opened Encodings
  import opened Manifest
  import opened ManifestValidation
  import opened LedgerControl
  import opened Audit
  import opened Control
  import opened ControlInvariant
  import opened Publication
  import opened Progress
  import opened RawVault
  import P = Pipeline

  const OBJECT := BronzeObject(ObjectKey("raw", "t", 0, 0), 1, "")
  const ITEM := Item(OBJECT, "t", 0, 0)
  const BODY := Event(OBJECT.objectKey, "loans", "c", Tx(1), Some(1))
  const ROW := LedgerRow("r", "k", 1, 1, "0/2", 2)
  const BODIES := map[OBJECT.objectKey := BODY]
  const INPUT := CreateInput("b", "run", [OBJECT], BODIES, [ROW], "now", "cdc", "v1")
  const HISTORY := History([OBJECT], BODIES, [ROW])
  const BOUND := Bound("t", 0, -1, 0, 1, 1)

  lemma ObjectParses()
    ensures ItemOf(OBJECT) == Some(ITEM)
    ensures AllParse([OBJECT]) && Items([OBJECT]) == [ITEM] && Parsed([OBJECT]) == [ITEM]
  {
    hide ParseBronzeCoordinate, ObjectKey;
    KeyRoundTrip("raw", "t", 0, 0);
    assert [OBJECT][..0] == [];
    assert Parsed([OBJECT]) == Parsed([]) + [ITEM];
  }

  lemma SortOne<T>(le: (T, T) -> bool, x: T)
    ensures Sort(le, [x]) == [x]
  {
    assert Sort(le, [x][1..]) == [];
  }

  lemma Discovered()
    ensures Discover([OBJECT]) == Ok([ITEM]) && Listing(INPUT) == [OBJECT]
  {
    ObjectParses();
    SortOne(ManifestLe, ITEM);
    hide ParseBronzeCoordinate, ObjectKey, ManifestLe, Parsed;
    assert Objects([ITEM]) == [OBJECT];
  }

  lemma OnePartition(item: Item)
    ensures Identities([item]) == [Id(item)] && InPartition([item], Id(item)) == [item]
    ensures PartitionItems([item], Id(item)) == [item] && Above([item], -1) == [item]
            && Bytes([item]) == item.file.sizeBytes
  {
    assert [item][..0] == [] && [] + [item] == [item];
    assert Identities([item][..0]) == [] && InPartition([item][..0], Id(item)) == [];
    assert InPartition([item], Id(item)) == [item];
    SortOne(ItemLe, item);
    assert Above([item][..0], -1) == [] && Bytes([item][..0]) == 0;
  }

  lemma OneSelection(item: Item)
    ensures var ids := [Id(item)];
            && Sort(IdLe, Identities([item])) == ids && FirstError([item], map[], ids).None?
                 && Selected([item], map[], ids) == [item]
            && Bounds([item], map[], ids)
               == [Bound(item.topic, item.partition, -1, item.offset, 1, item.file.sizeBytes)]
  {
    OnePartition(item);
    var id := Id(item);
    var ids := [id];
    SortOne(IdLe, id);
    assert ids[..0] == [] && [] + [item] == [item];
    hide Identities, PartitionItems, InPartition, Above, Bytes, Sort;
    assert SelectedIn([item], map[], id) == [item];
    assert Selected([item], map[], ids[..0]) == [] && FirstError([item], map[], ids[..0]).None?;
    assert PartitionError([item], map[], id).None?;
  }

  lemma OneObjectPayload(o: BronzeObject, item: Item, c: CreateInput, control: Option<SourceControl>)
    requires ItemOf(o) == Some(item) && item.file == o
    ensures BuildPayload(c.batchId, [o], map[], c.sourceAdapter, c.contractVersion, c.now, control) ==
              Ok(Payload(if control.Some? then 3 else 2, c.batchId, c.sourceAdapter, c.contractVersion, c.now,
                         SEMANTICS, BOUNDED, [Bound(item.topic, item.partition, -1, item.offset, 1, o.sizeBytes)],
                         [o], 1, o.sizeBytes, control))
  {
    hide ItemOf, Sort, Identities, Selected, Bounds, FirstError, Bytes, AllParse, Items, Objects, PartitionItems, Above;
    OneSelection(item);
    OnePartition(item);
    OneItem(o, item);
  }

  lemma OneItem(o: BronzeObject, item: Item)
    requires ItemOf(o) == Some(item) && item.file == o
    ensures AllParse([o]) && Items([o]) == [item] && Objects([item]) == [o]
  {
    hide ItemOf;
  }

  lemma OneEvent()
    ensures AllReadable(BODIES, [OBJECT]) && Events(BODIES, [OBJECT]) == [BODY]
    ensures CountTx([BODY], 1) == 1 && CountUntracked([BODY]) == 0 && CountOutside([BODY], {1}) == 0
  {
    assert [BODY][..0] == [];
    assert CountTx([BODY][..0], 1) == 0 && CountUntracked([BODY][..0]) == 0 && CountOutside([BODY][..0], {1}) == 0;
  }

  lemma OneTransaction()
    ensures var control := SourceControlFor(None, [ROW], [BODY]);
            SourceBalanced(Some(control))
  {
    OneEvent();
    assert [ROW][..0] == [];
    assert PastBoundary([ROW][..0], None) == [];
    assert PastBoundary([ROW], None) == [ROW];
    SortOne(RowLe, ROW);
    assert MaxObservedBoundary([ROW][..0], [BODY]).None?;
    assert MaxObservedBoundary([ROW], [BODY]) == Some(2);
    assert UpTo([ROW][..0], Some(2)) == [];
    assert UpTo([ROW], Some(2)) == [ROW];
    var ts := TransactionsOf([ROW], [BODY]);
    assert ts == [TransactionOf(ROW, [BODY])];
    assert ts[..0] == [] && SumExpected(ts[..0]) == 0 && SumObserved(ts[..0]) == 0;
    assert SumExpected(ts) == 1 && SumObserved(ts) == 1;
    assert Ids([ROW]) == {1};
  }

  const CONTROL := SourceControlFor(None, [ROW], [BODY])
  const PAYLOAD := Payload(3, "b", "cdc", "v1", "now", SEMANTICS, BOUNDED, [BOUND], [OBJECT], 1, 1, Some(CONTROL))

  lemma Sealed()
    ensures SealedPayload(EMPTY_WORLD.db, INPUT) == Ok(PAYLOAD)
  {
    hide BuildPayload, SourceControlFor, Events, Discover, Listing, ObjectKey, AllReadable, ItemOf;
    Discovered();
    ObjectParses();
    OneEvent();
    OneObjectPayload(OBJECT, ITEM, INPUT, None);
    OneObjectPayload(OBJECT, ITEM, INPUT, Some(CONTROL));
    assert PublishedBoundary(map[], []) == None && PreviousHighs(EMPTY_WORLD.db) == map[];
  }

  lemma CreatesFirst(c: CreateInput, payload: Payload)
    requires 0 < |c.batchId| <= 250 && Discover(c.page).Ok? && SealedPayload(EMPTY_WORLD.db, c) == Ok(payload)
    ensures var w := Run([OpCreate(c, false)]);
            && w.db.created == [c.batchId] && w.db.batches == map[c.batchId := NewBatch(c, payload)]
                 && w.db.attempts == map[] && w.db.published == []
            && w.store.auditFiles == map[]
  {
    hide SealedPayload, Discover, NewBatch;
    assert [OpCreate(c, false)][..0] == [];
    assert Run([]) == EMPTY_WORLD;
    assert !HasRunningAttempt(EMPTY_WORLD.db) && !HasUnfinishedBatch(EMPTY_WORLD.db);
  }

  lemma CreationIsSeen()
    ensures RunIn(HISTORY, [OpCreate(INPUT, false)])
  {
    Discovered();
    ObjectParses();
    hide ParseBronzeCoordinate, ObjectKey, Discover, Listing;
    assert [OpCreate(INPUT, false)][..0] == [];
    assert Run([]).db == EMPTY_WORLD.db;
  }

  const COUNTS := Counts(1, 1, 1, 0)

  lemma {:induction false} RunConcat(ops: seq<Op>, more: seq<Op>)
    ensures Run(ops + more) == ApplyAll(Run(ops), more)
  {
    hide Apply;
    if more == [] {
      assert ops + more == ops;
    } else {
      RunConcat(ops, more[..|more| - 1]);
      assert (ops + more)[..|ops + more| - 1] == ops + more[..|more| - 1];
    }
  }

  lemma AdmissibleConcat(h: History, ops: seq<Op>, more: seq<Op>)
    requires RunIn(h, ops) && forall op | op in more :: !op.OpCreate?
    ensures RunIn(h, ops + more)
  {
    hide Sees, Run, LedgerOk;
    var all := ops + more;
    assert forall i | |ops| <= i < |all| :: all[i] in more;
    forall i | 0 <= i < |all| && all[i].OpCreate?
      ensures Admissible(Run(all[..i]), all[i]) && Sees(h, all[i].c)
    {
      assert all[..i] == ops[..i] && all[i] == ops[i];
    }
  }

  /** The hypotheses of the publication theorems are met by a run that publishes a batch. */
  lemma SomeRunPublishes()
    ensures exists h, ops :: RunIn(h, ops) && Run(ops).db.published != []
  {
    var ops := [OpCreate(INPUT, false)];
    hide Run, SourceControlFor, RunIn, AdmissibleRun, SealedPayload, Discover, ObjectKey;
    Sealed();
    Discovered();
    CreatesFirst(INPUT, PAYLOAD);
    CreationIsSeen();
    OneTransaction();
    var w := Run(ops);
    var b := w.db.batches["b"];
    var more := FullAttempt("b", "run", b.uri, b.sha, COUNTS, []);
    assert AdmissibleRun(ops) by { AdmissibleOf(HISTORY, ops); }
    assert Waiting(w, "b", "run");
    assert Reconciles(PAYLOAD, COUNTS, []);
    FullAttemptPublishesExactly(ops, "b", "run", COUNTS, []);
    RunConcat(ops, more);
    AdmissibleConcat(HISTORY, ops, more);
    assert Run(ops + more).db.published != [];
  }

  lemma AdmissibleOf(h: History, ops: seq<Op>)
    requires RunIn(h, ops)
    ensures AdmissibleRun(ops)
  {
  }

  // ---------------------------------------------------------------- the same with a satellite

  /** The control steps of a pipeline run. */
  function ControlOps(steps: seq<P.Step>): seq<Op> {
    if steps == [] then [] else
    var ops, last := ControlOps(steps[..|steps| - 1]), steps[|steps| - 1];
    if last.ControlStep? then ops + [last.op] else ops
  }

  lemma {:induction false} ControlOf(s: P.Source, steps: seq<P.Step>)
    ensures P.Runs(s, steps).control == Run(ControlOps(steps))
  {
    hide Apply, P.MayLoad, P.LoadOne;
    if steps != [] {
      var front, last := steps[..|steps| - 1], steps[|steps| - 1];
      ControlOf(s, front);
      if last.ControlStep? { assert (ControlOps(front) + [last.op])[..|ControlOps(front)|] == ControlOps(front); }
    }
  }

  const SAT := "sat_loan_context_effectivity"
  const SOURCE := P.Source(HISTORY, map[SAT := map[]])

  function Plain(ops: seq<Op>): seq<P.Step> {
    seq(|ops|, i requires 0 <= i < |ops| => P.ControlStep(ops[i]))
  }

  /** Two control steps, the load of the satellite, and the other control steps. */
  function Steps(first: seq<Op>, rest: seq<Op>): seq<P.Step> {
    Plain(first) + [P.LoadStep("run", SAT)] + Plain(rest)
  }

  lemma {:induction false} OpsOfPlain(ops: seq<Op>)
    ensures ControlOps(Plain(ops)) == ops
  {
    if ops != [] {
      var front := ops[..|ops| - 1];
      OpsOfPlain(front);
      assert Plain(ops)[..|ops| - 1] == Plain(front) && ops == front + [ops[|ops| - 1]];
    }
  }

  lemma {:induction false} OpsConcat(a: seq<P.Step>, b: seq<P.Step>)
    ensures ControlOps(a + b) == ControlOps(a) + ControlOps(b)
  {
    if b == [] {
      assert a + b == a;
    } else {
      OpsConcat(a, b[..|b| - 1]);
      assert (a + b)[..|a + b| - 1] == a + b[..|b| - 1];
    }
  }

  lemma OpsOfSteps(first: seq<Op>, rest: seq<Op>)
    ensures ControlOps(Steps(first, rest)) == first + rest
  {
    var load := [P.LoadStep("run", SAT)];
    OpsOfPlain(first);
    OpsOfPlain(rest);
    assert load[..0] == [] && ControlOps(load) == ControlOps(load[..0]);
    OpsConcat(Plain(first), load);
    OpsConcat(Plain(first) + load, Plain(rest));
    assert first + [] == first;
  }

  /** Control steps load nothing. */
  lemma {:induction false} LoadedStays(s: P.Source, steps: seq<P.Step>, more: seq<P.Step>)
    requires forall step | step in more :: step.ControlStep?
    ensures P.Runs(s, steps + more).loaded == P.Runs(s, steps).loaded
    ensures P.Runs(s, steps + more).tables == P.Runs(s, steps).tables
  {
    hide Apply;
    if more == [] {
      assert steps + more == steps;
    } else {
      LoadedStays(s, steps, more[..|more| - 1]);
      assert (steps + more)[..|steps + more| - 1] == steps + more[..|more| - 1];
    }
  }

  lemma EmptyLoadBounded(id: string)
    ensures LoadBounded({}, id, {}) == Ok({})
  {
    assert KeepStateChanges({}) == {} && ChangedRows({}, {}) == {} && Others({}, id) == {};
    assert MergeInsertOnly({}, id, {}) == {};
  }

  /** A satellite without events loads without a row. */
  lemma EmptyLoad(p: P.Pipe)
    requires P.MayLoad(SOURCE, p, "run", SAT) && p.tables[SAT] == {}
    ensures P.LoadOne(SOURCE, p, "run", SAT) == Ok({})
  {
    var id := p.control.db.attempts["run"].batchId;
    assert P.Staged(map[], p.control.db.batches[id].sha.payload.objects) == {};
    EmptyLoadBounded(id);
    hide LoadBounded;
  }

  lemma EmptySourceIsOk()
    ensures P.SourceOk(SOURCE)
  {
    assert P.Staged(map[], HISTORY.bronze) == {};
  }

  /** Behind the load the satellite is loaded. */
  lemma LoadedBehind(first: seq<Op>, more: seq<Op>)
    requires P.MayLoad(SOURCE, P.Runs(SOURCE, Plain(first)), "run", SAT)
    ensures var p := P.Runs(SOURCE, Steps(first, more)); "run" in p.loaded && {SAT} <= p.loaded["run"]
  {
    var load := [P.LoadStep("run", SAT)];
    assert [] + Plain(first) == Plain(first);
    LoadedStays(SOURCE, [], Plain(first));
    assert (Plain(first) + load)[..|first|] == Plain(first);
    EmptyLoad(P.Runs(SOURCE, Plain(first)));
    LoadedStays(SOURCE, Plain(first) + load, Plain(more));
    hide P.LoadOne, P.MayLoad;
  }

  const OPS := FullAttempt("b", "run", ManifestUri("b"), Sha256(PAYLOAD), COUNTS, [])

  lemma FirstWaits()
    ensures var w := Run([OpCreate(INPUT, false)]);
            && w.db.created == ["b"] && "b" in w.db.batches && w.db.batches["b"].sha == Sha256(PAYLOAD)
            && w.db.batches["b"].uri == ManifestUri("b")
            && Waiting(w, "b", "run") && AdmissibleRun([OpCreate(INPUT, false)])
    ensures Reconciles(PAYLOAD, COUNTS, [])
  {
    hide Run, SourceControlFor, RunIn, AdmissibleRun, SealedPayload, Discover, ObjectKey;
    Sealed();
    Discovered();
    CreatesFirst(INPUT, PAYLOAD);
    CreationIsSeen();
    AdmissibleOf(HISTORY, [OpCreate(INPUT, false)]);
    OneTransaction();
  }

  lemma {:induction false} CreatedStays(w: World, ops: seq<Op>)
    requires forall op | op in ops :: !op.OpCreate?
    ensures ApplyAll(w, ops).db.created == w.db.created
  {
    hide Apply;
    if ops != [] {
      CreatedStays(w, ops[..|ops| - 1]);
      P.CreatedOnlyByCreate(ApplyAll(w, ops[..|ops| - 1]), ops[|ops| - 1]);
    }
  }

  lemma PublishedEnd()
    ensures var db := Run([OpCreate(INPUT, false)] + OPS).db;
            db.created == ["b"] && "b" in db.batches && db.batches["b"].state == PUBLISHED
  {
    var ops := [OpCreate(INPUT, false)];
    FirstWaits();
    hide Run, SourceControlFor, AdmissibleRun, Waiting, Reconciles;
    FullAttemptPublishesExactly(ops, "b", "run", COUNTS, []);
    RunConcat(ops, OPS);
    CreatedStays(Run(ops), OPS);
  }

  /** When the attempt loads its satellite it is running. */
  lemma LoadsSatellite()
    ensures P.MayLoad(SOURCE, P.Runs(SOURCE, Plain([OpCreate(INPUT, false), OPS[0]])), "run", SAT)
  {
    hide Run, P.Runs, SourceControlFor, AdmissibleRun, Waiting, Reconciles, Apply, Plain, ControlOps, Inv;
    FirstWaits();
    var create := [OpCreate(INPUT, false)];
    OpsOfPlain(create + [OPS[0]]);
    ControlOf(SOURCE, Plain(create + [OPS[0]]));
    PlainIsControl(create + [OPS[0]]);
    LoadedStays(SOURCE, [], Plain(create + [OPS[0]]));
    assert [] + Plain(create + [OPS[0]]) == Plain(create + [OPS[0]]);
    NothingLoaded();
    ReachableInv(create);
    StartsUnderway(Run(create), "b", "run");
    RunConcat(create, [OPS[0]]);
    assert [OPS[0]][..0] == [] && ApplyAll(Run(create), [OPS[0]]) == Apply(Run(create), OPS[0]);
    assert create + [OPS[0]] == [OpCreate(INPUT, false), OPS[0]];
  }

  lemma PlainIsControl(ops: seq<Op>)
    ensures forall step | step in Plain(ops) :: step.ControlStep?
  {
  }

  lemma NothingLoaded()
    ensures P.Runs(SOURCE, []).tables == map[SAT := {}]
  {
  }

  lemma AllowedSteps()
    ensures P.AllowedRun(SOURCE, Steps([OpCreate(INPUT, false), OPS[0]], OPS[1..]))
  {
    hide P.SourceOk, P.Runs, P.MayLoad, Sees, LedgerOk, P.Allowed, Plain, AdmissibleRun;
    var first, rest := [OpCreate(INPUT, false), OPS[0]], OPS[1..];
    var steps := Steps(first, rest);
    EmptySourceIsOk();
    CreationIsSeen();
    forall i | 0 <= i < |steps| ensures P.Allowed(SOURCE, P.Runs(SOURCE, steps[..i]), steps[i]) {
      StepIsAllowed(i);
    }
  }

  lemma StepIsAllowed(i: nat)
    requires i < |Steps([OpCreate(INPUT, false), OPS[0]], OPS[1..])|
    ensures var steps := Steps([OpCreate(INPUT, false), OPS[0]], OPS[1..]);
            P.Allowed(SOURCE, P.Runs(SOURCE, steps[..i]), steps[i])
  {
    hide P.Runs, P.MayLoad, Sees, ListingCovers, SizesOk, LedgerOk, P.ListingGrows;
    var first, rest := [OpCreate(INPUT, false), OPS[0]], OPS[1..];
    var steps := Steps(first, rest);
    if i == 0 {
      FirstIsAllowed();
      assert steps[..0] == [];
    } else if i >= 3 {
      LoadsSatellite();
      LoadedBehind(first, rest[..i - 3]);
      assert steps[..i] == Steps(first, rest[..i - 3]) && steps[i] == P.ControlStep(rest[i - 3]);
      assert !rest[i - 3].OpCreate?;
    }
  }

  lemma FirstIsAllowed()
    ensures P.Allowed(SOURCE, P.Runs(SOURCE, []), P.ControlStep(OpCreate(INPUT, false)))
  {
    CreationIsSeen();
    hide Listing, Discover, ObjectKey, LedgerOk, SizesOk, Sees;
    assert [OpCreate(INPUT, false)][..0] == [];
    assert P.Runs(SOURCE, []).control == Run([]);
  }

  /** The hypotheses of the pipeline theorems are met by a run that loads a satellite and ends published. */
  lemma SomePipelineRunPublishes()
    ensures exists s, steps ::
              P.AllowedRun(s, steps) && s.staging != map[]
              && var db := P.Runs(s, steps).control.db;
                 db.created != [] && P.LatestId(db) in db.batches && db.batches[P.LatestId(db)].state == PUBLISHED
  {
    hide Run, P.Runs, P.AllowedRun, Steps, ControlOps;
    var first, rest := [OpCreate(INPUT, false), OPS[0]], OPS[1..];
    AllowedSteps();
    PublishedEnd();
    OpsOfSteps(first, rest);
    assert first + rest == [OpCreate(INPUT, false)] + OPS;
    ControlOf(SOURCE, Steps(first, rest));
    assert SAT in SOURCE.staging;
  }
}
