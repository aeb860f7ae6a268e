/**
 Loading a satellite batch by batch is change detection over the whole history, under partial
 failure, retry, replay and superseded batches.
 */
module IncrementalLoad {
  import opened Wrappers
  import opened RawVault
  import opened Compression

  // ---------------------------------------------------------------- incremental load = rebuild

  /** The rows of the entities a batch touches. */
  function Touched(history: set<Row>, batch: set<Row>): set<Row> {
    set a | a in history && exists b :: b in batch && b.entity == a.entity
  }

  /** The batch lies behind the history, and no null decides a pair of an entity it touches. */
  ghost predicate Appends(history: set<Row>, batch: set<Row>) {
    Follows(history, batch) && NoNullDecides(Touched(history, batch))
  }

  lemma HistoryRowsKeepTheirLag(history: set<Row>, batch: set<Row>, r: Row)
    requires DistinctPositions(history + batch) && Follows(history, batch) && r in history
    ensures forall p :: IsLag(history + batch, p, r) <==> IsLag(history, p, r)
  {
    forall q | q in batch && q.entity == r.entity ensures !Before(q, r) {
      NothingBehindInHistory(history, batch, q);
    }
  }

  lemma LaterBatchRowsKeepTheirLag(history: set<Row>, batch: set<Row>, q: Row, r: Row)
    requires DistinctPositions(history + batch) && Follows(history, batch)
    requires r in batch && q in batch && q.entity == r.entity && Before(q, r)
    ensures forall p :: IsLag(history + batch, p, r) <==> IsLag(batch, p, r)
  {
    forall p ensures IsLag(history + batch, p, r) <==> IsLag(batch, p, r) {
      if p in history && p.entity == r.entity {
        assert Before(p, q) && p !in batch by { NeverBeforeItself(p); }
      } else if p in batch && p.entity == r.entity {
        NothingBehindInHistory(history, batch, p);
        hide DistinctPositions, Follows, Before;
      }
    }
  }

  lemma NothingBehindInHistory(history: set<Row>, batch: set<Row>, p: Row)
    requires DistinctPositions(history + batch) && Follows(history, batch) && p in batch
    ensures forall x | x in history && x.entity == p.entity :: !Before(p, x)
  {
    forall x | x in history && x.entity == p.entity ensures !Before(p, x) {
      NeverBeforeItself(x);
      PositionsAreTotal(history + batch, x, p);
    }
  }

  /** The first batch row of an entity compares with the last history row of the entity, if any. */
  lemma FirstBatchRowLag(history: set<Row>, batch: set<Row>, r: Row)
    requires DistinctPositions(history + batch) && Follows(history, batch) && IsFirst(batch, r)
    ensures forall p :: IsLag(history + batch, p, r) <==> IsLast(history, p) && p.entity == r.entity
  {
    forall p, q | p in history && q in history && p.entity == q.entity == r.entity && p != q
      ensures Before(q, p) <==> !Before(p, q)
    {
      PositionsAreTotal(history + batch, p, q);
    }
    assert forall p | p in history :: !Before(p, p);
    forall p, x | p in history && p.entity == r.entity && x in batch && x.entity == r.entity && x != r
      ensures !Before(x, r)
    {
    }
  }

  lemma FirstKeptIsFirst(rows: set<Row>, r: Row)
    requires DistinctPositions(rows) && r in KeepStateChanges(rows)
    ensures IsFirst(KeepStateChanges(rows), r) <==> IsFirst(rows, r)
  {
    if !IsFirst(rows, r) {
      var f := FirstExists(rows, r);
      FirstIsKept(rows, f);
    }
  }

  lemma SubsetPositions(rows: set<Row>, part: set<Row>)
    requires DistinctPositions(rows) && part <= rows
    ensures DistinctPositions(part)
  {
  }

  lemma SubsetContract(rows: set<Row>, part: set<Row>)
    requires Contract(rows) && part <= rows
    ensures Contract(part)
  {
  }

  /** Of an entity the batch touches, the persisted row ranked first carries the last history state. */
  lemma TouchedShowsLastState(history: set<Row>, batch: set<Row>, last: Row, r: Row)
    requires DistinctPositions(history + batch) && Appends(history, batch)
    requires r in batch && IsLast(history, last) && last.entity == r.entity
    ensures var kept := KeepStateChanges(history);
            && (exists p :: IsTop(false, kept, p) && p.entity == last.entity)
            && forall p | IsTop(false, kept, p) && p.entity == last.entity :: p.state == last.state
  {
    hide Before, Outranks, KeepStateChanges;
    SubsetPositions(history + batch, history);
    var mine := OfEntity(history, last.entity);
    SubsetPositions(history, mine);
    assert mine <= Touched(history, batch);
    RankFollowsExactlyWithoutNulls(mine);
    LatestKeptCarriesLastState(false, history, last);
  }

  /** Of every entity the batch touches, the persisted row ranked first carries the last history state. */
  ghost predicate ShowsBoundary(history: set<Row>, batch: set<Row>) {
    forall r, last | r in batch && IsLast(history, last) && last.entity == r.entity ::
      && (exists p :: IsTop(false, KeepStateChanges(history), p) && p.entity == last.entity)
      && forall p | IsTop(false, KeepStateChanges(history), p) && p.entity == last.entity :: p.state == last.state
  }

  lemma FirstRowSurvives(history: set<Row>, batch: set<Row>, r: Row)
    requires DistinctPositions(history + batch) && Follows(history, batch) && ShowsBoundary(history, batch)
    requires IsFirst(batch, r)
    ensures r in ChangedRows(KeepStateChanges(history), KeepStateChanges(batch))
       <==> r in KeepStateChanges(history + batch)
  {
    hide Before, Outranks, NoNullDecides;
    SubsetPositions(history + batch, history);
    SubsetPositions(history + batch, batch);
    FirstIsKept(batch, r);
    FirstKeptIsFirst(batch, r);
    FirstBatchRowLag(history, batch, r);
    var past := OfEntity(history, r.entity);
    if past == {} {
      assert forall p | p in history :: p.entity == r.entity ==> p in past;
    } else {
      var last := LastExists(past);
      assert forall q | q in history && q.entity == r.entity :: q in past;
      assert IsLast(history, last);
      assert r in batch;
      forall p | IsLast(history, p) && p.entity == r.entity ensures p == last {
        if p != last { PositionsAreTotal(history, p, last); }
      }
      assert r in ChangedRows(KeepStateChanges(history), KeepStateChanges(batch)) <==> r.state != last.state;
      assert IsLag(history + batch, last, r);
    }
  }

  lemma LaterRowSurvives(history: set<Row>, batch: set<Row>, r: Row)
    requires DistinctPositions(history + batch) && Follows(history, batch) && r in batch && !IsFirst(batch, r)
    ensures r in ChangedRows(KeepStateChanges(history), KeepStateChanges(batch))
       <==> r in KeepStateChanges(history + batch)
  {
    SubsetPositions(history + batch, batch);
    var q := FirstExists(batch, r);
    LaterBatchRowsKeepTheirLag(history, batch, q, r);
    if r in KeepStateChanges(batch) {
      FirstKeptIsFirst(batch, r);
    }
  }

  /** Change detection of the batch and the comparison with persisted state, as one table. */
  function Incremental(history: set<Row>, batch: set<Row>): set<Row> {
    KeepStateChanges(history) + ChangedRows(KeepStateChanges(history), KeepStateChanges(batch))
  }

  /**
   Per-batch compression followed by the boundary comparison is change detection over the whole
   history, including a state that returns (A, B, A).
   */
  lemma IncrementalCompressionIsRebuild(history: set<Row>, batch: set<Row>)
    requires DistinctPositions(history + batch) && Appends(history, batch)
    ensures Incremental(history, batch) == KeepStateChanges(history + batch)
  {
    hide Appends, KeepStateChanges, IsTop, IsLast;
    assert Follows(history, batch) by { AppendsFollows(history, batch); }
    forall r, last | r in batch && IsLast(history, last) && last.entity == r.entity
      ensures exists p :: IsTop(false, KeepStateChanges(history), p) && p.entity == last.entity
      ensures forall p | IsTop(false, KeepStateChanges(history), p) && p.entity == last.entity :: p.state == last.state
    {
      TouchedShowsLastState(history, batch, last, r);
    }
    ShownBoundaryIsRebuild(history, batch);
  }

  lemma AppendsFollows(history: set<Row>, batch: set<Row>)
    requires Appends(history, batch)
    ensures Follows(history, batch)
  {
  }

  lemma ShownBoundaryIsRebuild(history: set<Row>, batch: set<Row>)
    requires DistinctPositions(history + batch) && Follows(history, batch) && ShowsBoundary(history, batch)
    ensures Incremental(history, batch) == KeepStateChanges(history + batch)
  {
    var before, after := KeepStateChanges(history), KeepStateChanges(history + batch);
    var changed := ChangedRows(before, KeepStateChanges(batch));
    OnlyOwnRows(history, batch);
    forall r | r in history + batch ensures r in before + changed <==> r in after {
      hide DistinctPositions, Follows, ShowsBoundary, KeepStateChanges, ChangedRows, IsFirst;
      if r in history {
        HistoryRowSurvives(history, batch, r);
      } else {
        if IsFirst(batch, r) { FirstRowSurvives(history, batch, r); } else { LaterRowSurvives(history, batch, r); }
      }
    }
    hide DistinctPositions, Follows, ShowsBoundary, KeepStateChanges, ChangedRows;
  }

  lemma OnlyOwnRows(history: set<Row>, batch: set<Row>)
    ensures KeepStateChanges(history) <= history && KeepStateChanges(history + batch) <= history + batch
    ensures ChangedRows(KeepStateChanges(history), KeepStateChanges(batch)) <= batch
  {
  }

  lemma HistoryRowSurvives(history: set<Row>, batch: set<Row>, r: Row)
    requires DistinctPositions(history + batch) && Follows(history, batch) && r in history
    ensures r in KeepStateChanges(history) <==> r in KeepStateChanges(history + batch)
    ensures r !in batch
  {
    HistoryRowsKeepTheirLag(history, batch, r);
    NeverBeforeItself(r);
  }

  // ---------------------------------------------------------------- and only then

  /** A batch row before a history row becomes the LAG of some history row. */
  lemma {:induction false} InterleavedRow(history: set<Row>, batch: set<Row>, x: Row, h: Row) returns (p: Row, r: Row)
    requires DistinctPositions(history + batch) && history !! batch
    requires x in batch && h in history && x.entity == h.entity && Before(x, h)
    ensures p in batch && r in history && IsLag(history + batch, p, r)
    decreases |set q | q in history + batch && q.entity == h.entity && Before(q, h)|
  {
    hide Before;
    p := LagExists(history + batch, x, h);
    r := h;
    if p in history {
      if x != p { PositionsAreTotal(history + batch, x, p); }
      EarlierRowsShrink(history + batch, p, h);
      p, r := InterleavedRow(history, batch, x, p);
    }
  }

  /** Equal states of a history row and its LAG in the batch, other states elsewhere. */
  function PairAlike(rows: set<Row>, p: Row, r: Row): map<Row, string> {
    map q | q in rows :: if q == p || q == r then "1" else "0"
  }

  lemma InterleavingBreaksTheLaw(history: set<Row>, batch: set<Row>)
    requires DistinctPositions(history + batch) && history !! batch && !Follows(history, batch)
    ensures exists states :: !LawHolds(history, batch, states)
  {
    var h, x :| h in history && x in batch && h.entity == x.entity && !Before(h, x);
    PositionsAreTotal(history + batch, h, x);
    var p, r := InterleavedRow(history, batch, x, h);
    var states := PairAlike(history + batch, p, r);
    var r', p' := StateUnder(r, states), StateUnder(p, states);
    assert r' !in KeepStateChanges(Restate(history + batch, states)) by {
      RestatedLag(history + batch, states, p, r);
    }
    assert r' in KeepStateChanges(Restate(history, states)) by {
      assert r' in Restate(history, states);
      forall q | q in Restate(history, states) && IsLag(Restate(history, states), q, r') ensures q.state != r'.state {
        var o := RestatedRow(history, states, q);
        NeverBeforeItself(r');
      }
    }
    RestateUnion(history, batch, states);
    assert !LawHolds(history, batch, states);
  }

  lemma RestatedLag(rows: set<Row>, states: map<Row, string>, p: Row, r: Row)
    requires IsLag(rows, p, r) && r in rows
    ensures IsLag(Restate(rows, states), StateUnder(p, states), StateUnder(r, states))
    ensures StateUnder(r, states) in Restate(rows, states) && StateUnder(p, states) in Restate(rows, states)
  {
    forall q | q in Restate(rows, states) && q.entity == r.entity && Before(StateUnder(p, states), q)
      ensures !Before(q, StateUnder(r, states))
    {
      var o := RestatedRow(rows, states, q);
      assert Before(p, o);
    }
  }

  /** The incremental table equals the rebuild under one assignment of states. */
  ghost predicate LawHolds(history: set<Row>, batch: set<Row>, states: map<Row, string>) {
    Incremental(Restate(history, states), Restate(batch, states)) == KeepStateChanges(Restate(history + batch, states))
  }

  /**
   The rebuild law holds for every assignment of states if and only if the batch lies behind the
   history and no null decides a pair of history rows of an entity the batch touches.
   */
  lemma RebuildLawIsExact(history: set<Row>, batch: set<Row>)
    requires DistinctPositions(history + batch) && history !! batch
    ensures (forall states :: LawHolds(history, batch, states)) <==> Appends(history, batch)
  {
    if Appends(history, batch) {
      forall states ensures LawHolds(history, batch, states) {
        RestateUnion(history, batch, states);
        RestateKeepsPositions(false, history + batch, states);
        RestateAppends(history, batch, states);
        IncrementalCompressionIsRebuild(Restate(history, states), Restate(batch, states));
      }
    } else if !Follows(history, batch) {
      InterleavingBreaksTheLaw(history, batch);
    } else {
      NullBreaksTheLaw(history, batch);
    }
  }

  lemma RestateAppends(history: set<Row>, batch: set<Row>, states: map<Row, string>)
    requires Appends(history, batch)
    ensures Appends(Restate(history, states), Restate(batch, states))
  {
    var h, b := Restate(history, states), Restate(batch, states);
    forall x, y | x in h && y in b && x.entity == y.entity ensures Before(x, y) {
      var o := RestatedRow(history, states, x);
      var q := RestatedRow(batch, states, y);
      assert Before(o, q);
    }
    forall x, y | x in Touched(h, b) && y in Touched(h, b) && x.entity == y.entity ensures DecidedWithoutNulls(x, y) {
      var o := RestatedRow(history, states, x);
      var q := RestatedRow(history, states, y);
      var z :| z in b && z.entity == x.entity;
      var w := RestatedRow(batch, states, z);
      assert o in Touched(history, batch) && q in Touched(history, batch);
    }
  }

  lemma NullBreaksTheLaw(history: set<Row>, batch: set<Row>)
    requires DistinctPositions(history + batch) && history !! batch
    requires Follows(history, batch) && !NoNullDecides(Touched(history, batch))
    ensures exists states :: !LawHolds(history, batch, states)
  {
    var mine := Touched(history, batch);
    SubsetPositions(history + batch, mine);
    RankFollowsExactlyWithoutNulls(mine);
    var a, b :| a in mine && b in mine && a.entity == b.entity && Before(a, b) && !Outranks(false, b, a);
    var z :| z in batch && z.entity == a.entity;
    SubsetPositions(history + batch, batch);
    var f := FirstExists(batch, z);
    NullPairBreaksTheLaw(history, batch, a, b, f);
  }

  lemma NullPairBreaksTheLaw(history: set<Row>, batch: set<Row>, a: Row, b: Row, f: Row)
    requires DistinctPositions(history + batch) && Follows(history, batch)
    requires a in history && b in history && a.entity == b.entity && Before(a, b) && !Outranks(false, b, a)
    requires IsFirst(batch, f) && f.entity == a.entity
    ensures !LawHolds(history, batch, Levels(history + batch, a, b))
  {
    var states := Levels(history + batch, a, b);
    var h, t := Restate(history, states), Restate(batch, states);
    var x, y := LevelsAreInLevels(history + batch, history, a, b);
    SameLevel(b, a, b, y, x, y);
    RestateUnion(history, batch, states);
    RestateKeepsPositions(false, history + batch, states);
    RestateFollows(history, batch, states);
    SubsetPositions(h + t, h);
    var top := PairHidesTheLastState(false, h, x, y);
    var g := StateUnder(f, states);
    assert IsFirst(t, g) by { RestateKeepsFirst(batch, states, f); }
    assert g.state == "2" by {
      NothingBehindInHistory(history, batch, f);
    }
    hide Before, Outranks, Restate, Levels, InLevels;
    LastOfLevels(h, x, y);
    var last :| IsLast(h, last) && last.entity == x.entity && last.state == "2";
    FirstBatchRowLag(h, t, g);
    FirstRowIsAdded(h, t, g);
    assert g !in KeepStateChanges(h + t);
  }

  lemma RestateFollows(history: set<Row>, batch: set<Row>, states: map<Row, string>)
    requires Follows(history, batch)
    ensures Follows(Restate(history, states), Restate(batch, states))
  {
    forall x, y | x in Restate(history, states) && y in Restate(batch, states) && x.entity == y.entity
      ensures Before(x, y)
    {
      var o := RestatedRow(history, states, x);
      var q := RestatedRow(batch, states, y);
      assert Before(o, q);
    }
  }

  lemma RestateKeepsFirst(rows: set<Row>, states: map<Row, string>, f: Row)
    requires IsFirst(rows, f)
    ensures IsFirst(Restate(rows, states), StateUnder(f, states))
  {
    forall x | x in Restate(rows, states) && x.entity == f.entity ensures !Before(x, StateUnder(f, states)) {
      var o := RestatedRow(rows, states, x);
      assert !Before(o, f);
    }
  }

  /** A first batch row is added unless the persisted row ranked first has its state. */
  lemma FirstRowIsAdded(history: set<Row>, batch: set<Row>, r: Row)
    requires DistinctPositions(batch) && IsFirst(batch, r)
    requires forall p | IsTop(false, KeepStateChanges(history), p) && p.entity == r.entity :: p.state != r.state
    ensures r in Incremental(history, batch)
  {
    FirstIsKept(batch, r);
  }

  // ---------------------------------------------------------------- partial failure, retry, supersede

  /**
   A satellite while `batch` is the batch under load: `history` are the published rows, `rows`
   the rows of the batch. Other batches left the rebuild of the history and, if some were
   superseded after a partial load, rows of events that this batch selects again.
   */
  ghost predicate UnderLoad(table: set<Stored>, history: set<Row>, batch: string, rows: set<Row>) {
    && Contract(history + rows) && Follows(history, rows)
    && KeepStateChanges(history) <= Others(table, batch) <= KeepStateChanges(history) + rows
    && (forall v | v in table && v.batch == batch ::
          v.row in ChangedRows(KeepStateChanges(history), KeepStateChanges(rows)))
  }

  ghost predicate LeftBySuperseded(table: set<Stored>, batch: string, rows: set<Row>) {
    exists d :: d in Others(table, batch) && d in rows
  }

  lemma ContractAppends(history: set<Row>, rows: set<Row>)
    requires Contract(history + rows) && Follows(history, rows)
    ensures DistinctPositions(history + rows) && Appends(history, rows)
  {
  }

  lemma CleanBoundaryNeverRaises(history: set<Row>, rows: set<Row>)
    requires Contract(history + rows) && Follows(history, rows)
    ensures !CrossesBoundary(KeepStateChanges(history), KeepStateChanges(rows))
  {
  }

  lemma FirstIsNotAfter(rows: set<Row>, f: Row, p: Row)
    requires Contract(rows) && f in rows && p in rows && f.entity == p.entity && (p == f || Before(f, p))
    ensures NotAfter(f, p)
  {
  }

  lemma SupersededRowsRaise(table: set<Stored>, history: set<Row>, batch: string, rows: set<Row>, d: Row)
    requires UnderLoad(table, history, batch, rows)
    requires d in Others(table, batch) && d in rows
    ensures CrossesBoundary(Others(table, batch), KeepStateChanges(rows))
  {
    var all := history + rows;
    var target := Others(table, batch);
    ContractRanks(all);
    assert target <= all by { KeptAreRows(history); }
    SubsetPositions(all, rows);
    SubsetPositions(all, target);
    var f := FirstExists(rows, d);
    FirstIsKept(rows, f);
    FirstKeptIsFirst(rows, f);
    var mine := OfEntity(target, d.entity);
    assert d in mine;
    var p := LastExists(mine);
    hide KeepStateChanges, Outranks;
    forall q | q in target && q.entity == p.entity ensures !Outranks(false, q, p) {
      NeverOutranksItself(false, p);
      if q != p {
        assert q in mine && Before(q, p);
        PositionsAreTotal(all, q, p);
      }
    }
    assert p == f || Before(f, p) by {
      if d != p { assert Before(d, p); }
      if f != d && d != p { BeforeIsTransitive(f, d, p); }
    }
    FirstIsNotAfter(all, f, p);
  }

  /**
   A bounded load raises exactly when a superseded batch left rows of the re-selected events in
   the table; whenever it does not raise, the table is the rebuild over published plus batch rows.
   */
  lemma LoadRebuildsOrRaises(table: set<Stored>, history: set<Row>, batch: string, rows: set<Row>)
    requires UnderLoad(table, history, batch, rows)
    ensures LoadBounded(table, batch, rows).Ok? <==> !LeftBySuperseded(table, batch, rows)
    ensures LoadBounded(table, batch, rows).Ok? ==>
              && Project(LoadBounded(table, batch, rows).value) == KeepStateChanges(history + rows)
              && Others(LoadBounded(table, batch, rows).value, batch) == KeepStateChanges(history)
    ensures LoadBounded(table, batch, rows).Err? ==> LoadBounded(table, batch, rows).error == OutOfOrder
  {
    if d :| d in Others(table, batch) && d in rows {
      SupersededRowsRaise(table, history, batch, rows, d);
    } else {
      assert Others(table, batch) == KeepStateChanges(history);
      CleanBoundaryNeverRaises(history, rows);
      MergeCompletesTheRebuild(table, history, batch, rows);
    }
  }

  lemma MergeCompletesTheRebuild(table: set<Stored>, history: set<Row>, batch: string, rows: set<Row>)
    requires UnderLoad(table, history, batch, rows) && Others(table, batch) == KeepStateChanges(history)
    ensures UniqueEvents(ChangedRows(KeepStateChanges(history), KeepStateChanges(rows)))
    ensures var merged := MergeInsertOnly(table, batch, ChangedRows(KeepStateChanges(history), KeepStateChanges(rows)));
            && Project(merged) == KeepStateChanges(history + rows)
            && Others(merged, batch) == KeepStateChanges(history)
  {
    var changed := ChangedRows(KeepStateChanges(history), KeepStateChanges(rows));
    var merged := MergeInsertOnly(table, batch, changed);
    ContractAppends(history, rows);
    IncrementalCompressionIsRebuild(history, rows);
    forall v | v in table ensures v.row in KeepStateChanges(history) + changed {
      if v.batch != batch { assert v.row in Others(table, batch); }
    }
    forall r | r in KeepStateChanges(history) + changed ensures r in Project(merged) {
      if r in changed {
        if v :| v in table && v.row.eventId == r.eventId {
          assert v.row == r;
          assert v in merged;
        } else {
          assert Stored(r, batch) in merged;
        }
      } else {
        var v :| v in table && v.row == r;
        assert v in merged;
      }
    }
    assert Project(merged) == KeepStateChanges(history) + changed;
  }

  /** A retry or an exact replay of the batch inserts nothing and cannot raise. */
  lemma ReplayInsertsNothing(table: set<Stored>, batch: string, rows: set<Row>)
    requires LoadBounded(table, batch, rows).Ok?
    ensures LoadBounded(LoadBounded(table, batch, rows).value, batch, rows) == LoadBounded(table, batch, rows)
  {
    var once := LoadBounded(table, batch, rows).value;
    assert Others(once, batch) == Others(table, batch);
    var filtered := FilterAgainstPersistedState(table, batch, KeepStateChanges(rows));
    assert FilterAgainstPersistedState(once, batch, KeepStateChanges(rows)) == filtered;
    var changed := filtered.value;
    assert once == MergeInsertOnly(table, batch, changed);
    forall r | r in changed ensures exists v | v in once :: v.row.eventId == r.eventId {
      if !(exists v | v in table :: v.row.eventId == r.eventId) {
        assert Stored(r, batch) in once;
      }
    }
    assert MergeInsertOnly(once, batch, changed) == once;
  }

  // ---------------------------------------------------------------- what a null position does

  /**
   With one null LSN in the persisted history the two window orders pick different neighbours, and
   a bounded load that does not raise keeps a row the rebuild drops.
   */
  lemma NullPositionBreaksTheRebuild()
    ensures var h1 := Row("e", "A", "1", Some(10), Some(1), "t", 0, 1, Details([]));
            var h2 := Row("e", "B", "2", None, Some(2), "t", 0, 2, Details([]));
            var r := Row("e", "B", "3", Some(20), Some(3), "t", 0, 3, Details([]));
            && UniqueEvents({h1, h2, r})
            && !CrossesBoundary(KeepStateChanges({h1, h2}), KeepStateChanges({r}))
            && h2 in KeepStateChanges({h1, h2}) && h2 !in KeepStateChanges({h1, h2, r})
            && KeepStateChanges({h1, h2}) + ChangedRows(KeepStateChanges({h1, h2}), KeepStateChanges({r}))
               != KeepStateChanges({h1, h2} + {r})
  {
    var h1 := Row("e", "A", "1", Some(10), Some(1), "t", 0, 1, Details([]));
    var h2 := Row("e", "B", "2", None, Some(2), "t", 0, 2, Details([]));
    var r := Row("e", "B", "3", Some(20), Some(3), "t", 0, 3, Details([]));
    var all := {h1, h2, r};
    assert {h1, h2} + {r} == all;
    assert IsLag(all, r, h2);
    assert IsLag({h1, h2}, h1, h2);
    assert h1 in KeepStateChanges({h1, h2}) && h2 in KeepStateChanges({h1, h2});
    forall p | IsLatest(KeepStateChanges({h1, h2}), p) ensures p == h1 {
      assert p in {h1, h2};
    }
  }
}
