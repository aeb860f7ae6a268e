/**
 The bounded load with its boundary check: exactly which positions let it either raise or leave the
 rebuild, whatever the states are. The check compares with the row the satellite shows as latest, and
 that row hides every later one whose state change detection dropped.
 */
module BoundaryLaw {
  import opened Wrappers
  import opened RawVault
  import opened Compression
  import opened IncrementalLoad

  // ---------------------------------------------------------------- the law

  function AsStored(rows: set<Row>, batch: string): set<Stored> {
    set r | r in rows :: Stored(r, batch)
  }

  /** The load of a batch over the satellite another batch left, under one assignment of states. */
  function LoadUnder(history: set<Row>, batch: set<Row>, states: map<Row, string>): Result<set<Stored>, LoadError> {
    LoadBounded(AsStored(KeepStateChanges(Restate(history, states)), "before"), "now", Restate(batch, states))
  }

  /** It raises, or the satellite is the rebuild. */
  ghost predicate RaisesOrRebuilds(history: set<Row>, batch: set<Row>, states: map<Row, string>) {
    LoadUnder(history, batch, states).Ok? ==>
      Project(LoadUnder(history, batch, states).value) == KeepStateChanges(Restate(history + batch, states))
  }

  ghost predicate Raises(history: set<Row>, batch: set<Row>, states: map<Row, string>) {
    CrossesBoundary(KeepStateChanges(Restate(history, states)), KeepStateChanges(Restate(batch, states)))
  }

  // ---------------------------------------------------------------- the condition, on positions alone

  /** Some states make this row of the history the one the check compares with. */
  ghost predicate CanBeLatest(history: set<Row>, t: Row) {
    t in history && forall f | IsFirst(history, f) && f.entity == t.entity :: f == t || Outranks(false, t, f)
  }

  /** The batch's first row of the entity passes the check against it. */
  ghost predicate PassesBehind(history: set<Row>, batch: set<Row>, r: Row, t: Row) {
    IsFirst(batch, r) && CanBeLatest(history, t) && t.entity == r.entity && !NotAfter(r, t)
  }

  /** The batch touches an entity of the history and passes behind no row of it. */
  ghost predicate NeverPasses(history: set<Row>, batch: set<Row>, r: Row) {
    && IsFirst(batch, r) && (exists h :: h in history && h.entity == r.entity)
    && forall t :: !PassesBehind(history, batch, r, t)
  }

  /** All history of the entity lies before the batch, and rows behind t are ranked ahead of it. */
  ghost predicate HidesNothing(history: set<Row>, batch: set<Row>, t: Row) {
    && (forall a, b | a in history && b in batch && a.entity == t.entity && b.entity == t.entity :: Before(a, b))
    && forall b | b in history && b.entity == t.entity && Before(t, b) :: Outranks(false, b, t)
  }

  ghost predicate BoundaryDecides(history: set<Row>, batch: set<Row>) {
    || (exists r :: NeverPasses(history, batch, r))
    || forall r, t | PassesBehind(history, batch, r, t) :: HidesNothing(history, batch, t)
  }

  // ---------------------------------------------------------------- the load is the check and the merge

  lemma RestateKeepsEvents(history: set<Row>, batch: set<Row>, states: map<Row, string>)
    requires UniqueEvents(history + batch) && history !! batch
    ensures UniqueEvents(Restate(batch, states))
    ensures forall a, b | a in Restate(history, states) && b in Restate(batch, states) :: a.eventId != b.eventId
  {
    forall x, y | x in Restate(batch, states) && y in Restate(batch, states) && x.eventId == y.eventId ensures x == y {
      var o := RestatedRow(batch, states, x);
      var q := RestatedRow(batch, states, y);
      assert o in history + batch && q in history + batch;
    }
    forall a, b | a in Restate(history, states) && b in Restate(batch, states) ensures a.eventId != b.eventId {
      var o := RestatedRow(history, states, a);
      var q := RestatedRow(batch, states, b);
      assert o in history + batch && q in history + batch && o != q;
    }
  }

  /** With event ids that identify rows the load is the boundary check and the insert. */
  lemma LoadIsCheckAndInsert(kept: set<Row>, batch: set<Row>)
    requires UniqueEvents(batch) && forall a, b | a in kept && b in batch :: a.eventId != b.eventId
    ensures var result := LoadBounded(AsStored(kept, "before"), "now", batch);
            && (result.Err? <==> CrossesBoundary(kept, KeepStateChanges(batch)))
            && (result.Ok? ==> Project(result.value) == kept + ChangedRows(kept, KeepStateChanges(batch)))
  {
    var table := AsStored(kept, "before");
    var changed := ChangedRows(kept, KeepStateChanges(batch));
    KeptAreRows(batch);
    assert Others(table, "now") == kept by {
      forall r | r in kept ensures r in Others(table, "now") { assert Stored(r, "before") in table; }
    }
    assert changed <= batch;
    hide KeepStateChanges, ChangedRows, CrossesBoundary;
    forall r | r in changed ensures !(exists v | v in table :: v.row.eventId == r.eventId) {
    }
    var merged := MergeInsertOnly(table, "now", changed);
    forall r ensures r in Project(merged) <==> r in kept + changed {
      if r in kept { assert Stored(r, "before") in merged; }
      if r in changed { assert Stored(r, "now") in merged; }
    }
  }

  lemma LawOfLoad(history: set<Row>, batch: set<Row>, states: map<Row, string>)
    requires UniqueEvents(history + batch) && history !! batch
    ensures RaisesOrRebuilds(history, batch, states) <==>
              Raises(history, batch, states) || LawHolds(history, batch, states)
  {
    RestateKeepsEvents(history, batch, states);
    KeptAreRows(Restate(history, states));
    LoadIsCheckAndInsert(KeepStateChanges(Restate(history, states)), Restate(batch, states));
    hide KeepStateChanges, ChangedRows, CrossesBoundary, Restate, LoadBounded;
  }

  // ---------------------------------------------------------------- what the check compares

  /** A row of an entity in both, kept and ranked first, comes from a row that can be the latest. */
  lemma LatestCanBe(history: set<Row>, states: map<Row, string>, p: Row) returns (t: Row)
    requires DistinctPositions(history) && IsLatest(KeepStateChanges(Restate(history, states)), p)
    ensures CanBeLatest(history, t) && p == StateUnder(t, states) && p == t.(state := p.state)
  {
    var rows := Restate(history, states);
    KeptAreRows(rows);
    t := RestatedRow(history, states, p);
    forall f | IsFirst(history, f) && f.entity == t.entity ensures f == t || Outranks(false, t, f) {
      RestateKeepsFirst(history, states, f);
      FirstIsKept(rows, StateUnder(f, states));
      assert !Outranks(false, StateUnder(f, states), p);
      if f != t { PositionsAreTotal(history, f, t); }
    }
  }

  lemma LatestExists(rows: set<Row>, r: Row) returns (p: Row)
    requires DistinctPositions(rows) && r in rows
    ensures IsLatest(KeepStateChanges(rows), p) && p.entity == r.entity
  {
    var kept := KeepStateChanges(rows);
    KeptAreRows(rows);
    var f := FirstExists(rows, r);
    FirstIsKept(rows, f);
    var mine := OfEntity(kept, r.entity);
    assert f in mine;
    hide KeepStateChanges, Outranks, Before;
    p := TopExists(false, mine);
    forall q | q in kept && q.entity == p.entity ensures !Outranks(false, q, p) {
      assert q in mine;
      NeverOutranksItself(false, p);
      if q != p { PositionsAreTotal(rows, q, p); }
    }
  }

  lemma SamePositions(r: Row, x: Row, t: Row, y: Row)
    requires x == r.(state := x.state) && y == t.(state := y.state)
    ensures NotAfter(x, y) <==> NotAfter(r, t)
    ensures Outranks(false, x, y) <==> Outranks(false, r, t)
    ensures Before(x, y) <==> Before(r, t)
  {
  }

  /** The check compares the batch's first row of an entity with the satellite's latest, by positions only. */
  lemma RaiseHasRows(history: set<Row>, batch: set<Row>, states: map<Row, string>) returns (r: Row, t: Row)
    requires DistinctPositions(history + batch) && Raises(history, batch, states)
    ensures IsFirst(batch, r) && t in history && t.entity == r.entity && NotAfter(r, t)
    ensures IsLatest(KeepStateChanges(Restate(history, states)), StateUnder(t, states))
  {
    var h, b := Restate(history, states), Restate(batch, states);
    SubsetPositions(history + batch, batch);
    RestateKeepsPositions(false, batch, states);
    KeptAreRows(h);
    var x, p :| x in KeepStateChanges(b) && p in KeepStateChanges(h) && IsFirst(KeepStateChanges(b), x)
        && IsLatest(KeepStateChanges(h), p) && p.entity == x.entity && NotAfter(x, p);
    hide KeepStateChanges, NotAfter, IsLatest, Restate, IsFirst, Raises, DistinctPositions;
    FirstKeptIsFirst(b, x);
    t := RestatedRow(history, states, p);
    r := FirstBehind(batch, states, x);
    SamePositions(r, x, t, p);
  }

  lemma RowsRaise(history: set<Row>, batch: set<Row>, states: map<Row, string>, r: Row, t: Row)
    requires DistinctPositions(history + batch)
    requires IsFirst(batch, r) && t in history && t.entity == r.entity && NotAfter(r, t)
    requires IsLatest(KeepStateChanges(Restate(history, states)), StateUnder(t, states))
    ensures Raises(history, batch, states)
  {
    var b := Restate(batch, states);
    SubsetPositions(history + batch, batch);
    RestateKeepsPositions(false, batch, states);
    hide KeepStateChanges, NotAfter, IsLatest, Restate, IsFirst, DistinctPositions;
    var x, p := StateUnder(r, states), StateUnder(t, states);
    RestateKeepsFirst(batch, states, r);
    FirstIsKept(b, x);
    FirstKeptIsFirst(b, x);
    SamePositions(r, x, t, p);
    IsThere(KeepStateChanges(Restate(history, states)), p);
  }

  lemma IsThere(rows: set<Row>, p: Row)
    requires IsLatest(rows, p)
    ensures p in rows
  {
  }

  lemma FirstBehind(batch: set<Row>, states: map<Row, string>, x: Row) returns (r: Row)
    requires IsFirst(Restate(batch, states), x)
    ensures IsFirst(batch, r) && x == StateUnder(r, states) && x == r.(state := x.state)
  {
    r := RestatedRow(batch, states, x);
    forall q | q in batch && q.entity == r.entity ensures !Before(q, r) {
      assert StateUnder(q, states) in Restate(batch, states);
    }
  }

  // ---------------------------------------------------------------- the condition suffices

  lemma NeverPassesRaises(history: set<Row>, batch: set<Row>, states: map<Row, string>, r: Row)
    requires DistinctPositions(history + batch) && NeverPasses(history, batch, r)
    ensures Raises(history, batch, states)
  {
    SubsetPositions(history + batch, history);
    RestateKeepsPositions(false, history, states);
    hide KeepStateChanges, Before, NotAfter, Raises, DistinctPositions;
    var h :| h in history && h.entity == r.entity;
    assert StateUnder(h, states) in Restate(history, states);
    var p := LatestExists(Restate(history, states), StateUnder(h, states));
    var t := LatestCanBe(history, states, p);
    assert !PassesBehind(history, batch, r, t);
    RowsRaise(history, batch, states, r, t);
  }

  /** Without a raise the batch passed behind every row the check compared with, and those hide nothing. */
  ghost predicate Quiet(history: set<Row>, batch: set<Row>, states: map<Row, string>) {
    && DistinctPositions(history + batch) && !Raises(history, batch, states)
    && forall r, t | PassesBehind(history, batch, r, t) :: HidesNothing(history, batch, t)
  }

  lemma QuietFollows(history: set<Row>, batch: set<Row>, states: map<Row, string>)
    requires Quiet(history, batch, states)
    ensures Follows(history, batch)
  {
    QuietPositions(history, batch, states);
    hide KeepStateChanges, Before, Quiet, DistinctPositions, IsLatest, StateUnder;
    forall a, q | a in history && q in batch && a.entity == q.entity ensures Before(a, q) {
      var p := ShownFor(history, states, a);
      var t := QuietLatest(history, batch, states, q, p);
    }
  }

  lemma QuietPositions(history: set<Row>, batch: set<Row>, states: map<Row, string>)
    requires Quiet(history, batch, states)
    ensures DistinctPositions(history) && DistinctPositions(Restate(history, states))
  {
    SubsetPositions(history + batch, history);
    RestateKeepsPositions(false, history, states);
  }

  lemma ShownFor(history: set<Row>, states: map<Row, string>, a: Row) returns (p: Row)
    requires DistinctPositions(Restate(history, states)) && a in history
    ensures IsLatest(KeepStateChanges(Restate(history, states)), p) && p.entity == a.entity
  {
    hide KeepStateChanges, DistinctPositions, IsLatest;
    assert StateUnder(a, states) in Restate(history, states);
    p := LatestExists(Restate(history, states), StateUnder(a, states));
  }

  lemma QuietShowsBoundary(history: set<Row>, batch: set<Row>, states: map<Row, string>)
    requires Quiet(history, batch, states)
    ensures ShowsBoundary(Restate(history, states), Restate(batch, states))
  {
    QuietPositions(history, batch, states);
    hide KeepStateChanges, Quiet, DistinctPositions, IsTop, IsLast, Restate;
    var h, b := Restate(history, states), Restate(batch, states);
    forall x, last | x in b && IsLast(h, last) && last.entity == x.entity
      ensures exists p :: IsTop(false, KeepStateChanges(h), p) && p.entity == last.entity
      ensures forall p | IsTop(false, KeepStateChanges(h), p) && p.entity == last.entity :: p.state == last.state
    {
      var q := RestatedRow(batch, states, x);
      LastIsRow(h, last);
      var w := LatestExists(h, last);
      forall p | IsTop(false, KeepStateChanges(h), p) && p.entity == last.entity ensures p.state == last.state {
        var t := QuietLatest(history, batch, states, q, p);
        LatestHidesNothing(history, batch, states, t, p, last);
      }
    }
  }

  lemma LastIsRow(rows: set<Row>, last: Row)
    requires IsLast(rows, last)
    ensures last in rows
  {
  }

  lemma QuietLatest(history: set<Row>, batch: set<Row>, states: map<Row, string>, q: Row, p: Row) returns (t: Row)
    requires Quiet(history, batch, states)
    requires q in batch && IsLatest(KeepStateChanges(Restate(history, states)), p) && p.entity == q.entity
    ensures HidesNothing(history, batch, t) && t in history && p == StateUnder(t, states) && p == t.(state := p.state)
  {
    SubsetPositions(history + batch, history);
    SubsetPositions(history + batch, batch);
    hide KeepStateChanges, Before, NotAfter, Raises, DistinctPositions, HidesNothing;
    t := LatestCanBe(history, states, p);
    var r := FirstExists(batch, q);
    if NotAfter(r, t) { RowsRaise(history, batch, states, r, t); }
    assert PassesBehind(history, batch, r, t);
  }

  /** Every kept row behind the latest would be ranked ahead of it, so the latest carries the last state. */
  lemma LatestHidesNothing(history: set<Row>, batch: set<Row>, states: map<Row, string>, t: Row, p: Row, last: Row)
    requires DistinctPositions(Restate(history, states)) && HidesNothing(history, batch, t) && t in history
    requires p == StateUnder(t, states) && p == t.(state := p.state)
    requires IsLatest(KeepStateChanges(Restate(history, states)), p)
    requires IsLast(Restate(history, states), last) && last.entity == p.entity
    ensures p.state == last.state
  {
    var h := Restate(history, states);
    KeptAreRows(h);
    hide KeepStateChanges;
    var k := CompressionKeepsEveryState(h, last);
    if p != k {
      var o := RestatedRow(history, states, k);
      SamePositions(t, p, o, k);
      SamePositions(o, k, t, p);
    }
  }

  lemma DecidedMeansLaw(history: set<Row>, batch: set<Row>, states: map<Row, string>)
    requires DistinctPositions(history + batch) && BoundaryDecides(history, batch)
    ensures Raises(history, batch, states) || LawHolds(history, batch, states)
  {
    hide Raises, LawHolds, DistinctPositions, Follows, ShowsBoundary, PassesBehind, HidesNothing, NeverPasses;
    if r :| NeverPasses(history, batch, r) {
      NeverPassesRaises(history, batch, states, r);
    } else if !Raises(history, batch, states) {
      QuietFollows(history, batch, states);
      QuietShowsBoundary(history, batch, states);
      QuietIsRebuild(history, batch, states);
    }
  }

  lemma QuietIsRebuild(history: set<Row>, batch: set<Row>, states: map<Row, string>)
    requires DistinctPositions(history + batch) && Follows(history, batch)
    requires ShowsBoundary(Restate(history, states), Restate(batch, states))
    ensures LawHolds(history, batch, states)
  {
    RestateUnion(history, batch, states);
    RestateKeepsPositions(false, history + batch, states);
    RestateFollows(history, batch, states);
    hide DistinctPositions, Follows, ShowsBoundary, KeepStateChanges, Incremental, Restate;
    ShownBoundaryIsRebuild(Restate(history, states), Restate(batch, states));
  }

  // ---------------------------------------------------------------- states that show a chosen row

  /** A row the batch passes behind, for an entity that has one. */
  ghost function QuietOf(history: set<Row>, batch: set<Row>, entity: string): (t: Row)
    requires exists r, t :: PassesBehind(history, batch, r, t) && t.entity == entity
    ensures t.entity == entity && exists r :: PassesBehind(history, batch, r, t)
  {
    var r, t :| PassesBehind(history, batch, r, t) && t.entity == entity;
    t
  }

  /** The rows an entity's states step at: a and b for the entity of a, a quiet row twice for any other. */
  ghost function StepsOf(history: set<Row>, batch: set<Row>, a: Row, b: Row, entity: string): (Row, Row) {
    if entity == a.entity then (a, b)
    else if exists r, t :: PassesBehind(history, batch, r, t) && t.entity == entity then
      (QuietOf(history, batch, entity), QuietOf(history, batch, entity))
    else (a, a)
  }

  /** History rows in steps, batch rows all in one state. */
  ghost function Stepped(history: set<Row>, batch: set<Row>, a: Row, b: Row, state: string): map<Row, string> {
    map r | r in history + batch ::
      if r in history then
        var steps := StepsOf(history, batch, a, b, r.entity); Level(steps.0, steps.1, r)
      else state
  }

  ghost predicate InSteps(rows: set<Row>, a: Row, b: Row) {
    && a in rows && b in rows && a.entity == b.entity && (a == b || Before(a, b))
    && forall r | r in rows && r.entity == a.entity :: r.state == Level(a, b, r)
  }

  /** Change detection keeps the first row and the rows the states step at. */
  lemma KeptOfSteps(rows: set<Row>, a: Row, b: Row, k: Row)
    requires DistinctPositions(rows) && InSteps(rows, a, b)
    requires k in KeepStateChanges(rows) && k.entity == a.entity
    ensures IsFirst(rows, k) || k == a || k == b
  {
    if !IsFirst(rows, k) && k != a && k != b {
      var q :| q in rows && q.entity == k.entity && Before(q, k);
      PositionsAreTotal(rows, k, a);
      PositionsAreTotal(rows, k, b);
      var p := LagExists(rows, q, k);
      BetweenSteps(a, b, p, k);
    }
  }

  lemma BetweenSteps(a: Row, b: Row, p: Row, k: Row)
    requires Before(p, k) && (Before(a, k) ==> !Before(p, a)) && (Before(b, k) ==> !Before(p, b))
    requires (Before(k, a) <==> !Before(a, k)) && (Before(k, b) <==> !Before(b, k))
    ensures Level(a, b, p) == Level(a, b, k)
  {
    if Before(k, a) { BeforeIsTransitive(p, k, a); }
    if Before(k, b) { BeforeIsTransitive(p, k, b); }
  }

  lemma StepIsKept(rows: set<Row>, a: Row, b: Row)
    requires InSteps(rows, a, b)
    ensures a in KeepStateChanges(rows)
  {
    NeverBeforeItself(a);
    forall p | p in rows && IsLag(rows, p, a) ensures p.state != a.state {
      assert p.state == "0";
    }
  }

  /** If the lower step outranks the first row and the upper step, the satellite shows it as the latest. */
  lemma LatestOfSteps(rows: set<Row>, a: Row, b: Row, p: Row)
    requires DistinctPositions(rows) && InSteps(rows, a, b) && (a == b || !Outranks(false, b, a))
    requires forall f | IsFirst(rows, f) && f.entity == a.entity :: f == a || Outranks(false, a, f)
    requires IsLatest(KeepStateChanges(rows), p) && p.entity == a.entity
    ensures p == a
  {
    IsThere(KeepStateChanges(rows), p);
    KeptAreRows(rows);
    KeptOfSteps(rows, a, b, p);
    StepIsKept(rows, a, b);
    hide KeepStateChanges, Before, Outranks, InSteps;
    assert !Outranks(false, a, p);
    if a != b { PositionsAreTotal(rows, a, b); }
  }

  lemma SteppedRows(history: set<Row>, batch: set<Row>, a: Row, b: Row, state: string, x: Row, y: Row)
    requires x in history && y in history && x.entity == y.entity && (x == y || Before(x, y))
    requires StepsOf(history, batch, a, b, x.entity) == (x, y)
    ensures var states := Stepped(history, batch, a, b, state);
            InSteps(Restate(history, states), StateUnder(x, states), StateUnder(y, states))
  {
    var states := Stepped(history, batch, a, b, state);
    var rows := Restate(history, states);
    var u, w := StateUnder(x, states), StateUnder(y, states);
    hide StepsOf;
    forall r | r in rows && r.entity == u.entity ensures r.state == Level(u, w, r) {
      var o := RestatedRow(history, states, r);
      SameLevel(x, y, o, u, w, r);
    }
    SameLevel(x, y, x, u, w, u);
  }

  lemma OneFirst(batch: set<Row>, r: Row, x: Row)
    requires DistinctPositions(batch) && IsFirst(batch, r) && IsFirst(batch, x) && r.entity == x.entity
    ensures r == x
  {
    if r != x { PositionsAreTotal(batch, r, x); }
  }

  /** The steps of an entity of which the batch passes behind some row: it passes behind the lower one. */
  lemma StepsAreQuiet(history: set<Row>, batch: set<Row>, a: Row, b: Row, r: Row) returns (x: Row, y: Row)
    requires DistinctPositions(history + batch) && IsFirst(batch, r)
    requires exists q :: PassesBehind(history, batch, q, a)
    requires b in history && b.entity == a.entity && (a == b || (Before(a, b) && !Outranks(false, b, a)))
    requires exists t :: PassesBehind(history, batch, r, t)
    ensures (x, y) == StepsOf(history, batch, a, b, r.entity) && PassesBehind(history, batch, r, x)
    ensures y in history && y.entity == x.entity && (x == y || (Before(x, y) && !Outranks(false, y, x)))
  {
    SubsetPositions(history + batch, batch);
    hide Before, Outranks, DistinctPositions, NotAfter, CanBeLatest;
    var steps := StepsOf(history, batch, a, b, r.entity);
    x, y := steps.0, steps.1;
    var q :| PassesBehind(history, batch, q, x);
    OneFirst(batch, r, q);
  }

  /** Under the stepped states the check compares with rows the batch passes behind, so the load does not raise. */
  lemma SteppedIsQuiet(history: set<Row>, batch: set<Row>, a: Row, b: Row, state: string)
    requires DistinctPositions(history + batch) && forall r :: !NeverPasses(history, batch, r)
    requires exists q :: PassesBehind(history, batch, q, a)
    requires b in history && b.entity == a.entity && (a == b || (Before(a, b) && !Outranks(false, b, a)))
    ensures !Raises(history, batch, Stepped(history, batch, a, b, state))
  {
    var states := Stepped(history, batch, a, b, state);
    hide Raises, Stepped, NotAfter, Restate, Before, Outranks, StepsOf, DistinctPositions, KeepStateChanges;
    if Raises(history, batch, states) {
      var r, t := RaiseHasRows(history, batch, states);
      assert !NeverPasses(history, batch, r);
      var x, y := StepsAreQuiet(history, batch, a, b, r);
      LatestIsStep(history, batch, a, b, state, x, y, StateUnder(t, states));
      SamePositions(r, r, t, StateUnder(t, states));
      SamePositions(r, r, x, StateUnder(x, states));
    }
  }

  lemma LatestIsStep(history: set<Row>, batch: set<Row>, a: Row, b: Row, state: string, x: Row, y: Row, p: Row)
    requires DistinctPositions(history + batch) && CanBeLatest(history, x)
    requires y in history && y.entity == x.entity && (x == y || (Before(x, y) && !Outranks(false, y, x)))
    requires StepsOf(history, batch, a, b, x.entity) == (x, y)
    requires var states := Stepped(history, batch, a, b, state);
             IsLatest(KeepStateChanges(Restate(history, states)), p) && p.entity == x.entity
    ensures p == StateUnder(x, Stepped(history, batch, a, b, state))
  {
    var states := Stepped(history, batch, a, b, state);
    var rows := Restate(history, states);
    var u, w := StateUnder(x, states), StateUnder(y, states);
    SubsetPositions(history + batch, history);
    RestateKeepsPositions(false, history, states);
    SteppedRows(history, batch, a, b, state, x, y);
    hide Stepped, StepsOf, KeepStateChanges, Before, Outranks, DistinctPositions, InSteps, IsLatest;
    SamePositions(y, w, x, u);
    forall f | IsFirst(rows, f) && f.entity == u.entity ensures f == u || Outranks(false, u, f) {
      var o := FirstBehind(history, states, f);
      SamePositions(x, u, o, f);
    }
    LatestOfSteps(rows, u, w, p);
  }

  // ---------------------------------------------------------------- and they break the law

  lemma SteppedStates(history: set<Row>, batch: set<Row>, a: Row, b: Row, state: string, other: string)
    requires history !! batch
    ensures Restate(history, Stepped(history, batch, a, b, state)) ==
              Restate(history, Stepped(history, batch, a, b, other))
    ensures forall r | r in Restate(batch, Stepped(history, batch, a, b, state)) :: r.state == state
  {
    var one, two := Stepped(history, batch, a, b, state), Stepped(history, batch, a, b, other);
    hide StepsOf, Level;
    forall r | r in history ensures StateUnder(r, one) == StateUnder(r, two) {
    }
    forall r | r in Restate(batch, one) ensures r.state == state {
      var o := RestatedRow(batch, one, r);
      assert o in history + batch && o !in history;
    }
  }

  lemma BatchRowInFront(history: set<Row>, batch: set<Row>) returns (p: Row, r: Row)
    requires DistinctPositions(history + batch) && history !! batch && !Follows(history, batch)
    ensures p in batch && r in history && IsLag(history + batch, p, r)
  {
    var h, x :| h in history && x in batch && h.entity == x.entity && !Before(h, x);
    PositionsAreTotal(history + batch, h, x);
    p, r := InterleavedRow(history, batch, x, h);
  }

  lemma StepState(history: set<Row>, batch: set<Row>, a: Row, b: Row, state: string, other: string, r: Row)
    requires r in history
    ensures StateUnder(r, Stepped(history, batch, a, b, state)) == StateUnder(r, Stepped(history, batch, a, b, other))
    ensures StateUnder(r, Stepped(history, batch, a, b, state)).state != "9"
  {
    hide StepsOf, Before;
  }

  /** A batch row in front of a history row: for some state of the batch the rebuild decides that row otherwise. */
  lemma InterleavedBreaks(history: set<Row>, batch: set<Row>, a: Row, b: Row) returns (state: string)
    requires DistinctPositions(history + batch) && history !! batch && !Follows(history, batch)
    ensures !LawHolds(history, batch, Stepped(history, batch, a, b, state))
  {
    hide Stepped, StepsOf, Before, DistinctPositions, Follows, KeepStateChanges, LawHolds, StateUnder;
    var p, r := BatchRowInFront(history, batch);
    var r' := StateUnder(r, Stepped(history, batch, a, b, "9"));
    var kept := KeepStateChanges(Restate(history, Stepped(history, batch, a, b, "9")));
    state := if r' in kept then r'.state else "9";
    SteppedStates(history, batch, a, b, state, "9");
    StepState(history, batch, a, b, state, "9", r);
    var states := Stepped(history, batch, a, b, state);
    RestatedLag(history + batch, states, p, r);
    RestateKeepsPositions(false, history + batch, states);
    LagDecides(history, batch, states, StateUnder(p, states), r');
  }

  /** A history row behind a batch row in one single state is decided by that state alone. */
  lemma LagDecides(history: set<Row>, batch: set<Row>, states: map<Row, string>, p: Row, r: Row)
    requires DistinctPositions(Restate(history + batch, states))
    requires IsLag(Restate(history + batch, states), p, r) && r in Restate(history, states)
    requires p in Restate(batch, states) && forall q | q in Restate(batch, states) :: q.state == p.state
    requires r.state == p.state <==> r in KeepStateChanges(Restate(history, states))
    ensures !LawHolds(history, batch, states)
  {
    var all := Restate(history + batch, states);
    RestateUnion(history, batch, states);
    KeptAreRows(Restate(batch, states));
    forall q | IsLag(all, q, r) ensures q == p {
      if q != p { PositionsAreTotal(all, q, p); }
    }
    assert r in KeepStateChanges(all) <==> r.state != p.state;
    assert ChangedRows(KeepStateChanges(Restate(history, states)), KeepStateChanges(Restate(batch, states)))
        <= Restate(batch, states);
    hide KeepStateChanges, ChangedRows, Restate, IsLag, DistinctPositions;
  }

  /** A row behind the shown one that is not ranked ahead of it hides the last state from the comparison. */
  lemma HiddenBreaks(history: set<Row>, batch: set<Row>, a: Row, b: Row, f: Row)
    requires DistinctPositions(history + batch) && history !! batch
    requires IsFirst(batch, f) && f.entity == a.entity && CanBeLatest(history, a)
    requires b in history && b.entity == a.entity && Before(a, b) && !Outranks(false, b, a)
    requires forall h, x | h in history && x in batch && h.entity == x.entity == a.entity :: Before(h, x)
    ensures !LawHolds(history, batch, Stepped(history, batch, a, b, "2"))
  {
    var states := Stepped(history, batch, a, b, "2");
    var h, t, g := Restate(history, states), Restate(batch, states), StateUnder(f, states);
    SubsetPositions(history + batch, batch);
    RestateKeepsPositions(false, history + batch, states);
    RestateKeepsPositions(false, batch, states);
    RestateUnion(history, batch, states);
    RestateKeepsFirst(batch, states, f);
    SteppedStates(history, batch, a, b, "2", "2");
    SteppedRows(history, batch, a, b, "2", a, b);
    assert g in t;
    forall p | IsTop(false, KeepStateChanges(h), p) && p.entity == g.entity ensures p.state != g.state {
      LatestIsStep(history, batch, a, b, "2", a, b, p);
      NeverBeforeItself(a);
    }
    FirstRowIsAdded(h, t, g);
    BehindUpperStep(history, batch, states, a, b, f);
    hide KeepStateChanges, ChangedRows, Restate, Stepped;
  }

  /** The first batch row of the entity follows a row behind the upper step, which has its state. */
  lemma BehindUpperStep(history: set<Row>, batch: set<Row>, states: map<Row, string>, a: Row, b: Row, f: Row)
    requires DistinctPositions(Restate(history + batch, states)) && IsFirst(batch, f) && f.entity == a.entity
    requires b in history && b.entity == a.entity && Before(b, f)
    requires InSteps(Restate(history, states), StateUnder(a, states), StateUnder(b, states))
    requires StateUnder(f, states).state == "2"
    ensures StateUnder(f, states) !in KeepStateChanges(Restate(history + batch, states))
  {
    var all, g, w := Restate(history + batch, states), StateUnder(f, states), StateUnder(b, states);
    RestateUnion(history, batch, states);
    RestateKeepsFirst(batch, states, f);
    assert g in all && w in all;
    SamePositions(b, w, f, g);
    var p := LagExists(all, w, g);
    assert p in Restate(history, states);
    NotBelowUpperStep(StateUnder(a, states), w, p);
  }

  lemma NotBelowUpperStep(a: Row, b: Row, p: Row)
    requires (a == b || Before(a, b)) && !Before(p, b)
    ensures Level(a, b, p) == "2"
  {
    if Before(p, a) && a != b { BeforeIsTransitive(p, a, b); }
  }

  lemma UndecidedBreaksTheLaw(history: set<Row>, batch: set<Row>)
    requires DistinctPositions(history + batch) && history !! batch && !BoundaryDecides(history, batch)
    ensures exists states :: !Raises(history, batch, states) && !LawHolds(history, batch, states)
  {
    hide Raises, LawHolds, Stepped, NeverPasses, Before, Outranks, NotAfter, DistinctPositions;
    var r, t :| PassesBehind(history, batch, r, t) && !HidesNothing(history, batch, t);
    if Follows(history, batch) {
      var b :| b in history && b.entity == t.entity && Before(t, b) && !Outranks(false, b, t);
      SteppedIsQuiet(history, batch, t, b, "2");
      HiddenBreaks(history, batch, t, b, r);
    } else {
      var state := InterleavedBreaks(history, batch, t, t);
      SteppedIsQuiet(history, batch, t, t, state);
    }
  }

  /**
   For every assignment of states the bounded load raises or leaves the rebuild, if and only if, by
   positions alone, it passes behind no row of some entity it touches, or behind every row it passes
   lies the whole history of the entity, and no later history row is ranked below that row.
   */
  lemma BoundedLawIsExact(history: set<Row>, batch: set<Row>)
    requires DistinctPositions(history + batch) && UniqueEvents(history + batch) && history !! batch
    ensures (forall states :: RaisesOrRebuilds(history, batch, states)) <==> BoundaryDecides(history, batch)
  {
    hide DistinctPositions, UniqueEvents, Raises, LawHolds, RaisesOrRebuilds, BoundaryDecides;
    forall states
      ensures RaisesOrRebuilds(history, batch, states) <==>
                Raises(history, batch, states) || LawHolds(history, batch, states)
    {
      LawOfLoad(history, batch, states);
    }
    if BoundaryDecides(history, batch) {
      forall states ensures RaisesOrRebuilds(history, batch, states) {
        DecidedMeansLaw(history, batch, states);
      }
    } else {
      UndecidedBreaksTheLaw(history, batch);
    }
  }

  /**
   A row that arrives late, behind the stored row and in front of one whose state was no change: the
   check does not see the second, the load goes through, and the rebuild would keep one row more.
   */
  lemma LateRowPassesTheCheck()
    ensures var h1 := Row("e", "A", "1", Some(10), Some(1), "t", 0, 1, Details([]));
            var h2 := Row("e", "A", "2", Some(20), Some(2), "t", 0, 2, Details([]));
            var r := Row("e", "B", "3", Some(15), Some(3), "t", 0, 3, Details([]));
            var result := LoadBounded(AsStored(KeepStateChanges({h1, h2}), "before"), "now", {r});
            result.Ok? && h2 !in Project(result.value) && h2 in KeepStateChanges({h1, h2, r})
  {
    var h1 := Row("e", "A", "1", Some(10), Some(1), "t", 0, 1, Details([]));
    var h2 := Row("e", "A", "2", Some(20), Some(2), "t", 0, 2, Details([]));
    var r := Row("e", "B", "3", Some(15), Some(3), "t", 0, 3, Details([]));
    assert Before(h1, r) && Before(r, h2) && !NotAfter(r, h1);
    hide Before, NotAfter, LoadBounded;
    BeforeIsTransitive(h1, r, h2);
    NeverBeforeItself(h1);
    NeverBeforeItself(h2);
    DroppedRow(h1, h2);
    var kept := KeepStateChanges({h1, h2});
    KeptBehindLate(h1, h2, r);
    LoadIsCheckAndInsert(kept, {r});
    KeptAreRows({r});
    hide KeepStateChanges;
  }

  lemma DroppedRow(a: Row, b: Row)
    requires a.entity == b.entity && a.state == b.state && Before(a, b) && !Before(a, a) && !Before(b, b)
    ensures KeepStateChanges({a, b}) <= {a}
  {
    hide Before;
    assert IsLag({a, b}, a, b) && a in {a, b};
  }

  lemma KeptBehindLate(a: Row, b: Row, r: Row)
    requires a.entity == b.entity == r.entity && b.state != r.state && Before(a, r) && Before(r, b) && !Before(b, b)
    ensures b in KeepStateChanges({a, b, r})
  {
    hide Before;
    forall q | q in {a, b, r} && IsLag({a, b, r}, q, b) ensures q == r {
      assert r in {a, b, r};
    }
  }
}
