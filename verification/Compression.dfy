/**
 What change detection keeps of the history of an entity, and which rankings of the kept rows find
 the last state of every entity, whatever the states are.
 */
module Compression {
  import opened RawVault

  // ---------------------------------------------------------------- order lemmas

  /** The two orders decide a pair the same way exactly when no null decides it. */
  lemma OrdersAgreeExactlyWithoutNulls(a: Row, b: Row)
    ensures ((Before(a, b) <==> Outranks(false, b, a)) && (Before(b, a) <==> Outranks(false, a, b)))
       <==> DecidedWithoutNulls(a, b)
  {
  }

  lemma BeforeIsTransitive(a: Row, b: Row, c: Row)
    requires Before(a, b) && Before(b, c)
    ensures Before(a, c)
  {
  }

  lemma RankIsTransitive(byTime: bool, a: Row, b: Row, c: Row)
    requires Outranks(byTime, a, b) && Outranks(byTime, b, c)
    ensures Outranks(byTime, a, c)
  {
  }

  lemma PositionsAreTotal(rows: set<Row>, a: Row, b: Row)
    requires DistinctPositions(rows) && a in rows && b in rows && a.entity == b.entity && a != b
    ensures Before(a, b) <==> !Before(b, a)
    ensures forall byTime :: Outranks(byTime, a, b) <==> !Outranks(byTime, b, a)
  {
  }

  lemma NeverBeforeItself(r: Row)
    ensures !Before(r, r)
  {
  }

  /** The ranking puts the later row of an entity first. */
  ghost predicate RankFollows(byTime: bool, rows: set<Row>) {
    forall a, b | a in rows && b in rows && a.entity == b.entity && Before(a, b) :: Outranks(byTime, b, a)
  }

  lemma RankFollowsExactlyWithoutNulls(rows: set<Row>)
    requires DistinctPositions(rows)
    ensures RankFollows(false, rows) <==> NoNullDecides(rows)
  {
    forall a, b | a in rows && b in rows && a.entity == b.entity
      ensures NoNullDecides(rows) && Before(a, b) ==> Outranks(false, b, a)
      ensures RankFollows(false, rows) ==> DecidedWithoutNulls(a, b)
    {
      NeverBeforeItself(a);
      if a != b { PositionsAreTotal(rows, a, b); }
      OrdersAgreeExactlyWithoutNulls(a, b);
    }
  }

  lemma ContractRanks(rows: set<Row>)
    requires Contract(rows)
    ensures DistinctPositions(rows) && RankFollows(false, rows)
  {
    assert DistinctPositions(rows);
    RankFollowsExactlyWithoutNulls(rows);
  }

  function OfEntity(rows: set<Row>, entity: string): set<Row> {
    set r | r in rows && r.entity == entity
  }

  predicate OneEntity(rows: set<Row>) {
    forall a, b | a in rows && b in rows :: a.entity == b.entity
  }

  /** The last row of its entity. */
  predicate IsLast(rows: set<Row>, m: Row) {
    m in rows && forall q | q in rows && q.entity == m.entity && q != m :: Before(q, m)
  }

  /** A non-empty set of rows of one entity has a last row. */
  lemma {:induction false} LastExists(rows: set<Row>) returns (m: Row)
    requires DistinctPositions(rows) && rows != {} && OneEntity(rows)
    ensures IsLast(rows, m)
    decreases |rows|
  {
    hide Before;
    var x :| x in rows;
    var rest := rows - {x};
    if rest == {} {
      m := x;
      assert forall q | q in rows :: q == x || q in rest;
    } else {
      var n := LastExists(rest);
      PositionsAreTotal(rows, n, x);
      m := if Before(n, x) then x else n;
      forall q | q in rows && q != m ensures Before(q, m) {
        if q != x && q != n { LastOfTwo(q, n, x); }
        assert q == x || q in rest;
      }
    }
  }

  lemma LastOfTwo(q: Row, n: Row, x: Row)
    ensures Before(q, n) && Before(n, x) ==> Before(q, x)
  {
  }

  /** And a row that none outranks. */
  lemma {:induction false} TopExists(byTime: bool, rows: set<Row>) returns (t: Row)
    requires DistinctPositions(rows) && rows != {} && OneEntity(rows)
    ensures t in rows && forall q | q in rows && q != t :: Outranks(byTime, t, q)
    decreases |rows|
  {
    hide Outranks;
    var x :| x in rows;
    var rest := rows - {x};
    if rest == {} {
      t := x;
      assert forall q | q in rows :: q == x || q in rest;
    } else {
      var n := TopExists(byTime, rest);
      PositionsAreTotal(rows, n, x);
      t := if Outranks(byTime, x, n) then x else n;
      forall q | q in rows && q != t ensures Outranks(byTime, t, q) {
        if q != x && q != n && t == x { RankIsTransitive(byTime, x, n, q); }
        assert q == x || q in rest;
      }
    }
  }

  /** LAG is not null as soon as an earlier row of the entity exists. */
  lemma LagExists(rows: set<Row>, q: Row, r: Row) returns (p: Row)
    requires DistinctPositions(rows) && q in rows && r in rows && q.entity == r.entity && Before(q, r)
    ensures IsLag(rows, p, r)
  {
    hide Before;
    var earlier := set x | x in rows && x.entity == r.entity && Before(x, r);
    assert q in earlier;
    p := LastExists(earlier);
    forall x | x in rows && x.entity == r.entity && Before(p, x) ensures !Before(x, r) {
      if Before(x, r) {
        assert x in earlier;
        NeverBeforeItself(p);
        PositionsAreTotal(rows, p, x);
      }
    }
  }

  lemma {:induction false} FirstExists(rows: set<Row>, r: Row) returns (f: Row)
    requires DistinctPositions(rows) && r in rows
    ensures IsFirst(rows, f) && f.entity == r.entity && (f == r || Before(f, r))
    decreases |rows|
  {
    if q :| q in rows && q.entity == r.entity && Before(q, r) {
      var rest := rows - {r};
      f := FirstExists(rest, q);
      forall x | x in rows && x.entity == f.entity ensures !Before(x, f) {
        assert x == r || x in rest;
      }
    } else {
      f := r;
    }
  }

  // ---------------------------------------------------------------- what compression keeps

  /**
   The satellite answers every as-of question the raw rows answer: for each raw row, the last
   kept row not behind it carries the same state.
   */
  ghost predicate CarriesState(kept: set<Row>, k: Row, r: Row) {
    && k in kept && k.entity == r.entity && k.state == r.state && (k == r || Before(k, r))
    && forall q | q in kept && q.entity == r.entity && (q == r || Before(q, r)) :: q == k || Before(q, k)
  }

  lemma {:induction false} CompressionKeepsEveryState(rows: set<Row>, r: Row) returns (k: Row)
    requires DistinctPositions(rows) && r in rows
    ensures CarriesState(KeepStateChanges(rows), k, r)
    decreases |set q | q in rows && q.entity == r.entity && Before(q, r)|
  {
    var kept := KeepStateChanges(rows);
    if r in kept {
      k := r;
    } else {
      var p :| p in rows && IsLag(rows, p, r) && p.state == r.state;
      EarlierRowsShrink(rows, p, r);
      k := CompressionKeepsEveryState(rows, p);
      forall q | q in kept && q.entity == r.entity && (q == r || Before(q, r)) ensures q == k || Before(q, k) {
        if q != p { PositionsAreTotal(rows, p, q); }
      }
    }
  }

  lemma EarlierRowsShrink(rows: set<Row>, p: Row, r: Row)
    requires p in rows && p.entity == r.entity && Before(p, r)
    ensures |set q | q in rows && q.entity == p.entity && Before(q, p)|
          < |set q | q in rows && q.entity == r.entity && Before(q, r)|
  {
    var small := set q | q in rows && q.entity == p.entity && Before(q, p);
    var big := set q | q in rows && q.entity == r.entity && Before(q, r);
    assert small <= big - {p};
    CardinalityMonotone(small, big - {p});
  }

  lemma {:induction false} CardinalityMonotone<T>(a: set<T>, b: set<T>)
    requires a <= b
    ensures |a| <= |b|
    decreases b
  {
    if x :| x in a {
      CardinalityMonotone(a - {x}, b - {x});
    }
  }

  lemma KeptAreRows(rows: set<Row>)
    ensures KeepStateChanges(rows) <= rows
  {
  }

  lemma FirstIsKept(rows: set<Row>, f: Row)
    requires IsFirst(rows, f)
    ensures f in KeepStateChanges(rows)
  {
  }

  /** Nothing else is kept: two kept rows of an entity with no kept row between them differ in state. */
  lemma CompressionKeepsOnlyChanges(rows: set<Row>, a: Row, b: Row)
    requires DistinctPositions(rows) && a in KeepStateChanges(rows) && b in KeepStateChanges(rows)
    requires a.entity == b.entity && Before(a, b)
    requires forall q | q in KeepStateChanges(rows) && q.entity == a.entity && Before(a, q) :: !Before(q, b)
    ensures a.state != b.state
  {
    var kept := KeepStateChanges(rows);
    var p := LagExists(rows, a, b);
    var k := CompressionKeepsEveryState(rows, p);
    hide Before;
    NeverBeforeItself(a);
    assert p == a || Before(a, p) by {
      if p != a { PositionsAreTotal(rows, a, p); }
    }
    if k != a { LastOfTwo(k, p, b); }
  }

  // ---------------------------------------------------------------- the last state under a ranking

  /** The kept row ranked first for an entity carries the state of the last raw row. */
  ghost predicate ShowsLastState(byTime: bool, rows: set<Row>) {
    forall last, p | IsLast(rows, last) && IsTop(byTime, KeepStateChanges(rows), p) && p.entity == last.entity ::
      p.state == last.state
  }

  /** Every entity has such a kept row, and it carries the last state if the ranking follows the order. */
  lemma LatestKeptCarriesLastState(byTime: bool, rows: set<Row>, last: Row)
    requires DistinctPositions(rows) && IsLast(rows, last) && RankFollows(byTime, OfEntity(rows, last.entity))
    ensures var kept := KeepStateChanges(rows);
            && (exists p :: IsTop(byTime, kept, p) && p.entity == last.entity)
            && forall p | IsTop(byTime, kept, p) && p.entity == last.entity :: p.state == last.state
  {
    var kept := KeepStateChanges(rows);
    KeptAreRows(rows);
    var k := CompressionKeepsEveryState(rows, last);
    hide KeepStateChanges, Before, Outranks;
    forall p | p in kept && p.entity == last.entity && p != k
      ensures Outranks(byTime, k, p) && !Outranks(byTime, p, k)
    {
      assert Before(p, k);
      assert p in OfEntity(rows, last.entity) && k in OfEntity(rows, last.entity);
      PositionsAreTotal(rows, p, k);
    }
    NeverOutranksItself(byTime, k);
    assert IsTop(byTime, kept, k);
  }

  lemma NeverOutranksItself(byTime: bool, r: Row)
    ensures !Outranks(byTime, r, r)
  {
  }

  // ---------------------------------------------------------------- restated rows

  function StateUnder(r: Row, states: map<Row, string>): Row {
    if r in states then r.(state := states[r]) else r
  }

  /** The same rows with other states. */
  function Restate(rows: set<Row>, states: map<Row, string>): set<Row> {
    set r | r in rows :: StateUnder(r, states)
  }

  lemma RestatedRow(rows: set<Row>, states: map<Row, string>, x: Row) returns (r: Row)
    requires x in Restate(rows, states)
    ensures r in rows && x == StateUnder(r, states) && x == r.(state := x.state)
  {
    r :| r in rows && StateUnder(r, states) == x;
  }

  lemma RestateKeepsPositions(byTime: bool, rows: set<Row>, states: map<Row, string>)
    ensures DistinctPositions(rows) ==> DistinctPositions(Restate(rows, states))
    ensures RankFollows(byTime, rows) ==> RankFollows(byTime, Restate(rows, states))
  {
    forall x, y | x in Restate(rows, states) && y in Restate(rows, states) && x.entity == y.entity
      ensures DistinctPositions(rows) && x != y ==> x.partition != y.partition || x.offset != y.offset
      ensures RankFollows(byTime, rows) && Before(x, y) ==> Outranks(byTime, y, x)
    {
      var a := RestatedRow(rows, states, x);
      var b := RestatedRow(rows, states, y);
      assert Before(a, b) <==> Before(x, y);
    }
  }

  lemma RestateUnion(a: set<Row>, b: set<Row>, states: map<Row, string>)
    ensures Restate(a + b, states) == Restate(a, states) + Restate(b, states)
  {
  }

  // ---------------------------------------------------------------- three states around a pair

  /** Rows before `a`, rows from `a` up to `b`, rows from `b` on. */
  function Level(a: Row, b: Row, r: Row): string {
    if Before(r, a) then "0" else if Before(r, b) then "1" else "2"
  }

  ghost predicate InLevels(rows: set<Row>, a: Row, b: Row) {
    && a in rows && b in rows && a.entity == b.entity && Before(a, b)
    && forall r | r in rows && r.entity == a.entity :: r.state == Level(a, b, r)
  }

  lemma OnlyTheUpperOfThreeIsKept(rows: set<Row>, a: Row, b: Row, r: Row)
    requires DistinctPositions(rows) && InLevels(rows, a, b)
    requires r in KeepStateChanges(rows) && r.entity == a.entity && r.state == "2"
    ensures r == b
  {
    if r != b {
      PositionsAreTotal(rows, b, r);
      assert Before(b, r);
      var p := LagExists(rows, b, r);
      if Before(p, a) { BeforeIsTransitive(p, a, b); }
    }
  }

  lemma LowerOfThreeIsKept(rows: set<Row>, a: Row, b: Row)
    requires DistinctPositions(rows) && InLevels(rows, a, b)
    ensures a in KeepStateChanges(rows) && a.state == "1"
  {
    NeverBeforeItself(a);
    forall p | p in rows && IsLag(rows, p, a) ensures p.state != a.state {
      assert p.state == "0";
    }
  }

  /** A ranking that puts the earlier row of the pair first shows a state below the upper one. */
  lemma PairHidesTheLastState(byTime: bool, rows: set<Row>, a: Row, b: Row) returns (t: Row)
    requires DistinctPositions(rows) && InLevels(rows, a, b) && !Outranks(byTime, b, a)
    ensures IsTop(byTime, KeepStateChanges(rows), t) && t.entity == a.entity
    ensures forall p | IsTop(byTime, KeepStateChanges(rows), p) && p.entity == a.entity :: p.state != "2"
  {
    var kept := KeepStateChanges(rows);
    KeptAreRows(rows);
    LowerOfThreeIsKept(rows, a, b);
    NeverBeforeItself(a);
    PositionsAreTotal(rows, a, b);
    forall p | IsTop(byTime, kept, p) && p.entity == a.entity ensures p.state != "2" {
      if p.state == "2" { OnlyTheUpperOfThreeIsKept(rows, a, b, p); }
    }
    hide KeepStateChanges, Before, Outranks, InLevels;
    var mine := OfEntity(kept, a.entity);
    assert a in mine;
    t := TopExists(byTime, mine);
    forall q | q in kept && q.entity == t.entity ensures !Outranks(byTime, q, t) {
      assert q in mine;
      NeverOutranksItself(byTime, t);
      if q != t { PositionsAreTotal(rows, q, t); }
    }
  }

  /** The rows in three states around a pair, given by their positions. */
  function Levels(rows: set<Row>, a: Row, b: Row): map<Row, string> {
    map r | r in rows :: Level(a, b, r)
  }

  lemma LevelsAreInLevels(rows: set<Row>, part: set<Row>, a: Row, b: Row) returns (x: Row, y: Row)
    requires part <= rows && a in part && b in part && a.entity == b.entity && Before(a, b)
    ensures x == a.(state := x.state) && y == b.(state := y.state)
    ensures InLevels(Restate(part, Levels(rows, a, b)), x, y)
  {
    var states := Levels(rows, a, b);
    x, y := StateUnder(a, states), StateUnder(b, states);
    assert x in Restate(part, states) && y in Restate(part, states);
    forall r | r in Restate(part, states) ensures r.state == Level(x, y, r) {
      var o := RestatedRow(part, states, r);
      assert r.state == Level(a, b, o);
      SameLevel(a, b, o, x, y, r);
    }
  }

  lemma SameLevel(a: Row, b: Row, o: Row, x: Row, y: Row, r: Row)
    requires x == a.(state := x.state) && y == b.(state := y.state) && r == o.(state := r.state)
    ensures Level(x, y, r) == Level(a, b, o)
    ensures Before(x, y) <==> Before(a, b)
    ensures forall byTime :: Outranks(byTime, x, y) <==> Outranks(byTime, a, b)
  {
  }

  /**
   For every assignment of states the row ranked first among the kept rows carries the last state,
   if and only if the ranking puts the later of any two rows of an entity first.
   */
  lemma RankingShowsLastStateExactly(byTime: bool, rows: set<Row>)
    requires DistinctPositions(rows)
    ensures (forall states :: ShowsLastState(byTime, Restate(rows, states))) <==> RankFollows(byTime, rows)
  {
    if RankFollows(byTime, rows) {
      forall states ensures ShowsLastState(byTime, Restate(rows, states)) {
        RestateKeepsPositions(byTime, rows, states);
        FollowingRankShowsLastState(byTime, Restate(rows, states));
      }
    } else {
      var a, b :| a in rows && b in rows && a.entity == b.entity && Before(a, b) && !Outranks(byTime, b, a);
      PairFailsInLevels(byTime, rows, a, b);
    }
  }

  lemma FollowingRankShowsLastState(byTime: bool, rows: set<Row>)
    requires DistinctPositions(rows) && RankFollows(byTime, rows)
    ensures ShowsLastState(byTime, rows)
  {
    hide KeepStateChanges, Before, Outranks, IsTop, IsLast, DistinctPositions;
    forall last | IsLast(rows, last)
      ensures forall p | IsTop(byTime, KeepStateChanges(rows), p) && p.entity == last.entity :: p.state == last.state
    {
      LatestKeptCarriesLastState(byTime, rows, last);
    }
  }

  lemma PairFailsInLevels(byTime: bool, rows: set<Row>, a: Row, b: Row)
    requires DistinctPositions(rows) && a in rows && b in rows && a.entity == b.entity
    requires Before(a, b) && !Outranks(byTime, b, a)
    ensures !ShowsLastState(byTime, Restate(rows, Levels(rows, a, b)))
  {
    var all := Restate(rows, Levels(rows, a, b));
    RestateKeepsPositions(byTime, rows, Levels(rows, a, b));
    var x, y := LevelsAreInLevels(rows, rows, a, b);
    SameLevel(a, b, a, x, y, x);
    SameLevel(b, a, b, y, x, y);
    var t := PairHidesTheLastState(byTime, all, x, y);
    LastOfLevels(all, x, y);
    var last :| IsLast(all, last) && last.entity == x.entity && last.state == "2";
    hide KeepStateChanges, Before, Outranks, InLevels, Restate, Levels;
    assert t.state != last.state;
  }

  lemma LastOfLevels(rows: set<Row>, a: Row, b: Row)
    requires DistinctPositions(rows) && InLevels(rows, a, b)
    ensures exists m :: IsLast(rows, m) && m.entity == a.entity && m.state == "2"
  {
    var mine := OfEntity(rows, a.entity);
    assert b in mine;
    var m := LastExists(mine);
    assert forall q :: q in rows && q.entity == a.entity ==> q in mine;
    assert IsLast(rows, m);
    NeverBeforeItself(m);
    assert !Before(m, b) by { if m != b { PositionsAreTotal(rows, m, b); } }
    if Before(m, a) { BeforeIsTransitive(m, a, b); }
  }
}
