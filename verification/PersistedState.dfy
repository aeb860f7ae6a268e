/** What one bounded load of a satellite compares, refuses and stores, over the columns of its rows. */
module PersistedState {
  import opened Wrappers
  import opened RawVault
  import opened Compression
  import IncrementalLoad

  /** Nothing of the entity comes before the row. */
  ghost predicate Leads(events: set<Row>, f: Row) {
    f in events && forall q | q in events && q.entity == f.entity :: !Before(q, f)
  }

  /** The nearest row of the entity before `r`. */
  ghost predicate Precedes(events: set<Row>, p: Row, r: Row) {
    && p in events && p.entity == r.entity && Before(p, r)
    && forall q | q in events && q.entity == r.entity && Before(q, r) :: !Before(p, q)
  }

  /** A row an earlier batch stored for its entity, and none such outranks it. */
  ghost predicate StoredLatest(table: set<Stored>, batch: string, p: Stored) {
    && p in table && p.batch != batch
    && forall q | q in table && q.batch != batch && q.row.entity == p.row.entity :: !Outranks(false, q.row, p.row)
  }

  /** The batch begins at or behind the stored position: by LSN, and by offset within one LSN or without one. */
  predicate BeginsBehind(f: Row, p: Row) {
    if f.lsn.Some? && p.lsn.Some? then
      || f.lsn.value < p.lsn.value
      || (f.lsn.value == p.lsn.value && f.topic == p.topic && f.partition == p.partition && f.offset <= p.offset)
    else f.topic == p.topic && f.partition == p.partition && f.offset <= p.offset
  }

  /** A change within the batch, or a first row unlike every latest stored one. */
  ghost predicate Changes(table: set<Stored>, batch: string, events: set<Row>, r: Row) {
    && r in events
    && (|| (exists p :: Precedes(events, p, r) && p.state != r.state)
        || (Leads(events, r)
            && forall p | StoredLatest(table, batch, p) && p.row.entity == r.entity :: p.row.state != r.state))
  }

  lemma LatestIsStored(table: set<Stored>, batch: string, p: Row)
    ensures IsLatest(Others(table, batch), p) <==> exists s :: StoredLatest(table, batch, s) && s.row == p
  {
    hide Outranks;
    var target := Others(table, batch);
    if IsLatest(target, p) {
      var s :| s in table && s.batch != batch && s.row == p;
      forall q | q in table && q.batch != batch && q.row.entity == p.entity ensures !Outranks(false, q.row, p) {
        assert q.row in target;
      }
      assert StoredLatest(table, batch, s);
    }
  }

  lemma KeptLeads(events: set<Row>, f: Row)
    requires DistinctPositions(events)
    ensures IsFirst(KeepStateChanges(events), f) <==> Leads(events, f)
  {
    if Leads(events, f) {
      FirstIsKept(events, f);
    }
    if IsFirst(KeepStateChanges(events), f) { IncrementalLoad.FirstKeptIsFirst(events, f); }
  }

  lemma ChangesExact(table: set<Stored>, batch: string, events: set<Row>, r: Row)
    requires DistinctPositions(events)
    ensures r in ChangedRows(Others(table, batch), KeepStateChanges(events)) <==> Changes(table, batch, events, r)
  {
    hide Before, Outranks;
    KeptLeads(events, r);
    forall p ensures IsLatest(Others(table, batch), p) <==> exists s :: StoredLatest(table, batch, s) && s.row == p {
      LatestIsStored(table, batch, p);
    }
    if r in events && !Leads(events, r) {
      var q :| q in events && q.entity == r.entity && Before(q, r);
      var p := LagExists(events, q, r);
      assert Precedes(events, p, r);
      LagIsUnique(events, p, r);
    }
    assert forall p :: Precedes(events, p, r) <==> IsLag(events, p, r);
  }

  lemma LagIsUnique(events: set<Row>, p: Row, r: Row)
    requires DistinctPositions(events) && IsLag(events, p, r)
    ensures forall q | IsLag(events, q, r) :: q == p
  {
    hide Before;
    forall q | IsLag(events, q, r) ensures q == p {
      if q != p { PositionsAreTotal(events, q, p); }
    }
  }

  ghost predicate CrossesStored(table: set<Stored>, batch: string, events: set<Row>) {
    exists f, p :: Leads(events, f) && StoredLatest(table, batch, p) && p.row.entity == f.entity
                   && BeginsBehind(f, p.row)
  }

  lemma CrossingExact(table: set<Stored>, batch: string, events: set<Row>)
    requires DistinctPositions(events)
    ensures CrossesBoundary(Others(table, batch), KeepStateChanges(events)) <==> CrossesStored(table, batch, events)
  {
    var target, kept := Others(table, batch), KeepStateChanges(events);
    forall f ensures IsFirst(kept, f) <==> Leads(events, f) { KeptLeads(events, f); }
    forall p ensures IsLatest(target, p) <==> exists s :: StoredLatest(table, batch, s) && s.row == p {
      LatestIsStored(table, batch, p);
    }
    hide Leads, StoredLatest, KeepStateChanges, Others;
    forall f, p ensures NotAfter(f, p) <==> BeginsBehind(f, p) {
    }
    hide NotAfter, BeginsBehind;
    if CrossesBoundary(target, kept) {
      var f, p :| f in kept && p in target
                  && IsFirst(kept, f) && IsLatest(target, p) && p.entity == f.entity && NotAfter(f, p);
      var s :| StoredLatest(table, batch, s) && s.row == p;
      assert BeginsBehind(f, s.row);
    }
    if CrossesStored(table, batch, events) {
      var f, s :| Leads(events, f) && StoredLatest(table, batch, s) && s.row.entity == f.entity
                  && BeginsBehind(f, s.row);
      assert IsLatest(target, s.row) && IsFirst(kept, f);
    }
  }

  ghost predicate RepeatsAnEvent(table: set<Stored>, batch: string, events: set<Row>) {
    exists a, b :: Changes(table, batch, events, a) && Changes(table, batch, events, b) && a != b
                   && a.eventId == b.eventId
  }

  /**
   A bounded load of a satellite is refused for its order if and only if some entity's first row of the
   batch begins at or behind the latest row an earlier batch stored for it, and for a duplicate if and
   only if two of its changes share an event id.
   */
  lemma LoadRefusesExactly(table: set<Stored>, batch: string, events: set<Row>)
    requires DistinctPositions(events)
    ensures LoadBounded(table, batch, events) == Err(OutOfOrder) <==> CrossesStored(table, batch, events)
    ensures LoadBounded(table, batch, events) == Err(DuplicateKey) <==>
              !CrossesStored(table, batch, events) && RepeatsAnEvent(table, batch, events)
  {
    CrossingExact(table, batch, events);
    var changed := ChangedRows(Others(table, batch), KeepStateChanges(events));
    forall r ensures r in changed <==> Changes(table, batch, events, r) { ChangesExact(table, batch, events, r); }
    hide ChangedRows, KeepStateChanges, Others, Changes, CrossesStored, CrossesBoundary, MergeInsertOnly;
  }

  /** Otherwise it adds exactly the changes whose event is not stored yet, as rows of the batch. */
  lemma LoadStoresExactly(table: set<Stored>, batch: string, events: set<Row>, s: Stored)
    requires DistinctPositions(events) && LoadBounded(table, batch, events).Ok?
    ensures s in LoadBounded(table, batch, events).value <==>
              || s in table
              || (&& s.batch == batch && Changes(table, batch, events, s.row)
                  && forall v | v in table :: v.row.eventId != s.row.eventId)
  {
    ChangesExact(table, batch, events, s.row);
    hide ChangedRows, KeepStateChanges, Others, Changes, CrossesBoundary;
    var changed := ChangedRows(Others(table, batch), KeepStateChanges(events));
    assert LoadBounded(table, batch, events).value == MergeInsertOnly(table, batch, changed);
    assert s == Stored(s.row, s.batch);
  }
}
