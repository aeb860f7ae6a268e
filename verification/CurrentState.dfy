/**
 Current-state views over the compressed satellites: the row ranked latest for an entity, kept
 only while it is active, against a plain fold of the raw change events.
 */
module CurrentState {
  import opened Wrappers
  import opened RawVault
  import opened Compression
  import opened Control
  import opened Pipeline

  /** A change event of one entity, with the current image's context or the before image's on a delete. */
  datatype Change = Change(entity: string, context: string, deleted: bool, eventId: string,
                           lsn: Option<int>, effectiveFrom: Option<int>, topic: string, partition: int, offset: int)

  // ---------------------------------------------------------------- staging

  /** A row of sat_entity_record_status before change detection. */
  function StatusRow(c: Change): Row {
    Row(c.entity, StatusText(c.deleted), c.eventId, c.lsn, c.effectiveFrom, c.topic, c.partition, c.offset,
        Status(c.deleted))
  }

  /** A row of a context effectivity satellite; its state is the pre-image of the effectivity hash. */
  function ContextRow(c: Change): Row {
    Row(c.entity, c.context + "||" + StatusText(c.deleted), c.eventId, c.lsn, c.effectiveFrom, c.topic, c.partition,
        c.offset,
        Effectivity(c.context, c.deleted))
  }

  function StatusRows(events: seq<Change>): set<Row> {
    set c | c in events :: StatusRow(c)
  }

  function ContextRows(events: seq<Change>): set<Row> {
    set c | c in events :: ContextRow(c)
  }

  lemma EffectivityStateDecides(a: Change, b: Change)
    ensures ContextRow(a).state == ContextRow(b).state <==> a.context == b.context && a.deleted == b.deleted
  {
    var x, y := a.context + "||" + StatusText(a.deleted), b.context + "||" + StatusText(b.deleted);
    assert StatusText(true)[6] == 'D' && StatusText(false)[5] == 'E';
    if x == y {
      assert x[|x| - 1] == StatusText(a.deleted)[|StatusText(a.deleted)| - 1];
      assert y[|y| - 1] == StatusText(b.deleted)[|StatusText(b.deleted)| - 1];
      assert x[..|x| - |StatusText(a.deleted)| - 2] == a.context;
      assert y[..|y| - |StatusText(b.deleted)| - 2] == b.context;
    }
  }

  // ---------------------------------------------------------------- the views

  /** int_current_entity_status: the entity's row ranked first, if it is active. */
  ghost predicate CurrentlyActive(table: set<Row>, entity: string) {
    exists p :: p in table && IsLatest(table, p) && p.entity == entity && p.image == Status(false)
  }

  /** int_current_application_context and int_current_loan_context. */
  ghost predicate CurrentContext(table: set<Row>, entity: string, context: string) {
    exists p :: p in table && IsLatest(table, p) && p.entity == entity && p.image == Effectivity(context, false)
  }

  // ---------------------------------------------------------------- the fold

  /** Last write wins, event by event. */
  function Fold(events: seq<Change>): map<string, Change> {
    if events == [] then map[] else
    Fold(events[..|events| - 1])[events[|events| - 1].entity := events[|events| - 1]]
  }

  /** Events of one entity in the order of their positions. */
  ghost predicate InOrder(events: seq<Change>) {
    forall i, j | 0 <= i < j < |events| && events[i].entity == events[j].entity ::
        Before(StatusRow(events[i]), StatusRow(events[j]))
  }

  lemma {:induction false} FoldIsLast(events: seq<Change>, entity: string)
    requires InOrder(events)
    ensures entity in Fold(events) <==> exists c :: c in events && c.entity == entity
    ensures entity in Fold(events) ==>
              var last := Fold(events)[entity];
              last in events && last.entity == entity
              && forall c | c in events && c.entity == entity && c != last :: Before(StatusRow(c), StatusRow(last))
  {
    if events != [] {
      var front, last := events[..|events| - 1], events[|events| - 1];
      FoldIsLast(front, entity);
      assert forall c :: c in events <==> c in front || c == last;
      if last.entity == entity {
        forall c | c in events && c.entity == entity && c != last ensures Before(StatusRow(c), StatusRow(last)) {
          var i :| 0 <= i < |events| && events[i] == c;
          assert events[|events| - 1] == last;
        }
      }
    }
  }

  lemma NoRowNoView(rows: set<Row>, entity: string)
    requires forall r | r in rows :: r.entity != entity
    ensures forall p | p in KeepStateChanges(rows) :: p.entity != entity
  {
  }

  /**
   An entity is in the current-status view exactly when its last change is not a delete, although
   the satellite holds only changes of status.
   */
  lemma CurrentStatusIsTheFold(events: seq<Change>, entity: string)
    requires InOrder(events) && Contract(StatusRows(events))
    ensures CurrentlyActive(KeepStateChanges(StatusRows(events)), entity) <==>
              entity in Fold(events) && !Fold(events)[entity].deleted
  {
    var rows := StatusRows(events);
    var kept := KeepStateChanges(rows);
    FoldIsLast(events, entity);
    if entity in Fold(events) {
      var last := Fold(events)[entity];
      LastStatusRow(events, last);
      ContractRanks(rows);
      LatestKeptCarriesLastState(false, rows, StatusRow(last));
      hide Contract, KeepStateChanges, IsLatest, Fold;
      forall p | p in kept && IsLatest(kept, p) && p.entity == entity ensures p.image == Status(last.deleted) {
        KeptStatus(events, p);
      }
    } else {
      forall r | r in rows ensures r.entity != entity {
        var c :| c in events && StatusRow(c) == r;
      }
      NoRowNoView(rows, entity);
    }
  }

  lemma LastStatusRow(events: seq<Change>, last: Change)
    requires last in events && forall c | c in events && c.entity == last.entity && c != last ::
               Before(StatusRow(c), StatusRow(last))
    ensures StatusRow(last) in StatusRows(events)
    ensures forall q | q in StatusRows(events) && q.entity == last.entity && q != StatusRow(last) ::
              Before(q, StatusRow(last))
  {
  }

  lemma KeptStatus(events: seq<Change>, p: Row)
    requires p in KeepStateChanges(StatusRows(events))
    ensures exists deleted :: p.image == Status(deleted) && p.state == StatusText(deleted)
  {
    var c :| c in events && StatusRow(c) == p;
    assert p.image == Status(c.deleted) && p.state == StatusText(c.deleted);
  }

  /** The current context of an entity is the context of its last change, unless that is a delete. */
  lemma CurrentContextIsTheFold(events: seq<Change>, entity: string, context: string)
    requires InOrder(events) && Contract(ContextRows(events))
    ensures CurrentContext(KeepStateChanges(ContextRows(events)), entity, context) <==>
              entity in Fold(events) && !Fold(events)[entity].deleted && Fold(events)[entity].context == context
  {
    var rows := ContextRows(events);
    var kept := KeepStateChanges(rows);
    FoldIsLast(events, entity);
    if entity in Fold(events) {
      var last := Fold(events)[entity];
      LastContextRow(events, last);
      ContractRanks(rows);
      LatestKeptCarriesLastState(false, rows, ContextRow(last));
      hide Contract, KeepStateChanges, IsLatest, Fold;
      forall p | p in kept && IsLatest(kept, p) && p.entity == entity
        ensures p.image == Effectivity(last.context, last.deleted)
      {
        KeptContext(events, p, last);
      }
    } else {
      forall r | r in rows ensures r.entity != entity {
        var c :| c in events && ContextRow(c) == r;
      }
      NoRowNoView(rows, entity);
    }
  }

  lemma LastContextRow(events: seq<Change>, last: Change)
    requires last in events && forall c | c in events && c.entity == last.entity && c != last ::
               Before(StatusRow(c), StatusRow(last))
    ensures ContextRow(last) in ContextRows(events)
    ensures forall q | q in ContextRows(events) && q.entity == last.entity && q != ContextRow(last) ::
              Before(q, ContextRow(last))
  {
    forall q | q in ContextRows(events) && q.entity == last.entity && q != ContextRow(last)
      ensures Before(q, ContextRow(last))
    {
      var c :| c in events && ContextRow(c) == q;
      assert Before(StatusRow(c), StatusRow(last));
    }
  }

  lemma KeptContext(events: seq<Change>, p: Row, last: Change)
    requires p in KeepStateChanges(ContextRows(events)) && p.state == ContextRow(last).state
    ensures p.image == Effectivity(last.context, last.deleted)
  {
    var c :| c in events && ContextRow(c) == p;
    EffectivityStateDecides(c, last);
  }

  // ---------------------------------------------------------------- over the loaded vault

  /**
   End to end: after a publication the current-status view over the incrementally loaded satellite
   shows an entity exactly when its last Bronze event up to the published highs is not a delete.
   */
  lemma PublishedStatusIsTheFold(s: Source, steps: seq<Step>, t: string, events: seq<Change>, entity: string)
    requires AllowedRun(s, steps) && t in s.staging && InOrder(events) && Contract(StatusRows(events))
    requires var db := Runs(s, steps).control.db;
             && db.created != [] && LatestId(db) in db.batches && db.batches[LatestId(db)].state == PUBLISHED
             && Past(s.staging[t], s.history.bronze, PreviousHighs(db)) == StatusRows(events)
    ensures t in Runs(s, steps).tables
    ensures CurrentlyActive(Project(Runs(s, steps).tables[t]), entity) <==>
              entity in Fold(events) && !Fold(events)[entity].deleted
  {
    hide Runs, AllowedRun, CurrentlyActive, Fold, KeepStateChanges, Past, InOrder, Contract;
    PublishedVaultIsRebuild(s, steps, t);
    CurrentStatusIsTheFold(events, entity);
  }

  lemma PublishedContextIsTheFold(s: Source, steps: seq<Step>, t: string, events: seq<Change>, entity: string,
                                  context: string)
    requires AllowedRun(s, steps) && t in s.staging && InOrder(events) && Contract(ContextRows(events))
    requires var db := Runs(s, steps).control.db;
             && db.created != [] && LatestId(db) in db.batches && db.batches[LatestId(db)].state == PUBLISHED
             && Past(s.staging[t], s.history.bronze, PreviousHighs(db)) == ContextRows(events)
    ensures t in Runs(s, steps).tables
    ensures CurrentContext(Project(Runs(s, steps).tables[t]), entity, context) <==>
              entity in Fold(events) && !Fold(events)[entity].deleted && Fold(events)[entity].context == context
  {
    hide Runs, AllowedRun, CurrentContext, Fold, KeepStateChanges, Past, InOrder, Contract;
    PublishedVaultIsRebuild(s, steps, t);
    CurrentContextIsTheFold(events, entity, context);
  }

  // ---------------------------------------------------------------- detail rows of the dimensions

  /** Event times never run against the positions of an entity. */
  ghost predicate TimesFollowPositions(rows: set<Row>) {
    forall a, b | a in rows && b in rows && a.entity == b.entity && Before(a, b) ::
      !GreaterNullsLast(a.effectiveFrom, b.effectiveFrom)
  }

  /**
   The dimensions and facts rank detail rows by event time first. For every assignment of states the
   detail row shown for each entity carries the state of its last event, if and only if event times
   follow positions.
   */
  lemma DetailsShowTheLastState(rows: set<Row>)
    requires Contract(rows)
    ensures (forall states :: ShowsLastState(true, Restate(rows, states))) <==> TimesFollowPositions(rows)
  {
    ContractRanks(rows);
    RankingShowsLastStateExactly(true, rows);
    forall a, b | a in rows && b in rows && a.entity == b.entity && Before(a, b)
      ensures Outranks(true, b, a) <==> !GreaterNullsLast(a.effectiveFrom, b.effectiveFrom)
    {
      PositionsAreTotal(rows, a, b);
      NeverBeforeItself(a);
    }
  }

  /** An event time that runs backwards leaves a stale detail row on display. */
  lemma BackdatedEventShowsStaleDetails()
    ensures var a := Row("e", "OLD", "1", Some(10), Some(9), "t", 0, 1, Details([]));
            var b := Row("e", "NEW", "2", Some(20), Some(5), "t", 0, 2, Details([]));
            && Contract({a, b}) && Before(a, b) && IsLatest(KeepStateChanges({a, b}), b)
            && IsTop(true, KeepStateChanges({a, b}), a)
  {
    var a := Row("e", "OLD", "1", Some(10), Some(9), "t", 0, 1, Details([]));
    var b := Row("e", "NEW", "2", Some(20), Some(5), "t", 0, 2, Details([]));
    TwoStates({a, b}, a, b);
    TwoRowsKeepContract(a, b);
    hide KeepStateChanges, Contract;
  }

  lemma TwoRowsKeepContract(a: Row, b: Row)
    requires a.eventId != b.eventId && SameStream(a, b) && a.offset < b.offset && Before(a, b)
    requires a.lsn.Some? && b.lsn.Some? && a.effectiveFrom.Some? && b.effectiveFrom.Some?
    ensures Contract({a, b})
  {
  }

  lemma TwoStates(rows: set<Row>, a: Row, b: Row)
    requires rows == {a, b} && a.state != b.state && a.entity == b.entity
    ensures KeepStateChanges(rows) == rows
  {
    hide Before;
    forall r, p | r in rows && IsLag(rows, p, r) ensures p.state != r.state {
      NoSelfLag(rows, r);
    }
  }

  lemma NoSelfLag(rows: set<Row>, r: Row)
    ensures !IsLag(rows, r, r)
  {
    NeverBeforeItself(r);
  }
}
