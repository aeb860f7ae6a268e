/**
 The job of an attempt inside the pipeline: one error-free run of its phases is the load of every satellite
 of the pipeline, so it leaves the rebuild over the published events and those of its batch.
 */
module JobPipeline {
  import opened Wrappers
  import opened RawVault
  import opened IncrementalLoad
  import opened Pipeline
  import B = BoundedRun
  import L = LoanContext
  import V = VaultTables

  /** The rows a table stages from the batch of a running attempt. */
  ghost predicate StagesTable(s: Source, p: Pipe, run: string, table: string, events: set<Row>) {
    && MayLoad(s, p, run, table)
    && events == RowsOf(s, p.control.db.batches[p.control.db.attempts[run].batchId], table)
  }

  /** The contents of the job are the rows of the batch, for every satellite of the pipeline. */
  ghost predicate StagesBatch(s: Source, p: Pipe, run: string, c: B.Contents, v: L.Vault) {
    && (forall i | 0 <= i < |c.satellites| :: StagesTable(s, p, run, c.satellites[i].table, c.satellites[i].events))
    && StagesTable(s, p, run, c.status.table, c.status.events)
    && StagesTable(s, p, run, c.applications.table, c.applications.events)
    && StagesTable(s, p, run, V.LOAN_EFFECTIVITY, V.EffectivityRows(c.loans, v))
    && forall name | name in s.staging ::
         name in {c.status.table, c.applications.table, V.LOAN_EFFECTIVITY}
         || exists i :: 0 <= i < |c.satellites| && c.satellites[i].table == name
  }

  ghost predicate SameTables(t: V.Tables, p: Pipe) {
    forall name | name in p.tables :: (if name in t.satellites then t.satellites[name] else {}) == p.tables[name]
  }

  lemma LoadInIsLoadOne(s: Source, p: Pipe, run: string, t: V.Tables, table: string, events: set<Row>)
    requires StagesTable(s, p, run, table, events) && SameTables(t, p)
    ensures B.LoadIn(t.satellites, p.control.db.attempts[run].batchId, table, events) == LoadOne(s, p, run, table)
  {
    hide LoadBounded;
  }

  /**
   A run of the job over the pipeline's tables, in any reachable state of the pipeline: if it ends without an
   error, every satellite is loaded and is change detection over the published events and those of its batch.
   */
  lemma JobLeavesTheRebuild(s: Source, steps: seq<Step>, run: string, t: V.Tables, c: B.Contents, v: L.Vault,
                            name: string)
    requires AllowedRun(s, steps) && B.DistinctTables(c) && name in s.staging
    requires var p := Runs(s, steps);
             && SameTables(t, p) && run in p.control.db.attempts && StagesBatch(s, p, run, c, v)
    requires B.ReadsBehind(t, c, v)
    requires V.Run(t, Runs(s, steps).control.db.attempts[run].batchId, c.loans, B.WholePlan(c)).1.None?
    ensures var p := Runs(s, steps);
            var id := p.control.db.attempts[run].batchId;
            var after := V.Run(t, id, c.loans, B.WholePlan(c)).0;
            && MayLoad(s, p, run, name) && name in s.staging
            && LoadOne(s, p, run, name) == Ok(V.Get(after.satellites, name))
            && Project(V.Get(after.satellites, name)) ==
                 KeepStateChanges(HistoryOf(s, p.control.db, name) + RowsOf(s, p.control.db.batches[id], name))
  {
    var p := Runs(s, steps);
    var id := p.control.db.attempts[run].batchId;
    JobRuns(t, id, c, v);
    hide Runs, AllowedRun, V.Run, B.WholePlan, B.ReadsBehind, LoadBounded, V.EffectivityRows, RowsOf, HistoryOf;
    var events := RowsOf(s, p.control.db.batches[id], name);
    assert StagesTable(s, p, run, name, events);
    LoadInIsLoadOne(s, p, run, t, name, events);
    LoadRaisesExactlyOnSupersededRows(s, steps, run, name);
  }

  lemma JobRuns(t: V.Tables, id: string, c: B.Contents, v: L.Vault)
    requires B.DistinctTables(c) && B.ReadsBehind(t, c, v)
    ensures var (after, error) := V.Run(t, id, c.loans, B.WholePlan(c));
            && (error.None? <==> c.events > 0 && B.NoneRaises(t.satellites, id, c, v))
            && (error.None? ==> B.SatellitesHold(t.satellites, after.satellites, id, c, v))
  {
    var w := B.WholeRunStoresItsRows(t, id, c);
    SameVault(t, c, v, w);
    hide V.Run, B.WholePlan, B.ReadsBehind, B.NoneRaises, B.SatellitesHold;
  }

  lemma SameVault(t: V.Tables, c: B.Contents, v: L.Vault, w: L.Vault)
    requires B.ReadsBehind(t, c, v) && B.ReadsBehind(t, c, w)
    ensures v == w
  {
    hide L.LoadLinks, B.BroughtTo;
    assert v.hub == w.hub;
  }

  /** And it ends without an error if and only if it has events and superseded batches left none of its rows. */
  lemma JobRaisesExactlyOnSupersededRows(s: Source, steps: seq<Step>, run: string, t: V.Tables, c: B.Contents,
                                         v: L.Vault)
    requires AllowedRun(s, steps) && B.DistinctTables(c)
    requires var p := Runs(s, steps);
             && SameTables(t, p) && run in p.control.db.attempts && StagesBatch(s, p, run, c, v)
    requires B.ReadsBehind(t, c, v)
    ensures var p := Runs(s, steps);
            var id := p.control.db.attempts[run].batchId;
            V.Run(t, id, c.loans, B.WholePlan(c)).1.None? <==>
              c.events > 0
              && forall name | name in s.staging ::
                   MayLoad(s, p, run, name)
                   && !LeftBySuperseded(p.tables[name], id, RowsOf(s, p.control.db.batches[id], name))
  {
    var p := Runs(s, steps);
    var id := p.control.db.attempts[run].batchId;
    JobRuns(t, id, c, v);
    hide Runs, AllowedRun, V.Run, B.WholePlan, B.ReadsBehind, LoadBounded, V.EffectivityRows, RowsOf, LeftBySuperseded;
    hide B.LoadIn;
    forall table, events | StagesTable(s, p, run, table, events)
      ensures B.LoadIn(t.satellites, id, table, events).Ok? <==>
                !LeftBySuperseded(p.tables[table], id, RowsOf(s, p.control.db.batches[id], table))
    {
      LoadInIsLoadOne(s, p, run, t, table, events);
      LoadRaisesExactlyOnSupersededRows(s, steps, run, table);
    }
    forall name | name in s.staging
      ensures exists events :: StagesTable(s, p, run, name, events)
      ensures MayLoad(s, p, run, name)
    {
      var events := RowsOf(s, p.control.db.batches[id], name);
      assert StagesTable(s, p, run, name, events);
    }
    assert StagesTable(s, p, run, c.status.table, c.status.events);
  }
}
