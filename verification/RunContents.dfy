/**
 What a run over satellites stores: in every satellite exactly what the load of its own rows over its own
 table leaves, as long as no table is loaded twice. The run raises if and only if one of these loads would.
 */
module RunContents {
  import opened Wrappers
  import opened RawVault
  import opened LoanContext
  import opened VaultTables

  // ---------------------------------------------------------------- tasks over distinct tables

  predicate Loads(task: Task) {
    task.Load? || task.LoanLoad?
  }

  predicate Checks(task: Task) {
    task.Check? || task.LoanCheck?
  }

  /** Satellite tasks that load no table twice and load whatever they have checked. */
  predicate LoadsOnce(plan: seq<Task>) {
    && (forall task | task in plan :: OfSatellite(task))
    && (forall i, j | 0 <= i < j < |plan| && Loads(plan[i]) && Loads(plan[j]) :: TableOf(plan[i]) != TableOf(plan[j]))
    && (forall i | 0 <= i < |plan| && Checks(plan[i]) :: LoadedLater(plan, i))
  }

  predicate LoadedLater(plan: seq<Task>, i: nat)
    requires i < |plan|
  {
    exists j :: i < j < |plan| && LoadOf(plan[i], plan[j])
  }

  predicate LoadOf(check: Task, load: Task) {
    if check.Check? then load == Load(check.table, check.events) else check.LoanCheck? && load.LoanLoad?
  }

  lemma LoadIsBounded(tables: map<string, set<Stored>>, batch: string, phase: Phase)
    ensures var (after, error) := LoadPhase(tables, batch, phase);
            var bounded := LoadBounded(Get(tables, phase.table), batch, phase.events);
            && (error.None? <==> bounded.Ok?) && (bounded.Ok? ==> Get(after, phase.table) == bounded.value)
            && forall name | name != phase.table :: Get(after, name) == Get(tables, name)
  {
    hide KeepStateChanges, CrossesBoundary, ChangedRows, UniqueEvents;
    var filtered := Filtered(tables, batch, phase);
    if filtered.Ok? && filtered.value == {} { NothingMerged(Get(tables, phase.table), batch); }
  }

  lemma NothingMerged(table: set<Stored>, batch: string)
    ensures MergeInsertOnly(table, batch, {}) == table
  {
  }

  lemma CheckIsBounded(tables: map<string, set<Stored>>, batch: string, phase: Phase)
    ensures LoadBounded(Get(tables, phase.table), batch, phase.events).Ok? ==> Filtered(tables, batch, phase).Ok?
  {
    hide KeepStateChanges, CrossesBoundary, ChangedRows, UniqueEvents, MergeInsertOnly;
  }

  /** The load of a task over the tables the run found. */
  function BoundedOf(t: Tables, batch: string, b: Batch, task: Task): Result<set<Stored>, LoadError> {
    LoadBounded(Get(t.satellites, TableOf(task)), batch, EventsOf(VaultOf(t), b, task))
  }

  /** A prefix that raised nothing: each table it loads holds the load of its own rows, all else is as before. */
  ghost predicate PrefixStored(t: Tables, batch: string, b: Batch, plan: seq<Task>, k: nat, after: Tables)
    requires k <= |plan|
  {
    && after.keyed == t.keyed && after.links == t.links
    && (forall i | 0 <= i < k && Loads(plan[i]) ::
          BoundedOf(t, batch, b, plan[i]) == Ok(Get(after.satellites, TableOf(plan[i]))))
    && (forall name | NotLoaded(plan, k, name) :: Get(after.satellites, name) == Get(t.satellites, name))
  }

  predicate NotLoaded(plan: seq<Task>, k: nat, name: string)
    requires k <= |plan|
  {
    forall i | 0 <= i < k && Loads(plan[i]) :: TableOf(plan[i]) != name
  }

  lemma TaskStores(t: Tables, batch: string, b: Batch, plan: seq<Task>, k: nat, before: Tables)
    requires LoadsOnce(plan) && k < |plan| && PrefixStored(t, batch, b, plan, k, before)
    requires Exec(before, batch, b, plan[k]).1.None?
    ensures PrefixStored(t, batch, b, plan, k + 1, Exec(before, batch, b, plan[k]).0)
  {
    hide LoadPhase, LoadBounded, Filtered, LoadLinks, EventsOf, LoadedLater;
    var task := plan[k];
    assert task in plan;
    var after := Exec(before, batch, b, task).0;
    assert VaultOf(before) == VaultOf(t);
    hide VaultOf;
    if Loads(task) {
      LoadIsBounded(before.satellites, batch, Phase(TableOf(task), EventsOf(VaultOf(before), b, task)));
      assert NotLoaded(plan, k, TableOf(task));
    } else {
      assert after.satellites == before.satellites;
    }
    forall name | NotLoaded(plan, k + 1, name) ensures Get(after.satellites, name) == Get(t.satellites, name) {
      assert NotLoaded(plan, k, name);
    }
  }

  lemma {:induction false} PrefixStores(t: Tables, batch: string, b: Batch, plan: seq<Task>, k: nat)
    requires LoadsOnce(plan) && k <= |plan| && Run(t, batch, b, plan[..k]).1.None?
    ensures PrefixStored(t, batch, b, plan, k, Run(t, batch, b, plan[..k]).0)
  {
    hide Run, Exec, LoadsOnce;
    if k == 0 {
      NothingRun(t, batch, b, plan);
    } else {
      RunOne(t, batch, b, plan, k - 1);
      PrefixStores(t, batch, b, plan, k - 1);
      TaskStores(t, batch, b, plan, k - 1, Run(t, batch, b, plan[..k - 1]).0);
    }
  }

  // ---------------------------------------------------------------- exactly when a run raises

  ghost predicate AllLoad(t: Tables, batch: string, b: Batch, plan: seq<Task>) {
    forall i | 0 <= i < |plan| && Loads(plan[i]) :: BoundedOf(t, batch, b, plan[i]).Ok?
  }

  lemma TaskGoesThrough(t: Tables, batch: string, b: Batch, plan: seq<Task>, k: nat, before: Tables)
    requires LoadsOnce(plan) && AllLoad(t, batch, b, plan) && k < |plan|
    requires PrefixStored(t, batch, b, plan, k, before)
    ensures Exec(before, batch, b, plan[k]).1.None?
  {
    hide LoadPhase, LoadBounded, Filtered, LoadLinks, EffectivityRows;
    var task := plan[k];
    assert task in plan;
    assert VaultOf(before) == VaultOf(t);
    hide VaultOf;
    var phase := Phase(TableOf(task), EventsOf(VaultOf(t), b, task));
    if Checks(task) {
      assert LoadedLater(plan, k);
      var j :| k < j < |plan| && LoadOf(task, plan[j]);
      assert BoundedOf(t, batch, b, plan[j]).Ok? && NotLoaded(plan, k, TableOf(plan[j]));
      CheckIsBounded(before.satellites, batch, phase);
    } else {
      assert NotLoaded(plan, k, TableOf(task)) && BoundedOf(t, batch, b, task).Ok?;
      LoadIsBounded(before.satellites, batch, phase);
    }
  }

  lemma {:induction false} NothingRaises(t: Tables, batch: string, b: Batch, plan: seq<Task>, k: nat)
    requires LoadsOnce(plan) && AllLoad(t, batch, b, plan) && k <= |plan|
    ensures Run(t, batch, b, plan[..k]).1.None?
  {
    hide Run, Exec, LoadsOnce, AllLoad;
    if k == 0 {
      NothingRun(t, batch, b, plan);
    } else {
      NothingRaises(t, batch, b, plan, k - 1);
      RunOne(t, batch, b, plan, k - 1);
      PrefixStores(t, batch, b, plan, k - 1);
      TaskGoesThrough(t, batch, b, plan, k - 1, Run(t, batch, b, plan[..k - 1]).0);
    }
  }

  /** The whole plan stores the load of every table's own rows, and raises exactly when one of these would. */
  lemma PlanStoresExactly(t: Tables, batch: string, b: Batch, plan: seq<Task>)
    requires LoadsOnce(plan)
    ensures Run(t, batch, b, plan).1.None? <==> AllLoad(t, batch, b, plan)
    ensures Run(t, batch, b, plan).1.None? ==>
              PrefixStored(t, batch, b, plan, |plan|, Run(t, batch, b, plan).0)
  {
    hide Run, BoundedOf, LoadsOnce;
    assert plan[..|plan|] == plan;
    if Run(t, batch, b, plan).1.None? {
      PrefixStores(t, batch, b, plan, |plan|);
    } else if AllLoad(t, batch, b, plan) {
      NothingRaises(t, batch, b, plan, |plan|);
    }
  }
}
