/**
 One bounded run over the Raw Vault tables: quarantine, hubs and links, then satellites, task after
 task. The loan link and the loan effectivity satellite resolve applications over the links stored at
 that moment. Every merge is one atomic commit; a crash or a raise leaves the tables merged so far.
 */
module VaultTables {
  import opened Wrappers
  import opened RawVault
  import opened Hubs
  import opened LoanContext

  /** Tables merged by hash key, link_loan_context, and the satellites. */
  datatype Tables = Tables(keyed: map<string, seq<Arrival<string>>>, links: seq<Link>, satellites: map<string,
      set<Stored>>)

  /** A satellite with the batch's rows for it, before change detection. */
  datatype Phase = Phase(table: string, events: set<Row>)

  const APPLICATION_HUB := "hub_loan_application"
  const LOAN_EFFECTIVITY := "sat_loan_context_effectivity"

  function Get(tables: map<string, set<Stored>>, name: string): set<Stored> {
    if name in tables then tables[name] else {}
  }

  function KeyedRows(t: Tables, name: string): seq<Arrival<string>> {
    if name in t.keyed then t.keyed[name] else []
  }

  /** What the loan-to-application lookup reads. */
  function VaultOf(t: Tables): Vault {
    Vault(t.links, KeysOf(KeyedRows(t, APPLICATION_HUB)))
  }

  // ---------------------------------------------------------------- loan effectivity rows

  function ContextText(k: LinkKey): string {
    k.loan + "||" + k.applicationNo + "||" + k.context
  }

  /** The row a loan event stages once its application number is known. */
  function EffectivityRow(e: LoanEvent, no: string): Row {
    var context := ContextText(LinkKey(e.loan, no, e.context));
    Row(e.loan, context + "||" + StatusText(e.deleted), e.eventId, e.at.lsn, e.at.effectiveFrom,
        e.at.topic, e.at.partition, e.at.offset, Effectivity(context, e.deleted))
  }

  /** Deletes included; an event whose application is unknown stages nothing. */
  function EffectivityRows(b: Batch, v: Vault): set<Row> {
    set e | e in b.loans && Resolve(e, b.apps, v).Some? :: EffectivityRow(e, Resolve(e, b.apps, v).value)
  }

  // ---------------------------------------------------------------- tasks

  /**
   The count of the batch's events, a merge by hash key, or one satellite's boundary check or load; the
   loan tasks read the links.
   */
  datatype Task =
    | Count(number: nat)
    | Keyed(table: string, rows: seq<Arrival<string>>)
    | LoanLinks
    | Check(table: string, events: set<Row>)
    | Load(table: string, events: set<Row>)
    | LoanCheck
    | LoanLoad

  predicate ReadsLinks(task: Task) {
    task.LoanCheck? || task.LoanLoad?
  }

  function TableOf(task: Task): string {
    if task.Keyed? || task.Check? || task.Load? then task.table else LOAN_EFFECTIVITY
  }

  function EventsOf(v: Vault, b: Batch, task: Task): set<Row> {
    if task.Check? || task.Load? then task.events else EffectivityRows(b, v)
  }

  function Filtered(tables: map<string, set<Stored>>, batch: string, phase: Phase): Result<set<Row>, LoadError> {
    FilterAgainstPersistedState(Get(tables, phase.table), batch, KeepStateChanges(phase.events))
  }

  /** One satellite. A table comes into being with its first candidate row. */
  function LoadPhase(tables: map<string, set<Stored>>, batch: string, phase: Phase)
    : (map<string, set<Stored>>, Option<LoadError>)
  {
    var filtered := Filtered(tables, batch, phase);
    if filtered.Err? then (tables, Some(filtered.error))
    else if !UniqueEvents(filtered.value) then (tables, Some(DuplicateKey))
    else if filtered.value == {} then (tables, None)
    else (tables[phase.table := MergeInsertOnly(Get(tables, phase.table), batch, filtered.value)], None)
  }

  function Exec(t: Tables, batch: string, b: Batch, task: Task): (Tables, Option<LoadError>) {
    match task
    case Count(number) => (t, if number == 0 then Some(NoEvents) else None)
    case Keyed(table, rows) =>
      (if rows == [] then t else t.(keyed := t.keyed[table := LoadByKey(KeyedRows(t, table), rows)]), None)
    case LoanLinks => (t.(links := LoadLinks(VaultOf(t), b).links), None)
    case _ =>
      var phase := Phase(TableOf(task), EventsOf(VaultOf(t), b, task));
      if task.Check? || task.LoanCheck? then
        var filtered := Filtered(t.satellites, batch, phase);
        (t, if filtered.Err? then Some(filtered.error) else None)
      else
        var (satellites, error) := LoadPhase(t.satellites, batch, phase);
        (t.(satellites := satellites), error)
  }

  /** The tasks in order, up to the first that raises. */
  function Run(t: Tables, batch: string, b: Batch, plan: seq<Task>): (Tables, Option<LoadError>) {
    if plan == [] then (t, None) else
    var (done, error) := Run(t, batch, b, plan[..|plan| - 1]);
    if error.Some? then (done, error) else Exec(done, batch, b, plan[|plan| - 1])
  }

  predicate OfSatellite(task: Task) {
    task.Check? || task.Load? || task.LoanCheck? || task.LoanLoad?
  }

  /** Counts and merges by hash key, the loan links at l, and satellites behind them. */
  predicate IsPlan(plan: seq<Task>, l: nat) {
    && l < |plan| && plan[l].LoanLinks?
    && (forall i | 0 <= i < l :: plan[i].Keyed? || plan[i].Count?)
    && (forall i | l < i < |plan| :: OfSatellite(plan[i]))
  }

  /** The run refuses a batch without events before it merges the links. */
  predicate Refuses(plan: seq<Task>, l: nat)
    requires l <= |plan|
  {
    exists i | 0 <= i < l :: plan[i] == Count(0)
  }

  lemma RunOne(t: Tables, batch: string, b: Batch, plan: seq<Task>, i: nat)
    requires i < |plan|
    ensures var (done, error) := Run(t, batch, b, plan[..i]);
            Run(t, batch, b, plan[..i + 1]) == if error.Some? then (done, error) else Exec(done, batch, b, plan[i])
  {
    assert plan[..i + 1][..i] == plan[..i];
  }

  // ---------------------------------------------------------------- what every task keeps

  /** Tables only grow, and the rows of other batches stay as they are. */
  ghost predicate Grown(t: Tables, u: Tables, batch: string) {
    && (forall name :: Others(Get(u.satellites, name), batch) == Others(Get(t.satellites, name), batch))
    && (forall name :: Get(t.satellites, name) <= Get(u.satellites, name))
    && (forall name | name in t.satellites :: name in u.satellites)
    && (forall name :: KeysOf(KeyedRows(t, name)) <= KeysOf(KeyedRows(u, name)))
    && (forall name | name in t.keyed :: name in u.keyed)
  }

  lemma OthersOfMerge(table: set<Stored>, batch: string, rows: set<Row>)
    ensures Others(MergeInsertOnly(table, batch, rows), batch) == Others(table, batch)
    ensures table <= MergeInsertOnly(table, batch, rows)
  {
  }

  lemma PhaseGrows(tables: map<string, set<Stored>>, batch: string, phase: Phase, name: string)
    ensures var after := LoadPhase(tables, batch, phase).0;
            && Others(Get(after, name), batch) == Others(Get(tables, name), batch)
            && Get(tables, name) <= Get(after, name) && (name in tables ==> name in after)
  {
    hide Others, MergeInsertOnly, Filtered, UniqueEvents;
    var filtered := Filtered(tables, batch, phase);
    if filtered.Ok? { OthersOfMerge(Get(tables, phase.table), batch, filtered.value); }
  }

  lemma TaskGrows(t: Tables, batch: string, b: Batch, task: Task)
    ensures var u := Exec(t, batch, b, task).0;
            && Grown(t, u, batch)
            && (!task.LoanLinks? ==> u.links == t.links)
            && (!task.Keyed? ==> u.keyed == t.keyed)
  {
    hide LoadPhase, Filtered, LoadByKey, KeysOf, LoadLinks, EventsOf, Others;
    match task
    case Count(_) =>
    case Keyed(table, rows) => LoadAddsNothingExactly(KeyedRows(t, table), rows);
    case LoanLinks =>
    case _ =>
      forall name {
        PhaseGrows(t.satellites, batch, Phase(TableOf(task), EventsOf(VaultOf(t), b, task)), name);
      }
  }

  lemma GrownIsTransitive(t: Tables, u: Tables, w: Tables, batch: string)
    requires Grown(t, u, batch) && Grown(u, w, batch)
    ensures Grown(t, w, batch)
  {
    hide Others, KeysOf;
  }

  lemma {:induction false} RunGrows(t: Tables, batch: string, b: Batch, plan: seq<Task>, i: nat, j: nat)
    requires i <= j <= |plan|
    ensures Grown(Run(t, batch, b, plan[..i]).0, Run(t, batch, b, plan[..j]).0, batch)
    decreases j - i
  {
    hide Grown, Exec, Run;
    if i < j {
      RunGrows(t, batch, b, plan, i, j - 1);
      RunOne(t, batch, b, plan, j - 1);
      var before := Run(t, batch, b, plan[..j - 1]).0;
      TaskGrows(before, batch, b, plan[j - 1]);
      GrownToItself(before, batch);
      GrownIsTransitive(Run(t, batch, b, plan[..i]).0, before, Run(t, batch, b, plan[..j]).0, batch);
    } else {
      GrownToItself(Run(t, batch, b, plan[..i]).0, batch);
    }
  }

  lemma GrownToItself(t: Tables, batch: string)
    ensures Grown(t, t, batch)
  {
  }

  /** Behind the link merge nothing changes what the lookup reads. */
  lemma {:induction false} VaultStays(t: Tables, batch: string, b: Batch, plan: seq<Task>, l: nat, i: nat)
    requires IsPlan(plan, l) && l < i <= |plan|
    ensures VaultOf(Run(t, batch, b, plan[..i]).0) == VaultOf(Run(t, batch, b, plan[..l + 1]).0)
    decreases i
  {
    hide Exec, Run;
    if i > l + 1 {
      VaultStays(t, batch, b, plan, l, i - 1);
      RunOne(t, batch, b, plan, i - 1);
      TaskGrows(Run(t, batch, b, plan[..i - 1]).0, batch, b, plan[i - 1]);
    }
  }

  /** Up to the link merge a run raises only where it refuses a batch without events. */
  lemma {:induction false} CoreRaisesExactly(t: Tables, batch: string, b: Batch, plan: seq<Task>, l: nat, i: nat)
    requires IsPlan(plan, l) && i <= l + 1
    ensures Run(t, batch, b, plan[..i]).1.None? <==> !Refuses(plan, i)
  {
    hide Run, LoadByKey, LoadLinks;
    if i > 0 {
      CoreRaisesExactly(t, batch, b, plan, l, i - 1);
      RunOne(t, batch, b, plan, i - 1);
    } else {
      NothingRun(t, batch, b, plan);
    }
  }

  lemma NothingRun(t: Tables, batch: string, b: Batch, plan: seq<Task>)
    ensures Run(t, batch, b, plan[..0]) == (t, None)
  {
  }

  // ---------------------------------------------------------------- repeating a task

  /** A merged batch is invisible to its own comparison, and its events are already there. */
  lemma MergeOfStored(table: set<Stored>, later: set<Stored>, batch: string, rows: set<Row>)
    requires MergeInsertOnly(table, batch, rows) <= later
    ensures MergeInsertOnly(later, batch, rows) == later
  {
    var once := MergeInsertOnly(table, batch, rows);
    forall r | r in rows ensures exists v | v in later :: v.row.eventId == r.eventId {
      if v :| v in table && v.row.eventId == r.eventId {
        assert v in once;
      } else {
        assert Stored(r, batch) in once;
      }
    }
  }

  lemma RepeatedPhase(tables: map<string, set<Stored>>, later: map<string, set<Stored>>, batch: string, phase: Phase)
    requires LoadPhase(tables, batch, phase).1.None?
    requires Others(Get(later, phase.table), batch) == Others(Get(tables, phase.table), batch)
    requires var after := LoadPhase(tables, batch, phase).0;
             Get(after, phase.table) <= Get(later, phase.table) && (phase.table in after ==> phase.table in later)
    ensures LoadPhase(later, batch, phase) == (later, None)
  {
    hide KeepStateChanges, CrossesBoundary, ChangedRows, UniqueEvents, MergeInsertOnly, Others;
    var rows := Filtered(tables, batch, phase).value;
    assert Filtered(later, batch, phase) == Ok(rows);
    if rows != {} {
      MergeOfStored(Get(tables, phase.table), Get(later, phase.table), batch, rows);
      assert later[phase.table := later[phase.table]] == later;
    }
  }

  /** A task that went through changes nothing when it runs again over tables that have only grown. */
  lemma RepeatedTask(t: Tables, u: Tables, batch: string, b: Batch, task: Task)
    requires var (after, error) := Exec(t, batch, b, task);
             && error.None? && Grown(after, u, batch)
             && (task.LoanLinks? ==> VaultOf(u) == VaultOf(after) && LinksSettled(VaultOf(t), b))
             && (ReadsLinks(task) ==> VaultOf(u) == VaultOf(t))
    ensures Exec(u, batch, b, task) == (u, None)
  {
    var after := Exec(t, batch, b, task).0;
    TaskGrows(t, batch, b, task);
    match task
    case Count(_) =>
    case Keyed(table, rows) =>
      hide LoadByKey, KeysOf;
      LoadAddsNothingExactly(KeyedRows(t, table), rows);
      LoadAddsNothingExactly(KeyedRows(u, table), rows);
      if rows != [] { assert u.keyed[table := u.keyed[table]] == u.keyed; }
    case LoanLinks =>
      LinksAreStableExactly(VaultOf(t), b);
      hide LoadByKey, KeysOf, LinksSettled, ResolvedLinks;
      assert VaultOf(after) == LoadLinks(VaultOf(t), b);
    case _ =>
      hide LoadPhase, Filtered, EventsOf, Others, VaultOf;
      var phase := Phase(TableOf(task), EventsOf(VaultOf(t), b, task));
      assert EventsOf(VaultOf(u), b, task) == phase.events by { SameEvents(VaultOf(t), VaultOf(u), b, task); }
      if task.Load? || task.LoanLoad? {
        RepeatedPhase(t.satellites, u.satellites, batch, phase);
      } else {
        RepeatedCheck(t.satellites, u.satellites, batch, phase);
      }
  }

  lemma SameEvents(v: Vault, w: Vault, b: Batch, task: Task)
    requires OfSatellite(task) && (ReadsLinks(task) ==> v == w)
    ensures EventsOf(v, b, task) == EventsOf(w, b, task)
  {
  }

  lemma RepeatedCheck(tables: map<string, set<Stored>>, later: map<string, set<Stored>>, batch: string, phase: Phase)
    requires Others(Get(later, phase.table), batch) == Others(Get(tables, phase.table), batch)
    ensures Filtered(later, batch, phase) == Filtered(tables, batch, phase)
  {
  }

  // ---------------------------------------------------------------- retries

  /** What the link merge of the run will read. */
  function Ready(t: Tables, batch: string, b: Batch, plan: seq<Task>, l: nat): Vault
    requires l <= |plan|
  {
    VaultOf(Run(t, batch, b, plan[..l]).0)
  }

  /** The run stops before the link merge, or finds its links settled. */
  ghost predicate Settles(t: Tables, batch: string, b: Batch, plan: seq<Task>, l: nat)
    requires l <= |plan|
  {
    Refuses(plan, l) || LinksSettled(Ready(t, batch, b, plan, l), b)
  }

  /** Any task behind which the run went on inserts nothing when it is executed again. */
  lemma RepeatedInPrefix(t: Tables, batch: string, b: Batch, plan: seq<Task>, l: nat, f: nat, i: nat)
    requires IsPlan(plan, l) && i < f <= |plan| && Run(t, batch, b, plan[..f]).1.None?
    requires Settles(t, batch, b, plan, l)
    ensures Exec(Run(t, batch, b, plan[..f]).0, batch, b, plan[i]) == (Run(t, batch, b, plan[..f]).0, None)
  {
    hide Exec, Run, LinksSettled, Grown;
    if i == l {
      NoErrorBefore(t, batch, b, plan, l, f);
      CoreRaisesExactly(t, batch, b, plan, l, l);
    }
    NoErrorBefore(t, batch, b, plan, i, f);
    NoErrorBefore(t, batch, b, plan, i + 1, f);
    RunOne(t, batch, b, plan, i);
    RunGrows(t, batch, b, plan, i + 1, f);
    if i >= l {
      VaultStays(t, batch, b, plan, l, f);
      if i > l { VaultStays(t, batch, b, plan, l, i); }
    }
    RepeatedTask(Run(t, batch, b, plan[..i]).0, Run(t, batch, b, plan[..f]).0, batch, b, plan[i]);
  }

  lemma {:induction false} NoErrorBefore(t: Tables, batch: string, b: Batch, plan: seq<Task>, i: nat, f: nat)
    requires i <= f <= |plan| && Run(t, batch, b, plan[..f]).1.None?
    ensures Run(t, batch, b, plan[..i]).1.None?
    decreases f
  {
    hide Exec, Run;
    if i < f {
      RunOne(t, batch, b, plan, f - 1);
      NoErrorBefore(t, batch, b, plan, i, f - 1);
    }
  }

  /** A second run first repeats what went through and then goes on as the first would have. */
  lemma {:induction false} Rerun(t: Tables, batch: string, b: Batch, plan: seq<Task>, l: nat, f: nat, k: nat)
    requires IsPlan(plan, l) && f <= |plan| && k <= |plan| && Run(t, batch, b, plan[..f]).1.None?
    requires Settles(t, batch, b, plan, l)
    ensures var done := Run(t, batch, b, plan[..f]).0;
            Run(done, batch, b, plan[..k]) == if k <= f then (done, None) else Run(t, batch, b, plan[..k])
    decreases k
  {
    hide Exec, Run, Settles;
    var done := Run(t, batch, b, plan[..f]).0;
    if k == 0 {
      NothingRun(done, batch, b, plan);
    } else {
      Rerun(t, batch, b, plan, l, f, k - 1);
      RunOne(done, batch, b, plan, k - 1);
      RunOne(t, batch, b, plan, k - 1);
      if k <= f { RepeatedInPrefix(t, batch, b, plan, l, f, k - 1); }
    }
  }

  /** The tasks that went through before the first raise. */
  lemma {:induction false} WentThrough(t: Tables, batch: string, b: Batch, plan: seq<Task>, k: nat) returns (f: nat)
    requires k <= |plan|
    ensures f <= k && Run(t, batch, b, plan[..f]) == (Run(t, batch, b, plan[..k]).0, None)
  {
    hide Run;
    if k == 0 {
      NothingRun(t, batch, b, plan);
      f := 0;
    } else {
      RunOne(t, batch, b, plan, k - 1);
      f := WentThrough(t, batch, b, plan, k - 1);
      var (before, error) := Run(t, batch, b, plan[..k - 1]);
      if error.None? {
        f := if Run(t, batch, b, plan[..k]).1.None? then k else k - 1;
        RaiseChangesNothing(before, batch, b, plan[k - 1]);
      }
    }
  }

  lemma RaiseChangesNothing(t: Tables, batch: string, b: Batch, task: Task)
    ensures Exec(t, batch, b, task).1.Some? ==> Exec(t, batch, b, task).0 == t
  {
  }

  /** Any number of runs, each cut after its own number of tasks, or stopped by a raise. */
  function CrashedRuns(t: Tables, batch: string, b: Batch, plan: seq<Task>, cuts: seq<nat>): Tables
    requires forall i | 0 <= i < |cuts| :: cuts[i] <= |plan|
  {
    if cuts == [] then t else
    Run(CrashedRuns(t, batch, b, plan, cuts[..|cuts| - 1]), batch, b, plan[..cuts[|cuts| - 1]]).0
  }

  lemma {:induction false} CrashedIsPrefix(t: Tables, batch: string, b: Batch, plan: seq<Task>, l: nat, cuts: seq<nat>)
    returns (f: nat)
    requires IsPlan(plan, l) && Settles(t, batch, b, plan, l)
    requires forall i | 0 <= i < |cuts| :: cuts[i] <= |plan|
    ensures f <= |plan| && Run(t, batch, b, plan[..f]) == (CrashedRuns(t, batch, b, plan, cuts), None)
  {
    hide Run, Settles;
    if cuts == [] {
      NothingRun(t, batch, b, plan);
      f := 0;
    } else {
      var n, k := |cuts| - 1, cuts[|cuts| - 1];
      var g := CrashedIsPrefix(t, batch, b, plan, l, cuts[..n]);
      Rerun(t, batch, b, plan, l, g, k);
      if k <= g { f := g; } else { f := WentThrough(t, batch, b, plan, k); }
    }
  }

  /**
   However many runs crashed, each after its own number of merges, or raised, one full run leaves the
   tables and the outcome of one uninterrupted run, as long as the batch is refused or its links settled.
   */
  lemma AnyCrashesConverge(t: Tables, batch: string, b: Batch, plan: seq<Task>, l: nat, cuts: seq<nat>)
    requires IsPlan(plan, l) && Settles(t, batch, b, plan, l)
    requires forall i | 0 <= i < |cuts| :: cuts[i] <= |plan|
    ensures Run(CrashedRuns(t, batch, b, plan, cuts), batch, b, plan) == Run(t, batch, b, plan)
  {
    hide Run, Settles;
    var f := CrashedIsPrefix(t, batch, b, plan, l, cuts);
    Rerun(t, batch, b, plan, l, f, |plan|);
    assert plan[..|plan|] == plan;
  }

  /**
   Cutting a run after any merge and repeating it equals one uninterrupted run, wherever it is cut, if
   and only if it refuses its batch before the link merge or the loan links are settled.
   */
  lemma CrashAndRetryConverge(t: Tables, batch: string, b: Batch, plan: seq<Task>, l: nat)
    requires IsPlan(plan, l)
    ensures (forall k: nat | k <= |plan| :: Run(Run(t, batch, b, plan[..k]).0, batch, b, plan) ==
              Run(t, batch, b, plan))
       <==> Settles(t, batch, b, plan, l)
  {
    hide Run, Settles;
    if Settles(t, batch, b, plan, l) {
      forall k: nat | k <= |plan|
        ensures Run(Run(t, batch, b, plan[..k]).0, batch, b, plan) == Run(t, batch, b, plan)
      {
        var f := WentThrough(t, batch, b, plan, k);
        Rerun(t, batch, b, plan, l, f, |plan|);
        assert plan[..|plan|] == plan;
      }
    } else {
      UnsettledDiverges(t, batch, b, plan, l);
    }
  }

  /** Unsettled links: a run cut right behind the link merge and repeated stores another link. */
  lemma UnsettledDiverges(t: Tables, batch: string, b: Batch, plan: seq<Task>, l: nat)
    requires IsPlan(plan, l) && !Settles(t, batch, b, plan, l)
    ensures Run(Run(t, batch, b, plan[..l + 1]).0, batch, b, plan) != Run(t, batch, b, plan)
  {
    var ready := Ready(t, batch, b, plan, l);
    var cut := Run(t, batch, b, plan[..l + 1]).0;
    LinksAfterRun(t, batch, b, plan, l);
    LinksAfterRun(cut, batch, b, plan, l);
    KeyedAgain(t, batch, b, plan, l, l);
    hide Run, LinksSettled, KeysOf, LoadByKey, ResolvedLinks;
    LinksAreStableExactly(ready, b);
  }

  /** The links a full run leaves are those of its link merge. */
  lemma LinksAfterRun(t: Tables, batch: string, b: Batch, plan: seq<Task>, l: nat)
    requires IsPlan(plan, l) && !Refuses(plan, l)
    ensures Run(t, batch, b, plan).0.links == LoadLinks(Ready(t, batch, b, plan, l), b).links
    ensures VaultOf(Run(t, batch, b, plan[..l + 1]).0) == LoadLinks(Ready(t, batch, b, plan, l), b)
  {
    CoreRaisesExactly(t, batch, b, plan, l, l);
    RunOne(t, batch, b, plan, l);
    TaskGrows(Run(t, batch, b, plan[..l]).0, batch, b, plan[l]);
    VaultStays(t, batch, b, plan, l, |plan|);
    assert plan[..|plan|] == plan;
    hide Run, KeysOf, ResolvedLinks, LoadByKey;
  }

  /** Over tables a run cut behind the link merge left, the merges by hash key insert nothing. */
  lemma {:induction false} KeyedAgain(t: Tables, batch: string, b: Batch, plan: seq<Task>, l: nat, k: nat)
    requires IsPlan(plan, l) && !Refuses(plan, l) && k <= l
    ensures var cut := Run(t, batch, b, plan[..l + 1]).0; Run(cut, batch, b, plan[..k]) == (cut, None)
  {
    hide Exec, Run, Grown;
    var cut := Run(t, batch, b, plan[..l + 1]).0;
    if k == 0 {
      NothingRun(cut, batch, b, plan);
    } else {
      KeyedAgain(t, batch, b, plan, l, k - 1);
      RunOne(cut, batch, b, plan, k - 1);
      CoreRaisesExactly(t, batch, b, plan, l, k - 1);
      CoreRaisesExactly(t, batch, b, plan, l, k);
      RunOne(t, batch, b, plan, k - 1);
      RunGrows(t, batch, b, plan, k, l + 1);
      RepeatedTask(Run(t, batch, b, plan[..k - 1]).0, cut, batch, b, plan[k - 1]);
    }
  }

  // ---------------------------------------------------------------- retried tasks

  /** Tasks executed one by one, each after all before it went through; a raise goes no further. */
  function Execute(t: Tables, batch: string, b: Batch, plan: seq<Task>, schedule: seq<nat>): (Tables, nat) {
    if schedule == [] then (t, 0) else
    var (now, frontier) := Execute(t, batch, b, plan, schedule[..|schedule| - 1]);
    var i := schedule[|schedule| - 1];
    if i > frontier || i >= |plan| then (now, frontier) else
    var (after, error) := Exec(now, batch, b, plan[i]);
    (after, if error.None? && i == frontier then i + 1 else frontier)
  }

  /**
   Whichever phases are executed again, in whatever order behind their first success, the tables are
   those of one run as far as it got.
   */
  lemma {:induction false} RetriedTasksInsertNothing(t: Tables, batch: string, b: Batch, plan: seq<Task>, l: nat,
                                                     schedule: seq<nat>)
    requires IsPlan(plan, l) && Settles(t, batch, b, plan, l)
    ensures var (now, frontier) := Execute(t, batch, b, plan, schedule);
            frontier <= |plan| && Run(t, batch, b, plan[..frontier]) == (now, None)
  {
    hide Run, Settles, Exec;
    if schedule == [] {
      NothingRun(t, batch, b, plan);
    } else {
      RetriedTasksInsertNothing(t, batch, b, plan, l, schedule[..|schedule| - 1]);
      var (now, frontier) := Execute(t, batch, b, plan, schedule[..|schedule| - 1]);
      var i := schedule[|schedule| - 1];
      if i < frontier {
        RepeatedInPrefix(t, batch, b, plan, l, frontier, i);
      } else if i == frontier && i < |plan| {
        RunOne(t, batch, b, plan, i);
        RaiseChangesNothing(now, batch, b, plan[i]);
      }
    }
  }

  /** A batch in which every loan names one application settles its links, so every retry of it converges. */
  lemma OneApplicationConverges(t: Tables, batch: string, b: Batch, plan: seq<Task>, l: nat, cuts: seq<nat>)
    requires IsPlan(plan, l) && forall i | 0 <= i < |cuts| :: cuts[i] <= |plan|
    requires OneApplicationPerLoan(b)
    ensures Run(CrashedRuns(t, batch, b, plan, cuts), batch, b, plan) == Run(t, batch, b, plan)
  {
    hide Run, LinksSettled, OneApplicationPerLoan;
    RereadingOwnLinksIsStable(Ready(t, batch, b, plan, l), b);
    AnyCrashesConverge(t, batch, b, plan, l, cuts);
  }
}
