/**
 The job of a bounded run: validate, core and satellite phases as loops over their tables, each proved
 to be the tasks of the plan.
 */
module BoundedRun {
  import opened Wrappers
  import opened RawVault
  import opened Compression
  import opened Hubs
  import opened LoanContext
  import opened VaultTables
  import opened RunContents

  datatype Hub = Hub(table: string, rows: seq<Arrival<string>>)

  /** What the batch's events stage, per table; the loan rows depend on the links and are staged in the run. */
  datatype Contents = Contents(events: nat, quarantine: seq<Arrival<string>>, hubs: seq<Hub>,
                               applicationLinks: seq<Arrival<string>>, loans: Batch, satellites: seq<Phase>,
                               status: Phase, applications: Phase)

  /** The phase an invocation asks for. */
  datatype Phases = Validate | Core | Satellites | All

  const QUARANTINE := "cdc_raw_vault_events"
  const APPLICATION_LINK := "link_application_context"

  function HubTasks(hubs: seq<Hub>): seq<Task> {
    seq(|hubs|, i requires 0 <= i < |hubs| => Keyed(hubs[i].table, hubs[i].rows))
  }

  function LoadTasks(phases: seq<Phase>): seq<Task> {
    seq(|phases|, i requires 0 <= i < |phases| => Load(phases[i].table, phases[i].events))
  }

  function ValidatePlan(c: Contents): seq<Task> {
    [Count(c.events), Keyed(QUARANTINE, c.quarantine)]
  }

  function CorePlan(c: Contents): seq<Task> {
    HubTasks(c.hubs) + [Keyed(APPLICATION_LINK, c.applicationLinks)] + [LoanLinks]
  }

  /** The last three satellites are all compared with their persisted state before the first of them is merged. */
  function CurrentPlan(c: Contents): seq<Task> {
    [Check(c.status.table, c.status.events), Check(c.applications.table, c.applications.events), LoanCheck,
     Load(c.status.table, c.status.events), Load(c.applications.table, c.applications.events), LoanLoad]
  }

  function WholePlan(c: Contents): seq<Task> {
    ValidatePlan(c) + CorePlan(c) + LoadTasks(c.satellites) + CurrentPlan(c)
  }

  /** Every bounded run is a plan of the retry theorems, with its link merge behind the hubs. */
  lemma WholePlanIsPlan(c: Contents)
    ensures IsPlan(WholePlan(c), |c.hubs| + 3)
    ensures Refuses(WholePlan(c), |c.hubs| + 3) <==> c.events == 0
  {
    var plan, l := WholePlan(c), |c.hubs| + 3;
    forall i | 0 <= i < l ensures plan[i].Keyed? || plan[i] == Count(c.events) {
      if 2 <= i < l - 1 { assert plan[i] == HubTasks(c.hubs)[i - 2]; }
    }
    assert plan[0] == Count(c.events);
    forall i | l < i < |plan| ensures OfSatellite(plan[i]) {
      if i < l + 1 + |c.satellites| {
        assert plan[i] == LoadTasks(c.satellites)[i - l - 1];
      } else {
        assert plan[i] == CurrentPlan(c)[i - l - 1 - |c.satellites|];
      }
    }
  }

  /**
   A whole bounded run, validation to loan effectivity, cut after any merge and repeated: it ends as one
   uninterrupted run, wherever it is cut, if and only if its batch is empty or the loan links are settled.
   */
  lemma WholeRunConverges(t: Tables, batch: string, c: Contents)
    ensures var plan := WholePlan(c);
            (forall k: nat | k <= |plan| ::
               Run(Run(t, batch, c.loans, plan[..k]).0, batch, c.loans, plan) == Run(t, batch, c.loans, plan))
            <==> c.events == 0 || LinksSettled(Vault(t.links, ReadyHub(t, c)), c.loans)
  {
    WholePlanIsPlan(c);
    var plan := WholePlan(c);
    CrashAndRetryConverge(t, batch, c.loans, plan, |c.hubs| + 3);
    if c.events > 0 { ReadyOfWholePlan(t, batch, c); }
    hide LinksSettled, Run, Ready, ReadyHub;
  }

  /** The application numbers the link merge finds: those stored before and those the run stages. */
  function ReadyHub(t: Tables, c: Contents): set<string> {
    KeysOf(KeyedRows(t, APPLICATION_HUB)) + StagedHub(c.hubs)
  }

  function StagedHub(hubs: seq<Hub>): set<string> {
    if hubs == [] then {} else
    StagedHub(hubs[..|hubs| - 1])
    + if hubs[|hubs| - 1].table == APPLICATION_HUB then KeysOf(hubs[|hubs| - 1].rows) else {}
  }

  lemma ReadyOfWholePlan(t: Tables, batch: string, c: Contents)
    requires c.events > 0
    ensures Ready(t, batch, c.loans, WholePlan(c), |c.hubs| + 3) == Vault(t.links, ReadyHub(t, c))
  {
    var plan, n := WholePlan(c), |c.hubs|;
    hide KeysOf, LoadByKey;
    HubsLoaded(t, batch, c, n);
    assert c.hubs[..n] == c.hubs;
    RunOne(t, batch, c.loans, plan, n + 2);
    CoreNever(t, batch, c, n + 2);
    hide Run;
  }

  lemma CoreNever(t: Tables, batch: string, c: Contents, i: nat)
    requires c.events > 0 && i <= |c.hubs| + 3
    ensures i <= |WholePlan(c)| && Run(t, batch, c.loans, WholePlan(c)[..i]).1.None?
  {
    WholePlanIsPlan(c);
    CoreRaisesExactly(t, batch, c.loans, WholePlan(c), |c.hubs| + 3, i);
  }

  lemma {:induction false} HubsLoaded(t: Tables, batch: string, c: Contents, n: nat)
    requires c.events > 0 && n <= |c.hubs|
    ensures VaultOf(Run(t, batch, c.loans, WholePlan(c)[..n + 2]).0)
         == Vault(t.links, KeysOf(KeyedRows(t, APPLICATION_HUB)) + StagedHub(c.hubs[..n]))
  {
    hide KeysOf, LoadByKey, Run;
    var plan := WholePlan(c);
    RunOne(t, batch, c.loans, plan, n + 1);
    CoreNever(t, batch, c, n + 1);
    CoreNever(t, batch, c, n + 2);
    var before := Run(t, batch, c.loans, plan[..n + 1]).0;
    if n == 0 {
      NothingRun(t, batch, c.loans, plan);
      RunOne(t, batch, c.loans, plan, 0);
    } else {
      HubsLoaded(t, batch, c, n - 1);
      assert plan[n + 1] == HubTasks(c.hubs)[n - 1] == Keyed(c.hubs[n - 1].table, c.hubs[n - 1].rows);
      assert c.hubs[..n][..n - 1] == c.hubs[..n - 1];
      KeysAfterLoad(KeyedRows(before, APPLICATION_HUB), c.hubs[n - 1].rows);
    }
  }

  lemma {:induction false} RunConcat(t: Tables, batch: string, b: Batch, p: seq<Task>, q: seq<Task>)
    ensures Run(t, batch, b, p + q) ==
              if Run(t, batch, b, p).1.Some? then Run(t, batch, b, p) else Run(Run(t, batch, b, p).0, batch, b, q)
  {
    hide Exec;
    if q == [] {
      assert p + q == p;
    } else {
      RunConcat(t, batch, b, p, q[..|q| - 1]);
      assert (p + q)[..|p + q| - 1] == p + q[..|q| - 1];
    }
  }

  lemma {:induction false} StopsAtError(t: Tables, batch: string, b: Batch, plan: seq<Task>, j: nat)
    requires j <= |plan| && Run(t, batch, b, plan[..j]).1.Some?
    ensures Run(t, batch, b, plan) == Run(t, batch, b, plan[..j])
  {
    hide Run, Exec;
    RunConcat(t, batch, b, plan[..j], plan[j..]);
    assert plan[..j] + plan[j..] == plan;
  }

  // ---------------------------------------------------------------- what the run stores

  /** No two satellites of a run are the same table. */
  predicate DistinctTables(c: Contents) {
    && (forall i, j | 0 <= i < j < |c.satellites| :: c.satellites[i].table != c.satellites[j].table)
    && (forall i | 0 <= i < |c.satellites| ::
          c.satellites[i].table !in {c.status.table, c.applications.table, LOAN_EFFECTIVITY})
    && c.status.table != c.applications.table
    && c.status.table != LOAN_EFFECTIVITY && c.applications.table != LOAN_EFFECTIVITY
  }

  /** The load of these rows over the table as it was. */
  function LoadIn(before: map<string, set<Stored>>, batch: string, table: string, events: set<Row>)
    : Result<set<Stored>, LoadError>
  {
    LoadBounded(if table in before then before[table] else {}, batch, events)
  }

  ghost predicate Holds(before: map<string, set<Stored>>, after: map<string, set<Stored>>, batch: string, table: string,
                        events: set<Row>) {
    LoadIn(before, batch, table, events) == Ok(if table in after then after[table] else {})
  }

  /** Every satellite of the run holds exactly what the load of its rows over the earlier table leaves. */
  ghost predicate SatellitesHold(before: map<string, set<Stored>>, after: map<string, set<Stored>>, batch: string,
                                 c: Contents, v: Vault) {
    && (forall i | 0 <= i < |c.satellites| ::
          Holds(before, after, batch, c.satellites[i].table, c.satellites[i].events))
    && Holds(before, after, batch, c.status.table, c.status.events)
    && Holds(before, after, batch, c.applications.table, c.applications.events)
    && Holds(before, after, batch, LOAN_EFFECTIVITY, EffectivityRows(c.loans, v))
    && forall name | name !in {c.status.table, c.applications.table, LOAN_EFFECTIVITY}
                     && forall i | 0 <= i < |c.satellites| :: c.satellites[i].table != name ::
         (if name in after then after[name] else {}) == (if name in before then before[name] else {})
  }

  /** None of these loads would raise. */
  ghost predicate NoneRaises(before: map<string, set<Stored>>, batch: string, c: Contents, v: Vault) {
    && (forall i | 0 <= i < |c.satellites| ::
          LoadIn(before, batch, c.satellites[i].table, c.satellites[i].events).Ok?)
    && LoadIn(before, batch, c.status.table, c.status.events).Ok?
    && LoadIn(before, batch, c.applications.table, c.applications.events).Ok?
    && LoadIn(before, batch, LOAN_EFFECTIVITY, EffectivityRows(c.loans, v)).Ok?
  }

  function SatellitePlan(c: Contents): seq<Task> {
    LoadTasks(c.satellites) + CurrentPlan(c)
  }

  lemma TaskAt(c: Contents, i: nat)
    requires i < |SatellitePlan(c)|
    ensures var n := |c.satellites|;
            && |SatellitePlan(c)| == n + 6
            && SatellitePlan(c)[i] ==
                 if i < n then Load(c.satellites[i].table, c.satellites[i].events)
                 else if i == n then Check(c.status.table, c.status.events)
                 else if i == n + 1 then Check(c.applications.table, c.applications.events)
                 else if i == n + 2 then LoanCheck
                 else if i == n + 3 then Load(c.status.table, c.status.events)
                 else if i == n + 4 then Load(c.applications.table, c.applications.events)
                 else LoanLoad
  {
    if i < |c.satellites| { assert SatellitePlan(c)[i] == LoadTasks(c.satellites)[i]; }
  }

  lemma SatellitePlanLoadsOnce(c: Contents)
    requires DistinctTables(c)
    ensures LoadsOnce(SatellitePlan(c))
  {
    var plan, n := SatellitePlan(c), |c.satellites|;
    forall task | task in plan ensures OfSatellite(task) {
      var i :| 0 <= i < |plan| && plan[i] == task;
      TaskAt(c, i);
    }
    forall i, j | 0 <= i < j < |plan| && Loads(plan[i]) && Loads(plan[j]) ensures TableOf(plan[i]) != TableOf(plan[j]) {
      TaskAt(c, i);
      TaskAt(c, j);
    }
    forall i | 0 <= i < |plan| && Checks(plan[i]) ensures LoadedLater(plan, i) {
      TaskAt(c, i);
      TaskAt(c, i + 3);
      assert LoadOf(plan[i], plan[i + 3]);
    }
  }

  lemma LoadAt(t: Tables, batch: string, c: Contents, i: nat)
    requires i < |SatellitePlan(c)| && Loads(SatellitePlan(c)[i])
    ensures var n, v := |c.satellites|, VaultOf(t);
            var events := if i < n then c.satellites[i].events else if i == n + 3 then c.status.events
                else if i == n + 4 then c.applications.events else EffectivityRows(c.loans, v);
            && (i < n || i >= n + 3)
            && TableOf(SatellitePlan(c)[i]) ==
                 (if i < n then c.satellites[i].table else if i == n + 3 then c.status.table
                  else if i == n + 4 then c.applications.table else LOAN_EFFECTIVITY)
            && BoundedOf(t, batch, c.loans, SatellitePlan(c)[i]) ==
                 LoadIn(t.satellites, batch, TableOf(SatellitePlan(c)[i]), events)
  {
    TaskAt(c, i);
    hide SatellitePlan, LoadBounded, EffectivityRows, VaultOf;
  }

  lemma NoLoadRaises(t: Tables, batch: string, c: Contents)
    ensures AllLoad(t, batch, c.loans, SatellitePlan(c)) <==> NoneRaises(t.satellites, batch, c, VaultOf(t))
  {
    var plan, n := SatellitePlan(c), |c.satellites|;
    TaskAt(c, 0);
    hide LoadIn, EffectivityRows, VaultOf, BoundedOf, SatellitePlan;
    forall i: nat | i < |plan| && Loads(plan[i]) {
      LoadAt(t, batch, c, i);
    }
    forall i: nat | i < |plan| && (i < n || i >= n + 3) ensures Loads(plan[i]) {
      TaskAt(c, i);
    }
    if AllLoad(t, batch, c.loans, plan) {
      assert Loads(plan[n + 3]) && Loads(plan[n + 4]) && Loads(plan[n + 5]);
      forall i | 0 <= i < n ensures LoadIn(t.satellites, batch, c.satellites[i].table, c.satellites[i].events).Ok? {
        assert Loads(plan[i]);
      }
    }
  }

  lemma HeldAt(t: Tables, batch: string, c: Contents, after: Tables, i: nat, table: string, events: set<Row>)
    requires PrefixStored(t, batch, c.loans, SatellitePlan(c), |SatellitePlan(c)|, after) && i < |c.satellites| + 6
    requires var n := |c.satellites|;
             || (i < n && table == c.satellites[i].table && events == c.satellites[i].events)
             || (i == n + 3 && table == c.status.table && events == c.status.events)
             || (i == n + 4 && table == c.applications.table && events == c.applications.events)
             || (i == n + 5 && table == LOAN_EFFECTIVITY && events == EffectivityRows(c.loans, VaultOf(t)))
    ensures Holds(t.satellites, after.satellites, batch, table, events)
  {
    TaskAt(c, 0);
    TaskAt(c, i);
    LoadAt(t, batch, c, i);
    hide LoadIn, EffectivityRows, VaultOf, BoundedOf, SatellitePlan, LoadBounded;
    assert Loads(SatellitePlan(c)[i]);
    assert BoundedOf(t, batch, c.loans, SatellitePlan(c)[i]) == Ok(Get(after.satellites, table));
  }

  lemma StaysAt(t: Tables, batch: string, c: Contents, after: Tables, name: string)
    requires PrefixStored(t, batch, c.loans, SatellitePlan(c), |SatellitePlan(c)|, after)
    requires name !in {c.status.table, c.applications.table, LOAN_EFFECTIVITY}
             && forall i | 0 <= i < |c.satellites| :: c.satellites[i].table != name
    ensures Get(after.satellites, name) == Get(t.satellites, name)
  {
    var plan := SatellitePlan(c);
    hide LoadIn, EffectivityRows, VaultOf, BoundedOf, SatellitePlan, LoadBounded;
    forall i | 0 <= i < |plan| && Loads(plan[i]) ensures TableOf(plan[i]) != name {
      LoadAt(t, batch, c, i);
    }
    assert NotLoaded(plan, |plan|, name);
  }

  lemma StoredMeansHeld(t: Tables, batch: string, c: Contents, after: Tables)
    requires PrefixStored(t, batch, c.loans, SatellitePlan(c), |SatellitePlan(c)|, after)
    ensures SatellitesHold(t.satellites, after.satellites, batch, c, VaultOf(t))
  {
    hide PrefixStored, EffectivityRows, VaultOf, SatellitePlan, Holds;
    var n := |c.satellites|;
    HeldAt(t, batch, c, after, n + 3, c.status.table, c.status.events);
    HeldAt(t, batch, c, after, n + 4, c.applications.table, c.applications.events);
    HeldAt(t, batch, c, after, n + 5, LOAN_EFFECTIVITY, EffectivityRows(c.loans, VaultOf(t)));
    forall i | 0 <= i < n
      ensures Holds(t.satellites, after.satellites, batch, c.satellites[i].table, c.satellites[i].events)
    {
      HeldAt(t, batch, c, after, i, c.satellites[i].table, c.satellites[i].events);
    }
    forall name | name !in {c.status.table, c.applications.table, LOAN_EFFECTIVITY}
                  && forall i | 0 <= i < |c.satellites| :: c.satellites[i].table != name
      ensures (if name in after.satellites then after.satellites[name] else {}) ==
                (if name in t.satellites then t.satellites[name] else {})
    {
      StaysAt(t, batch, c, after, name);
    }
  }

  /** The satellite phase of a run stores every satellite's rows, and raises exactly when one of the loads would. */
  lemma SatellitesStoreTheirRows(t: Tables, batch: string, c: Contents)
    requires DistinctTables(c)
    ensures var (after, error) := Run(t, batch, c.loans, LoadTasks(c.satellites) + CurrentPlan(c));
            var v := Vault(t.links, KeysOf(KeyedRows(t, APPLICATION_HUB)));
            && (error.None? <==> NoneRaises(t.satellites, batch, c, v))
            && (error.None? ==>
                  after.keyed == t.keyed && after.links == t.links
                  && SatellitesHold(t.satellites, after.satellites, batch, c, v))
  {
    var plan := SatellitePlan(c);
    SatellitePlanLoadsOnce(c);
    PlanStoresExactly(t, batch, c.loans, plan);
    NoLoadRaises(t, batch, c);
    hide Run, LoadsOnce, LoadTasks, CurrentPlan, KeysOf, NoneRaises, SatellitesHold, AllLoad;
    var after := Run(t, batch, c.loans, plan).0;
    if Run(t, batch, c.loans, plan).1.None? { StoredMeansHeld(t, batch, c, after); }
  }

  /** Some staged row has the key. */
  ghost predicate Stages(rows: seq<Arrival<string>>, key: string) {
    exists a :: a in rows && a.key == key
  }

  /** The keys of a table merged by hash key: those before, and those some hub, link or quarantine row brings. */
  ghost predicate BroughtTo(c: Contents, name: string, key: string) {
    || (exists i :: 0 <= i < |c.hubs| && c.hubs[i].table == name && Stages(c.hubs[i].rows, key))
    || (name == "link_application_context" && Stages(c.applicationLinks, key))
    || (name == "cdc_raw_vault_events" && Stages(c.quarantine, key))
  }

  /** Tables merged by the first k tasks of a plan hold their earlier keys and those of the merged rows. */
  ghost predicate KeyedStored(t: Tables, plan: seq<Task>, k: nat, after: Tables)
    requires k <= |plan|
  {
    && after.links == t.links && after.satellites == t.satellites
    && forall name, key :: key in KeysOf(KeyedRows(after, name)) <==>
         key in KeysOf(KeyedRows(t, name))
         || exists i :: 0 <= i < k && MergesKey(plan[i], name, key)
  }

  predicate MergesKey(task: Task, name: string, key: string) {
    task.Keyed? && task.table == name && key in KeysOf(task.rows)
  }

  lemma {:induction false} KeyedPrefix(t: Tables, batch: string, b: Batch, plan: seq<Task>, k: nat)
    requires k <= |plan| && forall i | 0 <= i < k :: plan[i].Keyed? || (plan[i].Count? && plan[i].number > 0)
    ensures Run(t, batch, b, plan[..k]).1.None? && KeyedStored(t, plan, k, Run(t, batch, b, plan[..k]).0)
  {
    hide Run, KeysOf, Hubs.LoadByKey;
    if k == 0 {
      NothingRun(t, batch, b, plan);
    } else {
      KeyedPrefix(t, batch, b, plan, k - 1);
      RunOne(t, batch, b, plan, k - 1);
      var before := Run(t, batch, b, plan[..k - 1]).0;
      KeyedStep(before, batch, b, plan[k - 1]);
      KeyedNext(t, plan, k, before, Exec(before, batch, b, plan[k - 1]).0);
    }
  }

  lemma KeyedStep(t: Tables, batch: string, b: Batch, task: Task)
    requires task.Keyed? || (task.Count? && task.number > 0)
    ensures var (after, error) := Exec(t, batch, b, task);
            && error.None? && after.links == t.links && after.satellites == t.satellites
            && forall name, key :: key in KeysOf(KeyedRows(after, name)) <==>
                 key in KeysOf(KeyedRows(t, name)) || MergesKey(task, name, key)
  {
    hide Hubs.LoadByKey;
    if task.Keyed? {
      KeysAfterLoad(KeyedRows(t, task.table), task.rows);
    }
    hide KeysOf;
  }

  lemma KeyedNext(t: Tables, plan: seq<Task>, k: nat, before: Tables, after: Tables)
    requires 0 < k <= |plan| && KeyedStored(t, plan, k - 1, before)
    requires after.links == before.links && after.satellites == before.satellites
    requires forall name, key :: key in KeysOf(KeyedRows(after, name)) <==>
               key in KeysOf(KeyedRows(before, name)) || MergesKey(plan[k - 1], name, key)
    ensures KeyedStored(t, plan, k, after)
  {
    hide KeysOf, KeyedRows, MergesKey;
  }

  function CoreTasks(c: Contents): seq<Task> {
    ValidatePlan(c) + CorePlan(c)
  }

  lemma CoreTaskAt(c: Contents, i: nat)
    requires i < |CoreTasks(c)|
    ensures var n := |c.hubs|;
            && |CoreTasks(c)| == n + 4
            && CoreTasks(c)[i] ==
                 if i == 0 then Count(c.events) else if i == 1 then Keyed(QUARANTINE, c.quarantine)
                 else if i < n + 2 then Keyed(c.hubs[i - 2].table, c.hubs[i - 2].rows)
                 else if i == n + 2 then Keyed(APPLICATION_LINK, c.applicationLinks) else LoanLinks
  {
    if 2 <= i < |c.hubs| + 2 { assert CoreTasks(c)[i] == HubTasks(c.hubs)[i - 2]; }
  }

  lemma StagedKey(rows: seq<Arrival<string>>, key: string)
    ensures key in KeysOf(rows) <==> Stages(rows, key)
  {
    if key in KeysOf(rows) { SomeOfKey(rows, key); }
    if a :| a in rows && a.key == key { MemberKey(rows, a); }
  }

  lemma MergedIsBrought(c: Contents, name: string, key: string)
    ensures (exists i :: 0 <= i < |c.hubs| + 3 && i < |CoreTasks(c)| && MergesKey(CoreTasks(c)[i], name, key)) <==>
              BroughtTo(c, name, key)
  {
    var plan, n := CoreTasks(c), |c.hubs|;
    CoreTaskAt(c, 0);
    hide KeysOf, Stages, CoreTasks;
    forall i: nat | i < |plan| {
      CoreTaskAt(c, i);
    }
    StagedKey(c.quarantine, key);
    StagedKey(c.applicationLinks, key);
    forall i | 0 <= i < n {
      StagedKey(c.hubs[i].rows, key);
    }
    assert QUARANTINE == "cdc_raw_vault_events" && APPLICATION_LINK == "link_application_context";
    if BroughtTo(c, name, key) {
      if i :| 0 <= i < n && c.hubs[i].table == name && Stages(c.hubs[i].rows, key) {
        assert MergesKey(plan[i + 2], name, key);
      } else if name == "link_application_context" && Stages(c.applicationLinks, key) {
        assert MergesKey(plan[n + 2], name, key);
      } else {
        assert MergesKey(plan[1], name, key);
      }
    }
    if i :| 0 <= i < n + 3 && MergesKey(plan[i], name, key) {
      if 2 <= i < n + 2 { assert c.hubs[i - 2].table == name && Stages(c.hubs[i - 2].rows, key); }
    }
  }

  /** Behind the links: the hubs hold all keys, the loan links are resolved over them, no satellite has changed. */
  ghost predicate CoreHolds(t: Tables, after: Tables, c: Contents) {
    && after.satellites == t.satellites
    && (forall name, key :: key in KeysOf(KeyedRows(after, name)) <==>
          key in KeysOf(KeyedRows(t, name)) || BroughtTo(c, name, key))
    && after.links == LoadLinks(Vault(t.links, KeysOf(KeyedRows(after, "hub_loan_application"))), c.loans).links
  }

  lemma CoreStoresItsKeys(t: Tables, batch: string, c: Contents)
    requires c.events > 0
    ensures var (after, error) := Run(t, batch, c.loans, CoreTasks(c)); error.None? && CoreHolds(t, after, c)
  {
    var plan, n := CoreTasks(c), |c.hubs|;
    CoreTaskAt(c, 0);
    hide KeysOf, CoreTasks, LoadLinks, Run, BroughtTo;
    forall i: nat | i < |plan| {
      CoreTaskAt(c, i);
    }
    KeyedPrefix(t, batch, c.loans, plan, n + 3);
    RunOne(t, batch, c.loans, plan, n + 3);
    assert plan[..n + 4] == plan;
    var before := Run(t, batch, c.loans, plan[..n + 3]).0;
    LinkStep(before, batch, c.loans);
    forall name, key
      ensures key in KeysOf(KeyedRows(before, name)) <==>
                key in KeysOf(KeyedRows(t, name)) || BroughtTo(c, name, key)
    {
      MergedIsBrought(c, name, key);
    }
  }

  lemma LinkStep(t: Tables, batch: string, b: Batch)
    ensures var (after, error) := Exec(t, batch, b, LoanLinks);
            && error.None? && after.keyed == t.keyed && after.satellites == t.satellites
            && after.links == LoadLinks(Vault(t.links, KeysOf(KeyedRows(t, "hub_loan_application"))), b).links
  {
    hide KeysOf, LoadLinks;
  }

  /** What the lookups read behind the link merge: the hub with all staged numbers, and the merged links. */
  ghost predicate ReadsBehind(t: Tables, c: Contents, v: Vault) {
    && (forall key :: key in v.hub <==>
          key in KeysOf(KeyedRows(t, "hub_loan_application")) || BroughtTo(c, "hub_loan_application", key))
    && v.links == LoadLinks(Vault(t.links, v.hub), c.loans).links
  }

  /** Every table of the run as it should be: keys merged, links resolved, satellites loaded. */
  ghost predicate RunHolds(t: Tables, after: Tables, batch: string, c: Contents, v: Vault) {
    && (forall name, key :: key in KeysOf(KeyedRows(after, name)) <==>
          key in KeysOf(KeyedRows(t, name)) || BroughtTo(c, name, key))
    && after.links == v.links
    && SatellitesHold(t.satellites, after.satellites, batch, c, v)
  }

  /**
   What a whole bounded run stores. It raises if and only if the batch has no events or the load of one of its
   satellites over that satellite's earlier table would. Otherwise every hub, link and quarantine table holds its
   earlier keys and those staged, the loan links are those resolved over the hub, and every satellite holds
   exactly the load of its own rows, the loan effectivity's resolved over the links just merged.
   */
  lemma WholeRunStoresItsRows(t: Tables, batch: string, c: Contents) returns (v: Vault)
    requires DistinctTables(c)
    ensures ReadsBehind(t, c, v)
    ensures var (after, error) := Run(t, batch, c.loans, WholePlan(c));
            && (error.None? <==> c.events > 0 && NoneRaises(t.satellites, batch, c, v))
            && (error.None? ==> RunHolds(t, after, batch, c, v))
            && (c.events == 0 ==> error == Some(NoEvents) && after == t)
  {
    var counted := c.(events := 1);
    var core, rest := CoreTasks(c), LoadTasks(c.satellites) + CurrentPlan(c);
    assert WholePlan(c) == core + rest;
    CoreStoresItsKeys(t, batch, counted);
    var behind := Run(t, batch, c.loans, CoreTasks(counted)).0;
    v := Vault(behind.links, KeysOf(KeyedRows(behind, "hub_loan_application")));
    assert forall name, key :: BroughtTo(counted, name, key) <==> BroughtTo(c, name, key);
    if c.events == 0 {
      NoEventsRefused(t, batch, c);
    } else {
      CoreStoresItsKeys(t, batch, c);
      SatellitesStoreTheirRows(Run(t, batch, c.loans, core).0, batch, c);
      RunConcat(t, batch, c.loans, core, rest);
      SameLookup(t, c, behind, Run(t, batch, c.loans, core).0);
      hide Run, CoreTasks, LoadTasks, CurrentPlan, WholePlan, KeysOf, NoneRaises, SatellitesHold, BroughtTo, LoadLinks;
    }
    hide Run, CoreTasks, LoadTasks, CurrentPlan, WholePlan, KeysOf, NoneRaises, SatellitesHold, BroughtTo, LoadLinks;
  }

  lemma SameLookup(t: Tables, c: Contents, a: Tables, b: Tables)
    requires CoreHolds(t, b, c)
    requires CoreHolds(t, a, c.(events := 1))
    ensures a.links == b.links
    ensures KeysOf(KeyedRows(a, "hub_loan_application")) == KeysOf(KeyedRows(b, "hub_loan_application"))
  {
    assert forall name, key :: BroughtTo(c.(events := 1), name, key) <==> BroughtTo(c, name, key);
    hide KeysOf, BroughtTo, LoadLinks;
    var x, y := KeysOf(KeyedRows(a, "hub_loan_application")), KeysOf(KeyedRows(b, "hub_loan_application"));
    assert forall key :: key in x <==> key in y;
    assert x == y;
  }

  lemma NoEventsRefused(t: Tables, batch: string, c: Contents)
    requires c.events == 0
    ensures Run(t, batch, c.loans, WholePlan(c)) == (t, Some(NoEvents))
  {
    var plan := WholePlan(c);
    NothingRun(t, batch, c.loans, plan);
    RunOne(t, batch, c.loans, plan, 0);
    assert plan[0] == Count(0);
    StopsAtError(t, batch, c.loans, plan, 1);
  }

  // ---------------------------------------------------------------- the job

  /** Rows inserted by a merge: candidates whose event is not stored yet. */
  function NewRows(table: set<Stored>, rows: set<Row>): set<Row> {
    set r | r in rows && !(exists v | v in table :: v.row.eventId == r.eventId)
  }

  lemma MergeAddsNewRows(table: set<Stored>, batch: string, rows: set<Row>)
    ensures MergeInsertOnly(table, batch, rows) == table + set r | r in NewRows(table, rows) :: Stored(r, batch)
    ensures |MergeInsertOnly(table, batch, rows)| == |table| + |NewRows(table, rows)|
  {
    var unseen := NewRows(table, rows);
    var added := set r | r in unseen :: Stored(r, batch);
    assert MergeInsertOnly(table, batch, rows) == table + added;
    SameSize(unseen, batch);
    assert added !! table by {
      forall v | v in added ensures v !in table {
        assert v.row in unseen;
      }
    }
  }

  lemma {:induction false} SameSize(rows: set<Row>, batch: string)
    ensures |set r | r in rows :: Stored(r, batch)| == |rows|
    decreases |rows|
  {
    if x :| x in rows {
      SameSize(rows - {x}, batch);
      var rest := set r | r in rows - {x} :: Stored(r, batch);
      assert (set r | r in rows :: Stored(r, batch)) == rest + {Stored(x, batch)};
    }
  }

  class VaultJob {
    var keyed: map<string, seq<Arrival<string>>>
    var links: seq<Link>
    var satellites: map<string, set<Stored>>
    const batch: string

    constructor (t: Tables, batch: string)
      ensures State() == t && this.batch == batch
    {
      keyed, links, satellites := t.keyed, t.links, t.satellites;
      this.batch := batch;
    }

    function State(): Tables
      reads this
    {
      Tables(keyed, links, satellites)
    }

    /** load_table for hubs, links and quarantine: first arrivals, merged by hash key. */
    method LoadKeyed(table: string, rows: seq<Arrival<string>>, ghost b: Batch)
      modifies this`keyed
      ensures (State(), None) == Exec(old(State()), batch, b, Keyed(table, rows))
    {
      if rows == [] {
        return;
      }
      var stored := if table in keyed then keyed[table] else [];
      keyed := keyed[table := MergeByKey(stored, KeepFirstArrival(rows))];
    }

    /** build_link_loan_context over the links stored now, and its merge. */
    method LoadLoanLinks(b: Batch)
      modifies this`links
      ensures (State(), None) == Exec(old(State()), batch, b, LoanLinks)
    {
      var candidates := ResolvedLinks(b.loans, b.apps, VaultOf(State()));
      links := MergeByKey(links, KeepFirstArrival(candidates));
    }

    /** merge_insert_only for satellites: candidates and inserted rows; the MERGE is one atomic commit. */
    method Merge(name: string, rows: set<Row>) returns (candidates: nat, inserted: nat)
      modifies this`satellites
      ensures satellites ==
                if rows == {} then old(satellites)
                else old(satellites)[name := MergeInsertOnly(Get(old(satellites), name), batch, rows)]
      ensures candidates == |rows| && inserted == |Get(satellites, name)| - |Get(old(satellites), name)|
      ensures inserted == |NewRows(Get(old(satellites), name), rows)| <= candidates
    {
      candidates := |rows|;
      MergeAddsNewRows(Get(satellites, name), batch, rows);
      CardinalityMonotone(NewRows(Get(satellites, name), rows), rows);
      if rows == {} {
        assert NewRows(Get(satellites, name), rows) == {};
        return 0, 0;
      }
      var merged := MergeInsertOnly(Get(satellites, name), batch, rows);
      inserted := |merged| - |Get(satellites, name)|;
      satellites := satellites[name := merged];
    }

    /** load_table: refuses candidates that repeat an event before anything is written. */
    method LoadTable(name: string, rows: set<Row>) returns (error: Option<LoadError>)
      modifies this`satellites
      ensures error == if UniqueEvents(rows) then None else Some(DuplicateKey)
      ensures error.Some? ==> satellites == old(satellites)
      ensures error.None? ==>
                satellites ==
                  if rows == {} then old(satellites)
                  else old(satellites)[name := MergeInsertOnly(Get(old(satellites), name), batch, rows)]
    {
      if !UniqueEvents(rows) {
        return Some(DuplicateKey);
      }
      var candidates, inserted := Merge(name, rows);
      error := None;
    }

    /** run_validate: refuses a batch without events, otherwise merges its quarantine rows. */
    method RunValidate(c: Contents) returns (error: Option<LoadError>)
      modifies this`keyed
      ensures (State(), error) == Run(old(State()), batch, c.loans, ValidatePlan(c))
    {
      RunAppend(State(), batch, c.loans, [Count(c.events)], Keyed(QUARANTINE, c.quarantine));
      assert [Count(c.events)][..0] == [];
      if c.events == 0 {
        return Some(NoEvents);
      }
      LoadKeyed(QUARANTINE, c.quarantine, c.loans);
      error := None;
    }

    /** run_core: hub after hub, then the two links. */
    method RunCore(c: Contents)
      modifies this`keyed, this`links
      ensures (State(), None) == Run(old(State()), batch, c.loans, CorePlan(c))
    {
      hide Exec;
      ghost var hubs := HubTasks(c.hubs);
      assert hubs[..0] == [];
      for i := 0 to |c.hubs|
        invariant (State(), None) == Run(old(State()), batch, c.loans, hubs[..i])
        invariant links == old(links) && satellites == old(satellites)
      {
        RunOne(old(State()), batch, c.loans, hubs, i);
        LoadKeyed(c.hubs[i].table, c.hubs[i].rows, c.loans);
      }
      assert hubs[..|c.hubs|] == hubs;
      ghost var application := Keyed(APPLICATION_LINK, c.applicationLinks);
      LoadKeyed(APPLICATION_LINK, c.applicationLinks, c.loans);
      RunAppend(old(State()), batch, c.loans, hubs, application);
      LoadLoanLinks(c.loans);
      RunAppend(old(State()), batch, c.loans, hubs + [application], LoanLinks);
    }

    /** A satellite compared with its persisted state, checked and merged. */
    method LoadSatellite(phase: Phase, ghost b: Batch) returns (error: Option<LoadError>)
      modifies this`satellites
      ensures (State(), error) == Exec(old(State()), batch, b, Load(phase.table, phase.events))
    {
      hide KeepStateChanges, UniqueEvents, MergeInsertOnly, FilterAgainstPersistedState;
      var filtered := Filtered(satellites, batch, phase);
      if filtered.Err? {
        return Some(filtered.error);
      }
      error := LoadTable(phase.table, filtered.value);
    }

    /**
     run_satellites, stopping at the first table that raises: none does if none of the loads would, and then
     every satellite holds the load of its own rows.
     */
    method RunSatellites(c: Contents) returns (error: Option<LoadError>)
      modifies this`satellites
      ensures (State(), error) == Run(old(State()), batch, c.loans, LoadTasks(c.satellites) + CurrentPlan(c))
      ensures DistinctTables(c) ==> (error.None? <==> NoneRaises(old(satellites), batch, c, VaultOf(old(State()))))
      ensures DistinctTables(c) && error.None? ==>
                SatellitesHold(old(satellites), satellites, batch, c, VaultOf(old(State())))
    {
      if DistinctTables(c) { SatellitesStoreTheirRows(State(), batch, c); }
      hide Exec, Run, NoneRaises, SatellitesHold;
      ghost var plan := LoadTasks(c.satellites);
      NothingRun(State(), batch, c.loans, plan);
      for i := 0 to |c.satellites|
        invariant (State(), None) == Run(old(State()), batch, c.loans, plan[..i])
        invariant links == old(links) && keyed == old(keyed)
      {
        RunOne(old(State()), batch, c.loans, plan, i);
        error := LoadSatellite(c.satellites[i], c.loans);
        if error.Some? {
          StopsAtError(old(State()), batch, c.loans, plan, i + 1);
          RunConcat(old(State()), batch, c.loans, plan, CurrentPlan(c));
          return;
        }
      }
      assert plan[..|c.satellites|] == plan;
      RunConcat(old(State()), batch, c.loans, plan, CurrentPlan(c));
      error := RunCurrent(c);
    }

    /** run_current_state_satellites: three comparisons first, then three loads of what they left. */
    method RunCurrent(c: Contents) returns (error: Option<LoadError>)
      modifies this`satellites
      ensures (State(), error) == Run(old(State()), batch, c.loans, CurrentPlan(c))
    {
      hide Filtered, EffectivityRows, Exec, Run;
      ghost var start := State();
      var loans := Phase(LOAN_EFFECTIVITY, EffectivityRows(c.loans, VaultOf(State())));
      var status := Filtered(satellites, batch, c.status);
      if status.Err? {
        CurrentChecks(start, batch, c, loans);
        return Some(status.error);
      }
      var applications := Filtered(satellites, batch, c.applications);
      if applications.Err? {
        CurrentChecks(start, batch, c, loans);
        return Some(applications.error);
      }
      var effectivity := Filtered(satellites, batch, loans);
      if effectivity.Err? {
        CurrentChecks(start, batch, c, loans);
        return Some(effectivity.error);
      }
      CurrentLoads(start, batch, c, loans);
      error := LoadTable(c.status.table, status.value);
      if error.Some? {
        return;
      }
      error := LoadTable(c.applications.table, applications.value);
      if error.Some? {
        return;
      }
      error := LoadTable(loans.table, effectivity.value);
    }

    /**
     The main function over a batch: nothing at all for one without objects, otherwise the phases asked for in
     order, up to the first that raises. A whole run stores every key and row of the batch.
     */
    method RunJob(c: Contents, objects: nat, phase: Phases) returns (error: Option<LoadError>, ghost v: Vault)
      modifies this
      ensures objects == 0 ==> State() == old(State()) && error.None?
      ensures objects > 0 && phase.All? ==> (State(), error) == Run(old(State()), batch, c.loans, WholePlan(c))
      ensures objects > 0 && phase.All? && DistinctTables(c) ==>
                && ReadsBehind(old(State()), c, v)
                && (error.None? <==> c.events > 0 && NoneRaises(old(satellites), batch, c, v))
                && (error.None? ==> RunHolds(old(State()), State(), batch, c, v))
    {
      hide Run, NoneRaises, SatellitesHold, RunHolds, ReadsBehind, BroughtTo, LoadTasks, CurrentPlan, CorePlan;
      ghost var start := State();
      v := VaultOf(start);
      error := None;
      if objects == 0 {
        return;
      }
      if phase.Validate? || phase.All? {
        error := RunValidate(c);
      }
      if error.None? && (phase.Core? || phase.All?) {
        RunCore(c);
      }
      if error.None? && (phase.Satellites? || phase.All?) {
        error := RunSatellites(c);
      }
      if phase.All? {
        RunConcat(start, batch, c.loans, ValidatePlan(c), CorePlan(c) + LoadTasks(c.satellites) + CurrentPlan(c));
        RunConcat(Run(start, batch, c.loans, ValidatePlan(c)).0, batch, c.loans, CorePlan(c),
                  LoadTasks(c.satellites) + CurrentPlan(c));
        WholePlanInPhases(c);
        if DistinctTables(c) { v := WholeRunStoresItsRows(start, batch, c); }
      }
    }
  }

  lemma WholePlanInPhases(c: Contents)
    ensures WholePlan(c) == ValidatePlan(c) + (CorePlan(c) + LoadTasks(c.satellites) + CurrentPlan(c))
    ensures CorePlan(c) + LoadTasks(c.satellites) + CurrentPlan(c)
         == CorePlan(c) + (LoadTasks(c.satellites) + CurrentPlan(c))
  {
  }

  lemma RunAppend(t: Tables, batch: string, b: Batch, plan: seq<Task>, task: Task)
    ensures Run(t, batch, b, plan + [task]) ==
              if Run(t, batch, b, plan).1.Some? then Run(t, batch, b, plan)
              else Exec(Run(t, batch, b, plan).0, batch, b, task)
  {
    assert (plan + [task])[..|plan|] == plan;
  }

  /** Merge of an already filtered phase. */
  function LoadFiltered(t: Tables, batch: string, table: string, rows: set<Row>): (Tables, Option<LoadError>) {
    if !UniqueEvents(rows) then (t, Some(DuplicateKey))
    else if rows == {} then (t, None)
    else (t.(satellites := t.satellites[table := MergeInsertOnly(Get(t.satellites, table), batch, rows)]), None)
  }

  /** The first failing comparison decides, before anything is merged. */
  lemma CurrentChecks(t: Tables, batch: string, c: Contents, loans: Phase)
    requires loans == Phase(LOAN_EFFECTIVITY, EffectivityRows(c.loans, VaultOf(t)))
    ensures var s, a, l := Filtered(t.satellites, batch, c.status), Filtered(t.satellites, batch, c.applications),
                           Filtered(t.satellites, batch, loans);
            && (s.Err? ==> Run(t, batch, c.loans, CurrentPlan(c)) == (t, Some(s.error)))
            && (s.Ok? && a.Err? ==> Run(t, batch, c.loans, CurrentPlan(c)) == (t, Some(a.error)))
            && (s.Ok? && a.Ok? && l.Err? ==> Run(t, batch, c.loans, CurrentPlan(c)) == (t, Some(l.error)))
            && (s.Ok? && a.Ok? && l.Ok? ==> Run(t, batch, c.loans, CurrentPlan(c)[..3]) == (t, None))
  {
    hide Filtered, EffectivityRows, Run;
    var plan := CurrentPlan(c);
    NothingRun(t, batch, c.loans, plan);
    RunOne(t, batch, c.loans, plan, 0);
    RunOne(t, batch, c.loans, plan, 1);
    RunOne(t, batch, c.loans, plan, 2);
    forall j: nat | j <= 3 && Run(t, batch, c.loans, plan[..j]).1.Some?
      ensures Run(t, batch, c.loans, plan) == Run(t, batch, c.loans, plan[..j])
    {
      StopsAtError(t, batch, c.loans, plan, j);
    }
  }

  /** The merges leave each other's comparisons as they were. */
  lemma CurrentLoads(t: Tables, batch: string, c: Contents, loans: Phase)
    requires loans == Phase(LOAN_EFFECTIVITY, EffectivityRows(c.loans, VaultOf(t)))
    requires Filtered(t.satellites, batch, c.status).Ok? && Filtered(t.satellites, batch, c.applications).Ok?
    requires Filtered(t.satellites, batch, loans).Ok?
    ensures var (t1, e1) := LoadFiltered(t, batch, c.status.table, Filtered(t.satellites, batch, c.status).value);
            var (t2, e2) := LoadFiltered(t1, batch, c.applications.table,
                Filtered(t.satellites, batch, c.applications).value);
            Run(t, batch, c.loans, CurrentPlan(c)) ==
              if e1.Some? then (t, e1) else if e2.Some? then (t1, e2)
              else LoadFiltered(t2, batch, loans.table, Filtered(t.satellites, batch, loans).value)
  {
    hide Filtered, EffectivityRows, Run, UniqueEvents, MergeInsertOnly;
    var plan := CurrentPlan(c);
    CurrentChecks(t, batch, c, loans);
    var s, a, l := Filtered(t.satellites, batch, c.status).value, Filtered(t.satellites, batch, c.applications).value,
                   Filtered(t.satellites, batch, loans).value;
    var (t1, e1) := LoadFiltered(t, batch, c.status.table, s);
    var (t2, e2) := LoadFiltered(t1, batch, c.applications.table, a);
    RunOne(t, batch, c.loans, plan, 3);
    RunOne(t, batch, c.loans, plan, 4);
    RunOne(t, batch, c.loans, plan, 5);
    assert plan[..6] == plan;
    LoadKeepsOthers(t, t, batch, c.status.table, s);
    LoadKeepsOthers(t, t1, batch, c.applications.table, a);
    hide SameOthers, LoadFiltered, Exec;
    LoadsAsFiltered(t, t, batch, c.loans, plan[3], c.status);
    LoadsAsFiltered(t, t1, batch, c.loans, plan[4], c.applications);
    LoadsAsFiltered(t, t2, batch, c.loans, plan[5], loans);
  }

  /** What a comparison reads is the same in both. */
  ghost predicate SameOthers(t: Tables, u: Tables, batch: string) {
    && u.links == t.links && u.keyed == t.keyed
    && forall name :: Others(Get(u.satellites, name), batch) == Others(Get(t.satellites, name), batch)
  }

  lemma LoadKeepsOthers(t: Tables, u: Tables, batch: string, table: string, rows: set<Row>)
    requires SameOthers(t, u, batch)
    ensures SameOthers(t, LoadFiltered(u, batch, table, rows).0, batch)
    ensures SameOthers(t, t, batch)
  {
    hide MergeInsertOnly, Others, UniqueEvents;
    OthersOfMerge(Get(u.satellites, table), batch, rows);
  }

  lemma LoadsAsFiltered(t: Tables, u: Tables, batch: string, b: Batch, task: Task, phase: Phase)
    requires SameOthers(t, u, batch) && (task.Load? || task.LoanLoad?)
    requires phase == Phase(TableOf(task), EventsOf(VaultOf(t), b, task)) && Filtered(t.satellites, batch, phase).Ok?
    ensures Exec(u, batch, b, task) == LoadFiltered(u, batch, phase.table, Filtered(t.satellites, batch, phase).value)
  {
    hide EventsOf, UniqueEvents, MergeInsertOnly, Others;
    RepeatedCheck(t.satellites, u.satellites, batch, phase);
    assert VaultOf(u) == VaultOf(t);
    hide Filtered, VaultOf;
  }
}
