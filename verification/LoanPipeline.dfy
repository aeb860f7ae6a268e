/**
 The pipeline with the one satellite whose rows are not fixed by their events: hub and link merges
 change the vault that the loan effectivity load looks applications up in. If every sealed batch that
 first holds an event of a loan also holds its application, every load finds its applications, and the
 run is a run of the pipeline over rows fixed per event.
 */
module LoanPipeline {
  import opened Wrappers
  import opened Manifest
  import opened Control
  import opened ControlInvariant
  import opened ControlGuarantees
  import opened RawVault
  import opened Pipeline
  import Publication
  import L = LoanContext
  import V = VaultTables
  import Hubs

  /**
   The loan and application events under the object keys, as far as they pass the key checks, the numbers
   of application images without an id, and the hub keys the events stage.
   */
  datatype Events = Events(loans: map<string, L.LoanEvent>, apps: map<string, L.AppEvent>, numbers: map<string, string>,
                           keys: map<string, string>)

  /**
   `keys` are the hash keys of all hubs, `hubbed` and `linked` the runs that have merged their hubs and
   their links at least once.
   */
  datatype Lake = Lake(pipe: Pipe, vault: L.Vault, keys: set<string>, hubbed: set<string>, linked: set<string>)

  /** Steps of the pipeline, merges of a run's core phase, and the loan effectivity load. */
  datatype LoanStep = Plain(step: Step) | HubMerge(run: string) | LinkMerge(run: string) | LoanLoad(run: string)

  // ---------------------------------------------------------------- the events of a batch

  function Decoded<T>(at: map<string, T>, objects: seq<BronzeObject>): seq<T> {
    if objects == [] then [] else
    var rest, o := Decoded(at, objects[..|objects| - 1]), objects[|objects| - 1];
    if o.objectKey in at then rest + [at[o.objectKey]] else rest
  }

  function EventsOf(events: Events, objects: seq<BronzeObject>): L.Batch {
    L.Batch(Decoded(events.apps, objects), Decoded(events.loans, objects),
            set no | no in Decoded(events.numbers, objects))
  }

  lemma {:induction false} DecodedExact<T>(at: map<string, T>, objects: seq<BronzeObject>)
    ensures forall e :: e in Decoded(at, objects) <==>
              exists o :: o in objects && o.objectKey in at && e == at[o.objectKey]
  {
    if objects != [] {
      var front, last := objects[..|objects| - 1], objects[|objects| - 1];
      DecodedExact(at, front);
      assert forall o :: o in objects <==> o in front || o == last;
    }
  }

  /** The events behind an active attempt of a run. */
  function BatchOfRun(events: Events, p: Pipe, run: string): L.Batch
    requires run in p.control.db.attempts && p.control.db.attempts[run].batchId in p.control.db.batches
  {
    EventsOf(events, p.control.db.batches[p.control.db.attempts[run].batchId].sha.payload.objects)
  }

  /** The hub keys those events stage. */
  function KeysOfRun(events: Events, p: Pipe, run: string): set<string>
    requires run in p.control.db.attempts && p.control.db.attempts[run].batchId in p.control.db.batches
  {
    KeysIn(events, p.control.db.batches[p.control.db.attempts[run].batchId].sha.payload.objects)
  }

  function KeysIn(events: Events, objects: seq<BronzeObject>): set<string> {
    set o | o in objects && o.objectKey in events.keys :: events.keys[o.objectKey]
  }

  predicate Running(p: Pipe, run: string) {
    && run in p.control.db.attempts && p.control.db.attempts[run].state == ACTIVE
    && p.control.db.attempts[run].batchId in p.control.db.batches
  }

  // ---------------------------------------------------------------- steps

  /** The load with the rows resolved over the vault of this moment. */
  function LoadLoans(events: Events, k: Lake, run: string): Result<set<Stored>, LoadError>
    requires Running(k.pipe, run) && V.LOAN_EFFECTIVITY in k.pipe.tables
  {
    LoadBounded(k.pipe.tables[V.LOAN_EFFECTIVITY], k.pipe.control.db.attempts[run].batchId,
                V.EffectivityRows(BatchOfRun(events, k.pipe, run), k.vault))
  }

  ghost function NextLake(s: Source, events: Events, k: Lake, step: LoanStep): Lake {
    match step
    case Plain(inner) => k.(pipe := Next(s, k.pipe, inner))
    case HubMerge(run) =>
      if Running(k.pipe, run) then
        k.(vault := L.WithHub(k.vault, BatchOfRun(events, k.pipe, run)),
           keys := k.keys + KeysOfRun(events, k.pipe, run), hubbed := k.hubbed + {run})
      else k
    case LinkMerge(run) =>
      if Running(k.pipe, run) then
        k.(vault := L.LoadLinks(k.vault, BatchOfRun(events, k.pipe, run)), linked := k.linked + {run})
      else k
    case LoanLoad(run) =>
      var t, p := V.LOAN_EFFECTIVITY, k.pipe;
      if MayLoad(s, p, run, t) && LoadLoans(events, k, run).Ok? then
        k.(pipe := p.(tables := p.tables[t := LoadLoans(events, k, run).value],
                      loaded := p.loaded[run := (if run in p.loaded then p.loaded[run] else {}) + {t}]))
      else k
  }

  ghost function LakeRuns(s: Source, events: Events, steps: seq<LoanStep>): Lake {
    if steps == [] then Lake(Initial(s), L.EMPTY_VAULT, {}, {}, {})
    else NextLake(s, events, LakeRuns(s, events, steps[..|steps| - 1]), steps[|steps| - 1])
  }

  /**
   Steps the pipeline admits. An attempt merges its hub before its links, and loads the effectivity
   behind both and only over the vault; any of these may repeat.
   */
  ghost predicate AllowedStep(s: Source, k: Lake, step: LoanStep) {
    && (step.Plain? ==> Allowed(s, k.pipe, step.step))
    && (step.Plain? && step.step.LoadStep? ==> step.step.table != V.LOAN_EFFECTIVITY)
    && (step.LinkMerge? ==> step.run in k.hubbed)
    && (step.LoanLoad? ==> step.run in k.linked)
  }

  ghost predicate AllowedLake(s: Source, events: Events, steps: seq<LoanStep>) {
    forall i | 0 <= i < |steps| :: AllowedStep(s, LakeRuns(s, events, steps[..i]), steps[i])
  }

  lemma FrontIsAllowed(s: Source, events: Events, steps: seq<LoanStep>)
    requires AllowedLake(s, events, steps) && steps != []
    ensures AllowedLake(s, events, steps[..|steps| - 1])
    ensures AllowedStep(s, LakeRuns(s, events, steps[..|steps| - 1]), steps[|steps| - 1])
  {
    hide AllowedStep, LakeRuns;
    var front := steps[..|steps| - 1];
    forall i | 0 <= i < |front| ensures AllowedStep(s, LakeRuns(s, events, front[..i]), front[i]) {
      assert front[..i] == steps[..i] && front[i] == steps[i];
    }
  }

  /** Every loan event of the batch finds its application, in the batch or over a stored link. */
  ghost predicate AllKnown(b: L.Batch, v: L.Vault) {
    forall e | e in b.loans :: L.Resolve(e, b.apps, v).Some?
  }

  /** An effectivity load that finds all its applications. */
  ghost predicate KnownStep(events: Events, k: Lake, step: LoanStep) {
    step.LoanLoad? && Running(k.pipe, step.run) ==> AllKnown(BatchOfRun(events, k.pipe, step.run), k.vault)
  }

  ghost predicate KnownLake(s: Source, events: Events, steps: seq<LoanStep>) {
    forall i | 0 <= i < |steps| :: KnownStep(events, LakeRuns(s, events, steps[..i]), steps[i])
  }

  // ---------------------------------------------------------------- rows fixed per event

  /** Application ids and numbers never change over the whole of Bronze. */
  ghost predicate Fixed(events: Events, idOf: string -> string, noOf: string -> string) {
    && (forall k | k in events.loans :: events.loans[k].applicationId == idOf(events.loans[k].loan))
    && (forall k | k in events.apps :: events.apps[k].applicationNo == noOf(events.apps[k].applicationId))
  }

  /** The satellite's staging: each loan event with the number its loan has for good. */
  ghost predicate StagesLoans(s: Source, events: Events, idOf: string -> string, noOf: string -> string) {
    && V.LOAN_EFFECTIVITY in s.staging && s.staging[V.LOAN_EFFECTIVITY].Keys == events.loans.Keys
    && forall k | k in events.loans ::
         s.staging[V.LOAN_EFFECTIVITY][k] == V.EffectivityRow(events.loans[k], noOf(idOf(events.loans[k].loan)))
  }

  lemma BatchIsImmutable(events: Events, objects: seq<BronzeObject>, idOf: string -> string, noOf: string -> string)
    requires Fixed(events, idOf, noOf)
    ensures L.Immutable(EventsOf(events, objects), idOf, noOf)
  {
    DecodedExact(events.loans, objects);
    DecodedExact(events.apps, objects);
  }

  /** The rows resolved at load time are the staged rows, if and only if every loan event is known. */
  lemma ResolvedRowsAreStagedExactly(s: Source, events: Events, objects: seq<BronzeObject>, v: L.Vault,
                                     idOf: string -> string, noOf: string -> string)
    requires Fixed(events, idOf, noOf) && StagesLoans(s, events, idOf, noOf) && L.LinksAgree(v, idOf, noOf)
    ensures var b := EventsOf(events, objects);
            V.EffectivityRows(b, v) == Staged(s.staging[V.LOAN_EFFECTIVITY], objects) <==> AllKnown(b, v)
  {
    var b, stage := EventsOf(events, objects), s.staging[V.LOAN_EFFECTIVITY];
    BatchIsImmutable(events, objects, idOf, noOf);
    DecodedExact(events.loans, objects);
    forall e | e in b.loans
      ensures L.Resolve(e, b.apps, v).Some? ==> L.Resolve(e, b.apps, v).value == noOf(idOf(e.loan))
      ensures V.EffectivityRow(e, noOf(idOf(e.loan))) in Staged(stage, objects)
    {
      L.ResolveIsFixed(e, b, v, idOf, noOf);
      var o :| o in objects && o.objectKey in events.loans && e == events.loans[o.objectKey];
      assert stage[o.objectKey] in Staged(stage, objects);
    }
    forall r | r in Staged(stage, objects)
      ensures exists e :: e in b.loans && r == V.EffectivityRow(e, noOf(idOf(e.loan)))
    {
      var o :| o in objects && o.objectKey in stage && r == stage[o.objectKey];
      assert events.loans[o.objectKey] in b.loans;
    }
    hide L.Resolve, V.EffectivityRow, Staged, EventsOf;
    if V.EffectivityRows(b, v) == Staged(stage, objects) {
      forall e | e in b.loans ensures L.Resolve(e, b.apps, v).Some? {
        RowNamesItsResolution(b, v, e, idOf, noOf);
      }
    }
  }

  /** Two events of one loan resolve alike, so a row found among the resolved ones shows its own event resolves. */
  lemma RowNamesItsResolution(b: L.Batch, v: L.Vault, e: L.LoanEvent, idOf: string -> string, noOf: string -> string)
    requires L.Immutable(b, idOf, noOf) && L.LinksAgree(v, idOf, noOf) && e in b.loans
    requires V.EffectivityRow(e, noOf(idOf(e.loan))) in V.EffectivityRows(b, v)
    ensures L.Resolve(e, b.apps, v).Some?
  {
    hide L.Resolve;
    var f :| f in b.loans && L.Resolve(f, b.apps, v).Some?
             && V.EffectivityRow(e, noOf(idOf(e.loan))) == V.EffectivityRow(f, L.Resolve(f, b.apps, v).value);
    assert f.loan == e.loan;
    L.ResolveIsFixed(e, b, v, idOf, noOf);
    L.ResolveIsFixed(f, b, v, idOf, noOf);
  }

  // ---------------------------------------------------------------- the vault along a run

  ghost predicate VaultOk(v: L.Vault, idOf: string -> string, noOf: string -> string) {
    L.LinksAgree(v, idOf, noOf) && Hubs.OnePerKey(v.links)
  }

  /** A step keeps the agreement of the links, and no step takes a hub row or the last link of a loan away. */
  lemma StepKeepsVault(s: Source, events: Events, k: Lake, step: LoanStep, idOf: string -> string,
                       noOf: string -> string)
    requires Fixed(events, idOf, noOf) && VaultOk(k.vault, idOf, noOf)
    ensures var after := NextLake(s, events, k, step).vault;
            && VaultOk(after, idOf, noOf) && k.vault.hub <= after.hub
            && forall loan | L.HasLink(k.vault.links, loan) :: L.HasLink(after.links, loan)
  {
    hide L.LoadLinks, L.HasLink, L.HubKeys, Next, MayLoad, LoadLoans, Hubs.OnePerKey;
    if step.LinkMerge? && Running(k.pipe, step.run) {
      var b := BatchOfRun(events, k.pipe, step.run);
      var objects := k.pipe.control.db.batches[k.pipe.control.db.attempts[step.run].batchId].sha.payload.objects;
      BatchIsImmutable(events, objects, idOf, noOf);
      L.CoreLinks(k.vault, b, idOf, noOf);
      LinksKeepHub(k.vault, b);
    }
  }

  lemma LinksKeepHub(v: L.Vault, b: L.Batch)
    ensures L.LoadLinks(v, b).hub == v.hub
  {
  }

  lemma {:induction false} ReachableVault(s: Source, events: Events, steps: seq<LoanStep>, idOf: string -> string,
                                          noOf: string -> string)
    requires Fixed(events, idOf, noOf)
    ensures VaultOk(LakeRuns(s, events, steps).vault, idOf, noOf)
  {
    hide NextLake, Fixed, VaultOk;
    if steps == [] {
      EmptyVaultOk(idOf, noOf);
    } else {
      ReachableVault(s, events, steps[..|steps| - 1], idOf, noOf);
      StepKeepsVault(s, events, LakeRuns(s, events, steps[..|steps| - 1]), steps[|steps| - 1], idOf, noOf);
    }
  }

  lemma EmptyVaultOk(idOf: string -> string, noOf: string -> string)
    ensures VaultOk(L.EMPTY_VAULT, idOf, noOf)
  {
  }

  // ---------------------------------------------------------------- the pipeline run behind it

  function Plainly(steps: seq<LoanStep>): seq<Step> {
    if steps == [] then [] else
    var front, last := Plainly(steps[..|steps| - 1]), steps[|steps| - 1];
    match last
    case Plain(step) => front + [step]
    case LoanLoad(run) => front + [LoadStep(run, V.LOAN_EFFECTIVITY)]
    case _ => front
  }

  /** One step of the lake is the step of the pipeline over fixed rows, or leaves the pipeline alone. */
  lemma StepIsPlain(s: Source, events: Events, k: Lake, step: LoanStep, idOf: string -> string, noOf: string -> string)
    requires Fixed(events, idOf, noOf) && StagesLoans(s, events, idOf, noOf) && VaultOk(k.vault, idOf, noOf)
    requires AllowedStep(s, k, step) && KnownStep(events, k, step)
    ensures step.LoanLoad? ==>
              NextLake(s, events, k, step).pipe == Next(s, k.pipe, LoadStep(step.run, V.LOAN_EFFECTIVITY))
    ensures !step.Plain? && !step.LoanLoad? ==> NextLake(s, events, k, step).pipe == k.pipe
  {
    hide L.WithHub, L.LoadLinks, LoadBounded, V.EffectivityRows, Staged, Fixed, AllKnown, StagesLoans;
    if step.LoanLoad? && MayLoad(s, k.pipe, step.run, V.LOAN_EFFECTIVITY) {
      var objects := k.pipe.control.db.batches[k.pipe.control.db.attempts[step.run].batchId].sha.payload.objects;
      ResolvedRowsAreStagedExactly(s, events, objects, k.vault, idOf, noOf);
    }
  }

  lemma FrontIsKnown(s: Source, events: Events, steps: seq<LoanStep>)
    requires KnownLake(s, events, steps) && steps != []
    ensures KnownLake(s, events, steps[..|steps| - 1])
    ensures KnownStep(events, LakeRuns(s, events, steps[..|steps| - 1]), steps[|steps| - 1])
  {
    hide KnownStep, LakeRuns;
    var front := steps[..|steps| - 1];
    forall i | 0 <= i < |front| ensures KnownStep(events, LakeRuns(s, events, front[..i]), front[i]) {
      assert front[..i] == steps[..i] && front[i] == steps[i];
    }
  }

  lemma {:induction false} LakeIsPipeline(s: Source, events: Events, steps: seq<LoanStep>, idOf: string -> string,
                                          noOf: string -> string)
    requires Fixed(events, idOf, noOf) && StagesLoans(s, events, idOf, noOf) && AllowedLake(s, events, steps)
    requires KnownLake(s, events, steps)
    ensures LakeRuns(s, events, steps).pipe == Runs(s, Plainly(steps))
    ensures forall i | 0 <= i < |Plainly(steps)| :: Allowed(s, Runs(s, Plainly(steps)[..i]), Plainly(steps)[i])
  {
    hide Fixed, StagesLoans, AllowedStep, AllowedLake, KnownStep, KnownLake, Allowed, NextLake, Next;
    if steps != [] {
      var front, last := steps[..|steps| - 1], steps[|steps| - 1];
      FrontIsAllowed(s, events, steps);
      FrontIsKnown(s, events, steps);
      LakeIsPipeline(s, events, front, idOf, noOf);
      ReachableVault(s, events, front, idOf, noOf);
      var k := LakeRuns(s, events, front);
      LastIsPlain(s, events, k, last, idOf, noOf);
      var plain := Plainly(front);
      if Plainly(steps) != plain {
        var step := Plainly(steps)[|plain|];
        assert Plainly(steps) == plain + [step] && (plain + [step])[..|plain|] == plain;
        forall i | 0 <= i <= |plain| ensures Allowed(s, Runs(s, (plain + [step])[..i]), (plain + [step])[i]) {
          if i < |plain| { assert (plain + [step])[..i] == plain[..i]; }
        }
      }
    }
  }

  lemma LastIsPlain(s: Source, events: Events, k: Lake, step: LoanStep, idOf: string -> string, noOf: string -> string)
    requires Fixed(events, idOf, noOf) && StagesLoans(s, events, idOf, noOf) && VaultOk(k.vault, idOf, noOf)
    requires AllowedStep(s, k, step) && KnownStep(events, k, step)
    ensures match step
            case Plain(inner) => NextLake(s, events, k, step).pipe == Next(s, k.pipe, inner)
                && Allowed(s, k.pipe, inner)
            case LoanLoad(run) =>
              && NextLake(s, events, k, step).pipe == Next(s, k.pipe, LoadStep(run, V.LOAN_EFFECTIVITY))
              && Allowed(s, k.pipe, LoadStep(run, V.LOAN_EFFECTIVITY))
            case _ => NextLake(s, events, k, step).pipe == k.pipe
  {
    hide Fixed, StagesLoans, VaultOk, KnownStep, L.WithHub, L.LoadLinks, LoadLoans, Next, MayLoad, Admissible;
    StepIsPlain(s, events, k, step, idOf, noOf);
  }

  // ---------------------------------------------------------------- what the data must bring

  /** The events of a created batch. */
  function BatchAt(events: Events, db: Db, i: nat): L.Batch
    requires i < |db.created|
  {
    if db.created[i] in db.batches then EventsOf(events, db.batches[db.created[i]].sha.payload.objects)
    else L.Batch([], [], {})
  }

  predicate PublishedAt(db: Db, i: nat)
    requires i < |db.created|
  {
    db.created[i] in db.batches && db.batches[db.created[i]].state == PUBLISHED
  }

  /** A batch up to i, i itself or one published before it, holds an image of the application that inserts it. */
  ghost predicate InsertedAt(events: Events, db: Db, i: nat, id: string)
    requires i < |db.created|
  {
    exists j, c :: 0 <= j <= i && (j == i || PublishedAt(db, j)) && c in BatchAt(events, db, j).apps
      && c.applicationId == id && !c.deleted
  }

  /** Sealed batches show an application inserted before they show it changed or deleted. */
  ghost predicate AppsInsertedFirst(events: Events, db: Db) {
    forall i: nat, a | i < |db.created| && a in BatchAt(events, db, i).apps ::
        InsertedAt(events, db, i, a.applicationId)
  }

  /** A batch published before i holds an event of the loan. */
  ghost predicate SeenBefore(events: Events, db: Db, i: nat, loan: string)
    requires i < |db.created|
  {
    exists j, f :: 0 <= j < i && PublishedAt(db, j) && f in BatchAt(events, db, j).loans && f.loan == loan
  }

  ghost predicate Keeps(b: L.Batch, loan: string, id: string) {
    L.Opens(b, loan) && L.Decides(b, id)
  }

  /** A sealed batch holding an event of a loan that no published batch has shown opens it and holds its application. */
  ghost predicate LoansKept(events: Events, db: Db, idOf: string -> string) {
    forall i: nat, e | i < |db.created| && e in BatchAt(events, db, i).loans ::
      Keeps(BatchAt(events, db, i), e.loan, idOf(e.loan)) || SeenBefore(events, db, i, e.loan)
  }

  ghost predicate DataOk(events: Events, db: Db, idOf: string -> string) {
    AppsInsertedFirst(events, db) && LoansKept(events, db, idOf)
  }

  // ---------------------------------------------------------------- the conditions hold of every earlier state

  /** Batches created before the last one are finished for good, and batches keep their events. */
  ghost predicate Extends(before: Db, after: Db) {
    && before.created <= after.created
    && (forall i: nat | i < |before.created| ::
         before.created[i] in before.batches && before.created[i] in after.batches
          && after.batches[before.created[i]].sha == before.batches[before.created[i]].sha)
    && (forall i: nat | i + 1 < |before.created| ::
          after.batches[before.created[i]].state == before.batches[before.created[i]].state)
  }

  lemma StepExtends(w: World, op: Op)
    requires Inv(w)
    ensures Extends(w.db, Apply(w, op).db)
  {
    StepSettles(w, op);
    hide Apply, IdsOk, LogsOk, AttemptsOk, RunningOk, SuccessOk, EvidenceOk, AuditsOk, FilesOk, StoreOk, ChainOk;
    hide BoundariesOk, UnfinishedIsLast, HistoryGrows, BatchesSettle, StoreGrows, AttemptsSettle, AuditsStay;
    SettledExtends(w.db, Apply(w, op).db);
  }

  lemma SettledExtends(before: Db, after: Db)
    requires IdsOk(before) && UnfinishedIsLast(before) && HistoryGrows(before, after) && BatchesSettle(before, after)
    ensures Extends(before, after)
  {
    hide LogPath;
    forall i: nat | i + 1 < |before.created| ensures !IsUnfinished(before.batches[before.created[i]]) {
      assert before.created[i] != before.created[|before.created| - 1];
    }
  }

  lemma EarlierBatch(events: Events, before: Db, after: Db, i: nat)
    requires Extends(before, after) && i < |before.created|
    ensures BatchAt(events, after, i) == BatchAt(events, before, i)
    ensures i + 1 < |before.created| ==> (PublishedAt(after, i) <==> PublishedAt(before, i))
  {
  }

  lemma EarlierCreated(before: Db, after: Db)
    requires Extends(before, after)
    ensures |before.created| <= |after.created|
  {
  }

  lemma DataWasOk(events: Events, before: Db, after: Db, idOf: string -> string)
    requires Extends(before, after) && DataOk(events, after, idOf)
    ensures DataOk(events, before, idOf)
  {
    hide EventsOf, Keeps, BatchAt, PublishedAt, Extends;
    EarlierCreated(before, after);
    forall i: nat | i < |before.created| ensures BatchAt(events, after, i) == BatchAt(events, before, i) {
      EarlierBatch(events, before, after, i);
    }
    forall i: nat, a | i < |before.created| && a in BatchAt(events, before, i).apps
      ensures InsertedAt(events, before, i, a.applicationId)
    {
      assert InsertedAt(events, after, i, a.applicationId);
      var j: nat, c :| 0 <= j <= i && (j == i || PublishedAt(after, j)) && c in BatchAt(events, after, j).apps
          && c.applicationId == a.applicationId && !c.deleted;
      EarlierBatch(events, before, after, j);
    }
    forall i: nat, e | i < |before.created| && e in BatchAt(events, before, i).loans
      ensures Keeps(BatchAt(events, before, i), e.loan, idOf(e.loan)) || SeenBefore(events, before, i, e.loan)
    {
      if !Keeps(BatchAt(events, before, i), e.loan, idOf(e.loan)) {
        assert SeenBefore(events, after, i, e.loan);
        var j: nat, f :| 0 <= j < i && PublishedAt(after, j) && f in BatchAt(events, after, j).loans
            && f.loan == e.loan;
        EarlierBatch(events, before, after, j);
      }
    }
  }

  // ---------------------------------------------------------------- what an attempt leaves in the vault

  ghost predicate HubOf(events: Events, k: Lake, run: string) {
    var db := k.pipe.control.db;
    && run in db.attempts && db.attempts[run].batchId in db.batches
    && L.HubKeys(BatchOfRun(events, k.pipe, run)) <= k.vault.hub
    && KeysOfRun(events, k.pipe, run) <= k.keys
  }

  ghost predicate LinksOf(events: Events, k: Lake, run: string, idOf: string -> string) {
    && run in k.hubbed && HubOf(events, k, run)
    && forall loan | Keeps(BatchOfRun(events, k.pipe, run), loan, idOf(loan)) :: L.HasLink(k.vault.links, loan)
  }

  /** What the merges of the runs have left, and no effectivity is loaded without them. */
  ghost predicate CoreOk(events: Events, k: Lake, idOf: string -> string) {
    && (forall run | run in k.hubbed :: HubOf(events, k, run))
    && (forall run | run in k.linked :: LinksOf(events, k, run, idOf))
    && (forall run | run in k.pipe.loaded && V.LOAN_EFFECTIVITY in k.pipe.loaded[run] :: run in k.linked)
  }

  /** The events of a run stay. */
  ghost predicate RunsStay(db: Db, next: Db) {
    forall run | run in db.attempts && db.attempts[run].batchId in db.batches ::
      && run in next.attempts && next.attempts[run].batchId == db.attempts[run].batchId
      && db.attempts[run].batchId in next.batches
      && next.batches[db.attempts[run].batchId].sha == db.batches[db.attempts[run].batchId].sha
  }

  /** And the vault only grows. */
  ghost predicate Grows(k: Lake, after: Lake) {
    && RunsStay(k.pipe.control.db, after.pipe.control.db)
    && k.vault.hub <= after.vault.hub
    && (forall loan | L.HasLink(k.vault.links, loan) :: L.HasLink(after.vault.links, loan))
    && k.keys <= after.keys && k.hubbed <= after.hubbed
  }

  lemma SettledRunsStay(w: World, op: Op)
    requires Inv(w)
    ensures RunsStay(w.db, Apply(w, op).db)
  {
    StepSettles(w, op);
    hide Apply, Inv, StoreGrows, HistoryGrows, AuditsStay, SameEvidence;
  }

  lemma StepKeepsRuns(s: Source, events: Events, k: Lake, step: LoanStep)
    requires Inv(k.pipe.control)
    ensures RunsStay(k.pipe.control.db, NextLake(s, events, k, step).pipe.control.db)
  {
    hide Apply, Inv, L.WithHub, L.LoadLinks, LoadLoans, LoadOne, MayLoad, KeysIn;
    if step.Plain? && step.step.ControlStep? {
      SettledRunsStay(k.pipe.control, step.step.op);
      hide RunsStay;
    }
  }

  lemma StepGrows(s: Source, events: Events, k: Lake, step: LoanStep, idOf: string -> string, noOf: string -> string)
    requires Inv(k.pipe.control) && Fixed(events, idOf, noOf) && VaultOk(k.vault, idOf, noOf)
    ensures Grows(k, NextLake(s, events, k, step))
  {
    hide Next, Inv, RunsStay, L.WithHub, L.LoadLinks, L.HasLink, LoadLoans, MayLoad, VaultOk, Fixed, KeysIn;
    StepKeepsVault(s, events, k, step, idOf, noOf);
    StepKeepsRuns(s, events, k, step);
  }

  lemma GrownHub(events: Events, k: Lake, after: Lake, run: string)
    requires Grows(k, after) && HubOf(events, k, run)
    ensures HubOf(events, after, run)
  {
    hide EventsOf, KeysIn, L.HubKeys, L.HasLink;
  }

  lemma GrownLinks(events: Events, k: Lake, after: Lake, run: string, idOf: string -> string)
    requires Grows(k, after) && LinksOf(events, k, run, idOf)
    ensures LinksOf(events, after, run, idOf)
  {
    hide EventsOf, KeysIn, L.HubKeys, L.HasLink, Keeps;
    GrownHub(events, k, after, run);
  }

  lemma StepKeepsCore(s: Source, events: Events, k: Lake, step: LoanStep, idOf: string -> string,
                      noOf: string -> string)
    requires Inv(k.pipe.control) && Fixed(events, idOf, noOf) && VaultOk(k.vault, idOf, noOf)
    requires CoreOk(events, k, idOf) && AllowedStep(s, k, step)
    ensures CoreOk(events, NextLake(s, events, k, step), idOf)
  {
    hide NextLake, AllowedStep, Grows, HubOf, LinksOf, Inv, Fixed, VaultOk;
    StepGrows(s, events, k, step, idOf, noOf);
    NewHub(s, events, k, step);
    NewLinks(s, events, k, step, idOf, noOf);
    LoadedNeedsLinks(s, events, k, step);
    CoreOfGrown(events, k, NextLake(s, events, k, step), idOf);
  }

  lemma CoreOfGrown(events: Events, k: Lake, after: Lake, idOf: string -> string)
    requires CoreOk(events, k, idOf) && Grows(k, after)
    requires forall run | run in after.hubbed && run !in k.hubbed :: HubOf(events, after, run)
    requires forall run | run in after.linked && run !in k.linked :: LinksOf(events, after, run, idOf)
    requires forall run | run in after.pipe.loaded && V.LOAN_EFFECTIVITY in after.pipe.loaded[run] ::
               run in after.linked
    ensures CoreOk(events, after, idOf)
  {
    hide Grows, HubOf, LinksOf;
    forall run | run in after.hubbed ensures HubOf(events, after, run) {
      if run in k.hubbed { GrownHub(events, k, after, run); }
    }
    forall run | run in after.linked ensures LinksOf(events, after, run, idOf) {
      if run in k.linked { GrownLinks(events, k, after, run, idOf); }
    }
  }

  lemma NewHub(s: Source, events: Events, k: Lake, step: LoanStep)
    ensures var after := NextLake(s, events, k, step);
            forall run | run in after.hubbed && run !in k.hubbed :: HubOf(events, after, run)
  {
    hide Next, L.LoadLinks, LoadLoans, MayLoad, EventsOf, KeysIn, L.HubKeys;
  }

  /** A link merge links every loan it opens together with its application. */
  lemma NewLinks(s: Source, events: Events, k: Lake, step: LoanStep, idOf: string -> string, noOf: string -> string)
    requires Fixed(events, idOf, noOf) && VaultOk(k.vault, idOf, noOf)
    requires CoreOk(events, k, idOf) && AllowedStep(s, k, step)
    ensures var after := NextLake(s, events, k, step);
            forall run | run in after.linked && run !in k.linked :: LinksOf(events, after, run, idOf)
  {
    hide Next, L.LoadLinks, L.HasLink, L.Resolve, LoadLoans, MayLoad, EventsOf, KeysIn, L.HubKeys, Allowed;
    hide Hubs.OnePerKey;
    if step.LinkMerge? && Running(k.pipe, step.run) {
      var b := BatchOfRun(events, k.pipe, step.run);
      var objects := k.pipe.control.db.batches[k.pipe.control.db.attempts[step.run].batchId].sha.payload.objects;
      BatchIsImmutable(events, objects, idOf, noOf);
      L.CoreLinks(k.vault, b, idOf, noOf);
      LinksKeepHub(k.vault, b);
      assert HubOf(events, k, step.run);
      forall loan | Keeps(b, loan, idOf(loan)) ensures L.HasLink(L.LoadLinks(k.vault, b).links, loan) {
        var e :| e in b.loans && e.loan == loan && !e.deleted;
        L.ResolveIsFixed(e, b, k.vault, idOf, noOf);
      }
    }
  }

  lemma LoadedNeedsLinks(s: Source, events: Events, k: Lake, step: LoanStep)
    requires AllowedStep(s, k, step)
    requires forall run | run in k.pipe.loaded && V.LOAN_EFFECTIVITY in k.pipe.loaded[run] :: run in k.linked
    ensures var after := NextLake(s, events, k, step);
            forall run | run in after.pipe.loaded && V.LOAN_EFFECTIVITY in after.pipe.loaded[run] :: run in after.linked
  {
    hide Apply, Allowed, L.WithHub, L.LoadLinks, LoadLoans, LoadOne, MayLoad;
  }

  // ---------------------------------------------------------------- every load finds its applications

  /** A published batch went through an attempt that merged its links. */
  lemma PublishedIsLinked(s: Source, events: Events, k: Lake, id: string, idOf: string -> string) returns (run: string)
    requires Inv(k.pipe.control) && EvidenceMeansLoaded(s, k.pipe) && CoreOk(events, k, idOf)
             && V.LOAN_EFFECTIVITY in s.staging
    requires id in k.pipe.control.db.batches && k.pipe.control.db.batches[id].state == PUBLISHED
    ensures LinksOf(events, k, run, idOf) && k.pipe.control.db.attempts[run].batchId == id
  {
    hide IdsOk, UnfinishedIsLast, LogsOk, AttemptsOk, RunningOk, EvidenceOk, AuditsOk, FilesOk, StoreOk, ChainOk;
    hide BoundariesOk, HubOf, Keeps, L.HasLink, EventsOf;
    var db := k.pipe.control.db;
    run := SuccessfulRun(db, id);
    assert LoadSatellites in TasksOf(db, id, db.attempts[run].number);
  }

  /** The lake in a state whose published batches went through their merges and loads. */
  ghost predicate LakeOk(s: Source, events: Events, k: Lake, idOf: string -> string) {
    && Inv(k.pipe.control) && EvidenceMeansLoaded(s, k.pipe) && CoreOk(events, k, idOf)
    && V.LOAN_EFFECTIVITY in s.staging && DataOk(events, k.pipe.control.db, idOf)
  }

  /** A loan some published batch has shown has a stored link, and its application is in the hub. */
  lemma {:induction false} SeenLoanIsKnown(s: Source, events: Events, k: Lake, i: nat, f: L.LoanEvent,
                                           idOf: string -> string, noOf: string -> string)
    requires LakeOk(s, events, k, idOf) && Fixed(events, idOf, noOf)
    requires var db := k.pipe.control.db;
             i < |db.created| && PublishedAt(db, i) && f in BatchAt(events, db, i).loans
    ensures L.HasLink(k.vault.links, f.loan) && noOf(idOf(f.loan)) in k.vault.hub
    decreases i
  {
    hide Inv, EvidenceMeansLoaded, CoreOk, Fixed, L.HasLink, EventsOf;
    var db, b := k.pipe.control.db, BatchAt(events, k.pipe.control.db, i);
    if Keeps(b, f.loan, idOf(f.loan)) {
      var run := PublishedIsLinked(s, events, k, db.created[i], idOf);
      var a :| a in b.apps && a.applicationId == idOf(f.loan);
      AppIsInHub(s, events, k, i, a, idOf, noOf);
    } else {
      assert SeenBefore(events, db, i, f.loan);
      var j: nat, g :| 0 <= j < i && PublishedAt(db, j) && g in BatchAt(events, db, j).loans && g.loan == f.loan;
      SeenLoanIsKnown(s, events, k, j, g, idOf, noOf);
    }
  }

  lemma AppIsInHub(s: Source, events: Events, k: Lake, i: nat, a: L.AppEvent, idOf: string -> string,
                   noOf: string -> string)
    requires LakeOk(s, events, k, idOf) && Fixed(events, idOf, noOf)
    requires var db := k.pipe.control.db;
             i < |db.created| && PublishedAt(db, i) && a in BatchAt(events, db, i).apps
    ensures noOf(a.applicationId) in k.vault.hub
  {
    hide Inv, EvidenceMeansLoaded, CoreOk, L.HasLink, EventsOf, LoansKept, Fixed;
    var db := k.pipe.control.db;
    assert InsertedAt(events, db, i, a.applicationId);
    var j: nat, c :| 0 <= j <= i && (j == i || PublishedAt(db, j)) && c in BatchAt(events, db, j).apps
        && c.applicationId == a.applicationId && !c.deleted;
    var run := PublishedIsLinked(s, events, k, db.created[j], idOf);
    BatchIsImmutable(events, db.batches[db.created[j]].sha.payload.objects, idOf, noOf);
    assert c.applicationNo in L.HubKeys(BatchAt(events, db, j));
  }

  /** Behind its merges, an attempt finds the application of every loan event of its batch. */
  lemma LoadFindsApplications(s: Source, events: Events, k: Lake, run: string, idOf: string -> string,
                              noOf: string -> string)
    requires LakeOk(s, events, k, idOf) && Fixed(events, idOf, noOf) && VaultOk(k.vault, idOf, noOf)
    requires Running(k.pipe, run)
    ensures AllKnown(BatchOfRun(events, k.pipe, run), k.vault)
  {
    hide EvidenceMeansLoaded, CoreOk, L.HasLink, L.Resolve, EventsOf, Fixed, VaultOk, AppsInsertedFirst, Inv;
    ActiveIsLatest(k.pipe.control, run);
    var db := k.pipe.control.db;
    var n: nat := |db.created| - 1;
    var b := BatchAt(events, db, n);
    BatchIsImmutable(events, db.batches[db.created[n]].sha.payload.objects, idOf, noOf);
    forall e | e in b.loans ensures L.Resolve(e, b.apps, k.vault).Some? {
      if !Keeps(b, e.loan, idOf(e.loan)) {
        assert SeenBefore(events, db, n, e.loan);
        var j: nat, f :| 0 <= j < n && PublishedAt(db, j) && f in BatchAt(events, db, j).loans && f.loan == e.loan;
        SeenLoanIsKnown(s, events, k, j, f, idOf, noOf);
      }
      assert VaultOk(k.vault, idOf, noOf);
      FoundApplication(e, b, k.vault, idOf, noOf);
    }
  }

  lemma FoundApplication(e: L.LoanEvent, b: L.Batch, v: L.Vault, idOf: string -> string, noOf: string -> string)
    requires L.Immutable(b, idOf, noOf) && VaultOk(v, idOf, noOf) && e in b.loans
    requires Keeps(b, e.loan, idOf(e.loan)) || (L.HasLink(v.links, e.loan) && noOf(idOf(e.loan)) in v.hub)
    ensures L.Resolve(e, b.apps, v).Some?
  {
    L.ResolveIsFixed(e, b, v, idOf, noOf);
    hide L.Resolve;
  }

  // ---------------------------------------------------------------- along a run

  /** The control plane of a lake's run keeps its invariant, whatever the loads find. */
  lemma {:induction false} LakeControl(s: Source, events: Events, steps: seq<LoanStep>)
    requires AllowedLake(s, events, steps)
    ensures Inv(LakeRuns(s, events, steps).pipe.control)
  {
    hide Inv, Apply, Admissible, AllowedLake, AllowedStep, NextLake;
    if steps == [] {
      EmptyWorldInv();
    } else {
      FrontIsAllowed(s, events, steps);
      LakeControl(s, events, steps[..|steps| - 1]);
      StepControl(s, events, LakeRuns(s, events, steps[..|steps| - 1]), steps[|steps| - 1]);
    }
  }

  lemma StepControl(s: Source, events: Events, k: Lake, step: LoanStep)
    requires Inv(k.pipe.control) && AllowedStep(s, k, step)
    ensures Inv(NextLake(s, events, k, step).pipe.control)
    ensures Extends(k.pipe.control.db, NextLake(s, events, k, step).pipe.control.db)
  {
    hide Inv, Apply, Admissible, Extends, L.WithHub, L.LoadLinks, LoadLoans, LoadOne, MayLoad;
    if step.Plain? && step.step.ControlStep? {
      StepKeepsInv(k.pipe.control, step.step.op);
      StepExtends(k.pipe.control, step.step.op);
    } else {
      SameExtends(k.pipe.control);
    }
  }

  lemma SameExtends(w: World)
    requires Inv(w)
    ensures Extends(w.db, w.db)
  {
    InvHasIds(w);
    hide Inv;
  }

  /**
   If the sealed batches show applications inserted first and each loan first together with its
   application, every effectivity load of the run finds all its applications.
   */
  lemma {:induction false} EveryLoadFindsItsApplications(s: Source, events: Events, steps: seq<LoanStep>,
                                                         idOf: string -> string, noOf: string -> string)
    requires SourceOk(s) && LedgerControl.LedgerOk(s.history.ledger)
    requires Fixed(events, idOf, noOf) && StagesLoans(s, events, idOf, noOf) && AllowedLake(s, events, steps)
    requires DataOk(events, LakeRuns(s, events, steps).pipe.control.db, idOf)
    ensures KnownLake(s, events, steps) && CoreOk(events, LakeRuns(s, events, steps), idOf)
  {
    hide SourceOk, Fixed, StagesLoans, AllowedLake, AllowedStep, DataOk, NextLake, KnownStep, CoreOk, Inv, VaultOk;
    if steps == [] {
      EmptyCore(s, events, idOf);
    } else {
      var front, last := steps[..|steps| - 1], steps[|steps| - 1];
      var k := LakeRuns(s, events, front);
      FrontIsAllowed(s, events, steps);
      LakeControl(s, events, front);
      StepControl(s, events, k, last);
      DataWasOk(events, k.pipe.control.db, LakeRuns(s, events, steps).pipe.control.db, idOf);
      EveryLoadFindsItsApplications(s, events, front, idOf, noOf);
      ReachableVault(s, events, front, idOf, noOf);
      StepKeepsCore(s, events, k, last, idOf, noOf);
      LastIsKnown(s, events, front, last, idOf, noOf);
      forall i | 0 <= i < |steps| ensures KnownStep(events, LakeRuns(s, events, steps[..i]), steps[i]) {
        if i < |front| { assert front[..i] == steps[..i] && front[i] == steps[i]; }
      }
    }
  }

  lemma EmptyCore(s: Source, events: Events, idOf: string -> string)
    ensures CoreOk(events, LakeRuns(s, events, []), idOf)
  {
  }

  lemma LastIsKnown(s: Source, events: Events, front: seq<LoanStep>, last: LoanStep, idOf: string -> string,
                    noOf: string -> string)
    requires SourceOk(s) && LedgerControl.LedgerOk(s.history.ledger)
    requires Fixed(events, idOf, noOf) && StagesLoans(s, events, idOf, noOf) && AllowedLake(s, events, front)
    requires KnownLake(s, events, front) && CoreOk(events, LakeRuns(s, events, front), idOf)
    requires DataOk(events, LakeRuns(s, events, front).pipe.control.db, idOf)
    ensures KnownStep(events, LakeRuns(s, events, front), last)
  {
    hide SourceOk, Fixed, StagesLoans, AllowedLake, KnownLake, DataOk, LakeRuns, CoreOk, LakeOk, VaultOk, AllKnown;
    hide PipeInv;
    if last.LoanLoad? && Running(LakeRuns(s, events, front).pipe, last.run) {
      KnownLakeIsOk(s, events, front, idOf, noOf);
      LoadFindsApplications(s, events, LakeRuns(s, events, front), last.run, idOf, noOf);
    }
  }

  /** A run whose loads found their applications is a run of the pipeline, and keeps its invariant. */
  lemma KnownLakeIsOk(s: Source, events: Events, steps: seq<LoanStep>, idOf: string -> string, noOf: string -> string)
    requires SourceOk(s) && LedgerControl.LedgerOk(s.history.ledger)
    requires Fixed(events, idOf, noOf) && StagesLoans(s, events, idOf, noOf) && AllowedLake(s, events, steps)
    requires KnownLake(s, events, steps) && CoreOk(events, LakeRuns(s, events, steps), idOf)
    requires DataOk(events, LakeRuns(s, events, steps).pipe.control.db, idOf)
    ensures var k := LakeRuns(s, events, steps);
            LakeOk(s, events, k, idOf) && PipeInv(s, k.pipe) && VaultOk(k.vault, idOf, noOf)
  {
    hide SourceOk, Fixed, AllowedLake, KnownLake, DataOk, LakeRuns, CoreOk, Inv, VaultOk, Allowed;
    LakeIsPipeline(s, events, steps, idOf, noOf);
    ReachablePipe(s, Plainly(steps));
    hide Runs, StagesLoans, Publication.SealedIn, Frontier, TablesOk, EvidenceMeansLoaded;
    ReachableVault(s, events, steps, idOf, noOf);
    EffectivityIsStaged(s, events, idOf, noOf);
  }

  lemma EffectivityIsStaged(s: Source, events: Events, idOf: string -> string, noOf: string -> string)
    requires StagesLoans(s, events, idOf, noOf)
    ensures V.LOAN_EFFECTIVITY in s.staging
  {
  }

  /**
   After any interleaving of creations, hub and link merges, loads, crashes, retries, supersessions and
   publications in which each attempt merges its hub and links before it loads its loan effectivity, over
   batches that show applications inserted first and each loan first together with its application: when
   the last created batch is published, every satellite, sat_loan_context_effectivity included, is the
   rebuild over all Bronze events up to the published highs, each loan event under the number of its loan.
   */
  lemma PublishedLakeIsRebuild(s: Source, events: Events, steps: seq<LoanStep>, t: string,
                               idOf: string -> string, noOf: string -> string)
    requires SourceOk(s) && LedgerControl.LedgerOk(s.history.ledger) && t in s.staging
    requires Fixed(events, idOf, noOf) && StagesLoans(s, events, idOf, noOf) && AllowedLake(s, events, steps)
    requires var db := LakeRuns(s, events, steps).pipe.control.db;
             && AppsInsertedFirst(events, db) && LoansKept(events, db, idOf)
             && db.created != [] && LatestId(db) in db.batches && db.batches[LatestId(db)].state == PUBLISHED
    ensures var p := LakeRuns(s, events, steps).pipe;
            t in p.tables && Project(p.tables[t]) == Rebuild(s, p.control.db, t)
  {
    hide Fixed, StagesLoans, AllowedLake, KnownLake, Allowed, LakeRuns, Runs, SourceOk, Rebuild, AppsInsertedFirst;
    hide LoansKept, CoreOk;
    EveryLoadFindsItsApplications(s, events, steps, idOf, noOf);
    LakeIsPipeline(s, events, steps, idOf, noOf);
    PublishedVaultIsRebuild(s, Plainly(steps), t);
  }
}
