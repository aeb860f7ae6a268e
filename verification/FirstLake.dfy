/** The first batch again, with its hub, link and loan effectivity tasks: a lake whose run ends published. */
module FirstLake {
  import opened Control
  import opened ControlInvariant
  import opened RawVault
  import opened LoanPipeline
  import opened FirstBatch
  import LedgerControl
  import Manifest
  import P = Pipeline
  import L = LoanContext
  import V = VaultTables

  const NO_EVENTS := Events(map[], map[], map[], map[])

  function Lift(ops: seq<Op>): seq<LoanStep> {
    seq(|ops|, i requires 0 <= i < |ops| => LoanStep.Plain(P.ControlStep(ops[i])))
  }

  /** Control steps, the merges of the hub and the links, the effectivity load, and the other control steps. */
  function LakeSteps(first: seq<Op>, rest: seq<Op>): seq<LoanStep> {
    Lift(first) + [HubMerge("run"), LinkMerge("run"), LoanLoad("run")] + Lift(rest)
  }

  lemma {:induction false} PlainlyConcat(a: seq<LoanStep>, b: seq<LoanStep>)
    ensures Plainly(a + b) == Plainly(a) + Plainly(b)
  {
    if b == [] {
      assert a + b == a;
    } else {
      PlainlyConcat(a, b[..|b| - 1]);
      assert (a + b)[..|a + b| - 1] == a + b[..|b| - 1];
    }
  }

  lemma {:induction false} PlainlyOfLift(ops: seq<Op>)
    ensures Plainly(Lift(ops)) == FirstBatch.Plain(ops)
  {
    if ops != [] {
      PlainlyOfLift(ops[..|ops| - 1]);
      assert Lift(ops)[..|ops| - 1] == Lift(ops[..|ops| - 1]);
    }
  }

  lemma PlainlyOfSteps(first: seq<Op>, rest: seq<Op>)
    ensures Plainly(LakeSteps(first, rest)) == Steps(first, rest)
  {
    var tasks := [HubMerge("run"), LinkMerge("run"), LoanLoad("run")];
    PlainlyOfLift(first);
    PlainlyOfLift(rest);
    PlainlyConcat(Lift(first), tasks);
    PlainlyConcat(Lift(first) + tasks, Lift(rest));
    assert tasks[..2] == [HubMerge("run"), LinkMerge("run")] && tasks[..2][..1] == [HubMerge("run")];
    assert [HubMerge("run")][..0] == [];
    assert Plainly(tasks) == [P.LoadStep("run", SAT)];
  }

  /** Without events every effectivity load stages nothing, as the pipeline does. */
  lemma {:induction false} EmptyLakeIsPipeline(steps: seq<LoanStep>)
    ensures LakeRuns(SOURCE, NO_EVENTS, steps).pipe == P.Runs(SOURCE, Plainly(steps))
  {
    hide Apply, LoadBounded, L.WithHub, L.LoadLinks;
    if steps != [] {
      var front, last := steps[..|steps| - 1], steps[|steps| - 1];
      EmptyLakeIsPipeline(front);
      var k := LakeRuns(SOURCE, NO_EVENTS, front);
      if last.LoanLoad? && P.MayLoad(SOURCE, k.pipe, last.run, SAT) { EmptyRows(k, last.run); }
      var plain := Plainly(front);
      if Plainly(steps) != plain { assert Plainly(steps)[..|plain|] == plain; }
    }
  }

  lemma EmptyRows(k: Lake, run: string)
    requires P.MayLoad(SOURCE, k.pipe, run, SAT)
    ensures LoadLoans(NO_EVENTS, k, run) == P.LoadOne(SOURCE, k.pipe, run, SAT)
  {
    var objects := k.pipe.control.db.batches[k.pipe.control.db.attempts[run].batchId].sha.payload.objects;
    DecodedExact(NO_EVENTS.loans, objects);
    assert V.EffectivityRows(BatchOfRun(NO_EVENTS, k.pipe, run), k.vault) == {};
    assert P.Staged(SOURCE.staging[SAT], objects) == {};
    hide LoadBounded;
  }

  const FIRST := [OpCreate(INPUT, false), OPS[0]]
  const REST := OPS[1..]
  const LAKE := LakeSteps(FIRST, REST)

  /** Each plain step of the lake is a step of the pipeline run, in the same state. */
  lemma PlainStepIsAllowed(i: nat)
    requires i < 2 || 5 <= i < |LAKE|
    ensures i < |LAKE| && LAKE[i].Plain? && !LAKE[i].step.LoadStep?
    ensures P.Allowed(SOURCE, LakeRuns(SOURCE, NO_EVENTS, LAKE[..i]).pipe, LAKE[i].step)
  {
    hide LakeRuns, P.Runs, P.Allowed, OPS;
    AllowedSteps();
    EmptyLakeIsPipeline(LAKE[..i]);
    if i < 2 {
      assert LAKE[..i] == Lift(FIRST[..i]) && Steps(FIRST, REST)[..i] == FirstBatch.Plain(FIRST[..i]);
      PlainlyOfLift(FIRST[..i]);
      assert LAKE[i] == LoanStep.Plain(Steps(FIRST, REST)[i]);
    } else {
      assert LAKE[..i] == LakeSteps(FIRST, REST[..i - 5]);
      PlainlyOfSteps(FIRST, REST[..i - 5]);
      assert Steps(FIRST, REST)[..i - 2] == Steps(FIRST, REST[..i - 5]);
      assert LAKE[i] == LoanStep.Plain(Steps(FIRST, REST)[i - 2]);
    }
  }

  /** The attempt runs while it merges its hub and its links. */
  lemma MergesHappen()
    ensures "run" in LakeRuns(SOURCE, NO_EVENTS, LAKE[..3]).hubbed
    ensures "run" in LakeRuns(SOURCE, NO_EVENTS, LAKE[..4]).linked
  {
    hide LakeRuns, P.Runs, OPS;
    LoadsSatellite();
    EmptyLakeIsPipeline(LAKE[..2]);
    PlainlyOfLift(FIRST);
    assert LAKE[..2] == Lift(FIRST);
    MergeStep(2);
    MergeStep(3);
  }

  lemma MergeStep(n: nat)
    requires 2 <= n <= 3
    ensures var k := LakeRuns(SOURCE, NO_EVENTS, LAKE[..n]);
            && n < |LAKE| && LakeRuns(SOURCE, NO_EVENTS, LAKE[..n + 1]) == NextLake(SOURCE, NO_EVENTS, k, LAKE[n])
            && LAKE[n] == (if n == 2 then HubMerge("run") else LinkMerge("run"))
            && LakeRuns(SOURCE, NO_EVENTS, LAKE[..n + 1]).pipe == k.pipe
  {
    assert LAKE[..n + 1][..n] == LAKE[..n];
    hide L.WithHub, L.LoadLinks, OPS;
  }

  lemma LakeIsAllowed()
    ensures AllowedLake(SOURCE, NO_EVENTS, LAKE)
  {
    hide LakeRuns, P.Allowed, OPS;
    MergesHappen();
    forall i: nat | i < |LAKE| ensures AllowedStep(SOURCE, LakeRuns(SOURCE, NO_EVENTS, LAKE[..i]), LAKE[i]) {
      if i < 2 || i >= 5 {
        PlainStepIsAllowed(i);
      }
    }
  }

  /** The hypotheses of the lake theorems are met by a run that merges, loads and ends published. */
  lemma SomeLakeRunPublishes()
    ensures exists s, events, steps, idOf, noOf ::
              && P.SourceOk(s) && LedgerControl.LedgerOk(s.history.ledger)
              && Fixed(events, idOf, noOf) && StagesLoans(s, events, idOf, noOf) && AllowedLake(s, events, steps)
              && var db := LakeRuns(s, events, steps).pipe.control.db;
                 && AppsInsertedFirst(events, db) && LoansKept(events, db, idOf)
                 && db.created != [] && P.LatestId(db) in db.batches && db.batches[P.LatestId(db)].state == PUBLISHED
  {
    hide LakeRuns, P.Runs, AllowedLake, Run, P.SourceOk, LedgerControl.LedgerOk, P.Allowed;
    AllowedSteps();
    LakeIsAllowed();
    PublishedEnd();
    EmptyLakeIsPipeline(LAKE);
    PlainlyOfSteps(FIRST, REST);
    OpsOfSteps(FIRST, REST);
    assert FIRST + REST == [OpCreate(INPUT, false)] + OPS;
    ControlOf(SOURCE, Steps(FIRST, REST));
    var same: string -> string := x => x;
    NoEventsAreOk(LakeRuns(SOURCE, NO_EVENTS, LAKE).pipe.control.db, same);
    assert Fixed(NO_EVENTS, same, same) && StagesLoans(SOURCE, NO_EVENTS, same, same);
  }

  lemma NoEventsAreOk(db: Db, idOf: string -> string)
    ensures AppsInsertedFirst(NO_EVENTS, db) && LoansKept(NO_EVENTS, db, idOf)
  {
    forall i: nat | i < |db.created|
      ensures BatchAt(NO_EVENTS, db, i).apps == [] && BatchAt(NO_EVENTS, db, i).loans == []
    {
      NothingDecoded(if db.created[i] in db.batches then db.batches[db.created[i]].sha.payload.objects else []);
    }
  }

  lemma {:induction false} NothingDecoded(objects: seq<Manifest.BronzeObject>)
    ensures Decoded(NO_EVENTS.apps, objects) == [] && Decoded(NO_EVENTS.loans, objects) == []
  {
    if objects != [] { NothingDecoded(objects[..|objects| - 1]); }
  }
}
