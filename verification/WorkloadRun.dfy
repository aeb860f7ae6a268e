/** What an invocation of the workload leaves: ledger rows, run row and exit code, and what each action changes. */
module WorkloadRun {
  import opened Wrappers
  import opened Ledger
  import opened Workload

  predicate HasStatus(s: Source, run: string, key: string, status: Status) {
    (run, key) in s.ledger && s.ledger[(run, key)].status == status
  }

  // ---------------------------------------------------------------- one scenario

  /** Everything but the ledger row of the scenario and the commits stays. */
  predicate TouchesOnly(s: Source, after: Source, run: string, key: string) {
    && after.runs == s.runs && s.commits <= after.commits
    && after.ledger.Keys == s.ledger.Keys + {(run, key)}
    && forall k | k in s.ledger && k != (run, key) :: after.ledger[k] == s.ledger[k]
  }

  /**
   A completed scenario is skipped. Any other either commits its changes with a COMPLETED row that
   counts them and names the commit, or leaves a FAILED row: without a commit if its action raises,
   behind the commit if only its log line does.
   */
  lemma ExecutingAScenario(s: Source, run: string, t: Turn)
    ensures var (after, ok) := Perform(s, run, t);
            if HasStatus(s, run, t.key, COMPLETED) then after == s && ok == t.logged else
            && TouchesOnly(s, after, run, t.key)
            && (ok <==> t.outcome.Some? && t.logged)
            && after.ledger[(run, t.key)].status == (if ok then COMPLETED else FAILED)
            && (t.outcome.None? ==> after.commits == s.commits)
            && (t.outcome.Some? ==>
                  && after.commits == s.commits + [Commit(run, t.key, t.outcome.value.changes)]
                  && after.ledger[(run, t.key)].expected == Some(t.outcome.value.count)
                  && after.ledger[(run, t.key)].txid == Some(|s.commits|))
            && (t.outcome.None? && (run, t.key) in s.ledger ==>
                  && after.ledger[(run, t.key)].expected == s.ledger[(run, t.key)].expected
                  && after.ledger[(run, t.key)].txid == s.ledger[(run, t.key)].txid)
  {
  }

  // ---------------------------------------------------------------- the scenarios of a run

  /** The i-th turn raises nothing: its log line succeeds, and its action does or the scenario is completed by then. */
  ghost predicate Quiet(s: Source, run: string, turns: seq<Turn>, i: nat)
    requires i < |turns|
  {
    && turns[i].logged
    && (|| turns[i].outcome.Some? || HasStatus(s, run, turns[i].key, COMPLETED)
        || exists j :: 0 <= j < i && turns[j].key == turns[i].key)
  }

  ghost predicate AllQuiet(s: Source, run: string, turns: seq<Turn>) {
    forall i | 0 <= i < |turns| :: Quiet(s, run, turns, i)
  }

  ghost predicate HasTurn(turns: seq<Turn>, key: string) {
    exists i :: 0 <= i < |turns| && turns[i].key == key
  }

  /** Rows of other runs and of scenarios without a turn stay, and new commits are those of turns. */
  ghost predicate OnlyTurns(s: Source, after: Source, run: string, turns: seq<Turn>) {
    && after.runs == s.runs && s.commits <= after.commits && s.ledger.Keys <= after.ledger.Keys
    && (forall k | k in after.ledger && !(k.0 == run && HasTurn(turns, k.1)) ::
          k in s.ledger && after.ledger[k] == s.ledger[k])
    && (forall c | |s.commits| <= c < |after.commits| :: CommitOfTurn(run, turns, after.commits[c]))
  }

  ghost predicate CommitOfTurn(run: string, turns: seq<Turn>, c: Commit) {
    exists i :: 0 <= i < |turns| && turns[i].outcome.Some?
        && c == Commit(run, turns[i].key, turns[i].outcome.value.changes)
  }

  /** The scenarios that are completed behind a run of quiet turns. */
  ghost predicate CompletesTurns(s: Source, after: Source, run: string, turns: seq<Turn>) {
    forall key :: HasStatus(after, run, key, COMPLETED) <==> HasStatus(s, run, key, COMPLETED) || HasTurn(turns, key)
  }

  lemma TurnAppends(turns: seq<Turn>, key: string)
    requires turns != []
    ensures HasTurn(turns, key) <==> HasTurn(turns[..|turns| - 1], key) || turns[|turns| - 1].key == key
  {
    var front := turns[..|turns| - 1];
    if HasTurn(front, key) {
      var i :| 0 <= i < |front| && front[i].key == key;
      assert turns[i].key == key;
    }
    if i :| 0 <= i < |turns| && turns[i].key == key && i < |front| {
      assert front[i].key == key;
    }
  }

  lemma QuietPrefix(s: Source, run: string, turns: seq<Turn>, n: nat)
    requires n <= |turns|
    ensures AllQuiet(s, run, turns[..n]) <==> forall i | 0 <= i < n :: Quiet(s, run, turns, i)
  {
    forall i | 0 <= i < n ensures Quiet(s, run, turns[..n], i) <==> Quiet(s, run, turns, i) {
      assert forall j | 0 <= j < i :: turns[..n][j] == turns[j];
    }
  }

  /** A run performs its scenarios up to the first that raises; it raises nowhere if and only if every turn is quiet. */
  lemma {:induction false} ExecutingTheScenarios(s: Source, run: string, turns: seq<Turn>)
    ensures var (after, ok) := PerformAll(s, run, turns);
            && (ok <==> AllQuiet(s, run, turns))
            && OnlyTurns(s, after, run, turns)
            && (ok ==> CompletesTurns(s, after, run, turns))
  {
    hide Perform, Quiet, OnlyTurns, CompletesTurns;
    if turns == [] {
      NothingPerformed(s, run);
    } else {
      var n := |turns| - 1;
      var front, t := turns[..n], turns[n];
      ExecutingTheScenarios(s, run, front);
      var (before, ok) := PerformAll(s, run, front);
      QuietPrefix(s, run, turns, n);
      OnlyTurnsGrows(s, before, run, turns);
      if ok {
        LastTurnDecides(s, before, run, turns);
        TurnExtends(s, before, run, turns);
      }
    }
  }

  lemma NothingPerformed(s: Source, run: string)
    ensures OnlyTurns(s, s, run, []) && CompletesTurns(s, s, run, [])
  {
  }

  lemma LastTurnDecides(s: Source, before: Source, run: string, turns: seq<Turn>)
    requires turns != [] && CompletesTurns(s, before, run, turns[..|turns| - 1])
    ensures var (after, ok) := Perform(before, run, turns[|turns| - 1]);
            (ok <==> Quiet(s, run, turns, |turns| - 1)) && (ok ==> CompletesTurns(s, after, run, turns))
  {
    var n := |turns| - 1;
    var front, t := turns[..n], turns[n];
    ExecutingAScenario(before, run, t);
    PerformKeepsRows(before, run, t);
    hide Perform;
    assert HasStatus(before, run, t.key, COMPLETED) <==> HasStatus(s, run, t.key, COMPLETED) || HasTurn(front, t.key);
    assert HasTurn(front, t.key) <==> exists j :: 0 <= j < n && turns[j].key == t.key by {
      if HasTurn(front, t.key) {
        var j :| 0 <= j < n && front[j].key == t.key;
        assert turns[j].key == t.key;
      }
      if j :| 0 <= j < n && turns[j].key == t.key { assert front[j].key == t.key; }
    }
    forall key ensures HasTurn(turns, key) <==> HasTurn(front, key) || t.key == key { TurnAppends(turns, key); }
  }

  lemma PerformKeepsRows(s: Source, run: string, t: Turn)
    ensures var (after, ok) := Perform(s, run, t);
            ok ==> forall key :: HasStatus(after, run, key, COMPLETED)
                                 <==> HasStatus(s, run, key, COMPLETED) || key == t.key
  {
  }

  lemma OnlyTurnsGrows(s: Source, before: Source, run: string, turns: seq<Turn>)
    requires turns != [] && OnlyTurns(s, before, run, turns[..|turns| - 1])
    ensures OnlyTurns(s, before, run, turns)
  {
    var front := turns[..|turns| - 1];
    forall k | k in before.ledger && !(k.0 == run && HasTurn(turns, k.1))
      ensures k in s.ledger && before.ledger[k] == s.ledger[k]
    {
      TurnAppends(turns, k.1);
    }
    forall c | |s.commits| <= c < |before.commits| ensures CommitOfTurn(run, turns, before.commits[c]) {
      assert CommitOfTurn(run, front, before.commits[c]);
      var i :| 0 <= i < |front| && front[i].outcome.Some?
               && before.commits[c] == Commit(run, front[i].key, front[i].outcome.value.changes);
      assert turns[i] == front[i];
    }
  }

  lemma TurnExtends(s: Source, before: Source, run: string, turns: seq<Turn>)
    requires turns != [] && OnlyTurns(s, before, run, turns)
    ensures OnlyTurns(s, Perform(before, run, turns[|turns| - 1]).0, run, turns)
  {
    var t := turns[|turns| - 1];
    var after := Perform(before, run, t).0;
    ExecutingAScenario(before, run, t);
    hide Perform;
    assert HasTurn(turns, t.key);
    forall c | |s.commits| <= c < |after.commits| ensures CommitOfTurn(run, turns, after.commits[c]) {
      if c < |before.commits| {
        assert CommitOfTurn(run, turns, before.commits[c]);
      } else {
        assert turns[|turns| - 1].outcome.Some?;
      }
    }
  }

  /** The run that raises stops at the first turn that is not quiet, behind the completed ones before it. */
  lemma {:induction false} StopsAtTheFirstRaise(s: Source, run: string, turns: seq<Turn>) returns (n: nat)
    requires !AllQuiet(s, run, turns)
    ensures n < |turns| && AllQuiet(s, run, turns[..n]) && !Quiet(s, run, turns, n)
    ensures PerformAll(s, run, turns) == (Perform(PerformAll(s, run, turns[..n]).0, run, turns[n]).0, false)
  {
    var last := |turns| - 1;
    var front := turns[..last];
    ExecutingTheScenarios(s, run, turns);
    ExecutingTheScenarios(s, run, front);
    QuietPrefix(s, run, turns, last);
    hide Perform, Quiet, OnlyTurns, CompletesTurns;
    if AllQuiet(s, run, front) {
      n := last;
    } else {
      n := StopsAtTheFirstRaise(s, run, front);
      assert front[..n] == turns[..n];
      QuietInFront(s, run, turns, n);
    }
  }

  lemma QuietInFront(s: Source, run: string, turns: seq<Turn>, n: nat)
    requires n + 1 < |turns|
    ensures Quiet(s, run, turns[..|turns| - 1], n) <==> Quiet(s, run, turns, n)
  {
    assert forall j | 0 <= j <= n :: turns[..|turns| - 1][j] == turns[j];
  }

  // ---------------------------------------------------------------- an invocation

  /**
   An invocation refused for its options, or of a completed run, performs no scenario. Any other one
   performs the scenarios unless the log line of its start raises. It exits with 0 if and only if
   nothing raised, and the row of the run is then COMPLETED; otherwise it exits with 1 behind a
   FAILED row. Rows of other runs stay.
   */
  lemma InvokingARun(s: Source, run: string, config: string, turns: seq<Turn>, startLogged: bool, finishLogged: bool)
    ensures var (after, code) := Executed(s, run, config, turns, startLogged, finishLogged);
            var known := run in s.runs;
            var refused := known && s.runs[run].config != config;
            var completed := known && !refused && s.runs[run].status == COMPLETED;
            && (code == 0 <==>
                  !refused && startLogged && (completed || (AllQuiet(s, run, turns) && finishLogged)))
            && (code != 0 ==> code == 1)
            && after.runs.Keys == s.runs.Keys + {run}
            && after.runs[run].status == (if code == 0 then COMPLETED else FAILED)
            && after.runs[run].config == (if known then s.runs[run].config else config)
            && (forall other | other in s.runs && other != run :: after.runs[other] == s.runs[other])
            && (refused || completed || !startLogged ==> after.ledger == s.ledger && after.commits == s.commits)
            && (!refused && !completed && startLogged ==>
                  && after.ledger == PerformAll(s, run, turns).0.ledger
                  && after.commits == PerformAll(s, run, turns).0.commits)
  {
    ExecutingTheScenarios(s, run, turns);
    if StartRun(s, run, config).Ok? {
      var started := StartRun(s, run, config).value;
      RunsAreApart(s, started.runs, run, turns);
      ExecutingTheScenarios(started, run, turns);
      assert AllQuiet(started, run, turns) <==> AllQuiet(s, run, turns);
    }
    hide PerformAll, AllQuiet;
  }

  /** Scenarios neither read nor write the rows of the runs. */
  lemma {:induction false} RunsAreApart(s: Source, runs: map<string, RunRow>, run: string, turns: seq<Turn>)
    ensures PerformAll(s.(runs := runs), run, turns)
         == (PerformAll(s, run, turns).0.(runs := runs), PerformAll(s, run, turns).1)
  {
    if turns != [] { RunsAreApart(s, runs, run, turns[..|turns| - 1]); }
  }

  // ---------------------------------------------------------------- the snapshot

  /** Every fifth application is rejected, and every fourth of the others stays pending. */
  predicate BecomesLoan(index: nat) { index % 5 != 0 && index % 4 != 0 }

  /** Of three products in turn the first is a consumer loan, which has no collateral. */
  predicate HasCollateral(index: nat) { BecomesLoan(index) && index % 3 != 1 }

  /** The applications among the first n that become loans. */
  function LoansAmong(n: nat): set<nat> {
    set i: nat | 1 <= i <= n && BecomesLoan(i)
  }

  function SecuredAmong(n: nat): set<nat> {
    set i: nat | 1 <= i <= n && HasCollateral(i)
  }

  lemma {:induction false} ApprovalsAreLoans(n: nat)
    ensures Approvals(n) == |LoansAmong(n)| && Secured(n) == |SecuredAmong(n)|
  {
    if n > 0 {
      ApprovalsAreLoans(n - 1);
      SameTests(n);
      LoansGrow(n);
      hide IsApproved, IsSecured, BecomesLoan, HasCollateral, LoansAmong, SecuredAmong;
    }
  }

  lemma LoansGrow(n: nat)
    requires n > 0
    ensures |LoansAmong(n)| == |LoansAmong(n - 1)| + if BecomesLoan(n) then 1 else 0
    ensures |SecuredAmong(n)| == |SecuredAmong(n - 1)| + if HasCollateral(n) then 1 else 0
  {
    hide BecomesLoan, HasCollateral;
    assert LoansAmong(n) == LoansAmong(n - 1) + if BecomesLoan(n) then {n} else {};
    assert SecuredAmong(n) == SecuredAmong(n - 1) + if HasCollateral(n) then {n} else {};
  }

  lemma SameTests(index: nat)
    requires 1 <= index
    ensures IsApproved(index) <==> BecomesLoan(index)
    ensures IsApproved(index) && IsSecured(index) <==> HasCollateral(index)
  {
  }

  lemma {:induction false} RelationsInNumbers(index: nat, n: nat)
    ensures RelationsFrom(index, n) == if index < n then (n - index + 19) / 20 else 0
    decreases n - index
  {
    if index < n { RelationsInNumbers(index + 20, n); }
  }

  /**
   The rows a snapshot changes: four for each customer, one representative for each twenty, one for
   each application, and for each of its loans itself, its installments and its collateral.
   */
  function SnapshotRows(customers: nat, applications: nat, installments: nat): nat {
    4 * customers + (customers + 9) / 20 + applications
    + |LoansAmong(applications)| * (1 + installments) + |SecuredAmong(applications)|
  }

  /** The snapshot has this size; it raises exactly for applications without customers or without installments. */
  lemma SnapshotInNumbers(customers: nat, applications: nat, installments: nat)
    ensures SizeOf(TakeSnapshot(customers, applications, installments)) ==
              SnapshotRows(customers, applications, installments)
    ensures Succeeds(TakeSnapshot(customers, applications, installments)) <==>
              (applications > 0 ==> customers > 0) && (applications > 0 ==> installments > 0)
  {
    ApprovalsAreLoans(applications);
    RelationsInNumbers(10, customers);
    if applications > 0 {
      assert BecomesLoan(1) && 1 in LoansAmong(applications);
    }
  }

  // ---------------------------------------------------------------- the steps of a process

  /** Only the status of the run's row changes, if it has one. */
  predicate SetsRun(s: Source, after: Source, run: string, status: Status) {
    && after.ledger == s.ledger && after.commits == s.commits && after.runs.Keys == s.runs.Keys
    && (run in s.runs ==> after.runs[run].status == status && after.runs[run].config == s.runs[run].config)
    && forall other | other in s.runs && other != run :: after.runs[other] == s.runs[other]
  }

  /**
   A process enters its run before the first scenario, unless the run has other options or is completed, or the
   log line raises. One that is refused or raises leaves the run FAILED, and one that finds it completed leaves it.
   */
  lemma InvokingAProcess(script: map<string, seq<string>>, w: World, pid: string, run: string, config: string,
                         logged: bool)
    requires pid !in w.procs
    ensures var t, s := Next(script, w, Invoke(pid, run, config, logged)), w.source;
            var refused := run in s.runs && s.runs[run].config != config;
            var completed := run in s.runs && !refused && s.runs[run].status == COMPLETED;
            && t.source.ledger == s.ledger && t.source.commits == s.commits
            && t.source.runs.Keys == s.runs.Keys + {run}
            && (forall other | other in s.runs && other != run :: t.source.runs[other] == s.runs[other])
            && t.source.runs[run].config == (if run in s.runs then s.runs[run].config else config)
            && t.source.runs[run].status == (if refused || !logged then FAILED else if completed then COMPLETED
                                             else RUNNING)
            && t.procs == (if refused || completed || !logged then w.procs
                           else w.procs[pid := Process(run, AtEvent(0))])
  {
  }

  /**
   A process skips a completed scenario, marks any other RUNNING before its action, keeping what the row says of an
   earlier commit, and behind the last one marks its run COMPLETED.
   */
  lemma AdvancingAProcess(script: map<string, seq<string>>, w: World, pid: string, i: nat)
    requires pid in w.procs && w.procs[pid].phase == AtEvent(i)
    ensures var t, s, run := Next(script, w, Advance(pid)), w.source, w.procs[pid].run;
            var keys := if run in script then script[run] else [];
            if i >= |keys| then
              SetsRun(s, t.source, run, COMPLETED) && t.procs == w.procs[pid := Process(run, Finishing)]
            else if HasStatus(s, run, keys[i], COMPLETED) then
              t.source == s && t.procs == w.procs[pid := Process(run, AtEvent(i + 1))]
            else
              && t.procs == w.procs[pid := Process(run, InAction(i))]
              && TouchesOnly(s, t.source, run, keys[i]) && t.source.commits == s.commits
              && HasStatus(t.source, run, keys[i], RUNNING)
              && var row := t.source.ledger[(run, keys[i])];
                 if (run, keys[i]) in s.ledger
                 then row.expected == s.ledger[(run, keys[i])].expected && row.txid == s.ledger[(run, keys[i])].txid
                 else row.expected.None? && row.txid.None?
  {
  }

  /** The action of a process commits its changes together with the COMPLETED row that counts them. */
  lemma ActingInAProcess(script: map<string, seq<string>>, w: World, pid: string, i: nat, o: Outcome)
    requires pid in w.procs && w.procs[pid].phase == InAction(i)
    requires w.procs[pid].run in script && i < |script[w.procs[pid].run]|
    ensures var t, s, run := Next(script, w, Act(pid, o)), w.source, w.procs[pid].run;
            var key := script[run][i];
            && t.procs == w.procs[pid := Process(run, Logging(i))] && TouchesOnly(s, t.source, run, key)
            && t.source.commits == s.commits + [Commit(run, key, o.changes)]
            && t.source.ledger[(run, key)] == Entry(COMPLETED, Some(o.count), Some(|s.commits|))
  {
  }

  /** An exception ends the process, fails its run, and fails the row of the scenario it is executing, if any. */
  lemma RaisingInAProcess(script: map<string, seq<string>>, w: World, pid: string)
    requires pid in w.procs
    ensures var t, s, run, phase := Next(script, w, Raise(pid)), w.source, w.procs[pid].run, w.procs[pid].phase;
            && t.procs == w.procs - {pid}
            && if (phase.InAction? || phase.Logging?) && run in script && phase.i < |script[run]|
                  && (run, script[run][phase.i]) in s.ledger then
                 var key := (run, script[run][phase.i]);
                 && t.source.ledger == s.ledger[key := Entry(FAILED, s.ledger[key].expected, s.ledger[key].txid)]
                 && SetsRun(s, t.source.(ledger := s.ledger), run, FAILED)
               else SetsRun(s, t.source, run, FAILED)
  {
  }

  // ---------------------------------------------------------------- the actions

  /** All the changes, counted exactly, if the action raises nothing and the database refuses no row up to its last. */
  predicate MakesExactly(e: Scenario, outcome: Option<Outcome>, fine: bool, changes: nat) {
    && (outcome.Some? <==> fine && (e.refused.None? || e.refused.value > changes))
    && (outcome.Some? ==> outcome.value.count == changes && |outcome.value.changes| == changes)
  }

  /**
   What each action makes: the customer, the open addresses and a new one; one contact; an application, a loan and
   its installments; two installments and their loan; a rate and its successor; or the snapshot.
   */
  lemma ActionsInNumbers(e: Scenario, outcome: Option<Outcome>)
    requires Produces(e, outcome)
    ensures match e.action
            case TakeSnapshot(customers, applications, installments) =>
              MakesExactly(e, outcome, applications == 0 || (customers > 0 && installments > 0),
                           SnapshotRows(customers, applications, installments))
            case CustomerChange(found, open) => MakesExactly(e, outcome, found, 1 + open + 1)
            case ContactDelete(found) => MakesExactly(e, outcome, found, 1)
            case LoanApproval(pending, rated, installments) =>
              MakesExactly(e, outcome, pending && rated && installments > 0, 1 + 1 + installments)
            case InstallmentChange(active, unpaid) => MakesExactly(e, outcome, active && unpaid >= 2, 3)
            case RateChange(current) => MakesExactly(e, outcome, current, 2)
  {
    if e.action.TakeSnapshot? {
      SnapshotInNumbers(e.action.customers, e.action.applications, e.action.installments);
      hide SizeOf, Succeeds, SnapshotRows;
    }
  }
}
