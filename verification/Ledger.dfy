/**
 The source workload and its ledger: each scenario's data changes commit in one transaction with
 the ledger row that counts them, and a run is resumed by invoking it again.
 */
module Ledger {
  import opened Wrappers

  datatype Status = RUNNING | COMPLETED | FAILED

  datatype Table =
    | Customers | Addresses | Contacts | Relations | Applications | Loans | Installments | Collaterals | Rates

  /** A row of simulator.workload_events; the control columns keep their values until rewritten. */
  datatype Entry = Entry(status: Status, expected: Option<nat>, txid: Option<nat>)

  datatype RunRow = RunRow(config: string, status: Status)

  /** What an action that raises nothing did: the table of each changed row, and the count it reports. */
  datatype Outcome = Outcome(changes: seq<Table>, count: nat)

  /** A committed data transaction: its scenario and the rows it changed. */
  datatype Commit = Commit(run: string, key: string, changes: seq<Table>)

  type EventKey = (string, string)

  /** `commits` is the sequence of committed data transactions; a txid is a position in it. */
  datatype Source = Source(commits: seq<Commit>, ledger: map<EventKey, Entry>, runs: map<string, RunRow>)

  datatype StartError = DifferentConfig | AlreadyCompleted

  // ---------------------------------------------------------------- transactions

  /** start_run. */
  function StartRun(s: Source, run: string, config: string): Result<Source, StartError> {
    if run in s.runs && s.runs[run].config != config then Err(DifferentConfig)
    else if run in s.runs && s.runs[run].status == COMPLETED then Err(AlreadyCompleted)
    else Ok(s.(runs := s.runs[run := RunRow(config, RUNNING)]))
  }

  function SetRun(s: Source, run: string, status: Status): Source {
    if run in s.runs then s.(runs := s.runs[run := s.runs[run].(status := status)]) else s
  }

  predicate Done(s: Source, run: string, key: string) {
    (run, key) in s.ledger && s.ledger[(run, key)].status == COMPLETED
  }

  /** The first transaction of execute_event: the row becomes RUNNING, its other columns stay. */
  function MarkRunning(s: Source, run: string, key: string): Source {
    var row := if (run, key) in s.ledger then s.ledger[(run, key)] else Entry(RUNNING, None, None);
    s.(ledger := s.ledger[(run, key) := row.(status := RUNNING)])
  }

  /** The second transaction: data changes and ledger row together. */
  function CommitAction(s: Source, run: string, key: string, o: Outcome): Source {
    s.(commits := s.commits + [Commit(run, key, o.changes)],
       ledger := s.ledger[(run, key) := Entry(COMPLETED, Some(o.count), Some(|s.commits|))])
  }

  function MarkFailed(s: Source, run: string, key: string): Source {
    if (run, key) in s.ledger then s.(ledger := s.ledger[(run, key) := s.ledger[(run, key)].(status := FAILED)]) else s
  }

  // ---------------------------------------------------------------- processes

  /** Where a process stands: before its i-th scenario, inside its action, past its commit, or past the last one. */
  datatype Phase = AtEvent(i: nat) | InAction(i: nat) | Logging(i: nat) | Finishing

  datatype Process = Process(run: string, phase: Phase)

  datatype World = World(source: Source, procs: map<string, Process>)

  /** An exception can reach a process anywhere, also in the log line after a commit or of start_run. */
  datatype Step =
    | Invoke(pid: string, run: string, config: string, logged: bool)
    | Advance(pid: string)
    | Act(pid: string, outcome: Outcome)
    | Log(pid: string)
    | Raise(pid: string)
    | Crash(pid: string)

  /** The scenarios of a run, in order. */
  function ScriptOf(script: map<string, seq<string>>, run: string): seq<string> {
    if run in script then script[run] else []
  }

  /** The scenario a process is executing: between its COMPLETED check and the end of its log line. */
  function Executing(script: map<string, seq<string>>, p: Process): Option<string> {
    if (p.phase.InAction? || p.phase.Logging?) && p.phase.i < |ScriptOf(script, p.run)|
    then Some(ScriptOf(script, p.run)[p.phase.i]) else None
  }

  predicate CanAct(script: map<string, seq<string>>, w: World, pid: string) {
    pid in w.procs && w.procs[pid].phase.InAction? && Executing(script, w.procs[pid]).Some?
  }

  function Raised(script: map<string, seq<string>>, s: Source, p: Process): Source {
    var key := Executing(script, p);
    SetRun(if key.Some? then MarkFailed(s, p.run, key.value) else s, p.run, FAILED)
  }

  function Next(script: map<string, seq<string>>, w: World, step: Step): World {
    match step
    case Invoke(pid, run, config, logged) =>
      if pid in w.procs then w else
      (match StartRun(w.source, run, config)
       case Ok(started) =>
         if logged then World(started, w.procs[pid := Process(run, AtEvent(0))])
         else w.(source := SetRun(started, run, FAILED))
       case Err(DifferentConfig) => w.(source := SetRun(w.source, run, FAILED))
       case Err(AlreadyCompleted) => if logged then w else w.(source := SetRun(w.source, run, FAILED)))
    case Advance(pid) =>
      if pid !in w.procs || !w.procs[pid].phase.AtEvent? then w else
      var run, i := w.procs[pid].run, w.procs[pid].phase.i;
      var keys := ScriptOf(script, run);
      if i >= |keys| then World(SetRun(w.source, run, COMPLETED), w.procs[pid := Process(run, Finishing)])
      else if Done(w.source, run, keys[i]) then w.(procs := w.procs[pid := Process(run, AtEvent(i + 1))])
      else World(MarkRunning(w.source, run, keys[i]), w.procs[pid := Process(run, InAction(i))])
    case Act(pid, outcome) =>
      if !CanAct(script, w, pid) then w else
      var run, i := w.procs[pid].run, w.procs[pid].phase.i;
      World(CommitAction(w.source, run, ScriptOf(script, run)[i], outcome), w.procs[pid := Process(run, Logging(i))])
    case Log(pid) =>
      if pid in w.procs && w.procs[pid].phase.Logging? then
        w.(procs := w.procs[pid := Process(w.procs[pid].run, AtEvent(w.procs[pid].phase.i + 1))])
      else if pid in w.procs && w.procs[pid].phase.Finishing? then w.(procs := w.procs - {pid})
      else w
    case Raise(pid) =>
      if pid !in w.procs then w else World(Raised(script, w.source, w.procs[pid]), w.procs - {pid})
    case Crash(pid) => w.(procs := w.procs - {pid})
  }

  const EMPTY := World(Source([], map[], map[]), map[])

  function RunSteps(script: map<string, seq<string>>, steps: seq<Step>): World {
    if steps == [] then EMPTY else Next(script, RunSteps(script, steps[..|steps| - 1]), steps[|steps| - 1])
  }

  /** The world after the first n steps. */
  function At(script: map<string, seq<string>>, steps: seq<Step>, n: nat): World
    requires n <= |steps|
  {
    RunSteps(script, steps[..n])
  }

  lemma AtNext(script: map<string, seq<string>>, steps: seq<Step>, n: nat)
    requires n < |steps|
    ensures At(script, steps, n + 1) == Next(script, At(script, steps, n), steps[n])
  {
    assert steps[..n + 1][..n] == steps[..n];
  }

  lemma AtEnd(script: map<string, seq<string>>, steps: seq<Step>)
    ensures At(script, steps, |steps|) == RunSteps(script, steps)
  {
    assert steps[..|steps|] == steps;
  }

  lemma RunAppends(script: map<string, seq<string>>, steps: seq<Step>, step: Step)
    ensures RunSteps(script, steps + [step]) == Next(script, RunSteps(script, steps), step)
  {
    assert (steps + [step])[..|steps|] == steps;
  }

  // ---------------------------------------------------------------- what any processes keep

  predicate CommittedAt(s: Source, t: int, k: EventKey) {
    0 <= t < |s.commits| && (s.commits[t].run, s.commits[t].key) == k
  }

  predicate HasCommit(s: Source, k: EventKey) {
    exists t | 0 <= t < |s.commits| :: CommittedAt(s, t, k)
  }

  /** No scenario of a run commits twice. */
  predicate AtMostOnce(s: Source) {
    forall t, u | 0 <= t < u < |s.commits| ::
      (s.commits[t].run, s.commits[t].key) != (s.commits[u].run, s.commits[u].key)
  }

  /** Every row that names a transaction names one of its own scenario, and a COMPLETED row names one. */
  predicate Truthful(s: Source) {
    && (forall k | k in s.ledger && s.ledger[k].txid.Some? :: CommittedAt(s, s.ledger[k].txid.value, k))
    && (forall k | k in s.ledger && s.ledger[k].status == COMPLETED :: s.ledger[k].txid.Some?)
  }

  /** And counts as many changes as the transaction made. */
  predicate CountsExactly(s: Source) {
    forall k | k in s.ledger && s.ledger[k].txid.Some? ::
      s.ledger[k].txid.value < |s.commits| && s.ledger[k].expected == Some(|s.commits[s.ledger[k].txid.value].changes|)
  }

  /** The actions report as many changes as they make. */
  predicate Honest(steps: seq<Step>) {
    forall step | step in steps && step.Act? :: step.outcome.count == |step.outcome.changes|
  }

  lemma StepKeepsTruth(script: map<string, seq<string>>, w: World, step: Step)
    requires Truthful(w.source)
    ensures Truthful(Next(script, w, step).source) && w.source.commits <= Next(script, w, step).source.commits
    ensures CountsExactly(w.source) && Honest([step]) ==> CountsExactly(Next(script, w, step).source)
  {
    var t := Next(script, w, step).source;
    assert step in [step];
    if !step.Act? {
      RowsStandWithoutCommit(script, w, step);
      hide Next;
    }
    forall k | k in t.ledger && t.ledger[k].txid.Some? ensures CommittedAt(t, t.ledger[k].txid.value, k) {
      if k in w.source.ledger && w.source.ledger[k].txid == t.ledger[k].txid {
        assert CommittedAt(w.source, t.ledger[k].txid.value, k);
      }
    }
  }

  /** Rows keep their transaction and count, none becomes COMPLETED, and a new one names no transaction. */
  ghost predicate RowsStand(s: Source, t: Source) {
    && t.commits == s.commits
    && forall k | k in t.ledger ::
         && (t.ledger[k].status == COMPLETED ==> k in s.ledger && s.ledger[k].status == COMPLETED)
         && (t.ledger[k].txid.Some? ==>
              k in s.ledger && s.ledger[k].txid == t.ledger[k].txid && s.ledger[k].expected == t.ledger[k].expected)
         && (k in s.ledger ==> t.ledger[k].txid == s.ledger[k].txid)
  }

  lemma RowsStandWithoutCommit(script: map<string, seq<string>>, w: World, step: Step)
    requires !step.Act?
    ensures RowsStand(w.source, Next(script, w, step).source)
  {
  }

  lemma {:induction false} RunKeepsTruth(script: map<string, seq<string>>, steps: seq<Step>)
    ensures Truthful(RunSteps(script, steps).source)
    ensures Honest(steps) ==> CountsExactly(RunSteps(script, steps).source)
  {
    hide Next, Truthful, CountsExactly;
    if steps == [] {
      EmptyIsTruthful();
    } else {
      var front, last := steps[..|steps| - 1], steps[|steps| - 1];
      RunKeepsTruth(script, front);
      StepKeepsTruth(script, RunSteps(script, front), last);
    }
  }

  lemma EmptyIsTruthful()
    ensures Truthful(EMPTY.source) && CountsExactly(EMPTY.source)
  {
  }

  lemma DoneHasCommit(script: map<string, seq<string>>, steps: seq<Step>, run: string, key: string)
    requires Done(RunSteps(script, steps).source, run, key)
    ensures HasCommit(RunSteps(script, steps).source, (run, key))
  {
    RunKeepsTruth(script, steps);
    hide RunSteps;
    var s := RunSteps(script, steps).source;
    assert CommittedAt(s, s.ledger[(run, key)].txid.value, (run, key));
  }

  lemma {:induction false} CommitsGrow(script: map<string, seq<string>>, steps: seq<Step>, a: nat, b: nat)
    requires a <= b <= |steps|
    ensures At(script, steps, a).source.commits <= At(script, steps, b).source.commits
    decreases b - a
  {
    hide At, Next;
    if a < b {
      CommitsGrow(script, steps, a, b - 1);
      AtNext(script, steps, b - 1);
      StepAppends(script, At(script, steps, b - 1), steps[b - 1]);
    }
  }

  lemma StepAppends(script: map<string, seq<string>>, w: World, step: Step)
    ensures w.source.commits <= Next(script, w, step).source.commits
  {
  }

  // ---------------------------------------------------------------- exactly when a scenario commits twice

  /** Step u commits the scenario `k`. */
  predicate CommitsAt(script: map<string, seq<string>>, steps: seq<Step>, u: nat, k: EventKey) {
    && u < |steps| && steps[u].Act? && CanAct(script, At(script, steps, u), steps[u].pid)
    && k == KeyOf(script, At(script, steps, u).procs[steps[u].pid])
  }

  function KeyOf(script: map<string, seq<string>>, p: Process): EventKey {
    (p.run, if Executing(script, p).Some? then Executing(script, p).value else "")
  }

  /** While the process that commits at u stood in its action, another process committed the scenario. */
  ghost predicate OvertakenAt(script: map<string, seq<string>>, steps: seq<Step>, u: nat, k: EventKey)
    requires CommitsAt(script, steps, u, k)
  {
    exists t: nat :: t < u && CommitsAt(script, steps, t, k) && StoodSince(script, steps, t, u, steps[u].pid)
  }

  /** The process is in the same action in every state from t up to u. */
  ghost predicate StoodSince(script: map<string, seq<string>>, steps: seq<Step>, t: nat, u: nat, pid: string)
    requires u <= |steps|
  {
    forall x: nat | t <= x <= u :: Stands(script, steps, x, u, pid)
  }

  ghost predicate Stands(script: map<string, seq<string>>, steps: seq<Step>, x: nat, u: nat, pid: string)
    requires x <= u <= |steps|
  {
    var before, now := At(script, steps, x).procs, At(script, steps, u).procs;
    pid in before && pid in now && before[pid] == now[pid]
  }

  /** Step r raises in a process executing the scenario and marks its COMPLETED row FAILED. */
  predicate ReopensAt(script: map<string, seq<string>>, steps: seq<Step>, r: nat, k: EventKey) {
    && r < |steps| && steps[r].Raise? && steps[r].pid in At(script, steps, r).procs
    && Executing(script, At(script, steps, r).procs[steps[r].pid]).Some?
    && KeyOf(script, At(script, steps, r).procs[steps[r].pid]) == k
    && Done(At(script, steps, r).source, k.0, k.1)
  }

  ghost predicate ReopenedBefore(script: map<string, seq<string>>, steps: seq<Step>, u: nat, k: EventKey) {
    exists r: nat :: r < u && ReopensAt(script, steps, r, k)
  }

  /** What one step can do to a row and to the commits of its scenario. */
  lemma StepOnKey(script: map<string, seq<string>>, steps: seq<Step>, n: nat, k: EventKey)
    requires n < |steps|
    ensures var s, t := At(script, steps, n).source, At(script, steps, n + 1).source;
            && (Done(s, k.0, k.1) && !Done(t, k.0, k.1) ==> ReopensAt(script, steps, n, k))
            && (HasCommit(t, k) <==> HasCommit(s, k) || CommitsAt(script, steps, n, k))
            && (CommitsAt(script, steps, n, k) ==> Done(t, k.0, k.1))
  {
    AtNext(script, steps, n);
    hide At;
    var s, t := At(script, steps, n).source, At(script, steps, n + 1).source;
    if c :| CommittedAt(s, c, k) { assert CommittedAt(t, c, k); }
    if CommitsAt(script, steps, n, k) { assert CommittedAt(t, |s.commits|, k); }
    if c :| CommittedAt(t, c, k) { assert c < |s.commits| ==> CommittedAt(s, c, k); }
  }

  /** A commit of the scenario is one of the earlier steps, and its row stays COMPLETED unless it is reopened. */
  lemma {:induction false} CommitHasStep(script: map<string, seq<string>>, steps: seq<Step>, n: nat, k: EventKey)
    returns (t: nat)
    requires n <= |steps| && HasCommit(At(script, steps, n).source, k)
    ensures t < n && CommitsAt(script, steps, t, k)
    ensures ReopenedBefore(script, steps, n, k)
         || forall x: nat | t < x <= n :: Done(At(script, steps, x).source, k.0, k.1)
    decreases n
  {
    hide At, CommitsAt, HasCommit, Done, ReopensAt;
    if n == 0 {
      NoCommitAtFirst(script, steps, k);
    } else {
      StepOnKey(script, steps, n - 1, k);
      if CommitsAt(script, steps, n - 1, k) {
        t := n - 1;
      } else {
        t := CommitHasStep(script, steps, n - 1, k);
        if !ReopenedBefore(script, steps, n, k) {
          assert !ReopenedBefore(script, steps, n - 1, k);
          assert Done(At(script, steps, n - 1).source, k.0, k.1);
        }
      }
    }
  }

  lemma NoCommitAtFirst(script: map<string, seq<string>>, steps: seq<Step>, k: EventKey)
    ensures !HasCommit(At(script, steps, 0).source, k)
  {
  }

  /** A process enters an action only while its row is not COMPLETED. */
  lemma EntersUndone(script: map<string, seq<string>>, w: World, step: Step, pid: string)
    requires var t := Next(script, w, step); CanAct(script, t, pid)
    ensures var t := Next(script, w, step);
            || (pid in w.procs && w.procs[pid] == t.procs[pid])
            || !Done(w.source, KeyOf(script, t.procs[pid]).0, KeyOf(script, t.procs[pid]).1)
  {
  }

  /** So while the row is COMPLETED, a process found in the action has stood there. */
  lemma {:induction false} StoodWhileDone(script: map<string, seq<string>>, steps: seq<Step>, t: nat, u: nat,
                                          pid: string)
    requires t <= u <= |steps| && CanAct(script, At(script, steps, u), pid)
    requires var k := KeyOf(script, At(script, steps, u).procs[pid]);
             forall x: nat | t <= x <= u :: Done(At(script, steps, x).source, k.0, k.1)
    ensures StoodSince(script, steps, t, u, pid)
    decreases u - t
  {
    hide At, Done, Next;
    if t < u {
      StoodWhileDone(script, steps, t + 1, u, pid);
      assert Stands(script, steps, t + 1, u, pid);
      AtNext(script, steps, t);
      EntersUndone(script, At(script, steps, t), steps[t], pid);
      assert Done(At(script, steps, t).source, KeyOf(script, At(script, steps, u).procs[pid]).0,
          KeyOf(script, At(script, steps, u).procs[pid]).1);
      assert Stands(script, steps, t, u, pid);
    }
    assert Stands(script, steps, u, u, pid);
  }

  /** The scenario has committed before it commits at u, if and only if u was overtaken or the row reopened. */
  lemma CommittedBeforeExactly(script: map<string, seq<string>>, steps: seq<Step>, u: nat, k: EventKey)
    requires CommitsAt(script, steps, u, k)
    ensures HasCommit(At(script, steps, u).source, k) <==>
              OvertakenAt(script, steps, u, k) || ReopenedBefore(script, steps, u, k)
  {
    if HasCommit(At(script, steps, u).source, k) && !ReopenedBefore(script, steps, u, k) {
      var t := CommitHasStep(script, steps, u, k);
      OvertakesSince(script, steps, t, u, k);
    }
    if OvertakenAt(script, steps, u, k) {
      var t: nat :| t < u && CommitsAt(script, steps, t, k) && StoodSince(script, steps, t, u, steps[u].pid);
      StepOnKey(script, steps, t, k);
      CommitStays(script, steps, t + 1, u, k);
    }
    if ReopenedBefore(script, steps, u, k) {
      var r: nat :| r < u && ReopensAt(script, steps, r, k);
      DoneHasCommit(script, steps[..r], k.0, k.1);
      CommitStays(script, steps, r, u, k);
    }
  }

  lemma CommitStays(script: map<string, seq<string>>, steps: seq<Step>, a: nat, b: nat, k: EventKey)
    requires a <= b <= |steps| && HasCommit(At(script, steps, a).source, k)
    ensures HasCommit(At(script, steps, b).source, k)
  {
    CommitsGrow(script, steps, a, b);
    hide At;
    var s, t := At(script, steps, a).source, At(script, steps, b).source;
    var c :| 0 <= c < |s.commits| && CommittedAt(s, c, k);
    assert t.commits[c] == s.commits[c];
    assert CommittedAt(t, c, k);
  }

  lemma OvertakesSince(script: map<string, seq<string>>, steps: seq<Step>, t: nat, u: nat, k: EventKey)
    requires CommitsAt(script, steps, u, k) && t < u && CommitsAt(script, steps, t, k)
    requires forall x: nat | t < x <= u :: Done(At(script, steps, x).source, k.0, k.1)
    ensures OvertakenAt(script, steps, u, k)
  {
    var pid := steps[u].pid;
    StoodWhileDone(script, steps, t + 1, u, pid);
    AtNext(script, steps, t);
    assert Stands(script, steps, t + 1, u, pid);
    OthersStand(script, At(script, steps, t), steps[t], pid);
    hide At;
    assert Stands(script, steps, t, u, pid);
    assert StoodSince(script, steps, t, u, pid);
  }

  /** The process that commits leaves its action; one that is in an action afterwards has not moved. */
  lemma OthersStand(script: map<string, seq<string>>, w: World, step: Step, pid: string)
    requires step.Act? && CanAct(script, Next(script, w, step), pid)
    ensures pid in w.procs && w.procs[pid] == Next(script, w, step).procs[pid]
  {
  }

  /** No scenario commits after an earlier commit of it. */
  ghost predicate CommitsFresh(script: map<string, seq<string>>, steps: seq<Step>, n: nat)
    requires n <= |steps|
  {
    forall u: nat, k | u < n && CommitsAt(script, steps, u, k) :: !HasCommit(At(script, steps, u).source, k)
  }

  lemma {:induction false} OnceIsFresh(script: map<string, seq<string>>, steps: seq<Step>, n: nat)
    requires n <= |steps|
    ensures AtMostOnce(At(script, steps, n).source) <==> CommitsFresh(script, steps, n)
  {
    hide At, CommitsAt, AtMostOnce, HasCommit;
    if n == 0 {
      NothingCommittedAtFirst(script, steps);
    } else {
      OnceIsFresh(script, steps, n - 1);
      OnceNext(script, steps, n - 1);
    }
  }

  lemma NothingCommittedAtFirst(script: map<string, seq<string>>, steps: seq<Step>)
    ensures AtMostOnce(At(script, steps, 0).source)
  {
  }

  lemma OnceNext(script: map<string, seq<string>>, steps: seq<Step>, n: nat)
    requires n < |steps|
    ensures AtMostOnce(At(script, steps, n + 1).source) <==>
              && AtMostOnce(At(script, steps, n).source)
              && forall k | CommitsAt(script, steps, n, k) :: !HasCommit(At(script, steps, n).source, k)
  {
    AtNext(script, steps, n);
    hide At;
    var s, t := At(script, steps, n).source, At(script, steps, n + 1).source;
    if steps[n].Act? && CanAct(script, At(script, steps, n), steps[n].pid) {
      var k := KeyOf(script, At(script, steps, n).procs[steps[n].pid]);
      assert CommitsAt(script, steps, n, k);
      var commit := Commit(k.0, k.1, steps[n].outcome.changes);
      assert t.commits == s.commits + [commit];
      OnceAppended(s, t, commit);
    } else {
      assert t.commits == s.commits;
    }
  }

  lemma OnceAppended(s: Source, t: Source, commit: Commit)
    requires t.commits == s.commits + [commit]
    ensures AtMostOnce(t) <==> AtMostOnce(s) && !HasCommit(s, (commit.run, commit.key))
  {
    var k := (commit.run, commit.key);
    if AtMostOnce(t) {
      forall c ensures !CommittedAt(s, c, k) {
        assert 0 <= c < |s.commits| ==> t.commits[c] == s.commits[c];
        assert t.commits[|s.commits|] == commit;
      }
      forall a, b | 0 <= a < b < |s.commits|
        ensures (s.commits[a].run, s.commits[a].key) != (s.commits[b].run, s.commits[b].key)
      {
        assert t.commits[a] == s.commits[a] && t.commits[b] == s.commits[b];
      }
    }
    if AtMostOnce(s) && !HasCommit(s, k) {
      forall a, b | 0 <= a < b < |t.commits|
        ensures (t.commits[a].run, t.commits[a].key) != (t.commits[b].run, t.commits[b].key)
      {
        assert !CommittedAt(s, a, k);
      }
    }
  }

  /**
   Whatever processes do: no scenario commits twice, if and only if no process commits a scenario that
   another one committed while it stood in its action, or whose COMPLETED row an exception had reopened.
   */
  lemma CommitsOnceExactly(script: map<string, seq<string>>, steps: seq<Step>)
    ensures AtMostOnce(RunSteps(script, steps).source) <==>
              forall u: nat, k | CommitsAt(script, steps, u, k) ::
                !OvertakenAt(script, steps, u, k) && !ReopenedBefore(script, steps, u, k)
  {
    AtEnd(script, steps);
    OnceIsFresh(script, steps, |steps|);
    hide At, AtMostOnce, HasCommit, OvertakenAt, ReopenedBefore, RunSteps;
    forall u: nat, k | CommitsAt(script, steps, u, k)
      ensures HasCommit(At(script, steps, u).source, k) <==>
                OvertakenAt(script, steps, u, k) || ReopenedBefore(script, steps, u, k)
    {
      CommittedBeforeExactly(script, steps, u, k);
    }
  }

  /** A scenario that committed is COMPLETED unless an exception reopened its row. */
  lemma CommittedIsDoneOrReopened(script: map<string, seq<string>>, steps: seq<Step>, k: EventKey)
    requires HasCommit(RunSteps(script, steps).source, k)
    ensures Done(RunSteps(script, steps).source, k.0, k.1) || ReopenedBefore(script, steps, |steps|, k)
  {
    AtEnd(script, steps);
    var t := CommitHasStep(script, steps, |steps|, k);
  }

  /** A COMPLETED row is rewritten exactly by another commit of its scenario or by an exception in it. */
  lemma CompletedRowsStay(script: map<string, seq<string>>, steps: seq<Step>, n: nat, k: EventKey)
    requires n < |steps| && Done(At(script, steps, n).source, k.0, k.1)
    ensures var s, t := At(script, steps, n).source, At(script, steps, n + 1).source;
            && s.commits <= t.commits
            && ((k in t.ledger && t.ledger[k] == s.ledger[k]) <==>
                  !CommitsAt(script, steps, n, k) && !ReopensAt(script, steps, n, k))
  {
    AtNext(script, steps, n);
    RunKeepsTruth(script, steps[..n]);
    hide RunSteps;
    var w := At(script, steps, n);
    RowAfterStep(script, w, steps[n], k);
    hide Next;
  }

  lemma RowAfterStep(script: map<string, seq<string>>, w: World, step: Step, k: EventKey)
    requires Truthful(w.source) && Done(w.source, k.0, k.1)
    ensures var s, t := w.source, Next(script, w, step).source;
            && s.commits <= t.commits
            && ((k in t.ledger && t.ledger[k] == s.ledger[k]) <==>
                  && !(step.Act? && CanAct(script, w, step.pid) && KeyOf(script, w.procs[step.pid]) == k)
                  && !(step.Raise? && step.pid in w.procs && Executing(script, w.procs[step.pid]).Some?
                       && KeyOf(script, w.procs[step.pid]) == k))
  {
    assert CommittedAt(w.source, w.source.ledger[k].txid.value, k);
  }

  /**
   Whatever processes do, a row names a transaction of its own scenario, a COMPLETED row names one, and
   it counts that transaction's changes if the actions report what they change.
   */
  lemma RowsAreTruthful(script: map<string, seq<string>>, steps: seq<Step>, run: string, key: string)
    requires var s := RunSteps(script, steps).source; (run, key) in s.ledger
    ensures var s := RunSteps(script, steps).source;
            var row := s.ledger[(run, key)];
            && (row.status == COMPLETED ==> row.txid.Some?)
            && (row.txid.Some? ==> CommittedAt(s, row.txid.value, (run, key)))
            && (row.txid.Some? && Honest(steps) ==> row.expected == Some(|s.commits[row.txid.value].changes|))
  {
    RunKeepsTruth(script, steps);
    hide RunSteps;
  }

  /** So the unique index on the transaction ids is never violated. */
  lemma RowsHaveUniqueTxids(script: map<string, seq<string>>, steps: seq<Step>, a: EventKey, b: EventKey)
    requires var s := RunSteps(script, steps).source; a in s.ledger && b in s.ledger && a != b
    ensures var s := RunSteps(script, steps).source; s.ledger[a].txid.Some? ==> s.ledger[a].txid != s.ledger[b].txid
  {
    RowsAreTruthful(script, steps, a.0, a.1);
    RowsAreTruthful(script, steps, b.0, b.1);
    hide RunSteps;
  }

  // ---------------------------------------------------------------- one process per run

  /** Nobody invokes a run that another process is still working on. */
  predicate OneProcessPerRun(w: World, step: Step) {
    step.Invoke? ==> forall pid | pid in w.procs :: w.procs[pid].run != step.run
  }

  predicate Exclusive(script: map<string, seq<string>>, steps: seq<Step>) {
    forall i | 0 <= i < |steps| :: OneProcessPerRun(At(script, steps, i), steps[i])
  }

  predicate DoneUpTo(script: map<string, seq<string>>, s: Source, run: string, n: nat) {
    forall j | 0 <= j < n && j < |ScriptOf(script, run)| :: Done(s, run, ScriptOf(script, run)[j])
  }

  /** The scenarios behind a process are COMPLETED, and the one it acts on is not. */
  predicate ProcessOk(script: map<string, seq<string>>, s: Source, p: Process) {
    match p.phase
    case AtEvent(i) => DoneUpTo(script, s, p.run, i)
    case InAction(i) =>
      i < |ScriptOf(script, p.run)| && DoneUpTo(script, s, p.run, i) && !Done(s, p.run, ScriptOf(script, p.run)[i])
    case Logging(i) => i < |ScriptOf(script, p.run)| && DoneUpTo(script, s, p.run, i + 1)
    case Finishing => DoneUpTo(script, s, p.run, |ScriptOf(script, p.run)|)
  }

  predicate RunOk(script: map<string, seq<string>>, s: Source, run: string) {
    run in s.runs && s.runs[run].status == COMPLETED ==> DoneUpTo(script, s, run, |ScriptOf(script, run)|)
  }

  ghost predicate Inv(script: map<string, seq<string>>, w: World) {
    && (forall pid | pid in w.procs :: ProcessOk(script, w.source, w.procs[pid]))
    && (forall a, b | a in w.procs && b in w.procs && w.procs[a].run == w.procs[b].run :: a == b)
    && (forall run | run in w.source.runs :: RunOk(script, w.source, run))
  }

  /** A step changes rows of one run only. */
  ghost predicate SameElsewhere(s: Source, t: Source, run: string) {
    && (forall r, key | r != run :: Done(s, r, key) <==> Done(t, r, key))
    && (forall r | r != run :: (r in s.runs <==> r in t.runs) && (r in s.runs ==> s.runs[r] == t.runs[r]))
  }

  function RunOfStep(w: World, step: Step): string {
    if step.Invoke? then step.run else if step.pid in w.procs then w.procs[step.pid].run else ""
  }

  lemma StepIsLocal(script: map<string, seq<string>>, w: World, step: Step)
    ensures SameElsewhere(w.source, Next(script, w, step).source, RunOfStep(w, step))
    ensures forall q | q != step.pid :: q in Next(script, w, step).procs <==> q in w.procs
    ensures forall q | q != step.pid && q in w.procs :: Next(script, w, step).procs[q] == w.procs[q]
  {
  }

  lemma ProcessElsewhere(script: map<string, seq<string>>, s: Source, t: Source, run: string, p: Process)
    requires SameElsewhere(s, t, run) && p.run != run
    ensures ProcessOk(script, s, p) <==> ProcessOk(script, t, p)
    ensures RunOk(script, s, p.run) <==> RunOk(script, t, p.run)
  {
  }

  /** It is enough to look at the process that moves and at its run. */
  lemma LocalStep(script: map<string, seq<string>>, w: World, step: Step)
    requires Inv(script, w) && OneProcessPerRun(w, step)
    requires var t := Next(script, w, step);
             && (step.pid in t.procs ==>
                   t.procs[step.pid].run == RunOfStep(w, step) && ProcessOk(script, t.source, t.procs[step.pid]))
             && RunOk(script, t.source, RunOfStep(w, step))
    requires step.Invoke? <==> step.pid !in w.procs
    ensures Inv(script, Next(script, w, step))
  {
    StepIsLocal(script, w, step);
    var t, run := Next(script, w, step), RunOfStep(w, step);
    hide ProcessOk, RunOk, Next, SameElsewhere;
    forall q | q in t.procs ensures ProcessOk(script, t.source, t.procs[q]) {
      if q != step.pid {
        assert w.procs[q].run != run;
        ProcessElsewhere(script, w.source, t.source, run, w.procs[q]);
      }
    }
    forall r | r in t.source.runs ensures RunOk(script, t.source, r) {
      if r != run {
        ProcessElsewhere(script, w.source, t.source, run, Process(r, Finishing));
        RunsElsewhere(w.source, t.source, run, r);
      }
    }
  }

  lemma RunsElsewhere(s: Source, t: Source, run: string, r: string)
    requires SameElsewhere(s, t, run) && r != run
    ensures r in s.runs <==> r in t.runs
  {
  }

  lemma StepKeepsInv(script: map<string, seq<string>>, w: World, step: Step)
    requires Inv(script, w) && OneProcessPerRun(w, step)
    ensures Inv(script, Next(script, w, step))
  {
    if step.Invoke? {
      if step.pid !in w.procs { LocalStep(script, w, step); }
    } else if step.pid in w.procs {
      var p := w.procs[step.pid];
      assert ProcessOk(script, w.source, p) && (p.run in w.source.runs ==> RunOk(script, w.source, p.run));
      MovedProcess(script, w, step);
      LocalStep(script, w, step);
    } else {
      assert step.Crash? ==> w.procs - {step.pid} == w.procs;
    }
  }

  lemma MovedProcess(script: map<string, seq<string>>, w: World, step: Step)
    requires !step.Invoke? && step.pid in w.procs && ProcessOk(script, w.source, w.procs[step.pid])
    requires w.procs[step.pid].run in w.source.runs ==> RunOk(script, w.source, w.procs[step.pid].run)
    ensures var t, run := Next(script, w, step), w.procs[step.pid].run;
            && (step.pid in t.procs ==> t.procs[step.pid].run == run && ProcessOk(script, t.source, t.procs[step.pid]))
            && RunOk(script, t.source, run)
  {
  }

  lemma {:induction false} ReachableInv(script: map<string, seq<string>>, steps: seq<Step>, n: nat)
    requires Exclusive(script, steps) && n <= |steps|
    ensures Inv(script, At(script, steps, n))
  {
    hide Inv, Next, OneProcessPerRun;
    if n == 0 {
      EmptyInv(script);
    } else {
      ReachableInv(script, steps, n - 1);
      AtNext(script, steps, n - 1);
      StepKeepsInv(script, At(script, steps, n - 1), steps[n - 1]);
    }
  }

  lemma EmptyInv(script: map<string, seq<string>>)
    ensures Inv(script, EMPTY)
  {
  }

  /** Then nobody is overtaken, and only an exception in the log line reopens a row. */
  lemma ExclusiveNeverOvertaken(script: map<string, seq<string>>, steps: seq<Step>, u: nat, k: EventKey)
    requires Exclusive(script, steps) && CommitsAt(script, steps, u, k)
    ensures !OvertakenAt(script, steps, u, k)
  {
    hide Exclusive, Next;
    if OvertakenAt(script, steps, u, k) {
      var t: nat :| t < u && CommitsAt(script, steps, t, k) && StoodSince(script, steps, t, u, steps[u].pid);
      assert Stands(script, steps, t, u, steps[u].pid) && Stands(script, steps, t + 1, u, steps[u].pid);
      ReachableInv(script, steps, t);
      AtNext(script, steps, t);
      CommitLeaves(script, At(script, steps, t), steps[t]);
    }
  }

  lemma CommitLeaves(script: map<string, seq<string>>, w: World, step: Step)
    requires step.Act? && CanAct(script, w, step.pid)
    ensures step.pid in Next(script, w, step).procs && Next(script, w, step).procs[step.pid].phase.Logging?
  {
  }

  lemma ExclusiveReopensLate(script: map<string, seq<string>>, steps: seq<Step>, r: nat, k: EventKey)
    requires Exclusive(script, steps) && ReopensAt(script, steps, r, k)
    ensures At(script, steps, r).procs[steps[r].pid].phase.Logging?
  {
    ReachableInv(script, steps, r);
    hide Exclusive, At;
    var w := At(script, steps, r);
    assert ProcessOk(script, w.source, w.procs[steps[r].pid]);
  }

  /**
   With one process per run at a time, however often runs crash, fail and are invoked again: no scenario
   commits twice, if and only if none is committed after an exception in the log line behind its commit;
   without such an exception a scenario is COMPLETED exactly when its changes committed; and a COMPLETED
   run has every scenario COMPLETED.
   */
  lemma LedgerIsSound(script: map<string, seq<string>>, steps: seq<Step>)
    requires Exclusive(script, steps)
    ensures var s := RunSteps(script, steps).source;
            && (AtMostOnce(s) <==>
                  forall u: nat, k | CommitsAt(script, steps, u, k) :: !ReopenedBefore(script, steps, u, k))
            && (forall r: nat, k | ReopensAt(script, steps, r, k) ::
                  At(script, steps, r).procs[steps[r].pid].phase.Logging?)
            && (forall k | HasCommit(s, k) :: Done(s, k.0, k.1) || ReopenedBefore(script, steps, |steps|, k))
            && (forall k: EventKey | Done(s, k.0, k.1) :: HasCommit(s, k))
            && (forall run | run in s.runs && s.runs[run].status == COMPLETED ::
                  forall key | key in ScriptOf(script, run) :: Done(s, run, key))
  {
    hide Exclusive, ReopensAt, ReopenedBefore, OvertakenAt, HasCommit, AtMostOnce, At, RunSteps;
    var s := RunSteps(script, steps).source;
    CommitsOnceExactly(script, steps);
    forall u: nat, k | CommitsAt(script, steps, u, k) ensures !OvertakenAt(script, steps, u, k) {
      ExclusiveNeverOvertaken(script, steps, u, k);
    }
    forall r: nat, k | ReopensAt(script, steps, r, k)
      ensures r < |steps| && steps[r].pid in At(script, steps, r).procs
      ensures At(script, steps, r).procs[steps[r].pid].phase.Logging?
    {
      ExclusiveReopensLate(script, steps, r, k);
      ReopensByProcess(script, steps, r, k);
    }
    forall k | HasCommit(s, k) ensures Done(s, k.0, k.1) || ReopenedBefore(script, steps, |steps|, k) {
      CommittedIsDoneOrReopened(script, steps, k);
    }
    forall k: EventKey | Done(s, k.0, k.1) ensures HasCommit(s, k) {
      DoneHasCommit(script, steps, k.0, k.1);
    }
    ReachableInv(script, steps, |steps|);
    AtEnd(script, steps);
    forall run | run in s.runs && s.runs[run].status == COMPLETED
      ensures forall key | key in ScriptOf(script, run) :: Done(s, run, key)
    {
      assert RunOk(script, s, run);
    }
  }

  lemma ReopensByProcess(script: map<string, seq<string>>, steps: seq<Step>, r: nat, k: EventKey)
    requires ReopensAt(script, steps, r, k)
    ensures r < |steps| && steps[r].pid in At(script, steps, r).procs
  {
  }

  // ---------------------------------------------------------------- how a scenario commits twice

  const ONE_SCENARIO := map["r" := ["k"]]
  const ONE_ROW := Outcome([Customers], 1)
  const TWO_ROWS := Outcome([Customers, Addresses], 2)
  const BOTH_ACTING := [Invoke("p", "r", "c", true), Invoke("q", "r", "c", true), Advance("p"), Advance("q")]

  lemma BothAct()
    ensures var w := RunSteps(ONE_SCENARIO, BOTH_ACTING);
            && w.source.commits == [] && w.source.ledger == map[("r", "k") := Entry(RUNNING, None, None)]
            && "p" in w.procs && "q" in w.procs
            && w.procs["p"] == w.procs["q"] == Process("r", InAction(0))
  {
    var one, two := [Invoke("p", "r", "c", true)], [Invoke("p", "r", "c", true), Invoke("q", "r", "c", true)];
    var three := two + [Advance("p")];
    RunAppends(ONE_SCENARIO, [], Invoke("p", "r", "c", true));
    assert [] + [Invoke("p", "r", "c", true)] == one;
    RunAppends(ONE_SCENARIO, one, Invoke("q", "r", "c", true));
    assert one + [Invoke("q", "r", "c", true)] == two;
    RunAppends(ONE_SCENARIO, two, Advance("p"));
    RunAppends(ONE_SCENARIO, three, Advance("q"));
    assert three + [Advance("q")] == BOTH_ACTING;
    hide RunSteps;
  }

  /** Two processes on one run id commit the same scenario twice, and the ledger keeps only one of them. */
  lemma TwoProcessesCommitTwice()
    ensures var s := RunSteps(ONE_SCENARIO, BOTH_ACTING + [Act("p", ONE_ROW)] + [Act("q", TWO_ROWS)]).source;
            && !AtMostOnce(s) && s.commits == [Commit("r", "k", ONE_ROW.changes), Commit("r", "k", TWO_ROWS.changes)]
            && s.ledger == map[("r", "k") := Entry(COMPLETED, Some(2), Some(1))]
  {
    BothAct();
    RunAppends(ONE_SCENARIO, BOTH_ACTING, Act("p", ONE_ROW));
    RunAppends(ONE_SCENARIO, BOTH_ACTING + [Act("p", ONE_ROW)], Act("q", TWO_ROWS));
    hide RunSteps;
    var s := RunSteps(ONE_SCENARIO, BOTH_ACTING + [Act("p", ONE_ROW)] + [Act("q", TWO_ROWS)]).source;
    assert s.commits == [Commit("r", "k", ONE_ROW.changes)] + [Commit("r", "k", TWO_ROWS.changes)];
    assert s.commits[0].key == s.commits[1].key && s.commits[0].run == s.commits[1].run;
  }

  const LATE_EXCEPTION := [Invoke("p", "r", "c", true), Advance("p"), Act("p", ONE_ROW), Raise("p")]

  lemma LateExceptionReopens()
    ensures var w := RunSteps(ONE_SCENARIO, LATE_EXCEPTION);
            && w.source.commits == [Commit("r", "k", ONE_ROW.changes)] && w.procs == map[]
            && w.source.ledger == map[("r", "k") := Entry(FAILED, Some(1), Some(0))]
            && w.source.runs == map["r" := RunRow("c", FAILED)]
  {
    var one, two := [Invoke("p", "r", "c", true)], [Invoke("p", "r", "c", true), Advance("p")];
    RunAppends(ONE_SCENARIO, [], Invoke("p", "r", "c", true));
    assert [] + [Invoke("p", "r", "c", true)] == one;
    RunAppends(ONE_SCENARIO, one, Advance("p"));
    assert one + [Advance("p")] == two;
    RunAppends(ONE_SCENARIO, two, Act("p", ONE_ROW));
    RunAppends(ONE_SCENARIO, two + [Act("p", ONE_ROW)], Raise("p"));
    assert two + [Act("p", ONE_ROW)] + [Raise("p")] == LATE_EXCEPTION;
    hide RunSteps;
  }

  /** One process whose log line raises behind a commit, invoked again, commits the scenario a second time. */
  lemma LateExceptionCommitsTwice()
    ensures var steps := LATE_EXCEPTION + [Invoke("q", "r", "c", true)] + [Advance("q")] + [Act("q", ONE_ROW)];
            Exclusive(ONE_SCENARIO, steps) && !AtMostOnce(RunSteps(ONE_SCENARIO, steps).source)
  {
    LateExceptionReopens();
    RunAppends(ONE_SCENARIO, LATE_EXCEPTION, Invoke("q", "r", "c", true));
    RunAppends(ONE_SCENARIO, LATE_EXCEPTION + [Invoke("q", "r", "c", true)], Advance("q"));
    RunAppends(ONE_SCENARIO, LATE_EXCEPTION + [Invoke("q", "r", "c", true)] + [Advance("q")], Act("q", ONE_ROW));
    hide RunSteps;
    var steps := LATE_EXCEPTION + [Invoke("q", "r", "c", true)] + [Advance("q")] + [Act("q", ONE_ROW)];
    var s := RunSteps(ONE_SCENARIO, steps).source;
    assert s.commits == [Commit("r", "k", ONE_ROW.changes)] + [Commit("r", "k", ONE_ROW.changes)];
    assert s.commits[0].key == s.commits[1].key && s.commits[0].run == s.commits[1].run;
    InvokedWhenFree(steps);
  }

  lemma InvokedWhenFree(steps: seq<Step>)
    requires steps == LATE_EXCEPTION + [Invoke("q", "r", "c", true)] + [Advance("q")] + [Act("q", ONE_ROW)]
    ensures Exclusive(ONE_SCENARIO, steps)
  {
    LateExceptionReopens();
    assert steps[..0] == [] && steps[..4] == LATE_EXCEPTION;
    forall i | 0 <= i < |steps| && steps[i].Invoke? ensures At(ONE_SCENARIO, steps, i).procs == map[] {
      assert i == 0 || i == 4;
    }
  }
}
