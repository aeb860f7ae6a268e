/**
 The workload process: actions that change rows and count what they change, and the runner that
 commits each action with its ledger row.
 */
module Workload {
  import opened Wrappers
  import opened Ledger

  datatype Counters = Counters(customers: nat, addresses: nat, contacts: nat, relations: nat,
                               applications: nat, loans: nat, installments: nat, collaterals: nat)

  /** The snapshot's counters; it changes no rates. */
  const ZERO := Counters(0, 0, 0, 0, 0, 0, 0, 0)

  function Of(c: Counters, t: Table): nat {
    match t
    case Customers => c.customers
    case Addresses => c.addresses
    case Contacts => c.contacts
    case Relations => c.relations
    case Applications => c.applications
    case Loans => c.loans
    case Installments => c.installments
    case Collaterals => c.collaterals
    case Rates => 0
  }

  function Sum(c: Counters): nat {
    c.customers + c.addresses + c.contacts + c.relations + c.applications + c.loans + c.installments + c.collaterals
  }

  /** Rows of a table among the changed rows. */
  function Count(changes: seq<Table>, t: Table): nat {
    if changes == [] then 0 else Count(changes[..|changes| - 1], t) + if changes[|changes| - 1] == t then 1 else 0
  }

  lemma CountAppends(changes: seq<Table>, t: Table, x: Table)
    ensures Count(changes + [t], x) == Count(changes, x) + if t == x then 1 else 0
  {
    assert (changes + [t])[..|changes|] == changes;
  }

  /** The counters say how many rows of each table changed, and sum to all of them. */
  ghost predicate Agree(before: seq<Table>, changes: seq<Table>, c: Counters) {
    && (forall t :: Count(changes, t) == Count(before, t) + Of(c, t))
    && |changes| == |before| + Sum(c)
  }

  function Plus(c: Counters, t: Table): (d: Counters)
    requires !t.Rates?
    ensures Sum(d) == Sum(c) + 1 && forall x :: Of(d, x) == Of(c, x) + if x == t then 1 else 0
  {
    match t
    case Customers => c.(customers := c.customers + 1)
    case Addresses => c.(addresses := c.addresses + 1)
    case Contacts => c.(contacts := c.contacts + 1)
    case Relations => c.(relations := c.relations + 1)
    case Applications => c.(applications := c.applications + 1)
    case Loans => c.(loans := c.loans + 1)
    case Installments => c.(installments := c.installments + 1)
    case Collaterals => c.(collaterals := c.collaterals + 1)
  }

  lemma AgreeAppends(before: seq<Table>, changes: seq<Table>, c: Counters, t: Table)
    requires Agree(before, changes, c) && !t.Rates?
    ensures Agree(before, changes + [t], Plus(c, t))
  {
    forall x ensures Count(changes + [t], x) == Count(before, x) + Of(Plus(c, t), x) { CountAppends(changes, t, x); }
  }

  // ---------------------------------------------------------------- the snapshot's size

  predicate IsApproved(index: int) { index % 5 != 0 && index % 4 != 0 }

  /** Consumer loans carry no collateral. */
  predicate IsSecured(index: int) { (index - 1) % 3 != 0 }

  function Approvals(n: nat): nat {
    if n == 0 then 0 else Approvals(n - 1) + if IsApproved(n) then 1 else 0
  }

  function Secured(n: nat): nat {
    if n == 0 then 0 else Secured(n - 1) + if IsApproved(n) && IsSecured(n) then 1 else 0
  }

  /** The authorized representatives: every twentieth customer from the eleventh on. */
  function RelationsFrom(index: nat, n: nat): nat
    decreases n - index
  {
    if index < n then 1 + RelationsFrom(index + 20, n) else 0
  }

  function SnapshotSize(customers: nat, applications: nat, installments: nat): Counters {
    Counters(customers, customers, 2 * customers, RelationsFrom(10, customers), applications, Approvals(applications),
             Approvals(applications) * installments, Secured(applications))
  }

  // ---------------------------------------------------------------- actions

  class Transaction {
    /** The table of each changed row, in order. */
    var changes: seq<Table>
    /** The position of the change the database refuses, if it refuses one: a constraint or a lost connection. */
    const refused: Option<nat>

    constructor (refused: Option<nat>)
      ensures changes == [] && this.refused == refused
    {
      changes := [];
      this.refused := refused;
    }

    /** None of the changes at these positions is refused. */
    predicate Accepts(from: nat, to: nat) {
      refused.None? || refused.value < from || to <= refused.value
    }

    /** One changed row. */
    method Touch(t: Table) returns (ok: bool)
      modifies this
      ensures ok <==> Accepts(|old(changes)|, |old(changes)| + 1)
      ensures changes == if ok then old(changes) + [t] else old(changes)
    {
      if refused == Some(|changes|) {
        return false;
      }
      changes := changes + [t];
      ok := true;
    }

    /** One changed row, counted. */
    method Change(t: Table, c: Counters, ghost before: seq<Table>) returns (d: Option<Counters>)
      requires Agree(before, changes, c) && !t.Rates?
      modifies this
      ensures d.Some? <==> Accepts(|old(changes)|, |old(changes)| + 1)
      ensures d.Some? ==> changes == old(changes) + [t] && d.value == Plus(c, t) && Agree(before, changes, d.value)
    {
      AgreeAppends(before, changes, c, t);
      var ok := Touch(t);
      d := if ok then Some(Plus(c, t)) else None;
    }

    /** Divides the principal by the count before it inserts anything. */
    method InsertInstallments(count: nat, c: Counters, ghost before: seq<Table>) returns (d: Option<Counters>)
      requires Agree(before, changes, c)
      modifies this
      ensures d.Some? <==> count > 0 && Accepts(|old(changes)|, |old(changes)| + count)
      ensures d.Some? ==> d.value == c.(installments := c.installments + count) && Agree(before, changes, d.value)
      ensures d.Some? ==> |changes| == |old(changes)| + count
    {
      hide Agree, Count, Sum;
      if count == 0 {
        return None;
      }
      d := Some(c);
      for number := 0 to count
        invariant d.Some? && d.value == c.(installments := c.installments + number)
        invariant Agree(before, changes, d.value) && |changes| == |old(changes)| + number
        invariant Accepts(|old(changes)|, |changes|)
      {
        d := Change(Installments, d.value, before);
        if d.None? {
          return;
        }
      }
    }

    method InsertCustomer(c: Counters, ghost before: seq<Table>) returns (d: Option<Counters>)
      requires Agree(before, changes, c)
      modifies this
      ensures d.Some? <==> Accepts(|old(changes)|, |old(changes)| + 4)
      ensures d.Some? ==> Agree(before, changes, d.value) && |changes| == |old(changes)| + 4
      ensures d.Some? ==>
                d.value == c.(customers := c.customers + 1, addresses := c.addresses + 1, contacts := c.contacts + 2)
    {
      hide Agree, Count, Sum;
      d := Change(Customers, c, before);
      if d.Some? {
        d := Change(Addresses, d.value, before);
      }
      if d.Some? {
        d := Change(Contacts, d.value, before);
      }
      if d.Some? {
        d := Change(Contacts, d.value, before);
      }
    }

    method InsertCustomers(customers: nat, ghost before: seq<Table>) returns (d: Option<Counters>)
      requires before == changes
      modifies this
      ensures d.Some? <==> Accepts(|old(changes)|, |old(changes)| + Sum(SnapshotSize(customers, 0, 0)))
      ensures d.Some? ==> Agree(before, changes, d.value) && d.value == SnapshotSize(customers, 0, 0)
    {
      hide Agree, Count, Sum, Of, Plus, RelationsFrom, SnapshotSize;
      var c := ZERO;
      AgreeStarts(changes);
      CustomersFirst(customers);
      for index := 0 to customers
        invariant c == ZERO.(customers := index, addresses := index, contacts := 2 * index)
        invariant Agree(before, changes, c) && |changes| == |before| + 4 * index
        invariant Accepts(|before|, |changes|)
      {
        d := InsertCustomer(c, before);
        if d.None? {
          return None;
        }
        c := d.value;
      }
      d := InsertRelations(customers, c, before);
    }

    method InsertRelations(customers: nat, c: Counters, ghost before: seq<Table>) returns (d: Option<Counters>)
      requires Agree(before, changes, c)
      modifies this
      ensures d.Some? <==> Accepts(|old(changes)|, |old(changes)| + RelationsFrom(10, customers))
      ensures d.Some? ==> Agree(before, changes, d.value)
      ensures d.Some? ==> d.value == c.(relations := c.relations + RelationsFrom(10, customers))
    {
      hide Agree, Count, Sum, Of;
      d := Some(c);
      var index := 10;
      while index < customers
        invariant d.Some? && d.value == c.(relations := d.value.relations)
        invariant d.value.relations + RelationsFrom(index, customers) == c.relations + RelationsFrom(10, customers)
        invariant Agree(before, changes, d.value)
        invariant |changes| + RelationsFrom(index, customers) == |old(changes)| + RelationsFrom(10, customers)
        invariant |old(changes)| <= |changes| && Accepts(|old(changes)|, |changes|)
        decreases customers - index
      {
        d := Change(Relations, d.value, before);
        if d.None? {
          return;
        }
        index := index + 20;
      }
    }

    /** The rows an approved application adds besides itself. */
    method Disburse(index: nat, installments: nat, c: Counters, ghost before: seq<Table>) returns (d: Option<Counters>)
      requires Agree(before, changes, c)
      modifies this
      ensures d.Some? <==> installments > 0 && Accepts(|old(changes)|, |old(changes)| + Disbursed(index, installments))
      ensures d.Some? ==> Agree(before, changes, d.value)
      ensures d.Some? ==>
                d.value == c.(loans := c.loans + 1, installments := c.installments + installments,
                              collaterals := c.collaterals + if IsSecured(index) then 1 else 0)
    {
      hide Agree, Count, Sum;
      d := Change(Loans, c, before);
      if d.Some? {
        d := InsertInstallments(installments, d.value, before);
      }
      if d.Some? && IsSecured(index) {
        d := Change(Collaterals, d.value, before);
      }
    }

    /**
     snapshot_action: None when it divides by zero, that is, for an application without customers
     or a loan without installments, or when the database refuses one of its rows. Otherwise the
     reported event count is the number of changed rows, table by table, for any sizes.
     */
    method Snapshot(customers: nat, applications: nat, installments: nat) returns (r: Option<nat>)
      modifies this
      ensures r.Some? <==>
                && SnapshotSucceeds(customers, applications, installments)
                && Accepts(|old(changes)|, |old(changes)| + Sum(SnapshotSize(customers, applications, installments)))
      ensures r.Some? ==> Agree(old(changes), changes, SnapshotSize(customers, applications, installments))
      ensures r.Some? ==> r.value == |changes| - |old(changes)|
    {
      ghost var before := changes;
      NothingApplied(customers, installments);
      SnapshotGrows(customers, 0, applications, installments);
      var d := InsertCustomers(customers, before);
      hide Agree, Count, Sum, Of, RelationsFrom, SnapshotSize, SnapshotSucceeds;
      if d.None? {
        return None;
      }
      var c := d.value;
      for index := 1 to applications + 1
        invariant Agree(before, changes, c) && c == SnapshotSize(customers, index - 1, installments)
        invariant SnapshotSucceeds(customers, index - 1, installments)
        invariant |changes| == |before| + Sum(c) && Accepts(|before|, |changes|)
      {
        ApplicationDecides(customers, index, applications, installments);
        ApplicationAdds(customers, index, installments);
        SnapshotGrows(customers, index, applications, installments);
        d := Apply(index, customers, installments, c, before);
        if d.None? {
          return None;
        }
        c := d.value;
        SumOfAgree(before, changes, c);
      }
      r := Some(Sum(c));
    }

    /** One application and, if it is approved, what it adds. */
    method Apply(index: nat, customers: nat, installments: nat, c: Counters, ghost before: seq<Table>)
      returns (d: Option<Counters>)
      requires Agree(before, changes, c)
      modifies this
      ensures d.Some? <==>
                && customers > 0 && (IsApproved(index) ==> installments > 0)
                && Accepts(|old(changes)|, |old(changes)| + Applied(index, installments))
      ensures d.Some? ==> Agree(before, changes, d.value) && d.value == AfterApplication(c, index, installments)
    {
      hide Agree, Count, Sum;
      if customers == 0 {
        return None;
      }
      d := Change(Applications, c, before);
      if d.Some? && IsApproved(index) {
        d := Disburse(index, installments, d.value, before);
      }
    }

    /** customer_change_action: `open` are the addresses it closes. */
    method ChangeCustomer(found: bool, open: nat) returns (r: Option<nat>)
      modifies this
      ensures r.Some? <==> found && Accepts(|old(changes)|, |old(changes)| + open + 2)
      ensures r.Some? ==> r.value == |changes| - |old(changes)| == open + 2
    {
      if !found {
        return None;
      }
      var ok := Touch(Customers);
      if !ok {
        return None;
      }
      for closed := 0 to open
        invariant |changes| == |old(changes)| + 1 + closed && Accepts(|old(changes)|, |changes|)
      {
        ok := Touch(Addresses);
        if !ok {
          return None;
        }
      }
      ok := Touch(Addresses);
      r := if ok then Some(1 + open + 1) else None;
    }

    /** contact_delete_action. */
    method DeleteContact(found: bool) returns (r: Option<nat>)
      modifies this
      ensures r.Some? <==> found && Accepts(|old(changes)|, |old(changes)| + 1)
      ensures r.Some? ==> r.value == |changes| - |old(changes)| == 1
    {
      if !found {
        return None;
      }
      var ok := Touch(Contacts);
      r := if ok then Some(1) else None;
    }

    /** loan_approval_action: one updated application, one loan and its installments. */
    method ApproveLoan(pending: bool, rated: bool, installments: nat) returns (r: Option<nat>)
      modifies this
      ensures r.Some? <==>
                pending && rated && installments > 0 && Accepts(|old(changes)|, |old(changes)| + 2 + installments)
      ensures r.Some? ==> r.value == |changes| - |old(changes)| == 2 + installments
    {
      ghost var before := changes;
      hide Agree, Count, Sum, Of;
      AgreeStarts(changes);
      if !pending {
        return None;
      }
      var d := Change(Applications, ZERO, before);
      if d.None? || !rated {
        return None;
      }
      d := Change(Loans, d.value, before);
      if d.None? {
        return None;
      }
      d := InsertInstallments(installments, d.value, before);
      r := if d.Some? then Some(2 + installments) else None;
    }

    /** installment_change_action: one paid, one overdue, and their loan. */
    method ChangeInstallments(active: bool, pending: nat) returns (r: Option<nat>)
      modifies this
      ensures r.Some? <==> active && pending >= 2 && Accepts(|old(changes)|, |old(changes)| + 3)
      ensures r.Some? ==> r.value == |changes| - |old(changes)| == 3
    {
      if !active || pending < 2 {
        return None;
      }
      var ok := Touch(Installments);
      if ok {
        ok := Touch(Installments);
      }
      if ok {
        ok := Touch(Loans);
      }
      r := if ok then Some(1 + 1 + 1) else None;
    }

    /** rate_change_action: the open rate is closed and its successor inserted. */
    method ChangeRate(current: bool) returns (r: Option<nat>)
      modifies this
      ensures r.Some? <==> current && Accepts(|old(changes)|, |old(changes)| + 2)
      ensures r.Some? ==> r.value == |changes| - |old(changes)| == 2
    {
      if !current {
        return None;
      }
      var ok := Touch(Rates);
      if ok {
        ok := Touch(Rates);
      }
      r := if ok then Some(1 + 1) else None;
    }
  }

  /** The rows an application adds, and those of its loan among them. */
  function Applied(index: nat, installments: nat): nat {
    if IsApproved(index) then 1 + Disbursed(index, installments) else 1
  }

  function Disbursed(index: nat, installments: nat): nat {
    1 + installments + if IsSecured(index) then 1 else 0
  }

  function AfterApplication(c: Counters, index: nat, installments: nat): Counters {
    if !IsApproved(index) then c.(applications := c.applications + 1)
    else c.(applications := c.applications + 1, loans := c.loans + 1, installments := c.installments + installments,
            collaterals := c.collaterals + if IsSecured(index) then 1 else 0)
  }

  lemma CustomersFirst(customers: nat)
    ensures SnapshotSize(customers, 0, 0) ==
              ZERO.(customers := customers, addresses := customers, contacts := 2 * customers,
                    relations := RelationsFrom(10, customers))
    ensures Sum(SnapshotSize(customers, 0, 0)) == 4 * customers + RelationsFrom(10, customers)
  {
  }

  lemma NothingApplied(customers: nat, installments: nat)
    ensures SnapshotSucceeds(customers, 0, installments)
    ensures SnapshotSize(customers, 0, installments) == SnapshotSize(customers, 0, 0)
  {
  }

  lemma ApplicationAdds(customers: nat, index: nat, installments: nat)
    requires 1 <= index
    ensures SnapshotSize(customers, index, installments)
         == AfterApplication(SnapshotSize(customers, index - 1, installments), index, installments)
    ensures Sum(SnapshotSize(customers, index, installments))
         == Sum(SnapshotSize(customers, index - 1, installments)) + Applied(index, installments)
  {
    ApprovalsGrow(index, index, installments);
  }

  lemma {:induction false} SnapshotGrows(customers: nat, index: nat, applications: nat, installments: nat)
    requires index <= applications
    ensures Sum(SnapshotSize(customers, index, installments))
         <= Sum(SnapshotSize(customers, applications, installments))
    decreases applications - index
  {
    hide Sum, SnapshotSize, Applied;
    if index < applications {
      ApplicationAdds(customers, index + 1, installments);
      SnapshotGrows(customers, index + 1, applications, installments);
    }
  }

  /** The sizes grow by what an application adds, and one that fails fails the whole snapshot. */
  lemma ApplicationDecides(customers: nat, index: nat, applications: nat, installments: nat)
    requires 1 <= index <= applications && SnapshotSucceeds(customers, index - 1, installments)
    ensures SnapshotSize(customers, index, installments)
         == AfterApplication(SnapshotSize(customers, index - 1, installments), index, installments)
    ensures SnapshotSucceeds(customers, index, installments)
       <==> customers > 0 && (IsApproved(index) ==> installments > 0)
    ensures !SnapshotSucceeds(customers, index, installments) ==>
              !SnapshotSucceeds(customers, applications, installments)
  {
    ApprovalsGrow(index, applications, installments);
  }

  predicate SnapshotSucceeds(customers: nat, applications: nat, installments: nat) {
    (applications == 0 || customers > 0) && (Approvals(applications) == 0 || installments > 0)
  }

  lemma AgreeStarts(changes: seq<Table>)
    ensures Agree(changes, changes, ZERO)
  {
  }

  lemma SumOfAgree(before: seq<Table>, changes: seq<Table>, c: Counters)
    requires Agree(before, changes, c)
    ensures Sum(c) == |changes| - |before|
  {
  }

  lemma {:induction false} ApprovalsGrow(index: nat, n: nat, k: nat)
    requires 1 <= index <= n
    ensures Approvals(index) <= Approvals(n) && Approvals(index) == Approvals(index - 1) + if IsApproved(index) then 1
              else 0
    ensures Approvals(index) * k == Approvals(index - 1) * k + if IsApproved(index) then k else 0
    decreases n - index
  {
    if index < n { ApprovalsGrow(index + 1, n, k); }
  }

  // ---------------------------------------------------------------- scenarios

  /** The actions of the snapshot and of the changes run; the parameters are what their queries find. */
  datatype Action =
    | TakeSnapshot(customers: nat, applications: nat, installments: nat)
    | CustomerChange(found: bool, open: nat)
    | ContactDelete(found: bool)
    | LoanApproval(pending: bool, rated: bool, installments: nat)
    | InstallmentChange(active: bool, unpaid: nat)
    | RateChange(current: bool)

  predicate Succeeds(a: Action) {
    match a
    case TakeSnapshot(customers, applications, installments) => SnapshotSucceeds(customers, applications, installments)
    case CustomerChange(found, _) => found
    case ContactDelete(found) => found
    case LoanApproval(pending, rated, installments) => pending && rated && installments > 0
    case InstallmentChange(active, unpaid) => active && unpaid >= 2
    case RateChange(current) => current
  }

  /** The size of the transaction an action leaves. */
  function SizeOf(a: Action): nat {
    match a
    case TakeSnapshot(customers, applications, installments) => Sum(SnapshotSize(customers, applications, installments))
    case CustomerChange(_, open) => open + 2
    case ContactDelete(_) => 1
    case LoanApproval(_, _, installments) => 2 + installments
    case InstallmentChange(_, _) => 3
    case RateChange(_) => 2
  }

  /**
   What a transaction may come back with: nothing if its action raises or the database refuses one of
   its rows, the ledger row behind them included; otherwise all its changes, counted exactly.
   */
  predicate Produces(e: Scenario, outcome: Option<Outcome>) {
    && (outcome.Some? <==> Succeeds(e.action) && (e.refused.None? || e.refused.value > SizeOf(e.action)))
    && (outcome.Some? ==> outcome.value.count == |outcome.value.changes| == SizeOf(e.action))
  }

  /** One turn of execute_event: the action's outcome, and whether the log line behind it succeeds. */
  datatype Turn = Turn(key: string, outcome: Option<Outcome>, logged: bool)

  /** A scenario, the row of its transaction the database refuses if any, and whether its log line succeeds. */
  datatype Scenario = Scenario(key: string, action: Action, refused: Option<nat>, logged: bool)

  /** execute_event; false when it raises. */
  function Perform(s: Source, run: string, t: Turn): (Source, bool) {
    if Done(s, run, t.key) then (s, t.logged) else
    var started := MarkRunning(s, run, t.key);
    if t.outcome.None? then (MarkFailed(started, run, t.key), false) else
    var committed := CommitAction(started, run, t.key, t.outcome.value);
    if t.logged then (committed, true) else (MarkFailed(committed, run, t.key), false)
  }

  /** Turns up to the first that raises. */
  function PerformAll(s: Source, run: string, turns: seq<Turn>): (Source, bool) {
    if turns == [] then (s, true) else
    var n := |turns| - 1;
    var (before, ok) := PerformAll(s, run, turns[..n]);
    if ok then Perform(before, run, turns[n]) else (before, false)
  }

  /** A whole invocation: what it leaves, and its exit code. */
  function Executed(s: Source, run: string, config: string, turns: seq<Turn>, startLogged: bool, finishLogged: bool)
    : (Source, nat)
  {
    match StartRun(s, run, config)
    case Err(AlreadyCompleted) => if startLogged then (s, 0) else (SetRun(s, run, FAILED), 1)
    case Err(DifferentConfig) => (SetRun(s, run, FAILED), 1)
    case Ok(started) =>
      if !startLogged then (SetRun(started, run, FAILED), 1) else
      var (after, ok) := PerformAll(started, run, turns);
      if ok && finishLogged then (SetRun(after, run, COMPLETED), 0)
      else (SetRun(after, run, FAILED), 1)
  }

  lemma LastStatusStays(s: Source, run: string)
    ensures SetRun(SetRun(s, run, COMPLETED), run, FAILED) == SetRun(s, run, FAILED)
  {
    if run in s.runs {
      var row := s.runs[run];
      assert s.runs[run := row.(status := COMPLETED)][run := row.(status := FAILED)]
          == s.runs[run := row.(status := FAILED)];
    }
  }

  /** The turn a scenario takes from a state: its own key, and the outcome of its action unless it is skipped. */
  predicate Answers(s: Source, run: string, e: Scenario, t: Turn) {
    t.key == e.key && t.logged == e.logged && (Done(s, run, e.key) || Produces(e, t.outcome))
  }

  lemma PerformKeepsDone(s: Source, run: string, t: Turn)
    requires Perform(s, run, t).1
    ensures Done(Perform(s, run, t).0, run, t.key)
    ensures forall key | Done(s, run, key) :: Done(Perform(s, run, t).0, run, key)
  {
  }

  /** A run that raises nowhere leaves every scenario COMPLETED. */
  lemma {:induction false} RunCompletesAll(s: Source, run: string, turns: seq<Turn>)
    requires PerformAll(s, run, turns).1
    ensures forall t | t in turns :: Done(PerformAll(s, run, turns).0, run, t.key)
  {
    hide Perform, Done;
    if turns != [] {
      var n := |turns| - 1;
      RunCompletesAll(s, run, turns[..n]);
      PerformKeepsDone(PerformAll(s, run, turns[..n]).0, run, turns[n]);
      assert forall t :: t in turns <==> t in turns[..n] || t == turns[n];
    }
  }

  /** And repeating it changes nothing. */
  lemma {:induction false} CompletedRunIsIdempotent(s: Source, run: string, turns: seq<Turn>)
    requires forall t | t in turns :: Done(s, run, t.key) && t.logged
    ensures PerformAll(s, run, turns) == (s, true)
  {
    if turns != [] {
      var n := |turns| - 1;
      assert turns[n] in turns;
      CompletedRunIsIdempotent(s, run, turns[..n]);
    }
  }

  /** Steps of the process machine for one turn of a process that stands before the scenario. */
  function TurnSteps(script: map<string, seq<string>>, w: World, pid: string, t: Turn): World
    requires pid in w.procs
  {
    if Done(w.source, w.procs[pid].run, t.key) then Next(script, w, if t.logged then Advance(pid) else Raise(pid)) else
    var acting := Next(script, w, Advance(pid));
    if t.outcome.None? then Next(script, acting, Raise(pid)) else
    Next(script, Next(script, acting, Act(pid, t.outcome.value)), if t.logged then Log(pid) else Raise(pid))
  }

  /** execute_event is what the process machine does between two scenarios, or up to the failed run. */
  lemma TurnIsSteps(script: map<string, seq<string>>, w: World, pid: string, i: nat, t: Turn)
    requires pid in w.procs && w.procs[pid].phase == AtEvent(i)
    requires i < |ScriptOf(script, w.procs[pid].run)| && ScriptOf(script, w.procs[pid].run)[i] == t.key
    ensures var run := w.procs[pid].run;
            var (after, ok) := Perform(w.source, run, t);
            TurnSteps(script, w, pid, t) ==
              if ok then World(after, w.procs[pid := Process(run, AtEvent(i + 1))])
              else World(SetRun(after, run, FAILED), w.procs - {pid})
  {
    var run := w.procs[pid].run;
    if !Done(w.source, run, t.key) {
      var acting := Next(script, w, Advance(pid));
      StartsTurn(script, w, pid, i);
      hide Done, MarkRunning, MarkFailed, CommitAction, SetRun;
      Moved(w.procs, pid, Process(run, InAction(i)), Process(run, Logging(i)));
      Moved(w.procs, pid, Process(run, Logging(i)), Process(run, AtEvent(i + 1)));
    }
  }

  lemma StartsTurn(script: map<string, seq<string>>, w: World, pid: string, i: nat)
    requires pid in w.procs && w.procs[pid].phase == AtEvent(i) && i < |ScriptOf(script, w.procs[pid].run)|
    requires !Done(w.source, w.procs[pid].run, ScriptOf(script, w.procs[pid].run)[i])
    ensures var run := w.procs[pid].run;
            Next(script, w, Advance(pid))
            == World(MarkRunning(w.source, run, ScriptOf(script, run)[i]), w.procs[pid := Process(run, InAction(i))])
  {
  }

  lemma Moved(procs: map<string, Process>, pid: string, p: Process, q: Process)
    ensures procs[pid := p][pid := q] == procs[pid := q] && procs[pid := p] - {pid} == procs - {pid}
  {
  }

  // ---------------------------------------------------------------- execute_event, run_changes and main

  class SourceDatabase {
    var commits: seq<Commit>
    var ledger: map<EventKey, Entry>
    var runs: map<string, RunRow>

    constructor ()
      ensures State() == Source([], map[], map[])
    {
      commits, ledger, runs := [], map[], map[];
    }

    function State(): Source
      reads this
    {
      Source(commits, ledger, runs)
    }

    /** start_run: false when the run is already completed, None when its options differ or its log line raises. */
    method Start(run: string, config: string, logged: bool) returns (started: Option<bool>)
      modifies this`runs
      ensures started == (match StartRun(old(State()), run, config)
                          case Ok(_) => if logged then Some(true) else None
                          case Err(error) => if error == AlreadyCompleted && logged then Some(false) else None)
      ensures State() == if StartRun(old(State()), run, config).Ok?
                         then StartRun(old(State()), run, config).value else old(State())
    {
      var completed := false;
      if run in runs {
        if runs[run].config != config {
          return None;
        }
        completed := runs[run].status == COMPLETED;
        if !completed {
          runs := runs[run := runs[run].(status := RUNNING)];
        }
      } else {
        runs := runs[run := RunRow(config, RUNNING)];
      }
      started := if logged then Some(!completed) else None;
    }

    /** fail_run, and finish_run up to its log line. */
    method CloseRun(run: string, status: Status)
      modifies this`runs
      ensures State() == SetRun(old(State()), run, status)
    {
      if run in runs {
        runs := runs[run := runs[run].(status := status)];
      }
    }

    /** The transaction of a scenario up to its ledger row: its changes and their count, or None. */
    method RunAction(e: Scenario) returns (outcome: Option<Outcome>)
      ensures Produces(e, outcome)
    {
      hide Agree, Count, Approvals;
      var transaction := new Transaction(e.refused);
      var count: Option<nat>;
      match e.action {
        case TakeSnapshot(customers, applications, installments) =>
          count := transaction.Snapshot(customers, applications, installments);
          if count.Some? {
            SumOfAgree([], transaction.changes, SnapshotSize(customers, applications, installments));
          }
        case CustomerChange(found, open) => count := transaction.ChangeCustomer(found, open);
        case ContactDelete(found) => count := transaction.DeleteContact(found);
        case LoanApproval(pending, rated, installments) => count :=
            transaction.ApproveLoan(pending, rated, installments);
        case InstallmentChange(active, unpaid) => count := transaction.ChangeInstallments(active, unpaid);
        case RateChange(current) => count := transaction.ChangeRate(current);
      }
      if count.None? || e.refused == Some(|transaction.changes|) {
        return None;
      }
      outcome := Some(Outcome(transaction.changes, count.value));
    }

    /**
     execute_event: skip a COMPLETED scenario; otherwise mark it RUNNING and commit, then commit the
     action's changes with its ledger row. An exception, also one of the log line, marks it FAILED.
     */
    method ExecuteEvent(run: string, e: Scenario) returns (ok: bool, ghost turn: Turn)
      modifies this`commits, this`ledger
      ensures Answers(old(State()), run, e, turn)
      ensures (State(), ok) == Perform(old(State()), run, turn)
    {
      var key := e.key;
      if (run, key) in ledger && ledger[(run, key)].status == COMPLETED {
        return e.logged, Turn(key, None, e.logged);
      }
      var row := if (run, key) in ledger then ledger[(run, key)] else Entry(RUNNING, None, None);
      ledger := ledger[(run, key) := row.(status := RUNNING)];
      var outcome := RunAction(e);
      turn := Turn(key, outcome, e.logged);
      if outcome.None? {
        ledger := ledger[(run, key) := ledger[(run, key)].(status := FAILED)];
        return false, turn;
      }
      var txid := |commits|;
      commits := commits + [Commit(run, key, outcome.value.changes)];
      ledger := ledger[(run, key) := Entry(COMPLETED, Some(outcome.value.count), Some(txid))];
      if !e.logged {
        ledger := ledger[(run, key) := ledger[(run, key)].(status := FAILED)];
      }
      ok := e.logged;
    }

    /** run_changes: the scenarios in order, stopping at the first that raises; `turns` are those taken. */
    method RunChanges(run: string, scenarios: seq<Scenario>) returns (ok: bool, ghost turns: seq<Turn>)
      modifies this`commits, this`ledger
      ensures (State(), ok) == PerformAll(old(State()), run, turns)
      ensures |turns| <= |scenarios| && (ok ==> |turns| == |scenarios|)
      ensures forall i | 0 <= i < |turns| ::
                Answers(PerformAll(old(State()), run, turns[..i]).0, run, scenarios[i], turns[i])
    {
      hide Perform, Answers, Done;
      turns := [];
      for i := 0 to |scenarios|
        invariant |turns| == i && (State(), true) == PerformAll(old(State()), run, turns)
        invariant runs == old(runs)
        invariant forall k | 0 <= k < |turns| ::
                    Answers(PerformAll(old(State()), run, turns[..k]).0, run, scenarios[k], turns[k])
      {
        ghost var taken := turns;
        ghost var turn: Turn;
        ok, turn := ExecuteEvent(run, scenarios[i]);
        turns := taken + [turn];
        assert turns[..i] == taken;
        assert forall k | 0 <= k < i :: turns[..k] == taken[..k] && turns[k] == taken[k];
        if !ok {
          return;
        }
      }
      ok := true;
    }

    /**
     The main function behind its argument parsing: the exit code, and the run closed either way. The
     log line of start_run stands behind its commit, and that of finish_run behind the COMPLETED row,
     which an exception there rewrites.
     */
    method Execute(run: string, config: string, scenarios: seq<Scenario>, startLogged: bool, finishLogged: bool)
      returns (code: nat, ghost turns: seq<Turn>)
      modifies this
      ensures Executed(old(State()), run, config, turns, startLogged, finishLogged) == (State(), code)
      ensures |turns| <= |scenarios|
      ensures StartRun(old(State()), run, config).Ok? && code == 0 ==> |turns| == |scenarios|
      ensures StartRun(old(State()), run, config).Ok? ==>
                var started := StartRun(old(State()), run, config).value;
                forall i | 0 <= i < |turns| ::
                  Answers(PerformAll(started, run, turns[..i]).0, run, scenarios[i], turns[i])
    {
      hide PerformAll, Answers;
      turns := [];
      var started := Start(run, config, startLogged);
      if started == Some(false) {
        return 0, [];
      }
      var ok := false;
      if started.Some? {
        ok, turns := RunChanges(run, scenarios);
      }
      if ok {
        LastStatusStays(State(), run);
        CloseRun(run, COMPLETED);
        ok := finishLogged;
      }
      if !ok {
        CloseRun(run, FAILED);
      }
      code := if ok then 0 else 1;
    }
  }
}
