/** Point-in-time reconciliation evidence: the rules of one attempt, and their validation. */
module Audit {
  import opened Wrappers
  import opened Ordering
  import opened Manifest

  datatype ReconciliationRow = ReconciliationRow(checkScope: string, objectName: string, expected: int, actual: int,
                                                 difference: int, passed: bool)

  datatype Rule = Rule(ruleId: string, objectName: string, scope: string, expected: int, observed: int,
                       difference: int, status: Verdict)

  datatype Mark = Mark(topic: string, partition: int, low: int, high: int)

  datatype AuditPayload = AuditPayload(schemaVersion: int, ruleVersion: string, batchId: string, attemptNumber: int,
                                       airflowRunId: string, manifestSha: Digest, watermark: seq<Mark>,
                                       sourceControl: Option<SourceControl>, rules: seq<Rule>)

  datatype AuditError = WrongAttempt | NoWatermark | NoRules | BadRule | BadOrder

  const AUDIT_SCHEMA := 1
  const RULE_VERSION := "raw-vault-audit-v1"

  // ---------------------------------------------------------------- rows and rules

  function Reconcile(checkScope: string, objectName: string, expected: int, actual: int): ReconciliationRow {
    ReconciliationRow(checkScope, objectName, expected, actual, actual - expected, actual == expected)
  }

  function RuleOf(row: ReconciliationRow): Rule {
    Rule(row.checkScope, row.objectName, "point_in_time_batch", row.expected, row.actual, row.difference,
         if row.passed then PASS else FAIL)
  }

  function AuditRules(rows: seq<ReconciliationRow>): (rules: seq<Rule>)
    ensures |rules| == |rows|
  {
    seq(|rows|, i requires 0 <= i < |rows| => RuleOf(rows[i]))
  }

  predicate RuleLe(a: Rule, b: Rule) {
    if a.ruleId == b.ruleId then StringLe(a.objectName, b.objectName) else StringLe(a.ruleId, b.ruleId)
  }

  predicate SameIdentity(a: Rule, b: Rule) {
    a.ruleId == b.ruleId && a.objectName == b.objectName
  }

  function Watermark(partitions: seq<Bound>): (marks: seq<Mark>)
    ensures |marks| == |partitions|
  {
    seq(|partitions|, i requires 0 <= i < |partitions| =>
      Mark(partitions[i].topic, partitions[i].partition, partitions[i].low, partitions[i].high))
  }

  /** `build_audit_payload`: the rules are stored sorted by identity. */
  function BuildAuditPayload(batchId: string, attemptNumber: int, airflowRunId: string, manifest: Payload,
                             rules: seq<Rule>): AuditPayload
  {
    AuditPayload(AUDIT_SCHEMA, RULE_VERSION, batchId, attemptNumber, airflowRunId, Sha256(manifest),
                 Watermark(manifest.partitions), manifest.sourceControl, Sort(RuleLe, rules))
  }

  // ---------------------------------------------------------------- validation

  /** A rule is consistent when difference and verdict follow from its two values. */
  predicate RuleConsistent(r: Rule) {
    && r.ruleId != "" && r.objectName != "" && r.difference == r.observed - r.expected
    && (r.status == PASS <==> r.expected == r.observed)
  }

  predicate RulesOrdered(rules: seq<Rule>) {
    forall i, j | 0 <= i < j < |rules| :: RuleLe(rules[i], rules[j]) && !SameIdentity(rules[i], rules[j])
  }

  predicate OfAttempt(p: AuditPayload, batchId: string, attemptNumber: int, airflowRunId: string, sha: Digest) {
    && p.schemaVersion == AUDIT_SCHEMA && p.ruleVersion == RULE_VERSION && p.batchId == batchId
    && p.attemptNumber == attemptNumber && p.airflowRunId == airflowRunId && p.manifestSha == sha
  }

  predicate AuditAccepted(p: AuditPayload) {
    && p.watermark != [] && p.rules != []
    && (forall i | 0 <= i < |p.rules| :: RuleConsistent(p.rules[i]))
    && RulesOrdered(p.rules)
  }

  method ValidateAuditPayload(p: AuditPayload, batchId: string, attemptNumber: int, airflowRunId: string, sha: Digest)
    returns (r: Result<AuditPayload, AuditError>)
    ensures r.Ok? <==> OfAttempt(p, batchId, attemptNumber, airflowRunId, sha) && AuditAccepted(p)
    ensures r.Ok? ==> r.value == p
  {
    if !OfAttempt(p, batchId, attemptNumber, airflowRunId, sha) {
      return Err(WrongAttempt);
    }
    if p.watermark == [] {
      return Err(NoWatermark);
    }
    if p.rules == [] {
      return Err(NoRules);
    }
    var identities: seq<(string, string)> := [];
    for i := 0 to |p.rules|
      invariant |identities| == i
      invariant forall k | 0 <= k < i :: identities[k] == (p.rules[k].ruleId, p.rules[k].objectName)
      invariant forall k | 0 <= k < i :: RuleConsistent(p.rules[k])
    {
      var rule := p.rules[i];
      identities := identities + [(rule.ruleId, rule.objectName)];
      if rule.ruleId == "" || rule.objectName == "" || rule.difference != rule.observed - rule.expected {
        return Err(BadRule);
      }
      var expectedStatus := if rule.expected == rule.observed then PASS else FAIL;
      if rule.status != expectedStatus {
        return Err(BadRule);
      }
    }
    if exists i, j | 0 <= i < j < |p.rules| :: !RuleLe(p.rules[i], p.rules[j]) || identities[i] == identities[j] {
      return Err(BadOrder);
    }
    r := Ok(p);
  }

  function FailedRules(rules: seq<Rule>): nat {
    if rules == [] then 0 else FailedRules(rules[..|rules| - 1]) + if rules[|rules| - 1].status == FAIL then 1 else 0
  }

  lemma {:induction false} NoFailureMeansAllPass(rules: seq<Rule>)
    ensures FailedRules(rules) == 0 <==> forall i | 0 <= i < |rules| :: rules[i].status == PASS
  {
    if rules != [] { NoFailureMeansAllPass(rules[..|rules| - 1]); }
  }

  // ---------------------------------------------------------------- build, then validate

  lemma RuleLeIsTotal()
    ensures TotalPreorder(RuleLe)
  {
    forall a: Rule, b: Rule ensures RuleLe(a, b) || RuleLe(b, a) {
      StringLeTotal(a.ruleId, b.ruleId);
      StringLeTotal(a.objectName, b.objectName);
    }
    forall a: Rule, b: Rule, c: Rule | RuleLe(a, b) && RuleLe(b, c) ensures RuleLe(a, c) {
      StringLeTotal(a.ruleId, b.ruleId);
      StringLeTotal(b.ruleId, c.ruleId);
      if StringLe(a.ruleId, b.ruleId) && StringLe(b.ruleId, c.ruleId) {
        StringLeTransitive(a.ruleId, b.ruleId, c.ruleId);
      }
      if StringLe(a.objectName, b.objectName) && StringLe(b.objectName, c.objectName) {
        StringLeTransitive(a.objectName, b.objectName, c.objectName);
      }
    }
  }

  predicate DistinctRows(rows: seq<ReconciliationRow>) {
    forall i, j | 0 <= i < j < |rows| ::
      !(rows[i].checkScope == rows[j].checkScope && rows[i].objectName == rows[j].objectName)
  }

  predicate Reconciled(rows: seq<ReconciliationRow>) {
    forall i | 0 <= i < |rows| ::
      rows[i] == Reconcile(rows[i].checkScope, rows[i].objectName, rows[i].expected, rows[i].actual)
  }

  predicate Balanced(row: ReconciliationRow) { row.actual == row.expected }

  predicate NamedRows(rows: seq<ReconciliationRow>) {
    forall i | 0 <= i < |rows| :: rows[i].checkScope != "" && rows[i].objectName != ""
  }

  lemma SortedRulesAreRows(rows: seq<ReconciliationRow>)
    ensures multiset(Sort(RuleLe, AuditRules(rows))) == multiset(AuditRules(rows))
    ensures SortedBy(RuleLe, Sort(RuleLe, AuditRules(rows)))
    ensures |Sort(RuleLe, AuditRules(rows))| == |rows|
    ensures forall r :: r in Sort(RuleLe, AuditRules(rows)) <==> exists i | 0 <= i < |rows| :: RuleOf(rows[i]) == r
  {
    var rules := AuditRules(rows);
    RuleLeIsTotal();
    SortIsOrderedPermutation(RuleLe, rules);
    SameMultisetSameElements(Sort(RuleLe, rules), rules);
    forall r ensures r in rules <==> exists i | 0 <= i < |rows| :: RuleOf(rows[i]) == r {
      if i :| 0 <= i < |rows| && RuleOf(rows[i]) == r { assert rules[i] == r; }
    }
  }

  lemma SortedRulesOrdered(rows: seq<ReconciliationRow>)
    requires DistinctRows(rows)
    ensures RulesOrdered(Sort(RuleLe, AuditRules(rows)))
  {
    var rules := AuditRules(rows);
    var sorted := Sort(RuleLe, rules);
    SortedRulesAreRows(rows);
    assert Unique(rules) by {
      forall i, j | 0 <= i < j < |rules| ensures rules[i] != rules[j] {
        assert rules[i] == RuleOf(rows[i]) && rules[j] == RuleOf(rows[j]);
      }
    }
    SameMultisetSameElements(sorted, rules);
    forall i, j | 0 <= i < j < |sorted| ensures !SameIdentity(sorted[i], sorted[j]) {
      assert sorted[i] in sorted && sorted[j] in sorted && sorted[i] != sorted[j];
      var a :| 0 <= a < |rows| && RuleOf(rows[a]) == sorted[i];
      var b :| 0 <= b < |rows| && RuleOf(rows[b]) == sorted[j];
      assert a != b;
    }
  }

  /**
   Evidence built from reconciliation rows with distinct names is accepted for its own attempt,
   and records no failed rule exactly when every row reconciles.
   */
  lemma BuiltEvidenceIsAccepted(batchId: string, attemptNumber: int, airflowRunId: string, manifest: Payload,
                                rows: seq<ReconciliationRow>)
    requires manifest.partitions != [] && rows != [] && DistinctRows(rows) && NamedRows(rows) && Reconciled(rows)
    ensures var p := BuildAuditPayload(batchId, attemptNumber, airflowRunId, manifest, AuditRules(rows));
            && OfAttempt(p, batchId, attemptNumber, airflowRunId, Sha256(manifest)) && AuditAccepted(p)
            && (FailedRules(p.rules) == 0 <==> forall i | 0 <= i < |rows| :: Balanced(rows[i]))
  {
    var sorted := Sort(RuleLe, AuditRules(rows));
    SortedRulesAreRows(rows);
    SortedRulesOrdered(rows);
    forall k | 0 <= k < |sorted| ensures RuleConsistent(sorted[k]) {
      assert sorted[k] in sorted;
    }
    NoFailureMeansAllPass(sorted);
    if FailedRules(sorted) == 0 {
      forall i | 0 <= i < |rows| ensures Balanced(rows[i]) {
        assert RuleOf(rows[i]) in sorted;
      }
    } else {
      var k :| 0 <= k < |sorted| && sorted[k].status != PASS;
      assert sorted[k] in sorted;
    }
  }

  // ---------------------------------------------------------------- the control rows of a batch

  function PassCount(ts: seq<Transaction>): nat {
    if ts == [] then 0 else PassCount(ts[..|ts| - 1]) + if ts[|ts| - 1].status == PASS then 1 else 0
  }

  const EVENT_COUNT := "MANIFEST_TO_BRONZE_EVENT_COUNT"
  const COORDINATES := "MANIFEST_TO_UNIQUE_KAFKA_COORDINATES"
  const CLASSIFICATION := "BRONZE_CLASSIFICATION_CONSERVATION"
  const LEDGER_EVENTS := "SOURCE_LEDGER_TO_BRONZE_EVENTS"
  const COMPLETENESS := "SOURCE_TRANSACTION_COMPLETENESS"
  const UNTRACKED := "UNTRACKED_SOURCE_EVENTS"
  const MISSING_KEYS := "BOUNDED_BATCH_TO_TARGET_MISSING_KEYS"

  function SourceRows(control: Option<SourceControl>): seq<ReconciliationRow> {
    match control
    case None => []
    case Some(sc) => [
      Reconcile(LEDGER_EVENTS, "postgres_workload_ledger", sc.expected, sc.observed),
      Reconcile(COMPLETENESS, "postgres_workload_ledger", |sc.transactions|, PassCount(sc.transactions)),
      Reconcile(UNTRACKED, "bronze_batch", 0, sc.untracked)]
  }

  /** What Spark counted while reading the selected objects; all zero for a no-op manifest. */
  datatype Counts = Counts(events: int, coordinates: int, accepted: int, quarantined: int)

  function ControlRows(manifest: Payload, counts: Counts): seq<ReconciliationRow> {
    [Reconcile(EVENT_COUNT, "bronze_batch", manifest.objectCount, counts.events),
     Reconcile(COORDINATES, "bronze_batch", manifest.objectCount, counts.coordinates),
     Reconcile(CLASSIFICATION, "accepted_plus_quarantine", counts.events,
               counts.accepted + counts.quarantined)]
    + SourceRows(manifest.sourceControl)
  }

  /** One missing-key row per loaded table. */
  function MissingKeyRows(missing: seq<(string, int)>): (rows: seq<ReconciliationRow>)
    ensures |rows| == |missing|
  {
    seq(|missing|, i requires 0 <= i < |missing| =>
      Reconcile(MISSING_KEYS, missing[i].0, 0, missing[i].1))
  }

  function BatchRows(manifest: Payload, counts: Counts, missing: seq<(string, int)>): seq<ReconciliationRow> {
    ControlRows(manifest, counts) + MissingKeyRows(missing)
  }

  predicate DistinctTables(missing: seq<(string, int)>) {
    && (forall i | 0 <= i < |missing| :: missing[i].0 != "")
    && (forall i, j | 0 <= i < j < |missing| :: missing[i].0 != missing[j].0)
  }

  lemma {:induction false} PassCountBound(ts: seq<Transaction>)
    ensures PassCount(ts) <= |ts|
    ensures PassCount(ts) == |ts| <==> forall i | 0 <= i < |ts| :: ts[i].status == PASS
  {
    if ts != [] { PassCountBound(ts[..|ts| - 1]); }
  }

  predicate SourceBalanced(control: Option<SourceControl>) {
    control.Some? ==>
      var sc := control.value;
      && sc.expected == sc.observed && sc.untracked == 0
      && forall i | 0 <= i < |sc.transactions| :: sc.transactions[i].status == PASS
  }

  /**
   The stored evidence of a batch passes exactly when Spark read the sealed number of distinct
   coordinates, classification conserves, no target key is missing, the ledger totals agree, every
   listed source transaction is complete and nothing is untracked.
   */
  lemma EvidencePassesExactlyWhenComplete(batchId: string, attemptNumber: int, airflowRunId: string, manifest: Payload,
                                          counts: Counts, missing: seq<(string, int)>)
    requires manifest.partitions != [] && DistinctTables(missing)
    ensures var p := BuildAuditPayload(batchId, attemptNumber, airflowRunId, manifest,
                                       AuditRules(BatchRows(manifest, counts, missing)));
            && OfAttempt(p, batchId, attemptNumber, airflowRunId, Sha256(manifest)) && AuditAccepted(p)
            && (FailedRules(p.rules) == 0 <==>
                && counts.events == counts.coordinates == manifest.objectCount
                && counts.accepted + counts.quarantined == counts.events
                && (forall i | 0 <= i < |missing| :: missing[i].1 == 0)
                && SourceBalanced(manifest.sourceControl))
  {
    var rows := BatchRows(manifest, counts, missing);
    RowsAreDistinct(manifest, counts, missing);
    BuiltEvidenceIsAccepted(batchId, attemptNumber, airflowRunId, manifest, rows);
    BalancedConcat(ControlRows(manifest, counts), MissingKeyRows(missing));
    ControlRowsBalance(manifest, counts);
    assert forall i | 0 <= i < |missing| :: MissingKeyRows(missing)[i].actual == missing[i].1;
  }

  lemma BalancedConcat(a: seq<ReconciliationRow>, b: seq<ReconciliationRow>)
    ensures (forall i | 0 <= i < |a + b| :: Balanced((a + b)[i])) <==>
            (forall i | 0 <= i < |a| :: Balanced(a[i])) && (forall i | 0 <= i < |b| :: Balanced(b[i]))
  {
    assert forall i | 0 <= i < |a| :: (a + b)[i] == a[i];
    assert forall i | 0 <= i < |b| :: (a + b)[|a| + i] == b[i];
  }

  lemma SourceRowsBalance(control: Option<SourceControl>)
    ensures (forall i | 0 <= i < |SourceRows(control)| :: Balanced(SourceRows(control)[i])) <==> SourceBalanced(control)
  {
    if control.Some? {
      var rows := SourceRows(control);
      PassCountBound(control.value.transactions);
      assert Balanced(rows[0]) && Balanced(rows[1]) && Balanced(rows[2]) <==> SourceBalanced(control);
    }
  }

  lemma ControlRowsBalance(manifest: Payload, counts: Counts)
    ensures (forall i | 0 <= i < |ControlRows(manifest, counts)| :: Balanced(ControlRows(manifest, counts)[i])) <==>
            && counts.events == counts.coordinates == manifest.objectCount
            && counts.accepted + counts.quarantined == counts.events
            && SourceBalanced(manifest.sourceControl)
  {
    var source := SourceRows(manifest.sourceControl);
    var bronze := ControlRows(manifest, counts)[..3];
    assert ControlRows(manifest, counts) == bronze + source;
    BalancedConcat(bronze, source);
    SourceRowsBalance(manifest.sourceControl);
    assert Balanced(bronze[0]) && Balanced(bronze[1]) && Balanced(bronze[2]) <==>
           counts.events == counts.coordinates == manifest.objectCount
               && counts.accepted + counts.quarantined == counts.events;
  }

  lemma ScopesDiffer()
    ensures EVENT_COUNT != COORDINATES && EVENT_COUNT != CLASSIFICATION && COORDINATES != CLASSIFICATION
    ensures LEDGER_EVENTS != COMPLETENESS && LEDGER_EVENTS != UNTRACKED && COMPLETENESS != UNTRACKED
    ensures {EVENT_COUNT, COORDINATES, CLASSIFICATION} !! {LEDGER_EVENTS, COMPLETENESS, UNTRACKED}
    ensures MISSING_KEYS !in {EVENT_COUNT, COORDINATES, CLASSIFICATION, LEDGER_EVENTS, COMPLETENESS, UNTRACKED}
  {
    assert |EVENT_COUNT| == |LEDGER_EVENTS| == 30 && |COORDINATES| == |MISSING_KEYS| == 36;
    assert |CLASSIFICATION| == 34 && |COMPLETENESS| == 31 && |UNTRACKED| == 23;
    assert EVENT_COUNT[0] == COORDINATES[0] == 'M' && LEDGER_EVENTS[0] == 'S' && MISSING_KEYS[0] == 'B';
  }

  lemma RowsAreDistinct(manifest: Payload, counts: Counts, missing: seq<(string, int)>)
    requires DistinctTables(missing)
    ensures var rows := BatchRows(manifest, counts, missing);
            rows != [] && DistinctRows(rows) && NamedRows(rows) && Reconciled(rows)
  {
    ScopesDiffer();
    var bronze, source, tables := ControlRows(manifest, counts)[..3], SourceRows(manifest.sourceControl),
        MissingKeyRows(missing);
    assert ControlRows(manifest, counts) == bronze + source;
    ThreeRows(bronze);
    if source != [] { ThreeRows(source); }
    JoinDistinct(bronze, source);
    JoinDistinct(bronze + source, tables);
  }

  lemma ThreeRows(rows: seq<ReconciliationRow>)
    requires |rows| == 3
    requires rows[0].checkScope != rows[1].checkScope && rows[0].checkScope != rows[2].checkScope
    requires rows[1].checkScope != rows[2].checkScope
    ensures DistinctRows(rows)
  {
  }

  lemma JoinDistinct(a: seq<ReconciliationRow>, b: seq<ReconciliationRow>)
    requires DistinctRows(a) && NamedRows(a) && Reconciled(a) && DistinctRows(b) && NamedRows(b) && Reconciled(b)
    requires forall i, j | 0 <= i < |a| && 0 <= j < |b| :: a[i].checkScope != b[j].checkScope
    ensures DistinctRows(a + b) && NamedRows(a + b) && Reconciled(a + b)
  {
  }
}
