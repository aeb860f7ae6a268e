/** The stored evidence in its own columns: what a payload must say to be accepted, and what a batch's payload says. */
module AuditRows {
  import opened Wrappers
  import opened Ordering
  import opened Manifest
  import opened Audit

  /**
   Accepted for an attempt: schema 1 and the fixed rule version, the attempt's own batch, number, run and
   manifest, a watermark, at least one rule, every rule named and consistent, and the rules in strictly
   increasing order of rule id and object name.
   */
  lemma PayloadIsAcceptedExactly(p: AuditPayload, batchId: string, number: int, run: string, sha: Digest)
    ensures OfAttempt(p, batchId, number, run, sha) && AuditAccepted(p) <==>
              && p.schemaVersion == 1 && p.ruleVersion == "raw-vault-audit-v1" && p.batchId == batchId
              && p.attemptNumber == number && p.airflowRunId == run && p.manifestSha == sha
              && p.watermark != [] && p.rules != []
              && (forall i | 0 <= i < |p.rules| ::
                    var r := p.rules[i];
                    && r.ruleId != "" && r.objectName != "" && r.difference == r.observed - r.expected
                    && r.status == if r.observed == r.expected then PASS else FAIL)
              && (forall i, j | 0 <= i < j < |p.rules| ::
                    || Precedes(p.rules[i].ruleId, p.rules[j].ruleId)
                    || (p.rules[i].ruleId == p.rules[j].ruleId
                         && Precedes(p.rules[i].objectName, p.rules[j].objectName)))
  {
    forall a: string, b: string ensures Precedes(a, b) <==> a != b && StringLe(a, b) { PrecedesExactly(a, b); }
    hide Precedes, StringLe;
    forall i | 0 <= i < |p.rules|
      ensures RuleConsistent(p.rules[i]) <==>
                var r := p.rules[i];
                && r.ruleId != "" && r.objectName != "" && r.difference == r.observed - r.expected
                && r.status == if r.observed == r.expected then PASS else FAIL
    {
    }
    hide RuleConsistent;
  }

  /** The rule that compares two values: its difference is the surplus observed, and it passes when there is none. */
  predicate Says(r: Rule, ruleId: string, objectName: string, expected: int, observed: int) {
    && r.ruleId == ruleId && r.objectName == objectName && r.scope == "point_in_time_batch"
    && r.expected == expected && r.observed == observed && r.difference == observed - expected
    && r.status == if observed == expected then PASS else FAIL
  }

  function Passed(ts: seq<Transaction>): set<nat> {
    set i: nat | i < |ts| && ts[i].status == PASS
  }

  lemma {:induction false} PassCountIsPassed(ts: seq<Transaction>)
    ensures PassCount(ts) == |Passed(ts)|
  {
    if ts != [] {
      var n := |ts| - 1;
      PassCountIsPassed(ts[..n]);
      assert Passed(ts) == Passed(ts[..n]) + if ts[n].status == PASS then {n} else {};
    }
  }

  /** The rules over the manifest and the Bronze rows read. */
  predicate BronzeRule(r: Rule, manifest: Payload, counts: Counts) {
    || Says(r, "MANIFEST_TO_BRONZE_EVENT_COUNT", "bronze_batch", manifest.objectCount, counts.events)
    || Says(r, "MANIFEST_TO_UNIQUE_KAFKA_COORDINATES", "bronze_batch", manifest.objectCount, counts.coordinates)
    || Says(r, "BRONZE_CLASSIFICATION_CONSERVATION", "accepted_plus_quarantine", counts.events,
            counts.accepted + counts.quarantined)
  }

  /** The rules over the frozen source ledger. */
  predicate SourceRule(r: Rule, control: Option<SourceControl>) {
    && control.Some?
    && var sc := control.value;
       || Says(r, "SOURCE_LEDGER_TO_BRONZE_EVENTS", "postgres_workload_ledger", sc.expected, sc.observed)
       || Says(r, "SOURCE_TRANSACTION_COMPLETENESS", "postgres_workload_ledger", |sc.transactions|,
               |Passed(sc.transactions)|)
       || Says(r, "UNTRACKED_SOURCE_EVENTS", "bronze_batch", 0, sc.untracked)
  }

  predicate TableRule(r: Rule, missing: seq<(string, int)>) {
    exists i :: 0 <= i < |missing| && Says(r, "BOUNDED_BATCH_TO_TARGET_MISSING_KEYS", missing[i].0, 0, missing[i].1)
  }

  /** The evidence of a batch holds exactly these rules, and the bounds of the manifest as its watermark. */
  lemma EvidenceSaysExactly(batchId: string, number: int, run: string, manifest: Payload, counts: Counts,
                            missing: seq<(string, int)>, r: Rule)
    ensures var p := BuildAuditPayload(batchId, number, run, manifest,
              AuditRules(BatchRows(manifest, counts, missing)));
            && (r in p.rules <==>
                  BronzeRule(r, manifest, counts) || SourceRule(r, manifest.sourceControl) || TableRule(r, missing))
            && |p.rules| == 3 + (if manifest.sourceControl.Some? then 3 else 0) + |missing|
            && |p.watermark| == |manifest.partitions| && p.sourceControl == manifest.sourceControl
            && forall i | 0 <= i < |p.watermark| ::
                 && p.watermark[i].topic == manifest.partitions[i].topic
                 && p.watermark[i].partition == manifest.partitions[i].partition
                 && p.watermark[i].low == manifest.partitions[i].low
                      && p.watermark[i].high == manifest.partitions[i].high
  {
    var rows := BatchRows(manifest, counts, missing);
    SortedRulesAreRows(rows);
    BronzeRules(manifest, counts, r);
    SourceRules(manifest.sourceControl, r);
    TableRules(missing, r);
    RuleOfConcat(ControlRows(manifest, counts)[..3], SourceRows(manifest.sourceControl), r);
    assert ControlRows(manifest, counts) == ControlRows(manifest, counts)[..3] + SourceRows(manifest.sourceControl);
    RuleOfConcat(ControlRows(manifest, counts), MissingKeyRows(missing), r);
    hide BronzeRule, SourceRule, TableRule, RuleOf, HasRule, Sort, RuleLe;
    assert HasRule(rows, r) <==> exists i | 0 <= i < |rows| :: RuleOf(rows[i]) == r by { HasRuleMeans(rows, r); }
  }

  predicate HasRule(rows: seq<ReconciliationRow>, r: Rule) {
    exists i | 0 <= i < |rows| :: RuleOf(rows[i]) == r
  }

  lemma HasRuleMeans(rows: seq<ReconciliationRow>, r: Rule)
    ensures HasRule(rows, r) <==> exists i | 0 <= i < |rows| :: RuleOf(rows[i]) == r
  {
  }

  lemma RuleOfConcat(a: seq<ReconciliationRow>, b: seq<ReconciliationRow>, r: Rule)
    ensures HasRule(a + b, r) <==> HasRule(a, r) || HasRule(b, r)
  {
    var all := a + b;
    if HasRule(a, r) {
      var i :| 0 <= i < |a| && RuleOf(a[i]) == r;
      assert RuleOf(all[i]) == r;
    }
    if HasRule(b, r) {
      var i :| 0 <= i < |b| && RuleOf(b[i]) == r;
      assert RuleOf(all[|a| + i]) == r;
    }
  }

  lemma BronzeRules(manifest: Payload, counts: Counts, r: Rule)
    ensures HasRule(ControlRows(manifest, counts)[..3], r) <==> BronzeRule(r, manifest, counts)
  {
    var rows := ControlRows(manifest, counts)[..3];
    assert HasRule(rows, r) <==> RuleOf(rows[0]) == r || RuleOf(rows[1]) == r || RuleOf(rows[2]) == r;
  }

  lemma SourceRules(control: Option<SourceControl>, r: Rule)
    ensures HasRule(SourceRows(control), r) <==> SourceRule(r, control)
  {
    if control.Some? {
      var rows := SourceRows(control);
      PassCountIsPassed(control.value.transactions);
      assert HasRule(rows, r) <==> RuleOf(rows[0]) == r || RuleOf(rows[1]) == r || RuleOf(rows[2]) == r;
    }
  }

  lemma TableRules(missing: seq<(string, int)>, r: Rule)
    ensures HasRule(MissingKeyRows(missing), r) <==> TableRule(r, missing)
  {
    var rows := MissingKeyRows(missing);
    forall i | 0 <= i < |rows|
      ensures RuleOf(rows[i]) == r <==> Says(r, "BOUNDED_BATCH_TO_TARGET_MISSING_KEYS", missing[i].0, 0, missing[i].1)
    {
    }
  }
}
