/**
 Quarantine of a bounded batch and its reconciliation counts: every event is accepted or
 quarantined, and every staged key reached its table.
 */
module Classification {
  import opened Wrappers
  import opened RawVault
  import opened Hubs
  import opened VaultTables
  import opened Audit

  /** The fields the checks read. `fallback` is the first other identity when the event id is null. */
  datatype Event = Event(objectKey: string, eventId: Option<string>, fallback: string,
                         schema: Option<string>, table: Option<string>, operation: Option<string>,
                         hasAfter: bool, businessKey: Option<string>)

  datatype HubMapping = HubMapping(schema: string, table: string, namespace: string)

  datatype QuarantineRow = QuarantineRow(hash: string, reason: string, objectKey: string)

  const HUBS: seq<HubMapping> := [
    HubMapping("mms", "customers", "CUSTOMER"), HubMapping("krd", "loan_applications", "LOAN_APPLICATION"),
    HubMapping("krd", "loans", "LOAN"), HubMapping("prm", "products", "PRODUCT"),
    HubMapping("prm", "branches", "BRANCH"), HubMapping("prm", "currencies", "CURRENCY")]

  const ALLOWED: set<string> := {"r", "c", "u", "d", "tombstone"}

  const IMAGES: set<string> := {"r", "c", "u"}

  // ---------------------------------------------------------------- reasons

  predicate IsIn(value: Option<string>, allowed: set<string>) {
    value.Some? && value.value in allowed
  }

  /** The first failing contract check, if any. */
  function ContractReason(e: Event): Option<string> {
    if e.eventId.None? then Some("MISSING_EVENT_ID")
    else if e.schema.None? then Some("MISSING_SOURCE_SCHEMA")
    else if e.table.None? then Some("MISSING_SOURCE_TABLE")
    else if e.operation.None? then Some("MISSING_OPERATION")
    else if !IsIn(e.operation, ALLOWED) then Some("UNSUPPORTED_OPERATION")
    else if IsIn(e.operation, IMAGES) && !e.hasAfter then Some("MISSING_AFTER_IMAGE")
    else None
  }

  predicate ValidBusinessKey(key: Option<string>) {
    key.Some? && exists i | 0 <= i < |key.value| :: key.value[i] != ' '
  }

  predicate IsSourceRecord(e: Event, m: HubMapping) {
    e.schema == Some(m.schema) && e.table == Some(m.table) && IsIn(e.operation, IMAGES) && e.hasAfter
  }

  predicate KeyMissing(e: Event, m: HubMapping) {
    IsSourceRecord(e, m) && !ValidBusinessKey(e.businessKey)
  }

  function Reasons(e: Event): set<string> {
    (if ContractReason(e).Some? then {ContractReason(e).value} else {})
    + set m | m in HUBS && KeyMissing(e, m) :: "MISSING_BUSINESS_KEY_" + m.namespace
  }

  // ---------------------------------------------------------------- what each reason says of the fields

  /** Insert, update or snapshot, with an after image. */
  predicate Imaged(e: Event) {
    e.hasAfter && (e.operation == Some("r") || e.operation == Some("c") || e.operation == Some("u"))
  }

  /** Null, or nothing but blanks. */
  predicate Blank(key: Option<string>) {
    key.Some? ==> forall i | 0 <= i < |key.value| :: key.value[i] == ' '
  }

  /** The contract codes are told from each other, and from the key codes, by length and two characters. */
  lemma CodeShapes(e: Event)
    ensures |"MISSING_EVENT_ID"| == 16 && |"MISSING_SOURCE_SCHEMA"| == 21 && |"MISSING_SOURCE_TABLE"| == 20
    ensures |"MISSING_OPERATION"| == 17 && |"UNSUPPORTED_OPERATION"| == 21 && |"MISSING_AFTER_IMAGE"| == 19
    ensures "MISSING_SOURCE_SCHEMA"[0] == 'M' && "UNSUPPORTED_OPERATION"[0] == 'U'
    ensures ContractReason(e).Some? ==> |ContractReason(e).value| <= 21
  {
  }

  lemma KeyReasonExactly(e: Event, i: nat)
    requires i < |HUBS|
    ensures "MISSING_BUSINESS_KEY_" + HUBS[i].namespace in Reasons(e) <==>
              e.schema == Some(HUBS[i].schema) && e.table == Some(HUBS[i].table) && Imaged(e) && Blank(e.businessKey)
  {
    var code := "MISSING_BUSINESS_KEY_" + HUBS[i].namespace;
    assert HUBS[i] in HUBS;
    CodeShapes(e);
    assert |code| >= 25;
    hide ContractReason;
    if m :| m in HUBS && KeyMissing(e, m) && "MISSING_BUSINESS_KEY_" + m.namespace == code {
      assert ("MISSING_BUSINESS_KEY_" + m.namespace)[21..] == m.namespace && code[21..] == HUBS[i].namespace;
      NamespacesDiffer(m, HUBS[i]);
    }
  }

  lemma NamespacesDiffer(m: HubMapping, n: HubMapping)
    requires m in HUBS && n in HUBS && m.namespace == n.namespace
    ensures m == n
  {
  }

  lemma ContractReasonExactly(e: Event, code: string)
    requires |code| <= 21
    ensures code in Reasons(e) <==> ContractReason(e) == Some(code)
  {
    hide ContractReason, KeyMissing;
    forall m | m in HUBS ensures |"MISSING_BUSINESS_KEY_" + m.namespace| >= 25 {
    }
  }

  /** Each contract code, in the order of the checks, by the event's fields alone. */
  lemma ContractReasonsAreExact(e: Event)
    ensures "MISSING_EVENT_ID" in Reasons(e) <==> e.eventId.None?
    ensures "MISSING_SOURCE_SCHEMA" in Reasons(e) <==> e.eventId.Some? && e.schema.None?
    ensures "MISSING_SOURCE_TABLE" in Reasons(e) <==> e.eventId.Some? && e.schema.Some? && e.table.None?
    ensures "MISSING_OPERATION" in Reasons(e) <==>
              e.eventId.Some? && e.schema.Some? && e.table.Some? && e.operation.None?
    ensures "UNSUPPORTED_OPERATION" in Reasons(e) <==>
              && e.eventId.Some? && e.schema.Some? && e.table.Some? && e.operation.Some?
              && e.operation.value != "r" && e.operation.value != "c" && e.operation.value != "u"
              && e.operation.value != "d" && e.operation.value != "tombstone"
    ensures "MISSING_AFTER_IMAGE" in Reasons(e) <==>
              && e.eventId.Some? && e.schema.Some? && e.table.Some? && !e.hasAfter
              && (e.operation == Some("r") || e.operation == Some("c") || e.operation == Some("u"))
  {
    CodeShapes(e);
    ContractReasonExactly(e, "MISSING_EVENT_ID");
    ContractReasonExactly(e, "MISSING_SOURCE_SCHEMA");
    ContractReasonExactly(e, "MISSING_SOURCE_TABLE");
    ContractReasonExactly(e, "MISSING_OPERATION");
    ContractReasonExactly(e, "UNSUPPORTED_OPERATION");
    ContractReasonExactly(e, "MISSING_AFTER_IMAGE");
    hide Reasons;
    FirstFailingCheck(e);
  }

  lemma FirstFailingCheck(e: Event)
    ensures ContractReason(e) ==
              if e.eventId.None? then Some("MISSING_EVENT_ID") else if e.schema.None? then Some("MISSING_SOURCE_SCHEMA")
              else if e.table.None? then Some("MISSING_SOURCE_TABLE")
              else if e.operation.None? then Some("MISSING_OPERATION")
              else if e.operation.value != "r" && e.operation.value != "c" && e.operation.value != "u"
                      && e.operation.value != "d" && e.operation.value != "tombstone" then Some("UNSUPPORTED_OPERATION")
              else if !e.hasAfter && (e.operation == Some("r") || e.operation == Some("c") || e.operation == Some("u"))
              then Some("MISSING_AFTER_IMAGE") else None
  {
  }

  /** Each business-key code by the event's fields alone. */
  lemma KeyReasonsAreExact(e: Event)
    ensures "MISSING_BUSINESS_KEY_CUSTOMER" in Reasons(e) <==>
              e.schema == Some("mms") && e.table == Some("customers") && Imaged(e) && Blank(e.businessKey)
    ensures "MISSING_BUSINESS_KEY_LOAN_APPLICATION" in Reasons(e) <==>
              e.schema == Some("krd") && e.table == Some("loan_applications") && Imaged(e) && Blank(e.businessKey)
    ensures "MISSING_BUSINESS_KEY_LOAN" in Reasons(e) <==>
              e.schema == Some("krd") && e.table == Some("loans") && Imaged(e) && Blank(e.businessKey)
    ensures "MISSING_BUSINESS_KEY_PRODUCT" in Reasons(e) <==>
              e.schema == Some("prm") && e.table == Some("products") && Imaged(e) && Blank(e.businessKey)
    ensures "MISSING_BUSINESS_KEY_BRANCH" in Reasons(e) <==>
              e.schema == Some("prm") && e.table == Some("branches") && Imaged(e) && Blank(e.businessKey)
    ensures "MISSING_BUSINESS_KEY_CURRENCY" in Reasons(e) <==>
              e.schema == Some("prm") && e.table == Some("currencies") && Imaged(e) && Blank(e.businessKey)
  {
    KeyCodesAreNames();
    hide Reasons;
    KeyReasonExactly(e, 0);
    KeyReasonExactly(e, 1);
    KeyReasonExactly(e, 2);
    KeyReasonExactly(e, 3);
    KeyReasonExactly(e, 4);
    KeyReasonExactly(e, 5);
  }

  lemma KeyCodesAreNames()
    ensures "MISSING_BUSINESS_KEY_" + HUBS[0].namespace == "MISSING_BUSINESS_KEY_CUSTOMER"
    ensures "MISSING_BUSINESS_KEY_" + HUBS[1].namespace == "MISSING_BUSINESS_KEY_LOAN_APPLICATION"
    ensures "MISSING_BUSINESS_KEY_" + HUBS[2].namespace == "MISSING_BUSINESS_KEY_LOAN"
    ensures "MISSING_BUSINESS_KEY_" + HUBS[3].namespace == "MISSING_BUSINESS_KEY_PRODUCT"
    ensures "MISSING_BUSINESS_KEY_" + HUBS[4].namespace == "MISSING_BUSINESS_KEY_BRANCH"
    ensures "MISSING_BUSINESS_KEY_" + HUBS[5].namespace == "MISSING_BUSINESS_KEY_CURRENCY"
  {
  }

  /** The tables that carry a business key. */
  predicate Keyed(e: Event) {
    || (e.schema == Some("mms") && e.table == Some("customers"))
    || (e.schema == Some("krd") && (e.table == Some("loan_applications") || e.table == Some("loans")))
    || (e.schema == Some("prm")
        && (e.table == Some("products") || e.table == Some("branches") || e.table == Some("currencies")))
  }

  /** An event has no reason if and only if it is complete and its business key, if it needs one, is not blank. */
  lemma NoReasonExactlyWhenWellFormed(e: Event)
    ensures Reasons(e) == {} <==>
              && e.eventId.Some? && e.schema.Some? && e.table.Some? && e.operation.Some?
              && (e.operation.value == "r" || e.operation.value == "c" || e.operation.value == "u"
                  ==> e.hasAfter && (Keyed(e) ==> !Blank(e.businessKey)))
              && (e.operation.value != "r" && e.operation.value != "c" && e.operation.value != "u"
                  ==> e.operation.value == "d" || e.operation.value == "tombstone")
  {
    ContractReasonsAreExact(e);
    KeyReasonsAreExact(e);
    hide Blank;
    forall code | code in Reasons(e) ensures IsCode(code) {
      ReasonIsCode(e, code);
    }
    hide Reasons;
  }

  predicate IsCode(code: string) {
    || code == "MISSING_EVENT_ID" || code == "MISSING_SOURCE_SCHEMA" || code == "MISSING_SOURCE_TABLE"
    || code == "MISSING_OPERATION" || code == "UNSUPPORTED_OPERATION" || code == "MISSING_AFTER_IMAGE"
    || code == "MISSING_BUSINESS_KEY_CUSTOMER" || code == "MISSING_BUSINESS_KEY_LOAN_APPLICATION"
    || code == "MISSING_BUSINESS_KEY_LOAN" || code == "MISSING_BUSINESS_KEY_PRODUCT"
    || code == "MISSING_BUSINESS_KEY_BRANCH" || code == "MISSING_BUSINESS_KEY_CURRENCY"
  }

  /** There are twelve codes and no other. */
  lemma ReasonIsCode(e: Event, code: string)
    requires code in Reasons(e)
    ensures IsCode(code)
  {
    FirstFailingCheck(e);
    hide ContractReason, KeyMissing;
    if ContractReason(e) != Some(code) {
      var m :| m in HUBS && KeyMissing(e, m) && code == "MISSING_BUSINESS_KEY_" + m.namespace;
      KeyCode(m);
    }
  }

  lemma KeyCode(m: HubMapping)
    requires m in HUBS
    ensures IsCode("MISSING_BUSINESS_KEY_" + m.namespace)
  {
    KeyCodesAreNames();
    var i :| 0 <= i < |HUBS| && HUBS[i] == m;
    assert i == 0 || i == 1 || i == 2 || i == 3 || i == 4 || i == 5;
  }

  function Identity(e: Event): string {
    if e.eventId.Some? then e.eventId.value else e.fallback
  }

  /** The pre-image of the quarantine hash. */
  function HashOf(e: Event, reason: string): string {
    Identity(e) + "||" + reason
  }

  /** Two quarantine rows share a hash if and only if their events share the identity and the reason is the same. */
  lemma QuarantineHashesAgreeExactly(e: Event, f: Event, r: string, q: string)
    requires r in Reasons(e) && q in Reasons(f)
    ensures HashOf(e, r) == HashOf(f, q) <==>
              r == q && (if e.eventId.Some? then e.eventId.value else e.fallback)
                        == (if f.eventId.Some? then f.eventId.value else f.fallback)
  {
    ReasonIsCode(e, r);
    ReasonIsCode(f, q);
    hide Reasons, ContractReason;
    CodesHaveNoPipe(r);
    CodesHaveNoPipe(q);
    hide IsCode;
    var a, b := if e.eventId.Some? then e.eventId.value else e.fallback,
        if f.eventId.Some? then f.eventId.value else f.fallback;
    SuffixDecides(a, r, b, q);
  }

  lemma CodesHaveNoPipe(code: string)
    requires IsCode(code)
    ensures '|' !in code
  {
  }

  lemma SuffixDecides(a: string, r: string, b: string, q: string)
    requires '|' !in r && '|' !in q
    ensures a + "||" + r == b + "||" + q <==> a == b && r == q
  {
    var x, y := a + "||" + r, b + "||" + q;
    FromTheEnd(a, r, |q|);
    FromTheEnd(b, q, |r|);
    if x == y && |r| == |q| {
      assert x[|x| - |r|..] == r && y[|y| - |q|..] == q && x[..|a|] == a && y[..|b|] == b;
    }
  }

  /** The n-th character from the end: one of the suffix, or the pipe in front of it. */
  lemma FromTheEnd(a: string, r: string, n: nat)
    ensures var x := a + "||" + r;
            && (n < |r| ==> x[|x| - 1 - n] in r)
            && (n == |r| ==> x[|x| - 1 - n] == '|')
            && x[|x| - 1 - |r|] == '|'
  {
    var x := a + "||" + r;
    if n < |r| { assert x[|x| - 1 - n] == r[|r| - 1 - n]; }
  }

  function RowFor(e: Event, reason: string): QuarantineRow {
    QuarantineRow(HashOf(e, reason), reason, e.objectKey)
  }

  predicate OneRowPerHash(rows: seq<QuarantineRow>) {
    forall i, j | 0 <= i < j < |rows| :: rows[i].hash != rows[j].hash
  }

  /** dropDuplicates keeps one row of each hash, whichever. */
  ghost predicate IsQuarantine(rows: seq<QuarantineRow>, events: seq<Event>) {
    && OneRowPerHash(rows)
    && (forall r | r in rows :: exists e :: e in events && r.reason in Reasons(e) && r == RowFor(e, r.reason))
    && (forall e, reason | e in events && reason in Reasons(e) :: HasHash(rows, HashOf(e, reason)))
  }

  predicate HasHash(rows: seq<QuarantineRow>, hash: string) {
    exists r :: r in rows && r.hash == hash
  }

  function QuarantinedKeys(rows: seq<QuarantineRow>): set<string> {
    set r | r in rows :: r.objectKey
  }

  // ---------------------------------------------------------------- conservation

  /** Events a left anti join on the quarantined keys keeps. */
  function Accepted(events: seq<Event>, quarantined: set<string>): nat {
    if events == [] then 0 else
    Accepted(events[..|events| - 1], quarantined) + if events[|events| - 1].objectKey in quarantined then 0 else 1
  }

  function Multiplicity(events: seq<Event>, key: string): nat {
    if events == [] then 0 else
    Multiplicity(events[..|events| - 1], key) + if events[|events| - 1].objectKey == key then 1 else 0
  }

  lemma {:induction false} AcceptedWithout(events: seq<Event>, keys: set<string>, key: string)
    requires key !in keys
    ensures Accepted(events, keys) == Accepted(events, keys + {key}) + Multiplicity(events, key)
  {
    if events != [] { AcceptedWithout(events[..|events| - 1], keys, key); }
  }

  lemma {:induction false} AcceptedOfNone(events: seq<Event>)
    ensures Accepted(events, {}) == |events|
  {
    if events != [] { AcceptedOfNone(events[..|events| - 1]); }
  }

  lemma {:induction false} Occurs(events: seq<Event>, key: string)
    ensures Multiplicity(events, key) > 0 <==> exists i :: 0 <= i < |events| && events[i].objectKey == key
  {
    if events != [] { Occurs(events[..|events| - 1], key); }
  }

  /** Accepted plus distinct quarantined keys never exceeds the events, and equals them when each key is one event. */
  lemma {:induction false} CountsAgainstKeys(events: seq<Event>, keys: set<string>)
    requires forall k | k in keys :: Multiplicity(events, k) > 0
    ensures Accepted(events, keys) + |keys| <= |events|
    ensures Accepted(events, keys) + |keys| == |events| <==> forall k | k in keys :: Multiplicity(events, k) == 1
    decreases |keys|
  {
    if keys == {} {
      AcceptedOfNone(events);
    } else {
      var k :| k in keys;
      CountsAgainstKeys(events, keys - {k});
      AcceptedWithout(events, keys - {k}, k);
      assert keys - {k} + {k} == keys;
      assert forall x | x in keys :: x == k || x in keys - {k};
    }
  }

  /**
   The classification check passes exactly when every quarantined object key belongs to one event,
   however many reasons that event has.
   */
  lemma ClassificationConservesExactly(events: seq<Event>, rows: seq<QuarantineRow>)
    requires IsQuarantine(rows, events)
    ensures var keys := QuarantinedKeys(rows);
            Reconcile(CLASSIFICATION, "accepted_plus_quarantine", |events|, Accepted(events, keys) + |keys|).passed
            <==> forall k | k in keys :: Multiplicity(events, k) == 1
  {
    hide IsQuarantine, Accepted, Multiplicity, Reasons;
    var keys := QuarantinedKeys(rows);
    forall k | k in keys ensures Multiplicity(events, k) > 0 {
      QuarantinedIsEvent(events, rows, k);
      Occurs(events, k);
    }
    CountsAgainstKeys(events, keys);
  }

  lemma QuarantinedIsEvent(events: seq<Event>, rows: seq<QuarantineRow>, k: string)
    requires IsQuarantine(rows, events) && k in QuarantinedKeys(rows)
    ensures exists i :: 0 <= i < |events| && events[i].objectKey == k && Reasons(events[i]) != {}
  {
    hide Reasons, HashOf;
    var r :| r in rows && r.objectKey == k;
    var e :| e in events && r.reason in Reasons(e) && r == RowFor(e, r.reason);
    var i :| 0 <= i < |events| && events[i] == e;
    assert events[i].objectKey == k;
  }

  predicate UniqueObjectKeys(events: seq<Event>) {
    forall i, j | 0 <= i < j < |events| :: events[i].objectKey != events[j].objectKey
  }

  lemma {:induction false} UniqueKeyOccursOnce(events: seq<Event>, i: nat)
    requires UniqueObjectKeys(events) && i < |events|
    ensures Multiplicity(events, events[i].objectKey) == 1
  {
    var front, last := events[..|events| - 1], events[|events| - 1];
    if i < |front| {
      UniqueKeyOccursOnce(front, i);
    } else {
      Occurs(front, last.objectKey);
    }
  }

  /** A batch read from distinct objects always conserves. */
  lemma DistinctObjectsConserve(events: seq<Event>, rows: seq<QuarantineRow>)
    requires IsQuarantine(rows, events) && UniqueObjectKeys(events)
    ensures var keys := QuarantinedKeys(rows); Accepted(events, keys) + |keys| == |events|
  {
    hide IsQuarantine;
    var keys := QuarantinedKeys(rows);
    ClassificationConservesExactly(events, rows);
    forall k | k in keys ensures Multiplicity(events, k) == 1 {
      QuarantinedIsEvent(events, rows, k);
      hide Reasons, IsQuarantine;
      var i :| 0 <= i < |events| && events[i].objectKey == k && Reasons(events[i]) != {};
      UniqueKeyOccursOnce(events, i);
    }
  }

  // ---------------------------------------------------------------- which events are quarantined

  predicate NoPipe(s: string) {
    forall i | 0 <= i < |s| :: s[i] != '|'
  }

  lemma NoPipeConcat(a: string, b: string)
    requires NoPipe(a) && NoPipe(b)
    ensures NoPipe(a + b)
  {
  }

  lemma ContractReasonHasNoPipe(e: Event)
    requires ContractReason(e).Some?
    ensures NoPipe(ContractReason(e).value)
  {
    hide IsIn, NoPipe;
    ContractTextsHaveNoPipe();
  }

  lemma ContractTextsHaveNoPipe()
    ensures NoPipe("MISSING_EVENT_ID") && NoPipe("MISSING_SOURCE_SCHEMA") && NoPipe("MISSING_SOURCE_TABLE")
    ensures NoPipe("MISSING_OPERATION") && NoPipe("UNSUPPORTED_OPERATION") && NoPipe("MISSING_AFTER_IMAGE")
  {
  }

  lemma NamespaceHasNoPipe(m: HubMapping)
    requires m in HUBS
    ensures NoPipe(m.namespace)
  {
  }

  lemma ReasonsHaveNoPipe(e: Event, reason: string)
    requires reason in Reasons(e)
    ensures NoPipe(reason)
  {
    hide ContractReason, KeyMissing, NoPipe;
    if ContractReason(e).Some? && reason == ContractReason(e).value {
      ContractReasonHasNoPipe(e);
    } else {
      var m :| m in HUBS && KeyMissing(e, m) && reason == "MISSING_BUSINESS_KEY_" + m.namespace;
      NamespaceHasNoPipe(m);
      assert NoPipe("MISSING_BUSINESS_KEY_") by { PrefixHasNoPipe(); }
      NoPipeConcat("MISSING_BUSINESS_KEY_", m.namespace);
    }
  }

  lemma PrefixHasNoPipe()
    ensures NoPipe("MISSING_BUSINESS_KEY_")
  {
  }

  /** A reason is recovered from the joined pre-image, whatever the identity contains. */
  lemma HashSplits(a: string, r: string, b: string, s: string)
    requires NoPipe(r) && NoPipe(s) && a + "||" + r == b + "||" + s
    ensures a == b && r == s
  {
    LastPipes(a, r, b, s);
    LastPipes(b, s, a, r);
    var x := a + "||" + r;
    assert x[..|a|] == a && x[..|b|] == b && x[|a| + 2..] == r && x[|b| + 2..] == s;
  }

  lemma LastPipes(a: string, r: string, b: string, s: string)
    requires NoPipe(r) && a + "||" + r == b + "||" + s
    ensures |b| <= |a|
  {
    var x := a + "||" + r;
    assert x[|b| + 1] == '|';
    forall k | |a| + 2 <= k < |x| ensures x[k] != '|' {
      assert x[k] == r[k - |a| - 2];
    }
  }

  /** A reason of the event that no other event of its identity has. */
  ghost predicate HasOwnReason(events: seq<Event>, i: nat)
    requires i < |events|
  {
    exists reason :: reason in Reasons(events[i]) && IsOwn(events, i, reason)
  }

  ghost predicate IsOwn(events: seq<Event>, i: nat, reason: string)
    requires i < |events|
  {
    forall j | 0 <= j < |events| && j != i && Identity(events[j]) == Identity(events[i]) ::
        reason !in Reasons(events[j])
  }

  /**
   Whichever row of a hash is kept, an event is quarantined, if and only if it has a reason that no
   other event of its identity has.
   */
  lemma QuarantinedExactlyByAnOwnReason(events: seq<Event>, i: nat)
    requires UniqueObjectKeys(events) && i < |events|
    ensures (forall rows | IsQuarantine(rows, events) :: events[i].objectKey in QuarantinedKeys(rows))
       <==> HasOwnReason(events, i)
  {
    if HasOwnReason(events, i) {
      forall rows | IsQuarantine(rows, events) ensures events[i].objectKey in QuarantinedKeys(rows) {
        OwnReasonIsKept(events, rows, i);
      }
    } else {
      var rows := QuarantineWithout(events, i);
    }
  }

  lemma OwnReasonIsKept(events: seq<Event>, rows: seq<QuarantineRow>, i: nat)
    requires i < |events| && IsQuarantine(rows, events) && HasOwnReason(events, i)
    ensures events[i].objectKey in QuarantinedKeys(rows)
  {
    hide Reasons;
    var reason :| reason in Reasons(events[i]) && IsOwn(events, i, reason);
    assert HasHash(rows, HashOf(events[i], reason));
    var r :| r in rows && r.hash == HashOf(events[i], reason);
    var e :| e in events && r.reason in Reasons(e) && r == RowFor(e, r.reason);
    var j :| 0 <= j < |events| && events[j] == e;
    ReasonsHaveNoPipe(e, r.reason);
    ReasonsHaveNoPipe(events[i], reason);
    HashSplits(Identity(e), r.reason, Identity(events[i]), reason);
    assert i == j;
  }

  /** If every reason of the event is shared, rows of the other events cover all its hashes. */
  lemma QuarantineWithout(events: seq<Event>, i: nat) returns (rows: seq<QuarantineRow>)
    requires UniqueObjectKeys(events) && i < |events| && !HasOwnReason(events, i)
    ensures IsQuarantine(rows, events) && events[i].objectKey !in QuarantinedKeys(rows)
  {
    hide Reasons, HashOf;
    var others := OtherRows(events, i);
    rows := OnePerHash(others);
    forall r | r in rows ensures exists e :: e in events && r.reason in Reasons(e) && r == RowFor(e, r.reason) {
      var j, reason :| 0 <= j < |events| && j != i && reason in Reasons(events[j]) && r == RowFor(events[j], reason);
      assert events[j] in events;
    }
    forall e, reason | e in events && reason in Reasons(e) ensures HasHash(rows, HashOf(e, reason)) {
      var k :| 0 <= k < |events| && events[k] == e;
      var j := SomeOtherEvent(events, i, k, reason);
      assert RowFor(events[j], reason) in others;
    }
    forall r | r in rows ensures r.objectKey != events[i].objectKey {
      var j, reason :| 0 <= j < |events| && j != i && reason in Reasons(events[j]) && r == RowFor(events[j], reason);
    }
  }

  function OtherRows(events: seq<Event>, i: nat): set<QuarantineRow> {
    set j, reason | 0 <= j < |events| && j != i && reason in Reasons(events[j]) :: RowFor(events[j], reason)
  }

  lemma SomeOtherEvent(events: seq<Event>, i: nat, k: nat, reason: string) returns (j: nat)
    requires i < |events| && k < |events| && reason in Reasons(events[k]) && !HasOwnReason(events, i)
    ensures j < |events| && j != i && reason in Reasons(events[j])
            && HashOf(events[j], reason) == HashOf(events[k], reason)
  {
    hide Reasons;
    if k != i {
      j := k;
    } else {
      assert !IsOwn(events, i, reason);
      j :| 0 <= j < |events| && j != i && Identity(events[j]) == Identity(events[i]) && reason in Reasons(events[j]);
    }
  }

  /** One row of each hash. */
  lemma {:induction false} OnePerHash(candidates: set<QuarantineRow>) returns (rows: seq<QuarantineRow>)
    ensures OneRowPerHash(rows) && forall r | r in rows :: r in candidates
    ensures forall c | c in candidates :: HasHash(rows, c.hash)
    decreases |candidates|
  {
    if c :| c in candidates {
      var rest := OnePerHash(candidates - {c});
      if HasHash(rest, c.hash) {
        rows := rest;
      } else {
        rows := rest + [c];
        assert c in rows;
        forall d | d in candidates ensures HasHash(rows, d.hash) {
          if d != c {
            var r :| r in rest && r.hash == d.hash;
            assert r in rows;
          }
        }
      }
    } else {
      rows := [];
    }
  }

  function InvalidKeys(events: seq<Event>): set<string> {
    set e | e in events && Reasons(e) != {} :: e.objectKey
  }

  /**
   Whichever rows are kept, exactly the events with a reason are quarantined, if and only if each of
   them has a reason of its own.
   */
  lemma QuarantineIsExact(events: seq<Event>)
    requires UniqueObjectKeys(events)
    ensures (forall rows | IsQuarantine(rows, events) :: QuarantinedKeys(rows) == InvalidKeys(events))
       <==> forall i | 0 <= i < |events| && Reasons(events[i]) != {} :: HasOwnReason(events, i)
  {
    hide IsQuarantine, Reasons, QuarantinedKeys, HasOwnReason;
    if forall i | 0 <= i < |events| && Reasons(events[i]) != {} :: HasOwnReason(events, i) {
      forall rows | IsQuarantine(rows, events) ensures QuarantinedKeys(rows) == InvalidKeys(events) {
        OnlyInvalidKeys(events, rows);
        forall k | k in InvalidKeys(events) ensures k in QuarantinedKeys(rows) {
          var e :| e in events && Reasons(e) != {} && e.objectKey == k;
          var i :| 0 <= i < |events| && events[i] == e;
          OwnReasonIsKept(events, rows, i);
        }
      }
    } else {
      var i :| 0 <= i < |events| && Reasons(events[i]) != {} && !HasOwnReason(events, i);
      var rows := QuarantineWithout(events, i);
      assert events[i].objectKey in InvalidKeys(events);
    }
  }

  lemma OnlyInvalidKeys(events: seq<Event>, rows: seq<QuarantineRow>)
    requires IsQuarantine(rows, events)
    ensures QuarantinedKeys(rows) <= InvalidKeys(events)
  {
    hide Reasons;
    forall k | k in QuarantinedKeys(rows) ensures k in InvalidKeys(events) {
      QuarantinedIsEvent(events, rows, k);
      var i :| 0 <= i < |events| && events[i].objectKey == k && Reasons(events[i]) != {};
      assert events[i] in events;
    }
  }

  const LOST := Event("k1", Some("e"), "", Some("krd"), Some("x"), None, false, None)

  lemma LostHasOneReason(key: string)
    ensures Reasons(LOST.(objectKey := key)) == {"MISSING_OPERATION"}
  {
    assert forall m :: !KeyMissing(LOST.(objectKey := key), m);
  }

  /** Two invalid events with one event id share a quarantine row: one passes as accepted, unnoticed by the check. */
  lemma SharedIdentityEscapesQuarantine()
    ensures var a, b := LOST, LOST.(objectKey := "k2");
            var rows := [RowFor(a, "MISSING_OPERATION")];
            && IsQuarantine(rows, [a, b]) && UniqueObjectKeys([a, b]) && Reasons(b) != {}
            && b.objectKey !in QuarantinedKeys(rows)
            && Accepted([a, b], QuarantinedKeys(rows)) + |QuarantinedKeys(rows)| == 2
  {
    hide Reasons, IsQuarantine, HashOf;
    var a, b := LOST, LOST.(objectKey := "k2");
    LostHasOneReason("k1");
    LostHasOneReason("k2");
    assert LOST.(objectKey := "k1") == LOST;
    OneRowCovers(a, b, "MISSING_OPERATION");
    DistinctObjectsConserve([a, b], [RowFor(a, "MISSING_OPERATION")]);
  }

  lemma OneRowCovers(a: Event, b: Event, reason: string)
    requires Reasons(a) == Reasons(b) == {reason} && Identity(a) == Identity(b)
    ensures IsQuarantine([RowFor(a, reason)], [a, b])
  {
    hide Reasons;
    var row := RowFor(a, reason);
    assert row in [row] && a in [a, b];
    forall e, why | e in [a, b] && why in Reasons(e) ensures HasHash([row], HashOf(e, why)) {
      assert row.hash == HashOf(e, why);
    }
  }

  // ---------------------------------------------------------------- staged keys reach their table

  /** Distinct staged keys a left anti join does not find in the table. */
  function MissingKeys<K>(staged: set<K>, table: set<K>): nat {
    |staged - table|
  }

  function EventIds(rows: set<Row>): set<string> {
    set r | r in rows :: r.eventId
  }

  /** After the load of a hub or link no key of the batch is missing, before or after a replay. */
  lemma LoadedHubMissesNothing<K(!new)>(table: seq<Arrival<K>>, batch: seq<Arrival<K>>)
    ensures MissingKeys(KeysOf(KeepFirstArrival(batch)), KeysOf(LoadByKey(table, batch))) == 0
  {
    LoadAddsNothingExactly(table, batch);
    KeptAreFirstArrivals(batch);
  }

  /** Restaging a loaded satellite batch against its own table finds every source event there. */
  lemma LoadedSatelliteMissesNothing(table: set<Stored>, batch: string, events: set<Row>)
    requires LoadBounded(table, batch, events).Ok?
    ensures var after := LoadBounded(table, batch, events).value;
            var staged := FilterAgainstPersistedState(after, batch, KeepStateChanges(events));
            staged.Ok? && MissingKeys(EventIds(staged.value), EventIds(Project(after))) == 0
  {
    hide KeepStateChanges, ChangedRows, CrossesBoundary, UniqueEvents;
    var rows := FilterAgainstPersistedState(table, batch, KeepStateChanges(events)).value;
    var after := LoadBounded(table, batch, events).value;
    assert after == MergeInsertOnly(table, batch, rows);
    OthersOfMerge(table, batch, rows);
    forall r | r in rows ensures r.eventId in EventIds(Project(after)) {
      MergedEventIsThere(table, batch, rows, r);
    }
  }

  lemma MergedEventIsThere(table: set<Stored>, batch: string, rows: set<Row>, r: Row)
    requires r in rows
    ensures r.eventId in EventIds(Project(MergeInsertOnly(table, batch, rows)))
  {
    var after := MergeInsertOnly(table, batch, rows);
    if v :| v in table && v.row.eventId == r.eventId {
      assert v in after && v.row in Project(after);
    } else {
      assert Stored(r, batch) in after && r in Project(after);
    }
  }

  // ---------------------------------------------------------------- bounded_reconciliation_rows

  /** One table to check: its staged keys and its stored keys, none while the table does not exist. */
  datatype Check = Check(table: string, staged: set<string>, stored: Option<set<string>>)

  function Missing(c: Check): nat {
    match c.stored
    case None => |c.staged|
    case Some(keys) => MissingKeys(c.staged, keys)
  }

  /** One row per checked table, in order; a row passes exactly when its table holds every staged key. */
  method BoundedReconciliationRows(checks: seq<Check>) returns (rows: seq<ReconciliationRow>)
    ensures rows == MissingKeyRows(seq(|checks|, i requires 0 <= i < |checks| => (checks[i].table, Missing(checks[i]))))
    ensures forall i | 0 <= i < |checks| ::
              rows[i].passed <==> checks[i].staged <= (if checks[i].stored.Some? then checks[i].stored.value else {})
    ensures forall i | 0 <= i < |checks| ::
              && rows[i].checkScope == "BOUNDED_BATCH_TO_TARGET_MISSING_KEYS" && rows[i].objectName == checks[i].table
              && rows[i].expected == 0
              && rows[i].actual == |checks[i].staged - if checks[i].stored.Some? then checks[i].stored.value else {}|
  {
    rows := [];
    for i := 0 to |checks|
      invariant |rows| == i
      invariant forall k | 0 <= k < i :: rows[k] == Reconcile(MISSING_KEYS, checks[k].table, 0, Missing(checks[k]))
      invariant forall k | 0 <= k < i ::
                  rows[k].passed <==> checks[k].staged <= (if checks[k].stored.Some? then checks[k].stored.value
                      else {})
    {
      var c := checks[i];
      NothingMissing(c.staged, if c.stored.Some? then c.stored.value else {});
      assert c.staged - {} == c.staged;
      rows := rows + [Reconcile(MISSING_KEYS, c.table, 0, Missing(c))];
    }
    forall i | 0 <= i < |checks|
      ensures Missing(checks[i]) == |checks[i].staged - if checks[i].stored.Some? then checks[i].stored.value else {}|
    {
      assert checks[i].staged - {} == checks[i].staged;
    }
  }

  lemma NothingMissing<K>(staged: set<K>, table: set<K>)
    ensures MissingKeys(staged, table) == 0 <==> staged <= table
  {
    forall x | x in staged ensures x in table <==> x !in staged - table {
    }
    assert staged <= table ==> staged - table == {};
  }
}
