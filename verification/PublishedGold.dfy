/**
 The loan fact over the tables a published run leaves: which Bronze events put a loan into it. Hubs,
 status, details and loan contexts all come from the same run; hash keys stand for their pre-images.
 */
module PublishedGold {
  import opened Manifest
  import opened Control
  import opened ControlInvariant
  import opened RawVault
  import opened Compression
  import opened Pipeline
  import opened LoanPipeline
  import Publication
  import LedgerControl
  import IncrementalLoad
  import CurrentState
  import G = Gold
  import S = GoldState
  import L = LoanContext
  import V = VaultTables

  const STATUS := "sat_entity_record_status"

  function DetailsTable(t: G.EntityType): string {
    match t
    case CustomerType => "sat_customer_details"
    case ProductType => "sat_product_details"
    case BranchType => "sat_branch_details"
    case CurrencyType => "sat_currency_details"
    case ApplicationType => "sat_loan_application_details"
    case LoanType => "sat_loan_details"
  }

  // ---------------------------------------------------------------- what the events up to the highs say

  /** The rows a satellite stages from the Bronze events up to the published highs. */
  ghost function PastOf(s: Source, db: Db, t: string): set<Row>
    requires t in s.staging
  {
    Past(s.staging[t], s.history.bronze, PreviousHighs(db))
  }

  ghost predicate HasEntity(rows: set<Row>, hk: string) {
    exists r :: r in rows && r.entity == hk
  }

  /** The last event of the entity is not a delete. */
  ghost predicate ActiveIn(rows: set<Row>, hk: string) {
    exists r :: IsLast(rows, r) && r.entity == hk && r.image == Status(false)
  }

  /** The last event of the loan is not a delete and has this context. */
  ghost predicate ContextIn(rows: set<Row>, hk: string, context: string) {
    exists r :: IsLast(rows, r) && r.entity == hk && r.image == Effectivity(context, false)
  }

  predicate IsStatusRow(r: Row) {
    r.image.Status? && r.state == StatusText(r.image.deleted)
  }

  predicate IsContextRow(r: Row) {
    r.image.Effectivity? && r.state == r.image.context + "||" + StatusText(r.image.deleted)
  }

  /** Some event up to the highs details the entity, and its last one is not a delete. */
  ghost predicate LivesAt(s: Source, db: Db, t: G.EntityType, hk: string)
    requires STATUS in s.staging && DetailsTable(t) in s.staging
  {
    HasEntity(PastOf(s, db, DetailsTable(t)), hk) && ActiveIn(PastOf(s, db, STATUS), hk)
  }

  // ---------------------------------------------------------------- the Gold inputs are the run's tables

  function OfType(rows: set<Row>, typeOf: string -> G.EntityType, t: G.EntityType): set<Row> {
    set r | r in rows && typeOf(r.entity) == t
  }

  /** The satellites the fact reads are among the run's. */
  ghost predicate FactIsStaged(s: Source) {
    STATUS in s.staging && V.LOAN_EFFECTIVITY in s.staging && forall t: G.EntityType :: DetailsTable(t) in s.staging
  }

  /** Detail rows are of entities of their type, whose hub key the same event stages. */
  ghost predicate StagesDetails(s: Source, events: Events, typeOf: string -> G.EntityType, t: G.EntityType)
    requires DetailsTable(t) in s.staging
  {
    var stage := s.staging[DetailsTable(t)];
    forall k | k in stage ::
      typeOf(stage[k].entity) == t && k in events.keys && events.keys[k] == stage[k].entity
  }

  /** Status rows, detail rows with their hub keys, and contexts that spell out their keys. */
  ghost predicate StagesGold(s: Source, events: Events, typeOf: string -> G.EntityType, bodyOf: string -> G.Body,
                             idOf: string -> string, noOf: string -> string) {
    && FactIsStaged(s) && (forall k | k in s.staging[STATUS] :: IsStatusRow(s.staging[STATUS][k]))
    && (forall t: G.EntityType :: StagesDetails(s, events, typeOf, t))
    && forall k | k in events.loans ::
         var no := noOf(idOf(events.loans[k].loan));
         var body := bodyOf(V.ContextText(L.LinkKey(events.loans[k].loan, no, events.loans[k].context)));
         body.ContextBody? && body.applicationHk == no
  }

  /** The models read the tables of the lake: status by entity type, details, loan contexts and hubs. */
  ghost predicate Reads(v: G.Vault, k: Lake, typeOf: string -> G.EntityType, bodyOf: string -> G.Body) {
    var tables := k.pipe.tables;
    && STATUS in tables && V.LOAN_EFFECTIVITY in tables
    && (forall t: G.EntityType :: S.Shows(G.StatusOf(v, t), OfType(Project(tables[STATUS]), typeOf, t), S.StatusSat))
    && S.Shows(v.loanContext, Project(tables[V.LOAN_EFFECTIVITY]), q => S.ContextSat(q, bodyOf))
    && (forall t: G.EntityType, hk :: DetailsTable(t) in tables
          && (G.HasKey(G.DetailsOf(v, t), hk) <==> HasEntity(Project(tables[DetailsTable(t)]), hk)))
    && (forall t: G.EntityType, hk | t != G.ApplicationType :: S.HubHas(v, t, hk) <==> typeOf(hk) == t && hk in k.keys)
    && (forall hk :: S.HubHas(v, G.ApplicationType, hk) <==> hk in k.vault.hub)
  }

  // ---------------------------------------------------------------- views over compressed rows

  lemma LastOfEntity(rows: set<Row>, hk: string) returns (m: Row)
    requires Contract(rows) && HasEntity(rows, hk)
    ensures IsLast(rows, m) && m.entity == hk
  {
    ContractRanks(rows);
    var x :| x in rows && x.entity == hk;
    var mine := OfEntity(rows, hk);
    assert x in mine;
    IncrementalLoad.SubsetPositions(rows, mine);
    hide Contract, DistinctPositions, Before;
    m := LastExists(mine);
    assert forall q | q in rows && q.entity == hk :: q in mine;
  }

  /** The row the satellite shows as the latest of an entity carries the state of the entity's last event. */
  lemma ShownIsLast(rows: set<Row>, m: Row)
    requires Contract(rows) && IsLast(rows, m)
    ensures exists p :: IsLatest(KeepStateChanges(rows), p) && p.entity == m.entity
    ensures forall p | IsLatest(KeepStateChanges(rows), p) && p.entity == m.entity :: p in rows && p.state == m.state
  {
    ContractRanks(rows);
    KeptAreRows(rows);
    LatestKeptCarriesLastState(false, rows, m);
    hide KeepStateChanges, Contract, IsLast;
  }

  lemma CompressionKeepsEntities(rows: set<Row>, hk: string)
    requires Contract(rows)
    ensures HasEntity(KeepStateChanges(rows), hk) <==> HasEntity(rows, hk)
  {
    KeptAreRows(rows);
    hide KeepStateChanges, Contract;
    if HasEntity(rows, hk) {
      var m := LastOfEntity(rows, hk);
      ShownIsLast(rows, m);
    }
  }

  /** Change detection works entity by entity. */
  lemma CompressionOfType(rows: set<Row>, typeOf: string -> G.EntityType, t: G.EntityType)
    ensures KeepStateChanges(OfType(rows, typeOf, t)) == OfType(KeepStateChanges(rows), typeOf, t)
  {
    hide Before;
    var part := OfType(rows, typeOf, t);
    forall r, p | r in part ensures IsLag(part, p, r) <==> IsLag(rows, p, r) {
    }
  }

  lemma StatusStates(a: Row, b: Row)
    requires IsStatusRow(a) && IsStatusRow(b) && a.state == b.state
    ensures a.image == b.image
  {
    assert |StatusText(true)| == 7 && |StatusText(false)| == 6;
  }

  lemma ContextStates(a: Row, b: Row)
    requires IsContextRow(a) && IsContextRow(b) && a.state == b.state
    ensures a.image == b.image
  {
    CurrentState.EffectivityStateDecides(ChangeOf(a), ChangeOf(b));
  }

  function ChangeOf(r: Row): CurrentState.Change
    requires r.image.Effectivity?
  {
    CurrentState.Change(r.entity, r.image.context, r.image.deleted, r.eventId, r.lsn, r.effectiveFrom, r.topic,
                        r.partition, r.offset)
  }

  lemma StatusViewShowsLast(view: seq<G.SatRow>, rows: set<Row>, hk: string)
    requires Contract(rows) && (forall r | r in rows :: IsStatusRow(r))
    requires S.Shows(view, KeepStateChanges(rows), S.StatusSat)
    ensures G.HasActiveRow(view, hk) <==> ActiveIn(rows, hk)
  {
    S.CompressedPositions(rows);
    assert S.Faithful(S.StatusSat);
    var table := KeepStateChanges(rows);
    KeptAreRows(rows);
    hide KeepStateChanges, Contract, G.Current, IsLatest, IsLast, DistinctPositions, S.Shows, IsStatusRow;
    if G.HasActiveRow(view, hk) {
      var r :| r in G.Current(view) && r.hk == hk && r.active;
      S.CurrentRow(view, table, S.StatusSat, r);
      var p :| IsLatest(table, p) && r == S.StatusSat(p);
      S.LatestIsThere(table, p);
      var m := LastOfEntity(rows, hk);
      ShownIsLast(rows, m);
      LastIsThere(rows, m);
      StatusStates(p, m);
    }
    if ActiveIn(rows, hk) {
      var m :| IsLast(rows, m) && m.entity == hk && m.image == Status(false);
      ShownIsLast(rows, m);
      LastIsThere(rows, m);
      var p :| IsLatest(table, p) && p.entity == hk;
      StatusStates(p, m);
      S.CurrentRow(view, table, S.StatusSat, S.StatusSat(p));
    }
  }

  lemma LastIsThere(rows: set<Row>, m: Row)
    requires IsLast(rows, m)
    ensures m in rows
  {
  }

  /** The context in force, as the keys it stands for. */
  ghost predicate InForce(rows: set<Row>, hk: string, bodyOf: string -> G.Body, body: G.Body) {
    exists context :: ContextIn(rows, hk, context) && body == bodyOf(context)
  }

  lemma ContextViewShowsLast(view: seq<G.SatRow>, rows: set<Row>, bodyOf: string -> G.Body, hk: string, body: G.Body)
    requires Contract(rows) && (forall r | r in rows :: IsContextRow(r))
    requires S.Shows(view, KeepStateChanges(rows), q => S.ContextSat(q, bodyOf))
    ensures (exists r :: r in G.Current(view) && r.hk == hk && r.body == body) <==> InForce(rows, hk, bodyOf, body)
  {
    S.CompressedPositions(rows);
    var f := q => S.ContextSat(q, bodyOf);
    var table := KeepStateChanges(rows);
    assert S.Faithful(f) && S.Shows(view, table, f);
    hide KeepStateChanges, Contract, G.Current, IsLatest, IsLast, DistinctPositions, S.Shows, S.Faithful, IsContextRow;
    if r :| r in G.Current(view) && r.hk == hk && r.body == body {
      S.CurrentRow(view, table, f, r);
      var p :| IsLatest(table, p) && r == f(p);
      LatestIsInForce(rows, p, bodyOf);
    }
    if context :| ContextIn(rows, hk, context) && body == bodyOf(context) {
      var p := InForceIsLatest(rows, hk, context);
      S.CurrentRow(view, table, f, f(p));
    }
  }

  lemma LatestIsInForce(rows: set<Row>, p: Row, bodyOf: string -> G.Body)
    requires Contract(rows) && (forall r | r in rows :: IsContextRow(r)) && IsLatest(KeepStateChanges(rows), p)
    requires S.ContextSat(p, bodyOf).active
    ensures InForce(rows, p.entity, bodyOf, S.ContextSat(p, bodyOf).body)
  {
    S.LatestIsThere(KeepStateChanges(rows), p);
    KeptAreRows(rows);
    hide KeepStateChanges, Contract, IsLatest, IsLast;
    var m := LastOfEntity(rows, p.entity);
    ShownIsLast(rows, m);
    LastIsThere(rows, m);
    ContextStates(p, m);
    assert ContextIn(rows, p.entity, p.image.context);
  }

  lemma InForceIsLatest(rows: set<Row>, hk: string, context: string) returns (p: Row)
    requires Contract(rows) && (forall r | r in rows :: IsContextRow(r)) && ContextIn(rows, hk, context)
    ensures IsLatest(KeepStateChanges(rows), p) && p.entity == hk && p.image == Effectivity(context, false)
  {
    hide KeepStateChanges, Contract, IsLatest, IsLast, IsContextRow;
    var m :| IsLast(rows, m) && m.entity == hk && m.image == Effectivity(context, false);
    ShownIsLast(rows, m);
    LastIsThere(rows, m);
    p :| IsLatest(KeepStateChanges(rows), p) && p.entity == hk;
    ContextStates(p, m);
  }

  // ---------------------------------------------------------------- events up to the highs are in published batches

  lemma BelowIsPublished(s: Source, p: Pipe, o: BronzeObject) returns (i: nat)
    requires PipeInv(s, p) && o in s.history.bronze && Publication.Below(PreviousHighs(p.control.db), o)
    ensures var db := p.control.db;
            i < |db.created| && PublishedAt(db, i) && o in db.batches[db.created[i]].sha.payload.objects
  {
    hide Frontier, EvidenceMeansLoaded, TablesOk, UnfinishedIsLast, LogsOk, AttemptsOk, RunningOk, EvidenceOk, AuditsOk;
    hide FilesOk, SuccessOk, StoreOk, ChainOk, BoundariesOk, Publication.SealedIn, Publication.Below, PreviousHighs;
    hide Publication.Covered;
    var db := p.control.db;
    Publication.PayloadsOfBatches(p.control);
    Publication.PublicationsCover(s.history, db, |db.published|);
    Publication.AllCovered(s.history, db, o);
    var k :| Publication.Holds(db, k, o);
    assert db.published[k] in db.published;
    i :| 0 <= i < |db.created| && db.created[i] == db.published[k];
  }

  /** The hubs hold the keys of all events up to the highs. */
  lemma KeyIsInHub(s: Source, events: Events, k: Lake, o: BronzeObject, idOf: string -> string)
    requires LakeOk(s, events, k, idOf) && PipeInv(s, k.pipe) && o in s.history.bronze && o.objectKey in events.keys
    requires Publication.Below(PreviousHighs(k.pipe.control.db), o)
    ensures events.keys[o.objectKey] in k.keys
  {
    hide PipeInv, Inv, EvidenceMeansLoaded, CoreOk, DataOk, Publication.Below, PreviousHighs, Keeps, L.HasLink;
    var i := BelowIsPublished(s, k.pipe, o);
    var run := PublishedIsLinked(s, events, k, k.pipe.control.db.created[i], idOf);
    assert events.keys[o.objectKey] in KeysOfRun(events, k.pipe, run);
  }

  /** The hub of applications holds the number of every loan event up to the highs. */
  lemma NumberIsInHub(s: Source, events: Events, k: Lake, o: BronzeObject, idOf: string -> string,
                      noOf: string -> string)
    requires LakeOk(s, events, k, idOf) && PipeInv(s, k.pipe) && Fixed(events, idOf, noOf)
    requires o in s.history.bronze && o.objectKey in events.loans
    requires Publication.Below(PreviousHighs(k.pipe.control.db), o)
    ensures noOf(idOf(events.loans[o.objectKey].loan)) in k.vault.hub
  {
    hide PipeInv, LakeOk, Fixed, Publication.Below, PreviousHighs, L.HasLink;
    var db := k.pipe.control.db;
    var i := BelowIsPublished(s, k.pipe, o);
    DecodedExact(events.loans, db.batches[db.created[i]].sha.payload.objects);
    SeenLoanIsKnown(s, events, k, i, events.loans[o.objectKey], idOf, noOf);
  }

  // ---------------------------------------------------------------- the fact over a published run

  /** What the lake's tables hold: change detection over the events up to the highs. */
  ghost predicate Rebuilt(s: Source, k: Lake) {
    forall t | t in s.staging ::
      && t in k.pipe.tables && Project(k.pipe.tables[t]) == KeepStateChanges(PastOf(s, k.pipe.control.db, t))
      && Contract(PastOf(s, k.pipe.control.db, t))
  }

  lemma PastKeepsContract(s: Source, db: Db, t: string)
    requires SourceOk(s) && t in s.staging
    ensures Contract(PastOf(s, db, t))
  {
    hide Contract, Publication.Below, PreviousHighs, RowAt;
    assert PastOf(s, db, t) <= Staged(s.staging[t], s.history.bronze);
    IncrementalLoad.SubsetContract(Staged(s.staging[t], s.history.bronze), PastOf(s, db, t));
  }

  lemma PastRow(s: Source, db: Db, t: string, r: Row) returns (o: BronzeObject)
    requires t in s.staging && r in PastOf(s, db, t)
    ensures o in s.history.bronze && o.objectKey in s.staging[t] && r == s.staging[t][o.objectKey]
    ensures Publication.Below(PreviousHighs(db), o)
  {
    hide Publication.Below, PreviousHighs;
    o :| o in s.history.bronze && o.objectKey in s.staging[t] && Publication.Below(PreviousHighs(db), o)
         && s.staging[t][o.objectKey] == r;
  }

  /** A published lake, its staging, and the Gold inputs read from it. */
  ghost predicate Ready(s: Source, events: Events, k: Lake, v: G.Vault, typeOf: string -> G.EntityType,
                        bodyOf: string -> G.Body, idOf: string -> string, noOf: string -> string) {
    && LakeOk(s, events, k, idOf) && PipeInv(s, k.pipe) && Rebuilt(s, k)
    && Fixed(events, idOf, noOf) && StagesLoans(s, events, idOf, noOf)
    && StagesGold(s, events, typeOf, bodyOf, idOf, noOf) && Reads(v, k, typeOf, bodyOf)
  }

  lemma StatusIsShown(s: Source, events: Events, k: Lake, v: G.Vault, typeOf: string -> G.EntityType,
                      bodyOf: string -> G.Body, idOf: string -> string, noOf: string -> string, t: G.EntityType,
                      hk: string)
    requires Ready(s, events, k, v, typeOf, bodyOf, idOf, noOf)
    ensures G.HasActiveRow(G.StatusOf(v, t), hk) <==>
              typeOf(hk) == t && ActiveIn(PastOf(s, k.pipe.control.db, STATUS), hk)
  {
    hide KeepStateChanges, Contract, G.Current, G.StatusOf, G.DetailsOf, S.Shows, PastOf, IsStatusRow, S.HubHas;
    hide G.HasActiveRow, ActiveIn, LakeOk, PipeInv, Fixed, StagesLoans;
    var rows := PastOf(s, k.pipe.control.db, STATUS);
    CompressionOfType(rows, typeOf, t);
    forall r | r in rows ensures IsStatusRow(r) {
      var o := PastRow(s, k.pipe.control.db, STATUS, r);
    }
    var part := OfType(rows, typeOf, t);
    IncrementalLoad.SubsetContract(rows, part);
    StatusViewShowsLast(G.StatusOf(v, t), part, hk);
    ActiveOfType(rows, typeOf, t, hk);
  }

  lemma ActiveOfType(rows: set<Row>, typeOf: string -> G.EntityType, t: G.EntityType, hk: string)
    ensures ActiveIn(OfType(rows, typeOf, t), hk) <==> typeOf(hk) == t && ActiveIn(rows, hk)
  {
    hide Before;
    var part := OfType(rows, typeOf, t);
    if r :| IsLast(part, r) && r.entity == hk && r.image == Status(false) {
      assert IsLast(rows, r);
    }
    if typeOf(hk) == t {
      if r :| IsLast(rows, r) && r.entity == hk && r.image == Status(false) {
        assert IsLast(part, r);
      }
    }
  }

  lemma DetailStagesKey(s: Source, events: Events, typeOf: string -> G.EntityType, bodyOf: string -> G.Body,
                        idOf: string -> string, noOf: string -> string, t: G.EntityType, key: string)
    requires StagesGold(s, events, typeOf, bodyOf, idOf, noOf)
    ensures DetailsTable(t) in s.staging
    ensures key in s.staging[DetailsTable(t)] ==>
              var hk := s.staging[DetailsTable(t)][key].entity;
              typeOf(hk) == t && key in events.keys && events.keys[key] == hk
  {
    assert StagesDetails(s, events, typeOf, t);
  }

  lemma DetailedIsInHub(s: Source, events: Events, k: Lake, typeOf: string -> G.EntityType, bodyOf: string -> G.Body,
                        idOf: string -> string, noOf: string -> string, t: G.EntityType, hk: string)
    requires LakeOk(s, events, k, idOf) && PipeInv(s, k.pipe) && StagesGold(s, events, typeOf, bodyOf, idOf, noOf)
    ensures DetailsTable(t) in s.staging
    ensures HasEntity(PastOf(s, k.pipe.control.db, DetailsTable(t)), hk) ==> typeOf(hk) == t && hk in k.keys
  {
    hide PastOf, LakeOk, PipeInv, DetailsTable, StagesGold, Publication.Below, PreviousHighs;
    var db, d := k.pipe.control.db, DetailsTable(t);
    DetailStagesKey(s, events, typeOf, bodyOf, idOf, noOf, t, "");
    if HasEntity(PastOf(s, db, d), hk) {
      var r :| r in PastOf(s, db, d) && r.entity == hk;
      var o := PastRow(s, db, d, r);
      DetailStagesKey(s, events, typeOf, bodyOf, idOf, noOf, t, o.objectKey);
      KeyIsInHub(s, events, k, o, idOf);
    }
  }

  /** Details exist exactly when some event up to the highs brings them, and the same event brought the hub key. */
  lemma DetailsAreShown(s: Source, events: Events, k: Lake, v: G.Vault, typeOf: string -> G.EntityType,
                        bodyOf: string -> G.Body, idOf: string -> string, noOf: string -> string, t: G.EntityType,
                        hk: string)
    requires Ready(s, events, k, v, typeOf, bodyOf, idOf, noOf) && t != G.ApplicationType
    ensures G.HasKey(G.DetailsOf(v, t), hk) <==> HasEntity(PastOf(s, k.pipe.control.db, DetailsTable(t)), hk)
    ensures G.HasKey(G.DetailsOf(v, t), hk) ==> typeOf(hk) == t && S.HubHas(v, t, hk)
  {
    var db, d := k.pipe.control.db, DetailsTable(t);
    hide KeepStateChanges, Contract, PastOf, HasEntity, S.Shows, S.HubHas, LakeOk, PipeInv, G.HasKey, G.DetailsOf;
    hide G.StatusOf, Fixed, StagesLoans, StagesGold, DetailsTable;
    GoldIsStaged(s, events, typeOf, bodyOf, idOf, noOf);
    CompressionKeepsEntities(PastOf(s, db, d), hk);
    DetailedIsInHub(s, events, k, typeOf, bodyOf, idOf, noOf, t, hk);
  }

  /** Hub row, current status and details exist together exactly when the events say so. */
  lemma PresentIsAlive(s: Source, events: Events, k: Lake, v: G.Vault, typeOf: string -> G.EntityType,
                       bodyOf: string -> G.Body, idOf: string -> string, noOf: string -> string, t: G.EntityType,
                       hk: string)
    requires Ready(s, events, k, v, typeOf, bodyOf, idOf, noOf) && t != G.ApplicationType
    ensures FactIsStaged(s)
    ensures S.Present(v, t, hk) <==> LivesAt(s, k.pipe.control.db, t, hk)
  {
    GoldIsStaged(s, events, typeOf, bodyOf, idOf, noOf);
    hide Ready, DetailsTable, PastOf, S.HubHas, G.HasActiveRow, ActiveIn, HasEntity, G.HasKey, G.DetailsOf, G.StatusOf;
    StatusIsShown(s, events, k, v, typeOf, bodyOf, idOf, noOf, t, hk);
    DetailsAreShown(s, events, k, v, typeOf, bodyOf, idOf, noOf, t, hk);
  }

  lemma GoldIsStaged(s: Source, events: Events, typeOf: string -> G.EntityType, bodyOf: string -> G.Body,
                     idOf: string -> string, noOf: string -> string)
    requires StagesGold(s, events, typeOf, bodyOf, idOf, noOf)
    ensures FactIsStaged(s)
  {
  }

  /** The application of a context in force is in its hub. */
  lemma ContextIsShown(s: Source, events: Events, k: Lake, v: G.Vault, typeOf: string -> G.EntityType,
                       bodyOf: string -> G.Body, idOf: string -> string, noOf: string -> string, hk: string,
                       body: G.Body)
    requires Ready(s, events, k, v, typeOf, bodyOf, idOf, noOf)
    ensures FactIsStaged(s)
    ensures S.HasContextRow(v, hk, body) <==>
              InForce(PastOf(s, k.pipe.control.db, V.LOAN_EFFECTIVITY), hk, bodyOf, body)
    ensures S.HasContextRow(v, hk, body) ==> body.ContextBody? && S.HubHas(v, G.ApplicationType, body.applicationHk)
  {
    hide KeepStateChanges, Contract, PastOf, S.Shows, S.HubHas, G.HasKey, LakeOk, PipeInv, Fixed, G.Current, IsLast;
    var db := k.pipe.control.db;
    var rows := PastOf(s, db, V.LOAN_EFFECTIVITY);
    forall r | r in rows
      ensures IsContextRow(r)
      ensures bodyOf(r.image.context).ContextBody?
      ensures S.HubHas(v, G.ApplicationType, bodyOf(r.image.context).applicationHk)
    {
      var o := PastRow(s, db, V.LOAN_EFFECTIVITY, r);
      NumberIsInHub(s, events, k, o, idOf, noOf);
    }
    ContextViewShowsLast(v.loanContext, rows, bodyOf, hk, body);
    if InForce(rows, hk, bodyOf, body) {
      var context :| ContextIn(rows, hk, context) && body == bodyOf(context);
      var m :| IsLast(rows, m) && m.entity == hk && m.image == Effectivity(context, false);
      LastIsThere(rows, m);
    }
  }

  /** Every dimension of the context lives. */
  ghost predicate DimensionsLive(s: Source, db: Db, body: G.Body)
    requires FactIsStaged(s)
  {
    && body.ContextBody?
    && LivesAt(s, db, G.CustomerType, body.customerHk) && LivesAt(s, db, G.ProductType, body.productHk)
    && LivesAt(s, db, G.BranchType, body.branchHk) && LivesAt(s, db, G.CurrencyType, body.currencyHk)
  }

  /** The loan lives, and so do the dimensions of the context in force. */
  ghost predicate LoanIsCurrent(s: Source, db: Db, bodyOf: string -> G.Body, hk: string)
    requires FactIsStaged(s)
  {
    && LivesAt(s, db, G.LoanType, hk)
    && exists body :: InForce(PastOf(s, db, V.LOAN_EFFECTIVITY), hk, bodyOf, body) && DimensionsLive(s, db, body)
  }

  lemma ContextDecides(s: Source, events: Events, k: Lake, v: G.Vault, typeOf: string -> G.EntityType,
                       bodyOf: string -> G.Body, idOf: string -> string, noOf: string -> string, hk: string,
                       body: G.Body)
    requires Ready(s, events, k, v, typeOf, bodyOf, idOf, noOf) && FactIsStaged(s)
    ensures S.HasContextRow(v, hk, body) && S.ContextPresent(v, body) <==>
              InForce(PastOf(s, k.pipe.control.db, V.LOAN_EFFECTIVITY), hk, bodyOf, body)
              && DimensionsLive(s, k.pipe.control.db, body)
  {
    hide Ready, DetailsTable, PastOf, LivesAt, S.Present, S.HasContextRow, S.HubHas, InForce;
    ContextIsShown(s, events, k, v, typeOf, bodyOf, idOf, noOf, hk, body);
    if body.ContextBody? {
      PresentIsAlive(s, events, k, v, typeOf, bodyOf, idOf, noOf, G.CustomerType, body.customerHk);
      PresentIsAlive(s, events, k, v, typeOf, bodyOf, idOf, noOf, G.ProductType, body.productHk);
      PresentIsAlive(s, events, k, v, typeOf, bodyOf, idOf, noOf, G.BranchType, body.branchHk);
      PresentIsAlive(s, events, k, v, typeOf, bodyOf, idOf, noOf, G.CurrencyType, body.currencyHk);
    }
  }

  lemma FactOfReady(s: Source, events: Events, k: Lake, v: G.Vault, typeOf: string -> G.EntityType,
                    bodyOf: string -> G.Body, idOf: string -> string, noOf: string -> string, hk: string)
    requires Ready(s, events, k, v, typeOf, bodyOf, idOf, noOf) && FactIsStaged(s)
    ensures (exists d :: d in G.Loans(v) && d.hub.hk == hk) <==> LoanIsCurrent(s, k.pipe.control.db, bodyOf, hk)
  {
    S.FactExists(v, hk);
    hide Ready, DetailsTable, PastOf, LivesAt, G.Loans, S.Present, S.HasContextRow, S.HubHas, InForce;
    hide DimensionsLive, S.ContextPresent;
    PresentIsAlive(s, events, k, v, typeOf, bodyOf, idOf, noOf, G.LoanType, hk);
    forall body: G.Body
      ensures S.HasContextRow(v, hk, body) && S.ContextPresent(v, body) <==>
                InForce(PastOf(s, k.pipe.control.db, V.LOAN_EFFECTIVITY), hk, bodyOf, body)
                && DimensionsLive(s, k.pipe.control.db, body)
    {
      ContextDecides(s, events, k, v, typeOf, bodyOf, idOf, noOf, hk, body);
    }
  }

  /**
   End to end: over the hubs and satellites a published run leaves, a loan is in the fact if and only if,
   among the Bronze events up to the published highs, the loan is detailed and its last event is no delete,
   the last event of its context is no delete, and the customer, product, branch and currency of that
   context are each detailed and not deleted. Its application is never missing.
   */
  lemma PublishedLoanFactIsTheFold(s: Source, events: Events, steps: seq<LoanStep>, idOf: string -> string,
                                   noOf: string -> string, v: G.Vault, typeOf: string -> G.EntityType,
                                   bodyOf: string -> G.Body, hk: string)
    requires SourceOk(s) && LedgerControl.LedgerOk(s.history.ledger)
    requires Fixed(events, idOf, noOf) && StagesLoans(s, events, idOf, noOf) && AllowedLake(s, events, steps)
    requires var db := LakeRuns(s, events, steps).pipe.control.db;
             && AppsInsertedFirst(events, db) && LoansKept(events, db, idOf)
             && db.created != [] && LatestId(db) in db.batches && db.batches[LatestId(db)].state == PUBLISHED
    requires StagesGold(s, events, typeOf, bodyOf, idOf, noOf) && Reads(v, LakeRuns(s, events, steps), typeOf, bodyOf)
    ensures FactIsStaged(s)
    ensures (exists d :: d in G.Loans(v) && d.hub.hk == hk) <==>
              LoanIsCurrent(s, LakeRuns(s, events, steps).pipe.control.db, bodyOf, hk)
  {
    hide SourceOk, Fixed, StagesLoans, AllowedLake, AppsInsertedFirst, LoansKept, LakeRuns, Reads, Rebuilt, LakeOk;
    hide PipeInv, StagesGold, FactIsStaged, LoanIsCurrent, G.Loans, LedgerControl.LedgerOk;
    var k := LakeRuns(s, events, steps);
    GoldIsStaged(s, events, typeOf, bodyOf, idOf, noOf);
    LakeAtEnd(s, events, steps, idOf, noOf);
    FactOfReady(s, events, k, v, typeOf, bodyOf, idOf, noOf, hk);
  }

  lemma LakeAtEnd(s: Source, events: Events, steps: seq<LoanStep>, idOf: string -> string, noOf: string -> string)
    requires SourceOk(s) && LedgerControl.LedgerOk(s.history.ledger)
    requires Fixed(events, idOf, noOf) && StagesLoans(s, events, idOf, noOf) && AllowedLake(s, events, steps)
    requires var db := LakeRuns(s, events, steps).pipe.control.db;
             && AppsInsertedFirst(events, db) && LoansKept(events, db, idOf)
             && db.created != [] && LatestId(db) in db.batches && db.batches[LatestId(db)].state == PUBLISHED
    ensures var k := LakeRuns(s, events, steps); LakeOk(s, events, k, idOf) && PipeInv(s, k.pipe) && Rebuilt(s, k)
  {
    hide SourceOk, Fixed, StagesLoans, AllowedLake, AppsInsertedFirst, LoansKept, LakeRuns, KnownLake, CoreOk, LakeOk;
    hide PipeInv, KeepStateChanges, Contract, Past;
    EveryLoadFindsItsApplications(s, events, steps, idOf, noOf);
    KnownLakeIsOk(s, events, steps, idOf, noOf);
    forall t | t in s.staging
      ensures t in LakeRuns(s, events, steps).pipe.tables
      ensures Project(LakeRuns(s, events, steps).pipe.tables[t])
           == KeepStateChanges(PastOf(s, LakeRuns(s, events, steps).pipe.control.db, t))
      ensures Contract(PastOf(s, LakeRuns(s, events, steps).pipe.control.db, t))
    {
      PublishedLakeIsRebuild(s, events, steps, t, idOf, noOf);
      PastKeepsContract(s, LakeRuns(s, events, steps).pipe.control.db, t);
    }
  }
}
