/** What a lineage row says: which stored row stands behind which Gold row. */
module Provenance {
  import opened Wrappers
  import opened Gold
  import opened Portfolio
  import opened Lineage

  /** The entity is current: its status view has a row of its key. */
  ghost predicate IsCurrent(v: Vault, t: EntityType, hk: string) {
    exists s :: s in Current(StatusOf(v, t)) && s.hk == hk
  }

  /** The latest detail row of a current entity, by its business key. */
  ghost predicate DetailsBehind(v: Vault, t: EntityType, key: string, eventId: string) {
    exists h, r :: h in Hub(v, t) && r in RankFirst(true, DetailsOf(v, t)) && r.hk == h.hk
                   && h.bk == key && r.eventId == eventId && IsCurrent(v, t, h.hk)
  }

  /** The row of a hub key in the current view of a context satellite. */
  ghost predicate ContextBehind(hub: seq<HubRow>, context: seq<SatRow>, key: string, eventId: string) {
    exists h, r :: h in hub && r in Current(context) && r.hk == h.hk && h.bk == key && r.eventId == eventId
  }

  /** A loan fact of the portfolio row's customer and currency, by the event of its details. */
  ghost predicate LoanBehind(v: Vault, key: string, eventId: string) {
    exists p, d :: p in PortfolioOf(v) && d in Loans(v) && {Customer, Currency, Details} <= d.joined.Keys
                   && d.joined[Customer].hk == p.key.customerHk && d.joined[Currency].hk == p.key.currencyHk
                   && key == p.key.customerId + "|" + p.key.currencyCode && d.joined[Details].row.eventId == eventId
  }

  /** The latest details of the portfolio row's customer. */
  ghost predicate CustomerBehind(v: Vault, key: string, eventId: string) {
    exists p, r :: p in PortfolioOf(v) && r in RankFirst(true, DetailsOf(v, CustomerType))
                   && r.hk == p.key.customerHk && key == p.key.customerId + "|" + p.key.currencyCode
                   && r.eventId == eventId
  }

  /** The model that shows an entity. */
  function ModelOf(t: EntityType): Model {
    match t
    case CustomerType => DimCustomer
    case ProductType => DimProduct
    case BranchType => DimBranch
    case CurrencyType => DimCurrency
    case ApplicationType => FctApplications
    case LoanType => FctLoans
  }

  ghost predicate EntityBehind(v: Vault, x: Trace) {
    x.satellite.DetailsOfType? && x.model == ModelOf(x.satellite.t) && DetailsBehind(v, x.satellite.t, x.key, x.eventId)
  }

  ghost predicate FactContextBehind(v: Vault, x: Trace) {
    || (x.model == FctApplications && x.satellite == ApplicationEffectivity
        && ContextBehind(Hub(v, ApplicationType), v.applicationContext, x.key, x.eventId))
    || (x.model == FctLoans && x.satellite == LoanEffectivity
        && ContextBehind(Hub(v, LoanType), v.loanContext, x.key, x.eventId))
  }

  ghost predicate PortfolioBehind(v: Vault, x: Trace) {
    && x.model == AggPortfolio
    && (|| (x.satellite == DetailsOfType(LoanType) && LoanBehind(v, x.key, x.eventId))
        || (x.satellite == DetailsOfType(CustomerType) && CustomerBehind(v, x.key, x.eventId)))
  }

  lemma TracesExact(model: Model, satellite: Satellite, alias: Alias, rows: seq<Draft>, x: Trace)
    ensures x in Traces(model, satellite, alias, rows) <==>
              exists d :: d in rows && x == Trace(model, d.hub.bk, satellite, SideOf(d, alias).row.eventId)
  {
    var traces := Traces(model, satellite, alias, rows);
    if x in traces {
      var i :| 0 <= i < |traces| && traces[i] == x;
      assert rows[i] in rows;
    }
    if d :| d in rows && x == Trace(model, d.hub.bk, satellite, SideOf(d, alias).row.eventId) {
      var i :| 0 <= i < |rows| && rows[i] == d;
      assert traces[i] in traces;
    }
  }

  lemma SideOfRow(rows: seq<SatRow>, r: SatRow)
    requires r in rows
    ensures Side(r.hk, "", r) in SatSides(rows)
  {
    var i :| 0 <= i < |rows| && rows[i] == r;
    assert SatSides(rows)[i] in SatSides(rows);
  }

  lemma RowOfSide(rows: seq<SatRow>, s: Side)
    requires s in SatSides(rows)
    ensures s.row in rows && s == Side(s.row.hk, "", s.row)
  {
    var i :| 0 <= i < |rows| && SatSides(rows)[i] == s;
    assert rows[i] in rows;
  }

  lemma AttributesExact(v: Vault, t: EntityType, model: Model, x: Trace)
    ensures x in Attributes(v, t, model) <==>
              x.model == model && x.satellite == DetailsOfType(t) && DetailsBehind(v, t, x.key, x.eventId)
  {
    TracesExact(model, DetailsOfType(t), Details, AttributeRows(v, t), x);
    hide AttributeRows, DetailsBehind;
    if x in Attributes(v, t, model) {
      var d :| d in AttributeRows(v, t) && x == Trace(model, d.hub.bk, DetailsOfType(t),
          SideOf(d, Details).row.eventId);
      AttributeIsBehind(v, t, d);
    }
    if x.model == model && x.satellite == DetailsOfType(t) && DetailsBehind(v, t, x.key, x.eventId) {
      var d := BehindIsAttribute(v, t, x.key, x.eventId);
    }
  }

  lemma AttributeIsBehind(v: Vault, t: EntityType, d: Draft)
    requires d in AttributeRows(v, t)
    ensures DetailsBehind(v, t, d.hub.bk, SideOf(d, Details).row.eventId)
  {
    BaseExact(v, t);
    AttributeRowsAreBase(v, t, d);
    hide Base, AttributeRows, Current, RankFirst;
    RowOfSide(RankFirst(true, DetailsOf(v, t)), d.joined[Details]);
    RowOfSide(Current(StatusOf(v, t)), d.joined[EntityStatus]);
    assert d.joined[Details].row.hk == d.hub.hk && d.joined[EntityStatus].row.hk == d.hub.hk;
    assert IsCurrent(v, t, d.hub.hk);
  }

  lemma BehindIsAttribute(v: Vault, t: EntityType, key: string, eventId: string) returns (d: Draft)
    requires DetailsBehind(v, t, key, eventId)
    ensures d in AttributeRows(v, t) && d.hub.bk == key && SideOf(d, Details).row.eventId == eventId
  {
    hide AttributeRows, Current, RankFirst;
    var latest, status := RankFirst(true, DetailsOf(v, t)), Current(StatusOf(v, t));
    var h, r :| h in Hub(v, t) && r in latest && r.hk == h.hk && h.bk == key && r.eventId == eventId
                && IsCurrent(v, t, h.hk);
    var s :| s in status && s.hk == h.hk;
    SideOfRow(latest, r);
    SideOfRow(status, s);
    d := Draft(h, map[EntityStatus := Side(s.hk, "", s), Details := Side(r.hk, "", r)]);
    BaseExact(v, t);
    AttributeRowsAreBase(v, t, d);
    hide Base;
    assert Fits(d, EntityStatus, ActiveSides(v, t)) && Fits(d, Details, DetailSides(v, t));
  }

  lemma ContextsExact(hub: seq<HubRow>, context: seq<SatRow>, model: Model, satellite: Satellite, x: Trace)
    ensures x in Traces(model, satellite, Context, ContextRows(hub, context)) <==>
              x.model == model && x.satellite == satellite && ContextBehind(hub, context, x.key, x.eventId)
  {
    var rows := ContextRows(hub, context);
    TracesExact(model, satellite, Context, rows, x);
    HubDraftsExact(hub);
    if x in Traces(model, satellite, Context, rows) {
      var d :| d in rows && x == Trace(model, d.hub.bk, satellite, SideOf(d, Context).row.eventId);
      JoinFits(HubDrafts(hub), SatSides(Current(context)), Context, {}, d);
      hide Join, Current, HubDrafts;
      RowOfSide(Current(context), d.joined[Context]);
    }
    if x.model == model && x.satellite == satellite && ContextBehind(hub, context, x.key, x.eventId) {
      var h, r :| h in hub && r in Current(context) && r.hk == h.hk && h.bk == x.key && r.eventId == x.eventId;
      SideOfRow(Current(context), r);
      var d := Draft(h, map[Context := Side(r.hk, "", r)]);
      assert Drop(d, Context) == Draft(h, map[]);
      JoinFits(HubDrafts(hub), SatSides(Current(context)), Context, {}, d);
      hide Join, Current, HubDrafts;
      assert Fits(d, Context, SatSides(Current(context)));
      assert d in rows;
    }
  }

  lemma ContributingIsLoanBehind(v: Vault, x: Trace)
    requires VaultOk(v)
    ensures x in AllContributing(PortfolioOf(v), Join(Loans(v), DetailSides(v, LoanType), Details)) <==>
              x.model == AggPortfolio && x.satellite == DetailsOfType(LoanType) && LoanBehind(v, x.key, x.eventId)
  {
    LoansKeepDetails(v);
    hide Loans, PortfolioOf, Join, AllContributing, Contributing, VaultOk, LoanBehind;
    AllContributingExact(PortfolioOf(v), Loans(v));
    if x in AllContributing(PortfolioOf(v), Loans(v)) {
      var p :| p in PortfolioOf(v) && x in Contributing(p, Loans(v));
      ContributorIsBehind(v, p, x);
    }
    if x.model == AggPortfolio && x.satellite == DetailsOfType(LoanType) && LoanBehind(v, x.key, x.eventId) {
      var p := BehindIsContributor(v, x);
    }
  }

  lemma ContributorIsBehind(v: Vault, p: PortfolioRow, x: Trace)
    requires p in PortfolioOf(v) && x in Contributing(p, Loans(v))
    ensures x.model == AggPortfolio && x.satellite == DetailsOfType(LoanType) && LoanBehind(v, x.key, x.eventId)
  {
    hide Loans, PortfolioOf, Contributing;
    ContributingExact(p, Loans(v));
    var d :| d in Loans(v) && Contributes(p, d, x);
    FactHasSides(v, d);
  }

  lemma BehindIsContributor(v: Vault, x: Trace) returns (p: PortfolioRow)
    requires x.model == AggPortfolio && x.satellite == DetailsOfType(LoanType) && LoanBehind(v, x.key, x.eventId)
    ensures p in PortfolioOf(v) && x in Contributing(p, Loans(v))
  {
    hide Loans, PortfolioOf, Contributing;
    var q, d :| q in PortfolioOf(v) && d in Loans(v) && {Customer, Currency, Details} <= d.joined.Keys
                && d.joined[Customer].hk == q.key.customerHk && d.joined[Currency].hk == q.key.currencyHk
                && x.key == q.key.customerId + "|" + q.key.currencyCode
                && d.joined[Details].row.eventId == x.eventId;
    assert Details in d.joined && Customer in d.joined && Currency in d.joined;
    p := q;
    assert Contributes(p, d, x);
    ContributingExact(p, Loans(v));
  }

  lemma FactHasSides(v: Vault, d: Draft)
    requires d in Loans(v)
    ensures {Customer, Currency, Details} <= d.joined.Keys
  {
    LoansAreExact(v, d);
  }

  lemma ClassifyingIsCustomerBehind(v: Vault, x: Trace)
    ensures x in AllClassifying(PortfolioOf(v), DetailSides(v, CustomerType)) <==>
              x.model == AggPortfolio && x.satellite == DetailsOfType(CustomerType)
              && CustomerBehind(v, x.key, x.eventId)
  {
    var portfolio, latest := PortfolioOf(v), RankFirst(true, DetailsOf(v, CustomerType));
    hide Loans, PortfolioOf, AllClassifying, Classifying, RankFirst;
    AllClassifyingExact(portfolio, SatSides(latest));
    if x in AllClassifying(portfolio, SatSides(latest)) {
      var p :| p in portfolio && x in Classifying(p, SatSides(latest));
      ClassifyingExact(p, SatSides(latest));
      var s :| s in SatSides(latest) && Classifies(p, s, x);
      RowOfSide(latest, s);
    }
    if x.model == AggPortfolio && x.satellite == DetailsOfType(CustomerType) && CustomerBehind(v, x.key, x.eventId) {
      var p, r :| p in portfolio && r in latest && r.hk == p.key.customerHk
                  && x.key == p.key.customerId + "|" + p.key.currencyCode && r.eventId == x.eventId;
      SideOfRow(latest, r);
      assert Classifies(p, Side(r.hk, "", r), x);
      ClassifyingExact(p, SatSides(latest));
    }
  }

  lemma EntityTracesExact(v: Vault, x: Trace)
    ensures x in EntityTraces(v) <==> EntityBehind(v, x)
  {
    hide Attributes, DetailsBehind;
    AttributesExact(v, CustomerType, DimCustomer, x);
    AttributesExact(v, ProductType, DimProduct, x);
    AttributesExact(v, BranchType, DimBranch, x);
    AttributesExact(v, CurrencyType, DimCurrency, x);
    AttributesExact(v, ApplicationType, FctApplications, x);
    AttributesExact(v, LoanType, FctLoans, x);
  }

  lemma ContextTracesExact(v: Vault, x: Trace)
    ensures x in ContextTraces(v) <==> FactContextBehind(v, x)
  {
    hide Traces, ContextRows, ContextBehind;
    ContextsExact(Hub(v, ApplicationType), v.applicationContext, FctApplications, ApplicationEffectivity, x);
    ContextsExact(Hub(v, LoanType), v.loanContext, FctLoans, LoanEffectivity, x);
  }

  lemma PortfolioTracesExact(v: Vault, x: Trace)
    requires VaultOk(v)
    ensures x in PortfolioTraces(v) <==> PortfolioBehind(v, x)
  {
    hide VaultOk, AllContributing, AllClassifying, PortfolioOf, Join, LoanBehind, CustomerBehind;
    ContributingIsLoanBehind(v, x);
    ClassifyingIsCustomerBehind(v, x);
  }

  /**
   The lineage is exactly what stands behind the Gold rows: for every model and satellite, the event
   of each stored row the model took for the key, and no other.
   */
  lemma LineageIsExact(v: Vault, x: Trace)
    requires VaultOk(v)
    ensures x in LineageOf(v) <==> EntityBehind(v, x) || FactContextBehind(v, x) || PortfolioBehind(v, x)
  {
    EntityTracesExact(v, x);
    ContextTracesExact(v, x);
    PortfolioTracesExact(v, x);
    hide VaultOk, EntityTraces, ContextTraces, PortfolioTraces, EntityBehind, FactContextBehind, PortfolioBehind;
  }

  /** The satellite a lineage row names. */
  function SatelliteRows(v: Vault, s: Satellite): seq<SatRow> {
    match s
    case DetailsOfType(t) => DetailsOf(v, t)
    case ApplicationEffectivity => v.applicationContext
    case LoanEffectivity => v.loanContext
  }

  function TypeOf(s: Satellite): EntityType {
    match s
    case DetailsOfType(t) => t
    case ApplicationEffectivity => ApplicationType
    case LoanEffectivity => LoanType
  }

  /** Of two values a present and greater one wins. */
  predicate NotLess(a: Option<int>, b: Option<int>) {
    b.None? || (a.Some? && a.value >= b.value)
  }

  /** No row of the key has a later event time, at the same time a later LSN, or at the same LSN a later position. */
  ghost predicate IsLatest(rows: seq<SatRow>, r: SatRow) {
    forall y | y in rows && y.hk == r.hk ::
      && NotLess(r.at.effectiveFrom, y.at.effectiveFrom)
      && (r.at.effectiveFrom == y.at.effectiveFrom ==> NotLess(r.at.lsn, y.at.lsn))
      && (r.at.effectiveFrom == y.at.effectiveFrom && r.at.lsn == y.at.lsn ==>
            y.at.partition < r.at.partition || (y.at.partition == r.at.partition && y.at.offset <= r.at.offset))
  }

  /** The row ranked first by event time is the latest of its key. */
  lemma RankedFirstIsLatest(rows: seq<SatRow>, r: SatRow)
    requires r in RankFirst(true, rows)
    ensures r in rows && IsLatest(rows, r)
  {
    RankFirstIsTop(true, rows);
    RankFirstIsOnePerKey(true, rows);
    var best := RankFirst(true, rows);
    hide RankFirst;
    var k :| 0 <= k < |best| && best[k] == r;
    forall y | y in rows && y.hk == r.hk ensures !RawVault.Ahead(true, y.at, best[k].at) {
    }
  }

  /** The business key the Gold row shows for the entity whose key the stored row has. */
  ghost predicate Shows(v: Vault, x: Trace, hk: string) {
    match x.model
    case DimCustomer => HubRow(hk, x.key) in Hub(v, CustomerType)
    case DimProduct => HubRow(hk, x.key) in Hub(v, ProductType)
    case DimBranch => HubRow(hk, x.key) in Hub(v, BranchType)
    case DimCurrency => HubRow(hk, x.key) in Hub(v, CurrencyType)
    case FctApplications => HubRow(hk, x.key) in Hub(v, ApplicationType)
    case FctLoans => HubRow(hk, x.key) in Hub(v, LoanType)
    case AggPortfolio =>
      exists p :: p in PortfolioOf(v) && x.key == p.key.customerId + "|" + p.key.currencyCode
                  && if x.satellite == DetailsOfType(CustomerType) then hk == p.key.customerHk
                     else exists d :: d in Loans(v) && d.hub.hk == hk && KeyOf(d) == p.key
  }

  /**
   Every event a lineage row names is that of a row of the satellite it names, stored under a key the
   Gold row shows: the latest detail row of the key, or an active context row.
   */
  lemma TracedEventIsStored(v: Vault, x: Trace) returns (r: SatRow)
    requires VaultOk(v) && x in LineageOf(v)
    ensures r in SatelliteRows(v, x.satellite) && r.eventId == x.eventId && Shows(v, x, r.hk)
    ensures if x.satellite.DetailsOfType? then IsLatest(DetailsOf(v, x.satellite.t), r) else r.active
  {
    LineageIsExact(v, x);
    hide VaultOk, LineageOf, EntityBehind, FactContextBehind, LoanBehind, CustomerBehind, Shows, IsLatest;
    if EntityBehind(v, x) {
      r := DetailRowBehind(v, x);
    } else if FactContextBehind(v, x) {
      r := ContextRowBehind(v, x);
    } else if x.satellite == DetailsOfType(CustomerType) {
      r := CustomerRowBehind(v, x);
    } else {
      r := LoanRowBehind(v, x);
    }
  }

  lemma DetailRowBehind(v: Vault, x: Trace) returns (r: SatRow)
    requires EntityBehind(v, x)
    ensures x.satellite.DetailsOfType? && r in DetailsOf(v, x.satellite.t) && r.eventId == x.eventId
    ensures Shows(v, x, r.hk) && IsLatest(DetailsOf(v, x.satellite.t), r)
  {
    hide RankFirst, IsLatest, IsCurrent;
    var t := x.satellite.t;
    var h, row :| h in Hub(v, t) && row in RankFirst(true, DetailsOf(v, t)) && row.hk == h.hk
                  && h.bk == x.key && row.eventId == x.eventId && IsCurrent(v, t, h.hk);
    RankedFirstIsLatest(DetailsOf(v, t), row);
    assert h == HubRow(row.hk, x.key);
    r := row;
  }

  lemma ContextRowBehind(v: Vault, x: Trace) returns (r: SatRow)
    requires FactContextBehind(v, x)
    ensures !x.satellite.DetailsOfType? && r in SatelliteRows(v, x.satellite) && r.eventId == x.eventId
    ensures Shows(v, x, r.hk) && r.active
  {
    hide Current;
    var t, context := TypeOf(x.satellite), SatelliteRows(v, x.satellite);
    var h, row :| h in Hub(v, t) && row in Current(context) && row.hk == h.hk && h.bk == x.key
                  && row.eventId == x.eventId;
    CurrentIsOnePerKey(context);
    assert h == HubRow(row.hk, x.key);
    r := row;
  }

  lemma CustomerRowBehind(v: Vault, x: Trace) returns (r: SatRow)
    requires x.model == AggPortfolio && x.satellite == DetailsOfType(CustomerType)
    requires CustomerBehind(v, x.key, x.eventId)
    ensures r in DetailsOf(v, CustomerType) && r.eventId == x.eventId && Shows(v, x, r.hk)
    ensures IsLatest(DetailsOf(v, CustomerType), r)
  {
    hide RankFirst, IsLatest, PortfolioOf;
    var p, row :| p in PortfolioOf(v) && row in RankFirst(true, DetailsOf(v, CustomerType))
                  && row.hk == p.key.customerHk && x.key == p.key.customerId + "|" + p.key.currencyCode
                  && row.eventId == x.eventId;
    RankedFirstIsLatest(DetailsOf(v, CustomerType), row);
    r := row;
  }

  lemma LoanRowBehind(v: Vault, x: Trace) returns (r: SatRow)
    requires VaultOk(v) && x.model == AggPortfolio && x.satellite == DetailsOfType(LoanType)
    requires LoanBehind(v, x.key, x.eventId)
    ensures r in DetailsOf(v, LoanType) && r.eventId == x.eventId && Shows(v, x, r.hk)
    ensures IsLatest(DetailsOf(v, LoanType), r)
  {
    hide VaultOk, PortfolioOf, Loans, RankFirst, IsLatest, KeyOf;
    var p, d :| p in PortfolioOf(v) && d in Loans(v) && {Customer, Currency, Details} <= d.joined.Keys
                && d.joined[Customer].hk == p.key.customerHk && d.joined[Currency].hk == p.key.currencyHk
                && x.key == p.key.customerId + "|" + p.key.currencyCode
                && d.joined[Details].row.eventId == x.eventId;
    assert Details in d.joined && Customer in d.joined && Currency in d.joined;
    r := d.joined[Details].row;
    LoanDetails(v, d);
    RankedFirstIsLatest(DetailsOf(v, LoanType), r);
    PairDecidesKey(v, p, d);
  }

  lemma LoanDetails(v: Vault, d: Draft)
    requires d in Loans(v)
    ensures Details in d.joined
    ensures d.joined[Details].row in RankFirst(true, DetailsOf(v, LoanType)) && d.joined[Details].row.hk == d.hub.hk
  {
    LoansAreExact(v, d);
    hide Loans, RankFirst, Current, Dim, HubSides;
    RowOfSide(RankFirst(true, DetailsOf(v, LoanType)), d.joined[Details]);
  }

  lemma PairDecidesKey(v: Vault, p: PortfolioRow, d: Draft)
    requires VaultOk(v) && p in PortfolioOf(v) && d in Loans(v) && {Customer, Currency} <= d.joined.Keys
    requires d.joined[Customer].hk == p.key.customerHk && d.joined[Currency].hk == p.key.currencyHk
    ensures KeyOf(d) == p.key
  {
    hide VaultOk, PortfolioOf, Loans, KeyOf;
    PortfolioRowHasLoan(v, p);
    var e :| e in Loans(v) && KeyOf(e) == p.key;
    assert Customer in d.joined && Currency in d.joined;
    KeyHasHashes(d);
    KeyHasHashes(e);
    KeyFollowsFromHashes(v, d, e);
  }
}
