/** gold_row_lineage: the Raw Vault rows behind every Gold row, complete and without duplicates. */
module Lineage {
  import opened Gold
  import opened Portfolio

  datatype Model = DimCustomer | DimProduct | DimBranch | DimCurrency | FctApplications | FctLoans | AggPortfolio

  datatype Satellite = DetailsOfType(t: EntityType) | ApplicationEffectivity | LoanEffectivity

  /** The columns the completeness and uniqueness tests of the models look at. */
  datatype Trace = Trace(model: Model, key: string, satellite: Satellite, eventId: string)

  // ---------------------------------------------------------------- the parts of the union

  function TraceOf(model: Model, satellite: Satellite, alias: Alias, d: Draft): Trace {
    Trace(model, d.hub.bk, satellite, SideOf(d, alias).row.eventId)
  }

  function Traces(model: Model, satellite: Satellite, alias: Alias, rows: seq<Draft>): (traces: seq<Trace>)
    ensures |traces| == |rows|
    ensures forall i | 0 <= i < |rows| :: traces[i] == TraceOf(model, satellite, alias, rows[i])
  {
    seq(|rows|, i requires 0 <= i < |rows| => TraceOf(model, satellite, alias, rows[i]))
  }

  /** hub, latest detail row, current status. */
  function AttributeRows(v: Vault, t: EntityType): seq<Draft> {
    Join(Join(HubDrafts(Hub(v, t)), DetailSides(v, t), Details), ActiveSides(v, t), EntityStatus)
  }

  function Attributes(v: Vault, t: EntityType, model: Model): seq<Trace> {
    Traces(model, DetailsOfType(t), Details, AttributeRows(v, t))
  }

  /** hub and current context. */
  function ContextRows(hub: seq<HubRow>, context: seq<SatRow>): seq<Draft> {
    Join(HubDrafts(hub), SatSides(Current(context)), Context)
  }

  function PortfolioKey(p: PortfolioRow): string {
    p.key.customerId + "|" + p.key.currencyCode
  }

  /** The loans of a portfolio row, joined with the latest loan details again. */
  function Contributing(p: PortfolioRow, loans: seq<Draft>): seq<Trace> {
    if loans == [] then [] else
    var rest, d := Contributing(p, loans[..|loans| - 1]), loans[|loans| - 1];
    if SideOf(d, Customer).hk == p.key.customerHk && SideOf(d, Currency).hk == p.key.currencyHk
    then rest + [Trace(AggPortfolio, PortfolioKey(p), DetailsOfType(LoanType), SideOf(d, Details).row.eventId)]
    else rest
  }

  function AllContributing(portfolio: seq<PortfolioRow>, loans: seq<Draft>): seq<Trace> {
    if portfolio == [] then [] else
    AllContributing(portfolio[..|portfolio| - 1], loans) + Contributing(portfolio[|portfolio| - 1], loans)
  }

  /** The latest customer details of a portfolio row's customer. */
  function Classifying(p: PortfolioRow, details: seq<Side>): seq<Trace> {
    if details == [] then [] else
    var rest, s := Classifying(p, details[..|details| - 1]), details[|details| - 1];
    if s.hk == p.key.customerHk
    then rest + [Trace(AggPortfolio, PortfolioKey(p), DetailsOfType(CustomerType), s.row.eventId)] else rest
  }

  function AllClassifying(portfolio: seq<PortfolioRow>, details: seq<Side>): seq<Trace> {
    if portfolio == [] then [] else
    AllClassifying(portfolio[..|portfolio| - 1], details) + Classifying(portfolio[|portfolio| - 1], details)
  }

  function EntityTraces(v: Vault): seq<Trace> {
    Attributes(v, CustomerType, DimCustomer) + Attributes(v, ProductType, DimProduct)
    + Attributes(v, BranchType, DimBranch) + Attributes(v, CurrencyType, DimCurrency)
    + Attributes(v, ApplicationType, FctApplications) + Attributes(v, LoanType, FctLoans)
  }

  function ContextTraces(v: Vault): seq<Trace> {
    Traces(FctApplications, ApplicationEffectivity, Context, ContextRows(Hub(v, ApplicationType), v.applicationContext))
    + Traces(FctLoans, LoanEffectivity, Context, ContextRows(Hub(v, LoanType), v.loanContext))
  }

  function PortfolioTraces(v: Vault): seq<Trace> {
    AllContributing(PortfolioOf(v), Join(Loans(v), DetailSides(v, LoanType), Details))
    + AllClassifying(PortfolioOf(v), DetailSides(v, CustomerType))
  }

  /** gold_row_lineage. */
  function LineageOf(v: Vault): seq<Trace> {
    EntityTraces(v) + ContextTraces(v) + PortfolioTraces(v)
  }

  const ENTITY_LABELS: set<(Model, Satellite)> := {
    (DimCustomer, DetailsOfType(CustomerType)), (DimProduct, DetailsOfType(ProductType)),
    (DimBranch, DetailsOfType(BranchType)), (DimCurrency, DetailsOfType(CurrencyType)),
    (FctApplications, DetailsOfType(ApplicationType)), (FctLoans, DetailsOfType(LoanType))}

  const CONTEXT_LABELS: set<(Model, Satellite)> :=
      {(FctApplications, ApplicationEffectivity), (FctLoans, LoanEffectivity)}

  const PORTFOLIO_LABELS: set<(Model, Satellite)> :=
      {(AggPortfolio, DetailsOfType(LoanType)), (AggPortfolio, DetailsOfType(CustomerType))}

  // ---------------------------------------------------------------- completeness

  predicate Traced(traces: seq<Trace>, model: Model, key: string) {
    exists x :: x in traces && x.model == model && x.key == key
  }

  lemma TracedInPart(part: seq<Trace>, all: seq<Trace>, model: Model, key: string)
    requires Traced(part, model, key) && forall x | x in part :: x in all
    ensures Traced(all, model, key)
  {
  }

  /** The joins commute: the traced rows are the dimension's rows. */
  lemma AttributeRowsAreBase(v: Vault, t: EntityType, d: Draft)
    ensures d in AttributeRows(v, t) <==> d in Base(v, t)
    ensures Joined(AttributeRows(v, t), {EntityStatus, Details})
  {
    BaseExact(v, t);
    var hub := HubDrafts(Hub(v, t));
    HubDraftsExact(Hub(v, t));
    JoinAdds(hub, DetailSides(v, t), Details, {});
    assert {} + {Details} == {Details} && {Details} + {EntityStatus} == {EntityStatus, Details};
    JoinAdds(Join(hub, DetailSides(v, t), Details), ActiveSides(v, t), EntityStatus, {Details});
    JoinTwice(hub, DetailSides(v, t), Details, ActiveSides(v, t), EntityStatus, {}, d);
    hide Join, Fits, Base, DetailSides, ActiveSides, HubDrafts;
    JoinedKeys(AttributeRows(v, t), {EntityStatus, Details}, d);
    if d.joined.Keys == {EntityStatus, Details} {
      assert Drop(Drop(d, EntityStatus), Details).joined == map[];
    }
  }

  lemma AttributesTrace(v: Vault, t: EntityType, model: Model, d: Draft)
    requires d in Base(v, t)
    ensures Traced(Attributes(v, t, model), model, d.hub.bk)
  {
    hide Base;
    AttributeRowsAreBase(v, t, d);
    hide AttributeRows;
    var i :| 0 <= i < |AttributeRows(v, t)| && AttributeRows(v, t)[i] == d;
    assert Attributes(v, t, model)[i] in Attributes(v, t, model);
  }

  lemma PartOfUnion(v: Vault)
    ensures forall x | x in EntityTraces(v) || x in ContextTraces(v) || x in PortfolioTraces(v) :: x in LineageOf(v)
  {
    hide EntityTraces, ContextTraces, PortfolioTraces;
  }

  /** Every row of a dimension has lineage. */
  lemma DimensionsAreTraced(v: Vault, t: EntityType, d: Draft)
    requires d in Base(v, t) && t in {CustomerType, ProductType, BranchType, CurrencyType}
    ensures Traced(LineageOf(v), if t == CustomerType then DimCustomer else if t == ProductType then DimProduct
                                 else if t == BranchType then DimBranch else DimCurrency, d.hub.bk)
  {
    var model := if t == CustomerType then DimCustomer else if t == ProductType then DimProduct
                 else if t == BranchType then DimBranch else DimCurrency;
    AttributesTrace(v, t, model, d);
    PartOfUnion(v);
    hide Base, Attributes, LineageOf;
    TracedInPart(Attributes(v, t, model), LineageOf(v), model, d.hub.bk);
  }

  lemma LoanHasBase(v: Vault, d: Draft)
    requires d in Loans(v)
    ensures exists b :: b in Base(v, LoanType) && b.hub == d.hub
  {
    LoansAreExact(v, d);
    BaseExact(v, LoanType);
    hide Loans, Base, ActiveSides, DetailSides, Dim;
    var b := Draft(d.hub, map[EntityStatus := d.joined[EntityStatus], Details := d.joined[Details]]);
    assert Fits(b, EntityStatus, ActiveSides(v, LoanType)) && Fits(b, Details, DetailSides(v, LoanType));
    assert b in Base(v, LoanType);
  }

  function ApplicationsInContext(v: Vault): seq<Draft> {
    Join(Base(v, ApplicationType), SatSides(Current(v.applicationContext)), Context)
  }

  lemma ApplicationsUnfold(v: Vault)
    ensures Applications(v) == WithDims(v, ApplicationsInContext(v))
  {
  }

  lemma BaseJoined(v: Vault, t: EntityType)
    ensures Joined(Base(v, t), {EntityStatus, Details})
  {
    BaseExact(v, t);
  }

  lemma ApplicationHasBase(v: Vault, d: Draft)
    requires d in Applications(v)
    ensures exists b :: b in Base(v, ApplicationType) && b.hub == d.hub
  {
    var base, contexts := Base(v, ApplicationType), SatSides(Current(v.applicationContext));
    hide Applications, Base, Join, WithDims, SatSides, Fits, FitsDims, Joined, Current, Drop, DropDims;
    BaseJoined(v, ApplicationType);
    ApplicationsUnfold(v);
    JoinAdds(base, contexts, Context, {EntityStatus, Details});
    WithDimsExact(v, ApplicationsInContext(v), {EntityStatus, Details} + {Context}, d);
    JoinFits(base, contexts, Context, {EntityStatus, Details}, DropDims(d));
    assert Drop(DropDims(d), Context) in base;
    DropsKeepHub(d);
  }

  lemma DropsKeepHub(d: Draft)
    ensures Drop(DropDims(d), Context).hub == d.hub
  {
  }

  /** Every fact row has lineage. */
  lemma FactsAreTraced(v: Vault, d: Draft)
    ensures d in Loans(v) ==> Traced(LineageOf(v), FctLoans, d.hub.bk)
    ensures d in Applications(v) ==> Traced(LineageOf(v), FctApplications, d.hub.bk)
  {
    hide Loans, Applications, Base, Attributes, LineageOf;
    PartOfUnion(v);
    if d in Loans(v) {
      LoanHasBase(v, d);
      var b :| b in Base(v, LoanType) && b.hub == d.hub;
      AttributesTrace(v, LoanType, FctLoans, b);
      TracedInPart(Attributes(v, LoanType, FctLoans), LineageOf(v), FctLoans, d.hub.bk);
    }
    if d in Applications(v) {
      ApplicationHasBase(v, d);
      var b :| b in Base(v, ApplicationType) && b.hub == d.hub;
      AttributesTrace(v, ApplicationType, FctApplications, b);
      TracedInPart(Attributes(v, ApplicationType, FctApplications), LineageOf(v), FctApplications, d.hub.bk);
    }
  }

  lemma LoansKeepDetails(v: Vault)
    requires VaultOk(v)
    ensures Join(Loans(v), DetailSides(v, LoanType), Details) == Loans(v)
  {
    RankFirstIsOnePerKey(true, DetailsOf(v, LoanType));
    SidesOfUnique(RankFirst(true, DetailsOf(v, LoanType)));
    hide Loans, RankFirst;
    forall d | d in Loans(v) ensures Fits(d, Details, DetailSides(v, LoanType)) {
      LoansAreExact(v, d);
    }
    JoinAgain(Loans(v), DetailSides(v, LoanType), Details);
  }

  predicate Contributes(p: PortfolioRow, d: Draft, x: Trace) {
    && SideOf(d, Customer).hk == p.key.customerHk && SideOf(d, Currency).hk == p.key.currencyHk
    && x == Trace(AggPortfolio, PortfolioKey(p), DetailsOfType(LoanType), SideOf(d, Details).row.eventId)
  }

  lemma {:induction false} ContributingExact(p: PortfolioRow, loans: seq<Draft>)
    ensures forall x :: x in Contributing(p, loans) <==> exists d :: d in loans && Contributes(p, d, x)
  {
    hide PortfolioKey, SideOf;
    if loans != [] {
      var front, d := loans[..|loans| - 1], loans[|loans| - 1];
      ContributingExact(p, front);
      assert forall e :: e in loans <==> e in front || e == d;
      forall x ensures x in Contributing(p, loans) <==> exists e :: e in loans && Contributes(p, e, x) {
        assert x in Contributing(p, loans) <==> x in Contributing(p, front) || Contributes(p, d, x);
      }
    }
  }

  lemma {:induction false} AllContributingExact(portfolio: seq<PortfolioRow>, loans: seq<Draft>)
    ensures forall x :: x in AllContributing(portfolio, loans) <==> exists p ::
              p in portfolio && x in Contributing(p, loans)
  {
    hide Contributing;
    if portfolio != [] {
      var front, p := portfolio[..|portfolio| - 1], portfolio[|portfolio| - 1];
      AllContributingExact(front, loans);
      assert forall q :: q in portfolio <==> q in front || q == p;
      forall x
        ensures x in AllContributing(portfolio, loans) <==> exists q :: q in portfolio && x in Contributing(q, loans)
      {
        assert x in AllContributing(portfolio, loans) <==>
            x in AllContributing(front, loans) || x in Contributing(p, loans);
      }
    }
  }

  /** Every portfolio row has lineage: the details of each contributing loan. */
  lemma PortfolioIsTraced(v: Vault, p: PortfolioRow)
    requires VaultOk(v) && p in PortfolioOf(v)
    ensures Traced(LineageOf(v), AggPortfolio, PortfolioKey(p))
  {
    hide Loans, PortfolioOf, KeyOf, PortfolioKey, DetailSides, LineageOf, AllContributing, AllClassifying, Join;
    hide VaultOk;
    LoansKeepDetails(v);
    PortfolioRowHasLoan(v, p);
    var d :| d in Loans(v) && KeyOf(d) == p.key;
    KeyHasHashes(d);
    LoanTraces(PortfolioOf(v), p, Loans(v), d);
    PartOfUnion(v);
    TracedInPart(AllContributing(PortfolioOf(v), Loans(v)), LineageOf(v), AggPortfolio, PortfolioKey(p));
  }

  lemma LoanTraces(portfolio: seq<PortfolioRow>, p: PortfolioRow, loans: seq<Draft>, d: Draft)
    requires p in portfolio && d in loans
    requires SideOf(d, Customer).hk == p.key.customerHk && SideOf(d, Currency).hk == p.key.currencyHk
    ensures Traced(AllContributing(portfolio, loans), AggPortfolio, PortfolioKey(p))
  {
    ContributingExact(p, loans);
    AllContributingExact(portfolio, loans);
    hide SideOf, PortfolioKey, AllContributing, Contributing;
    var x := Trace(AggPortfolio, PortfolioKey(p), DetailsOfType(LoanType), SideOf(d, Details).row.eventId);
    assert Contributes(p, d, x);
    assert x in Contributing(p, loans);
  }

  lemma KeyHasHashes(d: Draft)
    ensures KeyOf(d).customerHk == SideOf(d, Customer).hk && KeyOf(d).currencyHk == SideOf(d, Currency).hk
    ensures KeyOf(d).customerId == SideOf(d, Customer).bk && KeyOf(d).currencyCode == SideOf(d, Currency).bk
  {
  }

  lemma PortfolioRowHasLoan(v: Vault, p: PortfolioRow)
    requires VaultOk(v) && p in PortfolioOf(v)
    ensures exists d :: d in Loans(v) && KeyOf(d) == p.key
  {
    hide PortfolioOf, Loans, Rows, KeyOf, VaultOk, Keys;
    RowsAreLoans(v);
    PortfolioKeys(v);
    var i :| 0 <= i < |PortfolioOf(v)| && PortfolioOf(v)[i] == p;
    var d := LoanOfKey(Rows(v), i);
  }

  // ---------------------------------------------------------------- no duplicates

  predicate Distinct(traces: seq<Trace>) {
    forall i, j | 0 <= i < j < |traces| :: traces[i] != traces[j]
  }

  ghost predicate Apart(a: seq<Trace>, b: seq<Trace>) {
    forall x, y | x in a && y in b :: x != y
  }

  lemma DistinctUnion(a: seq<Trace>, b: seq<Trace>)
    requires Distinct(a) && Distinct(b) && Apart(a, b)
    ensures Distinct(a + b)
  {
    forall i, j | 0 <= i < j < |a + b| ensures (a + b)[i] != (a + b)[j] {
      if i < |a| <= j { assert a[i] in a && b[j - |a|] in b; }
    }
  }

  ghost predicate Labelled(traces: seq<Trace>, labels: set<(Model, Satellite)>) {
    forall x | x in traces :: (x.model, x.satellite) in labels
  }

  lemma LabelledUnion(a: seq<Trace>, la: set<(Model, Satellite)>, b: seq<Trace>, lb: set<(Model, Satellite)>)
    requires Distinct(a) && Distinct(b) && Labelled(a, la) && Labelled(b, lb) && la !! lb
    ensures Distinct(a + b) && Labelled(a + b, la + lb)
  {
    assert Apart(a, b);
    DistinctUnion(a, b);
  }

  /** Rows with one hub row each have traces with one business key each. */
  lemma TracesAreDistinct(hub: seq<HubRow>, rows: seq<Draft>, model: Model, satellite: Satellite, alias: Alias)
    requires UniqueHub(hub) && UniqueDrafts(rows) && forall d | d in rows :: d.hub in hub
    ensures Distinct(Traces(model, satellite, alias, rows))
            && Labelled(Traces(model, satellite, alias, rows), {(model, satellite)})
  {
    var traces := Traces(model, satellite, alias, rows);
    forall i, j | 0 <= i < j < |traces| ensures traces[i] != traces[j] {
      assert rows[i] in rows && rows[j] in rows;
      var a :| 0 <= a < |hub| && hub[a] == rows[i].hub;
      var b :| 0 <= b < |hub| && hub[b] == rows[j].hub;
      assert a != b;
      if a < b { assert hub[a].bk != hub[b].bk; } else { assert hub[b].bk != hub[a].bk; }
    }
  }

  lemma AttributesAreDistinct(v: Vault, t: EntityType, model: Model)
    requires VaultOk(v)
    ensures Distinct(Attributes(v, t, model)) && Labelled(Attributes(v, t, model), {(model, DetailsOfType(t))})
  {
    var hub := Hub(v, t);
    assert UniqueHub(hub);
    CurrentIsOnePerKey(StatusOf(v, t));
    RankFirstIsOnePerKey(true, DetailsOf(v, t));
    SidesOfUnique(Current(StatusOf(v, t)));
    SidesOfUnique(RankFirst(true, DetailsOf(v, t)));
    hide Current, RankFirst, VaultOk;
    JoinKeepsGrain(HubDrafts(hub), DetailSides(v, t), Details);
    JoinKeepsGrain(Join(HubDrafts(hub), DetailSides(v, t), Details), ActiveSides(v, t), EntityStatus);
    BaseExact(v, t);
    forall d | d in AttributeRows(v, t) ensures d.hub in hub {
      AttributeRowsAreBase(v, t, d);
    }
    hide Join, Base, Labelled, Distinct;
    TracesAreDistinct(hub, AttributeRows(v, t), model, DetailsOfType(t), Details);
  }

  lemma ContextIsDistinct(hub: seq<HubRow>, context: seq<SatRow>, model: Model, satellite: Satellite)
    requires UniqueHub(hub)
    ensures var traces := Traces(model, satellite, Context, ContextRows(hub, context));
            Distinct(traces) && Labelled(traces, {(model, satellite)})
  {
    CurrentIsOnePerKey(context);
    SidesOfUnique(Current(context));
    hide Current;
    HubDraftsExact(hub);
    JoinKeepsGrain(HubDrafts(hub), SatSides(Current(context)), Context);
    forall d | d in ContextRows(hub, context) ensures d.hub in hub {
      JoinFits(HubDrafts(hub), SatSides(Current(context)), Context, {}, d);
    }
    hide Join, HubDrafts, SatSides, Labelled, Distinct;
    TracesAreDistinct(hub, ContextRows(hub, context), model, satellite, Context);
  }

  lemma EntityTracesAreDistinct(v: Vault)
    requires VaultOk(v)
    ensures Distinct(EntityTraces(v))
    ensures Labelled(EntityTraces(v), ENTITY_LABELS)
  {
    hide Attributes, Labelled, Distinct, VaultOk;
    AttributesAreDistinct(v, CustomerType, DimCustomer);
    AttributesAreDistinct(v, ProductType, DimProduct);
    AttributesAreDistinct(v, BranchType, DimBranch);
    AttributesAreDistinct(v, CurrencyType, DimCurrency);
    AttributesAreDistinct(v, ApplicationType, FctApplications);
    AttributesAreDistinct(v, LoanType, FctLoans);
    var l1 := {(DimCustomer, DetailsOfType(CustomerType))};
    var l2 := l1 + {(DimProduct, DetailsOfType(ProductType))};
    var l3 := l2 + {(DimBranch, DetailsOfType(BranchType))};
    var l4 := l3 + {(DimCurrency, DetailsOfType(CurrencyType))};
    var l5 := l4 + {(FctApplications, DetailsOfType(ApplicationType))};
    var a1 := Attributes(v, CustomerType, DimCustomer);
    var a2 := a1 + Attributes(v, ProductType, DimProduct);
    var a3 := a2 + Attributes(v, BranchType, DimBranch);
    var a4 := a3 + Attributes(v, CurrencyType, DimCurrency);
    var a5 := a4 + Attributes(v, ApplicationType, FctApplications);
    LabelledUnion(a1, l1, Attributes(v, ProductType, DimProduct), {(DimProduct, DetailsOfType(ProductType))});
    LabelledUnion(a2, l2, Attributes(v, BranchType, DimBranch), {(DimBranch, DetailsOfType(BranchType))});
    LabelledUnion(a3, l3, Attributes(v, CurrencyType, DimCurrency), {(DimCurrency, DetailsOfType(CurrencyType))});
    LabelledUnion(a4, l4, Attributes(v, ApplicationType, FctApplications),
        {(FctApplications, DetailsOfType(ApplicationType))});
    LabelledUnion(a5, l5, Attributes(v, LoanType, FctLoans), {(FctLoans, DetailsOfType(LoanType))});
    assert l5 + {(FctLoans, DetailsOfType(LoanType))} == ENTITY_LABELS;
  }

  /** Two rows of a satellite with different keys come from different events. */
  lemma EventsTellRowsApart(v: Vault, t: EntityType, a: Side, b: Side)
    requires VaultOk(v) && a in DetailSides(v, t) && b in DetailSides(v, t) && a.hk != b.hk
    ensures a.row.eventId != b.row.eventId
  {
    var details := DetailsOf(v, t);
    assert UniqueEvent(details);
    RankFirstIsOnePerKey(true, details);
    SideIsRow(RankFirst(true, details), a);
    SideIsRow(RankFirst(true, details), b);
    var i :| 0 <= i < |details| && details[i] == a.row;
    var j :| 0 <= j < |details| && details[j] == b.row;
    if i < j {
      assert details[i].eventId != details[j].eventId;
    } else {
      assert details[j].eventId != details[i].eventId;
    }
  }

  lemma LoanEventsDiffer(v: Vault, a: Draft, b: Draft)
    requires VaultOk(v) && a in Loans(v) && b in Loans(v) && a.hub.hk != b.hub.hk
    ensures SideOf(a, Details).row.eventId != SideOf(b, Details).row.eventId
  {
    LoansAreExact(v, a);
    LoansAreExact(v, b);
    hide Loans, DetailSides, VaultOk, Dim;
    EventsTellRowsApart(v, LoanType, a.joined[Details], b.joined[Details]);
  }

  /** Distinct loans leave distinct traces, in one portfolio row or in two. */
  lemma {:induction false} ContributingIsDistinct(v: Vault, p: PortfolioRow, loans: seq<Draft>)
    requires VaultOk(v) && UniqueDrafts(loans) && forall d | d in loans :: d in Loans(v)
    ensures Distinct(Contributing(p, loans))
  {
    hide Loans, VaultOk, PortfolioKey, SideOf;
    if loans != [] {
      var front, d := loans[..|loans| - 1], loans[|loans| - 1];
      assert d in loans;
      ContributingIsDistinct(v, p, front);
      ContributingExact(p, front);
      var t := Trace(AggPortfolio, PortfolioKey(p), DetailsOfType(LoanType), SideOf(d, Details).row.eventId);
      forall x | x in Contributing(p, front) ensures x != t {
        var e :| e in front && Contributes(p, e, x);
        var i :| 0 <= i < |front| && front[i] == e;
        assert loans[i].hub.hk != loans[|loans| - 1].hub.hk;
        LoanEventsDiffer(v, e, d);
      }
      DistinctUnion(Contributing(p, front), [t]);
    }
  }

  ghost predicate OnePerPair(portfolio: seq<PortfolioRow>) {
    forall i, j | 0 <= i < j < |portfolio| ::
      !(portfolio[i].key.customerHk == portfolio[j].key.customerHk
          && portfolio[i].key.currencyHk == portfolio[j].key.currencyHk)
  }

  lemma RowsContributeApart(v: Vault, p: PortfolioRow, q: PortfolioRow, loans: seq<Draft>)
    requires VaultOk(v) && UniqueDrafts(loans) && forall d | d in loans :: d in Loans(v)
    requires !(p.key.customerHk == q.key.customerHk && p.key.currencyHk == q.key.currencyHk)
    ensures Apart(Contributing(p, loans), Contributing(q, loans))
  {
    hide Loans, VaultOk, PortfolioKey;
    ContributingExact(p, loans);
    ContributingExact(q, loans);
    hide Contributing, SideOf;
    forall x, y | x in Contributing(p, loans) && y in Contributing(q, loans) ensures x != y {
      var d :| d in loans && Contributes(p, d, x);
      var e :| e in loans && Contributes(q, e, y);
      var i :| 0 <= i < |loans| && loans[i] == d;
      var j :| 0 <= j < |loans| && loans[j] == e;
      assert i != j;
      assert d.hub.hk != e.hub.hk by {
        if i < j { assert loans[i].hub.hk != loans[j].hub.hk; } else { assert loans[j].hub.hk != loans[i].hub.hk; }
      }
      LoanEventsDiffer(v, d, e);
    }
  }

  lemma {:induction false} AllContributingIsDistinct(v: Vault, portfolio: seq<PortfolioRow>, loans: seq<Draft>)
    requires VaultOk(v) && UniqueDrafts(loans) && (forall d | d in loans :: d in Loans(v)) && OnePerPair(portfolio)
    ensures Distinct(AllContributing(portfolio, loans))
  {
    hide Loans, VaultOk, Contributing, Distinct;
    if portfolio == [] {
      assert Distinct([]) by { NoTraces(); }
    } else {
      var front, p := portfolio[..|portfolio| - 1], portfolio[|portfolio| - 1];
      AllContributingIsDistinct(v, front, loans);
      ContributingIsDistinct(v, p, loans);
      AllContributingExact(front, loans);
      assert Apart(AllContributing(front, loans), Contributing(p, loans)) by {
        forall x, y | x in AllContributing(front, loans) && y in Contributing(p, loans) ensures x != y {
          var q :| q in front && x in Contributing(q, loans);
          var i :| 0 <= i < |front| && front[i] == q;
          assert !(portfolio[i].key.customerHk == p.key.customerHk && portfolio[i].key.currencyHk == p.key.currencyHk);
          RowsContributeApart(v, q, p, loans);
        }
      }
      DistinctUnion(AllContributing(front, loans), Contributing(p, loans));
    }
  }

  lemma NoTraces()
    ensures Distinct([])
  {
  }

  predicate Classifies(p: PortfolioRow, s: Side, x: Trace) {
    s.hk == p.key.customerHk && x == Trace(AggPortfolio, PortfolioKey(p), DetailsOfType(CustomerType), s.row.eventId)
  }

  lemma {:induction false} ClassifyingExact(p: PortfolioRow, details: seq<Side>)
    ensures forall x :: x in Classifying(p, details) <==> exists s :: s in details && Classifies(p, s, x)
    ensures UniqueSides(details) ==> |Classifying(p, details)| <= 1
  {
    hide PortfolioKey;
    if details != [] {
      var front, s := details[..|details| - 1], details[|details| - 1];
      ClassifyingExact(p, front);
      assert forall a :: a in details <==> a in front || a == s;
      forall x ensures x in Classifying(p, details) <==> exists a :: a in details && Classifies(p, a, x) {
        assert x in Classifying(p, details) <==> x in Classifying(p, front) || Classifies(p, s, x);
      }
      if UniqueSides(details) && s.hk == p.key.customerHk {
        forall x | x in front ensures x.hk != s.hk {
          var i :| 0 <= i < |front| && front[i] == x;
          assert details[i].hk != details[|details| - 1].hk;
        }
        Ordering.HasElement(Classifying(p, front));
      }
    }
  }

  lemma {:induction false} AllClassifyingExact(portfolio: seq<PortfolioRow>, details: seq<Side>)
    ensures forall x :: x in AllClassifying(portfolio, details) <==> exists p ::
              p in portfolio && x in Classifying(p, details)
  {
    hide Classifying;
    if portfolio != [] {
      var front, p := portfolio[..|portfolio| - 1], portfolio[|portfolio| - 1];
      AllClassifyingExact(front, details);
      assert forall q :: q in portfolio <==> q in front || q == p;
      forall x
        ensures x in AllClassifying(portfolio, details) <==> exists q :: q in portfolio && x in Classifying(q, details)
      {
        assert x in AllClassifying(portfolio, details) <==>
            x in AllClassifying(front, details) || x in Classifying(p, details);
      }
    }
  }

  lemma SameLengthPrefix(a: string, b: string, c: string)
    requires a + "|" + b == a + "|" + c
    ensures b == c
  {
    assert (a + "|" + b)[|a| + 1..] == b && (a + "|" + c)[|a| + 1..] == c;
  }

  /** Two portfolio rows of one customer differ in currency, hence in their key text; of two customers, in the event. */
  lemma RowsClassifyApart(v: Vault, p: PortfolioRow, q: PortfolioRow)
    requires VaultOk(v) && p in PortfolioOf(v) && q in PortfolioOf(v)
    requires !(p.key.customerHk == q.key.customerHk && p.key.currencyHk == q.key.currencyHk)
    ensures Apart(Classifying(p, DetailSides(v, CustomerType)), Classifying(q, DetailSides(v, CustomerType)))
  {
    var details := DetailSides(v, CustomerType);
    ClassifyingExact(p, details);
    ClassifyingExact(q, details);
    if p.key.customerHk == q.key.customerHk {
      PortfolioKeysDiffer(v, p, q);
    }
    hide Classifying, PortfolioOf, VaultOk, PortfolioKey, DetailSides;
    forall x, y | x in Classifying(p, details) && y in Classifying(q, details) ensures x != y {
      var a :| a in details && Classifies(p, a, x);
      var b :| b in details && Classifies(q, b, y);
      if p.key.customerHk != q.key.customerHk { EventsTellRowsApart(v, CustomerType, a, b); }
    }
  }

  lemma PortfolioKeysDiffer(v: Vault, p: PortfolioRow, q: PortfolioRow)
    requires VaultOk(v) && p in PortfolioOf(v) && q in PortfolioOf(v)
    requires p.key.customerHk == q.key.customerHk && p.key.currencyHk != q.key.currencyHk
    ensures PortfolioKey(p) != PortfolioKey(q)
  {
    hide Loans, PortfolioOf, KeyOf, VaultOk, PortfolioKey;
    PortfolioRowHasLoan(v, p);
    PortfolioRowHasLoan(v, q);
    var d :| d in Loans(v) && KeyOf(d) == p.key;
    var e :| e in Loans(v) && KeyOf(e) == q.key;
    SameCustomerOtherCurrency(v, d, e);
    CodesTellKeysApart(p, q);
  }

  lemma CodesTellKeysApart(p: PortfolioRow, q: PortfolioRow)
    requires p.key.customerId == q.key.customerId && p.key.currencyCode != q.key.currencyCode
    ensures PortfolioKey(p) != PortfolioKey(q)
  {
    if PortfolioKey(p) == PortfolioKey(q) {
      SameLengthPrefix(p.key.customerId, p.key.currencyCode, q.key.currencyCode);
    }
  }

  lemma SameCustomerOtherCurrency(v: Vault, d: Draft, e: Draft)
    requires VaultOk(v) && d in Loans(v) && e in Loans(v)
    requires KeyOf(d).customerHk == KeyOf(e).customerHk && KeyOf(d).currencyHk != KeyOf(e).currencyHk
    ensures KeyOf(d).customerId == KeyOf(e).customerId && KeyOf(d).currencyCode != KeyOf(e).currencyCode
  {
    BaseGrain(v, CustomerType);
    KeyHasHashes(d);
    KeyHasHashes(e);
    LoansAreExact(v, d);
    LoansAreExact(v, e);
    hide Loans, KeyOf, Dim, Base, ActiveSides, DetailSides, SatSides, HubSides, VaultOk, Current;
    SameSide(Dim(v, CustomerType), d.joined[Customer], e.joined[Customer]);
    CurrencyCodesDiffer(v, d.joined[Currency], e.joined[Currency]);
  }

  lemma CurrencyCodesDiffer(v: Vault, a: Side, b: Side)
    requires VaultOk(v) && a in Dim(v, CurrencyType) && b in Dim(v, CurrencyType) && a.hk != b.hk
    ensures a.bk != b.bk
  {
    BaseExact(v, CurrencyType);
    var base, hub := Base(v, CurrencyType), Hub(v, CurrencyType);
    assert UniqueHub(hub);
    hide Base, ActiveSides, DetailSides, VaultOk;
    var i :| 0 <= i < |base| && Dim(v, CurrencyType)[i] == a;
    var j :| 0 <= j < |base| && Dim(v, CurrencyType)[j] == b;
    assert base[i] in base && base[j] in base;
    var m :| 0 <= m < |hub| && hub[m] == base[i].hub;
    var n :| 0 <= n < |hub| && hub[n] == base[j].hub;
    assert m != n;
    if m < n { assert hub[m].bk != hub[n].bk; } else { assert hub[n].bk != hub[m].bk; }
  }

  lemma {:induction false} AllClassifyingIsDistinct(v: Vault, portfolio: seq<PortfolioRow>)
    requires VaultOk(v) && (forall p | p in portfolio :: p in PortfolioOf(v)) && OnePerPair(portfolio)
    ensures Distinct(AllClassifying(portfolio, DetailSides(v, CustomerType)))
  {
    hide PortfolioOf, VaultOk, Classifying, DetailSides, Distinct, Apart;
    var details := DetailSides(v, CustomerType);
    if portfolio == [] {
      NoTraces();
    } else {
      var front, p := portfolio[..|portfolio| - 1], portfolio[|portfolio| - 1];
      AllClassifyingIsDistinct(v, front);
      LastClassifiesApart(v, portfolio);
      OneClassification(v, p);
      DistinctUnion(AllClassifying(front, details), Classifying(p, details));
    }
  }

  lemma OneClassification(v: Vault, p: PortfolioRow)
    ensures Distinct(Classifying(p, DetailSides(v, CustomerType)))
  {
    hide Distinct, RankFirst, Classifying;
    RankFirstIsOnePerKey(true, DetailsOf(v, CustomerType));
    SidesOfUnique(RankFirst(true, DetailsOf(v, CustomerType)));
    ClassifyingExact(p, DetailSides(v, CustomerType));
    AtMostOneIsDistinct(Classifying(p, DetailSides(v, CustomerType)));
  }

  lemma LastClassifiesApart(v: Vault, portfolio: seq<PortfolioRow>)
    requires VaultOk(v) && (forall p | p in portfolio :: p in PortfolioOf(v)) && OnePerPair(portfolio)
             && portfolio != []
    ensures var front, p, details := portfolio[..|portfolio| - 1], portfolio[|portfolio| - 1],
              DetailSides(v, CustomerType);
            Apart(AllClassifying(front, details), Classifying(p, details))
  {
    hide PortfolioOf, VaultOk, Classifying, AllClassifying, DetailSides;
    var front, p, details := portfolio[..|portfolio| - 1], portfolio[|portfolio| - 1], DetailSides(v, CustomerType);
    AllClassifyingExact(front, details);
    assert p in portfolio;
    forall x, y | x in AllClassifying(front, details) && y in Classifying(p, details) ensures x != y {
      var q :| q in front && x in Classifying(q, details);
      EarlierPair(portfolio, q);
      RowsClassifyApart(v, q, p);
    }
  }

  lemma EarlierPair(portfolio: seq<PortfolioRow>, q: PortfolioRow)
    requires portfolio != [] && OnePerPair(portfolio) && q in portfolio[..|portfolio| - 1]
    ensures var p := portfolio[|portfolio| - 1];
            q in portfolio && !(q.key.customerHk == p.key.customerHk && q.key.currencyHk == p.key.currencyHk)
  {
    var i :| 0 <= i < |portfolio| - 1 && portfolio[i] == q;
  }

  lemma AtMostOneIsDistinct(traces: seq<Trace>)
    requires |traces| <= 1
    ensures Distinct(traces)
  {
  }

  lemma PortfolioTracesAreDistinct(v: Vault)
    requires VaultOk(v)
    ensures Distinct(PortfolioTraces(v))
    ensures Labelled(PortfolioTraces(v), PORTFOLIO_LABELS)
  {
    hide Loans, PortfolioOf, DetailSides, VaultOk, Distinct, UniqueDrafts, Labelled, AllContributing, AllClassifying;
    hide Join;
    LoansKeepDetails(v);
    FactsHaveOneRowPerKey(v);
    PortfolioGrain(v);
    var loans, portfolio, details := Loans(v), PortfolioOf(v), DetailSides(v, CustomerType);
    AllContributingIsDistinct(v, portfolio, loans);
    AllClassifyingIsDistinct(v, portfolio);
    ContributingLabels(portfolio, loans);
    ClassifyingLabels(portfolio, details);
    LabelledUnion(AllContributing(portfolio, loans), {(AggPortfolio, DetailsOfType(LoanType))},
                  AllClassifying(portfolio, details), {(AggPortfolio, DetailsOfType(CustomerType))});
    assert {(AggPortfolio, DetailsOfType(LoanType))} + {(AggPortfolio, DetailsOfType(CustomerType))} ==
        PORTFOLIO_LABELS;
  }

  lemma ContributingLabels(portfolio: seq<PortfolioRow>, loans: seq<Draft>)
    ensures Labelled(AllContributing(portfolio, loans), {(AggPortfolio, DetailsOfType(LoanType))})
  {
    AllContributingExact(portfolio, loans);
    forall x | x in AllContributing(portfolio, loans)
      ensures (x.model, x.satellite) == (AggPortfolio, DetailsOfType(LoanType))
    {
      var p :| p in portfolio && x in Contributing(p, loans);
      ContributingExact(p, loans);
    }
  }

  lemma ClassifyingLabels(portfolio: seq<PortfolioRow>, details: seq<Side>)
    ensures Labelled(AllClassifying(portfolio, details), {(AggPortfolio, DetailsOfType(CustomerType))})
  {
    AllClassifyingExact(portfolio, details);
    forall x | x in AllClassifying(portfolio, details)
      ensures (x.model, x.satellite) == (AggPortfolio, DetailsOfType(CustomerType))
    {
      var p :| p in portfolio && x in Classifying(p, details);
      ClassifyingExact(p, details);
    }
  }

  lemma ContextTracesAreDistinct(v: Vault)
    requires VaultOk(v)
    ensures Distinct(ContextTraces(v)) && Labelled(ContextTraces(v), CONTEXT_LABELS)
  {
    assert UniqueHub(Hub(v, ApplicationType)) && UniqueHub(Hub(v, LoanType));
    hide VaultOk, ContextRows, Distinct, Labelled, Traces, UniqueHub;
    ContextIsDistinct(Hub(v, ApplicationType), v.applicationContext, FctApplications, ApplicationEffectivity);
    ContextIsDistinct(Hub(v, LoanType), v.loanContext, FctLoans, LoanEffectivity);
    LabelledUnion(Traces(FctApplications, ApplicationEffectivity, Context,
        ContextRows(Hub(v, ApplicationType), v.applicationContext)),
                  {(FctApplications, ApplicationEffectivity)},
                  Traces(FctLoans, LoanEffectivity, Context, ContextRows(Hub(v, LoanType), v.loanContext)),
                  {(FctLoans, LoanEffectivity)});
    assert {(FctApplications, ApplicationEffectivity)} + {(FctLoans, LoanEffectivity)} == CONTEXT_LABELS;
  }

  lemma LabelsApart()
    ensures ENTITY_LABELS !! CONTEXT_LABELS && ENTITY_LABELS + CONTEXT_LABELS !! PORTFOLIO_LABELS
  {
  }

  /** No Gold key names the same source event of the same satellite twice. */
  lemma LineageHasNoDuplicates(v: Vault)
    requires VaultOk(v)
    ensures Distinct(LineageOf(v))
  {
    EntityTracesAreDistinct(v);
    ContextTracesAreDistinct(v);
    PortfolioTracesAreDistinct(v);
    hide EntityTraces, ContextTraces, PortfolioTraces, Distinct, Labelled, VaultOk;
    LabelsApart();
    LabelledUnion(EntityTraces(v), ENTITY_LABELS, ContextTraces(v), CONTEXT_LABELS);
    LabelledUnion(EntityTraces(v) + ContextTraces(v), ENTITY_LABELS + CONTEXT_LABELS,
                  PortfolioTraces(v), PORTFOLIO_LABELS);
  }
}
