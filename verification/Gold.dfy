/**
 The Gold models: inner joins of hubs with the current-state views, the customer portfolio over
 the loan fact, and the lineage of every Gold row. Tables are sequences of rows, so a join that
 matched twice would show; amounts are integers in the smallest currency unit.
 */
module Gold {
  import opened Wrappers
  import Ordering
  import RawVault

  datatype EntityType = CustomerType | ProductType | BranchType | CurrencyType | ApplicationType | LoanType

  datatype HubRow = HubRow(hk: string, bk: string)

  datatype Body =
    | NoBody
    | CustomerBody(customerType: string, segment: string)
    | LoanBody(principal: Option<int>, statusCode: string)
    | ContextBody(applicationHk: string, customerHk: string, productHk: string, branchHk: string, currencyHk: string)

  /** A satellite row; `hk` is the key it is ranked by. */
  datatype SatRow = SatRow(hk: string, eventId: string, at: RawVault.Position, active: bool, body: Body)

  datatype Vault = Vault(hubs: map<EntityType, seq<HubRow>>, status: map<EntityType, seq<SatRow>>,
                         details: map<EntityType, seq<SatRow>>, applicationContext: seq<SatRow>,
                         loanContext: seq<SatRow>)

  function Hub(v: Vault, t: EntityType): seq<HubRow> { if t in v.hubs then v.hubs[t] else [] }

  function StatusOf(v: Vault, t: EntityType): seq<SatRow> { if t in v.status then v.status[t] else [] }

  function DetailsOf(v: Vault, t: EntityType): seq<SatRow> { if t in v.details then v.details[t] else [] }

  predicate UniqueHub(rows: seq<HubRow>) {
    forall i, j | 0 <= i < j < |rows| :: rows[i].hk != rows[j].hk && rows[i].bk != rows[j].bk
  }

  predicate UniqueHk(rows: seq<SatRow>) {
    forall i, j | 0 <= i < j < |rows| :: rows[i].hk != rows[j].hk
  }

  predicate UniqueEvent(rows: seq<SatRow>) {
    forall i, j | 0 <= i < j < |rows| :: rows[i].eventId != rows[j].eventId
  }

  /** What the insert-only loads guarantee: one row per hash key, per business key and per source event. */
  ghost predicate VaultOk(v: Vault) {
    && (forall t :: UniqueHub(Hub(v, t)) && UniqueEvent(DetailsOf(v, t)))
    && UniqueEvent(v.applicationContext) && UniqueEvent(v.loanContext)
  }

  // ---------------------------------------------------------------- row_number() = 1

  function Find(rows: seq<SatRow>, hk: string): (i: nat)
    ensures i <= |rows|
    ensures i < |rows| ==> rows[i].hk == hk
    ensures i == |rows| ==> forall k | 0 <= k < |rows| :: rows[k].hk != hk
  {
    if rows == [] then 0 else if rows[0].hk == hk then 0 else Find(rows[1..], hk) + 1
  }

  function RankFirst(byTime: bool, rows: seq<SatRow>): seq<SatRow> {
    if rows == [] then [] else
    var best, r := RankFirst(byTime, rows[..|rows| - 1]), rows[|rows| - 1];
    var i := Find(best, r.hk);
    if i == |best| then best + [r] else if RawVault.Ahead(byTime, r.at, best[i].at) then best[i := r] else best
  }

  function OnlyActive(rows: seq<SatRow>): seq<SatRow> {
    if rows == [] then [] else
    var rest, r := OnlyActive(rows[..|rows| - 1]), rows[|rows| - 1];
    if r.active then rest + [r] else rest
  }

  /** int_current_*: the first-ranked row of each key, if active. */
  function Current(rows: seq<SatRow>): seq<SatRow> {
    OnlyActive(RankFirst(false, rows))
  }

  lemma {:induction false} RankFirstIsOnePerKey(byTime: bool, rows: seq<SatRow>)
    ensures UniqueHk(RankFirst(byTime, rows))
    ensures forall r | r in RankFirst(byTime, rows) :: r in rows
  {
    hide RawVault.Ahead;
    if rows != [] {
      var front, r := rows[..|rows| - 1], rows[|rows| - 1];
      RankFirstIsOnePerKey(byTime, front);
      var best := RankFirst(byTime, front);
      var i := Find(best, r.hk);
      assert forall x :: x in rows <==> x in front || x == r;
      assert forall x | x in best + [r] :: x in rows;
      assert i < |best| ==> forall x | x in best[i := r] :: x in rows;
    }
  }

  lemma {:induction false} ActiveExact(rows: seq<SatRow>)
    requires UniqueHk(rows)
    ensures UniqueHk(OnlyActive(rows))
    ensures forall r :: r in OnlyActive(rows) <==> r in rows && r.active
  {
    if rows != [] {
      var front, last := rows[..|rows| - 1], rows[|rows| - 1];
      assert forall r :: r in rows <==> r in front || r == last;
      ActiveExact(front);
      forall r | r in OnlyActive(front) ensures r.hk != last.hk {
        var i :| 0 <= i < |front| && front[i] == r;
        assert rows[i].hk != rows[|rows| - 1].hk;
      }
    }
  }

  lemma CurrentIsOnePerKey(rows: seq<SatRow>)
    ensures UniqueHk(Current(rows))
    ensures forall r | r in Current(rows) :: r in rows && r.active
  {
    RankFirstIsOnePerKey(false, rows);
    ActiveExact(RankFirst(false, rows));
  }

  // ---------------------------------------------------------------- inner joins

  datatype Alias = EntityStatus | Details | Context | Application | Customer | Product | Branch | Currency

  /** A row offered to a join: its key, its business key and the satellite row behind it. */
  datatype Side = Side(hk: string, bk: string, row: SatRow)

  /** A row of a select under construction: the hub row and the rows joined so far, by alias. */
  datatype Draft = Draft(hub: HubRow, joined: map<Alias, Side>)

  /** The column an alias is joined on; None is a null, which matches nothing. */
  function JoinKey(d: Draft, alias: Alias): Option<string> {
    if alias in {EntityStatus, Details, Context} then Some(d.hub.hk)
    else if Context !in d.joined || !d.joined[Context].row.body.ContextBody? then None
    else
      var c := d.joined[Context].row.body;
      if alias == Application then Some(c.applicationHk)
      else if alias == Customer then Some(c.customerHk)
      else if alias == Product then Some(c.productHk)
      else if alias == Branch then Some(c.branchHk)
      else Some(c.currencyHk)
  }

  function With(d: Draft, alias: Alias, s: Side): Draft {
    d.(joined := d.joined[alias := s])
  }

  function Matches(d: Draft, right: seq<Side>, alias: Alias): seq<Draft> {
    if right == [] then [] else
    var rest, s := Matches(d, right[..|right| - 1], alias), right[|right| - 1];
    if JoinKey(d, alias) == Some(s.hk) then rest + [With(d, alias, s)] else rest
  }

  function Join(left: seq<Draft>, right: seq<Side>, alias: Alias): seq<Draft> {
    if left == [] then [] else
    Join(left[..|left| - 1], right, alias) + Matches(left[|left| - 1], right, alias)
  }

  predicate UniqueSides(right: seq<Side>) {
    forall i, j | 0 <= i < j < |right| :: right[i].hk != right[j].hk
  }

  predicate UniqueDrafts(rows: seq<Draft>) {
    forall i, j | 0 <= i < j < |rows| :: rows[i].hub.hk != rows[j].hub.hk
  }

  lemma {:induction false} MatchesExact(d: Draft, right: seq<Side>, alias: Alias)
    ensures forall m :: m in Matches(d, right, alias) <==>
              exists s :: s in right && JoinKey(d, alias) == Some(s.hk) && m == With(d, alias, s)
    ensures UniqueSides(right) ==> |Matches(d, right, alias)| <= 1
  {
    hide JoinKey, With;
    if right != [] {
      var front, s := right[..|right| - 1], right[|right| - 1];
      MatchesExact(d, front, alias);
      assert forall x :: x in right <==> x in front || x == s;
      if UniqueSides(right) && JoinKey(d, alias) == Some(s.hk) {
        forall x | x in front ensures x.hk != s.hk {
          var i :| 0 <= i < |front| && front[i] == x;
          assert right[i].hk != right[|right| - 1].hk;
        }
        Ordering.HasElement(Matches(d, front, alias));
      }
    }
  }

  lemma {:induction false} JoinExact(left: seq<Draft>, right: seq<Side>, alias: Alias)
    ensures forall m :: m in Join(left, right, alias) <==>
              exists d, s :: d in left && s in right && JoinKey(d, alias) == Some(s.hk) && m == With(d, alias, s)
  {
    hide JoinKey, With;
    if left != [] {
      var front, d := left[..|left| - 1], left[|left| - 1];
      JoinExact(front, right, alias);
      MatchesExact(d, right, alias);
      assert forall x :: x in left <==> x in front || x == d;
    }
  }

  /** An inner join on the key of its right side keeps the grain of its left side. */
  lemma {:induction false} JoinKeepsGrain(left: seq<Draft>, right: seq<Side>, alias: Alias)
    requires UniqueDrafts(left) && UniqueSides(right)
    ensures UniqueDrafts(Join(left, right, alias))
  {
    if left != [] {
      var front, d := left[..|left| - 1], left[|left| - 1];
      JoinKeepsGrain(front, right, alias);
      JoinExact(front, right, alias);
      MatchesExact(d, right, alias);
      hide JoinKey, Matches, Join;
      var joined, more := Join(front, right, alias), Matches(d, right, alias);
      forall i | 0 <= i < |joined| ensures joined[i].hub.hk != d.hub.hk {
        assert joined[i] in joined;
        var l, s :| l in front && s in right && JoinKey(l, alias) == Some(s.hk) && joined[i] == With(l, alias, s);
        var k :| 0 <= k < |front| && front[k] == l;
        assert left[k].hub.hk != left[|left| - 1].hub.hk;
      }
      forall i | 0 <= i < |more| ensures more[i].hub == d.hub {
        assert more[i] in more;
      }
      JoinUnfolds(left, right, alias);
    }
  }

  lemma JoinUnfolds(left: seq<Draft>, right: seq<Side>, alias: Alias)
    requires left != []
    ensures Join(left, right, alias) == Join(left[..|left| - 1], right, alias) + Matches(left[|left| - 1], right, alias)
  {
  }

  // ---------------------------------------------------------------- the models

  function HubDrafts(rows: seq<HubRow>): (drafts: seq<Draft>)
    ensures |drafts| == |rows| && forall i | 0 <= i < |rows| :: drafts[i] == Draft(rows[i], map[])
  {
    seq(|rows|, i requires 0 <= i < |rows| => Draft(rows[i], map[]))
  }

  function SatSides(rows: seq<SatRow>): (sides: seq<Side>)
    ensures |sides| == |rows| && forall i | 0 <= i < |rows| :: sides[i] == Side(rows[i].hk, "", rows[i])
  {
    seq(|rows|, i requires 0 <= i < |rows| => Side(rows[i].hk, "", rows[i]))
  }

  function HubSides(rows: seq<HubRow>): (sides: seq<Side>)
    ensures |sides| == |rows| && forall i | 0 <= i < |rows| :: sides[i].hk == rows[i].hk && sides[i].bk == rows[i].bk
  {
    seq(|rows|, i requires 0 <= i < |rows| => Side(rows[i].hk, rows[i].bk,
        SatRow(rows[i].hk, "", RawVault.Position(None, None, 0, 0), true, NoBody)))
  }

  function ActiveSides(v: Vault, t: EntityType): seq<Side> { SatSides(Current(StatusOf(v, t))) }

  function DetailSides(v: Vault, t: EntityType): seq<Side> { SatSides(RankFirst(true, DetailsOf(v, t))) }

  /** hub inner join current status inner join latest details: every dimension, and the start of every fact. */
  function Base(v: Vault, t: EntityType): seq<Draft> {
    Join(Join(HubDrafts(Hub(v, t)), ActiveSides(v, t), EntityStatus), DetailSides(v, t), Details)
  }

  function AsSides(dimension: seq<Draft>): (sides: seq<Side>)
    ensures |sides| == |dimension|
    ensures forall i | 0 <= i < |dimension| :: sides[i].hk == dimension[i].hub.hk && sides[i].bk == dimension[i].hub.bk
  {
    seq(|dimension|, i requires 0 <= i < |dimension| =>
      Side(dimension[i].hub.hk, dimension[i].hub.bk,
           if Details in dimension[i].joined then dimension[i].joined[Details].row else NO_ROW))
  }

  const NO_ROW := SatRow("", "", RawVault.Position(None, None, 0, 0), false, NoBody)

  function Dim(v: Vault, t: EntityType): seq<Side> { AsSides(Base(v, t)) }

  function WithDims(v: Vault, rows: seq<Draft>): seq<Draft> {
    var two := Join(Join(rows, Dim(v, CustomerType), Customer), Dim(v, ProductType), Product);
    Join(Join(two, Dim(v, BranchType), Branch), Dim(v, CurrencyType), Currency)
  }

  /** fct_loans_current. */
  function Loans(v: Vault): seq<Draft> {
    var inContext := Join(Base(v, LoanType), SatSides(Current(v.loanContext)), Context);
    WithDims(v, Join(inContext, HubSides(Hub(v, ApplicationType)), Application))
  }

  /** fct_loan_applications_current. */
  function Applications(v: Vault): seq<Draft> {
    WithDims(v, Join(Base(v, ApplicationType), SatSides(Current(v.applicationContext)), Context))
  }

  lemma SidesOfUnique(rows: seq<SatRow>)
    requires UniqueHk(rows)
    ensures UniqueSides(SatSides(rows))
  {
  }

  /** Dimensions have one row per hash key. */
  lemma BaseGrain(v: Vault, t: EntityType)
    requires VaultOk(v)
    ensures UniqueDrafts(Base(v, t)) && UniqueSides(Dim(v, t))
  {
    var hub := Hub(v, t);
    assert UniqueHub(hub);
    CurrentIsOnePerKey(StatusOf(v, t));
    RankFirstIsOnePerKey(true, DetailsOf(v, t));
    SidesOfUnique(Current(StatusOf(v, t)));
    SidesOfUnique(RankFirst(true, DetailsOf(v, t)));
    hide Join, Current, RankFirst, VaultOk;
    JoinKeepsGrain(HubDrafts(hub), ActiveSides(v, t), EntityStatus);
    JoinKeepsGrain(Join(HubDrafts(hub), ActiveSides(v, t), EntityStatus), DetailSides(v, t), Details);
  }

  lemma WithDimsGrain(v: Vault, rows: seq<Draft>)
    requires VaultOk(v) && UniqueDrafts(rows)
    ensures UniqueDrafts(WithDims(v, rows))
  {
    BaseGrain(v, CustomerType);
    BaseGrain(v, ProductType);
    BaseGrain(v, BranchType);
    BaseGrain(v, CurrencyType);
    hide Join, Dim, VaultOk, UniqueDrafts, UniqueSides;
    JoinKeepsGrain(rows, Dim(v, CustomerType), Customer);
    var one := Join(rows, Dim(v, CustomerType), Customer);
    JoinKeepsGrain(one, Dim(v, ProductType), Product);
    var two := Join(one, Dim(v, ProductType), Product);
    JoinKeepsGrain(two, Dim(v, BranchType), Branch);
    JoinKeepsGrain(Join(two, Dim(v, BranchType), Branch), Dim(v, CurrencyType), Currency);
  }

  lemma HubSidesUnique(rows: seq<HubRow>)
    requires UniqueHub(rows)
    ensures UniqueSides(HubSides(rows))
  {
  }

  /** Facts have one row per hash key, for every vault. */
  lemma FactsHaveOneRowPerKey(v: Vault)
    requires VaultOk(v)
    ensures UniqueDrafts(Loans(v)) && UniqueDrafts(Applications(v))
  {
    BaseGrain(v, LoanType);
    BaseGrain(v, ApplicationType);
    CurrentIsOnePerKey(v.loanContext);
    CurrentIsOnePerKey(v.applicationContext);
    SidesOfUnique(Current(v.loanContext));
    SidesOfUnique(Current(v.applicationContext));
    HubSidesUnique(Hub(v, ApplicationType));
    hide Join, Base, VaultOk, UniqueDrafts, UniqueSides, Current, UniqueHk, UniqueHub, WithDims;
    JoinKeepsGrain(Base(v, LoanType), SatSides(Current(v.loanContext)), Context);
    var inContext := Join(Base(v, LoanType), SatSides(Current(v.loanContext)), Context);
    JoinKeepsGrain(inContext, HubSides(Hub(v, ApplicationType)), Application);
    WithDimsGrain(v, Join(inContext, HubSides(Hub(v, ApplicationType)), Application));
    JoinKeepsGrain(Base(v, ApplicationType), SatSides(Current(v.applicationContext)), Context);
    WithDimsGrain(v, Join(Base(v, ApplicationType), SatSides(Current(v.applicationContext)), Context));
  }

  // ---------------------------------------------------------------- exactly which rows

  /** The alias is joined to a row of the table under the key it is joined on. */
  predicate Fits(d: Draft, alias: Alias, right: seq<Side>) {
    alias in d.joined && d.joined[alias] in right && JoinKey(d, alias) == Some(d.joined[alias].hk)
  }

  function Drop(d: Draft, alias: Alias): Draft {
    d.(joined := d.joined - {alias})
  }

  ghost predicate Joined(rows: seq<Draft>, aliases: set<Alias>) {
    forall d | d in rows :: d.joined.Keys == aliases
  }

  /** A join keeps exactly the rows that find a partner, extended by it. */
  lemma JoinFits(left: seq<Draft>, right: seq<Side>, alias: Alias, aliases: set<Alias>, m: Draft)
    requires Joined(left, aliases) && alias !in aliases
    ensures m in Join(left, right, alias) <==> Fits(m, alias, right) && Drop(m, alias) in left
  {
    JoinExact(left, right, alias);
    KeyOfDrop(m, alias);
    hide Join, JoinKey;
    if m in Join(left, right, alias) {
      var d, s :| d in left && s in right && JoinKey(d, alias) == Some(s.hk) && m == With(d, alias, s);
      assert Drop(m, alias) == d;
    }
    if Fits(m, alias, right) && Drop(m, alias) in left {
      assert m == With(Drop(m, alias), alias, m.joined[alias]);
    }
  }

  lemma JoinAdds(left: seq<Draft>, right: seq<Side>, alias: Alias, aliases: set<Alias>)
    requires Joined(left, aliases)
    ensures Joined(Join(left, right, alias), aliases + {alias})
  {
    JoinExact(left, right, alias);
    hide Join, JoinKey;
  }

  lemma KeyOfDrop(m: Draft, alias: Alias)
    ensures JoinKey(Drop(m, alias), alias) == JoinKey(m, alias)
  {
  }

  lemma FitsAfterDrop(m: Draft, dropped: Alias, alias: Alias, right: seq<Side>)
    requires alias != dropped && (dropped != Context || alias in {EntityStatus, Details})
    ensures Fits(Drop(m, dropped), alias, right) <==> Fits(m, alias, right)
  {
  }

  lemma HubDraftsExact(hub: seq<HubRow>)
    ensures Joined(HubDrafts(hub), {})
    ensures forall d :: d in HubDrafts(hub) <==> d.hub in hub && d.joined == map[]
  {
    forall d ensures d in HubDrafts(hub) <==> d.hub in hub && d.joined == map[] {
      if d.hub in hub && d.joined == map[] {
        var i :| 0 <= i < |hub| && hub[i] == d.hub;
        assert HubDrafts(hub)[i] == d;
      }
    }
  }

  /** A dimension row is a hub row with an active status and a latest detail row, and every such row is one. */
  lemma BaseExact(v: Vault, t: EntityType)
    ensures Joined(Base(v, t), {EntityStatus, Details})
    ensures forall d :: d in Base(v, t) <==>
              d.joined.Keys == {EntityStatus, Details} && d.hub in Hub(v, t)
              && Fits(d, EntityStatus, ActiveSides(v, t)) && Fits(d, Details, DetailSides(v, t))
  {
    var hub := HubDrafts(Hub(v, t));
    var active := Join(hub, ActiveSides(v, t), EntityStatus);
    HubDraftsExact(Hub(v, t));
    JoinAdds(hub, ActiveSides(v, t), EntityStatus, {});
    JoinAdds(active, DetailSides(v, t), Details, {EntityStatus});
    assert {} + {EntityStatus} == {EntityStatus} && {EntityStatus} + {Details} == {EntityStatus, Details};
    hide Join, Fits, ActiveSides, DetailSides, HubDrafts;
    forall d ensures d in Base(v, t) <==>
              d.joined.Keys == {EntityStatus, Details} && d.hub in Hub(v, t)
              && Fits(d, EntityStatus, ActiveSides(v, t)) && Fits(d, Details, DetailSides(v, t))
    {
      JoinFits(active, DetailSides(v, t), Details, {EntityStatus}, d);
      JoinFits(hub, ActiveSides(v, t), EntityStatus, {}, Drop(d, Details));
      FitsAfterDrop(d, Details, EntityStatus, ActiveSides(v, t));
      if d.joined.Keys == {EntityStatus, Details} {
        assert Drop(Drop(d, Details), EntityStatus).joined == map[];
      }
    }
  }

  const DIMS: set<Alias> := {Customer, Product, Branch, Currency}

  predicate FitsDims(v: Vault, d: Draft) {
    && Fits(d, Customer, Dim(v, CustomerType)) && Fits(d, Product, Dim(v, ProductType))
    && Fits(d, Branch, Dim(v, BranchType)) && Fits(d, Currency, Dim(v, CurrencyType))
  }

  function DropDims(d: Draft): Draft {
    d.(joined := d.joined - DIMS)
  }

  lemma WithDimsAdds(v: Vault, rows: seq<Draft>, aliases: set<Alias>)
    requires Joined(rows, aliases)
    ensures Joined(WithDims(v, rows), aliases + DIMS)
  {
    hide Join, Joined, Dim;
    var one := Join(rows, Dim(v, CustomerType), Customer);
    var two := Join(one, Dim(v, ProductType), Product);
    var three := Join(two, Dim(v, BranchType), Branch);
    JoinAdds(rows, Dim(v, CustomerType), Customer, aliases);
    JoinAdds(one, Dim(v, ProductType), Product, aliases + {Customer});
    JoinAdds(two, Dim(v, BranchType), Branch, aliases + {Customer} + {Product});
    JoinAdds(three, Dim(v, CurrencyType), Currency, aliases + {Customer} + {Product} + {Branch});
    assert aliases + {Customer} + {Product} + {Branch} + {Currency} == aliases + DIMS;
  }

  lemma JoinTwice(rows: seq<Draft>, first: seq<Side>, a: Alias, second: seq<Side>, b: Alias, aliases: set<Alias>,
                  d: Draft)
    requires Joined(rows, aliases) && a !in aliases && b !in aliases && a != b && b != Context
    ensures d in Join(Join(rows, first, a), second, b) <==>
              Fits(d, a, first) && Fits(d, b, second) && Drop(Drop(d, b), a) in rows
  {
    JoinAdds(rows, first, a, aliases);
    hide Join, Fits, Joined;
    JoinFits(Join(rows, first, a), second, b, aliases + {a}, d);
    JoinFits(rows, first, a, aliases, Drop(d, b));
    FitsAfterDrop(d, b, a, first);
  }

  lemma WithDimsExact(v: Vault, rows: seq<Draft>, aliases: set<Alias>, d: Draft)
    requires Joined(rows, aliases) && Customer !in aliases && Product !in aliases && Branch !in aliases
             && Currency !in aliases
    ensures d in WithDims(v, rows) <==> FitsDims(v, d) && DropDims(d) in rows
  {
    hide Drop, DropDims, Join, Fits, Dim, Joined;
    DropsAll(d);
    FirstTwoDims(v, rows, aliases, Drop(Drop(d, Currency), Branch));
    LastTwoDims(v, rows, aliases, d);
    FitsAfterBoth(d, Product, Dim(v, ProductType));
    FitsAfterBoth(d, Customer, Dim(v, CustomerType));
  }

  lemma FirstTwoDims(v: Vault, rows: seq<Draft>, aliases: set<Alias>, d: Draft)
    requires Joined(rows, aliases) && Customer !in aliases && Product !in aliases
    ensures d in Join(Join(rows, Dim(v, CustomerType), Customer), Dim(v, ProductType), Product) <==>
              Fits(d, Customer, Dim(v, CustomerType)) && Fits(d, Product, Dim(v, ProductType))
                  && Drop(Drop(d, Product), Customer) in rows
  {
    hide Drop, Join, Fits, Dim, Joined;
    JoinTwice(rows, Dim(v, CustomerType), Customer, Dim(v, ProductType), Product, aliases, d);
  }

  lemma LastTwoDims(v: Vault, rows: seq<Draft>, aliases: set<Alias>, d: Draft)
    requires Joined(rows, aliases) && Branch !in aliases && Currency !in aliases
    ensures var two := Join(Join(rows, Dim(v, CustomerType), Customer), Dim(v, ProductType), Product);
            d in WithDims(v, rows) <==>
              Fits(d, Branch, Dim(v, BranchType)) && Fits(d, Currency, Dim(v, CurrencyType))
                  && Drop(Drop(d, Currency), Branch) in two
  {
    hide Drop, Join, Fits, Dim, Joined;
    var one := Join(rows, Dim(v, CustomerType), Customer);
    JoinAdds(rows, Dim(v, CustomerType), Customer, aliases);
    JoinAdds(one, Dim(v, ProductType), Product, aliases + {Customer});
    JoinTwice(Join(one, Dim(v, ProductType), Product), Dim(v, BranchType), Branch, Dim(v, CurrencyType), Currency,
              aliases + {Customer} + {Product}, d);
  }

  lemma DropsAll(d: Draft)
    ensures Drop(Drop(Drop(Drop(d, Currency), Branch), Product), Customer) == DropDims(d)
  {
  }

  lemma FitsAfterBoth(d: Draft, alias: Alias, right: seq<Side>)
    requires alias in {Customer, Product}
    ensures Fits(Drop(Drop(d, Currency), Branch), alias, right) <==> Fits(d, alias, right)
  {
    hide Fits;
    FitsAfterDrop(d, Currency, alias, right);
    FitsAfterDrop(Drop(d, Currency), Branch, alias, right);
  }

  const LOAN_ALIASES: set<Alias> := {EntityStatus, Details, Context, Application, Customer, Product, Branch, Currency}

  /** A loan fact is an active loan with details and an active context with its application and dimensions. */
  ghost predicate LoanShape(v: Vault, d: Draft) {
    && d.joined.Keys == LOAN_ALIASES && d.hub in Hub(v, LoanType)
    && Fits(d, EntityStatus, ActiveSides(v, LoanType)) && Fits(d, Details, DetailSides(v, LoanType))
    && Fits(d, Context, SatSides(Current(v.loanContext))) && Fits(d, Application, HubSides(Hub(v, ApplicationType)))
    && FitsDims(v, d)
  }

  const CONTEXT_ALIASES: set<Alias> := {EntityStatus, Details, Context, Application}

  function LoansInContext(v: Vault): seq<Draft> {
    Join(Join(Base(v, LoanType), SatSides(Current(v.loanContext)), Context), HubSides(Hub(v, ApplicationType)),
        Application)
  }

  lemma InContextExact(v: Vault, d: Draft)
    ensures Joined(LoansInContext(v), CONTEXT_ALIASES)
    ensures d in LoansInContext(v) <==>
              && d.joined.Keys == CONTEXT_ALIASES && d.hub in Hub(v, LoanType)
              && Fits(d, EntityStatus, ActiveSides(v, LoanType)) && Fits(d, Details, DetailSides(v, LoanType))
              && Fits(d, Context, SatSides(Current(v.loanContext)))
                   && Fits(d, Application, HubSides(Hub(v, ApplicationType)))
  {
    var contexts, applications := SatSides(Current(v.loanContext)), HubSides(Hub(v, ApplicationType));
    var base := Base(v, LoanType);
    BaseExact(v, LoanType);
    JoinAdds(base, contexts, Context, {EntityStatus, Details});
    assert {EntityStatus, Details} + {Context} == {EntityStatus, Details, Context};
    JoinAdds(Join(base, contexts, Context), applications, Application, {EntityStatus, Details, Context});
    assert {EntityStatus, Details, Context} + {Application} == CONTEXT_ALIASES;
    hide Join, Fits, Base, ActiveSides, DetailSides, SatSides, HubSides, Current, Joined;
    var a := Drop(d, Application);
    JoinFits(Join(base, contexts, Context), applications, Application, {EntityStatus, Details, Context}, d);
    JoinFits(base, contexts, Context, {EntityStatus, Details}, a);
    FitsAfterDrop(d, Application, Context, contexts);
    FitsAfterDrop(d, Application, EntityStatus, ActiveSides(v, LoanType));
    FitsAfterDrop(d, Application, Details, DetailSides(v, LoanType));
    FitsAfterDrop(a, Context, EntityStatus, ActiveSides(v, LoanType));
    FitsAfterDrop(a, Context, Details, DetailSides(v, LoanType));
    if d.joined.Keys == CONTEXT_ALIASES {
      assert Drop(a, Context).joined.Keys == {EntityStatus, Details};
    }
    JoinedKeys(LoansInContext(v), CONTEXT_ALIASES, d);
  }

  lemma JoinedKeys(rows: seq<Draft>, aliases: set<Alias>, d: Draft)
    requires Joined(rows, aliases)
    ensures d in rows ==> d.joined.Keys == aliases
  {
  }

  /** The fact holds exactly the rows of this shape. */
  lemma LoansAreExact(v: Vault, d: Draft)
    ensures d in Loans(v) <==> LoanShape(v, d)
  {
    var rows := LoansInContext(v);
    InContextExact(v, DropDims(d));
    hide LoansInContext;
    assert CONTEXT_ALIASES !! DIMS && CONTEXT_ALIASES + DIMS == LOAN_ALIASES;
    WithDimsAdds(v, rows, CONTEXT_ALIASES);
    WithDimsExact(v, rows, CONTEXT_ALIASES, d);
    LoansUnfold(v);
    hide Loans, WithDims, ActiveSides, DetailSides, Current, Dim, Fits, SatSides, HubSides, Joined, FitsDims;
    JoinedKeys(WithDims(v, rows), LOAN_ALIASES, d);
    if d.joined.Keys == LOAN_ALIASES {
      assert DropDims(d).joined.Keys == CONTEXT_ALIASES;
    }
    DimsDropped(d, EntityStatus, ActiveSides(v, LoanType));
    DimsDropped(d, Details, DetailSides(v, LoanType));
    DimsDropped(d, Context, SatSides(Current(v.loanContext)));
    DimsDropped(d, Application, HubSides(Hub(v, ApplicationType)));
  }

  lemma LoansUnfold(v: Vault)
    ensures Loans(v) == WithDims(v, LoansInContext(v))
  {
  }

  lemma DimsDropped(d: Draft, alias: Alias, right: seq<Side>)
    requires alias !in DIMS
    ensures Fits(DropDims(d), alias, right) <==> Fits(d, alias, right)
  {
  }

  ghost predicate HasActiveRow(rows: seq<SatRow>, hk: string) {
    exists r :: r in Current(rows) && r.hk == hk && r.active
  }

  /** No deleted entity stands behind a loan fact: loan, context and every dimension are active. */
  lemma NothingDeletedInLoans(v: Vault, d: Draft)
    requires d in Loans(v)
    ensures HasActiveRow(StatusOf(v, LoanType), d.hub.hk) && HasActiveRow(v.loanContext, d.hub.hk)
    ensures d.joined.Keys == LOAN_ALIASES
    ensures HasActiveRow(StatusOf(v, CustomerType), d.joined[Customer].hk)
    ensures HasActiveRow(StatusOf(v, ProductType), d.joined[Product].hk)
    ensures HasActiveRow(StatusOf(v, BranchType), d.joined[Branch].hk)
    ensures HasActiveRow(StatusOf(v, CurrencyType), d.joined[Currency].hk)
  {
    LoansAreExact(v, d);
    hide Loans, HasActiveRow, Dim, SatSides, Current, HubSides, DetailSides;
    SideIsActive(StatusOf(v, LoanType), d.joined[EntityStatus]);
    SideIsActive(v.loanContext, d.joined[Context]);
    DimIsActive(v, CustomerType, d.joined[Customer]);
    DimIsActive(v, ProductType, d.joined[Product]);
    DimIsActive(v, BranchType, d.joined[Branch]);
    DimIsActive(v, CurrencyType, d.joined[Currency]);
  }

  lemma SideIsActive(rows: seq<SatRow>, s: Side)
    requires s in SatSides(Current(rows))
    ensures HasActiveRow(rows, s.hk)
  {
    CurrentIsOnePerKey(rows);
    SideIsRow(Current(rows), s);
  }

  lemma SideIsRow(rows: seq<SatRow>, s: Side)
    requires s in SatSides(rows)
    ensures s.row in rows && s.row.hk == s.hk
  {
    var i :| 0 <= i < |rows| && SatSides(rows)[i] == s;
    assert rows[i] in rows;
  }

  lemma DimIsActive(v: Vault, t: EntityType, s: Side)
    requires s in Dim(v, t)
    ensures HasActiveRow(StatusOf(v, t), s.hk)
  {
    BaseExact(v, t);
    hide Base, Current, DetailSides, HasActiveRow;
    var i :| 0 <= i < |Base(v, t)| && Dim(v, t)[i] == s;
    var d := Base(v, t)[i];
    assert d in Base(v, t);
    SideIsActive(StatusOf(v, t), d.joined[EntityStatus]);
  }

  // ---------------------------------------------------------------- ranks

  lemma RanksAreOrdered(byTime: bool, a: RawVault.Position, b: RawVault.Position, c: RawVault.Position)
    ensures !RawVault.Ahead(byTime, a, b) && RawVault.Ahead(byTime, c, b) ==> !RawVault.Ahead(byTime, a, c)
    ensures !RawVault.Ahead(byTime, a, a)
  {
  }

  predicate HasKey(rows: seq<SatRow>, hk: string) {
    exists k :: 0 <= k < |rows| && rows[k].hk == hk
  }

  /** Every key of the table keeps a row, and no row of its key is ranked ahead of it. */
  ghost predicate TopRows(byTime: bool, best: seq<SatRow>, rows: seq<SatRow>) {
    && (forall x | x in rows :: HasKey(best, x.hk))
    && (forall k, x | 0 <= k < |best| && x in rows && x.hk == best[k].hk :: !RawVault.Ahead(byTime, x.at, best[k].at))
  }

  lemma {:induction false} RankFirstIsTop(byTime: bool, rows: seq<SatRow>)
    ensures TopRows(byTime, RankFirst(byTime, rows), rows)
  {
    if rows != [] {
      var front, last := rows[..|rows| - 1], rows[|rows| - 1];
      RankFirstIsTop(byTime, front);
      RankFirstIsOnePerKey(byTime, front);
      assert front + [last] == rows;
      var best := RankFirst(byTime, front);
      if Find(best, last.hk) == |best| {
        NewKeyIsTop(byTime, best, front, last);
      } else {
        KnownKeyIsTop(byTime, best, front, last);
      }
    }
  }

  lemma NewKeyIsTop(byTime: bool, best: seq<SatRow>, rows: seq<SatRow>, last: SatRow)
    requires TopRows(byTime, best, rows) && !HasKey(best, last.hk)
    ensures TopRows(byTime, best + [last], rows + [last])
  {
    hide RawVault.Ahead;
    RanksAreOrdered(byTime, last.at, last.at, last.at);
    var after := best + [last];
    forall x | x in rows + [last] ensures HasKey(after, x.hk) {
      if x in rows {
        var k :| 0 <= k < |best| && best[k].hk == x.hk;
        assert after[k].hk == x.hk;
      } else {
        assert after[|best|].hk == x.hk;
      }
    }
  }

  lemma KeysStay(best: seq<SatRow>, i: nat, last: SatRow, rows: seq<SatRow>)
    requires i < |best| && best[i].hk == last.hk && forall x | x in rows :: HasKey(best, x.hk)
    ensures forall x | x in rows :: HasKey(best[i := last], x.hk)
    ensures HasKey(best, last.hk) && HasKey(best[i := last], last.hk)
  {
    var after := best[i := last];
    assert after[i].hk == last.hk;
    forall x | x in rows ensures HasKey(after, x.hk) {
      var k :| 0 <= k < |best| && best[k].hk == x.hk;
      assert after[k].hk == x.hk;
    }
  }

  lemma KnownKeyIsTop(byTime: bool, best: seq<SatRow>, rows: seq<SatRow>, last: SatRow)
    requires TopRows(byTime, best, rows) && UniqueHk(best) && Find(best, last.hk) < |best|
    ensures var i := Find(best, last.hk);
            var after := if RawVault.Ahead(byTime, last.at, best[i].at) then best[i := last] else best;
            TopRows(byTime, after, rows + [last])
  {
    hide RawVault.Ahead, HasKey;
    var i := Find(best, last.hk);
    var after := if RawVault.Ahead(byTime, last.at, best[i].at) then best[i := last] else best;
    KeysStay(best, i, last, rows);
    assert forall x | x in rows + [last] :: x in rows || x == last;
    forall k, x | 0 <= k < |after| && x in rows + [last] && x.hk == after[k].hk
      ensures !RawVault.Ahead(byTime, x.at, after[k].at)
    {
      TopAfter(byTime, best, rows, last, i, k, x);
    }
  }

  lemma TopAfter(byTime: bool, best: seq<SatRow>, rows: seq<SatRow>, last: SatRow, i: nat, k: nat, x: SatRow)
    requires TopRows(byTime, best, rows) && UniqueHk(best) && i < |best| && best[i].hk == last.hk
    requires k < |best| && (x in rows || x == last) && x.hk == best[k].hk
    ensures var after := if RawVault.Ahead(byTime, last.at, best[i].at) then best[i := last] else best;
            !RawVault.Ahead(byTime, x.at, after[k].at)
  {
    hide RawVault.Ahead, HasKey;
    RanksAreOrdered(byTime, last.at, last.at, last.at);
    if k == i {
      RanksAreOrdered(byTime, x.at, best[i].at, last.at);
    } else {
      assert x != last;
    }
  }
}
