/**
 The loan fact against the change events: a loan is in the fact exactly when the last changes of the
 loan, of its context and of its dimensions say so.
 */
module GoldState {
  import opened Wrappers
  import opened Gold
  import R = RawVault
  import C = Compression
  import S = CurrentState

  // ---------------------------------------------------------------- satellite rows as the views read them

  /** A view row keeps the key and the position of its satellite row. */
  ghost predicate Faithful(f: R.Row -> SatRow) {
    forall q :: f(q).hk == q.entity && f(q).at == R.PositionOf(q)
  }

  /** The sequence holds the rows of the table, each as `f` shows it. */
  ghost predicate Shows(rows: seq<SatRow>, table: set<R.Row>, f: R.Row -> SatRow) {
    && (forall r | r in rows :: exists q :: q in table && r == f(q))
    && (forall q | q in table :: f(q) in rows)
  }

  function StatusSat(q: R.Row): SatRow {
    SatRow(q.entity, q.eventId, R.PositionOf(q), q.image == R.Status(false), NoBody)
  }

  /** `bodyOf` spells out the keys behind a context. */
  function ContextSat(q: R.Row, bodyOf: string -> Body): SatRow {
    SatRow(q.entity, q.eventId, R.PositionOf(q), q.image.Effectivity? && !q.image.deleted,
           if q.image.Effectivity? then bodyOf(q.image.context) else NoBody)
  }

  /** The row the view keeps for a key is the satellite row ranked latest. */
  lemma FirstRankedIsLatest(rows: seq<SatRow>, table: set<R.Row>, f: R.Row -> SatRow, r: SatRow)
    requires Faithful(f) && Shows(rows, table, f) && R.DistinctPositions(table)
    ensures r in RankFirst(false, rows) <==> exists p :: R.IsLatest(table, p) && r == f(p)
  {
    RankFirstIsTop(false, rows);
    RankFirstIsOnePerKey(false, rows);
    var best := RankFirst(false, rows);
    hide RankFirst, R.Ahead, R.Outranks;
    if r in best {
      var k :| 0 <= k < |best| && best[k] == r;
      var p :| p in table && r == f(p);
      forall q | q in table && q.entity == p.entity ensures !R.Outranks(false, q, p) {
        assert f(q) in rows && !R.Ahead(false, f(q).at, best[k].at);
        RanksOfRows(q, p);
      }
      assert R.IsLatest(table, p);
    }
    if p :| R.IsLatest(table, p) && r == f(p) {
      assert HasKey(best, r.hk);
      var k :| 0 <= k < |best| && best[k].hk == r.hk;
      assert best[k] in best;
      var q :| q in table && best[k] == f(q);
      RanksOfRows(q, p);
      RanksOfRows(p, q);
      assert !R.Ahead(false, r.at, best[k].at);
      if p != q { C.PositionsAreTotal(table, p, q); }
    }
  }

  lemma RanksOfRows(a: R.Row, b: R.Row)
    ensures R.Outranks(false, a, b) <==> R.Ahead(false, R.PositionOf(a), R.PositionOf(b))
  {
  }

  /** The current view has a row of a key exactly when the row ranked latest is active. */
  lemma CurrentRow(rows: seq<SatRow>, table: set<R.Row>, f: R.Row -> SatRow, r: SatRow)
    requires Faithful(f) && Shows(rows, table, f) && R.DistinctPositions(table)
    ensures r in Current(rows) <==> r.active && exists p :: R.IsLatest(table, p) && r == f(p)
  {
    FirstRankedIsLatest(rows, table, f, r);
    RankFirstIsOnePerKey(false, rows);
    ActiveExact(RankFirst(false, rows));
    hide RankFirst, OnlyActive;
  }

  // ---------------------------------------------------------------- views over change events

  /** The satellite of status changes holds the compressed rows of these events. */
  ghost predicate ShowsStatus(rows: seq<SatRow>, events: seq<S.Change>) {
    && S.InOrder(events) && R.Contract(S.StatusRows(events))
    && Shows(rows, R.KeepStateChanges(S.StatusRows(events)), StatusSat)
  }

  ghost predicate ShowsContexts(rows: seq<SatRow>, events: seq<S.Change>, bodyOf: string -> Body) {
    && S.InOrder(events) && R.Contract(S.ContextRows(events))
    && Shows(rows, R.KeepStateChanges(S.ContextRows(events)), q => ContextSat(q, bodyOf))
  }

  /** The last change of the entity is not a delete. */
  predicate Alive(events: seq<S.Change>, hk: string) {
    hk in S.Fold(events) && !S.Fold(events)[hk].deleted
  }

  lemma CompressedPositions(rows: set<R.Row>)
    requires R.Contract(rows)
    ensures R.DistinctPositions(R.KeepStateChanges(rows))
  {
    C.ContractRanks(rows);
    C.KeptAreRows(rows);
  }

  lemma StatusViewIsTheFold(rows: seq<SatRow>, events: seq<S.Change>, hk: string)
    requires ShowsStatus(rows, events)
    ensures HasActiveRow(rows, hk) <==> Alive(events, hk)
  {
    var table := R.KeepStateChanges(S.StatusRows(events));
    S.CurrentStatusIsTheFold(events, hk);
    CompressedPositions(S.StatusRows(events));
    assert Faithful(StatusSat);
    hide R.KeepStateChanges, R.Contract, S.Fold, R.IsLatest, S.InOrder, Current, Shows, R.DistinctPositions;
    assert Shows(rows, table, StatusSat);
    if HasActiveRow(rows, hk) {
      var r :| r in Current(rows) && r.hk == hk && r.active;
      CurrentRow(rows, table, StatusSat, r);
      var p :| R.IsLatest(table, p) && r == StatusSat(p);
      LatestIsThere(table, p);
      assert S.CurrentlyActive(table, hk);
    }
    if S.CurrentlyActive(table, hk) {
      var p :| p in table && R.IsLatest(table, p) && p.entity == hk && p.image == R.Status(false);
      CurrentRow(rows, table, StatusSat, StatusSat(p));
    }
  }

  lemma LatestIsThere(table: set<R.Row>, p: R.Row)
    requires R.IsLatest(table, p)
    ensures p in table
  {
  }

  /** The context in force, as the keys it stands for. */
  predicate InContext(events: seq<S.Change>, hk: string, bodyOf: string -> Body, body: Body) {
    Alive(events, hk) && body == bodyOf(S.Fold(events)[hk].context)
  }

  lemma ContextViewIsTheFold(rows: seq<SatRow>, events: seq<S.Change>, bodyOf: string -> Body, hk: string, body: Body)
    requires ShowsContexts(rows, events, bodyOf)
    ensures (exists r :: r in Current(rows) && r.hk == hk && r.body == body) <==> InContext(events, hk, bodyOf, body)
  {
    var table := R.KeepStateChanges(S.ContextRows(events));
    var f := q => ContextSat(q, bodyOf);
    CompressedPositions(S.ContextRows(events));
    assert Faithful(f) && Shows(rows, table, f);
    hide R.KeepStateChanges, R.Contract, S.Fold, R.IsLatest, S.InOrder, Current, Shows, R.DistinctPositions, Faithful;
    if r :| r in Current(rows) && r.hk == hk && r.body == body {
      CurrentRow(rows, table, f, r);
      var p :| R.IsLatest(table, p) && r == f(p);
      LatestIsThere(table, p);
      S.CurrentContextIsTheFold(events, hk, p.image.context);
      assert p.image == R.Effectivity(p.image.context, false);
      assert S.CurrentContext(table, hk, p.image.context);
    }
    if InContext(events, hk, bodyOf, body) {
      var context := S.Fold(events)[hk].context;
      S.CurrentContextIsTheFold(events, hk, context);
      var p :| p in table && R.IsLatest(table, p) && p.entity == hk && p.image == R.Effectivity(context, false);
      CurrentRow(rows, table, f, f(p));
    }
  }

  // ---------------------------------------------------------------- dimensions and facts exist

  ghost predicate HubHas(v: Vault, t: EntityType, hk: string) {
    exists h :: h in Hub(v, t) && h.hk == hk
  }

  /** A hub row, an active status and a detail row. */
  ghost predicate Present(v: Vault, t: EntityType, hk: string) {
    HubHas(v, t, hk) && HasActiveRow(StatusOf(v, t), hk) && HasKey(DetailsOf(v, t), hk)
  }

  ghost predicate HasSide(sides: seq<Side>, hk: string) {
    exists s :: s in sides && s.hk == hk
  }

  lemma SidesOfRows(rows: seq<SatRow>, hk: string)
    ensures HasSide(SatSides(rows), hk) <==> HasKey(rows, hk)
  {
    if HasKey(rows, hk) {
      var k :| 0 <= k < |rows| && rows[k].hk == hk;
      assert SatSides(rows)[k] in SatSides(rows);
    }
    if s :| s in SatSides(rows) && s.hk == hk {
      var k :| 0 <= k < |rows| && SatSides(rows)[k] == s;
      assert rows[k].hk == hk;
    }
  }

  lemma HubSideExists(rows: seq<HubRow>, hk: string)
    ensures HasSide(HubSides(rows), hk) <==> exists h :: h in rows && h.hk == hk
  {
    if h :| h in rows && h.hk == hk {
      var k :| 0 <= k < |rows| && rows[k] == h;
      assert HubSides(rows)[k] in HubSides(rows);
    }
    if s :| s in HubSides(rows) && s.hk == hk {
      var k :| 0 <= k < |rows| && HubSides(rows)[k] == s;
      assert rows[k] in rows;
    }
  }

  lemma ActiveSideExists(v: Vault, t: EntityType, hk: string)
    ensures HasSide(ActiveSides(v, t), hk) <==> HasActiveRow(StatusOf(v, t), hk)
  {
    var rows := StatusOf(v, t);
    SidesOfRows(Current(rows), hk);
    CurrentIsOnePerKey(rows);
    hide Current, StatusOf, SatSides;
    if HasKey(Current(rows), hk) {
      var k :| 0 <= k < |Current(rows)| && Current(rows)[k].hk == hk;
      assert Current(rows)[k] in Current(rows);
    }
    if r :| r in Current(rows) && r.hk == hk && r.active {
      var k :| 0 <= k < |Current(rows)| && Current(rows)[k] == r;
    }
  }

  lemma DetailSideExists(v: Vault, t: EntityType, hk: string)
    ensures HasSide(DetailSides(v, t), hk) <==> HasKey(DetailsOf(v, t), hk)
  {
    var rows := DetailsOf(v, t);
    SidesOfRows(RankFirst(true, rows), hk);
    RankFirstIsTop(true, rows);
    RankFirstIsOnePerKey(true, rows);
    hide RankFirst, DetailsOf, SatSides;
    var best := RankFirst(true, rows);
    if HasKey(rows, hk) {
      var k :| 0 <= k < |rows| && rows[k].hk == hk;
      assert rows[k] in rows;
    }
    if HasKey(best, hk) {
      var k :| 0 <= k < |best| && best[k].hk == hk;
      assert best[k] in best;
      var j :| 0 <= j < |rows| && rows[j] == best[k];
    }
  }

  /** A key has a base row exactly when hub, status and details have it. */
  lemma BaseExists(v: Vault, t: EntityType, hk: string)
    ensures (exists d :: d in Base(v, t) && d.hub.hk == hk) <==> Present(v, t, hk)
  {
    BaseExact(v, t);
    ActiveSideExists(v, t, hk);
    DetailSideExists(v, t, hk);
    hide Base, ActiveSides, DetailSides, StatusOf, DetailsOf, HasActiveRow, HasKey;
    if d :| d in Base(v, t) && d.hub.hk == hk {
      assert d.joined[EntityStatus].hk == hk && d.joined[Details].hk == hk;
      assert HasSide(ActiveSides(v, t), hk) && HasSide(DetailSides(v, t), hk);
    }
    if Present(v, t, hk) {
      var h :| h in Hub(v, t) && h.hk == hk;
      var a :| a in ActiveSides(v, t) && a.hk == hk;
      var b :| b in DetailSides(v, t) && b.hk == hk;
      assert Draft(h, map[EntityStatus := a, Details := b]) in Base(v, t);
    }
  }

  lemma DimExists(v: Vault, t: EntityType, hk: string)
    ensures HasSide(Dim(v, t), hk) <==> Present(v, t, hk)
  {
    BaseExists(v, t, hk);
    hide Base, Present;
    if s :| s in Dim(v, t) && s.hk == hk {
      var k :| 0 <= k < |Dim(v, t)| && Dim(v, t)[k] == s;
      assert Base(v, t)[k] in Base(v, t);
    }
    if d :| d in Base(v, t) && d.hub.hk == hk {
      var k :| 0 <= k < |Base(v, t)| && Base(v, t)[k] == d;
      assert Dim(v, t)[k] in Dim(v, t);
    }
  }

  /** The application is in its hub and every dimension of the context is present. */
  ghost predicate ContextPresent(v: Vault, body: Body) {
    && body.ContextBody? && HubHas(v, ApplicationType, body.applicationHk)
    && Present(v, CustomerType, body.customerHk) && Present(v, ProductType, body.productHk)
    && Present(v, BranchType, body.branchHk) && Present(v, CurrencyType, body.currencyHk)
  }

  ghost predicate HasContextRow(v: Vault, hk: string, body: Body) {
    exists r :: r in Current(v.loanContext) && r.hk == hk && r.body == body
  }

  lemma FactExists(v: Vault, hk: string)
    ensures (exists d :: d in Loans(v) && d.hub.hk == hk) <==>
              Present(v, LoanType, hk) && exists body :: HasContextRow(v, hk, body) && ContextPresent(v, body)
  {
    if d :| d in Loans(v) && d.hub.hk == hk {
      FactHasParts(v, d);
    }
    if Present(v, LoanType, hk) {
      if body :| HasContextRow(v, hk, body) && ContextPresent(v, body) {
        var d := PartsMakeFact(v, hk, body);
      }
    }
  }

  lemma FactHasParts(v: Vault, d: Draft)
    requires d in Loans(v)
    ensures Present(v, LoanType, d.hub.hk)
    ensures exists body :: HasContextRow(v, d.hub.hk, body) && ContextPresent(v, body)
  {
    LoansAreExact(v, d);
    hide Loans, ActiveSides, DetailSides, Dim, SatSides, HubSides, Current, Present, Hub;
    ActiveSideExists(v, LoanType, d.hub.hk);
    DetailSideExists(v, LoanType, d.hub.hk);
    assert HasSide(ActiveSides(v, LoanType), d.joined[EntityStatus].hk);
    assert HasSide(DetailSides(v, LoanType), d.joined[Details].hk);
    PresentByParts(v, LoanType, d.hub);
    SideIsRow(Current(v.loanContext), d.joined[Context]);
    var body := d.joined[Context].row.body;
    assert HasContextRow(v, d.hub.hk, body);
    HubSideExists(Hub(v, ApplicationType), body.applicationHk);
    assert HasSide(HubSides(Hub(v, ApplicationType)), d.joined[Application].hk);
    assert HasSide(Dim(v, CustomerType), d.joined[Customer].hk) && HasSide(Dim(v, ProductType), d.joined[Product].hk);
    assert HasSide(Dim(v, BranchType), d.joined[Branch].hk) && HasSide(Dim(v, CurrencyType), d.joined[Currency].hk);
    DimExists(v, CustomerType, body.customerHk);
    DimExists(v, ProductType, body.productHk);
    DimExists(v, BranchType, body.branchHk);
    DimExists(v, CurrencyType, body.currencyHk);
  }

  lemma PresentByParts(v: Vault, t: EntityType, h: HubRow)
    requires h in Hub(v, t) && HasActiveRow(StatusOf(v, t), h.hk) && HasKey(DetailsOf(v, t), h.hk)
    ensures Present(v, t, h.hk)
  {
  }

  lemma PartsMakeFact(v: Vault, hk: string, body: Body) returns (d: Draft)
    requires Present(v, LoanType, hk) && HasContextRow(v, hk, body) && ContextPresent(v, body)
    ensures d in Loans(v) && d.hub.hk == hk
  {
    hide Loans, ActiveSides, DetailSides, Dim, HubSides, SatSides, Current, HasActiveRow, HasKey, Hub;
    ActiveSideExists(v, LoanType, hk);
    DetailSideExists(v, LoanType, hk);
    HubSideExists(Hub(v, ApplicationType), body.applicationHk);
    DimExists(v, CustomerType, body.customerHk);
    DimExists(v, ProductType, body.productHk);
    DimExists(v, BranchType, body.branchHk);
    DimExists(v, CurrencyType, body.currencyHk);
    var h :| h in Hub(v, LoanType) && h.hk == hk;
    hide Present;
    var a :| a in ActiveSides(v, LoanType) && a.hk == hk;
    var b :| b in DetailSides(v, LoanType) && b.hk == hk;
    var r :| r in Current(v.loanContext) && r.hk == hk && r.body == body;
    var c := SideOfRow(Current(v.loanContext), r);
    var e :| e in HubSides(Hub(v, ApplicationType)) && e.hk == body.applicationHk;
    var w :| w in Dim(v, CustomerType) && w.hk == body.customerHk;
    var x :| x in Dim(v, ProductType) && x.hk == body.productHk;
    var y :| y in Dim(v, BranchType) && y.hk == body.branchHk;
    var z :| z in Dim(v, CurrencyType) && z.hk == body.currencyHk;
    d := Draft(h, Parts(a, b, c, e, w, x, y, z));
    SidesMakeFact(v, h, a, b, c, e, w, x, y, z);
  }

  lemma SideOfRow(rows: seq<SatRow>, r: SatRow) returns (s: Side)
    requires r in rows
    ensures s in SatSides(rows) && s.hk == r.hk && s.row == r
  {
    var k :| 0 <= k < |rows| && rows[k] == r;
    s := SatSides(rows)[k];
  }

  lemma SidesMakeFact(v: Vault, h: HubRow, a: Side, b: Side, c: Side, e: Side, w: Side, x: Side, y: Side, z: Side)
    requires h in Hub(v, LoanType) && a in ActiveSides(v, LoanType) && b in DetailSides(v, LoanType)
    requires c in SatSides(Current(v.loanContext)) && e in HubSides(Hub(v, ApplicationType))
    requires w in Dim(v, CustomerType) && x in Dim(v, ProductType) && y in Dim(v, BranchType)
             && z in Dim(v, CurrencyType)
    requires a.hk == b.hk == c.hk == h.hk && c.row.body.ContextBody?
    requires var body := c.row.body;
             && e.hk == body.applicationHk && w.hk == body.customerHk && x.hk == body.productHk
             && y.hk == body.branchHk && z.hk == body.currencyHk
    ensures Draft(h, Parts(a, b, c, e, w, x, y, z)) in Loans(v)
  {
    hide Loans, ActiveSides, DetailSides, Dim, HubSides, SatSides, Current, Hub, JoinKey, Parts;
    var d := Draft(h, Parts(a, b, c, e, w, x, y, z));
    PartsAt(a, b, c, e, w, x, y, z);
    KeysInContext(d);
    LoansAreExact(v, d);
  }

  function Parts(a: Side, b: Side, c: Side, e: Side, w: Side, x: Side, y: Side, z: Side): map<Alias, Side> {
    map[EntityStatus := a, Details := b, Context := c, Application := e,
        Customer := w, Product := x, Branch := y, Currency := z]
  }

  lemma PartsAt(a: Side, b: Side, c: Side, e: Side, w: Side, x: Side, y: Side, z: Side)
    ensures var m := Parts(a, b, c, e, w, x, y, z);
            && m.Keys == LOAN_ALIASES
            && m[EntityStatus] == a && m[Details] == b && m[Context] == c && m[Application] == e
            && m[Customer] == w && m[Product] == x && m[Branch] == y && m[Currency] == z
  {
  }

  /** The columns the joins of a loan fact are made on. */
  lemma KeysInContext(d: Draft)
    requires Context in d.joined && d.joined[Context].row.body.ContextBody?
    ensures var c := d.joined[Context].row.body;
            && JoinKey(d, EntityStatus) == JoinKey(d, Details) == JoinKey(d, Context) == Some(d.hub.hk)
            && JoinKey(d, Application) == Some(c.applicationHk) && JoinKey(d, Customer) == Some(c.customerHk)
            && JoinKey(d, Product) == Some(c.productHk) && JoinKey(d, Branch) == Some(c.branchHk)
            && JoinKey(d, Currency) == Some(c.currencyHk)
  {
  }

  // ---------------------------------------------------------------- the fact is the fold

  /** A hub row, a detail row, and a last change that is not a delete. */
  ghost predicate Lives(v: Vault, events: map<EntityType, seq<S.Change>>, t: EntityType, hk: string) {
    t in events && HubHas(v, t, hk) && HasKey(DetailsOf(v, t), hk) && Alive(events[t], hk)
  }

  ghost predicate StatusShown(v: Vault, events: map<EntityType, seq<S.Change>>) {
    forall t: EntityType :: t in events && ShowsStatus(StatusOf(v, t), events[t])
  }

  lemma PresentIsAlive(v: Vault, events: map<EntityType, seq<S.Change>>, t: EntityType, hk: string)
    requires StatusShown(v, events)
    ensures Present(v, t, hk) <==> Lives(v, events, t, hk)
  {
    StatusViewIsTheFold(StatusOf(v, t), events[t], hk);
    hide ShowsStatus, HasActiveRow, Alive;
  }

  /**
   A loan is in the fact if and only if its last change and the last change of its context are no deletes,
   its application is in the hub, and loan and dimensions have details and a last change that is no delete.
   */
  lemma LoanFactIsTheFold(v: Vault, events: map<EntityType, seq<S.Change>>, contexts: seq<S.Change>,
                          bodyOf: string -> Body, hk: string)
    requires StatusShown(v, events) && ShowsContexts(v.loanContext, contexts, bodyOf)
    ensures (exists d :: d in Loans(v) && d.hub.hk == hk) <==>
              && Lives(v, events, LoanType, hk) && Alive(contexts, hk)
              && var body := bodyOf(S.Fold(contexts)[hk].context);
                 && body.ContextBody? && HubHas(v, ApplicationType, body.applicationHk)
                 && Lives(v, events, CustomerType, body.customerHk) && Lives(v, events, ProductType, body.productHk)
                 && Lives(v, events, BranchType, body.branchHk) && Lives(v, events, CurrencyType, body.currencyHk)
  {
    FactExists(v, hk);
    hide Loans, Lives, Present, ShowsStatus, ShowsContexts, StatusShown, HubHas, S.Fold, Current;
    PresentIsAlive(v, events, LoanType, hk);
    forall body: Body
      ensures HasContextRow(v, hk, body) <==> InContext(contexts, hk, bodyOf, body)
      ensures body.ContextBody? ==>
                && (Present(v, CustomerType, body.customerHk) <==> Lives(v, events, CustomerType, body.customerHk))
                && (Present(v, ProductType, body.productHk) <==> Lives(v, events, ProductType, body.productHk))
                && (Present(v, BranchType, body.branchHk) <==> Lives(v, events, BranchType, body.branchHk))
                && (Present(v, CurrencyType, body.currencyHk) <==> Lives(v, events, CurrencyType, body.currencyHk))
    {
      ContextViewIsTheFold(v.loanContext, contexts, bodyOf, hk, body);
      if body.ContextBody? {
        PresentIsAlive(v, events, CustomerType, body.customerHk);
        PresentIsAlive(v, events, ProductType, body.productHk);
        PresentIsAlive(v, events, BranchType, body.branchHk);
        PresentIsAlive(v, events, CurrencyType, body.currencyHk);
      }
    }
    if Alive(contexts, hk) {
      assert InContext(contexts, hk, bodyOf, bodyOf(S.Fold(contexts)[hk].context));
    }
  }
}
