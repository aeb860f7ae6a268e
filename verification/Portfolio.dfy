/** The customer portfolio: a group-by over the loan fact that neither loses nor repeats a loan. */
module Portfolio {
  import opened Wrappers
  import opened Gold

  datatype GroupKey = GroupKey(customerHk: string, customerId: string, customerType: string, segment: string,
                               currencyHk: string, currencyCode: string)

  datatype Measure = LoanCount | WithStatus(code: string) | Principal

  datatype PortfolioRow = PortfolioRow(key: GroupKey, loans: Option<int>, active: Option<int>, delinquent: Option<int>,
                                       closed: Option<int>, principal: Option<int>)

  // ---------------------------------------------------------------- aggregates

  /** SQL sum: nulls are skipped, and the sum of nothing is null. */
  function Add(a: Option<int>, b: Option<int>): Option<int> {
    if a.None? then b else if b.None? then a else Some(a.value + b.value)
  }

  function StatusCode(d: Draft): string {
    if Details in d.joined && d.joined[Details].row.body.LoanBody? then d.joined[Details].row.body.statusCode else ""
  }

  function Value(m: Measure, d: Draft): Option<int> {
    match m
    case LoanCount => Some(1)
    case WithStatus(code) => Some(if StatusCode(d) == code then 1 else 0)
    case Principal =>
      if Details in d.joined && d.joined[Details].row.body.LoanBody? then d.joined[Details].row.body.principal else None
  }

  function Total(m: Measure, rows: seq<Draft>): Option<int> {
    if rows == [] then None else Add(Total(m, rows[..|rows| - 1]), Value(m, rows[|rows| - 1]))
  }

  function SideOf(d: Draft, alias: Alias): Side {
    if alias in d.joined then d.joined[alias] else Side("", "", NO_ROW)
  }

  function KeyOf(d: Draft): GroupKey {
    var customer, currency := SideOf(d, Customer), SideOf(d, Currency);
    var body := customer.row.body;
    GroupKey(customer.hk, customer.bk, if body.CustomerBody? then body.customerType else "",
             if body.CustomerBody? then body.segment else "", currency.hk, currency.bk)
  }

  /** Group keys in order of first appearance. */
  function Keys(rows: seq<Draft>): seq<GroupKey> {
    if rows == [] then [] else
    var rest, k := Keys(rows[..|rows| - 1]), KeyOf(rows[|rows| - 1]);
    if k in rest then rest else rest + [k]
  }

  function InGroup(rows: seq<Draft>, k: GroupKey): seq<Draft> {
    if rows == [] then [] else
    var rest, d := InGroup(rows[..|rows| - 1], k), rows[|rows| - 1];
    if KeyOf(d) == k then rest + [d] else rest
  }

  function Aggregate(rows: seq<Draft>, k: GroupKey): PortfolioRow {
    var own := InGroup(rows, k);
    PortfolioRow(k, Total(LoanCount, own), Total(WithStatus("ACTIVE"), own), Total(WithStatus("DELINQUENT"), own),
                 Total(WithStatus("CLOSED"), own), Total(Principal, own))
  }

  function GroupBy(rows: seq<Draft>, keys: seq<GroupKey>): (groups: seq<PortfolioRow>)
    ensures |groups| == |keys| && forall i | 0 <= i < |keys| :: groups[i] == Aggregate(rows, keys[i])
  {
    if keys == [] then [] else GroupBy(rows, keys[..|keys| - 1]) + [Aggregate(rows, keys[|keys| - 1])]
  }

  /** The fact joined with its customer dimension once more, then grouped. */
  function Rows(v: Vault): seq<Draft> {
    Join(Loans(v), Dim(v, CustomerType), Customer)
  }

  function PortfolioOf(v: Vault): seq<PortfolioRow> {
    GroupBy(Rows(v), Keys(Rows(v)))
  }

  function Reported(m: Measure, p: PortfolioRow): Option<int> {
    match m
    case LoanCount => p.loans
    case WithStatus(code) => if code == "ACTIVE" then p.active else if code == "DELINQUENT" then p.delinquent
        else p.closed
    case Principal => p.principal
  }

  predicate IsReported(m: Measure) {
    m.WithStatus? ==> m.code in {"ACTIVE", "DELINQUENT", "CLOSED"}
  }

  // ---------------------------------------------------------------- joining the customer again changes nothing

  lemma {:induction false} JoinAgain(left: seq<Draft>, right: seq<Side>, alias: Alias)
    requires UniqueSides(right) && forall d | d in left :: Fits(d, alias, right)
    ensures Join(left, right, alias) == left
  {
    if left != [] {
      var front, d := left[..|left| - 1], left[|left| - 1];
      assert d in left;
      JoinAgain(front, right, alias);
      MatchesExact(d, right, alias);
      var s := d.joined[alias];
      assert With(d, alias, s) == d;
      hide Join, Matches, JoinKey;
      assert d in Matches(d, right, alias);
      assert Matches(d, right, alias) == [d];
      JoinUnfolds(left, right, alias);
    }
  }

  lemma RowsAreLoans(v: Vault)
    requires VaultOk(v)
    ensures Rows(v) == Loans(v)
  {
    BaseGrain(v, CustomerType);
    hide Loans, Dim, Base;
    forall d | d in Loans(v) ensures Fits(d, Customer, Dim(v, CustomerType)) {
      LoansAreExact(v, d);
    }
    JoinAgain(Loans(v), Dim(v, CustomerType), Customer);
  }

  // ---------------------------------------------------------------- grain

  lemma {:induction false} KeysExact(rows: seq<Draft>)
    ensures forall i, j | 0 <= i < j < |Keys(rows)| :: Keys(rows)[i] != Keys(rows)[j]
    ensures forall k :: k in Keys(rows) <==> exists d :: d in rows && KeyOf(d) == k
  {
    hide KeyOf;
    if rows != [] {
      var front, d := rows[..|rows| - 1], rows[|rows| - 1];
      KeysExact(front);
      assert forall x :: x in rows <==> x in front || x == d;
    }
  }

  lemma SameSide(right: seq<Side>, a: Side, b: Side)
    requires UniqueSides(right) && a in right && b in right && a.hk == b.hk
    ensures a == b
  {
    var i :| 0 <= i < |right| && right[i] == a;
    var j :| 0 <= j < |right| && right[j] == b;
  }

  /** The customer attributes and the currency code follow from the two hash keys. */
  lemma KeyFollowsFromHashes(v: Vault, a: Draft, b: Draft)
    requires VaultOk(v) && a in Loans(v) && b in Loans(v)
    requires KeyOf(a).customerHk == KeyOf(b).customerHk && KeyOf(a).currencyHk == KeyOf(b).currencyHk
    ensures KeyOf(a) == KeyOf(b)
  {
    BaseGrain(v, CustomerType);
    BaseGrain(v, CurrencyType);
    LoansAreExact(v, a);
    LoansAreExact(v, b);
    hide Loans, Dim, VaultOk;
    SameSide(Dim(v, CustomerType), a.joined[Customer], b.joined[Customer]);
    SameSide(Dim(v, CurrencyType), a.joined[Currency], b.joined[Currency]);
  }

  /** One portfolio row per customer and currency. */
  lemma PortfolioGrain(v: Vault)
    requires VaultOk(v)
    ensures var p := PortfolioOf(v);
            forall i, j | 0 <= i < j < |p| :: !(p[i].key.customerHk == p[j].key.customerHk
                && p[i].key.currencyHk == p[j].key.currencyHk)
  {
    hide PortfolioOf, Rows, Loans, Keys, KeyOf, VaultOk;
    var rows, p := Rows(v), PortfolioOf(v);
    RowsAreLoans(v);
    KeysExact(rows);
    PortfolioKeys(v);
    forall i, j | 0 <= i < j < |p|
      ensures !(p[i].key.customerHk == p[j].key.customerHk && p[i].key.currencyHk == p[j].key.currencyHk)
    {
      var a := LoanOfKey(rows, i);
      var b := LoanOfKey(rows, j);
      if KeyOf(a).customerHk == KeyOf(b).customerHk && KeyOf(a).currencyHk == KeyOf(b).currencyHk {
        KeyFollowsFromHashes(v, a, b);
      }
    }
  }

  lemma LoanOfKey(rows: seq<Draft>, i: nat) returns (d: Draft)
    requires i < |Keys(rows)|
    ensures d in rows && KeyOf(d) == Keys(rows)[i]
  {
    hide KeyOf;
    KeysExact(rows);
    hide Keys;
    assert Keys(rows)[i] in Keys(rows);
    d :| d in rows && KeyOf(d) == Keys(rows)[i];
  }

  lemma PortfolioKeys(v: Vault)
    ensures |PortfolioOf(v)| == |Keys(Rows(v))| && forall i | 0 <= i < |PortfolioOf(v)| ::
              PortfolioOf(v)[i].key == Keys(Rows(v))[i]
  {
    hide Rows, Keys, InGroup, Total;
  }

  // ---------------------------------------------------------------- conservation

  function OfCurrency(rows: seq<Draft>, currencyHk: string): seq<Draft> {
    if rows == [] then [] else
    var rest, d := OfCurrency(rows[..|rows| - 1], currencyHk), rows[|rows| - 1];
    if KeyOf(d).currencyHk == currencyHk then rest + [d] else rest
  }

  /** Sum over the portfolio rows of a currency. */
  function PortfolioTotal(m: Measure, p: seq<PortfolioRow>, currencyHk: string): Option<int> {
    if p == [] then None else
    var rest, r := PortfolioTotal(m, p[..|p| - 1], currencyHk), p[|p| - 1];
    if r.key.currencyHk == currencyHk then Add(rest, Reported(m, r)) else rest
  }

  lemma AddIsCommutativeMonoid(a: Option<int>, b: Option<int>, c: Option<int>)
    ensures Add(Add(a, b), c) == Add(a, Add(b, c)) && Add(a, b) == Add(b, a) && Add(a, None) == a
  {
  }

  /** One more loan is reported by the one group of its key. */
  lemma {:induction false} OneGroupReports(m: Measure, rows: seq<Draft>, d: Draft, keys: seq<GroupKey>,
                                           currencyHk: string)
    requires IsReported(m) && forall i, j | 0 <= i < j < |keys| :: keys[i] != keys[j]
    ensures PortfolioTotal(m, GroupBy(rows + [d], keys), currencyHk) ==
              Add(PortfolioTotal(m, GroupBy(rows, keys), currencyHk),
                  if KeyOf(d) in keys && KeyOf(d).currencyHk == currencyHk then Value(m, d) else None)
  {
    if keys != [] {
      var front, k := keys[..|keys| - 1], keys[|keys| - 1];
      OneGroupReports(m, rows, d, front, currencyHk);
      GroupGrows(m, rows, d, k);
      TotalUnfolds(m, rows, keys, currencyHk);
      TotalUnfolds(m, rows + [d], keys, currencyHk);
      hide KeyOf, Value, Total, InGroup, GroupBy, Reported, Aggregate, PortfolioTotal, Add;
      var before, report := PortfolioTotal(m, GroupBy(rows, front), currencyHk), Reported(m, Aggregate(rows, k));
      AddIsCommutativeMonoid(before, report, Value(m, d));
      AddIsCommutativeMonoid(before, Value(m, d), report);
      AddIsCommutativeMonoid(Value(m, d), report, None);
      AddIsCommutativeMonoid(before, None, None);
      AddIsCommutativeMonoid(Add(before, report), None, None);
      assert KeyOf(d) in keys <==> KeyOf(d) in front || KeyOf(d) == k;
      LastIsNew(keys);
    }
  }

  lemma LastIsNew(keys: seq<GroupKey>)
    requires keys != [] && forall i, j | 0 <= i < j < |keys| :: keys[i] != keys[j]
    ensures keys[|keys| - 1] !in keys[..|keys| - 1]
  {
  }

  lemma TotalUnfolds(m: Measure, rows: seq<Draft>, keys: seq<GroupKey>, currencyHk: string)
    requires keys != []
    ensures var front, k := keys[..|keys| - 1], keys[|keys| - 1];
            var before := PortfolioTotal(m, GroupBy(rows, front), currencyHk);
            PortfolioTotal(m, GroupBy(rows, keys), currencyHk) ==
              if k.currencyHk == currencyHk then Add(before, Reported(m, Aggregate(rows, k))) else before
  {
    hide KeyOf, Value, Total, InGroup;
    assert GroupBy(rows, keys)[..|keys| - 1] == GroupBy(rows, keys[..|keys| - 1]);
  }

  lemma GroupGrows(m: Measure, rows: seq<Draft>, d: Draft, k: GroupKey)
    requires IsReported(m)
    ensures Reported(m, Aggregate(rows + [d], k)) == if KeyOf(d) == k
              then Add(Reported(m, Aggregate(rows, k)), Value(m, d)) else Reported(m, Aggregate(rows, k))
  {
    hide KeyOf, Value;
    assert (rows + [d])[..|rows|] == rows;
    var own := InGroup(rows, k);
    if KeyOf(d) == k { assert (own + [d])[..|own|] == own; }
  }

  lemma {:induction false} NothingReported(m: Measure, keys: seq<GroupKey>, currencyHk: string)
    requires IsReported(m)
    ensures PortfolioTotal(m, GroupBy([], keys), currencyHk) == None
  {
    if keys != [] {
      NothingReported(m, keys[..|keys| - 1], currencyHk);
      assert GroupBy([], keys)[..|keys| - 1] == GroupBy([], keys[..|keys| - 1]);
    }
  }

  lemma OfCurrencyTotal(m: Measure, rows: seq<Draft>, d: Draft, currencyHk: string)
    ensures Total(m, OfCurrency(rows + [d], currencyHk)) ==
              Add(Total(m, OfCurrency(rows, currencyHk)), if KeyOf(d).currencyHk == currencyHk then Value(m, d)
                  else None)
  {
    hide KeyOf, Value;
    assert (rows + [d])[..|rows|] == rows;
    var own := OfCurrency(rows, currencyHk);
    assert (own + [d])[..|own|] == own;
  }

  lemma {:induction false} GroupsConserve(m: Measure, rows: seq<Draft>, keys: seq<GroupKey>, currencyHk: string)
    requires IsReported(m) && forall i, j | 0 <= i < j < |keys| :: keys[i] != keys[j]
    requires forall d | d in rows :: KeyOf(d) in keys
    ensures PortfolioTotal(m, GroupBy(rows, keys), currencyHk) == Total(m, OfCurrency(rows, currencyHk))
  {
    hide KeyOf, Value, GroupBy, PortfolioTotal, Add;
    if rows == [] {
      NothingReported(m, keys, currencyHk);
    } else {
      var front, d := rows[..|rows| - 1], rows[|rows| - 1];
      assert d in rows;
      GroupsConserve(m, front, keys, currencyHk);
      OneGroupReports(m, front, d, keys, currencyHk);
      assert front + [d] == rows;
      hide Total, OfCurrency, Reported, IsReported;
      OfCurrencyTotal(m, front, d, currencyHk);
    }
  }

  /** Loan counts, counts by status and principal sums of the portfolio equal the fact's, currency by currency. */
  lemma PortfolioReconciles(v: Vault, m: Measure, currencyHk: string)
    requires VaultOk(v) && IsReported(m)
    ensures PortfolioTotal(m, PortfolioOf(v), currencyHk) == Total(m, OfCurrency(Loans(v), currencyHk))
  {
    RowsAreLoans(v);
    KeysExact(Rows(v));
    hide Rows, Loans, KeyOf, GroupBy, PortfolioTotal, Total, OfCurrency, Keys, VaultOk;
    GroupsConserve(m, Rows(v), Keys(Rows(v)), currencyHk);
  }

  // ---------------------------------------------------------------- every row, counted and summed

  /** The positions of the loans of a customer in a currency. */
  ghost function LoansOf(loans: seq<Draft>, customerHk: string, currencyHk: string): set<nat> {
    set i: nat | i < |loans| && Customer in loans[i].joined && Currency in loans[i].joined
                 && loans[i].joined[Customer].hk == customerHk && loans[i].joined[Currency].hk == currencyHk
  }

  /** Those among them with a status code. */
  ghost function CodedOf(loans: seq<Draft>, own: set<nat>, code: string): set<nat> {
    set i | i in own && i < |loans| && Details in loans[i].joined
            && loans[i].joined[Details].row.body.LoanBody? && loans[i].joined[Details].row.body.statusCode == code
  }

  /** Those among them with a principal. */
  ghost function PricedOf(loans: seq<Draft>, own: set<nat>): set<nat> {
    set i | i in own && i < |loans| && Details in loans[i].joined
            && loans[i].joined[Details].row.body.LoanBody? && loans[i].joined[Details].row.body.principal.Some?
  }

  /** The running sum over all positions, which the loans with a principal advance by it. */
  ghost predicate RunningSum(loans: seq<Draft>, own: set<nat>, sums: seq<int>) {
    && |sums| == |loans| + 1 && sums[0] == 0
    && forall i: nat | i < |loans| ::
         sums[i + 1] - sums[i] ==
           if i in own && Details in loans[i].joined && loans[i].joined[Details].row.body.LoanBody?
              && loans[i].joined[Details].row.body.principal.Some?
           then loans[i].joined[Details].row.body.principal.value else 0
  }

  /** The positions of a group, by its key. */
  ghost function Positions(rows: seq<Draft>, k: GroupKey): set<nat> {
    set i: nat | i < |rows| && KeyOf(rows[i]) == k
  }

  lemma PositionsGrow(rows: seq<Draft>, k: GroupKey)
    requires rows != []
    ensures var front, last := rows[..|rows| - 1], |rows| - 1;
            Positions(rows, k) == if KeyOf(rows[last]) == k then Positions(front, k) + {last} else Positions(front, k)
  {
    hide KeyOf;
  }

  lemma InGroupGrows(m: Measure, rows: seq<Draft>, k: GroupKey)
    requires rows != []
    ensures var front, last := rows[..|rows| - 1], rows[|rows| - 1];
            Total(m, InGroup(rows, k)) == if KeyOf(last) == k then Add(Total(m, InGroup(front, k)), Value(m, last))
              else Total(m, InGroup(front, k))
  {
    hide KeyOf, Value;
    var front, last := rows[..|rows| - 1], rows[|rows| - 1];
    var own := InGroup(front, k);
    if KeyOf(last) == k { assert (own + [last])[..|own|] == own; }
  }

  lemma {:induction false} CountOfGroup(rows: seq<Draft>, k: GroupKey)
    ensures Total(LoanCount, InGroup(rows, k)) == if Positions(rows, k) == {} then None else Some(|Positions(rows, k)|)
  {
    hide KeyOf;
    if rows != [] {
      CountOfGroup(rows[..|rows| - 1], k);
      PositionsGrow(rows, k);
      InGroupGrows(LoanCount, rows, k);
    }
  }

  lemma NothingCoded(k: GroupKey, code: string)
    ensures Total(WithStatus(code), InGroup([], k)).None? && Positions([], k) == {}
  {
  }

  lemma {:induction false} CodesOfGroup(rows: seq<Draft>, k: GroupKey, code: string)
    requires code != ""
    ensures Total(WithStatus(code), InGroup(rows, k)) ==
              if Positions(rows, k) == {} then None else Some(|CodedOf(rows, Positions(rows, k), code)|)
  {
    if rows == [] {
      NothingCoded(k, code);
    } else {
      var n := |rows| - 1;
      var front := rows[..n];
      hide KeyOf, InGroup, Total, Positions, CodedOf, StatusCode;
      CodesOfGroup(front, k, code);
      PositionsGrow(rows, k);
      InGroupGrows(WithStatus(code), rows, k);
      CodedGrow(rows, k, code);
      NoneCoded(front, code);
    }
  }

  lemma NoneCoded(rows: seq<Draft>, code: string)
    ensures CodedOf(rows, {}, code) == {}
  {
  }

  lemma CodedGrow(rows: seq<Draft>, k: GroupKey, code: string)
    requires rows != [] && code != ""
    ensures var n := |rows| - 1;
            var before := CodedOf(rows[..n], Positions(rows[..n], k), code);
            var after := CodedOf(rows, Positions(rows, k), code);
            && after == (if KeyOf(rows[n]) == k && StatusCode(rows[n]) == code then before + {n} else before)
            && |after| == |before| + if KeyOf(rows[n]) == k && StatusCode(rows[n]) == code then 1 else 0
  {
    hide KeyOf;
    PositionsGrow(rows, k);
  }

  lemma NothingPriced(k: GroupKey)
    ensures RunningSum([], Positions([], k), [0]) && PricedOf([], Positions([], k)) == {}
    ensures Total(Principal, InGroup([], k)).None?
  {
  }

  lemma {:induction false} SumOfGroup(rows: seq<Draft>, k: GroupKey) returns (sums: seq<int>)
    ensures RunningSum(rows, Positions(rows, k), sums) && |sums| == |rows| + 1
    ensures Total(Principal, InGroup(rows, k)) ==
              if PricedOf(rows, Positions(rows, k)) == {} then None else Some(sums[|rows|])
    ensures PricedOf(rows, Positions(rows, k)) == {} ==> sums[|rows|] == 0
  {
    hide KeyOf, RunningSum, PricedOf, Positions, Total, InGroup, Value;
    if rows == [] {
      NothingPriced(k);
      sums := [0];
    } else {
      var last := |rows| - 1;
      var before := SumOfGroup(rows[..last], k);
      InGroupGrows(Principal, rows, k);
      var value := if KeyOf(rows[last]) == k then Value(Principal, rows[last]) else None;
      SumGrows(rows, k, before, value);
      sums := before + [before[last] + if value.Some? then value.value else 0];
    }
  }

  lemma SumGrows(rows: seq<Draft>, k: GroupKey, before: seq<int>, value: Option<int>)
    requires rows != [] && RunningSum(rows[..|rows| - 1], Positions(rows[..|rows| - 1], k), before)
    requires value == if KeyOf(rows[|rows| - 1]) == k then Value(Principal, rows[|rows| - 1]) else None
    ensures |before| == |rows|
    ensures RunningSum(rows, Positions(rows, k),
                       before + [before[|rows| - 1] + if value.Some? then value.value else 0])
    ensures PricedOf(rows, Positions(rows, k)) ==
              PricedOf(rows[..|rows| - 1], Positions(rows[..|rows| - 1], k))
              + (if value.Some? then {|rows| - 1} else {})
  {
    var front, last := rows[..|rows| - 1], |rows| - 1;
    var sums := before + [before[last] + if value.Some? then value.value else 0];
    PositionsGrow(rows, k);
    hide KeyOf, Positions;
    assert last !in Positions(front, k) by { PositionsAreIn(front, k); }
    PositionsAreIn(front, k);
    forall i: nat | i < |rows|
      ensures sums[i + 1] - sums[i] ==
                if i in Positions(rows, k) && Details in rows[i].joined && rows[i].joined[Details].row.body.LoanBody?
                   && rows[i].joined[Details].row.body.principal.Some?
                then rows[i].joined[Details].row.body.principal.value else 0
    {
      if i < last { assert rows[i] == front[i] && sums[i + 1] - sums[i] == before[i + 1] - before[i]; }
    }
  }

  lemma PositionsAreIn(rows: seq<Draft>, k: GroupKey)
    ensures forall i | i in Positions(rows, k) :: i < |rows|
  {
  }

  /** A group is the loans of its customer and currency. */
  lemma GroupIsLoansOf(v: Vault, d: Draft)
    requires VaultOk(v) && d in Loans(v)
    ensures Positions(Loans(v), KeyOf(d)) == LoansOf(Loans(v), KeyOf(d).customerHk, KeyOf(d).currencyHk)
  {
    hide Loans, VaultOk, KeyOf;
    var loans, k := Loans(v), KeyOf(d);
    forall i: nat | i < |loans|
      ensures KeyOf(loans[i]) == k <==> i in LoansOf(loans, k.customerHk, k.currencyHk)
    {
      assert loans[i] in loans;
      KeyOfLoan(v, loans[i]);
      if i in LoansOf(loans, k.customerHk, k.currencyHk) { KeyFollowsFromHashes(v, d, loans[i]); }
    }
  }

  /** What the key of a loan is made of. */
  lemma KeyOfLoan(v: Vault, d: Draft)
    requires d in Loans(v)
    ensures Customer in d.joined && Currency in d.joined
    ensures KeyOf(d).customerHk == d.joined[Customer].hk && KeyOf(d).customerId == d.joined[Customer].bk
    ensures KeyOf(d).currencyHk == d.joined[Currency].hk && KeyOf(d).currencyCode == d.joined[Currency].bk
    ensures d.joined[Customer].row.body.CustomerBody? ==>
              KeyOf(d).customerType == d.joined[Customer].row.body.customerType
              && KeyOf(d).segment == d.joined[Customer].row.body.segment
  {
    LoansAreExact(v, d);
    hide Loans, Dim, Fits, Base, Current, Hub;
  }

  /** The counts and the sum of a row, over the positions of its loans. */
  ghost predicate CountsAndSums(p: PortfolioRow, loans: seq<Draft>, own: set<nat>) {
    && own != {} && p.loans == Some(|own|)
    && p.active == Some(|CodedOf(loans, own, "ACTIVE")|)
    && p.delinquent == Some(|CodedOf(loans, own, "DELINQUENT")|)
    && p.closed == Some(|CodedOf(loans, own, "CLOSED")|)
    && exists sums :: RunningSum(loans, own, sums)
         && p.principal == if PricedOf(loans, own) == {} then None else Some(sums[|loans|])
  }

  /** The columns of a row that are those of the customer and the currency behind one of its loans. */
  predicate ShowsKeys(p: PortfolioRow, d: Draft) {
    && Customer in d.joined && d.joined[Customer].bk == p.key.customerId
    && Currency in d.joined && d.joined[Currency].bk == p.key.currencyCode
    && (d.joined[Customer].row.body.CustomerBody? ==>
         d.joined[Customer].row.body.customerType == p.key.customerType
         && d.joined[Customer].row.body.segment == p.key.segment)
  }

  /**
   Each portfolio row counts the loans of its customer and currency, and those of each status, and adds their
   principals up, null if none has one; its attributes are those of the customer and currency behind its loans.
   */
  lemma PortfolioCountsAndSums(v: Vault, p: PortfolioRow)
    requires VaultOk(v) && p in PortfolioOf(v)
    ensures CountsAndSums(p, Loans(v), LoansOf(Loans(v), p.key.customerHk, p.key.currencyHk))
    ensures forall i | i in LoansOf(Loans(v), p.key.customerHk, p.key.currencyHk) && i < |Loans(v)| ::
              ShowsKeys(p, Loans(v)[i])
  {
    hide Loans, VaultOk, Keys, InGroup, Total, GroupBy, PortfolioOf, KeyOf, CodedOf, PricedOf, Positions, RunningSum;
    hide LoansOf;
    var loans := Loans(v);
    var n :| 0 <= n < |PortfolioOf(v)| && PortfolioOf(v)[n] == p;
    RowIsAggregate(v, n);
    var d := LoanOfKey(loans, n);
    CountOfGroup(loans, p.key);
    CodesOfGroup(loans, p.key, "ACTIVE");
    CodesOfGroup(loans, p.key, "DELINQUENT");
    CodesOfGroup(loans, p.key, "CLOSED");
    var sums := SumOfGroup(loans, p.key);
    GroupIsLoansOf(v, d);
    OwnPosition(loans, d);
    forall i | i in LoansOf(loans, p.key.customerHk, p.key.currencyHk) && i < |loans| ensures KeyOf(loans[i]) == p.key {
      PositionHasKey(loans, p.key, i);
    }
    forall i: nat | i < |loans| {
      KeyOfLoan(v, loans[i]);
    }
  }

  lemma OwnPosition(loans: seq<Draft>, d: Draft)
    requires d in loans
    ensures Positions(loans, KeyOf(d)) != {}
  {
    hide KeyOf;
    var i: nat :| i < |loans| && loans[i] == d;
    assert i in Positions(loans, KeyOf(d));
  }

  lemma PositionHasKey(loans: seq<Draft>, k: GroupKey, i: nat)
    requires i < |loans|
    ensures i in Positions(loans, k) <==> KeyOf(loans[i]) == k
  {
    hide KeyOf;
  }

  lemma RowIsAggregate(v: Vault, n: nat)
    requires VaultOk(v) && n < |PortfolioOf(v)|
    ensures n < |Keys(Loans(v))| && PortfolioOf(v)[n] == Aggregate(Loans(v), Keys(Loans(v))[n])
  {
    RowsAreLoans(v);
    hide Rows, Loans, Keys, Aggregate;
  }

  /** And no loan is without a row. */
  lemma EveryLoanHasItsRow(v: Vault, i: nat)
    requires VaultOk(v) && i < |Loans(v)|
    ensures exists p :: p in PortfolioOf(v) && i in LoansOf(Loans(v), p.key.customerHk, p.key.currencyHk)
  {
    hide Loans, VaultOk, Keys, PortfolioOf, KeyOf, Rows, Positions, LoansOf;
    var loans := Loans(v);
    RowsAreLoans(v);
    KeysExact(loans);
    PortfolioKeys(v);
    assert loans[i] in loans;
    GroupIsLoansOf(v, loans[i]);
    PositionHasKey(loans, KeyOf(loans[i]), i);
    assert KeyOf(loans[i]) in Keys(loans) by {
      var d := loans[i];
      assert d in loans && KeyOf(d) == KeyOf(loans[i]);
    }
    var n :| 0 <= n < |Keys(loans)| && Keys(loans)[n] == KeyOf(loans[i]);
    assert PortfolioOf(v)[n] in PortfolioOf(v);
  }
}
