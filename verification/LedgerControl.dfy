/**
 The source-ledger control frozen into a manifest: which committed source transactions the
 selected Bronze events belong to, and which events no listed transaction accounts for.
 */
module LedgerControl {
  import opened Wrappers
  import opened Ordering
  import opened Manifest
  import opened ManifestValidation

  datatype TxField = NoTx | BadTx | Tx(id: int)

  /** A Bronze object body, reduced to what the summary reads; `lsn` is None when not an integer. */
  datatype Body = NotJson | Event(metadataKey: string, table: string, operation: string, tx: TxField, lsn: Option<int>)

  datatype TxSummary = TxSummary(txid: int, count: int, lsnLow: int, lsnHigh: int)

  datatype Summary = Summary(transactions: seq<TxSummary>, untracked: int,
                             tableCounts: map<string, int>, operationCounts: map<string, int>)

  /** A COMPLETED row of the workload ledger with all its control columns set. */
  datatype LedgerRow = LedgerRow(runId: string, eventKey: string, expected: int, txid: int,
                                 boundaryLsn: string, boundary: int)

  // ---------------------------------------------------------------- counting events

  predicate Readable(key: string, body: Body) {
    body.Event? && body.metadataKey == key && (body.tx.NoTx? || (body.tx.Tx? && body.lsn.Some?))
  }

  predicate AllReadable(bodies: map<string, Body>, objects: seq<BronzeObject>) {
    forall i | 0 <= i < |objects| ::
      objects[i].objectKey in bodies && Readable(objects[i].objectKey, bodies[objects[i].objectKey])
  }

  predicate IsEvent(body: Body) {
    body.Event? && (body.tx.NoTx? || (body.tx.Tx? && body.lsn.Some?))
  }

  type Readout = body: Body | IsEvent(body) witness Event("", "", "", NoTx, None)

  function Events(bodies: map<string, Body>, objects: seq<BronzeObject>): (events: seq<Readout>)
    requires AllReadable(bodies, objects)
    ensures |events| == |objects|
  {
    seq(|objects|, i requires 0 <= i < |objects| => bodies[objects[i].objectKey])
  }

  function CountTx(events: seq<Readout>, txid: int): nat {
    if events == [] then 0 else
    CountTx(events[..|events| - 1], txid) + if events[|events| - 1].tx == Tx(txid) then 1 else 0
  }

  function CountUntracked(events: seq<Readout>): nat {
    if events == [] then 0 else
    CountUntracked(events[..|events| - 1]) + if events[|events| - 1].tx.NoTx? then 1 else 0
  }

  function LowLsn(events: seq<Readout>, txid: int): Option<int> {
    if events == [] then None else
    var low, e := LowLsn(events[..|events| - 1], txid), events[|events| - 1];
    if e.tx != Tx(txid) then low
    else if low.None? || e.lsn.value < low.value then e.lsn else low
  }

  function HighLsn(events: seq<Readout>, txid: int): Option<int> {
    if events == [] then None else
    var high, e := HighLsn(events[..|events| - 1], txid), events[|events| - 1];
    if e.tx != Tx(txid) then high
    else if high.None? || e.lsn.value > high.value then e.lsn else high
  }

  function Increment(m: map<string, int>, key: string): map<string, int> {
    m[key := (if key in m then m[key] else 0) + 1]
  }

  function TableCounts(events: seq<Readout>): map<string, int> {
    if events == [] then map[] else Increment(TableCounts(events[..|events| - 1]), events[|events| - 1].table)
  }

  function OperationCounts(events: seq<Readout>): map<string, int> {
    if events == [] then map[] else Increment(OperationCounts(events[..|events| - 1]), events[|events| - 1].operation)
  }

  /** Transaction ids in order of first appearance. */
  function TxIds(events: seq<Readout>): seq<int> {
    if events == [] then [] else
    var ids, e := TxIds(events[..|events| - 1]), events[|events| - 1];
    if e.tx.Tx? && e.tx.id !in ids then ids + [e.tx.id] else ids
  }

  predicate IntLe(a: int, b: int) { a <= b }

  // ---------------------------------------------------------------- summarize_bronze_transactions

  /** Each observed transaction with its event count and LSN range. */
  ghost predicate SummaryOf(s: TxSummary, events: seq<Readout>) {
    && s.count == CountTx(events, s.txid) && LowLsn(events, s.txid) == Some(s.lsnLow)
    && HighLsn(events, s.txid) == Some(s.lsnHigh)
  }

  ghost predicate SummaryExact(s: Summary, events: seq<Readout>) {
    && (forall i | 0 <= i < |s.transactions| :: SummaryOf(s.transactions[i], events))
    && (forall i, j | 0 <= i < j < |s.transactions| :: s.transactions[i].txid < s.transactions[j].txid)
    && (forall t :: CountTx(events, t) > 0 <==> exists i | 0 <= i < |s.transactions| :: s.transactions[i].txid == t)
    && s.untracked == CountUntracked(events)
    && s.tableCounts == TableCounts(events) && s.operationCounts == OperationCounts(events)
  }

  ghost predicate Accumulated(keys: seq<int>, acc: map<int, TxSummary>, events: seq<Readout>) {
    && keys == TxIds(events)
    && (forall t :: t in acc <==> t in keys)
    && (forall t | t in acc :: acc[t].txid == t && SummaryOf(acc[t], events))
    && (forall t | t !in acc :: CountTx(events, t) == 0 && LowLsn(events, t).None? && HighLsn(events, t).None?)
  }

  /** One event added to the dictionary of summaries. */
  function Absorb(acc: map<int, TxSummary>, txid: int, lsn: int): map<int, TxSummary> {
    if txid in acc then
      var s := acc[txid];
      acc[txid := TxSummary(txid, s.count + 1, if lsn < s.lsnLow then lsn else s.lsnLow,
                            if lsn > s.lsnHigh then lsn else s.lsnHigh)]
    else acc[txid := TxSummary(txid, 1, lsn, lsn)]
  }

  lemma AccumulatesTracked(keys: seq<int>, acc: map<int, TxSummary>, events: seq<Readout>, e: Readout)
    requires Accumulated(keys, acc, events) && e.tx.Tx?
    ensures Accumulated(if e.tx.id in acc then keys else keys + [e.tx.id], Absorb(acc, e.tx.id, e.lsn.value),
                        events + [e])
  {
    var all := events + [e];
    assert all[..|events|] == events;
    forall t ensures CountTx(all, t) == CountTx(events, t) + (if t == e.tx.id then 1 else 0)
             ensures t != e.tx.id ==> LowLsn(all, t) == LowLsn(events, t) && HighLsn(all, t) == HighLsn(events, t)
    {
    }
  }

  lemma AccumulatesUntracked(keys: seq<int>, acc: map<int, TxSummary>, events: seq<Readout>, e: Readout)
    requires Accumulated(keys, acc, events) && e.tx.NoTx?
    ensures Accumulated(keys, acc, events + [e])
  {
    var all := events + [e];
    assert all[..|events|] == events;
    forall t
      ensures CountTx(all, t) == CountTx(events, t) && LowLsn(all, t) == LowLsn(events, t)
              && HighLsn(all, t) == HighLsn(events, t)
    {
    }
  }

  lemma {:induction false} TxIdsExact(events: seq<Readout>)
    ensures Unique(TxIds(events))
    ensures forall t :: t in TxIds(events) <==> CountTx(events, t) > 0
  {
    if events != [] {
      TxIdsExact(events[..|events| - 1]);
    }
  }

  /** The accumulators after the given events. */
  ghost predicate Summarized(keys: seq<int>, acc: map<int, TxSummary>, untracked: int, tables: map<string, int>,
                             operations: map<string, int>, events: seq<Readout>)
  {
    && Accumulated(keys, acc, events) && untracked == CountUntracked(events)
    && tables == TableCounts(events) && operations == OperationCounts(events)
  }

  lemma SummarizesOneMore(keys: seq<int>, acc: map<int, TxSummary>, untracked: int, tables: map<string, int>,
                          operations: map<string, int>, events: seq<Readout>, e: Readout)
    requires Summarized(keys, acc, untracked, tables, operations, events)
    ensures e.tx.NoTx? ==> Summarized(keys, acc, untracked + 1, Increment(tables, e.table),
                                      Increment(operations, e.operation), events + [e])
    ensures e.tx.Tx? ==> Summarized(if e.tx.id in acc then keys else keys + [e.tx.id],
                                    Absorb(acc, e.tx.id, e.lsn.value), untracked, Increment(tables, e.table),
                                    Increment(operations, e.operation), events + [e])
  {
    assert (events + [e])[..|events|] == events;
    if e.tx.NoTx? { AccumulatesUntracked(keys, acc, events, e); } else { AccumulatesTracked(keys, acc, events, e); }
  }

  lemma EventsGrow(bodies: map<string, Body>, objects: seq<BronzeObject>, i: nat)
    requires i < |objects| && AllReadable(bodies, objects[..i])
    requires objects[i].objectKey in bodies && Readable(objects[i].objectKey, bodies[objects[i].objectKey])
    ensures AllReadable(bodies, objects[..i + 1])
    ensures Events(bodies, objects[..i + 1]) == Events(bodies, objects[..i]) + [bodies[objects[i].objectKey]]
  {
  }

  method SummarizeBronzeTransactions(bodies: map<string, Body>, objects: seq<BronzeObject>)
    returns (r: Result<Summary, ManifestError>)
    ensures r.Ok? <==> AllReadable(bodies, objects)
    ensures r.Ok? ==> SummaryExact(r.value, Events(bodies, objects))
  {
    hide Summarized, Accumulated;
    var keys: seq<int>, acc: map<int, TxSummary> := [], map[];
    var untracked := 0;
    var tables: map<string, int>, operations: map<string, int> := map[], map[];
    NothingSummarized();
    var i := 0;
    while i < |objects|
      invariant 0 <= i <= |objects| && AllReadable(bodies, objects[..i])
      invariant Summarized(keys, acc, untracked, tables, operations, Events(bodies, objects[..i]))
    {
      var key := objects[i].objectKey;
      if key !in bodies {
        return Err(Missing);
      }
      var body := bodies[key];
      if !Readable(key, body) {
        return Err(Malformed);
      }
      EventsGrow(bodies, objects, i);
      SummarizesOneMore(keys, acc, untracked, tables, operations, Events(bodies, objects[..i]), body);
      tables, operations := Increment(tables, body.table), Increment(operations, body.operation);
      if body.tx.NoTx? {
        untracked := untracked + 1;
      } else {
        keys := if body.tx.id in acc then keys else keys + [body.tx.id];
        acc := Absorb(acc, body.tx.id, body.lsn.value);
      }
      i := i + 1;
    }
    assert objects[..i] == objects;
    var sorted := Sort(IntLe, keys);
    KeysSorted(keys, acc, untracked, tables, operations, Events(bodies, objects));
    var transactions := seq(|sorted|, k requires 0 <= k < |sorted| && sorted[k] in acc => acc[sorted[k]]);
    SortedSummaries(sorted, acc, Events(bodies, objects), transactions);
    r := Ok(Summary(transactions, untracked, tables, operations));
  }

  lemma NothingSummarized()
    ensures Summarized([], map[], 0, map[], map[], [])
  {
  }

  lemma KeysSorted(keys: seq<int>, acc: map<int, TxSummary>, untracked: int, tables: map<string, int>,
                   operations: map<string, int>, events: seq<Readout>)
    requires Summarized(keys, acc, untracked, tables, operations, events)
    ensures Unique(Sort(IntLe, keys)) && SortedBy(IntLe, Sort(IntLe, keys))
    ensures forall k | 0 <= k < |Sort(IntLe, keys)| :: Sort(IntLe, keys)[k] in acc
    ensures forall t :: t in Sort(IntLe, keys) <==> CountTx(events, t) > 0
    ensures forall t | t in acc :: acc[t].txid == t && SummaryOf(acc[t], events)
    ensures untracked == CountUntracked(events) && tables == TableCounts(events)
            && operations == OperationCounts(events)
  {
    TxIdsExact(events);
    SortIsOrderedPermutation(IntLe, keys);
    SameMultisetSameElements(Sort(IntLe, keys), keys);
    forall k | 0 <= k < |Sort(IntLe, keys)| ensures Sort(IntLe, keys)[k] in acc {
      assert Sort(IntLe, keys)[k] in keys;
    }
  }

  lemma SortedSummaries(sorted: seq<int>, acc: map<int, TxSummary>, events: seq<Readout>, transactions: seq<TxSummary>)
    requires Unique(sorted) && SortedBy(IntLe, sorted)
    requires forall k | 0 <= k < |sorted| :: sorted[k] in acc
    requires forall t :: t in sorted <==> CountTx(events, t) > 0
    requires forall t | t in acc :: acc[t].txid == t && SummaryOf(acc[t], events)
    requires |transactions| == |sorted| && forall k | 0 <= k < |sorted| :: transactions[k] == acc[sorted[k]]
    ensures forall i | 0 <= i < |transactions| :: SummaryOf(transactions[i], events)
    ensures forall i, j | 0 <= i < j < |transactions| :: transactions[i].txid < transactions[j].txid
    ensures forall t :: CountTx(events, t) > 0 <==> exists i | 0 <= i < |transactions| :: transactions[i].txid == t
  {
    forall k | 0 <= k < |sorted| ensures transactions[k].txid == sorted[k] {
      assert sorted[k] in acc;
    }
    forall i, j | 0 <= i < j < |transactions| ensures transactions[i].txid < transactions[j].txid {
      assert IntLe(sorted[i], sorted[j]) && sorted[i] != sorted[j];
    }
    forall t ensures CountTx(events, t) > 0 <==> exists i | 0 <= i < |transactions| :: transactions[i].txid == t {
      if t in sorted {
        var k :| 0 <= k < |sorted| && sorted[k] == t;
        assert transactions[k].txid == t;
      }
    }
  }

  // ---------------------------------------------------------------- _build_source_control

  predicate RowLe(a: LedgerRow, b: LedgerRow) { a.txid <= b.txid }

  /** Ledger rows past the boundary of every published batch. */
  function PastBoundary(ledger: seq<LedgerRow>, previous: Option<int>): seq<LedgerRow> {
    if ledger == [] then [] else
    var rest, row := PastBoundary(ledger[..|ledger| - 1], previous), ledger[|ledger| - 1];
    if previous.None? || row.boundary > previous.value then rest + [row] else rest
  }

  function MaxObservedBoundary(rows: seq<LedgerRow>, events: seq<Readout>): Option<int> {
    if rows == [] then None else
    var high, row := MaxObservedBoundary(rows[..|rows| - 1], events), rows[|rows| - 1];
    if CountTx(events, row.txid) > 0 && (high.None? || row.boundary > high.value) then Some(row.boundary) else high
  }

  function UpTo(rows: seq<LedgerRow>, high: Option<int>): seq<LedgerRow> {
    if rows == [] then [] else
    var rest, row := UpTo(rows[..|rows| - 1], high), rows[|rows| - 1];
    if high.Some? && row.boundary <= high.value then rest + [row] else rest
  }

  function TransactionOf(row: LedgerRow, events: seq<Readout>): Transaction {
    var observed := CountTx(events, row.txid);
    Transaction(row.txid, row.runId, row.eventKey, row.boundaryLsn, row.boundary, row.expected, observed,
                LowLsn(events, row.txid), HighLsn(events, row.txid), if row.expected == observed then PASS else FAIL)
  }

  function TransactionsOf(rows: seq<LedgerRow>, events: seq<Readout>): (ts: seq<Transaction>)
    ensures |ts| == |rows|
    ensures forall i | 0 <= i < |rows| :: ts[i] == TransactionOf(rows[i], events)
  {
    if rows == [] then [] else
    TransactionsOf(rows[..|rows| - 1], events) + [TransactionOf(rows[|rows| - 1], events)]
  }

  function Ids(rows: seq<LedgerRow>): set<int> {
    set i | 0 <= i < |rows| :: rows[i].txid
  }

  /** Events of transactions outside the given ids. */
  function CountOutside(events: seq<Readout>, ids: set<int>): nat {
    if events == [] then 0 else
    var e := events[|events| - 1];
    CountOutside(events[..|events| - 1], ids) + if e.tx.Tx? && e.tx.id !in ids then 1 else 0
  }

  /** The rows of the interval: past the published boundary, up to the last observed transaction. */
  function LedgerInterval(previous: Option<int>, ledger: seq<LedgerRow>, events: seq<Readout>): seq<LedgerRow> {
    var eligible := Sort(RowLe, PastBoundary(ledger, previous));
    UpTo(eligible, MaxObservedBoundary(eligible, events))
  }

  function SourceControlFor(previous: Option<int>, ledger: seq<LedgerRow>, events: seq<Readout>): SourceControl {
    var eligible := Sort(RowLe, PastBoundary(ledger, previous));
    var high := MaxObservedBoundary(eligible, events);
    var rows := UpTo(eligible, high);
    var ts := TransactionsOf(rows, events);
    SourceControl("postgres-workload-ledger-v1", "postgres_lsn", previous, if high.Some? then high else previous,
                  SumExpected(ts), SumObserved(ts), CountUntracked(events) + CountOutside(events, Ids(rows)),
                  TableCounts(events), OperationCounts(events), ts)
  }

  /** Lookup in the summary by transaction id. */
  function Lookup(transactions: seq<TxSummary>, txid: int): Option<TxSummary> {
    if transactions == [] then None else
    if transactions[|transactions| - 1].txid == txid then Some(transactions[|transactions| - 1])
    else Lookup(transactions[..|transactions| - 1], txid)
  }

  lemma {:induction false} LookupExact(transactions: seq<TxSummary>, txid: int)
    ensures match Lookup(transactions, txid)
            case Some(s) => s in transactions && s.txid == txid
            case None => forall i | 0 <= i < |transactions| :: transactions[i].txid != txid
  {
    if transactions != [] {
      LookupExact(transactions[..|transactions| - 1], txid);
    }
  }

  lemma {:induction false} UnobservedHasNoRange(events: seq<Readout>, txid: int)
    ensures CountTx(events, txid) == 0 ==> LowLsn(events, txid).None? && HighLsn(events, txid).None?
  {
    if events != [] { UnobservedHasNoRange(events[..|events| - 1], txid); }
  }

  lemma LookupGivesTransaction(summary: Summary, events: seq<Readout>, row: LedgerRow)
    requires SummaryExact(summary, events)
    ensures var found := Lookup(summary.transactions, row.txid);
            && (found.Some? <==> CountTx(events, row.txid) > 0)
            && (found.Some? ==> SummaryOf(found.value, events) && found.value.txid == row.txid)
            && (found.None? ==> LowLsn(events, row.txid).None? && HighLsn(events, row.txid).None?)
  {
    LookupExact(summary.transactions, row.txid);
    UnobservedHasNoRange(events, row.txid);
  }

  /** `_ledger_rows_through_observed_boundary`. */
  method LedgerRowsThroughObservedBoundary(rows: seq<LedgerRow>, summary: Summary, ghost events: seq<Readout>)
    returns (through: seq<LedgerRow>, high: Option<int>)
    requires SummaryExact(summary, events)
    ensures high == MaxObservedBoundary(rows, events) && through == UpTo(rows, high)
  {
    high := None;
    for i := 0 to |rows|
      invariant high == MaxObservedBoundary(rows[..i], events)
    {
      assert rows[..i + 1][..i] == rows[..i];
      LookupGivesTransaction(summary, events, rows[i]);
      if Lookup(summary.transactions, rows[i].txid).Some? && (high.None? || rows[i].boundary > high.value) {
        high := Some(rows[i].boundary);
      }
    }
    assert rows[..|rows|] == rows;
    through := UpTo(rows, high);
  }

  lemma IdsGrow(rows: seq<LedgerRow>, i: nat)
    requires i < |rows|
    ensures Ids(rows[..i + 1]) == Ids(rows[..i]) + {rows[i].txid}
  {
    var grown, front := rows[..i + 1], rows[..i];
    forall t ensures t in Ids(grown) <==> t in Ids(front) + {rows[i].txid} {
      if t in Ids(front) {
        var k :| 0 <= k < i && front[k].txid == t;
        assert grown[k].txid == t;
      }
      assert grown[i].txid == rows[i].txid;
    }
  }

  /** One control row per ledger row of the interval, and the ids already accounted for. */
  method ControlRows(rows: seq<LedgerRow>, summary: Summary, ghost events: seq<Readout>)
    returns (transactions: seq<Transaction>, ledgerIds: set<int>)
    requires SummaryExact(summary, events)
    ensures transactions == TransactionsOf(rows, events) && ledgerIds == Ids(rows)
  {
    transactions, ledgerIds := [], {};
    hide SummaryExact, CountTx, LowLsn, HighLsn, Lookup;
    for i := 0 to |rows|
      invariant transactions == TransactionsOf(rows[..i], events)
      invariant ledgerIds == Ids(rows[..i])
    {
      assert rows[..i + 1][..i] == rows[..i];
      IdsGrow(rows, i);
      var row := rows[i];
      LookupGivesTransaction(summary, events, row);
      var found := Lookup(summary.transactions, row.txid);
      var observed := if found.Some? then found.value.count else 0;
      ledgerIds := ledgerIds + {row.txid};
      transactions := transactions + [
        Transaction(row.txid, row.runId, row.eventKey, row.boundaryLsn, row.boundary, row.expected, observed,
                    if found.Some? then Some(found.value.lsnLow) else None,
                    if found.Some? then Some(found.value.lsnHigh) else None,
                    if row.expected == observed then PASS else FAIL)];
    }
    assert rows[..|rows|] == rows;
  }

  /** The ledger query, the boundary cut, one control row per ledger row, and the leftover count. */
  method BuildSourceControl(previous: Option<int>, ledger: seq<LedgerRow>, bodies: map<string, Body>,
                            objects: seq<BronzeObject>)
    returns (r: Result<SourceControl, ManifestError>)
    ensures r.Ok? <==> AllReadable(bodies, objects)
    ensures r.Ok? ==> r.value == SourceControlFor(previous, ledger, Events(bodies, objects))
  {
    var summarized := SummarizeBronzeTransactions(bodies, objects);
    if summarized.Err? {
      return Err(summarized.error);
    }
    var summary := summarized.value;
    ghost var events := Events(bodies, objects);
    var eligible := Sort(RowLe, PastBoundary(ledger, previous));
    var rows, high := LedgerRowsThroughObservedBoundary(eligible, summary, events);
    var transactions, ledgerIds := ControlRows(rows, summary, events);
    OutsideIsCounted(summary, events, ledgerIds);
    r := Ok(SourceControl("postgres-workload-ledger-v1", "postgres_lsn", previous,
                          if high.Some? then high else previous, SumExpected(transactions), SumObserved(transactions),
                          summary.untracked + SumOutside(summary.transactions, ledgerIds),
                          summary.tableCounts, summary.operationCounts, transactions));
  }

  // ---------------------------------------------------------------- conservation

  function SumOutside(ts: seq<TxSummary>, ids: set<int>): int {
    if ts == [] then 0 else
    SumOutside(ts[..|ts| - 1], ids) + if ts[|ts| - 1].txid in ids then 0 else ts[|ts| - 1].count
  }

  /** Events of transactions with one of the given ids. */
  function CountInside(events: seq<Readout>, ids: set<int>): nat {
    if events == [] then 0 else
    var e := events[|events| - 1];
    CountInside(events[..|events| - 1], ids) + if e.tx.Tx? && e.tx.id in ids then 1 else 0
  }

  lemma {:induction false} EveryEventIsCountedOnce(events: seq<Readout>, ids: set<int>)
    ensures CountUntracked(events) + CountInside(events, ids) + CountOutside(events, ids) == |events|
  {
    if events != [] { EveryEventIsCountedOnce(events[..|events| - 1], ids); }
  }

  lemma {:induction false} InsideGrowsByOneId(events: seq<Readout>, ids: set<int>, t: int)
    requires t !in ids
    ensures CountInside(events, ids + {t}) == CountInside(events, ids) + CountTx(events, t)
  {
    if events != [] { InsideGrowsByOneId(events[..|events| - 1], ids, t); }
  }

  lemma {:induction false} InsideOfNone(events: seq<Readout>)
    ensures CountInside(events, {}) == 0
  {
    if events != [] { InsideOfNone(events[..|events| - 1]); }
  }

  predicate UniqueTxids(rows: seq<LedgerRow>) {
    forall i, j | 0 <= i < j < |rows| :: rows[i].txid != rows[j].txid
  }

  lemma {:induction false} ObservedIsInside(rows: seq<LedgerRow>, events: seq<Readout>)
    requires UniqueTxids(rows)
    ensures SumObserved(TransactionsOf(rows, events)) == CountInside(events, Ids(rows))
  {
    if rows == [] {
      assert Ids(rows) == {};
      InsideOfNone(events);
    } else {
      var front, last := rows[..|rows| - 1], rows[|rows| - 1];
      ObservedIsInside(front, events);
      assert last.txid !in Ids(front);
      assert Ids(rows) == Ids(front) + {last.txid};
      InsideGrowsByOneId(events, Ids(front), last.txid);
      assert TransactionsOf(rows, events)[..|rows| - 1] == TransactionsOf(front, events);
    }
  }

  lemma {:induction false} OutsideSplits(events: seq<Readout>, ids: set<int>, t: int)
    requires t !in ids
    ensures CountOutside(events, ids) == CountOutside(events, ids + {t}) + CountTx(events, t)
  {
    if events != [] { OutsideSplits(events[..|events| - 1], ids, t); }
  }

  lemma {:induction false} OutsideNothing(events: seq<Readout>, ids: set<int>)
    requires forall t | CountTx(events, t) > 0 :: t in ids
    ensures CountOutside(events, ids) == 0
  {
    if events != [] {
      var front, e := events[..|events| - 1], events[|events| - 1];
      forall t | CountTx(front, t) > 0 ensures t in ids { assert CountTx(events, t) > 0; }
      OutsideNothing(front, ids);
      if e.tx.Tx? { assert CountTx(events, e.tx.id) > 0; }
    }
  }

  function SummaryIds(ts: seq<TxSummary>): set<int> {
    set i | 0 <= i < |ts| :: ts[i].txid
  }

  lemma {:induction false} SummedOutside(ts: seq<TxSummary>, events: seq<Readout>, ids: set<int>)
    requires forall i | 0 <= i < |ts| :: ts[i].count == CountTx(events, ts[i].txid)
    requires forall i, j | 0 <= i < j < |ts| :: ts[i].txid != ts[j].txid
    ensures CountOutside(events, ids) == SumOutside(ts, ids) + CountOutside(events, ids + SummaryIds(ts))
  {
    if ts == [] {
      assert ids + SummaryIds(ts) == ids;
    } else {
      var front, last := ts[..|ts| - 1], ts[|ts| - 1];
      SummedOutside(front, events, ids);
      var seen := ids + SummaryIds(front);
      assert ids + SummaryIds(ts) == seen + {last.txid};
      if last.txid in ids {
        assert seen + {last.txid} == seen;
      } else {
        OutsideSplits(events, seen, last.txid);
      }
    }
  }

  lemma OutsideIsCounted(summary: Summary, events: seq<Readout>, ids: set<int>)
    requires SummaryExact(summary, events)
    ensures SumOutside(summary.transactions, ids) == CountOutside(events, ids)
  {
    var ts := summary.transactions;
    SummedOutside(ts, events, ids);
    OutsideNothing(events, ids + SummaryIds(ts));
  }

  // ---------------------------------------------------------------- what the ledger guarantees

  /** Constraints of the ledger table: one row per transaction, non-negative columns. */
  ghost predicate LedgerOk(ledger: seq<LedgerRow>) {
    && UniqueTxids(ledger)
    && forall i | 0 <= i < |ledger| :: ledger[i].txid >= 0 && ledger[i].expected >= 0 && ledger[i].boundary >= 0
  }

  lemma {:induction false} PastBoundaryExact(ledger: seq<LedgerRow>, previous: Option<int>)
    ensures forall r :: r in PastBoundary(ledger, previous) <==>
              r in ledger && (previous.None? || r.boundary > previous.value)
    ensures UniqueTxids(ledger) ==> UniqueTxids(PastBoundary(ledger, previous))
  {
    if ledger != [] {
      var front, last := ledger[..|ledger| - 1], ledger[|ledger| - 1];
      assert ledger == front + [last];
      PastBoundaryExact(front, previous);
      if UniqueTxids(ledger) {
        forall r | r in PastBoundary(front, previous) ensures r.txid != last.txid {
          var i :| 0 <= i < |front| && front[i] == r;
          assert ledger[i].txid != ledger[|ledger| - 1].txid;
        }
      }
    }
  }

  predicate IncreasingTxids(rows: seq<LedgerRow>) {
    forall i, j | 0 <= i < j < |rows| :: rows[i].txid < rows[j].txid
  }

  lemma SortedRows(rows: seq<LedgerRow>)
    requires UniqueTxids(rows)
    ensures IncreasingTxids(Sort(RowLe, rows))
    ensures forall r :: r in Sort(RowLe, rows) <==> r in rows
  {
    var sorted := Sort(RowLe, rows);
    SortIsOrderedPermutation(RowLe, rows);
    assert Unique(rows);
    SameMultisetSameElements(sorted, rows);
    forall i, j | 0 <= i < j < |sorted| ensures sorted[i].txid < sorted[j].txid {
      assert RowLe(sorted[i], sorted[j]) && sorted[i] != sorted[j];
      assert sorted[i] in sorted && sorted[j] in sorted;
      var a :| 0 <= a < |rows| && rows[a] == sorted[i];
      var b :| 0 <= b < |rows| && rows[b] == sorted[j];
      assert a != b;
    }
  }

  lemma {:induction false} UpToExact(rows: seq<LedgerRow>, high: Option<int>)
    requires IncreasingTxids(rows)
    ensures forall r :: r in UpTo(rows, high) <==> r in rows && high.Some? && r.boundary <= high.value
    ensures IncreasingTxids(UpTo(rows, high))
  {
    if rows != [] {
      var front, last := rows[..|rows| - 1], rows[|rows| - 1];
      assert rows == front + [last];
      UpToExact(front, high);
      forall r | r in UpTo(front, high) ensures r.txid < last.txid {
        var i :| 0 <= i < |front| && front[i] == r;
        assert rows[i].txid < rows[|rows| - 1].txid;
      }
    }
  }

  /** The interval holds each eligible row once, in transaction order. */
  lemma LedgerIntervalExact(previous: Option<int>, ledger: seq<LedgerRow>, events: seq<Readout>)
    requires UniqueTxids(ledger)
    ensures IncreasingTxids(LedgerInterval(previous, ledger, events))
    ensures forall r | r in LedgerInterval(previous, ledger, events) ::
              r in ledger && (previous.None? || r.boundary > previous.value)
  {
    PastBoundaryExact(ledger, previous);
    SortedRows(PastBoundary(ledger, previous));
    var eligible := Sort(RowLe, PastBoundary(ledger, previous));
    UpToExact(eligible, MaxObservedBoundary(eligible, events));
  }

  lemma {:induction false} SumsAreNonNegative(ts: seq<Transaction>)
    requires forall i | 0 <= i < |ts| :: ts[i].expected >= 0 && ts[i].observed >= 0
    ensures SumExpected(ts) >= 0 && SumObserved(ts) >= 0
  {
    if ts != [] { SumsAreNonNegative(ts[..|ts| - 1]); }
  }

  /** A control built from a well-formed ledger passes the manifest validator. */
  lemma BuiltControlIsAccepted(previous: Option<int>, ledger: seq<LedgerRow>, events: seq<Readout>)
    requires LedgerOk(ledger)
    ensures SourceControlOk(SourceControlFor(previous, ledger, events))
  {
    var rows := LedgerInterval(previous, ledger, events);
    var ts := TransactionsOf(rows, events);
    LedgerIntervalExact(previous, ledger, events);
    forall i | 0 <= i < |ts| ensures TransactionOk(ts[i]) {
      assert rows[i] in rows && rows[i] in ledger;
      var k :| 0 <= k < |ledger| && ledger[k] == rows[i];
    }
    SumsAreNonNegative(ts);
  }

  /** Every selected event is either attributed to one listed transaction or counted untracked. */
  lemma SelectedEventsAreConserved(previous: Option<int>, ledger: seq<LedgerRow>, events: seq<Readout>)
    requires UniqueTxids(ledger)
    ensures var sc := SourceControlFor(previous, ledger, events);
            sc.observed + sc.untracked == |events|
  {
    var rows := LedgerInterval(previous, ledger, events);
    LedgerIntervalExact(previous, ledger, events);
    ObservedIsInside(rows, events);
    EveryEventIsCountedOnce(events, Ids(rows));
  }

  /**
   A control leaves nothing untracked exactly when every selected event belongs to a transaction
   it lists; if the listed transactions are also complete, the expected counts add up to the
   number of selected objects.
   */
  lemma TrackedExactlyWhenAttributed(previous: Option<int>, ledger: seq<LedgerRow>, events: seq<Readout>)
    requires UniqueTxids(ledger)
    ensures var sc := SourceControlFor(previous, ledger, events);
            sc.untracked == 0 <==>
            forall k | 0 <= k < |events| :: events[k].tx.Tx? && exists i | 0 <= i < |sc.transactions| ::
              sc.transactions[i].txid == events[k].tx.id
    ensures var sc := SourceControlFor(previous, ledger, events);
            (sc.untracked == 0 && forall i | 0 <= i < |sc.transactions| :: sc.transactions[i].status == PASS)
            ==> sc.expected == |events|
  {
    var rows := LedgerInterval(previous, ledger, events);
    var sc := SourceControlFor(previous, ledger, events);
    NothingOutside(events, Ids(rows));
    forall t ensures t in Ids(rows) <==> exists i | 0 <= i < |sc.transactions| :: sc.transactions[i].txid == t {
      if t in Ids(rows) {
        var i :| 0 <= i < |rows| && rows[i].txid == t;
        assert sc.transactions[i].txid == t;
      }
    }
    SelectedEventsAreConserved(previous, ledger, events);
    if forall i | 0 <= i < |sc.transactions| :: sc.transactions[i].status == PASS {
      PassingSumsAgree(rows, events);
    }
  }

  lemma {:induction false} NothingOutside(events: seq<Readout>, ids: set<int>)
    ensures CountUntracked(events) + CountOutside(events, ids) == 0 <==>
            forall k | 0 <= k < |events| :: events[k].tx.Tx? && events[k].tx.id in ids
  {
    if events != [] { NothingOutside(events[..|events| - 1], ids); }
  }

  lemma {:induction false} PassingSumsAgree(rows: seq<LedgerRow>, events: seq<Readout>)
    requires forall i | 0 <= i < |rows| :: TransactionsOf(rows, events)[i].status == PASS
    ensures SumExpected(TransactionsOf(rows, events)) == SumObserved(TransactionsOf(rows, events))
  {
    if rows != [] {
      var front := rows[..|rows| - 1];
      assert TransactionsOf(rows, events)[..|rows| - 1] == TransactionsOf(front, events);
      PassingSumsAgree(front, events);
    }
  }

  // ---------------------------------------------------------------- per-table and per-operation totals

  /** Sum of the counters of the given keys. */
  ghost function SumOver(m: map<string, int>, keys: set<string>): int {
    if keys == {} then 0 else
    var k :| k in keys;
    (if k in m then m[k] else 0) + SumOver(m, keys - {k})
  }

  lemma {:induction false} SumOverTakesAny(m: map<string, int>, keys: set<string>, key: string)
    requires key in keys
    ensures SumOver(m, keys) == (if key in m then m[key] else 0) + SumOver(m, keys - {key})
    decreases keys
  {
    var k :| k in keys && SumOver(m, keys) == (if k in m then m[k] else 0) + SumOver(m, keys - {k});
    if k != key {
      SumOverTakesAny(m, keys - {k}, key);
      SumOverTakesAny(m, keys - {key}, k);
      assert keys - {k} - {key} == keys - {key} - {k};
    }
  }

  lemma {:induction false} SumOverAgrees(m: map<string, int>, n: map<string, int>, keys: set<string>)
    requires forall k | k in keys :: (k in m <==> k in n) && (k in m ==> m[k] == n[k])
    ensures SumOver(m, keys) == SumOver(n, keys)
    decreases keys
  {
    if key :| key in keys {
      SumOverTakesAny(m, keys, key);
      SumOverTakesAny(n, keys, key);
      SumOverAgrees(m, n, keys - {key});
    }
  }

  lemma IncrementAddsOne(m: map<string, int>, key: string)
    ensures SumOver(Increment(m, key), Increment(m, key).Keys) == SumOver(m, m.Keys) + 1
  {
    var n := Increment(m, key);
    var rest := n.Keys - {key};
    SumOverTakesAny(n, n.Keys, key);
    SumOverAgrees(m, n, rest);
    if key in m {
      SumOverTakesAny(m, m.Keys, key);
      assert m.Keys - {key} == rest;
    } else {
      assert m.Keys == rest;
    }
  }

  /** The table counters and the operation counters each add up to the selected objects. */
  lemma {:induction false} CountersAddUp(events: seq<Readout>)
    ensures SumOver(TableCounts(events), TableCounts(events).Keys) == |events|
    ensures SumOver(OperationCounts(events), OperationCounts(events).Keys) == |events|
  {
    if events == [] {
    } else {
      var front, e := events[..|events| - 1], events[|events| - 1];
      CountersAddUp(front);
      IncrementAddsOne(TableCounts(front), e.table);
      IncrementAddsOne(OperationCounts(front), e.operation);
    }
  }

  // ---------------------------------------------------------------- what the columns of a control mean

  predicate OfTx(e: Readout, txid: int) { e.tx == Tx(txid) }

  /** `bound` is the LSN of an event of the transaction and lies on one side of all the others. */
  ghost predicate LsnBound(events: seq<Readout>, txid: int, bound: Option<int>, low: bool) {
    if bound.None? then forall i | 0 <= i < |events| :: !OfTx(events[i], txid) else
    && (exists i :: 0 <= i < |events| && OfTx(events[i], txid) && events[i].lsn == bound)
    && (forall i | 0 <= i < |events| && OfTx(events[i], txid) ::
          if low then bound.value <= events[i].lsn.value else events[i].lsn.value <= bound.value)
  }

  lemma BoundGrows(events: seq<Readout>, e: Readout, txid: int, bound: Option<int>, low: bool)
    requires LsnBound(events, txid, bound, low)
    ensures var grown :=
              if !OfTx(e, txid) then bound
              else if bound.Some? && (if low then bound.value <= e.lsn.value else e.lsn.value <= bound.value) then bound
              else e.lsn;
            LsnBound(events + [e], txid, grown, low)
  {
    var all := events + [e];
    if bound.Some? {
      var i :| 0 <= i < |events| && OfTx(events[i], txid) && events[i].lsn == bound;
      assert all[i] == events[i];
    }
    assert all[|events|] == e;
  }

  /** The recorded LSN range of a transaction is attained and bounds every LSN of its events. */
  lemma {:induction false} LsnRangeIsExact(events: seq<Readout>, txid: int)
    ensures LsnBound(events, txid, LowLsn(events, txid), true) && LsnBound(events, txid, HighLsn(events, txid), false)
  {
    if events != [] {
      var front, e := events[..|events| - 1], events[|events| - 1];
      LsnRangeIsExact(front, txid);
      BoundGrows(front, e, txid, LowLsn(front, txid), true);
      BoundGrows(front, e, txid, HighLsn(front, txid), false);
      assert front + [e] == events;
      hide LsnBound;
    }
  }

  predicate IsPast(previous: Option<int>, r: LedgerRow) { previous.None? || r.boundary > previous.value }

  /** A ledger row of the open interval with an event among the selected objects. */
  predicate ObservedRow(previous: Option<int>, ledger: seq<LedgerRow>, events: seq<Readout>, r: LedgerRow) {
    r in ledger && IsPast(previous, r) && CountTx(events, r.txid) > 0
  }

  lemma {:induction false} MaxObservedExact(rows: seq<LedgerRow>, events: seq<Readout>)
    ensures var high := MaxObservedBoundary(rows, events);
            && (high.Some? ==> exists r :: r in rows && CountTx(events, r.txid) > 0 && r.boundary == high.value)
            && (forall r | r in rows && CountTx(events, r.txid) > 0 :: high.Some? && r.boundary <= high.value)
  {
    hide CountTx;
    if rows != [] {
      var front, last := rows[..|rows| - 1], rows[|rows| - 1];
      MaxObservedExact(front, events);
      assert forall r :: r in rows <==> r in front || r == last;
    }
  }

  /**
   A control lists exactly the ledger rows past the published boundary and not past the last
   transaction observed among the selected objects.
   */
  lemma ListedRowsAreExact(previous: Option<int>, ledger: seq<LedgerRow>, events: seq<Readout>)
    requires UniqueTxids(ledger)
    ensures forall r :: r in LedgerInterval(previous, ledger, events) <==>
              r in ledger && IsPast(previous, r) && exists q ::
                  ObservedRow(previous, ledger, events, q) && r.boundary <= q.boundary
  {
    var eligible := Sort(RowLe, PastBoundary(ledger, previous));
    var high := MaxObservedBoundary(eligible, events);
    PastBoundaryExact(ledger, previous);
    SortedRows(PastBoundary(ledger, previous));
    UpToExact(eligible, high);
    MaxObservedExact(eligible, events);
    hide CountTx, Sort, PastBoundary, UpTo, MaxObservedBoundary;
    forall r ensures r in LedgerInterval(previous, ledger, events) <==>
              r in ledger && IsPast(previous, r) && exists q ::
                  ObservedRow(previous, ledger, events, q) && r.boundary <= q.boundary
    {
      if q :| ObservedRow(previous, ledger, events, q) && r.boundary <= q.boundary {
        assert q in eligible;
      }
      if high.Some? {
        var q :| q in eligible && CountTx(events, q.txid) > 0 && q.boundary == high.value;
        assert ObservedRow(previous, ledger, events, q);
      }
    }
  }

  /** The frozen high boundary is the greatest listed one, or the previous one when nothing is listed. */
  lemma BoundaryHighIsLastListed(previous: Option<int>, ledger: seq<LedgerRow>, events: seq<Readout>)
    requires UniqueTxids(ledger)
    ensures var sc := SourceControlFor(previous, ledger, events);
            && sc.previousBoundary == previous
            && (forall t | t in sc.transactions :: sc.boundaryHigh.Some? && t.boundary <= sc.boundaryHigh.value)
            && (if sc.transactions == [] then sc.boundaryHigh == previous
                else exists t :: t in sc.transactions && sc.boundaryHigh == Some(t.boundary))
  {
    var eligible := Sort(RowLe, PastBoundary(ledger, previous));
    var high := MaxObservedBoundary(eligible, events);
    var rows := UpTo(eligible, high);
    var ts := TransactionsOf(rows, events);
    SortedRows(PastBoundary(ledger, previous)) by { PastBoundaryExact(ledger, previous); }
    UpToExact(eligible, high);
    MaxObservedExact(eligible, events);
    hide CountTx, Sort, PastBoundary, UpTo, MaxObservedBoundary, SumExpected, SumObserved, TableCounts;
    hide OperationCounts, CountOutside, CountUntracked;
    forall t | t in ts ensures high.Some? && t.boundary <= high.value {
      var i :| 0 <= i < |ts| && ts[i] == t;
      assert rows[i] in rows;
    }
    if high.Some? {
      var q :| q in eligible && CountTx(events, q.txid) > 0 && q.boundary == high.value;
      assert q in rows;
      var i :| 0 <= i < |rows| && rows[i] == q;
      assert ts[i] in ts && ts[i].boundary == high.value;
    }
  }
}
