/** The frozen source control in its own columns: which ledger rows it lists, and what it counts among the events. */
module SourceControlFields {
  import opened Wrappers
  import opened Manifest
  import opened ManifestValidation
  import opened LedgerControl
  import ManifestFields

  /** The positions of a transaction's events among the selected objects. */
  function EventsOf(events: seq<Readout>, txid: int): set<nat> {
    set i: nat | i < |events| && events[i].tx == Tx(txid)
  }

  function OfTable(events: seq<Readout>, table: string): set<nat> {
    set i: nat | i < |events| && events[i].table == table
  }

  function OfOperation(events: seq<Readout>, operation: string): set<nat> {
    set i: nat | i < |events| && events[i].operation == operation
  }

  /** The events of no transaction, and those of a transaction the control does not list. */
  function Unlisted(events: seq<Readout>, ts: seq<Transaction>): set<nat> {
    set i: nat | i < |events| && (events[i].tx.NoTx? || forall k | 0 <= k < |ts| :: events[i].tx != Tx(ts[k].txid))
  }

  lemma {:induction false} CountIsEvents(events: seq<Readout>, txid: int)
    ensures CountTx(events, txid) == |EventsOf(events, txid)|
  {
    if events != [] {
      var n := |events| - 1;
      CountIsEvents(events[..n], txid);
      assert EventsOf(events, txid) == EventsOf(events[..n], txid) + if events[n].tx == Tx(txid) then {n} else {};
    }
  }

  lemma {:induction false} TablesAreCounted(events: seq<Readout>, key: string)
    ensures var tables := TableCounts(events);
            && (key in tables <==> OfTable(events, key) != {})
                 && (key in tables ==> tables[key] == |OfTable(events, key)|)
  {
    if events != [] {
      var n := |events| - 1;
      TablesAreCounted(events[..n], key);
      assert OfTable(events, key) == OfTable(events[..n], key) + if events[n].table == key then {n} else {};
    }
  }

  lemma {:induction false} OperationsAreCounted(events: seq<Readout>, key: string)
    ensures var operations := OperationCounts(events);
            && (key in operations <==> OfOperation(events, key) != {})
            && (key in operations ==> operations[key] == |OfOperation(events, key)|)
  {
    if events != [] {
      var n := |events| - 1;
      OperationsAreCounted(events[..n], key);
      assert OfOperation(events, key) ==
          OfOperation(events[..n], key) + if events[n].operation == key then {n} else {};
    }
  }

  /** The events of the transactions outside a set, and those of none. */
  function Outside(events: seq<Readout>, ids: set<int>): set<nat> {
    set i: nat | i < |events| && (events[i].tx.NoTx? || (events[i].tx.Tx? && events[i].tx.id !in ids))
  }

  lemma {:induction false} OutsideIsCount(events: seq<Readout>, ids: set<int>)
    ensures CountUntracked(events) + CountOutside(events, ids) == |Outside(events, ids)|
  {
    if events != [] {
      var n := |events| - 1;
      OutsideIsCount(events[..n], ids);
      assert Outside(events, ids) == Outside(events[..n], ids)
          + if events[n].tx.NoTx? || (events[n].tx.Tx? && events[n].tx.id !in ids) then {n} else {};
    }
  }

  /** The least or the greatest LSN of the transaction's events; none without an event. */
  ghost predicate IsRange(events: seq<Readout>, txid: int, low: Option<int>, high: Option<int>) {
    && (low.None? <==> EventsOf(events, txid) == {}) && (high.None? <==> EventsOf(events, txid) == {})
    && (low.Some? ==> exists i :: i in EventsOf(events, txid) && events[i].lsn == low)
    && (high.Some? ==> exists i :: i in EventsOf(events, txid) && events[i].lsn == high)
    && (forall i | i in EventsOf(events, txid) ::
          low.Some? && high.Some? && events[i].lsn.Some? && low.value <= events[i].lsn.value <= high.value)
  }

  lemma RangeIsExact(events: seq<Readout>, txid: int)
    ensures IsRange(events, txid, LowLsn(events, txid), HighLsn(events, txid))
  {
    LsnRangeIsExact(events, txid);
    hide LowLsn, HighLsn;
    var low, high := LowLsn(events, txid), HighLsn(events, txid);
    if low.Some? {
      var i :| 0 <= i < |events| && OfTx(events[i], txid) && events[i].lsn == low;
      assert i in EventsOf(events, txid);
    }
    if high.Some? {
      var i :| 0 <= i < |events| && OfTx(events[i], txid) && events[i].lsn == high;
      assert i in EventsOf(events, txid);
    }
  }

  /** The control's row for a ledger row. */
  ghost predicate Describes(t: Transaction, r: LedgerRow, events: seq<Readout>) {
    && t.txid == r.txid && t.runId == r.runId && t.eventKey == r.eventKey && t.boundaryLsn == r.boundaryLsn
    && t.boundary == r.boundary && t.expected == r.expected && t.observed == |EventsOf(events, r.txid)|
    && IsRange(events, r.txid, t.lsnLow, t.lsnHigh)
    && t.status == if t.expected == t.observed then PASS else FAIL
  }

  /** A ledger row of the open interval, not past the last one there with an event among the selected objects. */
  ghost predicate IsListed(previous: Option<int>, ledger: seq<LedgerRow>, events: seq<Readout>, r: LedgerRow) {
    && r in ledger && (previous.None? || r.boundary > previous.value)
    && exists q :: q in ledger && (previous.None? || q.boundary > previous.value)
                   && EventsOf(events, q.txid) != {} && r.boundary <= q.boundary
  }

  lemma ListedIsExact(previous: Option<int>, ledger: seq<LedgerRow>, events: seq<Readout>, r: LedgerRow)
    requires UniqueTxids(ledger)
    ensures r in LedgerInterval(previous, ledger, events) <==> IsListed(previous, ledger, events, r)
  {
    ListedRowsAreExact(previous, ledger, events);
    forall t ensures CountTx(events, t) > 0 <==> EventsOf(events, t) != {} { CountIsEvents(events, t); }
    hide LedgerInterval, CountTx, EventsOf;
    if q :| ObservedRow(previous, ledger, events, q) && r.boundary <= q.boundary {
      assert EventsOf(events, q.txid) != {};
    }
    if IsListed(previous, ledger, events, r) {
      var q :| q in ledger && (previous.None? || q.boundary > previous.value)
               && EventsOf(events, q.txid) != {} && r.boundary <= q.boundary;
      assert ObservedRow(previous, ledger, events, q);
    }
  }

  lemma RowIsDescribed(r: LedgerRow, events: seq<Readout>)
    ensures Describes(TransactionOf(r, events), r, events)
  {
    CountIsEvents(events, r.txid);
    RangeIsExact(events, r.txid);
    hide EventsOf, IsRange, CountTx, LowLsn, HighLsn;
  }

  /** The listed transactions are the ledger rows of the interval, in order of their ids. */
  ghost predicate ListsInterval(sc: SourceControl, previous: Option<int>, ledger: seq<LedgerRow>,
                                events: seq<Readout>)
  {
    && (forall t | t in sc.transactions :: exists r :: IsListed(previous, ledger, events, r) && Describes(t, r, events))
    && (forall r | IsListed(previous, ledger, events, r) :: exists t :: t in sc.transactions && Describes(t, r, events))
    && (forall i, j | 0 <= i < j < |sc.transactions| :: sc.transactions[i].txid < sc.transactions[j].txid)
  }

  lemma ControlListsInterval(previous: Option<int>, ledger: seq<LedgerRow>, events: seq<Readout>)
    requires UniqueTxids(ledger)
    ensures ListsInterval(SourceControlFor(previous, ledger, events), previous, ledger, events)
  {
    var rows := LedgerInterval(previous, ledger, events);
    var ts := TransactionsOf(rows, events);
    assert SourceControlFor(previous, ledger, events).transactions == ts;
    LedgerIntervalExact(previous, ledger, events);
    hide SourceControlFor, LedgerInterval, IsListed, Describes, TransactionOf;
    forall t | t in ts ensures exists r :: IsListed(previous, ledger, events, r) && Describes(t, r, events) {
      var i :| 0 <= i < |ts| && ts[i] == t;
      ListedIsExact(previous, ledger, events, rows[i]);
      RowIsDescribed(rows[i], events);
    }
    forall r | IsListed(previous, ledger, events, r) ensures exists t :: t in ts && Describes(t, r, events) {
      ListedIsExact(previous, ledger, events, r);
      var i :| 0 <= i < |rows| && rows[i] == r;
      RowIsDescribed(r, events);
      assert ts[i] in ts;
    }
    forall i, j | 0 <= i < j < |ts| ensures ts[i].txid < ts[j].txid {
      IdOfTransaction(rows[i], events);
      IdOfTransaction(rows[j], events);
    }
  }

  lemma IdOfTransaction(r: LedgerRow, events: seq<Readout>)
    ensures TransactionOf(r, events).txid == r.txid
  {
  }

  /** The totals of the control over its transactions and over the selected events. */
  ghost predicate CountsEvents(sc: SourceControl, events: seq<Readout>) {
    && sc.expected == ManifestFields.ExpectedTotal(sc.transactions)
    && sc.observed == ManifestFields.ObservedTotal(sc.transactions)
    && sc.untracked == |Unlisted(events, sc.transactions)|
    && (forall key :: key in sc.tableCounts <==> OfTable(events, key) != {})
    && (forall key | key in sc.tableCounts :: sc.tableCounts[key] == |OfTable(events, key)|)
    && (forall key :: key in sc.operationCounts <==> OfOperation(events, key) != {})
    && (forall key | key in sc.operationCounts :: sc.operationCounts[key] == |OfOperation(events, key)|)
  }

  lemma ControlCountsEvents(previous: Option<int>, ledger: seq<LedgerRow>, events: seq<Readout>)
    ensures CountsEvents(SourceControlFor(previous, ledger, events), events)
  {
    var rows := LedgerInterval(previous, ledger, events);
    var ts := TransactionsOf(rows, events);
    var sc := SourceControlFor(previous, ledger, events);
    assert sc.transactions == ts && sc.untracked == CountUntracked(events) + CountOutside(events, Ids(rows));
    assert sc.expected == SumExpected(ts) && sc.observed == SumObserved(ts);
    assert sc.tableCounts == TableCounts(events) && sc.operationCounts == OperationCounts(events);
    hide SourceControlFor, LedgerInterval, TableCounts, OperationCounts, CountUntracked, CountOutside, CountTx;
    ManifestFields.TotalsAgree(ts);
    OutsideIsCount(events, Ids(rows));
    UnlistedIsOutside(rows, events);
    forall key { TablesAreCounted(events, key); }
    forall key { OperationsAreCounted(events, key); }
    hide OfTable, OfOperation, SumExpected, SumObserved;
  }

  lemma UnlistedIsOutside(rows: seq<LedgerRow>, events: seq<Readout>)
    ensures Unlisted(events, TransactionsOf(rows, events)) == Outside(events, Ids(rows))
  {
    var ts := TransactionsOf(rows, events);
    forall k | 0 <= k < |ts| ensures ts[k].txid == rows[k].txid { IdOfTransaction(rows[k], events); }
    hide TransactionsOf, TransactionOf;
    forall i: nat | i < |events| ensures i in Unlisted(events, ts) <==> i in Outside(events, Ids(rows)) {
      if events[i].tx.Tx? && events[i].tx.id in Ids(rows) {
        var k :| 0 <= k < |rows| && rows[k].txid == events[i].tx.id;
        assert ts[k].txid == events[i].tx.id;
      }
    }
  }

  /**
   The frozen control lists the ledger rows past the published boundary and up to the last observed one, each
   with what was observed of it, and counts every selected event that belongs to no listed transaction.
   Its high boundary is the greatest listed one, or the published one when nothing is listed.
   */
  lemma ControlSaysExactly(previous: Option<int>, ledger: seq<LedgerRow>, events: seq<Readout>)
    requires UniqueTxids(ledger)
    ensures var sc := SourceControlFor(previous, ledger, events);
            && sc.contractVersion == "postgres-workload-ledger-v1" && sc.positionType == "postgres_lsn"
            && sc.previousBoundary == previous
            && ListsInterval(sc, previous, ledger, events) && CountsEvents(sc, events)
            && (forall t | t in sc.transactions :: sc.boundaryHigh.Some? && t.boundary <= sc.boundaryHigh.value)
            && (if sc.transactions == [] then sc.boundaryHigh == previous
                else exists t :: t in sc.transactions && sc.boundaryHigh == Some(t.boundary))
  {
    ControlListsInterval(previous, ledger, events);
    ControlCountsEvents(previous, ledger, events);
    BoundaryHighIsLastListed(previous, ledger, events);
    hide ListsInterval, CountsEvents, TransactionsOf, CountOutside, CountUntracked, TableCounts, OperationCounts;
    hide PastBoundary, MaxObservedBoundary, UpTo, SumExpected, SumObserved;
  }
}
