/** No source transaction is split across published batches. */
module Transactions {
  import opened Manifest
  import opened ManifestValidation
  import opened LedgerControl
  import opened Audit
  import opened Control
  import opened ControlInvariant
  import opened ControlGuarantees
  import opened Publication

  // ---------------------------------------------------------------- listed transactions are ledger rows

  lemma {:induction false} MaxBoundaryIsUpper(ts: seq<Transaction>)
    ensures forall t | t in ts :: MaxBoundary(ts).Some? && t.boundary <= MaxBoundary(ts).value
  {
    if ts != [] { MaxBoundaryIsUpper(ts[..|ts| - 1]); }
  }

  lemma {:induction false} PublishedBoundaryIsUpper(batches: map<string, Batch>, published: seq<string>, id: string)
    requires id in published && id in batches
    ensures forall t | t in batches[id].transactions ::
              PublishedBoundary(batches, published).Some? && t.boundary <= PublishedBoundary(batches, published).value
  {
    var front, last := published[..|published| - 1], published[|published| - 1];
    MaxBoundaryIsUpper(batches[id].transactions);
    if id in front { PublishedBoundaryIsUpper(batches, front, id); }
  }

  /** Transactions of a later publication lie strictly behind those of an earlier one. */
  lemma BoundariesIncrease(db: Db, j: nat, k: nat)
    requires IdsOk(db) && BoundariesOk(db) && j < k < |db.published|
    ensures forall t, u | t in db.batches[db.published[j]].transactions
            && u in db.batches[db.published[k]].transactions ::
              t.boundary < u.boundary
  {
    hide PublishedBoundary, LogPath;
    assert db.published[j] in db.published && db.published[k] in db.published;
    assert db.published[..k][j] == db.published[j];
    PublishedBoundaryIsUpper(db.batches, db.published[..k], db.published[j]);
  }

  ghost predicate InLedger(ledger: seq<LedgerRow>, t: Transaction) {
    exists r :: r in ledger && r.txid == t.txid && r.boundary == t.boundary && r.expected == t.expected
  }

  lemma ListedAreLedgerRows(h: History, p: Payload)
    requires Controlled(h, p)
    ensures p.sourceControl.Some? && forall t | t in p.sourceControl.value.transactions :: InLedger(h.ledger, t)
  {
    hide SumExpected, SumObserved, TableCounts, OperationCounts;
    var previous, ledger :| ControlledBy(h, p, previous, ledger);
    var events := Events(h.bodies, p.objects);
    var rows := LedgerInterval(previous, ledger, events);
    LedgerIntervalExact(previous, ledger, events);
    var ts := TransactionsOf(rows, events);
    forall t | t in ts ensures InLedger(h.ledger, t) {
      var i :| 0 <= i < |ts| && ts[i] == t;
      assert rows[i] in rows;
    }
  }

  lemma OneRowPerTransaction(ledger: seq<LedgerRow>, a: Transaction, b: Transaction)
    requires UniqueTxids(ledger) && InLedger(ledger, a) && InLedger(ledger, b) && a.txid == b.txid
    ensures a.boundary == b.boundary && a.expected == b.expected
  {
    var r :| r in ledger && r.txid == a.txid && r.boundary == a.boundary && r.expected == a.expected;
    var s :| s in ledger && s.txid == b.txid && s.boundary == b.boundary && s.expected == b.expected;
    var i :| 0 <= i < |ledger| && ledger[i] == r;
    var j :| 0 <= j < |ledger| && ledger[j] == s;
    if i != j { assert ledger[i].txid != ledger[j].txid; }
  }

  function PublishedPayload(db: Db, k: nat): Payload
    requires k < |db.published| && db.published[k] in db.batches
  {
    db.batches[db.published[k]].sha.payload
  }

  ghost predicate Lists(p: Payload, txid: int) {
    p.sourceControl.Some? && exists t :: t in p.sourceControl.value.transactions && t.txid == txid
  }

  /**
   Published manifests list disjoint sets of source transactions, and a later publication's commit
   boundaries all lie behind an earlier one's.
   */
  lemma PublishedTransactionsAreDisjoint(h: History, ops: seq<Op>, j: nat, k: nat)
    requires RunIn(h, ops) && j < k < |Run(ops).db.published|
    ensures var db := Run(ops).db;
            && db.published[j] in db.batches && db.published[k] in db.batches
            && (forall t, u | t in db.batches[db.published[j]].transactions
                 && u in db.batches[db.published[k]].transactions ::
                  t.boundary < u.boundary && t.txid != u.txid)
  {
    ReachableInv(ops);
    ReachableSealed(h, ops);
    var w := Run(ops);
    var db := w.db;
    hide Run, IdsOk, UnfinishedIsLast, LogsOk, AttemptsOk, RunningOk, EvidenceOk, AuditsOk, FilesOk, SuccessOk;
    hide ChainOk, BoundariesOk;
    hide InLedger, TakesInterval, Controlled, ReadsManifest;
    PublishedIds(db, j);
    PublishedIds(db, k);
    BoundariesIncrease(db, j, k);
    ListedAreLedgerRows(h, PublishedPayload(db, j));
    ListedAreLedgerRows(h, PublishedPayload(db, k));
    forall t, u | t in db.batches[db.published[j]].transactions && u in db.batches[db.published[k]].transactions
      ensures t.txid != u.txid
    {
      if t.txid == u.txid { OneRowPerTransaction(h.ledger, t, u); }
    }
  }

  lemma PublishedIds(db: Db, k: nat)
    requires IdsOk(db) && k < |db.published|
    ensures db.published[k] in db.batches && db.batches[db.published[k]].state == PUBLISHED
  {
    assert db.published[k] in db.published;
  }

  // ---------------------------------------------------------------- whole transactions

  /** The number of published objects of a batch that belong to a source transaction. */
  function EventsOf(h: History, p: Payload, txid: int): nat
    requires AllReadable(h.bodies, p.objects)
  {
    CountTx(Events(h.bodies, p.objects), txid)
  }

  /** Every event belongs to one listed transaction, each complete, and the expectations add up to the objects. */
  ghost predicate WholeTransactions(h: History, p: Payload) {
    && AllReadable(h.bodies, p.objects)
    && (forall i | 0 <= i < |p.objects| ::
          Events(h.bodies, p.objects)[i].tx.Tx? && Lists(p, Events(h.bodies, p.objects)[i].tx.id))
    && p.sourceControl.Some?
    && (forall t | t in p.sourceControl.value.transactions :: EventsOf(h, p, t.txid) == t.expected)
    && SumExpected(p.sourceControl.value.transactions) == |p.objects|
  }

  lemma BalancedIsWhole(h: History, p: Payload)
    requires Controlled(h, p) && SourceBalanced(p.sourceControl)
    ensures WholeTransactions(h, p)
  {
    var previous, ledger :| ControlledBy(h, p, previous, ledger);
    var events := Events(h.bodies, p.objects);
    var sc := SourceControlFor(previous, ledger, events);
    var rows := LedgerInterval(previous, ledger, events);
    TrackedExactlyWhenAttributed(previous, ledger, events);
    hide SumObserved, TableCounts, OperationCounts, CountTx, UpTo, PastBoundary, MaxObservedBoundary, CountUntracked;
    hide CountOutside, LowLsn, HighLsn;
    forall i | 0 <= i < |p.objects| ensures events[i].tx.Tx? && Lists(p, events[i].tx.id) {
      var m :| 0 <= m < |sc.transactions| && sc.transactions[m].txid == events[i].tx.id;
      assert sc.transactions[m] in p.sourceControl.value.transactions;
    }
    forall t | t in sc.transactions ensures EventsOf(h, p, t.txid) == t.expected {
      var m :| 0 <= m < |sc.transactions| && sc.transactions[m] == t;
      assert t == TransactionOf(rows[m], events);
    }
  }

  /** Every event of a published batch belongs to a listed, complete transaction. */
  lemma PublishedTransactionsAreWhole(h: History, ops: seq<Op>, k: nat)
    requires RunIn(h, ops) && k < |Run(ops).db.published|
    ensures var db := Run(ops).db; db.published[k] in db.batches && WholeTransactions(h, PublishedPayload(db, k))
  {
    ReachableInv(ops);
    ReachableSealed(h, ops);
    var w := Run(ops);
    hide Run, Inv, TakesInterval, Controlled, WholeTransactions, SourceBalanced, Proven;
    InvHasIds(w);
    PublishedIds(w.db, k);
    PublishedIsComplete(w, w.db.published[k]);
    BalancedIsWhole(h, PublishedPayload(w.db, k));
  }

  lemma {:induction false} CountedIsThere(events: seq<Readout>, txid: int)
    ensures CountTx(events, txid) > 0 <==> exists i :: 0 <= i < |events| && events[i].tx == Tx(txid)
  {
    if events != [] {
      var front := events[..|events| - 1];
      CountedIsThere(front, txid);
      if i :| 0 <= i < |events| && events[i].tx == Tx(txid) && i < |front| { assert front[i].tx == Tx(txid); }
      if CountTx(front, txid) > 0 {
        var i :| 0 <= i < |front| && front[i].tx == Tx(txid);
        assert events[i].tx == Tx(txid);
      }
    }
  }

  /**
   A source transaction with an event in one published batch has all its events there: as many as
   its ledger row expects, and none in any other published batch.
   */
  lemma NoTransactionIsSplit(h: History, ops: seq<Op>, k: nat, txid: int)
    requires RunIn(h, ops) && k < |Run(ops).db.published|
    ensures var db := Run(ops).db;
            && db.published[k] in db.batches && AllReadable(h.bodies, PublishedPayload(db, k).objects)
            && (EventsOf(h, PublishedPayload(db, k), txid) > 0 ==>
                  && (exists r :: r in h.ledger && r.txid == txid
                       && EventsOf(h, PublishedPayload(db, k), txid) == r.expected)
                  && (forall j: nat | j < |db.published| && j != k :: db.published[j] in db.batches
                        && AllReadable(h.bodies, PublishedPayload(db, j).objects)
                             && EventsOf(h, PublishedPayload(db, j), txid) == 0))
  {
    PublishedTransactionsAreWhole(h, ops, k);
    ReachableSealed(h, ops);
    var db := Run(ops).db;
    var p := PublishedPayload(db, k);
    if EventsOf(h, p, txid) > 0 {
      EventIsListed(h, p, txid);
      ListedAreLedgerRows(h, p);
      forall j: nat | j < |db.published| && j != k
        ensures db.published[j] in db.batches && AllReadable(h.bodies, PublishedPayload(db, j).objects)
        ensures EventsOf(h, PublishedPayload(db, j), txid) == 0
      {
        OtherBatchHasNone(h, ops, j, k, txid);
      }
    }
  }

  lemma EventIsListed(h: History, p: Payload, txid: int)
    requires WholeTransactions(h, p) && EventsOf(h, p, txid) > 0
    ensures Lists(p, txid)
  {
    hide CountTx;
    CountedIsThere(Events(h.bodies, p.objects), txid);
  }

  lemma OtherBatchHasNone(h: History, ops: seq<Op>, j: nat, k: nat, txid: int)
    requires RunIn(h, ops) && j < |Run(ops).db.published| && k < |Run(ops).db.published| && j != k
    requires Run(ops).db.published[k] in Run(ops).db.batches && Lists(PublishedPayload(Run(ops).db, k), txid)
    ensures var db := Run(ops).db;
            db.published[j] in db.batches && AllReadable(h.bodies, PublishedPayload(db, j).objects)
            && EventsOf(h, PublishedPayload(db, j), txid) == 0
  {
    PublishedTransactionsAreWhole(h, ops, j);
    var db := Run(ops).db;
    if EventsOf(h, PublishedPayload(db, j), txid) > 0 {
      EventIsListed(h, PublishedPayload(db, j), txid);
      RowsListThem(ops);
      PublishedTransactionsAreDisjoint(h, ops, if j < k then j else k, if j < k then k else j);
    }
  }

  lemma RowsListThem(ops: seq<Op>)
    requires AdmissibleRun(ops)
    ensures var db := Run(ops).db; forall id, txid | id in db.batches && Lists(db.batches[id].sha.payload, txid) ::
              exists t :: t in db.batches[id].transactions && t.txid == txid
  {
    ReachableInv(ops);
    hide Run, ReadsManifest, IdsOk, UnfinishedIsLast, LogsOk, AttemptsOk, RunningOk, EvidenceOk, AuditsOk, FilesOk;
    hide SuccessOk, ChainOk, BoundariesOk;
  }
}
