/**
 Hubs and links: the first arrival of each hash key, merged insert-only. `K` is the business key
 behind the hash, or the tuple of keys behind a link's hash.
 */
module Hubs {
  import opened Wrappers
  import opened Ordering
  import opened RawVault

  /** Audit columns of a row; `lsn` does not take part in the arrival order. */
  datatype Moment = Moment(loadedAt: Option<int>, effectiveFrom: Option<int>, lsn: Option<int>,
                           topic: string, partition: int, offset: int)

  datatype Arrival<K> = Arrival(key: K, at: Moment)

  /** The window order of keep_first_arrival. */
  predicate Earlier(a: Moment, b: Moment) {
    || LessNullsLast(a.loadedAt, b.loadedAt)
    || (a.loadedAt == b.loadedAt &&
        (|| LessNullsLast(a.effectiveFrom, b.effectiveFrom)
         || (a.effectiveFrom == b.effectiveFrom &&
             (|| (a.topic != b.topic && StringLe(a.topic, b.topic))
              || (a.topic == b.topic && (a.partition < b.partition
                   || (a.partition == b.partition && a.offset < b.offset)))))))
  }

  function IndexOf<K(==)>(rows: seq<Arrival<K>>, key: K): (i: nat)
    ensures i <= |rows|
    ensures i < |rows| ==> rows[i].key == key
    ensures i == |rows| ==> forall k | 0 <= k < |rows| :: rows[k].key != key
  {
    if rows == [] then 0
    else if rows[0].key == key then 0
    else IndexOf(rows[1..], key) + 1
  }

  function Absorb<K(==)>(kept: seq<Arrival<K>>, r: Arrival<K>): seq<Arrival<K>> {
    var i := IndexOf(kept, r.key);
    if i == |kept| then kept + [r]
    else if Earlier(r.at, kept[i].at) then kept[i := r]
    else kept
  }

  /** One row per key: the one no other row of the key arrives before. */
  function KeepFirstArrival<K(==)>(rows: seq<Arrival<K>>): seq<Arrival<K>> {
    if rows == [] then [] else Absorb(KeepFirstArrival(rows[..|rows| - 1]), rows[|rows| - 1])
  }

  function KeysOf<K>(rows: seq<Arrival<K>>): set<K> {
    set i | 0 <= i < |rows| :: rows[i].key
  }

  predicate OnePerKey<K(==)>(rows: seq<Arrival<K>>) {
    forall i, j | 0 <= i < j < |rows| :: rows[i].key != rows[j].key
  }

  /** WHEN NOT MATCHED THEN INSERT on the hash key. */
  function MergeByKey<K(==)>(table: seq<Arrival<K>>, rows: seq<Arrival<K>>): seq<Arrival<K>> {
    if rows == [] then table else
    var merged, r := MergeByKey(table, rows[..|rows| - 1]), rows[|rows| - 1];
    if r.key in KeysOf(table) then merged else merged + [r]
  }

  /** The rows a merge inserts. */
  function Unstored<K(==)>(table: seq<Arrival<K>>, rows: seq<Arrival<K>>): seq<Arrival<K>> {
    if rows == [] then [] else
    var rest, r := Unstored(table, rows[..|rows| - 1]), rows[|rows| - 1];
    if r.key in KeysOf(table) then rest else rest + [r]
  }

  /** One bounded load of a hub or link. */
  function LoadByKey<K(==)>(table: seq<Arrival<K>>, batch: seq<Arrival<K>>): seq<Arrival<K>> {
    MergeByKey(table, KeepFirstArrival(batch))
  }

  function LoadAll<K(==)>(batches: seq<seq<Arrival<K>>>): seq<Arrival<K>> {
    if batches == [] then [] else LoadByKey(LoadAll(batches[..|batches| - 1]), batches[|batches| - 1])
  }

  function Concat<T>(batches: seq<seq<T>>): seq<T> {
    if batches == [] then [] else Concat(batches[..|batches| - 1]) + batches[|batches| - 1]
  }

  // ---------------------------------------------------------------- first arrivals

  lemma EarlierIsOrder(a: Moment, b: Moment, c: Moment)
    ensures !Earlier(a, a)
    ensures Earlier(a, b) && Earlier(b, c) ==> Earlier(a, c)
    ensures !(Earlier(a, b) && Earlier(b, a))
  {
    StringLeTotal(a.topic, b.topic);
    StringLeTotal(b.topic, c.topic);
    StringLeTotal(a.topic, c.topic);
    if StringLe(a.topic, b.topic) && StringLe(b.topic, c.topic) { StringLeTransitive(a.topic, b.topic, c.topic); }
  }

  /** The row kept for a key is in the batch and nothing of its key arrives before it. */
  ghost predicate FirstArrivals<K(!new)>(kept: seq<Arrival<K>>, rows: seq<Arrival<K>>) {
    && OnePerKey(kept) && KeysOf(kept) == KeysOf(rows)
    && (forall i | 0 <= i < |kept| :: kept[i] in rows)
    && (forall i, r | 0 <= i < |kept| && r in rows && r.key == kept[i].key :: !Earlier(r.at, kept[i].at))
  }

  lemma KeysGrow<K>(rows: seq<Arrival<K>>, r: Arrival<K>)
    ensures KeysOf(rows + [r]) == KeysOf(rows) + {r.key}
  {
    var all := rows + [r];
    forall k ensures k in KeysOf(all) <==> k in KeysOf(rows) + {r.key} {
      if k in KeysOf(rows) {
        var i :| 0 <= i < |rows| && rows[i].key == k;
        assert all[i].key == k;
      }
      assert all[|rows|].key == r.key;
    }
  }

  lemma KeysOfUpdate<K>(rows: seq<Arrival<K>>, i: nat, r: Arrival<K>)
    requires i < |rows| && rows[i].key == r.key
    ensures KeysOf(rows[i := r]) == KeysOf(rows)
  {
    var after := rows[i := r];
    forall k ensures k in KeysOf(after) <==> k in KeysOf(rows) {
      if k in KeysOf(rows) {
        var j :| 0 <= j < |rows| && rows[j].key == k;
        assert after[j].key == k;
      }
    }
  }

  lemma {:induction false} KeptAreFirstArrivals<K(!new)>(rows: seq<Arrival<K>>)
    ensures FirstArrivals(KeepFirstArrival(rows), rows)
  {
    if rows != [] {
      var front, r := rows[..|rows| - 1], rows[|rows| - 1];
      KeptAreFirstArrivals(front);
      assert front + [r] == rows;
      KeysGrow(front, r);
      AbsorbKeepsFirst(KeepFirstArrival(front), front, r);
    }
  }

  lemma AbsorbKeepsFirst<K(!new)>(kept: seq<Arrival<K>>, rows: seq<Arrival<K>>, r: Arrival<K>)
    requires FirstArrivals(kept, rows)
    ensures FirstArrivals(Absorb(kept, r), rows + [r])
  {
    var i := IndexOf(kept, r.key);
    var after := Absorb(kept, r);
    KeysGrow(rows, r);
    hide Earlier, IndexOf;
    if i == |kept| {
      KeysGrow(kept, r);
      EarlierIsOrder(r.at, r.at, r.at);
      forall x | x in rows ensures x.key != r.key {
        var j :| 0 <= j < |rows| && rows[j] == x;
        assert rows[j].key in KeysOf(kept);
      }
    } else {
      KeysOfUpdate(kept, i, r);
      assert kept[i].key in KeysOf(kept);
      forall x | x in rows + [r] ensures !Earlier(x.at, after[i].at) || x.key != r.key {
        EarlierIsOrder(x.at, r.at, kept[i].at);
        EarlierIsOrder(r.at, kept[i].at, r.at);
      }
    }
  }

  /** Ascending, nulls last. */
  predicate NotAfter(a: Option<int>, b: Option<int>) {
    b.None? || (a.Some? && a.value <= b.value)
  }

  /** The topics are in code-point order. */
  ghost predicate TopicNotAfter(a: string, b: string) {
    a <= b || exists i :: 0 <= i < |a| && i < |b| && a[..i] == b[..i] && a[i] < b[i]
  }

  /**
   The row kept for a key was loaded no later than any other of its key; among those loaded with it
   none is effective before it; and among those none comes before it by topic, partition and offset.
   */
  lemma FirstArrivalInFields<K(!new)>(rows: seq<Arrival<K>>, k: Arrival<K>, r: Arrival<K>)
    requires k in KeepFirstArrival(rows) && r in rows && r.key == k.key
    ensures NotAfter(k.at.loadedAt, r.at.loadedAt)
    ensures k.at.loadedAt == r.at.loadedAt ==> NotAfter(k.at.effectiveFrom, r.at.effectiveFrom)
    ensures k.at.loadedAt == r.at.loadedAt && k.at.effectiveFrom == r.at.effectiveFrom ==>
              && TopicNotAfter(k.at.topic, r.at.topic)
              && (k.at.topic == r.at.topic ==>
                    k.at.partition < r.at.partition
                    || (k.at.partition == r.at.partition && k.at.offset <= r.at.offset))
  {
    KeptAreFirstArrivals(rows);
    var kept := KeepFirstArrival(rows);
    var i :| 0 <= i < |kept| && kept[i] == k;
    assert !Earlier(r.at, kept[i].at);
    StringLeTotal(k.at.topic, r.at.topic);
    StringLeIsLexicographic(k.at.topic, r.at.topic);
  }

  // ---------------------------------------------------------------- merges

  lemma MemberKey<K>(rows: seq<Arrival<K>>, r: Arrival<K>)
    requires r in rows
    ensures r.key in KeysOf(rows)
  {
    var i :| 0 <= i < |rows| && rows[i] == r;
    assert rows[i].key in KeysOf(rows);
  }

  lemma {:induction false} MergeMembers<K(!new)>(table: seq<Arrival<K>>, rows: seq<Arrival<K>>)
    ensures table <= MergeByKey(table, rows)
    ensures forall r :: r in MergeByKey(table, rows) <==> r in table || (r in rows && r.key !in KeysOf(table))
  {
    hide KeysOf;
    if rows != [] { MergeMembers(table, rows[..|rows| - 1]); }
  }

  lemma AppendNewKey<K>(rows: seq<Arrival<K>>, r: Arrival<K>)
    requires OnePerKey(rows) && r.key !in KeysOf(rows)
    ensures OnePerKey(rows + [r])
  {
    forall i | 0 <= i < |rows| ensures rows[i].key != r.key {
      assert rows[i].key in KeysOf(rows);
    }
  }

  lemma {:induction false} MergeExact<K(!new)>(table: seq<Arrival<K>>, rows: seq<Arrival<K>>)
    requires OnePerKey(table) && OnePerKey(rows)
    ensures OnePerKey(MergeByKey(table, rows)) && KeysOf(MergeByKey(table, rows)) == KeysOf(table) + KeysOf(rows)
  {
    if rows == [] {
      assert KeysOf(rows) == {};
    } else {
      var front, last := rows[..|rows| - 1], rows[|rows| - 1];
      MergeExact(table, front);
      assert front + [last] == rows;
      KeysGrow(front, last);
      var merged := MergeByKey(table, front);
      KeysGrow(merged, last);
      LastKeyIsNew(rows);
      hide KeysOf;
      if last.key !in KeysOf(table) { AppendNewKey(merged, last); }
    }
  }

  lemma LastKeyIsNew<K>(rows: seq<Arrival<K>>)
    requires OnePerKey(rows) && rows != []
    ensures OnePerKey(rows[..|rows| - 1]) && rows[|rows| - 1].key !in KeysOf(rows[..|rows| - 1])
  {
  }

  lemma {:induction false} MergeOfKnownKeys<K(!new)>(table: seq<Arrival<K>>, rows: seq<Arrival<K>>)
    requires KeysOf(rows) <= KeysOf(table)
    ensures MergeByKey(table, rows) == table
  {
    if rows != [] {
      var front, last := rows[..|rows| - 1], rows[|rows| - 1];
      assert front + [last] == rows;
      KeysGrow(front, last);
      MergeOfKnownKeys(table, front);
    }
  }

  /** A load adds the batch's new keys, never touches a stored row, and repeated adds nothing. */
  lemma LoadIsInsertOnly<K(!new)>(table: seq<Arrival<K>>, batch: seq<Arrival<K>>)
    requires OnePerKey(table)
    ensures var after := LoadByKey(table, batch);
            && OnePerKey(after) && table <= after && KeysOf(after) == KeysOf(table) + KeysOf(batch)
            && LoadByKey(after, batch) == after
  {
    KeptAreFirstArrivals(batch);
    MergeExact(table, KeepFirstArrival(batch));
    MergeMembers(table, KeepFirstArrival(batch));
    MergeOfKnownKeys(LoadByKey(table, batch), KeepFirstArrival(batch));
  }

  /** A load adds nothing exactly when it offers stored keys only. */
  lemma LoadAddsNothingExactly<K(!new)>(table: seq<Arrival<K>>, batch: seq<Arrival<K>>)
    ensures LoadByKey(table, batch) == table <==> KeysOf(batch) <= KeysOf(table)
    ensures KeysOf(table) <= KeysOf(LoadByKey(table, batch)) && KeysOf(batch) <= KeysOf(LoadByKey(table, batch))
  {
    var kept, after := KeepFirstArrival(batch), LoadByKey(table, batch);
    KeptAreFirstArrivals(batch);
    MergeMembers(table, kept);
    hide KeepFirstArrival, MergeByKey;
    forall k | k in KeysOf(table) || k in KeysOf(batch) ensures k in KeysOf(after) {
      if k in KeysOf(table) {
        SomeOfKey(table, k);
        var r :| r in table && r.key == k;
        MemberKey(after, r);
      } else {
        SomeOfKey(kept, k);
        var r :| r in kept && r.key == k;
        MemberKey(after, r);
      }
    }
    if KeysOf(batch) <= KeysOf(table) { MergeOfKnownKeys(table, kept); }
  }

  lemma KeysAfterLoad<K(!new)>(table: seq<Arrival<K>>, rows: seq<Arrival<K>>)
    ensures KeysOf(LoadByKey(table, rows)) == KeysOf(table) + KeysOf(rows)
    ensures rows == [] ==> KeysOf(rows) == {}
  {
    LoadAddsNothingExactly(table, rows);
    KeptAreFirstArrivals(rows);
    var kept, after := KeepFirstArrival(rows), LoadByKey(table, rows);
    MergeMembers(table, kept);
    forall k | k in KeysOf(after) ensures k in KeysOf(table) + KeysOf(rows) {
      SomeOfKey(after, k);
      var r :| r in after && r.key == k;
      if r in table { MemberKey(table, r); } else { MemberKey(kept, r); }
    }
  }

  lemma {:induction false} MergeAppends<K(!new)>(table: seq<Arrival<K>>, rows: seq<Arrival<K>>)
    ensures MergeByKey(table, rows) == table + Unstored(table, rows)
    ensures forall r :: r in Unstored(table, rows) <==> r in rows && r.key !in KeysOf(table)
  {
    hide KeysOf;
    if rows != [] {
      var front, last := rows[..|rows| - 1], rows[|rows| - 1];
      MergeAppends(table, front);
      assert forall r :: r in rows <==> r in front || r == last;
      assert table + Unstored(table, front) + [last] == table + (Unstored(table, front) + [last]);
    }
  }

  /** After any batches the table has one row per business key ever seen. */
  lemma {:induction false} HubHasEveryKeyOnce<K(!new)>(batches: seq<seq<Arrival<K>>>)
    ensures OnePerKey(LoadAll(batches)) && KeysOf(LoadAll(batches)) == KeysOf(Concat(batches))
  {
    if batches == [] {
      assert KeysOf<K>([]) == {};
    } else {
      var front, last := batches[..|batches| - 1], batches[|batches| - 1];
      HubHasEveryKeyOnce(front);
      LoadIsInsertOnly(LoadAll(front), last);
      KeysOfConcat(Concat(front), last);
    }
  }

  lemma KeysOfConcat<K>(a: seq<Arrival<K>>, b: seq<Arrival<K>>)
    ensures KeysOf(a + b) == KeysOf(a) + KeysOf(b)
  {
    forall k ensures k in KeysOf(a + b) <==> k in KeysOf(a) + KeysOf(b) {
      if k in KeysOf(a) {
        var i :| 0 <= i < |a| && a[i].key == k;
        assert (a + b)[i].key == k;
      }
      if k in KeysOf(b) {
        var i :| 0 <= i < |b| && b[i].key == k;
        assert (a + b)[|a| + i].key == k;
      }
    }
  }

  // ---------------------------------------------------------------- incremental hub = rebuilt hub

  ghost predicate IsFirstBatch<K(!new)>(batches: seq<seq<Arrival<K>>>, i: nat, key: K) {
    i < |batches| && key in KeysOf(batches[i]) && forall h | 0 <= h < i :: key !in KeysOf(batches[h])
  }

  /** No arrival of a later batch precedes all arrivals of its key in the first batch that has the key. */
  ghost predicate FirstBatchIsFirst<K(!new)>(batches: seq<seq<Arrival<K>>>) {
    forall i, j, b | 0 <= i < j < |batches| && b in batches[j] && IsFirstBatch(batches, i, b.key) ::
      NotBeforeAll(b, batches[i])
  }

  ghost predicate NotBeforeAll<K(!new)>(b: Arrival<K>, rows: seq<Arrival<K>>) {
    exists a :: a in rows && a.key == b.key && !Earlier(b.at, a.at)
  }

  lemma {:induction false} InConcat<K(!new)>(batches: seq<seq<Arrival<K>>>, r: Arrival<K>)
    ensures r in Concat(batches) <==> exists i :: 0 <= i < |batches| && r in batches[i]
  {
    if batches != [] {
      var front := batches[..|batches| - 1];
      InConcat(front, r);
      if i :| 0 <= i < |front| && r in front[i] { assert r in batches[i]; }
      if i :| 0 <= i < |batches| && r in batches[i] && i < |front| { assert r in front[i]; }
    }
  }

  /** A stored row is a first arrival within the first batch that has its key. */
  ghost predicate FromFirstBatch<K(!new)>(batches: seq<seq<Arrival<K>>>, i: nat, m: Arrival<K>) {
    IsFirstBatch(batches, i, m.key) && m in batches[i] && forall x | x in batches[i] && x.key == m.key ::
        !Earlier(x.at, m.at)
  }

  lemma {:induction false} StoredFromFirstBatch<K(!new)>(batches: seq<seq<Arrival<K>>>, m: Arrival<K>) returns (i: nat)
    requires m in LoadAll(batches)
    ensures FromFirstBatch(batches, i, m)
  {
    hide KeysOf, Earlier, KeepFirstArrival, MergeByKey, IsFirstBatch;
    var front, last := batches[..|batches| - 1], batches[|batches| - 1];
    var table := LoadAll(front);
    KeptAreFirstArrivals(last);
    MergeMembers(table, KeepFirstArrival(last));
    if m in table {
      i := StoredFromFirstBatch(front, m);
      SameFirstBatch(batches, i, m.key);
    } else {
      i := |front|;
      var k :| 0 <= k < |KeepFirstArrival(last)| && KeepFirstArrival(last)[k] == m;
      MemberKey(last, m);
      NewKeyOpens(batches, m.key);
    }
  }

  lemma SameFirstBatch<K(!new)>(batches: seq<seq<Arrival<K>>>, i: nat, key: K)
    requires batches != [] && IsFirstBatch(batches[..|batches| - 1], i, key)
    ensures IsFirstBatch(batches, i, key) && batches[..|batches| - 1][i] == batches[i]
  {
    hide KeysOf;
  }

  lemma NewKeyOpens<K(!new)>(batches: seq<seq<Arrival<K>>>, key: K)
    requires batches != [] && key in KeysOf(batches[|batches| - 1]) && key !in KeysOf(LoadAll(batches[..|batches| - 1]))
    ensures IsFirstBatch(batches, |batches| - 1, key)
  {
    hide KeysOf;
    var front := batches[..|batches| - 1];
    HubHasEveryKeyOnce(front);
    forall h | 0 <= h < |front| ensures key !in KeysOf(batches[h]) {
      if key in KeysOf(batches[h]) {
        SomeOfKey(batches[h], key);
        var r :| r in batches[h] && r.key == key;
        assert front[h] == batches[h];
        InConcat(front, r);
        MemberKey(Concat(front), r);
      }
    }
  }

  lemma EarlierIsWeak(r: Moment, m: Moment, a: Moment)
    requires Earlier(r, m) && !Earlier(a, m)
    ensures Earlier(r, a)
  {
    EarlierIsOrder(r, m, a);
    StringLeTotal(m.topic, a.topic);
    StringLeTotal(r.topic, a.topic);
    StringLeTotal(r.topic, m.topic);
    if StringLe(r.topic, m.topic) && StringLe(m.topic, a.topic) { StringLeTransitive(r.topic, m.topic, a.topic); }
  }

  /**
   Loading batch by batch stores, for each key, a first arrival over the whole history, if and only
   if no later batch brings an arrival before all those of the key's first batch.
   */
  lemma IncrementalHubIsRebuild<K(!new)>(batches: seq<seq<Arrival<K>>>)
    ensures FirstArrivals(LoadAll(batches), Concat(batches)) <==> FirstBatchIsFirst(batches)
  {
    if FirstBatchIsFirst(batches) { FirstBatchesGiveRebuild(batches); }
    if FirstArrivals(LoadAll(batches), Concat(batches)) { RebuildNeedsFirstBatches(batches); }
  }

  lemma RebuildNeedsFirstBatches<K(!new)>(batches: seq<seq<Arrival<K>>>)
    requires FirstArrivals(LoadAll(batches), Concat(batches))
    ensures FirstBatchIsFirst(batches)
  {
    hide LoadAll, Concat, KeysOf, OnePerKey, Earlier;
    var table := LoadAll(batches);
    forall i, j, b | 0 <= i < j < |batches| && b in batches[j] && IsFirstBatch(batches, i, b.key)
      ensures NotBeforeAll(b, batches[i])
    {
      InConcat(batches, b);
      MemberKey(Concat(batches), b);
      SomeOfKey(table, b.key);
      var m :| m in table && m.key == b.key;
      var f := StoredFromFirstBatch(batches, m);
      assert f == i;
      var k :| 0 <= k < |table| && table[k] == m;
      assert !Earlier(b.at, m.at);
    }
  }

  lemma FirstBatchesGiveRebuild<K(!new)>(batches: seq<seq<Arrival<K>>>)
    requires FirstBatchIsFirst(batches)
    ensures FirstArrivals(LoadAll(batches), Concat(batches))
  {
    hide LoadAll, Concat, OnePerKey, Earlier, FirstBatchIsFirst, KeysOf;
    HubHasEveryKeyOnce(batches);
    var table := LoadAll(batches);
    forall k | 0 <= k < |table| ensures table[k] in Concat(batches) {
      var i := StoredFromFirstBatch(batches, table[k]);
      InConcat(batches, table[k]);
    }
    forall k, r | 0 <= k < |table| && r in Concat(batches) && r.key == table[k].key
      ensures !Earlier(r.at, table[k].at)
    {
      StoredIsEarliest(batches, table[k], r);
    }
  }

  lemma StoredIsEarliest<K(!new)>(batches: seq<seq<Arrival<K>>>, m: Arrival<K>, r: Arrival<K>)
    requires FirstBatchIsFirst(batches) && m in LoadAll(batches) && r in Concat(batches) && r.key == m.key
    ensures !Earlier(r.at, m.at)
  {
    hide LoadAll, Concat, Earlier, KeysOf;
    var i := StoredFromFirstBatch(batches, m);
    InConcat(batches, r);
    var j :| 0 <= j < |batches| && r in batches[j];
    MemberKey(batches[j], r);
    if i < j {
      assert NotBeforeAll(r, batches[i]);
      var a :| a in batches[i] && a.key == r.key && !Earlier(r.at, a.at);
      if Earlier(r.at, m.at) { EarlierIsWeak(r.at, m.at, a.at); }
    }
  }

  lemma SomeOfKey<K>(rows: seq<Arrival<K>>, key: K)
    requires key in KeysOf(rows)
    ensures exists r :: r in rows && r.key == key
  {
    var i :| 0 <= i < |rows| && rows[i].key == key;
    assert rows[i] in rows;
  }
}
