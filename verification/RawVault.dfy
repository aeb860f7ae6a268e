/**
 Satellite tables of the Raw Vault: change detection inside one bounded batch, the comparison of
 the batch's first state with the persisted state, and the insert-only merge.

 A DataFrame is a set of rows; a window function is stated by what it selects. `Before` is the
 ascending window order of the builders and `Outranks` the descending order of the readers; both
 put nulls last, so they are not each other's reverse when a null meets a non-null.
 */
module RawVault {
  import opened Wrappers

  datatype Image =
    | Details(columns: seq<string>)
    | Status(deleted: bool)
    | Effectivity(context: string, deleted: bool)

  /** One staged satellite row: parent hash key, state column, audit columns, remaining columns. */
  datatype Row = Row(entity: string, state: string, eventId: string,
                     lsn: Option<int>, effectiveFrom: Option<int>,
                     topic: string, partition: int, offset: int, image: Image)

  function StatusText(deleted: bool): string {
    if deleted then "DELETED" else "ACTIVE"
  }

  /** A persisted row carries the batch that inserted it. */
  datatype Stored = Stored(row: Row, batch: string)

  datatype LoadError = OutOfOrder | DuplicateKey | NoEvents

  // ---------------------------------------------------------------- window orders

  predicate LessNullsLast(a: Option<int>, b: Option<int>) {
    a.Some? && (b.None? || a.value < b.value)
  }

  predicate GreaterNullsLast(a: Option<int>, b: Option<int>) {
    a.Some? && (b.None? || a.value > b.value)
  }

  /** `a` precedes `b` in the order of the change-detection windows. */
  predicate Before(a: Row, b: Row) {
    || LessNullsLast(a.lsn, b.lsn)
    || (a.lsn == b.lsn &&
        (|| LessNullsLast(a.effectiveFrom, b.effectiveFrom)
         || (a.effectiveFrom == b.effectiveFrom &&
             (a.partition < b.partition || (a.partition == b.partition && a.offset < b.offset)))))
  }

  /** What the descending rankings of the readers compare. */
  datatype Position = Position(lsn: Option<int>, effectiveFrom: Option<int>, partition: int, offset: int)

  predicate LaterOffset(a: Position, b: Position) {
    a.partition > b.partition || (a.partition == b.partition && a.offset > b.offset)
  }

  /** `a` is numbered ahead of `b`: LSN before event time, or event time before LSN for detail rows. */
  predicate Ahead(byTime: bool, a: Position, b: Position) {
    if byTime then
      || GreaterNullsLast(a.effectiveFrom, b.effectiveFrom)
      || (a.effectiveFrom == b.effectiveFrom &&
          (GreaterNullsLast(a.lsn, b.lsn) || (a.lsn == b.lsn && LaterOffset(a, b))))
    else
      || GreaterNullsLast(a.lsn, b.lsn)
      || (a.lsn == b.lsn &&
          (|| GreaterNullsLast(a.effectiveFrom, b.effectiveFrom)
           || (a.effectiveFrom == b.effectiveFrom && LaterOffset(a, b))))
  }

  function PositionOf(r: Row): Position {
    Position(r.lsn, r.effectiveFrom, r.partition, r.offset)
  }

  predicate Outranks(byTime: bool, a: Row, b: Row) {
    Ahead(byTime, PositionOf(a), PositionOf(b))
  }

  /** The ascending and the descending order decide the pair alike unless a null decides it. */
  predicate DecidedWithoutNulls(a: Row, b: Row) {
    && (a.lsn.None? <==> b.lsn.None?)
    && (a.lsn == b.lsn ==> (a.effectiveFrom.None? <==> b.effectiveFrom.None?))
  }

  // ---------------------------------------------------------------- change detection

  /** `p` is the row LAG reads for `r`: the nearest earlier row of the same entity. */
  predicate IsLag(rows: set<Row>, p: Row, r: Row) {
    && p in rows && p.entity == r.entity && Before(p, r)
    && forall q | q in rows && q.entity == r.entity && Before(p, q) :: !Before(q, r)
  }

  /** Rows whose state differs from the preceding row of the entity, or that have none. */
  function KeepStateChanges(rows: set<Row>): set<Row> {
    set r | r in rows && !(exists p | p in rows :: IsLag(rows, p, r) && p.state == r.state)
  }

  /** Row number 1 of the entity in the batch order. */
  predicate IsFirst(staged: set<Row>, r: Row) {
    r in staged && forall q | q in staged && q.entity == r.entity :: !Before(q, r)
  }

  /** Row number 1 of the entity in a descending ranking. */
  predicate IsTop(byTime: bool, target: set<Row>, p: Row) {
    p in target && forall q | q in target && q.entity == p.entity :: !Outranks(byTime, q, p)
  }

  /** Row number 1 of the entity in the ranking of persisted rows. */
  predicate IsLatest(target: set<Row>, p: Row) {
    IsTop(false, target, p)
  }

  predicate SameStream(a: Row, b: Row) {
    a.topic == b.topic && a.partition == b.partition
  }

  /** The boundary test: the batch's first position does not advance past the persisted one. */
  predicate NotAfter(r: Row, persisted: Row) {
    || (&& r.lsn.Some? && persisted.lsn.Some?
        && (|| r.lsn.value < persisted.lsn.value
            || (r.lsn.value == persisted.lsn.value && SameStream(r, persisted)
                && r.offset <= persisted.offset)))
    || ((r.lsn.None? || persisted.lsn.None?) && SameStream(r, persisted)
        && r.offset <= persisted.offset)
  }

  // ---------------------------------------------------------------- tables

  function Project(table: set<Stored>): set<Row> {
    set v | v in table :: v.row
  }

  /** What the comparison reads: every persisted row of another batch. */
  function Others(table: set<Stored>, batch: string): set<Row> {
    set v | v in table && v.batch != batch :: v.row
  }

  predicate CrossesBoundary(target: set<Row>, staged: set<Row>) {
    exists r, p | r in staged && p in target ::
      IsFirst(staged, r) && IsLatest(target, p) && p.entity == r.entity && NotAfter(r, p)
  }

  function ChangedRows(target: set<Row>, staged: set<Row>): set<Row> {
    set r | r in staged &&
            !(IsFirst(staged, r) &&
              exists p | p in target :: IsLatest(target, p) && p.entity == r.entity && p.state == r.state)
  }

  function FilterAgainstPersistedState(table: set<Stored>, batch: string, staged: set<Row>)
    : Result<set<Row>, LoadError>
  {
    var target := Others(table, batch);
    if CrossesBoundary(target, staged) then Err(OutOfOrder) else Ok(ChangedRows(target, staged))
  }

  predicate UniqueEvents(rows: set<Row>) {
    forall a, b | a in rows && b in rows && a.eventId == b.eventId :: a == b
  }

  /** WHEN NOT MATCHED THEN INSERT on the source event id. */
  function MergeInsertOnly(table: set<Stored>, batch: string, rows: set<Row>): set<Stored> {
    table + set r | r in rows && !(exists v | v in table :: v.row.eventId == r.eventId) :: Stored(r, batch)
  }

  function LoadTable(table: set<Stored>, batch: string, rows: set<Row>): Result<set<Stored>, LoadError> {
    if UniqueEvents(rows) then Ok(MergeInsertOnly(table, batch, rows)) else Err(DuplicateKey)
  }

  /** One satellite of a bounded run; `events` are the batch's rows before change detection. */
  function LoadBounded(table: set<Stored>, batch: string, events: set<Row>): Result<set<Stored>, LoadError> {
    var filtered := FilterAgainstPersistedState(table, batch, KeepStateChanges(events));
    if filtered.Err? then Err(filtered.error) else LoadTable(table, batch, filtered.value)
  }

  // ---------------------------------------------------------------- source contract

  /** Two events of one entity never share a partition and an offset. */
  ghost predicate DistinctPositions(rows: set<Row>) {
    forall a, b | a in rows && b in rows && a.entity == b.entity && a != b ::
      a.partition != b.partition || a.offset != b.offset
  }

  ghost predicate NoNullDecides(rows: set<Row>) {
    forall a, b | a in rows && b in rows && a.entity == b.entity :: DecidedWithoutNulls(a, b)
  }

  /**
   What the source promises about the rows of one table: event ids identify rows, and the events
   of one entity come from one topic partition and are ordered alike by offset and by the window
   order, no null deciding a pair.
   */
  ghost predicate Contract(rows: set<Row>) {
    && UniqueEvents(rows) && NoNullDecides(rows)
    && forall a, b | a in rows && b in rows && a.entity == b.entity && a != b ::
         SameStream(a, b) && a.offset != b.offset && (a.offset < b.offset <==> Before(a, b))
  }

  /** Every row of `later` lies behind every row of `earlier` of the same entity. */
  ghost predicate Follows(earlier: set<Row>, later: set<Row>) {
    forall a, b | a in earlier && b in later && a.entity == b.entity :: Before(a, b)
  }
}
