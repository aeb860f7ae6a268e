/**
 The Bronze writer: poll in offset order, create the object only if its key is absent, otherwise
 verify it, and commit the offset after that. Any number of writers may run, crash and restart,
 and committed offsets may be reset to the earliest.
 */
module Bronze {
  import opened Wrappers
  import opened Encodings

  type Part = (string, nat)

  /** A Kafka message; `readable` is false when its key, value or envelope does not parse. */
  datatype Message = Message(day: string, schema: string, table: string, key: string, value: string, readable: bool)

  /** What the body of an object says besides its digests. */
  datatype Document = Document(schema: string, table: string, topic: string, partition: nat, offset: nat,
                               key: string, value: string)

  /** The identities behind the two SHA-256 digests, the event coordinate and the raw payload, and the body. */
  datatype Record = Record(objectKey: string, eventId: string, payload: string, document: Document)

  datatype StoredObject = StoredObject(eventId: string, payload: string, document: Document, ingestedAt: int)

  datatype WriterError = BadMessage | ConflictingObject | StorageFailure | BrokerFailure

  const ALLOWED_SCHEMAS: set<string> := {"mms", "krd", "prm"}

  // ---------------------------------------------------------------- build_record

  predicate SafeChar(c: char) {
    'A' <= c <= 'Z' || 'a' <= c <= 'z' || '0' <= c <= '9' || c == '_' || c == '.' || c == '-'
  }

  predicate SafeComponent(s: string) {
    s != "" && forall i | 0 <= i < |s| :: SafeChar(s[i])
  }

  predicate Acceptable(p: Part, m: Message) {
    SafeComponent(p.0) && m.readable && SafeComponent(m.schema) && SafeComponent(m.table) && m.schema in ALLOWED_SCHEMAS
  }

  function Folder(m: Message): string {
    "bronze/cdc/source=core_banking/schema=" + m.schema + "/table=" + m.table + "/event_date=" + m.day
  }

  /** The object key depends on the message alone, so every delivery of it names the same object. */
  function KeyOf(p: Part, offset: nat, m: Message): string {
    ObjectKey(Folder(m), p.0, p.1, offset)
  }

  function EventId(p: Part, offset: nat): string {
    p.0 + ":" + Decimal(p.1) + ":" + Decimal(offset)
  }

  function PayloadOf(m: Message): string {
    m.key + [0 as char] + m.value
  }

  function DocumentOf(p: Part, offset: nat, m: Message): Document {
    Document(m.schema, m.table, p.0, p.1, offset, m.key, m.value)
  }

  function BuildRecord(p: Part, offset: nat, m: Message): Result<Record, WriterError> {
    if Acceptable(p, m)
    then Ok(Record(KeyOf(p, offset, m), EventId(p, offset), PayloadOf(m), DocumentOf(p, offset, m)))
    else Err(BadMessage)
  }

  function ObjectOf(r: Record, now: int): StoredObject {
    StoredObject(r.eventId, r.payload, r.document, now)
  }

  lemma KeysAreDistinct(p: Part, o: nat, m: Message, q: Part, r: nat, n: Message)
    requires SafeComponent(p.0) && SafeComponent(q.0) && KeyOf(p, o, m) == KeyOf(q, r, n)
    ensures p == q && o == r
  {
    assert '/' !in p.0 && '/' !in q.0;
    KeysDetermineCoordinates(Folder(m), p.0, p.1, o, Folder(n), q.0, q.1, r);
  }

  // ---------------------------------------------------------------- persist_record

  /** The existing object carries the record's event id and payload digest. */
  predicate SameEvent(stored: StoredObject, r: Record) {
    stored.eventId == r.eventId && stored.payload == r.payload
  }

  /** Conditional create with If-None-Match "*"; on 412 the existing object is verified. */
  function Persist(store: map<string, StoredObject>, r: Record, now: int)
    : Result<map<string, StoredObject>, WriterError>
  {
    if r.objectKey !in store then Ok(store[r.objectKey := ObjectOf(r, now)])
    else if SameEvent(store[r.objectKey], r) then Ok(store)
    else Err(ConflictingObject)
  }

  // ---------------------------------------------------------------- several writers

  datatype Stage = Idle | Polled(part: Part, offset: nat) | Persisted(part: Part, offset: nat)

  datatype Writer = Writer(position: map<Part, nat>, stage: Stage)

  /** Kafka logs, the object store, the committed offsets of the group, and the running writers. */
  datatype State = State(logs: map<Part, seq<Message>>, store: map<string, StoredObject>,
                         committed: map<Part, nat>, writers: map<string, Writer>)

  datatype Step =
    | Produce(p: Part, m: Message)
    | Launch(w: string)
    | Assign(w: string, p: Part)
    | Poll(w: string, p: Part)
    | Put(w: string, now: int)
    | Commit(w: string)
    | Crash(w: string)
    | ResetToEarliest(p: Part)

  function LogOf(s: State, p: Part): seq<Message> {
    if p in s.logs then s.logs[p] else []
  }

  function Stop(s: State, w: string): State {
    s.(writers := s.writers - {w})
  }

  function PutStep(s: State, w: string, now: int): State
    requires w in s.writers && s.writers[w].stage.Polled?
  {
    var stage := s.writers[w].stage;
    if stage.offset >= |LogOf(s, stage.part)| then s else
    var built := BuildRecord(stage.part, stage.offset, LogOf(s, stage.part)[stage.offset]);
    if built.Err? then Stop(s, w) else
    var stored := Persist(s.store, built.value, now);
    if stored.Err? then Stop(s, w)
    else
      s.(store := stored.value,
         writers := s.writers[w := s.writers[w].(stage := Persisted(stage.part, stage.offset))])
  }

  /** One step of the environment or of a writer; a step that is not possible does nothing. */
  function Next(s: State, step: Step): State {
    match step
    case Produce(p, m) => if SafeComponent(p.0) then s.(logs := s.logs[p := LogOf(s, p) + [m]]) else s
    case Launch(w) => s.(writers := s.writers[w := Writer(map[], Idle)])
    case Assign(w, p) =>
      if w in s.writers && s.writers[w].stage.Idle? && p in s.logs
      then
        var o := if p in s.committed then s.committed[p] else 0;
        s.(writers := s.writers[w := s.writers[w].(position := s.writers[w].position[p := o])])
      else s
    case Poll(w, p) =>
      if w in s.writers && s.writers[w].stage.Idle? && p in s.writers[w].position
          && s.writers[w].position[p] < |LogOf(s, p)|
      then var o := s.writers[w].position[p];
           s.(writers := s.writers[w := Writer(s.writers[w].position[p := o + 1], Polled(p, o))])
      else s
    case Put(w, now) => if w in s.writers && s.writers[w].stage.Polled? then PutStep(s, w, now) else s
    case Commit(w) =>
      if w in s.writers && s.writers[w].stage.Persisted?
      then s.(committed := s.committed[s.writers[w].stage.part := s.writers[w].stage.offset + 1],
              writers := s.writers[w := s.writers[w].(stage := Idle)])
      else s
    case Crash(w) => Stop(s, w)
    case ResetToEarliest(p) => s.(committed := s.committed - {p})
  }

  /** A run over an object store that may already hold objects under any keys. */
  function Run(existing: map<string, StoredObject>, steps: seq<Step>): State {
    if steps == [] then State(map[], existing, map[], map[])
        else Next(Run(existing, steps[..|steps| - 1]), steps[|steps| - 1])
  }

  // ---------------------------------------------------------------- invariant

  predicate StoredEvent(s: State, p: Part, o: nat)
    requires o < |LogOf(s, p)|
  {
    var r := BuildRecord(p, o, LogOf(s, p)[o]);
    r.Ok? && r.value.objectKey in s.store && SameEvent(s.store[r.value.objectKey], r.value)
  }

  /** A writer is at most one uncommitted message ahead of the persisted prefix. */
  predicate WriterBehind(w: Writer, p: Part, n: nat) {
    && (w.stage.Polled? && w.stage.part == p ==>
         w.stage.offset <= n && p in w.position && w.position[p] == w.stage.offset + 1)
    && (w.stage.Persisted? && w.stage.part == p ==> w.stage.offset < n)
    && (p in w.position && !(w.stage.Polled? && w.stage.part == p) ==> w.position[p] <= n)
  }

  /** The first n messages of the partition are stored, and everything committed or polled is among them. */
  ghost predicate PersistedPrefix(existing: map<string, StoredObject>, s: State, p: Part, n: nat) {
    && n <= |LogOf(s, p)|
    && (forall o: nat | o < n :: StoredEvent(s, p, o))
    && (forall o: nat | n <= o < |LogOf(s, p)| && KeyOf(p, o, LogOf(s, p)[o]) in s.store ::
         KeyOf(p, o, LogOf(s, p)[o]) in existing)
    && (p in s.committed ==> s.committed[p] <= n)
    && (forall w | w in s.writers :: WriterBehind(s.writers[w], p, n))
  }

  /** The object is what the writer builds of the message at the offset. */
  ghost predicate BuiltFrom(s: State, k: string, p: Part, o: nat)
    requires k in s.store
  {
    && o < |LogOf(s, p)| && k == KeyOf(p, o, LogOf(s, p)[o]) && Acceptable(p, LogOf(s, p)[o])
    && BuildRecord(p, o, LogOf(s, p)[o]).Ok?
    && s.store[k] == ObjectOf(BuildRecord(p, o, LogOf(s, p)[o]).value, s.store[k].ingestedAt)
  }

  /** Every object is an earlier one or is built from a message of a log. */
  ghost predicate OnlyEvents(existing: map<string, StoredObject>, s: State) {
    forall k | k in s.store && k !in existing :: exists p, o: nat :: BuiltFrom(s, k, p, o)
  }

  ghost predicate LogsSafe(s: State) {
    forall p | p in s.logs :: SafeComponent(p.0)
  }

  ghost predicate HasPrefix(existing: map<string, StoredObject>, s: State, p: Part) {
    exists n: nat :: PersistedPrefix(existing, s, p, n)
  }

  ghost predicate Inv(existing: map<string, StoredObject>, s: State) {
    LogsSafe(s) && forall p :: HasPrefix(existing, s, p)
  }

  /** Stored objects are never removed or changed. */
  ghost predicate StoreGrows(before: map<string, StoredObject>, after: map<string, StoredObject>) {
    forall k | k in before :: k in after && after[k] == before[k]
  }

  lemma StepNeverOverwrites(s: State, step: Step)
    ensures StoreGrows(s.store, Next(s, step).store)
  {
    hide KeyOf, EventId, PayloadOf, Acceptable, SafeComponent;
  }

  /** Whatever writers do, an object that once exists keeps its body. */
  lemma {:induction false} NothingIsOverwritten(existing: map<string, StoredObject>, steps: seq<Step>, k: nat)
    requires k <= |steps|
    ensures StoreGrows(Run(existing, steps[..k]).store, Run(existing, steps).store)
  {
    hide Next;
    if k == |steps| {
      assert steps[..k] == steps;
    } else {
      var front := steps[..|steps| - 1];
      assert front[..k] == steps[..k];
      NothingIsOverwritten(existing, front, k);
      StepNeverOverwrites(Run(existing, front), steps[|steps| - 1]);
    }
  }

  // ---------------------------------------------------------------- the prefix is kept

  lemma ProduceKeeps(existing: map<string, StoredObject>, s: State, q: Part, m: Message, p: Part, n: nat)
    requires PersistedPrefix(existing, s, p, n) && LogsSafe(s) && SafeComponent(q.0) && OnlyEvents(existing, s)
    ensures PersistedPrefix(existing, Next(s, Produce(q, m)), p, n)
  {
    hide KeyOf, EventId, PayloadOf, Acceptable, SafeComponent;
    var after := Next(s, Produce(q, m));
    forall o: nat | o < n ensures StoredEvent(after, p, o) {
      assert StoredEvent(s, p, o);
      assert LogOf(after, p)[o] == LogOf(s, p)[o];
    }
    forall o: nat | n <= o < |LogOf(after, p)| && KeyOf(p, o, LogOf(after, p)[o]) in s.store
      ensures KeyOf(p, o, LogOf(after, p)[o]) in existing
    {
      if o < |LogOf(s, p)| {
        assert LogOf(after, p)[o] == LogOf(s, p)[o];
      } else {
        UnwrittenKey(existing, s, p, o, m);
      }
    }
  }

  /** No writer has created the key of a message that is not in its log yet. */
  lemma UnwrittenKey(existing: map<string, StoredObject>, s: State, p: Part, o: nat, m: Message)
    requires LogsSafe(s) && OnlyEvents(existing, s) && SafeComponent(p.0) && o >= |LogOf(s, p)|
    ensures KeyOf(p, o, m) in s.store ==> KeyOf(p, o, m) in existing
  {
    hide KeyOf, SafeComponent;
    if KeyOf(p, o, m) in s.store && KeyOf(p, o, m) !in existing {
      var q, r: nat :| BuiltFrom(s, KeyOf(p, o, m), q, r);
      KeysAreDistinct(p, o, m, q, r, LogOf(s, q)[r]);
    }
  }

  /** The prefix after a put: one longer when the put persists the next message. */
  function PrefixAfter(s: State, w: string, now: int, p: Part, n: nat): nat
    requires w in s.writers && s.writers[w].stage.Polled?
  {
    var after, stage := PutStep(s, w, now), s.writers[w].stage;
    if stage.part == p && stage.offset == n && w in after.writers && after.writers[w].stage.Persisted? then n + 1 else n
  }

  lemma PutKeepsWriters(existing: map<string, StoredObject>, s: State, w: string, now: int, p: Part, n: nat)
    requires (forall v | v in s.writers :: WriterBehind(s.writers[v], p, n)) && w in s.writers
             && s.writers[w].stage.Polled?
    ensures forall v | v in PutStep(s, w, now).writers ::
              WriterBehind(PutStep(s, w, now).writers[v], p, PrefixAfter(s, w, now, p, n))
  {
    hide BuildRecord, Persist;
    assert WriterBehind(s.writers[w], p, n);
  }

  lemma PutKeepsStored(s: State, w: string, now: int, p: Part, n: nat)
    requires n <= |LogOf(s, p)| && (forall o: nat | o < n :: StoredEvent(s, p, o)) && w in s.writers
             && s.writers[w].stage.Polled?
    ensures PrefixAfter(s, w, now, p, n) <= |LogOf(s, p)|
    ensures forall o: nat | o < PrefixAfter(s, w, now, p, n) :: StoredEvent(PutStep(s, w, now), p, o)
  {
    hide KeyOf, EventId, PayloadOf, Acceptable, SafeComponent;
    var after := PutStep(s, w, now);
    StepNeverOverwrites(s, Put(w, now));
    forall o: nat | o < PrefixAfter(s, w, now, p, n) ensures StoredEvent(after, p, o) {
      if o < n { assert StoredEvent(s, p, o); }
    }
  }

  lemma PutKeepsPrefix(existing: map<string, StoredObject>, s: State, w: string, now: int, p: Part, n: nat)
    returns (k: nat)
    requires PersistedPrefix(existing, s, p, n) && LogsSafe(s) && w in s.writers && s.writers[w].stage.Polled?
    ensures PersistedPrefix(existing, PutStep(s, w, now), p, k)
  {
    k := PrefixAfter(s, w, now, p, n);
    PutKeepsWriters(existing, s, w, now, p, n);
    PutKeepsStored(s, w, now, p, n);
    PutKeepsRest(s, w, now);
    hide KeyOf, SafeComponent, BuildRecord, WriterBehind, StoredEvent, SameEvent;
    var after := PutStep(s, w, now);
    forall o: nat | k <= o < |LogOf(s, p)| && KeyOf(p, o, LogOf(s, p)[o]) in after.store
      ensures KeyOf(p, o, LogOf(s, p)[o]) in existing
    {
      if KeyOf(p, o, LogOf(s, p)[o]) !in s.store {
        PutNamesItsOwn(s, w, now, p, o);
      }
    }
  }

  lemma PutKeepsRest(s: State, w: string, now: int)
    requires w in s.writers && s.writers[w].stage.Polled?
    ensures PutStep(s, w, now).logs == s.logs && PutStep(s, w, now).committed == s.committed
  {
    hide BuildRecord, Persist;
  }

  /** A put creates no key but that of the polled message. */
  lemma PutNamesItsOwn(s: State, w: string, now: int, p: Part, o: nat)
    requires LogsSafe(s) && w in s.writers && s.writers[w].stage.Polled? && o < |LogOf(s, p)|
    requires KeyOf(p, o, LogOf(s, p)[o]) !in s.store && KeyOf(p, o, LogOf(s, p)[o]) in PutStep(s, w, now).store
    ensures p == s.writers[w].stage.part && o == s.writers[w].stage.offset && w in PutStep(s, w, now).writers
    ensures PutStep(s, w, now).writers[w].stage == Persisted(p, o)
  {
    hide KeyOf, EventId, PayloadOf, Acceptable, SafeComponent;
    var stage := s.writers[w].stage;
    KeysAreDistinct(p, o, LogOf(s, p)[o], stage.part, stage.offset, LogOf(s, stage.part)[stage.offset]);
  }

  lemma StepKeepsPrefix(existing: map<string, StoredObject>, s: State, step: Step, p: Part, n: nat) returns (k: nat)
    requires PersistedPrefix(existing, s, p, n) && LogsSafe(s) && OnlyEvents(existing, s)
    ensures PersistedPrefix(existing, Next(s, step), p, k)
  {
    k := n;
    if step.Produce? {
      if SafeComponent(step.p.0) { ProduceKeeps(existing, s, step.p, step.m, p, n); }
    } else if step.Put? {
      if step.w in s.writers && s.writers[step.w].stage.Polled? {
        k := PutKeepsPrefix(existing, s, step.w, step.now, p, n);
      }
    } else {
      QuietKeepsBounds(existing, s, step, p, n);
      hide Next, PersistedPrefix;
      SameStore(existing, s, Next(s, step), p, n);
    }
  }

  /** Steps that neither produce nor put keep offsets and positions within the prefix. */
  lemma QuietKeepsBounds(existing: map<string, StoredObject>, s: State, step: Step, p: Part, n: nat)
    requires PersistedPrefix(existing, s, p, n) && !step.Produce? && !step.Put?
    ensures var t := Next(s, step);
            && t.logs == s.logs && t.store == s.store && (p in t.committed ==> t.committed[p] <= n)
            && (forall w | w in t.writers :: WriterBehind(t.writers[w], p, n))
  {
    hide StoredEvent, KeyOf;
  }

  lemma SameStore(existing: map<string, StoredObject>, s: State, t: State, p: Part, n: nat)
    requires PersistedPrefix(existing, s, p, n) && t.logs == s.logs && t.store == s.store
    requires p in t.committed ==> t.committed[p] <= n
    requires forall w | w in t.writers :: WriterBehind(t.writers[w], p, n)
    ensures PersistedPrefix(existing, t, p, n)
  {
    hide KeyOf, BuildRecord, SameEvent, WriterBehind;
    forall o: nat | o < n ensures StoredEvent(t, p, o) {
      assert StoredEvent(s, p, o);
    }
  }

  lemma StepKeepsEvents(existing: map<string, StoredObject>, s: State, step: Step)
    requires LogsSafe(s) && OnlyEvents(existing, s)
    ensures LogsSafe(Next(s, step)) && OnlyEvents(existing, Next(s, step))
  {
    hide KeyOf, EventId, PayloadOf, DocumentOf, Acceptable, SafeComponent, SameEvent, ObjectOf;
    var t := Next(s, step);
    forall k | k in t.store && k !in existing ensures exists p, o: nat :: BuiltFrom(t, k, p, o) {
      if k in s.store {
        var p, o: nat :| BuiltFrom(s, k, p, o);
        StepNeverOverwrites(s, step);
        assert LogOf(t, p)[o] == LogOf(s, p)[o];
        assert BuiltFrom(t, k, p, o);
      } else {
        var stage := s.writers[step.w].stage;
        assert LogOf(t, stage.part) == LogOf(s, stage.part);
        PutBuilds(s, step.w, step.now, k);
        assert BuiltFrom(t, k, stage.part, stage.offset);
      }
    }
  }

  lemma PutBuilds(s: State, w: string, now: int, k: string)
    requires w in s.writers && s.writers[w].stage.Polled? && k !in s.store && k in PutStep(s, w, now).store
    ensures var stage, t := s.writers[w].stage, PutStep(s, w, now); BuiltFrom(t, k, stage.part, stage.offset)
  {
    hide KeyOf, EventId, PayloadOf, DocumentOf, SafeComponent, SameEvent;
  }

  lemma {:induction false} ReachableInv(existing: map<string, StoredObject>, steps: seq<Step>)
    ensures Inv(existing, Run(existing, steps)) && OnlyEvents(existing, Run(existing, steps))
  {
    hide Next, SafeComponent, KeyOf;
    if steps == [] {
      forall p ensures HasPrefix(existing, Run(existing, []), p) {
        assert PersistedPrefix(existing, Run(existing, []), p, 0);
      }
    } else {
      var s := Run(existing, steps[..|steps| - 1]);
      ReachableInv(existing, steps[..|steps| - 1]);
      StepKeepsEvents(existing, s, steps[|steps| - 1]);
      hide PersistedPrefix;
      forall p ensures HasPrefix(existing, Run(existing, steps), p) {
        assert HasPrefix(existing, s, p);
        var n: nat :| PersistedPrefix(existing, s, p, n);
        var k := StepKeepsPrefix(existing, s, steps[|steps| - 1], p, n);
      }
    }
  }

  // ---------------------------------------------------------------- what holds in every reachable state

  /** The first n messages of the partition, and no others, are stored; everything committed is among them. */
  ghost predicate ExactlyPersisted(s: State, p: Part, n: nat) {
    && n <= |LogOf(s, p)|
    && (forall o: nat | o < |LogOf(s, p)| :: KeyOf(p, o, LogOf(s, p)[o]) in s.store <==> o < n)
    && (forall o: nat | o < n :: StoredEvent(s, p, o))
    && (p in s.committed ==> s.committed[p] <= n)
  }

  lemma PrefixIsExact(s: State, p: Part, n: nat)
    requires PersistedPrefix(map[], s, p, n)
    ensures ExactlyPersisted(s, p, n)
  {
    hide KeyOf, SameEvent, WriterBehind, EventId, PayloadOf, Acceptable;
    forall o: nat | o < |LogOf(s, p)| ensures KeyOf(p, o, LogOf(s, p)[o]) in s.store <==> o < n {
      if o < n { assert StoredEvent(s, p, o); }
    }
  }

  /**
   Over an initially empty store, the persisted messages of a partition are always exactly a
   prefix of its log, and every committed offset lies in it: nothing committed is missing, nothing
   is skipped.
   */
  lemma PersistedIsAPrefix(steps: seq<Step>, p: Part)
    ensures exists n: nat :: ExactlyPersisted(Run(map[], steps), p, n)
  {
    hide Run, PersistedPrefix, ExactlyPersisted, OnlyEvents, LogsSafe;
    ReachableInv(map[], steps);
    var s := Run(map[], steps);
    assert HasPrefix(map[], s, p);
    var n: nat :| PersistedPrefix(map[], s, p, n);
    PrefixIsExact(s, p, n);
  }

  /** Delivering a message of the persisted prefix again adds no object and does not stop the writer. */
  lemma ReplayAddsNothing(existing: map<string, StoredObject>, steps: seq<Step>, w: string, now: int)
    requires var s := Run(existing, steps); w in s.writers && s.writers[w].stage.Polled?
    requires var s := Run(existing, steps); var stage := s.writers[w].stage;
             stage.part in s.committed && stage.offset < s.committed[stage.part]
    ensures var s := Run(existing, steps);
            Next(s, Put(w, now)).store == s.store && w in Next(s, Put(w, now)).writers
  {
    ReachableInv(existing, steps);
    hide Run, KeyOf, EventId, PayloadOf, Acceptable;
    var s := Run(existing, steps);
    var stage := s.writers[w].stage;
    assert HasPrefix(existing, s, stage.part);
    var n: nat :| PersistedPrefix(existing, s, stage.part, n);
    assert StoredEvent(s, stage.part, stage.offset);
  }

  /** A key taken by another event stops the writer, stores nothing, and leaves its partition uncommitted there. */
  lemma ConflictStopsTheWriter(existing: map<string, StoredObject>, steps: seq<Step>, w: string, now: int)
    requires var s := Run(existing, steps); w in s.writers && s.writers[w].stage.Polled?
    ensures var s := Run(existing, steps);
            var stage, t := s.writers[w].stage, Next(s, Put(w, now));
            && stage.offset < |LogOf(s, stage.part)|
            && (w !in t.writers <==> var r := BuildRecord(stage.part, stage.offset, LogOf(s, stage.part)[stage.offset]);
                 r.Err? || (r.value.objectKey in s.store && !SameEvent(s.store[r.value.objectKey], r.value)))
            && (w !in t.writers ==> t.store == s.store && t.committed == s.committed)
  {
    PolledIsLogged(existing, steps, w);
    hide KeyOf, EventId, PayloadOf, Acceptable, Run;
  }

  lemma {:induction false} PolledIsLogged(existing: map<string, StoredObject>, steps: seq<Step>, w: string)
    ensures PolledInLog(Run(existing, steps), w)
  {
    hide Next, PolledInLog;
    if steps == [] {
      NothingPolled(existing, w);
    } else {
      PolledIsLogged(existing, steps[..|steps| - 1], w);
      StepKeepsPolled(Run(existing, steps[..|steps| - 1]), steps[|steps| - 1], w);
    }
  }

  ghost predicate PolledInLog(s: State, w: string) {
    w in s.writers && s.writers[w].stage.Polled? ==> s.writers[w].stage.offset < |LogOf(s, s.writers[w].stage.part)|
  }

  lemma NothingPolled(existing: map<string, StoredObject>, w: string)
    ensures PolledInLog(Run(existing, []), w)
  {
  }

  lemma StepKeepsPolled(s: State, step: Step, w: string)
    requires PolledInLog(s, w)
    ensures PolledInLog(Next(s, step), w)
  {
    hide BuildRecord, Persist, SafeComponent;
  }

  // ---------------------------------------------------------------- in the fields of the messages

  /** Letters, digits, underscore, dot and dash, at least one of them. */
  predicate PathSafe(s: string) {
    s != "" && forall i | 0 <= i < |s| ::
        'A' <= s[i] <= 'Z' || 'a' <= s[i] <= 'z' || '0' <= s[i] <= '9' || s[i] in {'_', '.', '-'}
  }

  /** The object of a message, spelled out. */
  ghost predicate Carries(store: map<string, StoredObject>, p: Part, o: nat, m: Message) {
    var key := ObjectKey("bronze/cdc/source=core_banking/schema=" + m.schema + "/table=" + m.table + "/event_date=" +
        m.day,
                         p.0, p.1, o);
    && key in store
    && store[key].eventId == p.0 + ":" + Decimal(p.1) + ":" + Decimal(o)
    && store[key].payload == m.key + [0 as char] + m.value
    && store[key].document.key == m.key && store[key].document.value == m.value
    && store[key].document.schema == m.schema && store[key].document.table == m.table
    && store[key].document.topic == p.0 && store[key].document.partition == p.1 && store[key].document.offset == o
  }

  /** Everything committed is stored with the key and value of its own message, and nothing is skipped. */
  lemma CommittedMessagesAreStored(steps: seq<Step>, p: Part, o: nat)
    ensures var s := Run(map[], steps);
            p in s.committed && o < s.committed[p] ==>
              o < |LogOf(s, p)| && Carries(s.store, p, o, LogOf(s, p)[o])
  {
    hide Run, StoredEvent, Carries, KeyOf;
    var s := Run(map[], steps);
    PersistedIsAPrefix(steps, p);
    if p in s.committed && o < s.committed[p] {
      var n: nat :| ExactlyPersisted(s, p, n);
      PrefixCarries(steps, p, n, o);
    }
  }

  /** The first n messages of the partition are stored in full, no later one is, and the commits stay below n. */
  ghost predicate StoredInFull(s: State, p: Part, n: nat) {
    && n <= |LogOf(s, p)| && (p in s.committed ==> s.committed[p] <= n)
    && (forall o: nat | o < n :: Carries(s.store, p, o, LogOf(s, p)[o]))
    && (forall o: nat | n <= o < |LogOf(s, p)| :: KeyOf(p, o, LogOf(s, p)[o]) !in s.store)
  }

  /** At any moment of any run some prefix of the log is stored in full, and nothing else of it. */
  lemma PersistedPrefixCarriesTheMessages(steps: seq<Step>, p: Part)
    ensures var s := Run(map[], steps);
            exists n: nat :: StoredInFull(s, p, n)
  {
    hide Run, StoredEvent, Carries, KeyOf;
    var s := Run(map[], steps);
    PersistedIsAPrefix(steps, p);
    var n: nat :| ExactlyPersisted(s, p, n);
    forall o: nat | o < n ensures Carries(s.store, p, o, LogOf(s, p)[o]) {
      PrefixCarries(steps, p, n, o);
    }
    assert StoredInFull(s, p, n);
  }

  lemma PrefixCarries(steps: seq<Step>, p: Part, n: nat, o: nat)
    requires ExactlyPersisted(Run(map[], steps), p, n) && o < n
    ensures var s := Run(map[], steps); o < |LogOf(s, p)| && Carries(s.store, p, o, LogOf(s, p)[o])
  {
    hide Run, HasPrefix, ObjectKey;
    ReachableInv(map[], steps);
    var s := Run(map[], steps);
    var m := LogOf(s, p)[o];
    assert StoredEvent(s, p, o);
    var q, r: nat :| BuiltFrom(s, KeyOf(p, o, m), q, r);
    hide KeyOf, EventId, PayloadOf, DocumentOf, ObjectOf, SafeComponent;
    KeysAreDistinct(p, o, m, q, r, LogOf(s, q)[r]);
    ObjectOfMessage(s, p, o);
  }

  lemma ObjectOfMessage(s: State, p: Part, o: nat)
    requires o < |LogOf(s, p)| && KeyOf(p, o, LogOf(s, p)[o]) in s.store
    requires BuiltFrom(s, KeyOf(p, o, LogOf(s, p)[o]), p, o)
    ensures Carries(s.store, p, o, LogOf(s, p)[o])
  {
    var m := LogOf(s, p)[o];
    assert Folder(m) ==
        "bronze/cdc/source=core_banking/schema=" + m.schema + "/table=" + m.table + "/event_date=" + m.day;
    hide ObjectKey, Decimal;
  }

  /** A message sent on a safe topic is appended to the log of its partition. */
  lemma SentMessagesAreLogged(s: State, p: Part, m: Message)
    requires PathSafe(p.0)
    ensures Next(s, Produce(p, m)).logs == s.logs[p := (if p in s.logs then s.logs[p] else []) + [m]]
  {
  }

  /**
   A delivered message stops the writer if and only if it is unreadable, names an unsafe or unknown schema
   or an unsafe table or topic, or meets an object of another coordinate or of another key and value.
   */
  lemma DeliveryStopsExactly(existing: map<string, StoredObject>, steps: seq<Step>, w: string, now: int)
    requires var s := Run(existing, steps); w in s.writers && s.writers[w].stage.Polled?
    ensures var s := Run(existing, steps);
            var p, o := s.writers[w].stage.part, s.writers[w].stage.offset;
            && o < |LogOf(s, p)|
            && var m := LogOf(s, p)[o];
               var key := ObjectKey("bronze/cdc/source=core_banking/schema=" + m.schema + "/table=" + m.table
                                    + "/event_date=" + m.day, p.0, p.1, o);
               w !in Next(s, Put(w, now)).writers <==>
                 || !m.readable || !PathSafe(p.0) || !PathSafe(m.table)
                 || (m.schema != "mms" && m.schema != "krd" && m.schema != "prm")
                 || (key in s.store &&
                     (|| s.store[key].eventId != p.0 + ":" + Decimal(p.1) + ":" + Decimal(o)
                      || s.store[key].payload != m.key + [0 as char] + m.value))
  {
    ConflictStopsTheWriter(existing, steps, w, now);
    hide Run, Next, ObjectKey, Decimal;
    var s := Run(existing, steps);
    var p, o := s.writers[w].stage.part, s.writers[w].stage.offset;
    var m := LogOf(s, p)[o];
    assert Folder(m) ==
        "bronze/cdc/source=core_banking/schema=" + m.schema + "/table=" + m.table + "/event_date=" + m.day;
    AcceptableExactly(p, m);
    hide Acceptable, Folder;
  }

  lemma AcceptableExactly(p: Part, m: Message)
    ensures Acceptable(p, m) <==>
              && m.readable && PathSafe(p.0) && PathSafe(m.table)
              && (m.schema == "mms" || m.schema == "krd" || m.schema == "prm")
  {
    assert SafeComponent("mms") && SafeComponent("krd") && SafeComponent("prm");
  }

  // ---------------------------------------------------------------- the writer's loop

  /** What the store or the broker does to one delivery: a request that raises may have been applied. */
  datatype Fault = NoFault | PutFails(applied: bool) | CommitFails(applied: bool)

  datatype PollResult =
    | NoMessage
    | EndOfPartition
    | BrokerError
    | Delivered(p: Part, offset: nat, m: Message, now: int, fault: Fault)
    | StopSignal

  datatype Outcome = Running | Stopped | Failed(error: WriterError)

  datatype Effect = Effect(store: map<string, StoredObject>, committed: map<Part, nat>, outcome: Outcome)

  function Create(store: map<string, StoredObject>, r: Record, now: int): map<string, StoredObject> {
    if r.objectKey in store then store else store[r.objectKey := ObjectOf(r, now)]
  }

  /** persist_record; a storage error other than the failed precondition passes through. */
  function TryPersist(store: map<string, StoredObject>, r: Record, now: int, fault: Fault)
    : (map<string, StoredObject>, Option<WriterError>)
  {
    if fault.PutFails? then (if fault.applied then Create(store, r, now) else store, Some(StorageFailure)) else
    var stored := Persist(store, r, now);
    if stored.Ok? then (stored.value, None) else (store, Some(stored.error))
  }

  /** One delivery: build, persist, and only then commit. */
  function Deliver(e: Effect, d: PollResult): Effect
    requires d.Delivered?
  {
    var built := BuildRecord(d.p, d.offset, d.m);
    if built.Err? then e.(outcome := Failed(built.error)) else
    var (store, error) := TryPersist(e.store, built.value, d.now, d.fault);
    if error.Some? then e.(store := store, outcome := Failed(error.value))
    else if d.fault.CommitFails? then
      Effect(store, if d.fault.applied then e.committed[d.p := d.offset + 1] else e.committed, Failed(BrokerFailure))
    else Effect(store, e.committed[d.p := d.offset + 1], Running)
  }

  /** The effect of a sequence of poll results, up to a stop signal or a failure. */
  function Drive(start: Effect, polls: seq<PollResult>): Effect {
    if polls == [] then start else
    var e, last := Drive(start, polls[..|polls| - 1]), polls[|polls| - 1];
    if e.outcome != Running then e else
    match last
    case NoMessage => e
    case EndOfPartition => e
    case BrokerError => e.(outcome := Failed(BrokerFailure))
    case StopSignal => e.(outcome := Stopped)
    case Delivered(_, _, _, _, _) => Deliver(e, last)
  }

  lemma {:induction false} DriveEnds(start: Effect, polls: seq<PollResult>, i: nat)
    requires i <= |polls| && Drive(start, polls[..i]).outcome != Running
    ensures Drive(start, polls) == Drive(start, polls[..i])
  {
    hide Deliver;
    if i < |polls| {
      assert polls[..|polls| - 1][..i] == polls[..i];
      DriveEnds(start, polls[..|polls| - 1], i);
    } else {
      assert polls[..i] == polls;
    }
  }

  class BronzeWriter {
    var running: bool
    var store: map<string, StoredObject>
    var committed: map<Part, nat>

    constructor (store: map<string, StoredObject>, committed: map<Part, nat>)
      ensures running && this.store == store && this.committed == committed
    {
      running, this.store, this.committed := true, store, committed;
    }

    method PersistRecord(r: Record, now: int, fault: Fault) returns (created: Result<bool, WriterError>)
      modifies this`store
      ensures (store, if created.Ok? then None else Some(created.error)) == TryPersist(old(store), r, now, fault)
      ensures created.Ok? ==> (created.value <==> r.objectKey !in old(store))
    {
      if fault.PutFails? {
        store := if fault.applied then Create(store, r, now) else store;
        return Err(StorageFailure);
      }
      if r.objectKey !in store {
        store := store[r.objectKey := ObjectOf(r, now)];
        return Ok(true);
      }
      if !SameEvent(store[r.objectKey], r) {
        return Err(ConflictingObject);
      }
      created := Ok(false);
    }

    /** The poll loop over the results the consumer returns. */
    method Run(polls: seq<PollResult>) returns (outcome: Outcome)
      requires running
      modifies this
      ensures Effect(store, committed, outcome) == Drive(Effect(old(store), old(committed), Running), polls)
      ensures running <==> outcome != Stopped
    {
      hide BuildRecord, SameEvent, TryPersist, Persist, Create, ObjectOf;
      ghost var start := Effect(store, committed, Running);
      var i := 0;
      while running && i < |polls|
        invariant i <= |polls|
        invariant Drive(start, polls[..i]) == Effect(store, committed, if running then Running else Stopped)
      {
        assert polls[..i + 1][..i] == polls[..i];
        match polls[i] {
          case NoMessage =>
          case EndOfPartition =>
          case BrokerError =>
            DriveEnds(start, polls, i + 1);
            return Failed(BrokerFailure);
          case StopSignal =>
            running := false;
          case Delivered(p, offset, m, now, fault) =>
            var built := BuildRecord(p, offset, m);
            if built.Err? {
              DriveEnds(start, polls, i + 1);
              return Failed(built.error);
            }
            var created := PersistRecord(built.value, now, fault);
            if created.Err? {
              DriveEnds(start, polls, i + 1);
              return Failed(created.error);
            }
            if !(fault.CommitFails? && !fault.applied) {
              committed := committed[p := offset + 1];
            }
            if fault.CommitFails? {
              DriveEnds(start, polls, i + 1);
              return Failed(BrokerFailure);
            }
        }
        i := i + 1;
      }
      if running {
        assert polls[..i] == polls;
        return Running;
      }
      DriveEnds(start, polls, i);
      outcome := Stopped;
    }
  }

  /** The steps of the state machine behind one turn of the loop; an exception ends the writer. */
  function Turn(s: State, w: string, p: Part, now: int, fault: Fault): State {
    var polled := Next(s, Poll(w, p));
    match fault
    case NoFault => Next(Next(polled, Put(w, now)), Commit(w))
    case PutFails(applied) => Next(if applied then Next(polled, Put(w, now)) else polled, Crash(w))
    case CommitFails(applied) =>
      var put := Next(polled, Put(w, now));
      Next(if applied then Next(put, Commit(w)) else put, Crash(w))
  }

  /** One turn of the loop, with or without a fault, is poll, put and commit of the state machine up to a crash. */
  lemma DeliveryIsThreeSteps(s: State, w: string, p: Part, now: int, fault: Fault)
    requires w in s.writers && s.writers[w].stage.Idle? && p in s.writers[w].position
             && s.writers[w].position[p] < |LogOf(s, p)|
    ensures var o := s.writers[w].position[p];
            var e := Deliver(Effect(s.store, s.committed, Running), Delivered(p, o, LogOf(s, p)[o], now, fault));
            var t := Turn(s, w, p, now, fault);
            t.store == e.store && t.committed == e.committed && (e.outcome == Running <==> w in t.writers)
  {
    hide Next, Persist, BuildRecord;
    var o := s.writers[w].position[p];
    PollStands(s, w, p);
    PutPersists(Next(s, Poll(w, p)), w, now);
    var put := Next(Next(s, Poll(w, p)), Put(w, now));
    CommitsAndCrashes(put, w);
    CommitsAndCrashes(Next(put, Commit(w)), w);
    CommitsAndCrashes(Next(s, Poll(w, p)), w);
    if BuildRecord(p, o, LogOf(s, p)[o]).Ok? { CreateIsPersist(s.store, BuildRecord(p, o, LogOf(s, p)[o]), now); }
  }

  lemma PollStands(s: State, w: string, p: Part)
    requires w in s.writers && s.writers[w].stage.Idle? && p in s.writers[w].position
             && s.writers[w].position[p] < |LogOf(s, p)|
    ensures var t, o := Next(s, Poll(w, p)), s.writers[w].position[p];
            && t.store == s.store && t.committed == s.committed && t.logs == s.logs
            && w in t.writers && t.writers[w].stage == Polled(p, o)
  {
  }

  lemma PutPersists(s: State, w: string, now: int)
    requires w in s.writers && s.writers[w].stage.Polled?
             && s.writers[w].stage.offset < |LogOf(s, s.writers[w].stage.part)|
    ensures var stage, t := s.writers[w].stage, Next(s, Put(w, now));
            var built := BuildRecord(stage.part, stage.offset, LogOf(s, stage.part)[stage.offset]);
            t.committed == s.committed
            && if built.Ok? && Persist(s.store, built.value, now).Ok? then
                 && t.store == Persist(s.store, built.value, now).value
                 && w in t.writers && t.writers[w].stage == Persisted(stage.part, stage.offset)
               else t.store == s.store && w !in t.writers
  {
    hide BuildRecord, Persist;
  }

  lemma CommitsAndCrashes(s: State, w: string)
    ensures var t := Next(s, Crash(w)); t.store == s.store && t.committed == s.committed && w !in t.writers
    ensures var t := Next(s, Commit(w));
            t.store == s.store
            && if w in s.writers && s.writers[w].stage.Persisted?
               then t.committed == s.committed[s.writers[w].stage.part := s.writers[w].stage.offset + 1]
                   && w in t.writers
               else t == s
  {
  }

  lemma CreateIsPersist(store: map<string, StoredObject>, built: Result<Record, WriterError>, now: int)
    requires built.Ok?
    ensures Create(store, built.value, now) ==
              if Persist(store, built.value, now).Ok? then Persist(store, built.value, now).value else store
  {
  }
}
