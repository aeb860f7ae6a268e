/** What the poll loop of the Bronze writer does with each result the consumer returns, field by field. */
module BronzeLoop {
  import opened Encodings
  import opened Bronze

  function PathOf(p: Part, o: nat, m: Message): string {
    ObjectKey("bronze/cdc/source=core_banking/schema=" + m.schema + "/table=" + m.table + "/event_date=" + m.day,
              p.0, p.1, o)
  }

  /** The message can be written: it parses, and its topic and table are safe path components of a known schema. */
  ghost predicate Writable(p: Part, m: Message) {
    m.readable && PathSafe(p.0) && PathSafe(m.table) && (m.schema == "mms" || m.schema == "krd" || m.schema == "prm")
  }

  /** The object under the message's path carries another coordinate, or another key and value. */
  predicate IsTaken(store: map<string, StoredObject>, p: Part, o: nat, m: Message) {
    var key := PathOf(p, o, m);
    key in store && !(store[key].eventId == p.0 + ":" + Decimal(p.1) + ":" + Decimal(o)
                      && store[key].payload == m.key + [0 as char] + m.value)
  }

  /** The message's object is there: an existing one as it was, a new one in full, stamped with the time. */
  ghost predicate Created(before: map<string, StoredObject>, after: map<string, StoredObject>, p: Part, o: nat,
                          m: Message, now: int) {
    var key := PathOf(p, o, m);
    if key in before then after == before
    else Carries(after, p, o, m) && after == before[key := after[key]] && after[key].ingestedAt == now
  }

  /** One delivery to a writer that runs. */
  ghost predicate Handled(e: Effect, t: Effect, p: Part, o: nat, m: Message, now: int, fault: Fault) {
    if !Writable(p, m) then t == Effect(e.store, e.committed, Failed(BadMessage))
    else if fault.PutFails? then
      && t.outcome == Failed(StorageFailure) && t.committed == e.committed
      && (if fault.applied then Created(e.store, t.store, p, o, m, now) else t.store == e.store)
    else if IsTaken(e.store, p, o, m) then t == Effect(e.store, e.committed, Failed(ConflictingObject))
    else
      && Created(e.store, t.store, p, o, m, now)
      && t.committed == (if fault == CommitFails(false) then e.committed else e.committed[p := o + 1])
      && t.outcome == (if fault.CommitFails? then Failed(BrokerFailure) else Running)
  }

  /**
   A writer that has ended does nothing more. A running one ignores an empty result and the end of a
   partition, ends on a broker error or a stop signal with nothing changed, and handles a message: the
   object first, and the commit behind it only if the object is there and is the message's own.
   */
  lemma LoopHandlesEachResult(start: Effect, polls: seq<PollResult>, d: PollResult)
    ensures var e, t := Drive(start, polls), Drive(start, polls + [d]);
            if e.outcome != Running then t == e else
            match d
            case NoMessage => t == e
            case EndOfPartition => t == e
            case BrokerError => t == Effect(e.store, e.committed, Failed(BrokerFailure))
            case StopSignal => t == Effect(e.store, e.committed, Stopped)
            case Delivered(p, o, m, now, fault) => Handled(e, t, p, o, m, now, fault)
    ensures Drive(start, []) == start
  {
    assert (polls + [d])[..|polls|] == polls;
    var e := Drive(start, polls);
    if d.Delivered? && e.outcome == Running {
      hide Handled, Deliver;
      DeliveryIsHandled(e, d.p, d.offset, d.m, d.now, d.fault);
    }
  }

  lemma DeliveryIsHandled(e: Effect, p: Part, o: nat, m: Message, now: int, fault: Fault)
    requires e.outcome == Running
    ensures Handled(e, Deliver(e, Delivered(p, o, m, now, fault)), p, o, m, now, fault)
  {
    AcceptableExactly(p, m);
    PathIsKey(p, o, m);
    if Acceptable(p, m) { ObjectIsCreated(e.store, p, o, m, now); }
    hide Acceptable, Created, Create, PathSafe, ObjectOf, PathOf, KeyOf, EventId, PayloadOf, DocumentOf;
    assert IsTaken(e.store, p, o, m) <==>
        KeyOf(p, o, m) in e.store
        && !(e.store[KeyOf(p, o, m)].eventId == EventId(p, o) && e.store[KeyOf(p, o, m)].payload == PayloadOf(m)) by {
      TextsOf(p, o, m);
    }
    if Acceptable(p, m) { CreateIsPersist(e.store, BuildRecord(p, o, m), now); }
  }

  lemma PathIsKey(p: Part, o: nat, m: Message)
    ensures PathOf(p, o, m) == KeyOf(p, o, m)
  {
    assert Folder(m) ==
        "bronze/cdc/source=core_banking/schema=" + m.schema + "/table=" + m.table + "/event_date=" + m.day;
    hide ObjectKey;
  }

  lemma TextsOf(p: Part, o: nat, m: Message)
    ensures EventId(p, o) == p.0 + ":" + Decimal(p.1) + ":" + Decimal(o)
            && PayloadOf(m) == m.key + [0 as char] + m.value
  {
    hide Decimal;
  }

  lemma ObjectIsCreated(store: map<string, StoredObject>, p: Part, o: nat, m: Message, now: int)
    requires Acceptable(p, m)
    ensures Created(store, Create(store, BuildRecord(p, o, m).value, now), p, o, m, now)
  {
  }

  /**
   One turn of a writer stores the next message of its partition and commits behind it, unless it cannot be
   written or its path is taken.
   */
  lemma TurnStoresTheNextMessage(s: State, w: string, p: Part, o: nat, now: int)
    requires w in s.writers && s.writers[w].stage.Idle? && p in s.writers[w].position && s.writers[w].position[p] == o
    requires p in s.logs && o < |s.logs[p]|
    requires Writable(p, s.logs[p][o]) && !IsTaken(s.store, p, o, s.logs[p][o])
    ensures var t := Turn(s, w, p, now, NoFault);
            && Created(s.store, t.store, p, o, s.logs[p][o], now) && t.committed == s.committed[p := o + 1]
            && w in t.writers
  {
    DeliveryIsThreeSteps(s, w, p, now, NoFault);
    DeliveryIsHandled(Effect(s.store, s.committed, Running), p, o, s.logs[p][o], now, NoFault);
    hide Turn, Deliver, Writable, IsTaken, Created;
  }

  /** A writer assigned a known partition continues at the committed offset, or at the first without one. */
  lemma AssignmentContinues(s: State, w: string, p: Part)
    requires w in s.writers && s.writers[w].stage.Idle? && p in s.logs
    ensures var t := Next(s, Assign(w, p));
            && w in t.writers && t.writers[w].stage.Idle? && p in t.writers[w].position
            && t.writers[w].position[p] == (if p in s.committed then s.committed[p] else 0)
            && t.logs == s.logs && t.store == s.store && t.committed == s.committed
  {
  }

  const SENT := Message("2026-01-01", "mms", "customers", "k", "v", true)

  const FIRST_RUN := [Produce(("t", 0), SENT), Launch("w"), Assign("w", ("t", 0)), Poll("w", ("t", 0)), Put("w", 7),
                      Commit("w")]

  /** A run over an empty store in which one message is sent, stored and committed. */
  lemma SomeMessageIsStored()
    ensures var s := Run(map[], FIRST_RUN);
            s.committed == map[("t", 0) := 1] && LogOf(s, ("t", 0)) == [SENT] && Carries(s.store, ("t", 0), 0, SENT)
  {
    var p := ("t", 0);
    hide Run, Turn, IsTaken, Created, Writable, Carries, Next;
    var s := FirstTurnIsReady();
    FirstTurn();
    TurnStoresTheNextMessage(s, "w", p, 0, 7);
    CommittedMessagesAreStored(FIRST_RUN, p, 0);
    TurnKeepsLogs(s, "w", p, 7);
  }

  lemma FirstTurn()
    ensures Run(map[], FIRST_RUN) == Turn(Run(map[], FIRST_RUN[..3]), "w", ("t", 0), 7, NoFault)
  {
    hide Run, Next;
    StepByStep(FIRST_RUN, 3);
    StepByStep(FIRST_RUN, 4);
    StepByStep(FIRST_RUN, 5);
    assert FIRST_RUN[..6] == FIRST_RUN;
  }

  lemma FirstTurnIsReady() returns (s: State)
    ensures s == Run(map[], FIRST_RUN[..3]) && s.logs == map[("t", 0) := [SENT]] && s.committed == map[]
    ensures "w" in s.writers && s.writers["w"] == Writer(map[("t", 0) := 0], Idle)
    ensures Writable(("t", 0), SENT) && !IsTaken(s.store, ("t", 0), 0, SENT)
  {
    StepByStep(FIRST_RUN, 0);
    StepByStep(FIRST_RUN, 1);
    StepByStep(FIRST_RUN, 2);
    assert FIRST_RUN[..0] == [] && SafeComponent("t") && LogOf(Run(map[], []), ("t", 0)) + [SENT] == [SENT];
    assert Run(map[], FIRST_RUN[..1]).logs == map[("t", 0) := [SENT]];
    assert Run(map[], FIRST_RUN[..2]).writers == map["w" := Writer(map[], Idle)];
    s := Run(map[], FIRST_RUN[..3]);
    hide Run, KeyOf, PathOf;
  }

  lemma TurnKeepsLogs(s: State, w: string, p: Part, now: int)
    ensures Turn(s, w, p, now, NoFault).logs == s.logs
  {
    hide BuildRecord, Persist;
  }

  lemma StepByStep(steps: seq<Step>, i: nat)
    requires i < |steps|
    ensures Run(map[], steps[..i + 1]) == Next(Run(map[], steps[..i]), steps[i])
    ensures Run(map[], []) == State(map[], map[], map[], map[])
  {
    assert steps[..i + 1][..i] == steps[..i];
    hide Next;
  }
}
