/** What a listing taken while writers run shows, compared with any later listing. */
module BronzeListing {
  import opened Wrappers
  import opened Encodings
  import opened Manifest
  import opened Publication
  import opened Bronze

  /** The listing of a store: every object with its size and tag. */
  ghost predicate Shows(listing: seq<BronzeObject>, store: map<string, StoredObject>, sizeOf: StoredObject -> int,
                        tagOf: StoredObject -> string)
  {
    forall o :: o in listing <==>
      o.objectKey in store && o == BronzeObject(o.objectKey, sizeOf(store[o.objectKey]), tagOf(store[o.objectKey]))
  }

  lemma {:induction false} LogsGrow(steps: seq<Step>, k: nat, p: Part)
    requires k <= |steps|
    ensures LogOf(Run(map[], steps[..k]), p) <= LogOf(Run(map[], steps), p)
  {
    if k == |steps| {
      assert steps[..k] == steps;
    } else {
      var front := steps[..|steps| - 1];
      assert front[..k] == steps[..k];
      LogsGrow(front, k, p);
      LogStep(Run(map[], front), steps[|steps| - 1], p);
    }
  }

  lemma LogStep(s: State, step: Step, p: Part)
    ensures LogOf(s, p) <= LogOf(Next(s, step), p)
  {
    hide BuildRecord, Persist, SafeComponent;
  }

  /** An object's key names the partition and offset of the message it stores. */
  lemma KeyIsCoordinate(o: BronzeObject, p: Part, offset: nat, m: Message)
    requires SafeComponent(p.0) && o.objectKey == KeyOf(p, offset, m)
    ensures ItemOf(o) == Some(Item(o, p.0, p.1, offset))
  {
    assert '/' !in p.0;
    KeyRoundTrip(Folder(m), p.0, p.1, offset);
  }

  lemma MessageOf(steps: seq<Step>, key: string) returns (p: Part, offset: nat)
    requires key in Run(map[], steps).store
    ensures var s := Run(map[], steps);
            SafeComponent(p.0) && offset < |LogOf(s, p)| && key == KeyOf(p, offset, LogOf(s, p)[offset])
  {
    ReachableInv(map[], steps);
    hide Run, KeyOf, SafeComponent, HasPrefix;
    var s := Run(map[], steps);
    var q, r: nat :| BuiltFrom(s, key, q, r);
    p, offset := q, r;
  }

  /**
   A listing taken at step k shows only objects of any later listing, and with an object every
   earlier offset of its partition that the later listing shows.
   */
  lemma ListingsAreClosed(steps: seq<Step>, k: nat, listing: seq<BronzeObject>, later: seq<BronzeObject>,
                          sizeOf: StoredObject -> int, tagOf: StoredObject -> string)
    requires k <= |steps|
    requires Shows(listing, Run(map[], steps[..k]).store, sizeOf, tagOf)
             && Shows(later, Run(map[], steps).store, sizeOf, tagOf)
    ensures forall o | o in listing :: o in later
    ensures forall o, p | o in listing && p in later && Precedes(p, o) :: p in listing
  {
    NothingIsOverwritten(map[], steps, k);
    hide Run, Precedes;
    forall o, p | o in listing && p in later && Precedes(p, o) ensures p in listing {
      EarlierIsListed(steps, k, o, p);
    }
  }

  lemma EarlierIsListed(steps: seq<Step>, k: nat, o: BronzeObject, p: BronzeObject)
    requires k <= |steps| && o.objectKey in Run(map[], steps[..k]).store && p.objectKey in Run(map[], steps).store
             && Precedes(p, o)
    ensures p.objectKey in Run(map[], steps[..k]).store
  {
    hide Run, KeyOf, SafeComponent, ParseBronzeCoordinate, StoredEvent;
    var s, t := Run(map[], steps[..k]), Run(map[], steps);
    var q, r := MessageOf(steps[..k], o.objectKey);
    var u, v := MessageOf(steps, p.objectKey);
    KeyIsCoordinate(o, q, r, LogOf(s, q)[r]);
    KeyIsCoordinate(p, u, v, LogOf(t, u)[v]);
    assert u == q && v <= r;
    LogsGrow(steps, k, q);
    PersistedIsAPrefix(steps[..k], q);
    var n: nat :| ExactlyPersisted(s, q, n);
    assert LogOf(s, q)[v] == LogOf(t, q)[v];
  }
}
