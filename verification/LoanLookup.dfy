/** Which application number a loan event is given, and which links and hub keys a batch stores, in the columns read. */
module LoanLookup {
  import opened Wrappers
  import opened RawVault
  import opened Hubs
  import opened LoanContext
  import VaultTables

  /** Descending, nulls last. */
  predicate NotBehind(a: Option<int>, b: Option<int>) {
    b.None? || (a.Some? && a.value >= b.value)
  }

  predicate NotBehindInStream(a: Moment, b: Moment) {
    b.partition < a.partition || (b.partition == a.partition && b.offset <= a.offset)
  }

  /** The application event with the greatest LSN, within one LSN the one at the greatest position. */
  ghost predicate LatestByLsn(apps: seq<AppEvent>, id: string, a: AppEvent) {
    && a in apps && a.applicationId == id
    && forall x | x in apps && x.applicationId == id ::
         NotBehind(a.at.lsn, x.at.lsn) && (a.at.lsn == x.at.lsn ==> NotBehindInStream(a.at, x.at))
  }

  /** The stored link with the greatest LSN, then event time, then position. */
  ghost predicate LatestStored(links: seq<Link>, loan: string, l: Link) {
    && l in links && l.key.loan == loan
    && forall x | x in links && x.key.loan == loan ::
         && NotBehind(l.at.lsn, x.at.lsn)
         && (l.at.lsn == x.at.lsn ==> NotBehind(l.at.effectiveFrom, x.at.effectiveFrom))
         && (l.at.lsn == x.at.lsn && l.at.effectiveFrom == x.at.effectiveFrom ==> NotBehindInStream(l.at, x.at))
  }

  lemma ChosenApplication(apps: seq<AppEvent>, id: string)
    ensures match LatestApp(apps, id)
            case Some(a) => LatestByLsn(apps, id, a)
            case None => forall a | a in apps :: a.applicationId != id
  {
    LatestAppIsTop(apps, id);
    var chosen := LatestApp(apps, id);
    if chosen.Some? {
      forall x | x in apps && x.applicationId == id ensures !LaterPosition(x.at, chosen.value.at) {
      }
    }
  }

  lemma ChosenLink(links: seq<Link>, loan: string)
    ensures match LatestLink(links, loan)
            case Some(l) => LatestStored(links, loan, l)
            case None => forall l | l in links :: l.key.loan != loan
  {
    LatestLinkIsTop(links, loan);
    var chosen := LatestLink(links, loan);
    if chosen.Some? {
      forall x | x in links && x.key.loan == loan ensures !LaterLink(x.at, chosen.value.at) {
      }
    }
  }

  /**
   A loan event is given the number of the latest application event of its id in the batch. If the batch has
   none, that of the latest link stored for the loan, provided the hub has it; if there is none, nothing.
   */
  ghost predicate Given(e: LoanEvent, apps: seq<AppEvent>, links: seq<Link>, hub: set<string>, no: Option<string>) {
    || (exists a :: LatestByLsn(apps, e.applicationId, a) && no == Some(a.applicationNo))
    || ((forall a | a in apps :: a.applicationId != e.applicationId) &&
        (|| (exists l :: LatestStored(links, e.loan, l)
                         && no == if l.key.applicationNo in hub then Some(l.key.applicationNo) else None)
         || ((forall l | l in links :: l.key.loan != e.loan) && no.None?)))
  }

  lemma ResolvedIsGiven(e: LoanEvent, apps: seq<AppEvent>, v: Vault)
    ensures Given(e, apps, v.links, v.hub, Resolve(e, apps, v))
  {
    ChosenApplication(apps, e.applicationId);
    ChosenLink(v.links, e.loan);
    hide LatestByLsn, LatestStored;
  }

  /** The link of a loan event: its loan, the number it is given, its context, at its own position. */
  ghost predicate LinkOf(l: Link, e: LoanEvent, apps: seq<AppEvent>, links: seq<Link>, hub: set<string>) {
    && !e.deleted && l.key.loan == e.loan && l.key.context == e.context && l.at == e.at
    && Given(e, apps, links, hub, Some(l.key.applicationNo))
  }

  /**
   Behind the core phase the hub has in addition every number of the batch's images, those without an id
   included; the stored links stay, and every link added is that of a loan event of the batch which is no
   delete, under a key that was not stored, looked up in the links stored before and the extended hub.
   */
  lemma CoreStoresExactly(v: Vault, b: Batch)
    ensures var hub, after := RunCore(v, b).hub, RunCore(v, b).links;
            && (forall no :: no in hub <==>
                  no in v.hub || no in b.numbers || exists a :: a in b.apps && !a.deleted && a.applicationNo == no)
            && v.links <= after
            && (forall l | l in after :: l in v.links ||
                  ((forall x | x in v.links :: x.key != l.key)
                   && exists e :: e in b.loans && LinkOf(l, e, b.apps, v.links, hub)))
  {
    var ready, after := WithHub(v, b), RunCore(v, b).links;
    var candidates := ResolvedLinks(b.loans, b.apps, ready);
    ResolvedLinksExact(b.loans, b.apps, ready);
    KeptAreFirstArrivals(candidates);
    MergeMembers(v.links, KeepFirstArrival(candidates));
    hide ResolvedLinks, MergeByKey, KeepFirstArrival, OnePerKey, Resolve, LatestByLsn, LatestStored, KeysOf;
    hide Given;
    forall l | l in after && l !in v.links
      ensures (forall x | x in v.links :: x.key != l.key)
      ensures exists e :: e in b.loans && LinkOf(l, e, b.apps, v.links, ready.hub)
    {
      FirstArrivalMember(candidates, l);
      forall x | x in v.links ensures x.key != l.key { MemberKey(v.links, x); }
      var e :| e in b.loans && !e.deleted && Resolve(e, b.apps, ready).Some?
               && l == Arrival(LinkKey(e.loan, Resolve(e, b.apps, ready).value, e.context), e.at);
      ResolvedIsGiven(e, b.apps, ready);
      assert LinkOf(l, e, b.apps, v.links, ready.hub);
    }
  }

  /** And every loan event that is no delete and is given a number has a link under its key. */
  lemma CoreMissesNoLink(v: Vault, b: Batch, e: LoanEvent)
    requires e in b.loans && !e.deleted
    ensures var no := Resolve(e, b.apps, v.(hub := RunCore(v, b).hub));
            no.Some? ==> exists l :: l in RunCore(v, b).links && l.key == LinkKey(e.loan, no.value, e.context)
  {
    var ready, after := WithHub(v, b), RunCore(v, b).links;
    var candidates := ResolvedLinks(b.loans, b.apps, ready);
    ResolvedLinksExact(b.loans, b.apps, ready);
    KeysAfterLoad(v.links, candidates);
    hide ResolvedLinks, LoadByKey, Resolve, KeysOf;
    assert ready == v.(hub := RunCore(v, b).hub);
    var no := Resolve(e, b.apps, ready);
    if no.Some? {
      var l := Arrival(LinkKey(e.loan, no.value, e.context), e.at);
      assert l in candidates;
      MemberKey(candidates, l);
      SomeOfKey(after, l.key);
    }
  }

  // ---------------------------------------------------------------- the effectivity satellite

  /** The row a loan event stages under a number: its context and its status are the state compared. */
  predicate EffectivityOf(r: Row, e: LoanEvent, no: string) {
    var context := e.loan + "||" + no + "||" + e.context;
    && r.entity == e.loan && r.eventId == e.eventId
    && r.state == context + "||" + (if e.deleted then "DELETED" else "ACTIVE")
    && r.image == Effectivity(context, e.deleted)
    && r.lsn == e.at.lsn && r.effectiveFrom == e.at.effectiveFrom
    && r.topic == e.at.topic && r.partition == e.at.partition && r.offset == e.at.offset
  }

  ghost predicate StagesEffectivity(r: Row, e: LoanEvent, b: Batch, v: Vault) {
    exists no :: Given(e, b.apps, v.links, v.hub, Some(no)) && EffectivityOf(r, e, no)
  }

  /** Every loan event that is given a number stages one row, deletes included, and nothing else is staged. */
  lemma EffectivityIsExact(b: Batch, v: Vault)
    ensures forall r | r in VaultTables.EffectivityRows(b, v) :: exists e ::
              e in b.loans && StagesEffectivity(r, e, b, v)
    ensures forall e | e in b.loans && Resolve(e, b.apps, v).Some? ::
              exists r :: r in VaultTables.EffectivityRows(b, v) && EffectivityOf(r, e, Resolve(e, b.apps, v).value)
  {
    hide Given, Resolve;
    forall e | e in b.loans && Resolve(e, b.apps, v).Some?
      ensures var no := Resolve(e, b.apps, v).value;
              EffectivityOf(VaultTables.EffectivityRow(e, no), e, no)
              && StagesEffectivity(VaultTables.EffectivityRow(e, no), e, b, v)
    {
      var no := Resolve(e, b.apps, v).value;
      ResolvedIsGiven(e, b.apps, v);
      StagedRow(e, no);
    }
    hide StagesEffectivity, EffectivityOf, VaultTables.EffectivityRow;
  }

  lemma StagedRow(e: LoanEvent, no: string)
    ensures EffectivityOf(VaultTables.EffectivityRow(e, no), e, no)
  {
  }
}
