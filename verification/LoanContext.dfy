/**
 The loan-to-application lookup. A loan event names its application by id only; the application
 number comes from an application event of the same batch or from a link persisted for the loan.
 */
module LoanContext {
  import opened Wrappers
  import opened RawVault
  import opened Hubs

  datatype LoanEvent = LoanEvent(loan: string, applicationId: string, context: string, deleted: bool,
                                 eventId: string, at: Moment)

  datatype AppEvent = AppEvent(applicationId: string, applicationNo: string, deleted: bool, at: Moment)

  datatype LinkKey = LinkKey(loan: string, applicationNo: string, context: string)

  type Link = Arrival<LinkKey>

  /**
   The events of one run that pass the business-key checks. The hub checks the application number only:
   `numbers` are those of the application images whose id is missing.
   */
  datatype Batch = Batch(apps: seq<AppEvent>, loans: seq<LoanEvent>, numbers: set<string>)

  /** link_loan_context and the business keys of hub_loan_application. */
  datatype Vault = Vault(links: seq<Link>, hub: set<string>)

  const EMPTY_VAULT := Vault([], {})

  // ---------------------------------------------------------------- the lookup

  function PositionAt(m: Moment): Position {
    Position(m.lsn, m.effectiveFrom, m.partition, m.offset)
  }

  /** Application events are ranked by LSN and offset alone, links by event time in between. */
  predicate LaterPosition(a: Moment, b: Moment) {
    GreaterNullsLast(a.lsn, b.lsn) || (a.lsn == b.lsn && LaterOffset(PositionAt(a), PositionAt(b)))
  }

  predicate LaterLink(a: Moment, b: Moment) {
    Ahead(false, PositionAt(a), PositionAt(b))
  }

  /** The application event of the batch ranked first for an application id. */
  function LatestApp(apps: seq<AppEvent>, id: string): (r: Option<AppEvent>)
    ensures r.Some? ==> r.value in apps && r.value.applicationId == id
    ensures r.Some? <==> exists a :: a in apps && a.applicationId == id
  {
    if apps == [] then None else
    var best, a := LatestApp(apps[..|apps| - 1], id), apps[|apps| - 1];
    if a.applicationId != id then best
    else if best.None? || LaterPosition(a.at, best.value.at) then Some(a) else best
  }

  /** The persisted link ranked first for a loan. */
  function LatestLink(links: seq<Link>, loan: string): (r: Option<Link>)
    ensures r.Some? ==> r.value in links && r.value.key.loan == loan
    ensures r.Some? <==> HasLink(links, loan)
  {
    if links == [] then None else
    var best, l := LatestLink(links[..|links| - 1], loan), links[|links| - 1];
    if l.key.loan != loan then best
    else if best.None? || LaterLink(l.at, best.value.at) then Some(l) else best
  }

  predicate HasLink(links: seq<Link>, loan: string) {
    exists l :: l in links && l.key.loan == loan
  }

  function Persisted(v: Vault, loan: string): Option<string> {
    var link := LatestLink(v.links, loan);
    if link.Some? && link.value.key.applicationNo in v.hub then Some(link.value.key.applicationNo) else None
  }

  function Resolve(e: LoanEvent, apps: seq<AppEvent>, v: Vault): Option<string> {
    var own := LatestApp(apps, e.applicationId);
    if own.Some? then Some(own.value.applicationNo) else Persisted(v, e.loan)
  }

  // ---------------------------------------------------------------- run_core, loan part

  /** Candidate links; a loan event whose application is unknown is left out. */
  function ResolvedLinks(loans: seq<LoanEvent>, apps: seq<AppEvent>, v: Vault): seq<Link> {
    if loans == [] then [] else
    var rest, e := ResolvedLinks(loans[..|loans| - 1], apps, v), loans[|loans| - 1];
    var no := Resolve(e, apps, v);
    if e.deleted || no.None? then rest else rest + [Arrival(LinkKey(e.loan, no.value, e.context), e.at)]
  }

  /** The numbers the hub stages. */
  function HubKeys(b: Batch): set<string> {
    b.numbers + InsertedNumbers(b.apps)
  }

  function InsertedNumbers(apps: seq<AppEvent>): set<string> {
    set a | a in apps && !a.deleted :: a.applicationNo
  }

  /** The hub is loaded before the link that looks it up. */
  function WithHub(v: Vault, b: Batch): Vault {
    v.(hub := v.hub + HubKeys(b))
  }

  function LoadLinks(v: Vault, b: Batch): Vault {
    v.(links := LoadByKey(v.links, ResolvedLinks(b.loans, b.apps, v)))
  }

  function RunCore(v: Vault, b: Batch): Vault {
    LoadLinks(WithHub(v, b), b)
  }

  function RunAll(batches: seq<Batch>): Vault {
    if batches == [] then EMPTY_VAULT else RunCore(RunAll(batches[..|batches| - 1]), batches[|batches| - 1])
  }

  lemma {:induction false} ResolvedLinksExact(loans: seq<LoanEvent>, apps: seq<AppEvent>, v: Vault)
    ensures forall l :: l in ResolvedLinks(loans, apps, v) <==>
              exists e :: e in loans && !e.deleted && Resolve(e, apps, v).Some?
                && l == Arrival(LinkKey(e.loan, Resolve(e, apps, v).value, e.context), e.at)
  {
    hide Resolve;
    if loans != [] {
      var front, last := loans[..|loans| - 1], loans[|loans| - 1];
      ResolvedLinksExact(front, apps, v);
      assert forall e :: e in loans <==> e in front || e == last;
    }
  }

  // ---------------------------------------------------------------- under immutable application ids

  /** A loan never changes its application id, nor an application id its number. */
  ghost predicate Immutable(b: Batch, idOf: string -> string, noOf: string -> string) {
    && (forall e | e in b.loans :: e.applicationId == idOf(e.loan))
    && (forall a | a in b.apps :: a.applicationNo == noOf(a.applicationId))
  }

  ghost predicate LinksAgree(v: Vault, idOf: string -> string, noOf: string -> string) {
    forall l | l in v.links :: l.key.applicationNo == noOf(idOf(l.key.loan))
  }

  ghost predicate Decides(b: Batch, id: string) {
    exists a :: a in b.apps && a.applicationId == id
  }

  /** Whether a loan event resolves is all the lookup decides; the number is fixed. */
  lemma ResolveIsFixed(e: LoanEvent, b: Batch, v: Vault, idOf: string -> string, noOf: string -> string)
    requires Immutable(b, idOf, noOf) && LinksAgree(v, idOf, noOf) && e in b.loans
    ensures var no := noOf(idOf(e.loan));
            Resolve(e, b.apps, v) == if Decides(b, idOf(e.loan))
                || (HasLink(v.links, e.loan) && no in v.hub) then Some(no) else None
  {
  }

  /** Links after the merge: the earlier ones and those resolved in the batch. */
  lemma CoreLinks(v: Vault, b: Batch, idOf: string -> string, noOf: string -> string)
    requires Immutable(b, idOf, noOf) && LinksAgree(v, idOf, noOf) && OnePerKey(v.links)
    ensures var after := LoadLinks(v, b);
            && OnePerKey(after.links) && LinksAgree(after, idOf, noOf)
            && (forall loan :: HasLink(after.links, loan) <==>
                  HasLink(v.links, loan)
                  || exists e :: e in b.loans && e.loan == loan && !e.deleted && Resolve(e, b.apps, v).Some?)
  {
    hide Resolve, HasLink;
    var after := LoadLinks(v, b);
    var candidates := ResolvedLinks(b.loans, b.apps, v);
    ResolvedLinksExact(b.loans, b.apps, v);
    LoadIsInsertOnly(v.links, candidates);
    KeptAreFirstArrivals(candidates);
    MergeMembers(v.links, KeepFirstArrival(candidates));
    hide KeepFirstArrival, LoadByKey, OnePerKey;
    forall l | l in after.links ensures l in v.links || l in candidates {
      FirstArrivalMember(candidates, l);
    }
    forall l | l in after.links ensures l.key.applicationNo == noOf(idOf(l.key.loan)) {
      if l !in v.links { CandidateAgrees(b, v, l, idOf, noOf); }
    }
    forall loan
      ensures HasLink(after.links, loan) <==>
                HasLink(v.links, loan)
                || exists e :: e in b.loans && e.loan == loan && !e.deleted && Resolve(e, b.apps, v).Some?
    {
      LinksOfLoan(v.links, candidates, after.links, loan);
      CandidateOfLoan(b, v, candidates, loan);
    }
  }

  lemma FirstArrivalMember(candidates: seq<Link>, l: Link)
    ensures l in KeepFirstArrival(candidates) ==> l in candidates
  {
    KeptAreFirstArrivals(candidates);
    hide KeepFirstArrival, KeysOf, OnePerKey, Earlier;
    if l in KeepFirstArrival(candidates) {
      var i :| 0 <= i < |KeepFirstArrival(candidates)| && KeepFirstArrival(candidates)[i] == l;
    }
  }

  lemma CandidateAgrees(b: Batch, ready: Vault, l: Link, idOf: string -> string, noOf: string -> string)
    requires Immutable(b, idOf, noOf) && LinksAgree(ready, idOf, noOf) && l in ResolvedLinks(b.loans, b.apps, ready)
    ensures l.key.applicationNo == noOf(idOf(l.key.loan))
  {
    hide Resolve, Immutable, LinksAgree;
    ResolvedLinksExact(b.loans, b.apps, ready);
    var e :| e in b.loans && !e.deleted && Resolve(e, b.apps, ready).Some?
             && l == Arrival(LinkKey(e.loan, Resolve(e, b.apps, ready).value, e.context), e.at);
    ResolveIsFixed(e, b, ready, idOf, noOf);
  }

  /** The loans of the merged links are those of the table and of the candidates. */
  lemma LinksOfLoan(table: seq<Link>, candidates: seq<Link>, after: seq<Link>, loan: string)
    requires OnePerKey(table) && after == LoadByKey(table, candidates)
    ensures HasLink(after, loan) <==> HasLink(table, loan) || HasLink(candidates, loan)
  {
    LoadIsInsertOnly(table, candidates);
    hide LoadByKey, KeysOf, OnePerKey;
    LoanHasKey(table, loan);
    LoanHasKey(candidates, loan);
    LoanHasKey(after, loan);
  }

  lemma LoanHasKey(links: seq<Link>, loan: string)
    ensures HasLink(links, loan) <==> exists k :: k in KeysOf(links) && k.loan == loan
  {
    if HasLink(links, loan) {
      var l :| l in links && l.key.loan == loan;
      MemberKey(links, l);
    }
    if k :| k in KeysOf(links) && k.loan == loan { SomeOfKey(links, k); }
  }

  lemma CandidateOfLoan(b: Batch, ready: Vault, candidates: seq<Link>, loan: string)
    requires candidates == ResolvedLinks(b.loans, b.apps, ready)
    ensures HasLink(candidates, loan) <==> exists e ::
              e in b.loans && e.loan == loan && !e.deleted && Resolve(e, b.apps, ready).Some?
  {
    hide Resolve;
    ResolvedLinksExact(b.loans, b.apps, ready);
    if e :| e in b.loans && e.loan == loan && !e.deleted && Resolve(e, b.apps, ready).Some? {
      assert Arrival(LinkKey(e.loan, Resolve(e, b.apps, ready).value, e.context), e.at) in candidates;
    }
  }

  // ---------------------------------------------------------------- exactly when a replay inserts nothing

  /** The links the merge of the batch inserts. */
  function NewLinks(v: Vault, b: Batch): seq<Link> {
    Unstored(v.links, KeepFirstArrival(ResolvedLinks(b.loans, b.apps, v)))
  }

  /**
   A loan event whose application the batch lacks, and the new link of its loan that will answer for it:
   ranked first among the new links and ahead of the stored ones, its application in the hub, while the
   event's own link under that number is neither stored nor staged.
   */
  ghost predicate Unsettles(v: Vault, b: Batch, e: LoanEvent, x: Link) {
    && e in b.loans && !e.deleted && LatestApp(b.apps, e.applicationId).None?
    && LatestLink(NewLinks(v, b), e.loan) == Some(x)
    && (forall l | l in v.links && l.key.loan == e.loan :: LaterLink(x.at, l.at))
    && x.key.applicationNo in v.hub
    && LinkKey(e.loan, x.key.applicationNo, e.context) !in
         KeysOf(v.links) + KeysOf(ResolvedLinks(b.loans, b.apps, v))
  }

  /** No new link unsettles an event of the batch. */
  ghost predicate LinksSettled(v: Vault, b: Batch) {
    forall e, x :: !Unsettles(v, b, e, x)
  }

  /** Every link an event resolves to behind the merge, its application not in the batch, is stored. */
  ghost predicate StoredBehind(v: Vault, b: Batch) {
    var after := LoadLinks(v, b);
    forall e | e in b.loans && !e.deleted && LatestApp(b.apps, e.applicationId).None?
               && Persisted(after, e.loan).Some? ::
      LinkKey(e.loan, Persisted(after, e.loan).value, e.context) in KeysOf(after.links)
  }

  lemma {:induction false} LatestOfConcat(a: seq<Link>, b: seq<Link>, loan: string)
    ensures var x, y := LatestLink(a, loan), LatestLink(b, loan);
            LatestLink(a + b, loan) ==
              if y.Some? && (x.None? || LaterLink(y.value.at, x.value.at)) then y else x
  {
    hide LaterLink;
    if b == [] {
      assert a + b == a;
    } else {
      var front, last := b[..|b| - 1], b[|b| - 1];
      LatestOfConcat(a, front, loan);
      assert (a + b)[..|a + b| - 1] == a + front && (a + b)[|a + b| - 1] == last;
      var x, y := LatestLink(a, loan), LatestLink(front, loan);
      if x.Some? && y.Some? {
        PositionsAreRanked(last.at, y.value.at, x.value.at);
        PositionsAreRanked(y.value.at, last.at, x.value.at);
        LaterLinkIsTransitive(last.at, y.value.at, x.value.at);
        LaterLinkIsWeak(last.at, y.value.at, x.value.at);
      }
    }
  }

  lemma LaterLinkIsTransitive(a: Moment, b: Moment, c: Moment)
    ensures LaterLink(a, b) && LaterLink(b, c) ==> LaterLink(a, c)
  {
  }

  lemma LaterLinkIsWeak(a: Moment, b: Moment, c: Moment)
    ensures LaterLink(a, c) && !LaterLink(b, c) ==> LaterLink(a, b)
  {
  }

  /** What is persisted for a loan behind the merge: a new link only if it is ahead of all stored ones. */
  lemma LatestBehind(v: Vault, b: Batch, loan: string)
    ensures var x, y := LatestLink(v.links, loan), LatestLink(NewLinks(v, b), loan);
            var after := LoadLinks(v, b);
            && after.hub == v.hub
            && KeysOf(after.links) == KeysOf(v.links) + KeysOf(ResolvedLinks(b.loans, b.apps, v))
            && LatestLink(after.links, loan) ==
                 (if y.Some? && (forall l | l in v.links && l.key.loan == loan :: LaterLink(y.value.at, l.at)) then y
                     else x)
  {
    hide KeysOf, KeepFirstArrival, ResolvedLinks, LaterLink, Unstored;
    MergeAppends(v.links, KeepFirstArrival(ResolvedLinks(b.loans, b.apps, v)));
    KeysAfterLoad(v.links, ResolvedLinks(b.loans, b.apps, v));
    LatestOfConcat(v.links, NewLinks(v, b), loan);
    LatestLinkIsTop(v.links, loan);
    var x, y := LatestLink(v.links, loan), LatestLink(NewLinks(v, b), loan);
    if x.Some? && y.Some? {
      forall l | l in v.links && l.key.loan == loan
        ensures LaterLink(y.value.at, x.value.at) ==> LaterLink(y.value.at, l.at)
      {
        LaterLinkIsWeak(y.value.at, l.at, x.value.at);
      }
    }
  }

  lemma SettledMeansStored(v: Vault, b: Batch)
    ensures StoredBehind(v, b) <==> LinksSettled(v, b)
  {
    hide LatestApp, LoadLinks, LatestLink, LaterLink, KeysOf, NewLinks, ResolvedLinks;
    var after := LoadLinks(v, b);
    forall e | e in b.loans && !e.deleted && LatestApp(b.apps, e.applicationId).None?
      ensures (exists x :: Unsettles(v, b, e, x)) <==>
                Persisted(after, e.loan).Some?
                && LinkKey(e.loan, Persisted(after, e.loan).value, e.context) !in KeysOf(after.links)
    {
      LatestBehind(v, b, e.loan);
      if Persisted(v, e.loan).Some? { CandidateKey(b, v, e); }
      var y := LatestLink(NewLinks(v, b), e.loan);
      if y.Some? { assert Unsettles(v, b, e, y.value) || !Unsettles(v, b, e, y.value); }
    }
  }

  /** Merging the links of a batch a second time inserts nothing if and only if they are settled. */
  lemma LinksAreStableExactly(v: Vault, b: Batch)
    ensures LoadLinks(LoadLinks(v, b), b) == LoadLinks(v, b) <==> LinksSettled(v, b)
  {
    hide Persisted, LatestApp, LoadByKey, KeysOf, LinksSettled;
    SettledMeansStored(v, b);
    var after := LoadLinks(v, b);
    var first, again := ResolvedLinks(b.loans, b.apps, v), ResolvedLinks(b.loans, b.apps, after);
    LoadAddsNothingExactly(v.links, first);
    LoadAddsNothingExactly(after.links, again);
    if KeysOf(again) <= KeysOf(after.links) {
      forall e | e in b.loans && !e.deleted && LatestApp(b.apps, e.applicationId).None?
          && Persisted(after, e.loan).Some?
        ensures LinkKey(e.loan, Persisted(after, e.loan).value, e.context) in KeysOf(after.links)
      {
        CandidateKey(b, after, e);
      }
    }
    if StoredBehind(v, b) {
      forall k | k in KeysOf(again) ensures k in KeysOf(after.links) {
        var e := EventOfKey(b, after, k);
        if Resolve(e, b.apps, v) == Resolve(e, b.apps, after) { CandidateKey(b, v, e); }
      }
    }
  }

  lemma CandidateKey(b: Batch, v: Vault, e: LoanEvent)
    requires e in b.loans && !e.deleted && Resolve(e, b.apps, v).Some?
    ensures LinkKey(e.loan, Resolve(e, b.apps, v).value, e.context) in KeysOf(ResolvedLinks(b.loans, b.apps, v))
  {
    hide Resolve, KeysOf;
    ResolvedLinksExact(b.loans, b.apps, v);
    var link := Arrival(LinkKey(e.loan, Resolve(e, b.apps, v).value, e.context), e.at);
    MemberKey(ResolvedLinks(b.loans, b.apps, v), link);
  }

  lemma EventOfKey(b: Batch, v: Vault, k: LinkKey) returns (e: LoanEvent)
    requires k in KeysOf(ResolvedLinks(b.loans, b.apps, v))
    ensures e in b.loans && !e.deleted && Resolve(e, b.apps, v).Some?
    ensures k == LinkKey(e.loan, Resolve(e, b.apps, v).value, e.context)
  {
    hide Resolve;
    ResolvedLinksExact(b.loans, b.apps, v);
    SomeOfKey(ResolvedLinks(b.loans, b.apps, v), k);
    var l :| l in ResolvedLinks(b.loans, b.apps, v) && l.key == k;
    e :| e in b.loans && !e.deleted && Resolve(e, b.apps, v).Some?
         && l == Arrival(LinkKey(e.loan, Resolve(e, b.apps, v).value, e.context), e.at);
  }

  /** So a second core phase over the same batch changes nothing exactly then. */
  lemma ReplayIsStableExactly(v: Vault, b: Batch)
    ensures RunCore(RunCore(v, b), b) == RunCore(v, b) <==> LinksSettled(WithHub(v, b), b)
  {
    LinksAreStableExactly(WithHub(v, b), b);
    hide LoadByKey, ResolvedLinks;
    assert WithHub(RunCore(v, b), b) == RunCore(v, b);
  }

  /** Within the batch a loan names one application; it may have named others before. */
  predicate OneApplicationPerLoan(b: Batch) {
    forall e, f | e in b.loans && f in b.loans && e.loan == f.loan :: e.applicationId == f.applicationId
  }

  /**
   If every loan of the batch names one application, re-reading the links just written changes no answer,
   over any vault: every event of the batch resolves as before, and the links are settled.
   */
  lemma RereadingOwnLinksIsStable(v: Vault, b: Batch)
    requires OneApplicationPerLoan(b)
    ensures forall e | e in b.loans :: Resolve(e, b.apps, LoadLinks(v, b)) == Resolve(e, b.apps, v)
    ensures LinksSettled(v, b)
  {
    hide LoadLinks, LatestApp, LinksSettled;
    forall e | e in b.loans ensures Resolve(e, b.apps, LoadLinks(v, b)) == Resolve(e, b.apps, v) {
      if LatestApp(b.apps, e.applicationId).None? { PersistedStays(v, b, e); }
    }
    SameResolutionSettles(v, b);
  }

  lemma SameResolutionSettles(v: Vault, b: Batch)
    requires forall e | e in b.loans :: Resolve(e, b.apps, LoadLinks(v, b)) == Resolve(e, b.apps, v)
    ensures LinksSettled(v, b)
  {
    hide LoadByKey, ResolvedLinks, LatestApp, Persisted, KeysOf, LinksSettled;
    SettledMeansStored(v, b);
    LoadAddsNothingExactly(v.links, ResolvedLinks(b.loans, b.apps, v));
    forall e | e in b.loans && !e.deleted && LatestApp(b.apps, e.applicationId).None? && Persisted(v, e.loan).Some?
      ensures LinkKey(e.loan, Persisted(v, e.loan).value, e.context) in KeysOf(LoadLinks(v, b).links)
    {
      CandidateKey(b, v, e);
    }
  }

  /** New links of a loan whose application the batch lacks repeat the number already persisted. */
  lemma PersistedStays(v: Vault, b: Batch, e: LoanEvent)
    requires OneApplicationPerLoan(b) && e in b.loans && LatestApp(b.apps, e.applicationId).None?
    ensures Persisted(LoadLinks(v, b), e.loan) == Persisted(v, e.loan)
  {
    hide LatestApp, LoadLinks, LatestLink, LaterLink, KeysOf;
    LatestBehind(v, b, e.loan);
    var y := LatestLink(NewLinks(v, b), e.loan);
    if y.Some? {
      NewLinkIsCandidate(v, b, y.value);
      var f :| f in b.loans && !f.deleted && Resolve(f, b.apps, v).Some?
               && y.value == Arrival(LinkKey(f.loan, Resolve(f, b.apps, v).value, f.context), f.at);
      assert f.applicationId == e.applicationId;
    }
  }

  lemma NewLinkIsCandidate(v: Vault, b: Batch, x: Link)
    requires x in NewLinks(v, b)
    ensures exists f :: f in b.loans && !f.deleted && Resolve(f, b.apps, v).Some?
              && x == Arrival(LinkKey(f.loan, Resolve(f, b.apps, v).value, f.context), f.at)
  {
    hide Resolve, KeepFirstArrival, KeysOf;
    var candidates := ResolvedLinks(b.loans, b.apps, v);
    ResolvedLinksExact(b.loans, b.apps, v);
    MergeAppends(v.links, KeepFirstArrival(candidates));
    FirstArrivalMember(candidates, x);
  }

  const AT := Moment(None, None, None, "t", 0, 0)
  const APP := AppEvent("1", "A-1", false, AT)
  const FIRST := LoanEvent("L", "1", "x", false, "1", AT)
  const SECOND := LoanEvent("L", "2", "y", false, "2", AT)
  const TWO_APPLICATIONS := Batch([APP], [FIRST, SECOND], {})

  lemma FirstRun()
    ensures var v := RunCore(EMPTY_VAULT, TWO_APPLICATIONS);
            v.links == [Arrival(LinkKey("L", "A-1", "x"), AT)] && "A-1" in v.hub
  {
    var b, x := TWO_APPLICATIONS, Arrival(LinkKey("L", "A-1", "x"), AT);
    var ready := WithHub(EMPTY_VAULT, b);
    assert b.loans[..|b.loans| - 1] == [FIRST] && [FIRST][..0] == [];
    assert LatestApp([APP], "1").Some? by { assert APP in [APP]; }
    assert Resolve(FIRST, [APP], ready) == Some("A-1") && Resolve(SECOND, [APP], ready) == None;
    hide Resolve;
    assert ResolvedLinks([FIRST], b.apps, ready) == [x];
    assert ResolvedLinks(b.loans, b.apps, ready) == [x];
    OneLink(x);
    assert APP in b.apps;
  }

  /**
   Without the immutability the replay law fails: two events of one loan name two applications of
   which the batch knows one, and the second run adds a link the first did not.
   */
  lemma ChangedApplicationBreaksReplay()
    ensures RunCore(RunCore(EMPTY_VAULT, TWO_APPLICATIONS), TWO_APPLICATIONS) != RunCore(EMPTY_VAULT, TWO_APPLICATIONS)
  {
    FirstRun();
    var b, once := TWO_APPLICATIONS, RunCore(EMPTY_VAULT, TWO_APPLICATIONS);
    hide RunCore;
    SecondResolves(once);
    hide Resolve, ResolvedLinks;
    var candidates := ResolvedLinks(b.loans, b.apps, WithHub(once, b));
    LoadIsInsertOnly(once.links, candidates);
    SecondRun(once, candidates);
  }

  lemma SecondResolves(v: Vault)
    requires v.links == [Arrival(LinkKey("L", "A-1", "x"), AT)] && "A-1" in v.hub
    ensures Arrival(LinkKey("L", "A-1", "y"), AT) in ResolvedLinks(TWO_APPLICATIONS.loans, TWO_APPLICATIONS.apps,
              WithHub(v, TWO_APPLICATIONS))
  {
    var b := TWO_APPLICATIONS;
    assert LatestLink(v.links, "L").Some? by { assert v.links[0] in v.links; }
    assert Resolve(SECOND, b.apps, WithHub(v, b)) == Some("A-1");
    hide Resolve;
    ResolvedLinksExact(b.loans, b.apps, WithHub(v, b));
    assert SECOND in b.loans;
  }

  lemma SecondRun(v: Vault, candidates: seq<Link>)
    requires v.links == [Arrival(LinkKey("L", "A-1", "x"), AT)] && Arrival(LinkKey("L", "A-1", "y"), AT) in candidates
    requires candidates == ResolvedLinks(TWO_APPLICATIONS.loans, TWO_APPLICATIONS.apps, WithHub(v, TWO_APPLICATIONS))
    requires KeysOf(LoadByKey(v.links, candidates)) == KeysOf(v.links) + KeysOf(candidates)
    ensures RunCore(v, TWO_APPLICATIONS) != v
  {
    MemberKey(candidates, Arrival(LinkKey("L", "A-1", "y"), AT));
    assert LinkKey("L", "A-1", "y") !in KeysOf(v.links);
    hide KeysOf, LoadByKey, ResolvedLinks;
  }

  lemma OneLink(x: Link)
    ensures LoadByKey([], [x]) == [x]
  {
    assert KeepFirstArrival([x][..0]) == [];
    assert KeepFirstArrival([x]) == [x];
    assert MergeByKey([], [x][..0]) == [];
  }

  // ---------------------------------------------------------------- incremental lookup = rebuilt lookup

  ghost predicate InsertedBy(batches: seq<Batch>, i: int, id: string) {
    exists k, c :: 0 <= k <= i && k < |batches| && c in batches[k].apps && c.applicationId == id && !c.deleted
  }

  /** An application is inserted before it is deleted. */
  ghost predicate AppsStartWithInsert(batches: seq<Batch>) {
    forall i, a | 0 <= i < |batches| && a in batches[i].apps :: InsertedBy(batches, i, a.applicationId)
  }

  ghost predicate AllImmutable(batches: seq<Batch>, idOf: string -> string, noOf: string -> string) {
    forall i | 0 <= i < |batches| :: Immutable(batches[i], idOf, noOf)
  }

  predicate Opens(b: Batch, loan: string) {
    exists e :: e in b.loans && e.loan == loan && !e.deleted
  }

  /** Some batch before j holds both an event of the loan and its application. */
  ghost predicate MetBefore(batches: seq<Batch>, j: int, loan: string, id: string) {
    exists i :: 0 <= i < j && i < |batches| && Opens(batches[i], loan) && Decides(batches[i], id)
  }

  lemma {:induction false} HubExact(batches: seq<Batch>, no: string)
    ensures no in RunAll(batches).hub <==> exists i :: 0 <= i < |batches| && no in HubKeys(batches[i])
  {
    hide LoadByKey, ResolvedLinks, HubKeys;
    if batches != [] {
      var front, last := batches[..|batches| - 1], batches[|batches| - 1];
      HubExact(front, no);
      if i :| 0 <= i < |front| && no in HubKeys(front[i]) { assert no in HubKeys(batches[i]); }
      if no in HubKeys(last) { assert no in HubKeys(batches[|batches| - 1]); }
      if i :| 0 <= i < |batches| && no in HubKeys(batches[i]) && i < |front| { assert no in HubKeys(front[i]); }
    }
  }

  /** A decided application is in the hub. */
  lemma DecidedIsInHub(batches: seq<Batch>, j: nat, id: string, idOf: string -> string, noOf: string -> string)
    requires AllImmutable(batches, idOf, noOf) && AppsStartWithInsert(batches) && j < |batches|
             && Decides(batches[j], id)
    ensures noOf(id) in RunAll(batches).hub
  {
    hide InsertedBy, RunAll;
    var a :| a in batches[j].apps && a.applicationId == id;
    assert InsertedBy(batches, j, a.applicationId);
    InsertedIsInHub(batches, j, id, idOf, noOf);
  }

  lemma InsertedIsInHub(batches: seq<Batch>, j: nat, id: string, idOf: string -> string, noOf: string -> string)
    requires AllImmutable(batches, idOf, noOf) && InsertedBy(batches, j, id)
    ensures noOf(id) in RunAll(batches).hub
  {
    hide RunAll;
    var k, c :| 0 <= k <= j && k < |batches| && c in batches[k].apps && c.applicationId == id && !c.deleted;
    assert Immutable(batches[k], idOf, noOf);
    assert noOf(id) in HubKeys(batches[k]);
    HubExact(batches, noOf(id));
  }

  lemma {:induction false} LinksExact(batches: seq<Batch>, idOf: string -> string, noOf: string -> string, loan: string)
    requires AllImmutable(batches, idOf, noOf) && AppsStartWithInsert(batches)
    ensures OnePerKey(RunAll(batches).links) && LinksAgree(RunAll(batches), idOf, noOf)
    ensures HasLink(RunAll(batches).links, loan) <==> MetBefore(batches, |batches|, loan, idOf(loan))
  {
    hide InsertedBy, AppsStartWithInsert;
    if batches != [] {
      var front, last := batches[..|batches| - 1], batches[|batches| - 1];
      var n := |front|;
      PrefixContract(batches, idOf, noOf);
      LinksExact(front, idOf, noOf, loan);
      var v := RunAll(front);
      WithHubAgrees(v, last, idOf, noOf);
      CoreLinks(WithHub(v, last), last, idOf, noOf);
      hide RunCore, Resolve, HasLink, LinksAgree, OnePerKey, InsertedBy, AppsStartWithInsert;
      MetGrows(batches, loan, idOf(loan));
      if HasLink(v.links, loan) {
        assert MetBefore(batches, |batches|, loan, idOf(loan));
      } else if Opens(last, loan) {
        forall e | e in last.loans && e.loan == loan
          ensures Resolve(e, last.apps, WithHub(v, last)).Some? <==> Decides(last, idOf(loan))
        {
          ResolveIsFixed(e, last, WithHub(v, last), idOf, noOf);
        }
      }
    }
  }

  lemma WithHubAgrees(v: Vault, b: Batch, idOf: string -> string, noOf: string -> string)
    requires LinksAgree(v, idOf, noOf)
    ensures LinksAgree(WithHub(v, b), idOf, noOf)
  {
  }

  lemma PrefixContract(batches: seq<Batch>, idOf: string -> string, noOf: string -> string)
    requires AllImmutable(batches, idOf, noOf) && AppsStartWithInsert(batches) && batches != []
    ensures AllImmutable(batches[..|batches| - 1], idOf, noOf) && AppsStartWithInsert(batches[..|batches| - 1])
    ensures Immutable(batches[|batches| - 1], idOf, noOf)
  {
    CutContract(batches, |batches| - 1, idOf, noOf);
  }

  lemma MetGrows(batches: seq<Batch>, loan: string, id: string)
    requires batches != []
    ensures var front, last := batches[..|batches| - 1], batches[|batches| - 1];
            MetBefore(batches, |batches|, loan, id) <==>
              MetBefore(front, |front|, loan, id) || (Opens(last, loan) && Decides(last, id))
  {
    hide Opens, Decides;
    var front := batches[..|batches| - 1];
    if i :| 0 <= i < |front| && Opens(front[i], loan) && Decides(front[i], id) {
      assert Opens(batches[i], loan) && Decides(batches[i], id);
    }
    if i :| 0 <= i < |batches| && Opens(batches[i], loan) && Decides(batches[i], id) && i < |front| {
      assert Opens(front[i], loan) && Decides(front[i], id);
    }
  }

  /** What the last batch of an incremental history makes of one of its loan events. */
  function Incremental(batches: seq<Batch>, e: LoanEvent): Option<string>
    requires batches != []
  {
    var last := batches[|batches| - 1];
    Resolve(e, last.apps, WithHub(RunAll(batches[..|batches| - 1]), last))
  }

  /**
   In an incremental history a loan event resolves exactly when its own batch has the application,
   or an earlier batch had it together with an event of the loan.
   */
  lemma IncrementalResolves(batches: seq<Batch>, e: LoanEvent, idOf: string -> string, noOf: string -> string)
    requires AllImmutable(batches, idOf, noOf) && AppsStartWithInsert(batches) && batches != []
    requires e in batches[|batches| - 1].loans
    ensures Incremental(batches, e) ==
              if Decides(batches[|batches| - 1], idOf(e.loan))
                  || MetBefore(batches, |batches| - 1, e.loan, idOf(e.loan))
              then Some(noOf(idOf(e.loan))) else None
  {
    hide InsertedBy, AppsStartWithInsert;
    var front, last := batches[..|batches| - 1], batches[|batches| - 1];
    var id := idOf(e.loan);
    PrefixContract(batches, idOf, noOf);
    LinksExact(front, idOf, noOf, e.loan);
    WithHubAgrees(RunAll(front), last, idOf, noOf);
    ResolveIsFixed(e, last, WithHub(RunAll(front), last), idOf, noOf);
    hide Resolve, HasLink, RunAll, Opens, Decides, AppsStartWithInsert, AllImmutable;
    MetInFront(batches, e.loan, id);
    if MetBefore(front, |front|, e.loan, id) {
      var i :| 0 <= i < |front| && Opens(front[i], e.loan) && Decides(front[i], id);
      DecidedIsInHub(front, i, id, idOf, noOf);
    }
  }

  lemma MetInFront(batches: seq<Batch>, loan: string, id: string)
    requires batches != []
    ensures MetBefore(batches, |batches| - 1, loan, id) <==>
              MetBefore(batches[..|batches| - 1], |batches| - 1, loan, id)
  {
    hide Opens, Decides;
    var front := batches[..|batches| - 1];
    if i :| 0 <= i < |front| && Opens(front[i], loan) && Decides(front[i], id) {
      assert Opens(batches[i], loan) && Decides(batches[i], id);
    }
    if i :| 0 <= i < |batches| - 1 && Opens(batches[i], loan) && Decides(batches[i], id) {
      assert Opens(front[i], loan) && Decides(front[i], id);
    }
  }

  /** All events of the history as one unbounded run over an empty vault. */
  function Whole(batches: seq<Batch>): Batch {
    if batches == [] then Batch([], [], {}) else
    var front, last := Whole(batches[..|batches| - 1]), batches[|batches| - 1];
    Batch(front.apps + last.apps, front.loans + last.loans, front.numbers + last.numbers)
  }

  function Rebuilt(batches: seq<Batch>, e: LoanEvent): Option<string> {
    Resolve(e, Whole(batches).apps, WithHub(EMPTY_VAULT, Whole(batches)))
  }

  lemma {:induction false} WholeExact(batches: seq<Batch>)
    ensures forall a :: a in Whole(batches).apps <==> exists i :: 0 <= i < |batches| && a in batches[i].apps
    ensures forall e :: e in Whole(batches).loans <==> exists i :: 0 <= i < |batches| && e in batches[i].loans
  {
    if batches != [] {
      var front := batches[..|batches| - 1];
      WholeExact(front);
      forall a ensures a in Whole(batches).apps <==> exists i :: 0 <= i < |batches| && a in batches[i].apps {
        if i :| 0 <= i < |front| && a in front[i].apps { assert a in batches[i].apps; }
        if i :| 0 <= i < |batches| && a in batches[i].apps && i < |front| { assert a in front[i].apps; }
      }
      forall e ensures e in Whole(batches).loans <==> exists i :: 0 <= i < |batches| && e in batches[i].loans {
        if i :| 0 <= i < |front| && e in front[i].loans { assert e in batches[i].loans; }
        if i :| 0 <= i < |batches| && e in batches[i].loans && i < |front| { assert e in front[i].loans; }
      }
    }
  }

  /** The rebuild resolves a loan event exactly when any batch has its application. */
  lemma RebuildResolves(batches: seq<Batch>, e: LoanEvent, idOf: string -> string, noOf: string -> string)
    requires AllImmutable(batches, idOf, noOf) && exists i :: 0 <= i < |batches| && e in batches[i].loans
    ensures Rebuilt(batches, e) ==
              if exists i :: 0 <= i < |batches| && Decides(batches[i], idOf(e.loan)) then Some(noOf(idOf(e.loan)))
                  else None
  {
    var whole, id := Whole(batches), idOf(e.loan);
    WholeExact(batches);
    assert Immutable(whole, idOf, noOf) by {
      forall x | x in whole.loans ensures x.applicationId == idOf(x.loan) {
        var i :| 0 <= i < |batches| && x in batches[i].loans;
        assert Immutable(batches[i], idOf, noOf);
      }
      forall a | a in whole.apps ensures a.applicationNo == noOf(a.applicationId) {
        var i :| 0 <= i < |batches| && a in batches[i].apps;
        assert Immutable(batches[i], idOf, noOf);
      }
    }
    ResolveIsFixed(e, whole, WithHub(EMPTY_VAULT, whole), idOf, noOf);
    if i :| 0 <= i < |batches| && Decides(batches[i], id) {
      var a :| a in batches[i].apps && a.applicationId == id;
      assert a in whole.apps;
    }
    if Decides(whole, id) {
      var a :| a in whole.apps && a.applicationId == id;
      var i :| 0 <= i < |batches| && a in batches[i].apps;
      assert Decides(batches[i], id);
    }
  }

  /** Every event of the loan resolves incrementally as in the rebuild over the whole history. */
  ghost predicate LoadedAsRebuilt(batches: seq<Batch>, loan: string) {
    forall j, e | 0 <= j < |batches| && e in batches[j].loans && e.loan == loan ::
      Incremental(batches[..j + 1], e) == Rebuilt(batches, e)
  }

  /**
   For a loan first seen in batch k and an application known to the history, incremental loading
   equals the rebuild exactly when batch k itself holds the application. Otherwise the loan's first
   events are dropped for good, without a quarantine row.
   */
  lemma LoanIsKeptExactlyWithItsApplication(batches: seq<Batch>, loan: string, k: nat, idOf: string -> string,
                                            noOf: string -> string)
    requires AllImmutable(batches, idOf, noOf) && AppsStartWithInsert(batches)
    requires k < |batches| && Opens(batches[k], loan)
    requires forall j, e | 0 <= j < k && e in batches[j].loans :: e.loan != loan
    requires exists i :: 0 <= i < |batches| && Decides(batches[i], idOf(loan))
    ensures LoadedAsRebuilt(batches, loan) <==> Decides(batches[k], idOf(loan))
  {
    hide Incremental, Rebuilt, Decides, Opens;
    var id := idOf(loan);
    forall j, e | 0 <= j < |batches| && e in batches[j].loans && e.loan == loan
      ensures Rebuilt(batches, e) == Some(noOf(id))
      ensures Incremental(batches[..j + 1], e) == if Decides(batches[j], id)
                || MetBefore(batches, j, loan, id) then Some(noOf(id)) else None
    {
      RebuildResolves(batches, e, idOf, noOf);
      CutContract(batches, j + 1, idOf, noOf);
      IncrementalResolves(batches[..j + 1], e, idOf, noOf);
      CutMet(batches, j, loan, id);
    }
    if Decides(batches[k], id) {
      forall j, e | 0 <= j < |batches| && e in batches[j].loans && e.loan == loan
        ensures Incremental(batches[..j + 1], e) == Rebuilt(batches, e)
      {
        if j > k { assert MetBefore(batches, j, loan, id); }
      }
    } else {
      NotMetBeforeFirst(batches, k, loan, id);
      var e := OpeningEvent(batches[k], loan);
      assert Incremental(batches[..k + 1], e) != Rebuilt(batches, e);
    }
  }

  /**
   A loan that starts in the batch of its application resolves every later event to the same number,
   so the rows of its effectivity satellite depend on the event alone.
   */
  lemma KeptLoanResolvesByEventAlone(batches: seq<Batch>, loan: string, k: nat, idOf: string -> string,
                                     noOf: string -> string)
    requires AllImmutable(batches, idOf, noOf) && AppsStartWithInsert(batches)
    requires k < |batches| && Opens(batches[k], loan) && Decides(batches[k], idOf(loan))
    requires forall j, e | 0 <= j < k && e in batches[j].loans :: e.loan != loan
    ensures forall j, e | 0 <= j < |batches| && e in batches[j].loans && e.loan == loan ::
              Incremental(batches[..j + 1], e) == Some(noOf(idOf(loan)))
  {
    hide Incremental, Decides, Opens;
    forall j, e | 0 <= j < |batches| && e in batches[j].loans && e.loan == loan
      ensures Incremental(batches[..j + 1], e) == Some(noOf(idOf(loan)))
    {
      CutContract(batches, j + 1, idOf, noOf);
      IncrementalResolves(batches[..j + 1], e, idOf, noOf);
      CutMet(batches, j, loan, idOf(loan));
      if j > k { assert MetBefore(batches, j, loan, idOf(loan)); }
    }
  }

  function OpeningEvent(b: Batch, loan: string): (e: LoanEvent)
    requires Opens(b, loan)
    ensures e in b.loans && e.loan == loan && !e.deleted
  {
    FirstOpening(b.loans, loan)
  }

  function FirstOpening(loans: seq<LoanEvent>, loan: string): (e: LoanEvent)
    requires exists e :: e in loans && e.loan == loan && !e.deleted
    ensures e in loans && e.loan == loan && !e.deleted
  {
    if loans[0].loan == loan && !loans[0].deleted then loans[0] else FirstOpening(loans[1..], loan)
  }

  lemma NotMetBeforeFirst(batches: seq<Batch>, k: nat, loan: string, id: string)
    requires k < |batches| && forall j, e | 0 <= j < k && e in batches[j].loans :: e.loan != loan
    ensures !MetBefore(batches, k, loan, id)
  {
    hide Decides;
  }

  lemma CutContract(batches: seq<Batch>, n: nat, idOf: string -> string, noOf: string -> string)
    requires AllImmutable(batches, idOf, noOf) && AppsStartWithInsert(batches) && n <= |batches|
    ensures AllImmutable(batches[..n], idOf, noOf) && AppsStartWithInsert(batches[..n])
  {
    hide Immutable, InsertedBy;
    var cut := batches[..n];
    forall i, a | 0 <= i < |cut| && a in cut[i].apps ensures InsertedBy(cut, i, a.applicationId) {
      assert a in batches[i].apps;
      CutInserted(batches, n, i, a.applicationId);
    }
  }

  lemma CutInserted(batches: seq<Batch>, n: nat, i: nat, id: string)
    requires i < n <= |batches| && InsertedBy(batches, i, id)
    ensures InsertedBy(batches[..n], i, id)
  {
    var k, c :| 0 <= k <= i && k < |batches| && c in batches[k].apps && c.applicationId == id && !c.deleted;
    assert batches[..n][k] == batches[k];
  }

  lemma CutMet(batches: seq<Batch>, j: nat, loan: string, id: string)
    requires j < |batches|
    ensures MetBefore(batches[..j + 1], j, loan, id) <==> MetBefore(batches, j, loan, id)
  {
    hide Opens, Decides;
    var cut := batches[..j + 1];
    if i :| 0 <= i < j && Opens(cut[i], loan) && Decides(cut[i], id) {
      assert Opens(batches[i], loan) && Decides(batches[i], id);
    }
    if i :| 0 <= i < j && Opens(batches[i], loan) && Decides(batches[i], id) {
      assert Opens(cut[i], loan) && Decides(cut[i], id);
    }
  }

  // ---------------------------------------------------------------- the ranks of the lookup

  lemma PositionsAreRanked(a: Moment, b: Moment, c: Moment)
    ensures !LaterPosition(a, b) && LaterPosition(c, b) ==> !LaterPosition(a, c)
    ensures !LaterLink(a, b) && LaterLink(c, b) ==> !LaterLink(a, c)
    ensures !LaterPosition(a, a) && !LaterLink(a, a)
  {
  }

  /** No application event of the id is ranked ahead of the chosen one. */
  lemma {:induction false} LatestAppIsTop(apps: seq<AppEvent>, id: string)
    ensures LatestApp(apps, id).Some? ==>
              forall a | a in apps && a.applicationId == id :: !LaterPosition(a.at, LatestApp(apps, id).value.at)
  {
    hide LaterPosition;
    if apps != [] {
      var front, last := apps[..|apps| - 1], apps[|apps| - 1];
      LatestAppIsTop(front, id);
      forall a | a in apps && a.applicationId == id ensures !LaterPosition(a.at, LatestApp(apps, id).value.at) {
        var best := LatestApp(front, id);
        PositionsAreRanked(a.at, if best.Some? then best.value.at else last.at, last.at);
        PositionsAreRanked(last.at, last.at, last.at);
        assert a in front || a == last;
      }
    }
  }

  /** No persisted link of the loan is ranked ahead of the chosen one. */
  lemma {:induction false} LatestLinkIsTop(links: seq<Link>, loan: string)
    ensures LatestLink(links, loan).Some? ==>
              forall l | l in links && l.key.loan == loan :: !LaterLink(l.at, LatestLink(links, loan).value.at)
  {
    hide LaterLink;
    if links != [] {
      var front, last := links[..|links| - 1], links[|links| - 1];
      LatestLinkIsTop(front, loan);
      forall l | l in links && l.key.loan == loan ensures !LaterLink(l.at, LatestLink(links, loan).value.at) {
        var best := LatestLink(front, loan);
        PositionsAreRanked(l.at, if best.Some? then best.value.at else last.at, last.at);
        PositionsAreRanked(last.at, last.at, last.at);
        assert l in front || l == last;
      }
    }
  }
}
