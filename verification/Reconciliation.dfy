/** The session's in-place operations: submitting one order, and the paged REST reconciliation. */
module Reconciliation {
  import opened Foundations
  import opened ExactDecimals
  import opened Lifecycle
  import opened Transitions
  import opened ShareAmounts
  import opened Journal
  import opened PersistentTracker
  import opened Session
  import Trading

  // ---- Paging as a value ----

  datatype Page = Page(cursor: Option<Text>, orders: seq<OrderRecord>)

  /** A reconciliation in progress: pages received, cursors seen, records collected, requests sent. */
  datatype Paging = Paging(
    active: bool, pages: nat, cursors: set<Text>, records: seq<OrderRecord>, requested: seq<Option<Text>>)

  const FIRST_REQUEST: Paging := Paging(true, 0, {}, [], [None])

  datatype Verdict = Ignored | NextPage | Failed(code: ErrorCode) | Complete

  predicate HasNext(page: Page) { page.cursor.Some? && page.cursor.value != [] }

  /** `on_page`. */
  function AfterPage(p: Paging, result: Result<Page>, maximum: nat): (Paging, Verdict) {
    if !p.active then (p, Ignored)
    else
      match result
      case Err(code) => (p.(active := false), Failed(code))
      case Ok(page) =>
        var q := p.(pages := p.pages + 1, records := p.records + page.orders);
        if !HasNext(page) then (q.(active := false), Complete)
        else if page.cursor.value in p.cursors then (q.(active := false), Failed(ProtocolError))
        else
          var r := q.(cursors := p.cursors + {page.cursor.value});
          if r.pages >= maximum then (r.(active := false), Failed(TooManyItems))
          else (r.(requested := p.requested + [page.cursor]), NextPage)
  }

  function PageRun(results: seq<Result<Page>>, maximum: nat): (Paging, Verdict) {
    if results == [] then (FIRST_REQUEST, NextPage)
    else AfterPage(PageRun(results[..|results| - 1], maximum).0, results[|results| - 1], maximum)
  }

  ghost predicate PagingRule(p: Paging, maximum: nat) {
    && 1 <= |p.requested| <= maximum && p.requested[0] == None
    && (p.active ==> |p.requested| == p.pages + 1)
    && (forall i | 1 <= i < |p.requested| :: p.requested[i].Some? && p.requested[i].value in p.cursors)
    && (forall i, j | 0 <= i < j < |p.requested| :: p.requested[i] != p.requested[j])
  }

  lemma PageKeepsRule(p: Paging, result: Result<Page>, maximum: nat)
    requires PagingRule(p, maximum)
    ensures PagingRule(AfterPage(p, result, maximum).0, maximum)
  {
  }

  function CollectedOrders(results: seq<Result<Page>>): seq<OrderRecord> {
    if results == [] then []
    else
      CollectedOrders(results[..|results| - 1])
      + (match results[|results| - 1] case Ok(page) => page.orders case Err(_) => [])
  }

  /** Whatever the server answers, a paged reconciliation sends at most the configured number of requests, never
      the same one twice; it is complete only after a page without a cursor, and then holds every record of every
      page in order. */
  lemma {:induction false} PagingIsBounded(results: seq<Result<Page>>, maximum: nat)
    requires maximum >= 1
    ensures var (p, verdict) := PageRun(results, maximum);
            && |p.requested| <= maximum
            && (forall i, j | 0 <= i < j < |p.requested| :: p.requested[i] != p.requested[j])
            && (p.active || verdict == Complete ==> p.records == CollectedOrders(results))
            && (verdict == Complete ==> results != [] && results[|results| - 1].Ok? && !HasNext(results[|results| - 1].value))
    ensures PagingRule(PageRun(results, maximum).0, maximum)
    decreases |results|
  {
    if results != [] {
      PagingIsBounded(results[..|results| - 1], maximum);
      PageKeepsRule(PageRun(results[..|results| - 1], maximum).0, results[|results| - 1], maximum);
    }
  }

  /** What an operation that still waits for a page remembers: how many pages came, and the cursors it asked for. */
  lemma {:induction false} WaitingRemembers(results: seq<Result<Page>>, maximum: nat)
    ensures var p := PageRun(results, maximum).0;
            p.active ==>
              && p.pages == |results| && |p.requested| == |results| + 1 && (forall c :: Some(c) in p.requested <==> c in p.cursors)
              && (forall r | r in results :: r.Ok?)
    decreases |results|
  {
    if results != [] {
      var before := results[..|results| - 1];
      WaitingRemembers(before, maximum);
      assert forall r | r in results :: r in before || r == results[|results| - 1];
    }
  }

  /** What one more page does to an operation that waits for it: an error ends it with that error; a page without a
      cursor, or with an empty one, completes it; a cursor it has asked for before ends it as a protocol error; the last
      page allowed ends it as too long; and any other page is followed by a request for its cursor. */
  lemma PageDecides(results: seq<Result<Page>>, result: Result<Page>, maximum: nat)
    requires PageRun(results, maximum).0.active
    ensures var p, (q, verdict) := PageRun(results, maximum).0, PageRun(results + [result], maximum);
            && (q.active <==> verdict == NextPage)
            && (result.Err? ==> verdict == Failed(result.code) && q.records == p.records)
            && (result.Ok? ==>
                  var page := result.value;
                  var last := page.cursor.None? || page.cursor.value == [];
                  && q.records == p.records + page.orders
                  && (verdict == Complete <==> last)
                  && (verdict == Failed(ProtocolError) <==> !last && page.cursor in p.requested)
                  && (verdict == Failed(TooManyItems) <==> !last && page.cursor !in p.requested && |results| + 1 >= maximum)
                  && (verdict == NextPage ==> q.requested == p.requested + [page.cursor])
                  && verdict in {Complete, NextPage, Failed(ProtocolError), Failed(TooManyItems)})
            && (verdict != NextPage ==> q.requested == p.requested)
  {
    WaitingRemembers(results, maximum);
    assert (results + [result])[..|results|] == results;
  }

  /** An operation that has ended ignores every later answer. */
  lemma EndedIgnores(results: seq<Result<Page>>, result: Result<Page>, maximum: nat)
    requires !PageRun(results, maximum).0.active
    ensures PageRun(results + [result], maximum) == (PageRun(results, maximum).0, Ignored)
  {
    assert (results + [result])[..|results|] == results;
  }

  // ---- The whole operation, with the tracker it works on ----

  /** A reconciliation with the journal and the published orders; `verdict` is the last one that was not ignored. */
  datatype Reconciling = Reconciling(paging: Paging, verdict: Verdict, store: Store)

  const NOT_STARTED: Paging := Paging(false, 0, {}, [], [])

  lemma HasListing(orders: Orders)
    requires WellFiled(orders)
    ensures exists batch :: IsSnapshot(orders, batch)
  {
    var batch := SnapshotExists(orders);
  }

  /** The sorted listing that a whole-tracker transition journals. */
  ghost function Listing(orders: Orders): (batch: seq<TrackedOrder>)
    requires WellFiled(orders)
    ensures IsSnapshot(orders, batch)
  {
    HasListing(orders);
    var batch :| IsSnapshot(orders, batch);
    batch
  }

  /** A whole-tracker transition of the persistent tracker. */
  ghost function PersistedAll(store: Store, t: Transition, maximum: nat): (r: (Store, Result<bool>))
    requires WellFiled(store.orders) && Target(t).None?
    ensures r.0.orders == if r.1.Ok? then Apply(store.orders, t).value else store.orders
    ensures WellFiled(r.0.orders)
  {
    hide PlainDecimal, ValidHash, Appended, QuarantineAll, ReconcileAll;
    ApplyShape(store.orders, t);
    Persisted(store, t, Listing(Apply(store.orders, t).value), maximum)
  }

  /** `start`: everything unfinished is quarantined before the first request. */
  ghost function Started(store: Store, generation: uint64, maximum: nat): (r: Reconciling)
    requires WellFiled(store.orders)
    ensures WellFiled(r.store.orders)
  {
    var (next, r) := PersistedAll(store, Quarantine(generation), maximum);
    if r.Ok? then Reconciling(FIRST_REQUEST, NextPage, next) else Reconciling(NOT_STARTED, Failed(r.code), next)
  }

  /** `on_page`: only the last page touches the tracker, and a refused final append ends the operation with its error. */
  ghost function Paged(r: Reconciling, generation: uint64, result: Result<Page>, pages: nat, maximum: nat): (r': Reconciling)
    requires WellFiled(r.store.orders)
    ensures WellFiled(r'.store.orders)
  {
    var (p, verdict) := AfterPage(r.paging, result, pages);
    if verdict == Ignored then r
    else if verdict != Complete then Reconciling(p, verdict, r.store)
    else
      var (next, ok) := PersistedAll(r.store, Transition.Reconciliation(generation, p.records), maximum);
      Reconciling(p, if ok.Ok? then Complete else Failed(ok.code), next)
  }

  ghost function Reconciled(store: Store, generation: uint64, results: seq<Result<Page>>, pages: nat, maximum: nat): (r: Reconciling)
    requires WellFiled(store.orders)
    ensures WellFiled(r.store.orders)
  {
    if results == [] then Started(store, generation, maximum)
    else
      Paged(Reconciled(store, generation, results[..|results| - 1], pages, maximum), generation, results[|results| - 1],
            pages, maximum)
  }

  /** What is published while a reconciliation runs and when it has ended. */
  ghost predicate Holds(r: Reconciling, quarantined: Orders, generation: uint64) {
    if r.verdict == Complete then
      !r.paging.active && r.store.orders == ReconcileAll(quarantined, generation, r.paging.records)
    else r.store.orders == quarantined
  }

  lemma PageHolds(r: Reconciling, quarantined: Orders, generation: uint64, result: Result<Page>, pages: nat, maximum: nat)
    requires WellFiled(r.store.orders) && Holds(r, quarantined, generation)
    ensures Holds(Paged(r, generation, result, pages, maximum), quarantined, generation)
    ensures Paged(r, generation, result, pages, maximum).paging == AfterPage(r.paging, result, pages).0
  {
    hide PlainDecimal, WellFiled, ReconcileAll, Appended;
  }

  /** Whatever the server answers, and for as long as the last page has not been applied, the published orders are the
      quarantined ones: every flag that was set before is still set, and every unfinished order is flagged. Only the
      last page replaces them, by what all its records decide. A reconciliation that cannot start changes nothing. */
  lemma {:induction false} QuarantineClearsNothing(store: Store, generation: uint64, results: seq<Result<Page>>, pages: nat,
                                                   maximum: nat)
    requires WellFiled(store.orders)
    ensures var begun, r := Started(store, generation, maximum), Reconciled(store, generation, results, pages, maximum);
            var quarantined := QuarantineAll(store.orders, generation);
            if begun.verdict.Failed? then r == begun && r.store.orders == store.orders
            else
              && r.paging == PageRun(results, pages).0 && Holds(r, quarantined, generation)
              && (r.verdict != Complete ==>
                    forall h | h in store.orders ::
                      h in r.store.orders
                      && (store.orders[h].flagged || !Terminal(store.orders[h]) ==> r.store.orders[h].flagged))
    decreases |results|
  {
    hide PlainDecimal, WellFiled, ReconcileAll, Paged, PersistedAll, Holds;
    var begun := Started(store, generation, maximum);
    if results == [] {
      StartHolds(store, generation, maximum);
    } else {
      var before := results[..|results| - 1];
      QuarantineClearsNothing(store, generation, before, pages, maximum);
      var r := Reconciled(store, generation, before, pages, maximum);
      if begun.verdict.Failed? {
        NotStarted(r, generation, results[|results| - 1], pages, maximum);
      } else {
        PageHolds(r, QuarantineAll(store.orders, generation), generation, results[|results| - 1], pages, maximum);
      }
    }
    QuarantineFlags(store.orders, generation);
    HoldsMeans(Reconciled(store, generation, results, pages, maximum), QuarantineAll(store.orders, generation), generation);
  }

  lemma StartHolds(store: Store, generation: uint64, maximum: nat)
    requires WellFiled(store.orders)
    ensures var r := Started(store, generation, maximum);
            if r.verdict.Failed? then r.store.orders == store.orders && r.paging == NOT_STARTED
            else r.paging == FIRST_REQUEST && Holds(r, QuarantineAll(store.orders, generation), generation)
  {
    hide PlainDecimal, WellFiled, QuarantineAll;
  }

  lemma NotStarted(r: Reconciling, generation: uint64, result: Result<Page>, pages: nat, maximum: nat)
    requires WellFiled(r.store.orders) && !r.paging.active
    ensures Paged(r, generation, result, pages, maximum) == r
  {
    hide PlainDecimal, WellFiled, PersistedAll;
  }

  lemma HoldsMeans(r: Reconciling, quarantined: Orders, generation: uint64)
    ensures Holds(r, quarantined, generation) && r.verdict != Complete ==> r.store.orders == quarantined
  {
  }

  lemma QuarantineFlags(orders: Orders, generation: uint64)
    ensures forall h | h in orders ::
              && h in QuarantineAll(orders, generation)
              && (orders[h].flagged || !Terminal(orders[h]) ==> QuarantineAll(orders, generation)[h].flagged)
  {
    hide PlainDecimal;
  }

  // ---- The session objects ----

  class DurableSession {
    const tracker: PersistentOrderTracker
    const maximumPages: nat
    var reconciling: bool

    constructor (tracker: PersistentOrderTracker, maximumPages: nat)
      ensures this.tracker == tracker && this.maximumPages == maximumPages && !reconciling
    {
      this.tracker := tracker;
      this.maximumPages := maximumPages;
      reconciling := false;
    }

    /** The running part of the system this session stands for. */
    ghost function AsSystem(): System
      reads tracker, tracker.journal
    {
      System(tracker.journal.log, Some(tracker.orders), [], [])
    }

    /** `SubmitOperation::start`: the hash is journaled before the trading operation exists. */
    method Submit(request: CreateRequest) returns (r: Result<Trading.TradingOperation>)
      requires tracker.Valid()
      modifies tracker, tracker.journal
      ensures tracker.Valid()
      ensures var s := AfterSubmit(old(AsSystem()), request, tracker.journal.maximum);
              && AsSystem() == s.(submissions := [])
              && (r.Ok? <==> s.submissions != [])
      ensures r.Ok? ==> fresh(r.value) && r.value.View() == Trading.FRESH && request.hash in tracker.orders
      ensures ValidateCreate(request).Err? ==> r == Err(ValidateCreate(request).code)
      ensures ValidateCreate(request).Ok? && request.hash in old(tracker.orders) ==> r == Err(InvalidArgument)
    {
      hide PlainDecimal, ProtocolDecimal, ValidHash, StartTracking, Appended, WellFiled;
      var valid := ValidateCreate(request);
      if valid.Err? {
        return Err(valid.code);
      }
      ValidRequestsAreTracked(tracker.orders, request);
      var amount := TrackedShareAmount(request);
      ghost var t := Begin(request.hash, amount.value);
      if Apply(tracker.orders, t).Ok? {
        BeginIsNew(tracker.orders, t);
      }
      var begun := tracker.BeginSubmission(request.hash, amount.value);
      if begun.Err? {
        return Err(begun.code);
      }
      var operation := new Trading.TradingOperation();
      r := Ok(operation);
    }

    /** `SubmitOperation::on_result`. */
    method OnResult(hash: Text, c: Trading.Completion, message: Text) returns (r: Result<bool>)
      requires tracker.Valid()
      modifies tracker, tracker.journal
      ensures tracker.Valid()
      ensures AsSystem() == TransitOne(old(AsSystem()), ResultTransition(hash, c, message), tracker.journal.maximum)
      ensures Transacted(old(tracker.View()), ResultTransition(hash, c, message), tracker.View(), r, tracker.journal.maximum)
    {
      hide PlainDecimal, ValidHash, Appended, WellFiled, ApplyOutcome, Reject;
      match c {
        case PlainError(_, _) =>
          r := tracker.MarkSubmissionRejected(hash, message);
        case Acknowledged(receipt) =>
          r := tracker.ApplyCreateOutcome(hash, CreateOutcome(false, Some(receipt), None));
        case AmbiguousOutcome(_) =>
          r := tracker.ApplyCreateOutcome(hash, CreateOutcome(true, None, Some(message)));
      }
    }
  }

  lemma BeginIsNew(orders: Orders, t: Transition)
    requires t.Begin? && Apply(orders, t).Ok?
    ensures t.hash in Apply(orders, t).value && t.hash !in orders
  {
  }

  class ReconcileOperation {
    const owner: DurableSession
    const generation: uint64
    var active: bool
    var pages: nat
    var cursors: set<Text>
    var records: seq<OrderRecord>
    var requested: seq<Option<Text>>
    var ownsActive: bool

    ghost function View(): Paging
      reads this
    {
      Paging(active, pages, cursors, records, requested)
    }

    ghost predicate Valid()
      reads this, owner, owner.tracker
    {
      owner.tracker.Valid() && (active ==> ownsActive && owner.reconciling)
    }

    constructor (owner: DurableSession, generation: uint64)
      requires owner.tracker.Valid()
      ensures this.owner == owner && this.generation == generation && Valid()
      ensures View() == NOT_STARTED && !ownsActive
    {
      this.owner := owner;
      this.generation := generation;
      active, pages, cursors, records, requested, ownsActive := false, 0, {}, [], [], false;
    }

    method Finish()
      requires owner.tracker.Valid()
      modifies this`active, owner`reconciling
      ensures Valid() && !active
      ensures owner.reconciling == (old(owner.reconciling) && !ownsActive)
    {
      active := false;
      if ownsActive {
        owner.reconciling := false;
      }
    }

    /** Quarantines every unfinished order, then asks for the first page. */
    method Start() returns (r: Result<bool>)
      requires Valid() && View() == NOT_STARTED && !ownsActive
      modifies this, owner, owner.tracker, owner.tracker.journal
      ensures Valid()
      ensures old(owner.reconciling) ==>
                r.Err? && owner.reconciling && owner.tracker.View() == old(owner.tracker.View()) && View() == old(View())
      ensures !old(owner.reconciling) ==>
                Transacted(old(owner.tracker.View()), Quarantine(generation), owner.tracker.View(), r,
                           owner.tracker.journal.maximum)
      ensures !old(owner.reconciling) && r.Ok? ==> View() == FIRST_REQUEST && owner.reconciling
      ensures !old(owner.reconciling) && r.Err? ==> View() == old(View()) && !owner.reconciling
    {
      if owner.reconciling {
        Finish();
        return Err(InvalidArgument);
      }
      owner.reconciling := true;
      ownsActive := true;
      r := owner.tracker.RequireReconciliation(generation);
      if r.Err? {
        Finish();
        return;
      }
      active := true;
      requested := requested + [None];
    }

    /** Handles one page; only the last one touches the tracker, with every record collected. */
    method OnPage(result: Result<Page>) returns (verdict: Verdict)
      requires Valid() && active
      modifies this, owner, owner.tracker, owner.tracker.journal
      ensures Valid()
      ensures View() == AfterPage(old(View()), result, owner.maximumPages).0
      ensures var page := AfterPage(old(View()), result, owner.maximumPages).1;
              if page != Complete then verdict == page && owner.tracker.View() == old(owner.tracker.View())
              else
                exists r: Result<bool> ::
                  && Transacted(old(owner.tracker.View()), Transition.Reconciliation(generation, records),
                                owner.tracker.View(), r, owner.tracker.journal.maximum)
                  && verdict == if r.Ok? then Complete else Failed(r.code)
      ensures active || !owner.reconciling
    {
      hide Transacted, PlainDecimal;
      if result.Err? {
        Finish();
        return Failed(result.code);
      }
      pages := pages + 1;
      var page := result.value;
      records := records + page.orders;
      if page.cursor.Some? && page.cursor.value != [] {
        if page.cursor.value in cursors {
          Finish();
          return Failed(ProtocolError);
        }
        cursors := cursors + {page.cursor.value};
        if pages >= owner.maximumPages {
          Finish();
          return Failed(TooManyItems);
        }
        requested := requested + [page.cursor];
        return NextPage;
      }
      var report := owner.tracker.Reconcile(generation, records);
      ghost var r: Result<bool> := if report.Ok? then Ok(true) else Err(report.code);
      Finish();
      assert Transacted(old(owner.tracker.View()), Transition.Reconciliation(generation, records), owner.tracker.View(), r,
                        owner.tracker.journal.maximum);
      verdict := if report.Ok? then Complete else Failed(report.code);
    }
  }
}
