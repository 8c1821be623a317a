/** The transactional tracker: every transition is applied to a copy, appended to the journal, and
    only then published; a restart replays the journal and quarantines what was unfinished. */
module PersistentTracker {
  import opened Foundations
  import opened ExactDecimals
  import opened Numerals
  import opened Lifecycle
  import opened Transitions
  import opened JournalCodec
  import opened Journal
  import opened Checksum

  /** The file on disk and the published order map. */
  datatype Store = Store(log: seq<byte>, orders: Orders)

  /** The records a transition journals: the order it touched, or the whole sorted snapshot. */
  ghost predicate IsBatch(t: Transition, next: Orders, batch: seq<TrackedOrder>) {
    match Target(t)
    case Some(h) => h in next && batch == [next[h]]
    case None => IsSnapshot(next, batch)
  }

  function Commit(store: Store, next: Orders, batch: seq<TrackedOrder>, maximum: nat): (Store, Result<bool>) {
    var (log, r) := Appended(store.log, batch, maximum);
    (Store(log, if r.Ok? then next else store.orders), r)
  }

  /** One transition of the persistent tracker. */
  function Persisted(store: Store, t: Transition, batch: seq<TrackedOrder>, maximum: nat): (Store, Result<bool>) {
    match Apply(store.orders, t)
    case Err(code) => (store, Err(code))
    case Ok(next) => if Idle(store.orders, t) then (store, Ok(false)) else Commit(store, next, batch, maximum)
  }

  // ---- Restart ----

  /** The generation after every recovered one, in 64-bit arithmetic, and at least 1. */
  function NextGeneration(os: seq<TrackedOrder>): uint64 {
    if os == [] then 1 else Max(NextGeneration(os[..|os| - 1]), (os[|os| - 1].generation + 1) % TWO_64)
  }

  function QuarantineEach(os: seq<TrackedOrder>, generation: uint64): (r: seq<TrackedOrder>)
    ensures |r| == |os|
  {
    seq(|os|, i requires 0 <= i < |os| => Quarantined(os[i], generation))
  }

  /** The log a restart works on: a torn tail is cut off first. */
  function Repaired(log: seq<byte>, replay: Replay): seq<byte>
    requires replay.validBytes <= |log|
  {
    if replay.truncated then log[..replay.validBytes] else log
  }

  /** `open`: `recovered` is the sorted list of replayed orders. */
  function Opened(log: seq<byte>, recovered: seq<TrackedOrder>, maximum: nat): (seq<byte>, Result<Orders>) {
    if maximum < MINIMUM_BOUND then (log, Err(InvalidArgument))
    else
      match Replayed(log, maximum)
      case Err(code) => (log, Err(code))
      case Ok(replay) =>
        var repaired := Repaired(log, replay);
        if exists i :: 0 <= i < |recovered| && !Restorable(recovered[i]) then (repaired, Err(JournalCorrupt))
        else
          var generation := NextGeneration(recovered);
          var (log', r) := Appended(repaired, QuarantineEach(recovered, generation), maximum);
          if r.Err? then (log', Err(r.code)) else (log', Ok(QuarantineAll(replay.orders, generation)))
  }

  // ---- The in-place tracker ----

  class PersistentOrderTracker {
    const journal: OrderJournal
    var orders: Orders

    ghost predicate Valid()
      reads this
    {
      WellFiled(orders)
    }

    ghost function View(): Store
      reads this, journal
    {
      Store(journal.log, orders)
    }

    constructor (journal: OrderJournal, orders: Orders)
      requires WellFiled(orders)
      ensures Valid()
      ensures this.journal == journal && this.orders == orders
    {
      this.journal := journal;
      this.orders := orders;
    }

    method BeginSubmission(hash: Text, amount: ExactDecimal) returns (r: Result<TrackedOrder>)
      requires Valid()
      modifies this, journal
      ensures Valid()
      ensures var t := Begin(hash, amount);
              match Apply(old(orders), t)
              case Err(code) => View() == old(View()) && r == Err(code)
              case Ok(next) =>
                var (store, ok) := Persisted(old(View()), t, [next[hash]], journal.maximum);
                View() == store && r == if ok.Ok? then Ok(next[hash]) else Err(ok.code)
    {
      hide PlainDecimal, ValidHash, StartTracking, Appended;
      if Apply(orders, Begin(hash, amount)).Ok? {
        ApplyShape(orders, Begin(hash, amount));
      }
      var next := new OrderTracker(orders);
      var changed := next.BeginSubmission(hash, amount);
      if changed.Err? {
        return Err(changed.code);
      }
      var persisted := journal.Append([changed.value]);
      if persisted.Err? {
        return Err(persisted.code);
      }
      orders := next.orders;
      r := Ok(orders[hash]);
    }

    method ApplyCreateOutcome(hash: Text, outcome: CreateOutcome) returns (r: Result<bool>)
      requires Valid()
      modifies this, journal
      ensures Valid()
      ensures Transacted(old(View()), Outcome(hash, outcome), View(), r, journal.maximum)
    {
      hide PlainDecimal, ValidHash, AfterOutcome, Appended;
      if Apply(orders, Outcome(hash, outcome)).Ok? {
        ApplyShape(orders, Outcome(hash, outcome));
      }
      var next := new OrderTracker(orders);
      var changed := next.ApplyCreateOutcome(hash, outcome);
      if changed.Err? {
        return Err(changed.code);
      }
      var persisted := journal.Append([next.orders[hash]]);
      if persisted.Err? {
        return Err(persisted.code);
      }
      orders := next.orders;
      r := Ok(true);
    }

    method MarkSubmissionRejected(hash: Text, message: Text) returns (r: Result<bool>)
      requires Valid()
      modifies this, journal
      ensures Valid()
      ensures Transacted(old(View()), Rejection(hash, message), View(), r, journal.maximum)
    {
      hide PlainDecimal, ValidHash, Appended;
      if Apply(orders, Rejection(hash, message)).Ok? {
        ApplyShape(orders, Rejection(hash, message));
      }
      var next := new OrderTracker(orders);
      var changed := next.MarkSubmissionRejected(hash, message);
      if changed.Err? {
        return Err(changed.code);
      }
      if !changed.value {
        return Ok(false);
      }
      var persisted := journal.Append([next.orders[hash]]);
      if persisted.Err? {
        return Err(persisted.code);
      }
      orders := next.orders;
      r := Ok(true);
    }

    method ApplyRestOrder(record: OrderRecord) returns (r: Result<bool>)
      requires Valid()
      modifies this, journal
      ensures Valid()
      ensures Transacted(old(View()), Rest(record), View(), r, journal.maximum)
    {
      hide PlainDecimal, ValidHash, AfterRest, Appended;
      if Apply(orders, Rest(record)).Ok? {
        ApplyShape(orders, Rest(record));
      }
      var next := new OrderTracker(orders);
      var changed := next.ApplyRestOrder(record);
      if changed.Err? {
        return Err(changed.code);
      }
      var persisted := journal.Append([next.orders[record.hash]]);
      if persisted.Err? {
        return Err(persisted.code);
      }
      orders := next.orders;
      r := Ok(true);
    }

    method ApplyWalletEvent(event: WalletEvent) returns (r: Result<bool>)
      requires Valid()
      modifies this, journal
      ensures Valid()
      ensures Transacted(old(View()), Wallet(event), View(), r, journal.maximum)
    {
      hide PlainDecimal, ValidHash, AfterWallet, Appended;
      if Apply(orders, Wallet(event)).Ok? {
        ApplyShape(orders, Wallet(event));
      }
      var next := new OrderTracker(orders);
      var changed := next.ApplyWalletEvent(event);
      if changed.Err? {
        return Err(changed.code);
      }
      var persisted := journal.Append([next.orders[event.hash]]);
      if persisted.Err? {
        return Err(persisted.code);
      }
      orders := next.orders;
      r := Ok(true);
    }

    method MarkBookRemoved(hash: Text) returns (r: Result<bool>)
      requires Valid()
      modifies this, journal
      ensures Valid()
      ensures Transacted(old(View()), BookRemoval(hash), View(), r, journal.maximum)
    {
      hide PlainDecimal, ValidHash, Appended;
      if Apply(orders, BookRemoval(hash)).Ok? {
        ApplyShape(orders, BookRemoval(hash));
      }
      var next := new OrderTracker(orders);
      var changed := next.MarkBookRemoved(hash);
      if changed.Err? {
        return Err(changed.code);
      }
      var persisted := journal.Append([next.orders[hash]]);
      if persisted.Err? {
        return Err(persisted.code);
      }
      orders := next.orders;
      r := Ok(true);
    }

    method RequireReconciliation(generation: uint64) returns (r: Result<bool>)
      requires Valid()
      modifies this, journal
      ensures Valid()
      ensures Transacted(old(View()), Quarantine(generation), View(), r, journal.maximum)
    {
      hide PlainDecimal, ValidHash, Appended;
      if Apply(orders, Quarantine(generation)).Ok? {
        ApplyShape(orders, Quarantine(generation));
      }
      var next := new OrderTracker(orders);
      next.RequireReconciliation(generation);
      var batch := SortedSnapshot(next.orders);
      var persisted := journal.Append(batch);
      ghost var outcome := Persisted(old(View()), Quarantine(generation), batch, journal.maximum);
      assert IsSnapshot(next.orders, batch) && outcome == Commit(old(View()), next.orders, batch, journal.maximum);
      if persisted.Err? {
        r := Err(persisted.code);
        assert (View(), r) == outcome;
        return;
      }
      orders := next.orders;
      r := Ok(true);
      assert (View(), r) == outcome;
    }

    method Reconcile(generation: uint64, snapshot: seq<OrderRecord>) returns (r: Result<Report>)
      requires Valid()
      modifies this, journal
      ensures Valid()
      ensures Transacted(old(View()), Reconciliation(generation, snapshot), View(),
                         if r.Ok? then Ok(true) else Err(r.code), journal.maximum)
      ensures r.Ok? ==> r.value == Report(|old(orders)|, ObservedCount(old(orders), snapshot), Unresolved(old(orders), snapshot))
    {
      hide PlainDecimal, ValidHash, Appended, ReconcileAll, Unresolved, ObservedCount, IsSnapshot;
      if Apply(orders, Reconciliation(generation, snapshot)).Ok? {
        ApplyShape(orders, Reconciliation(generation, snapshot));
      }
      var next := new OrderTracker(orders);
      var report := next.Reconcile(generation, snapshot);
      var batch := SortedSnapshot(next.orders);
      var persisted := journal.Append(batch);
      ghost var t := Reconciliation(generation, snapshot);
      ghost var outcome := Persisted(old(View()), t, batch, journal.maximum);
      assert IsSnapshot(next.orders, batch) && outcome == Commit(old(View()), next.orders, batch, journal.maximum);
      if persisted.Err? {
        r := Err(persisted.code);
        assert (View(), Err(r.code)) == outcome;
        return;
      }
      orders := next.orders;
      r := Ok(report);
      assert (View(), Ok(true)) == outcome;
    }
  }

  /** The published effect of a tracker method is that of one persisted transition. */
  ghost predicate Transacted(before: Store, t: Transition, after: Store, r: Result<bool>, maximum: nat) {
    match Apply(before.orders, t)
    case Err(code) => after == before && r == Err(code)
    case Ok(next) =>
      match Target(t)
      case Some(h) => h in next && (after, r) == Persisted(before, t, [next[h]], maximum)
      case None => exists batch :: IsSnapshot(next, batch) && (after, r) == Persisted(before, t, batch, maximum)
  }

  // ---- Snapshots ----

  ghost predicate SortedByHash(os: seq<TrackedOrder>) {
    forall i, j | 0 <= i < j < |os| :: LexLess(os[i].hash, os[j].hash)
  }

  /** Inserts an order before the first one with a larger hash. */
  function InsertByHash(os: seq<TrackedOrder>, o: TrackedOrder): (r: seq<TrackedOrder>)
    ensures |r| == |os| + 1
    ensures forall x :: x in r <==> x in os || x == o
  {
    hide PlainDecimal;
    if os == [] || LexLess(o.hash, os[0].hash) then [o] + os else [os[0]] + InsertByHash(os[1..], o)
  }

  lemma {:induction false} InsertKeepsSorted(os: seq<TrackedOrder>, o: TrackedOrder)
    requires SortedByHash(os) && forall x | x in os :: x.hash != o.hash
    ensures SortedByHash(InsertByHash(os, o))
  {
    hide PlainDecimal;
    if os != [] {
      if LexLess(o.hash, os[0].hash) {
        forall j | 0 <= j < |os|
          ensures LexLess(o.hash, os[j].hash)
        {
          if j > 0 {
            LexTransitive(o.hash, os[0].hash, os[j].hash);
          }
        }
      } else {
        LexTotal(o.hash, os[0].hash);
        InsertKeepsSorted(os[1..], o);
        var rest := InsertByHash(os[1..], o);
        forall j | 0 <= j < |rest|
          ensures LexLess(os[0].hash, rest[j].hash)
        {
          assert rest[j] in rest;
          if rest[j] != o {
            var k :| 0 <= k < |os[1..]| && os[1..][k] == rest[j];
            assert os[k + 1] == rest[j];
          }
        }
      }
    }
  }

  /** `snapshot`: collects the map's values and sorts them by hash. */
  method SortedSnapshot(orders: Orders) returns (batch: seq<TrackedOrder>)
    requires forall h | h in orders :: orders[h].hash == h
    ensures IsSnapshot(orders, batch)
  {
    hide PlainDecimal, LexLess, InsertByHash;
    batch := [];
    var todo := orders.Keys;
    while todo != {}
      invariant todo <= orders.Keys
      invariant SortedByHash(batch)
      invariant forall o | o in batch :: o.hash in orders && orders[o.hash] == o && o.hash !in todo
      invariant forall h | h in orders && h !in todo :: orders[h] in batch
    {
      var h :| h in todo;
      InsertKeepsSorted(batch, orders[h]);
      batch := InsertByHash(batch, orders[h]);
      todo := todo - {h};
    }
    ListingIsSnapshot(orders, batch);
  }

  /** A sorted list of exactly the map's orders is its snapshot. */
  lemma ListingIsSnapshot(orders: Orders, batch: seq<TrackedOrder>)
    requires SortedByHash(batch)
    requires forall o | o in batch :: o.hash in orders && orders[o.hash] == o
    requires forall h | h in orders :: orders[h].hash == h && orders[h] in batch
    ensures IsSnapshot(orders, batch)
  {
    hide PlainDecimal, LexLess;
    forall h | h in orders
      ensures exists i :: 0 <= i < |batch| && batch[i].hash == h
    {
      var i :| 0 <= i < |batch| && batch[i] == orders[h];
    }
  }

  lemma SnapshotListsAll(orders: Orders, batch: seq<TrackedOrder>)
    requires IsSnapshot(orders, batch)
    ensures SortedByHash(batch)
    ensures forall o | o in batch :: o.hash in orders && orders[o.hash] == o
    ensures forall h | h in orders :: orders[h] in batch
  {
    hide PlainDecimal, LexLess;
    forall h | h in orders
      ensures orders[h] in batch
    {
      var i :| 0 <= i < |batch| && batch[i].hash == h;
      assert batch[i] == orders[h];
    }
  }

  /** Every map that files orders under their own hashes has a sorted listing. */
  lemma {:induction false} SnapshotExists(orders: Orders) returns (batch: seq<TrackedOrder>)
    requires forall h | h in orders :: orders[h].hash == h
    ensures IsSnapshot(orders, batch)
    decreases |orders|
  {
    hide PlainDecimal, IsSnapshot, SortedByHash, InsertByHash;
    if |orders| == 0 {
      batch := [];
      EmptyIsSorted();
    } else {
      var h :| h in orders;
      var smaller := orders - {h};
      var rest := SnapshotExists(smaller);
      SnapshotListsAll(smaller, rest);
      InsertKeepsSorted(rest, orders[h]);
      batch := InsertByHash(rest, orders[h]);
      forall k | k in orders
        ensures orders[k] in batch
      {
        if k != h {
          assert smaller[k] == orders[k];
        }
      }
    }
    ListingIsSnapshot(orders, batch);
  }

  lemma EmptyIsSorted()
    ensures SortedByHash([])
  {
  }

  lemma SnapshotIsDistinct(orders: Orders, batch: seq<TrackedOrder>)
    requires IsSnapshot(orders, batch)
    ensures DistinctHashes(batch)
  {
    hide PlainDecimal, LexLess;
    forall i, j | 0 <= i < j < |batch|
      ensures batch[i].hash != batch[j].hash
    {
      LexTotal(batch[i].hash, batch[j].hash);
    }
  }

  /** Restoring a snapshot gives back the map it lists. */
  lemma SnapshotRestores(orders: Orders, batch: seq<TrackedOrder>, restored: Orders)
    requires IsSnapshot(orders, batch)
    requires restored.Keys == set o | o in batch :: o.hash
    requires forall o | o in batch :: restored[o.hash] == o
    ensures restored == orders
  {
    hide PlainDecimal, LexLess;
    forall h | h in orders
      ensures h in restored && restored[h] == orders[h]
    {
      var i :| 0 <= i < |batch| && batch[i].hash == h;
      assert batch[i] in batch;
    }
    forall h | h in restored
      ensures h in orders
    {
      var o :| o in batch && o.hash == h;
    }
  }

  /** The sorted listing of a set of hashes is unique. */
  lemma {:induction false} SortedIsUnique(a: seq<TrackedOrder>, b: seq<TrackedOrder>)
    requires SortedByHash(a) && SortedByHash(b)
    requires forall o :: o in a <==> o in b
    ensures a == b
    decreases |a|
  {
    hide PlainDecimal, LexLess;
    assert b != [] ==> b[0] in b;
    if a != [] {
      assert a[0] in a;
      var j :| 0 <= j < |b| && b[j] == a[0];
      var k :| 0 <= k < |a| && a[k] == b[0];
      LexTotal(a[0].hash, b[0].hash);
      assert a[0] == b[0];
      TailsAgree(a, b);
      SortedIsUnique(a[1..], b[1..]);
      assert a == [a[0]] + a[1..] && b == [b[0]] + b[1..];
    }
  }

  lemma TailsAgree(a: seq<TrackedOrder>, b: seq<TrackedOrder>)
    requires SortedByHash(a) && SortedByHash(b) && a != [] && b != [] && a[0] == b[0]
    requires forall o :: o in a <==> o in b
    ensures forall o :: o in a[1..] <==> o in b[1..]
  {
    hide PlainDecimal, LexLess;
    forall o
      ensures o in a[1..] <==> o in b[1..]
    {
      LexTotal(a[0].hash, a[0].hash);
      assert o in a <==> o == a[0] || o in a[1..];
      assert o in b <==> o == b[0] || o in b[1..];
      if o in a[1..] {
        var i :| 0 <= i < |a[1..]| && a[1..][i] == o;
        assert LexLess(a[0].hash, a[i + 1].hash);
      }
      if o in b[1..] {
        var i :| 0 <= i < |b[1..]| && b[1..][i] == o;
        assert LexLess(b[0].hash, b[i + 1].hash);
      }
    }
  }

  lemma SnapshotMembers(orders: Orders, batch: seq<TrackedOrder>)
    requires IsSnapshot(orders, batch)
    ensures forall o :: o in batch <==> o.hash in orders && orders[o.hash] == o
  {
    hide PlainDecimal, LexLess;
    forall o: TrackedOrder | o.hash in orders && orders[o.hash] == o
      ensures o in batch
    {
      var i :| 0 <= i < |batch| && batch[i].hash == o.hash;
    }
  }

  /** Quarantining keeps the sorted listing in place. */
  lemma QuarantineKeepsOrder(orders: Orders, recovered: seq<TrackedOrder>, generation: uint64, batch: seq<TrackedOrder>)
    requires IsSnapshot(orders, recovered) && IsSnapshot(QuarantineAll(orders, generation), batch)
    ensures batch == QuarantineEach(recovered, generation)
  {
    hide PlainDecimal, LexLess;
    var q := QuarantineEach(recovered, generation);
    QuarantinedSnapshot(orders, recovered, generation);
    SnapshotMembers(QuarantineAll(orders, generation), batch);
    SnapshotMembers(QuarantineAll(orders, generation), q);
    SortedIsUnique(batch, q);
  }

  lemma QuarantinedSnapshot(orders: Orders, recovered: seq<TrackedOrder>, generation: uint64)
    requires IsSnapshot(orders, recovered)
    ensures IsSnapshot(QuarantineAll(orders, generation), QuarantineEach(recovered, generation))
  {
    hide PlainDecimal, LexLess, Quarantined;
    var q := QuarantineEach(recovered, generation);
    forall i | 0 <= i < |q|
      ensures q[i] == Quarantined(recovered[i], generation) && q[i].hash == recovered[i].hash
    {
      QuarantineKeepsHash(recovered[i], generation);
    }
    forall h | h in orders
      ensures exists i :: 0 <= i < |q| && q[i].hash == h
    {
      var i :| 0 <= i < |recovered| && recovered[i].hash == h;
      assert q[i].hash == h;
    }
  }

  lemma QuarantineKeepsHash(o: TrackedOrder, generation: uint64)
    ensures Quarantined(o, generation).hash == o.hash
  {
    hide PlainDecimal;
  }

  lemma RestorableIsFiled(orders: Orders, recovered: seq<TrackedOrder>)
    requires IsSnapshot(orders, recovered) && forall o | o in recovered :: Restorable(o)
    ensures WellFiled(orders) && RestorableAll(orders)
  {
    hide PlainDecimal, LexLess, ValidHash, Positive;
    forall h | h in orders
      ensures orders[h].hash == h && Restorable(orders[h])
    {
      var i :| 0 <= i < |recovered| && recovered[i].hash == h;
      assert recovered[i] in recovered;
    }
  }

  lemma QuarantineFiled(orders: Orders, generation: uint64)
    requires WellFiled(orders)
    ensures WellFiled(QuarantineAll(orders, generation))
  {
    hide PlainDecimal, ValidHash;
  }

  lemma AppendNothing(log: seq<byte>, maximum: nat)
    requires maximum >= MINIMUM_BOUND
    ensures Appended(log, [], maximum) == (log, Ok(true))
  {
  }

  /** Replay files every record under its own hash. */
  lemma ReplayFiles(log: seq<byte>, maximum: nat)
    requires Replayed(log, maximum).Ok?
    ensures forall h | h in Replayed(log, maximum).value.orders :: Replayed(log, maximum).value.orders[h].hash == h
  {
    hide PlainDecimal, ReplayFrom;
    ReplayFromFiles(log[8..], maximum, map[], 0, 8);
  }

  lemma {:induction false} ReplayFromFiles(input: seq<byte>, maximum: nat, latest: Orders, records: nat, valid: nat)
    requires ReplayFrom(input, maximum, latest, records, valid).Ok?
    requires forall h | h in latest :: latest[h].hash == h
    ensures var r := ReplayFrom(input, maximum, latest, records, valid).value;
            forall h | h in r.orders :: r.orders[h].hash == h
    decreases |input|
  {
    hide PlainDecimal, Decoded, Crc32, FromLittleEndian;
    if |input| >= 8 {
      var size := FromLittleEndian(input[..4]);
      if size <= maximum && |input| - 8 >= size {
        var o := Decoded(input[8..8 + size]).value;
        ReplayFromFiles(input[8 + size..], maximum, latest[o.hash := o], records + 1, valid + 8 + size);
      }
    }
  }

  /** The loop in `open` that picks a generation after every recovered one. */
  method GenerationAfter(orders: seq<TrackedOrder>) returns (generation: uint64)
    ensures generation == NextGeneration(orders)
  {
    hide PlainDecimal;
    generation := 1;
    for i := 0 to |orders|
      invariant generation == NextGeneration(orders[..i])
    {
      assert orders[..i + 1][..i] == orders[..i];
      generation := Max(generation, (orders[i].generation + 1) % TWO_64);
    }
    assert orders[..|orders|] == orders;
  }

  /** `PersistentOrderTracker::open`. */
  method Open(journal: OrderJournal) returns (r: Result<PersistentOrderTracker>, ghost recovered: seq<TrackedOrder>)
    modifies journal
    ensures Replayed(old(journal.log), journal.maximum).Ok? && journal.maximum >= MINIMUM_BOUND ==>
              IsSnapshot(Replayed(old(journal.log), journal.maximum).value.orders, recovered)
    ensures journal.log == Opened(old(journal.log), recovered, journal.maximum).0
    ensures match Opened(old(journal.log), recovered, journal.maximum).1
            case Ok(orders) => r.Ok? && r.value.journal == journal && r.value.orders == orders
            case Err(code) => r == Err(code)
  {
    hide PlainDecimal, Replayed, Appended, Restorable, NextGeneration, QuarantineEach, QuarantineAll, LexLess;
    recovered := [];
    if journal.maximum < MINIMUM_BOUND {
      return Err(InvalidArgument), recovered;
    }
    var replayed := journal.ReplayLog();
    if replayed.Err? {
      return Err(replayed.code), recovered;
    }
    var replay := replayed.value;
    ReplayFiles(journal.log, journal.maximum);
    if replay.truncated {
      journal.log := journal.log[..replay.validBytes];
    }
    var orders := SortedSnapshot(replay.orders);
    recovered := orders;
    SnapshotIsDistinct(replay.orders, orders);
    var tracker := new OrderTracker(map[]);
    var restored := tracker.Restore(orders);
    if restored.Err? {
      return Err(restored.code), recovered;
    }
    SnapshotRestores(replay.orders, orders, tracker.orders);
    RestorableIsFiled(replay.orders, orders);
    var generation := GenerationAfter(orders);
    QuarantineFiled(replay.orders, generation);
    tracker.RequireReconciliation(generation);
    var quarantined := SortedSnapshot(tracker.orders);
    QuarantineKeepsOrder(replay.orders, orders, generation, quarantined);
    if quarantined != [] {
      var persisted := journal.Append(quarantined);
      if persisted.Err? {
        return Err(persisted.code), recovered;
      }
    } else {
      AppendNothing(journal.log, journal.maximum);
    }
    var ready := new PersistentOrderTracker(journal, tracker.orders);
    r := Ok(ready);
  }
}
