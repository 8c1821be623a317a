/** What the journal guarantees about the published order map, across transitions and restarts. */
module Durability {
  import opened Foundations
  import opened ExactDecimals
  import opened Lifecycle
  import opened Transitions
  import opened JournalCodec
  import opened Journal
  import opened PersistentTracker

  /** Record bounds that `initialize` accepts and whose sizes fit the 32-bit frame header. */
  predicate SaneBound(maximum: nat) { MINIMUM_BOUND <= maximum < TWO_32 }

  /** The order map that a list of journal records stands for. */
  function Records(os: seq<TrackedOrder>): Orders { LastWins(map[], os) }

  /** The hashes at which the recorded order is not the published one. */
  ghost function Differ(orders: Orders, recorded: Orders): set<Text> {
    set h | h in orders && (h !in recorded || recorded[h] != orders[h])
  }

  // ---- One transition ----

  lemma {:induction false} AllFitConcat(a: seq<TrackedOrder>, b: seq<TrackedOrder>, maximum: nat)
    requires AllFit(a, maximum) && AllFit(b, maximum)
    ensures AllFit(a + b, maximum)
  {
    hide PlainDecimal, Fits;
    assert forall o | o in a + b :: o in a || o in b;
  }

  lemma AppendOnLog(os: seq<TrackedOrder>, batch: seq<TrackedOrder>, maximum: nat)
    requires AllFit(os, maximum) && SaneBound(maximum)
    ensures var k := FirstMisfit(batch, maximum);
            && Appended(LogOf(os), batch, maximum).0 == LogOf(os + batch[..k])
            && (Appended(LogOf(os), batch, maximum).1.Ok? <==> k == |batch|)
            && AllFit(os + batch[..k], maximum)
  {
    hide PlainDecimal, Fits, Frames, AppendedBatch;
    var k := FirstMisfit(batch, maximum);
    AppendWrites(LogOf(os), batch, maximum);
    FramesConcat(os, batch[..k]);
    assert LogOf(os) + Frames(batch[..k]) == LogOf(os + batch[..k]);
    FirstMisfitSplits(batch, maximum);
    AllFitConcat(os, batch[..k], maximum);
  }

  /** Writing a whole snapshot over a map with no other hashes gives the snapshot's map. */
  lemma SnapshotWins(base: Orders, next: Orders, batch: seq<TrackedOrder>)
    requires IsSnapshot(next, batch) && base.Keys <= next.Keys
    ensures LastWins(base, batch) == next
  {
    hide PlainDecimal, LexLess, LastWins;
    var w := LastWins(base, batch);
    forall h
      ensures (h in w <==> h in next) && (h in next ==> w[h] == next[h])
    {
      LastWinsPoint(base, batch, h);
      if h in next {
        var i :| 0 <= i < |batch| && batch[i].hash == h;
        assert batch[i] in batch;
      }
    }
  }

  lemma SingleWins(base: Orders, o: TrackedOrder)
    ensures LastWins(base, [o]) == base[o.hash := o]
  {
    hide PlainDecimal;
    assert [o][1..] == [];
  }

  lemma DifferAfterOne(orders: Orders, recorded: Orders, h: Text, o: TrackedOrder)
    ensures Differ(orders[h := o], recorded[h := o]) == Differ(orders, recorded) - {h}
  {
    hide PlainDecimal;
  }

  lemma NoDifference(orders: Orders)
    ensures Differ(orders, orders) == {}
  {
  }

  /** Journaling one order records exactly what the transition did. */
  lemma SingleEffect(orders: Orders, os: seq<TrackedOrder>, t: Transition, o: TrackedOrder)
    requires WellFiled(orders) && Records(os).Keys == orders.Keys && Target(t).Some? && Apply(orders, t).Ok?
    requires Target(t).value in Apply(orders, t).value && o == Apply(orders, t).value[Target(t).value]
    ensures var h, next := Target(t).value, Apply(orders, t).value;
            && next == orders[h := o] && WellFiled(next)
            && Records(os + [o]) == Records(os)[h := o] && Records(os + [o]).Keys == next.Keys
  {
    hide PlainDecimal, Apply, LastWins, ValidHash, Target, Idle, Positive;
    ApplyShape(orders, t);
    LastWinsConcat(map[], os, [o]);
    SingleWins(Records(os), o);
  }

  /** After a successful transition the log replays, and it differs from the published map nowhere after a whole-tracker
      transition, and after a single-order one exactly where it differed before, except at that order. */
  lemma TransitionIsDurable(store: Store, os: seq<TrackedOrder>, t: Transition, batch: seq<TrackedOrder>, maximum: nat)
    requires SaneBound(maximum) && AllFit(os, maximum) && store.log == LogOf(os) && WellFiled(store.orders)
    requires Records(os).Keys == store.orders.Keys
    requires Apply(store.orders, t).Ok? && IsBatch(t, Apply(store.orders, t).value, batch)
    requires !Idle(store.orders, t) && Persisted(store, t, batch, maximum).1.Ok?
    ensures var after := Persisted(store, t, batch, maximum).0;
            && AllFit(os + batch, maximum) && after.log == LogOf(os + batch)
            && after.orders == Apply(store.orders, t).value
            && Records(os + batch).Keys == after.orders.Keys
            && Replayed(after.log, maximum) == Ok(Replay(Records(os + batch), |os| + |batch|, |after.log|, false))
            && Differ(after.orders, Records(os + batch))
               == (match Target(t) case None => {} case Some(h) => Differ(store.orders, Records(os)) - {h})
            && (Target(t).None? || Records(os) == store.orders ==> Records(os + batch) == after.orders)
  {
    hide PlainDecimal, Fits, Apply, Records, Replayed, Appended, LogOf, WellFiled, Differ, IsSnapshot;
    var next := Apply(store.orders, t).value;
    AppendOnLog(os, batch, maximum);
    assert batch[..|batch|] == batch;
    BatchWins(store.orders, os, t, batch);
    CompleteLogReplays(os + batch, maximum);
    match Target(t) {
      case None => NoDifference(next);
      case Some(h) =>
        SingleEffect(store.orders, os, t, next[h]);
        DifferAfterOne(store.orders, Records(os), h, next[h]);
    }
  }

  /** Journaling a transition's batch turns the recorded map into the transition's result. */
  lemma BatchWins(orders: Orders, os: seq<TrackedOrder>, t: Transition, batch: seq<TrackedOrder>)
    requires WellFiled(orders) && Records(os).Keys == orders.Keys
    requires Apply(orders, t).Ok? && IsBatch(t, Apply(orders, t).value, batch)
    ensures Records(os + batch).Keys == Apply(orders, t).value.Keys
    ensures Target(t).None? || Records(os) == orders ==> Records(os + batch) == Apply(orders, t).value
  {
    hide PlainDecimal, Apply, LastWins, IsSnapshot, ValidHash, Idle, Positive;
    var next := Apply(orders, t).value;
    ApplyShape(orders, t);
    LastWinsConcat(map[], os, batch);
    match Target(t) {
      case Some(h) => SingleWins(Records(os), next[h]);
      case None => SnapshotWins(Records(os), next, batch);
    }
  }

  lemma CompleteLogReplays(os: seq<TrackedOrder>, maximum: nat)
    requires SaneBound(maximum) && AllFit(os, maximum)
    ensures Replayed(LogOf(os), maximum) == Ok(Replay(Records(os), |os|, |LogOf(os)|, false))
  {
    hide PlainDecimal, Fits, LastWins, Replayed, LogOf;
    assert LogOf(os) + [] == LogOf(os);
    ReplayLogWithTail(os, [], maximum);
  }

  /** A transition whose append fails publishes nothing. A single-order append also writes nothing; a
      batch leaves the frames before the first record that does not fit, so the log still agrees with
      the published map exactly when those records changed nothing. */
  lemma FailedAppend(store: Store, os: seq<TrackedOrder>, t: Transition, batch: seq<TrackedOrder>, maximum: nat)
    requires SaneBound(maximum) && AllFit(os, maximum) && store.log == LogOf(os) && WellFiled(store.orders)
    requires Records(os) == store.orders
    requires Apply(store.orders, t).Ok? && IsBatch(t, Apply(store.orders, t).value, batch)
    requires !Idle(store.orders, t) && Persisted(store, t, batch, maximum).1.Err?
    ensures var after, k := Persisted(store, t, batch, maximum).0, FirstMisfit(batch, maximum);
            && k < |batch| && AllFit(os + batch[..k], maximum)
            && after == Store(LogOf(os + batch[..k]), store.orders)
            && (Target(t).Some? ==> after == store)
            && ((Records(os + batch[..k]) == store.orders) <==>
                (forall i | 0 <= i < k :: batch[i].hash in store.orders && store.orders[batch[i].hash] == batch[i]))
  {
    hide PlainDecimal, Fits, Apply, LastWins, Appended, LogOf;
    var k, next := FirstMisfit(batch, maximum), Apply(store.orders, t).value;
    AppendOnLog(os, batch, maximum);
    LastWinsConcat(map[], os, batch[..k]);
    if Target(t).Some? {
      assert k == 0 && os + batch[..0] == os;
    } else {
      SnapshotIsDistinct(next, batch);
    }
    PrefixChangesNothing(store.orders, batch[..k]);
    assert forall i | 0 <= i < k :: batch[..k][i] == batch[i];
  }

  lemma PrefixChangesNothing(base: Orders, os: seq<TrackedOrder>)
    requires DistinctHashes(os)
    ensures LastWins(base, os) == base <==> forall i | 0 <= i < |os| :: os[i].hash in base && base[os[i].hash] == os[i]
  {
    hide PlainDecimal, LastWins;
    forall i | 0 <= i < |os|
      ensures os[i].hash in LastWins(base, os) && LastWins(base, os)[os[i].hash] == os[i]
    {
      LastWinsPoint(base, os, os[i].hash);
      assert os[i] in os;
      var j :| 0 <= j < |os| && os[j] == FindLast(os, os[i].hash).value;
    }
    if forall i | 0 <= i < |os| :: os[i].hash in base && base[os[i].hash] == os[i] {
      forall h
        ensures (h in LastWins(base, os) <==> h in base) && (h in base ==> LastWins(base, os)[h] == base[h])
      {
        LastWinsPoint(base, os, h);
        if FindLast(os, h).Some? {
          var j :| 0 <= j < |os| && os[j] == FindLast(os, h).value;
        }
      }
    }
  }

  /** What a transition answers: its error, false for a rejection that was already taken, and true for one that is
      journaled; and a record bound below 128 bytes refuses everything, a restart included, without touching the file. */
  lemma TransitionAnswers(store: Store, t: Transition, batch: seq<TrackedOrder>, recovered: seq<TrackedOrder>, maximum: nat)
    ensures var r := Persisted(store, t, batch, maximum).1;
            && (Apply(store.orders, t).Err? ==> r == Err(Apply(store.orders, t).code))
            && (Apply(store.orders, t).Ok? && Idle(store.orders, t) ==> r == Ok(false))
            && (r.Ok? && !Idle(store.orders, t) ==> r == Ok(true))
            && (Apply(store.orders, t).Ok? && !Idle(store.orders, t) && maximum < 128 ==>
                  Persisted(store, t, batch, maximum) == (store, Err(InvalidArgument)))
            && (maximum < 128 ==> Opened(store.log, recovered, maximum) == (store.log, Err(InvalidArgument)))
  {
    hide PlainDecimal, Apply, Idle, AppendedBatch, Replayed;
  }

  // ---- Restart ----

  lemma QuarantineFits(os: seq<TrackedOrder>, generation: uint64, maximum: nat)
    requires AllFit(os, maximum)
    ensures AllFit(QuarantineEach(os, generation), maximum)
  {
    hide PlainDecimal, Payload;
    var q := QuarantineEach(os, generation);
    forall o | o in q
      ensures Fits(o, maximum)
    {
      var i :| 0 <= i < |q| && q[i] == o;
      assert os[i] in os && Texts(o) == Texts(os[i]);
      SizeIgnoresFixedFields(o, os[i]);
    }
  }

  lemma RecordsFit(os: seq<TrackedOrder>, recovered: seq<TrackedOrder>, maximum: nat)
    requires AllFit(os, maximum) && IsSnapshot(Records(os), recovered)
    ensures AllFit(recovered, maximum)
  {
    hide PlainDecimal, Fits, LexLess, LastWins;
    forall o | o in recovered
      ensures Fits(o, maximum)
    {
      LastWinsPoint(map[], os, o.hash);
    }
  }

  lemma {:induction false} AllFitPrefix(os: seq<TrackedOrder>, maximum: nat)
    requires AllFit(os, maximum)
    ensures FirstMisfit(os, maximum) == |os|
  {
    hide PlainDecimal, Fits;
    if os != [] {
      assert os[0] in os;
      AllFitPrefix(os[1..], maximum);
    }
  }

  /** The quarantined listing fits, and records the quarantined map. */
  lemma QuarantineIsJournaled(os: seq<TrackedOrder>, recovered: seq<TrackedOrder>, g: uint64, maximum: nat)
    requires SaneBound(maximum) && AllFit(os, maximum) && IsSnapshot(Records(os), recovered)
    ensures var q := QuarantineEach(recovered, g);
            && Appended(LogOf(os), q, maximum).0 == LogOf(os + q) && Appended(LogOf(os), q, maximum).1.Ok?
            && AllFit(os + q, maximum) && Records(os + q) == QuarantineAll(Records(os), g)
  {
    hide PlainDecimal, Fits, LastWins, LogOf, Appended, LexLess, IsSnapshot, QuarantineEach, QuarantineAll;
    var q := QuarantineEach(recovered, g);
    RecordsFit(os, recovered, maximum);
    QuarantineFits(recovered, g, maximum);
    AllFitPrefix(q, maximum);
    AppendOnLog(os, q, maximum);
    assert q[..|q|] == q;
    QuarantinedSnapshot(Records(os), recovered, g);
    QuarantineKeys(Records(os), g);
    LastWinsConcat(map[], os, q);
    SnapshotWins(Records(os), QuarantineAll(Records(os), g), q);
  }

  lemma QuarantineKeys(orders: Orders, g: uint64)
    ensures QuarantineAll(orders, g).Keys == orders.Keys
  {
  }

  /** A restart on complete frames and a torn tail cuts the tail, and succeeds exactly when every
      recovered order is restorable; it then publishes and journals the quarantined map. */
  lemma RestartOutcome(os: seq<TrackedOrder>, tail: seq<byte>, recovered: seq<TrackedOrder>, maximum: nat)
    requires SaneBound(maximum) && AllFit(os, maximum) && Torn(tail, maximum) && IsSnapshot(Records(os), recovered)
    ensures var (log, r) := Opened(LogOf(os) + tail, recovered, maximum);
            var g := NextGeneration(recovered);
            var q := QuarantineEach(recovered, g);
            && (r.Ok? <==> RestorableAll(Records(os)))
            && (r.Err? ==> r.code == JournalCorrupt && log == LogOf(os))
            && (r.Ok? ==> && r.value == QuarantineAll(Records(os), g) && WellFiled(r.value)
                          && log == LogOf(os + q) && AllFit(os + q, maximum) && Records(os + q) == r.value)
  {
    hide PlainDecimal, Restorable, Fits, LastWins, LogOf, Replayed, NextGeneration, Appended, Torn, ValidHash, IsSnapshot,
         QuarantineEach, QuarantineAll;
    var g := NextGeneration(recovered);
    ReplayLogWithTail(os, tail, maximum);
    RepairCutsTail(os, tail);
    ListedAreRestorable(Records(os), recovered);
    QuarantineIsJournaled(os, recovered, g, maximum);
    if RestorableAll(Records(os)) {
      RestorableIsFiled(Records(os), recovered);
      QuarantineFiled(Records(os), g);
    }
  }

  lemma ListedAreRestorable(orders: Orders, recovered: seq<TrackedOrder>)
    requires IsSnapshot(orders, recovered)
    ensures RestorableAll(orders) <==> forall o | o in recovered :: Restorable(o)
  {
    hide PlainDecimal, Restorable, LexLess, IsSnapshot;
    SnapshotListsAll(orders, recovered);
  }

  lemma RepairCutsTail(os: seq<TrackedOrder>, tail: seq<byte>)
    ensures Repaired(LogOf(os) + tail, Replay(Records(os), |os|, |LogOf(os)|, tail != [])) == LogOf(os)
  {
    hide LogOf;
    assert (LogOf(os) + tail)[..|LogOf(os)|] == LogOf(os);
    if tail == [] {
      assert LogOf(os) + tail == LogOf(os);
    }
  }

  lemma GenerationGrows(os: seq<TrackedOrder>)
    requires os != []
    ensures NextGeneration(os) == Max(NextGeneration(os[..|os| - 1]), (os[|os| - 1].generation + 1) % TWO_64)
    ensures os[|os| - 1].generation < TWO_64 - 1 ==> NextGeneration(os) > os[|os| - 1].generation
    ensures os[|os| - 1].generation == TWO_64 - 1 ==> NextGeneration(os) <= os[|os| - 1].generation
  {
    hide PlainDecimal;
  }

  lemma {:induction false} NextGenerationBounds(os: seq<TrackedOrder>)
    ensures NextGeneration(os) >= 1
    ensures (forall i | 0 <= i < |os| :: os[i].generation < NextGeneration(os))
       <==> (forall i | 0 <= i < |os| :: os[i].generation < TWO_64 - 1)
    ensures forall i | 0 <= i < |os| && os[i].generation < TWO_64 - 1 :: os[i].generation < NextGeneration(os)
  {
    hide PlainDecimal;
    if os != [] {
      var front, last := os[..|os| - 1], os[|os| - 1];
      NextGenerationBounds(front);
      assert forall i | 0 <= i < |front| :: front[i] == os[i];
      hide NextGeneration;
      GenerationGrows(os);
    }
  }

  /** What a restart changes: nothing in a finished order; only the flag and the generation in an
      unfinished one. The new generation exceeds every recovered one unless some record already holds the
      largest 64-bit value. */
  lemma RestartQuarantines(orders: Orders, recovered: seq<TrackedOrder>, h: Text)
    requires IsSnapshot(orders, recovered) && h in orders
    ensures var g := NextGeneration(recovered);
            var o, o' := orders[h], QuarantineAll(orders, g)[h];
            && (Terminal(o) ==> o' == o)
            && (!Terminal(o) ==> o' == o.(flagged := true, generation := g))
    ensures (forall k | k in orders :: orders[k].generation < NextGeneration(recovered))
       <==> (forall k | k in orders :: orders[k].generation < TWO_64 - 1)
  {
    hide PlainDecimal, LexLess, NextGeneration;
    NextGenerationBounds(recovered);
    forall k | k in orders
      ensures exists i :: 0 <= i < |recovered| && recovered[i] == orders[k]
    {
      var i :| 0 <= i < |recovered| && recovered[i].hash == k;
      assert recovered[i] == orders[k];
    }
  }

  /** Restarting again changes only generations, and always succeeds. */
  lemma RestartTwice(os: seq<TrackedOrder>, tail: seq<byte>, recovered: seq<TrackedOrder>, again: seq<TrackedOrder>,
                     maximum: nat)
    requires SaneBound(maximum) && AllFit(os, maximum) && Torn(tail, maximum) && IsSnapshot(Records(os), recovered)
    requires var (log, r) := Opened(LogOf(os) + tail, recovered, maximum); r.Ok? && IsSnapshot(r.value, again)
    ensures var (log, r) := Opened(LogOf(os) + tail, recovered, maximum);
            var (log', r') := Opened(log, again, maximum);
            && r'.Ok? && r'.value.Keys == r.value.Keys
            && (forall h | h in r.value :: r'.value[h].(generation := r.value[h].generation) == r.value[h])
            && (forall h | h in r.value && Terminal(r.value[h]) :: r'.value[h] == r.value[h])
  {
    hide PlainDecimal, Restorable, Fits, LastWins, LogOf, Opened, NextGeneration, LexLess, ValidHash, Torn, IsSnapshot;
    RestartOutcome(os, tail, recovered, maximum);
    var q := QuarantineEach(recovered, NextGeneration(recovered));
    var orders := Opened(LogOf(os) + tail, recovered, maximum).1.value;
    EmptyTail(maximum);
    assert LogOf(os + q) + [] == LogOf(os + q);
    RestartOutcome(os + q, [], again, maximum);
    QuarantineRestorable(Records(os), NextGeneration(recovered));
  }

  lemma EmptyTail(maximum: nat)
    ensures Torn([], maximum)
  {
  }

  lemma QuarantineRestorable(orders: Orders, generation: uint64)
    requires RestorableAll(orders)
    ensures RestorableAll(QuarantineAll(orders, generation))
  {
    hide PlainDecimal, ValidHash, Positive;
  }
}
