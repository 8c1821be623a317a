/** Where the journal and the published orders differ, exactly, in every reachable state. */
module Agreement {
  import opened Foundations
  import opened ExactDecimals
  import opened Lifecycle
  import opened Transitions
  import opened Journal
  import opened PersistentTracker
  import opened Durability
  import opened Session
  import opened SessionSafety
  import Trading

  // ---- Differences between two maps ----

  ghost function Hashes(os: seq<TrackedOrder>): set<Text> { set o | o in os :: o.hash }

  /** The hashes whose record is not the published order. */
  ghost function Changed(os: seq<TrackedOrder>, orders: Orders): set<Text> {
    set o | o in os && (o.hash !in orders || orders[o.hash] != o) :: o.hash
  }

  lemma DifferAfterPrefix(orders: Orders, recorded: Orders, os: seq<TrackedOrder>)
    requires DistinctHashes(os) && Hashes(os) <= orders.Keys
    ensures Differ(orders, LastWins(recorded, os)) == Differ(orders, recorded) - Hashes(os) + Changed(os, orders)
  {
    hide PlainDecimal, LastWins;
    var w := LastWins(recorded, os);
    forall h | h in orders
      ensures h in Differ(orders, w) <==> h in Differ(orders, recorded) - Hashes(os) + Changed(os, orders)
    {
      LastWinsPoint(recorded, os, h);
      if h in Hashes(os) {
        var o := FindLast(os, h).value;
        assert w[h] == o && o in os && o.hash == h;
        OnlyOne(os, o, h);
      }
    }
    assert forall h | h in Changed(os, orders) :: h in Hashes(os);
  }

  lemma OnlyOne(os: seq<TrackedOrder>, o: TrackedOrder, h: Text)
    requires DistinctHashes(os) && o in os && o.hash == h
    ensures forall p | p in os && p.hash == h :: p == o
  {
    hide PlainDecimal;
  }

  // ---- What an event asks the journal to record ----

  datatype Attempt = Nothing | Single(t: Transition) | Whole(t': Transition, batch: seq<TrackedOrder>)

  ghost function AttemptOf(s: System, e: Event): (a: Attempt)
    requires s.up.Some?
    ensures a.Single? ==> Target(a.t).Some?
    ensures a.Whole? ==> Target(a.t').None? && Apply(s.up.value, a.t').Ok? && IsBatch(a.t', Apply(s.up.value, a.t').value, a.batch)
  {
    hide PlainDecimal;
    match e
    case Submit(r) =>
      if ValidateCreate(r).Err? || TrackedShareAmount(r).Err? || !PlainDecimal(TrackedShareAmount(r).value) then Nothing
      else Single(Begin(r.hash, TrackedShareAmount(r).value))
    case Callback(i, event, message) =>
      if i >= |s.submissions| then Nothing
      else
        var sub := s.submissions[i];
        var op := Trading.Step(sub.op, event);
        if op.posts > sub.op.posts || |op.completions| <= |sub.op.completions| then Nothing
        else Single(ResultTransition(sub.hash, op.completions[|op.completions| - 1], message))
    case Venue(t, batch) =>
      if t.Begin? || Apply(s.up.value, t).Err? || !IsBatch(t, Apply(s.up.value, t).value, batch) then Nothing
      else if Target(t).Some? then Single(t) else Whole(t, batch)
    case _ => Nothing
  }

  /** A transition of one order is applied and its record fits. */
  ghost predicate Lands(orders: Orders, t: Transition, maximum: nat)
    requires Target(t).Some?
  {
    && Apply(orders, t).Ok? && Target(t).value in Apply(orders, t).value && !Idle(orders, t)
    && Fits(Apply(orders, t).value[Target(t).value], maximum)
  }

  /** An event whose whole-tracker append stops at a record that does not fit. */
  ghost predicate Refuses(s: System, e: Event, maximum: nat) {
    s.up.Some? && AttemptOf(s, e).Whole? && FirstMisfit(AttemptOf(s, e).batch, maximum) < |AttemptOf(s, e).batch|
  }

  /** The effect of one event on the hashes at which file and memory differ. */
  ghost function OwedAfter(s: System, owed: set<Text>, e: Event, maximum: nat): set<Text> {
    if s.up.None? || Next(s, e, maximum).up.None? then {}
    else
      match AttemptOf(s, e)
      case Nothing => owed
      case Single(t) => if Lands(s.up.value, t, maximum) then owed - {Target(t).value} else owed
      case Whole(_, batch) =>
        var k := FirstMisfit(batch, maximum);
        if k == |batch| then {} else owed - Hashes(batch[..k]) + Changed(batch[..k], s.up.value)
  }

  /** A ledger of the differences that never looks at the file: a refused batch adds the records it left behind that
      changed something, a successful record of an order settles that order, and a successful batch or a restart settles
      everything. */
  ghost function Owed(events: seq<Event>, maximum: nat): set<Text> {
    if events == [] then {}
    else
      var before := events[..|events| - 1];
      OwedAfter(Run(before, maximum), Owed(before, maximum), events[|events| - 1], maximum)
  }

  /** The hashes at which a replay of the file does not give the published order. */
  ghost function Stale(s: System, maximum: nat): set<Text> {
    if s.up.None? then {}
    else
      match Replayed(s.log, maximum)
      case Err(_) => s.up.value.Keys
      case Ok(replay) => Differ(s.up.value, replay.orders)
  }

  // ---- The ledger is exact ----

  /** A running tracker on a file of complete frames. */
  ghost predicate Base(s: System, os: seq<TrackedOrder>, maximum: nat) {
    && AllFit(os, maximum) && s.log == LogOf(os) && s.up.Some?
    && WellFiled(s.up.value) && s.up.value.Keys == Records(os).Keys
  }

  lemma SafeIsBase(s: System, os: seq<TrackedOrder>, tail: seq<byte>, good: bool, maximum: nat)
    requires Safe(s, os, tail, good, maximum) && s.up.Some?
    ensures Base(s, os, maximum)
  {
    hide PlainDecimal, Fits, LogOf, LastWins, WellFiled, Torn, RecordRule, OrdersRule, PostRule, SubmissionRule;
    LogIsComplete(s.log, os, good, maximum);
  }

  lemma StaleIs(s: System, os: seq<TrackedOrder>, maximum: nat)
    requires SaneBound(maximum) && Base(s, os, maximum)
    ensures Stale(s, maximum) == Differ(s.up.value, Records(os))
  {
    hide PlainDecimal, Fits, LogOf, LastWins, WellFiled, Replayed, Differ;
    CompleteLogReplays(os, maximum);
  }

  lemma SingleStep(s: System, os: seq<TrackedOrder>, t: Transition, maximum: nat)
    requires SaneBound(maximum) && Base(s, os, maximum) && Target(t).Some?
    ensures TransitOne(s, t, maximum).up.Some?
    ensures Stale(TransitOne(s, t, maximum), maximum)
         == if Lands(s.up.value, t, maximum) then Stale(s, maximum) - {Target(t).value} else Stale(s, maximum)
  {
    hide PlainDecimal, Fits, LogOf, Apply, Records, Stale, Idle, Transit, WellFiled;
    if Apply(s.up.value, t).Ok? && Target(t).value in Apply(s.up.value, t).value {
      var o := Apply(s.up.value, t).value[Target(t).value];
      if Idle(s.up.value, t) {
        IdleTransit(s, t, [o], maximum);
      } else {
        SingleTransit(s, os, t, o, maximum);
      }
    }
  }

  lemma SingleTransit(s: System, os: seq<TrackedOrder>, t: Transition, o: TrackedOrder, maximum: nat)
    requires SaneBound(maximum) && Base(s, os, maximum) && Target(t).Some? && Apply(s.up.value, t).Ok? && !Idle(s.up.value, t)
    requires Target(t).value in Apply(s.up.value, t).value && o == Apply(s.up.value, t).value[Target(t).value]
    ensures Transit(s, t, [o], maximum).up.Some?
    ensures Stale(Transit(s, t, [o], maximum), maximum)
         == if Fits(o, maximum) then Stale(s, maximum) - {Target(t).value} else Stale(s, maximum)
  {
    hide PlainDecimal, Fits, LogOf, Apply, Records, Stale, Idle, Transit, WellFiled, Differ, Target;
    var h, s' := Target(t).value, Transit(s, t, [o], maximum);
    TransitOutcome(s, os, t, [o], maximum);
    StaleIs(s, os, maximum);
    OneMisfit(o, maximum);
    assert [o][..0] == [] && [o][..1] == [o] && os + [] == os;
    if Fits(o, maximum) {
      SingleEffect(s.up.value, os, t, o);
      AllFitConcat(os, [o], maximum);
      DifferAfterOne(s.up.value, Records(os), h, o);
      StaleIs(s', os + [o], maximum);
    }
  }

  lemma OneMisfit(o: TrackedOrder, maximum: nat)
    ensures FirstMisfit([o], maximum) == if Fits(o, maximum) then 1 else 0
    ensures Fits(o, maximum) ==> AllFit([o], maximum)
  {
    hide PlainDecimal, Fits;
    assert [o][1..] == [];
  }

  lemma WholeStep(s: System, os: seq<TrackedOrder>, t: Transition, batch: seq<TrackedOrder>, maximum: nat)
    requires SaneBound(maximum) && Base(s, os, maximum) && Target(t).None?
    requires Apply(s.up.value, t).Ok? && IsBatch(t, Apply(s.up.value, t).value, batch)
    ensures Transit(s, t, batch, maximum).up.Some?
    ensures var k := FirstMisfit(batch, maximum);
            Stale(Transit(s, t, batch, maximum), maximum)
            == if k == |batch| then {} else Stale(s, maximum) - Hashes(batch[..k]) + Changed(batch[..k], s.up.value)
  {
    hide PlainDecimal, Fits, LogOf, Apply, LastWins, Stale, Transit, IsSnapshot, WellFiled, Differ, Hashes, Changed;
    var k, next := FirstMisfit(batch, maximum), Apply(s.up.value, t).value;
    var s' := Transit(s, t, batch, maximum);
    TransitOutcome(s, os, t, batch, maximum);
    AllFitConcat(os, batch[..k], maximum);
    ApplyKeys(s.up.value, t);
    StaleIs(s, os, maximum);
    if k == |batch| {
      assert batch[..k] == batch;
      BatchWins(s.up.value, os, t, batch);
      StaleIs(s', os + batch, maximum);
      NoDifference(next);
    } else {
      LastWinsConcat(map[], os, batch[..k]);
      RefusedHashes(next, batch, k);
      KeysAfter(s.up.value, os, t, batch, k);
      StaleIs(s', os + batch[..k], maximum);
      DifferAfterPrefix(s.up.value, Records(os), batch[..k]);
    }
  }

  lemma RefusedHashes(next: Orders, batch: seq<TrackedOrder>, k: nat)
    requires IsSnapshot(next, batch) && k <= |batch|
    ensures DistinctHashes(batch[..k]) && Hashes(batch[..k]) <= next.Keys
  {
    hide PlainDecimal, LexLess;
    SnapshotIsDistinct(next, batch);
    forall o | o in batch[..k]
      ensures o.hash in next
    {
      var i :| 0 <= i < k && batch[i] == o;
    }
  }

  /** Only the file and the published orders matter. */
  lemma StaleDependsOn(s: System, s': System, maximum: nat)
    requires s.log == s'.log && s.up == s'.up
    ensures Stale(s, maximum) == Stale(s', maximum)
  {
  }

  lemma RunningStep(s: System, os: seq<TrackedOrder>, e: Event, maximum: nat)
    requires SaneBound(maximum) && Base(s, os, maximum)
    ensures Stale(Next(s, e, maximum), maximum) == OwedAfter(s, Stale(s, maximum), e, maximum)
  {
    hide PlainDecimal, Apply, Stale, Lands, TransitOne, Transit, IsBatch, ValidateCreate, TrackedShareAmount, Interrupted,
         Recovers, Opened, Hashes, Changed, Trading.Step, ResultTransition;
    match e {
      case Submit(r) =>
        if AttemptOf(s, e).Single? {
          SingleStep(s, os, AttemptOf(s, e).t, maximum);
          StaleDependsOn(TransitOne(s, AttemptOf(s, e).t, maximum), Next(s, e, maximum), maximum);
        }
      case Callback(i, event, message) =>
        if i < |s.submissions| {
          var sub := s.submissions[i];
          var s' := s.(submissions := s.submissions[i := sub.(op := Trading.Step(sub.op, event))]);
          StaleDependsOn(s, s', maximum);
          StaleDependsOn(s, s'.(posts := s.posts + [Post(sub.hash, s.log)]), maximum);
          if AttemptOf(s, e).Single? {
            SingleStep(s', os, AttemptOf(s, e).t, maximum);
          }
        }
      case Venue(t, batch) =>
        if AttemptOf(s, e).Whole? {
          WholeStep(s, os, t, batch, maximum);
        } else if AttemptOf(s, e).Single? {
          SingleVenue(s, t, batch, maximum);
          SingleStep(s, os, t, maximum);
        }
      case Crash(write) => DownIsNotStale(Next(s, e, maximum), maximum);
      case _ =>
    }
  }

  lemma SingleVenue(s: System, t: Transition, batch: seq<TrackedOrder>, maximum: nat)
    requires s.up.Some? && Target(t).Some? && Apply(s.up.value, t).Ok? && IsBatch(t, Apply(s.up.value, t).value, batch)
    ensures Transit(s, t, batch, maximum) == TransitOne(s, t, maximum)
  {
    hide PlainDecimal, Apply, Transit;
  }

  lemma DownIsNotStale(s: System, maximum: nat)
    ensures s.up.None? ==> Stale(s, maximum) == {}
  {
  }

  /** A restart publishes what it journals. */
  lemma RestartStep(s: System, os: seq<TrackedOrder>, tail: seq<byte>, e: Event, good: bool, maximum: nat)
    requires SaneBound(maximum) && Safe(s, os, tail, good, maximum) && s.up.None?
    ensures Stale(Next(s, e, maximum), maximum) == {}
  {
    hide PlainDecimal, Replayed, LogOf, Torn, RecordRule, PostRule, SubmissionRule, Opened, IsSnapshot, Interrupted, Repaired,
         LastWins, Fits, WellFiled, RestorableAll, QuarantineAll, QuarantineEach, NextGeneration, Stale;
    var s' := Next(s, e, maximum);
    DownIsNotStale(s', maximum);
    if e.Reopen? && Recovers(s.log, e.recovered, maximum) {
      ReplayLogWithTail(os, tail, maximum);
      RestartOutcome(os, tail, e.recovered, maximum);
      if s'.up.Some? {
        var q := QuarantineEach(e.recovered, NextGeneration(e.recovered));
        StaleIs(s', os + q, maximum);
        NoDifference(s'.up.value);
      }
    }
  }

  /** In every reachable state the file and the published orders differ exactly at the hashes in the ledger. */
  lemma {:induction false} LedgerIsExact(events: seq<Event>, maximum: nat)
    requires SaneBound(maximum)
    ensures Stale(Run(events, maximum), maximum) == Owed(events, maximum)
    decreases |events|
  {
    hide Stale, OwedAfter, Next, Safe, Base;
    if events == [] {
      DownIsNotStale(INITIAL, maximum);
    } else {
      var before, e := events[..|events| - 1], events[|events| - 1];
      var s := Run(before, maximum);
      LedgerIsExact(before, maximum);
      var os, tail := RunIsSafe(before, false, maximum);
      if s.up.Some? {
        SafeIsBase(s, os, tail, false, maximum);
        RunningStep(s, os, e, maximum);
      } else {
        RestartStep(s, os, tail, e, false, maximum);
        OwedWhenDown(s, Owed(before, maximum), e, maximum);
      }
    }
  }

  lemma OwedWhenDown(s: System, owed: set<Text>, e: Event, maximum: nat)
    requires s.up.None?
    ensures OwedAfter(s, owed, e, maximum) == {}
  {
  }

  // ---- The theorems ----

  /** In every reachable running state the journal replays to the published map, in every field of every order, exactly
      when nothing is owed; it names the same hashes in any case. */
  lemma JournalMatchesMemory(events: seq<Event>, maximum: nat)
    requires SaneBound(maximum) && Run(events, maximum).up.Some?
    ensures var s := Run(events, maximum);
            && Replayed(s.log, maximum).Ok? && Replayed(s.log, maximum).value.orders.Keys == s.up.value.Keys
            && (Replayed(s.log, maximum).value.orders == s.up.value <==> Owed(events, maximum) == {})
            && (forall h | h in s.up.value ::
                  Replayed(s.log, maximum).value.orders[h] == s.up.value[h] <==> h !in Owed(events, maximum))
  {
    hide Run, Replayed, Owed, PlainDecimal, FlagRuleAll, Journaled;
    var s := Run(events, maximum);
    LedgerIsExact(events, maximum);
    JournalIsAuthoritative(events, maximum);
    var replayed := Replayed(s.log, maximum).value.orders;
    assert Stale(s, maximum) == Differ(s.up.value, replayed);
    forall h | h in s.up.value
      ensures replayed[h] == s.up.value[h] <==> h !in Owed(events, maximum)
    {
      assert h in replayed.Keys;
    }
  }

  /** In particular, after any run in which every whole-tracker batch fitted, a replay gives exactly the published map. */
  lemma RunAgrees(events: seq<Event>, maximum: nat)
    requires SaneBound(maximum) && Run(events, maximum).up.Some?
    requires forall i | 0 <= i < |events| :: !Refuses(Run(events[..i], maximum), events[i], maximum)
    ensures Replayed(Run(events, maximum).log, maximum).Ok?
    ensures Replayed(Run(events, maximum).log, maximum).value.orders == Run(events, maximum).up.value
  {
    hide Run, Replayed, Owed, Refuses, PlainDecimal;
    NothingOwed(events, maximum);
    JournalMatchesMemory(events, maximum);
  }

  lemma {:induction false} NothingOwed(events: seq<Event>, maximum: nat)
    requires forall i | 0 <= i < |events| :: !Refuses(Run(events[..i], maximum), events[i], maximum)
    ensures Owed(events, maximum) == {}
    decreases |events|
  {
    hide Run, PlainDecimal, Next, Lands, AttemptOf, Hashes, Changed;
    if events != [] {
      var before := events[..|events| - 1];
      assert forall i | 0 <= i < |before| :: before[..i] == events[..i] && before[i] == events[i];
      NothingOwed(before, maximum);
      assert !Refuses(Run(before, maximum), events[|events| - 1], maximum);
    }
  }

  /** A refused batch is repaired by the next whole-tracker transition that succeeds, and by any restart. */
  lemma RepairedByNext(events: seq<Event>, e: Event, maximum: nat)
    requires SaneBound(maximum) && Run(events + [e], maximum).up.Some?
    requires var s := Run(events, maximum);
             s.up.None? || (AttemptOf(s, e).Whole? && !Refuses(s, e, maximum))
    ensures Replayed(Run(events + [e], maximum).log, maximum).Ok?
    ensures Replayed(Run(events + [e], maximum).log, maximum).value.orders == Run(events + [e], maximum).up.value
  {
    hide Replayed, PlainDecimal, Next, AttemptOf, Hashes, Changed, Lands;
    assert (events + [e])[..|events|] == events;
    assert Owed(events + [e], maximum) == {};
    JournalMatchesMemory(events + [e], maximum);
  }
}
