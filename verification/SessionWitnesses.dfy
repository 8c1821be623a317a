/** Runs that show what the exact conditions on the journal are about: a refused batch that leaves a trace in the file,
    and a restart whose generation wraps. */
module SessionWitnesses {
  import opened Foundations
  import opened Numerals
  import opened ExactDecimals
  import opened Lifecycle
  import opened Transitions
  import opened ShareAmounts
  import opened JournalCodec
  import opened Journal
  import opened PersistentTracker
  import opened Durability
  import opened Session
  import opened SessionSafety
  import opened Agreement

  // ---- Two orders of the smallest amount ----

  function Hash(digit: byte): Text { [48, 120] + seq(64, _ => digit) }

  const FIRST: Text := Hash(48)
  const SECOND: Text := Hash(49)

  function Smallest(hash: Text): CreateRequest { CreateRequest(hash, 65, Buy, Eoa, 1, 1, 1, false, false) }

  lemma HashesAreValid()
    ensures ValidHash(FIRST) && ValidHash(SECOND) && LexLess(FIRST, SECOND) && FIRST != SECOND
  {
    assert forall i | 2 <= i < 66 :: FIRST[i] == 48 && SECOND[i] == 49;
    assert FIRST[1..][1..][0] == 48 && SECOND[1..][1..][0] == 49;
    assert LexLess(FIRST[1..][1..], SECOND[1..][1..]);
    assert LexLess(FIRST[1..], SECOND[1..]);
  }

  /** The submission as it is filed. */
  function Filed(hash: Text): TrackedOrder
  {
    ProtocolDecimalIsExact(1);
    NewSubmission(hash, ProtocolDecimal(1))
  }

  lemma AmountIsShort()
    ensures |ProtocolDecimal(1)| <= 20
  {
    hide StripTrailing;
    assert DecimalText(1) == [49];
  }

  lemma PayloadSize(o: TrackedOrder)
    ensures |Payload(o)| == 40 + |o.hash| + |IdText(o)| + |o.amount| + |o.filled| + |o.reason|
  {
    hide PlainDecimal, LittleEndian, TextFields;
    FieldsSize(o.hash, [IdText(o), o.amount, o.filled, o.reason]);
    FieldsSize(IdText(o), [o.amount, o.filled, o.reason]);
    FieldsSize(o.amount, [o.filled, o.reason]);
    FieldsSize(o.filled, [o.reason]);
    FieldsSize(o.reason, []);
    assert [o.hash] + [IdText(o), o.amount, o.filled, o.reason] == Texts(o);
    assert [IdText(o)] + [o.amount, o.filled, o.reason] == [IdText(o), o.amount, o.filled, o.reason];
    assert [o.amount] + [o.filled, o.reason] == [o.amount, o.filled, o.reason];
    assert [o.filled] + [o.reason] == [o.filled, o.reason] && [o.reason] + [] == [o.reason];
  }

  lemma FieldsSize(t: Text, ts: seq<Text>)
    ensures |TextFields([t] + ts)| == 4 + |t| + |TextFields(ts)| && |TextFields([])| == 0
  {
    assert ([t] + ts)[1..] == ts;
  }

  lemma FiledFits(hash: Text, maximum: nat)
    requires SaneBound(maximum) && |hash| == 66
    ensures Fits(Filed(hash), maximum)
  {
    hide PlainDecimal, Payload, ProtocolDecimal;
    AmountIsShort();
    PayloadSize(Filed(hash));
  }

  // ---- Steps ----

  lemma FirstOpen(maximum: nat)
    requires SaneBound(maximum)
    ensures Run([Reopen([])], maximum) == System(LogOf([]), Some(map[]), [], [])
  {
    hide PlainDecimal, Opened, LogOf, Replayed, Recovers;
    assert [Reopen([])][..0] == [] && Run([], maximum) == INITIAL;
    EmptyLog();
    EmptyRestart(maximum);
  }

  lemma EmptyRestart(maximum: nat)
    requires SaneBound(maximum)
    ensures Recovers(MAGIC, [], maximum) && Opened(MAGIC, [], maximum) == (LogOf([]), Ok(map[]))
  {
    hide PlainDecimal, Opened, LogOf, Replayed, NextGeneration, LastWins, Fits;
    EmptyLog();
    EmptyRecords();
    EmptyTail(maximum);
    CompleteLogReplays([], maximum);
    RestartOutcome([], [], [], maximum);
    var q := QuarantineEach([], NextGeneration([]));
    assert q == [] && [] + q == [] && LogOf([]) + [] == LogOf([]);
    assert QuarantineAll(map[], NextGeneration([])) == map[];
  }

  lemma EmptyLog()
    ensures LogOf([]) == MAGIC
  {
    assert MAGIC + [] == MAGIC;
  }

  lemma SubmitFiles(s: System, os: seq<TrackedOrder>, hash: Text, maximum: nat)
    requires SaneBound(maximum) && AllFit(os, maximum) && s.log == LogOf(os) && s.up.Some?
    requires ValidHash(hash) && hash !in s.up.value
    ensures var s' := Next(s, Submit(Smallest(hash)), maximum);
            s'.up == Some(s.up.value[hash := Filed(hash)]) && s'.log == LogOf(os + [Filed(hash)])
    ensures AllFit(os + [Filed(hash)], maximum)
  {
    hide PlainDecimal, ProtocolDecimal, ValidHash, LogOf, Fits, Appended, Apply, Transit, ValidateCreate, TrackedShareAmount, Filed;
    var o := Filed(hash);
    var t := Begin(hash, o.amount);
    SmallestIsValid(hash);
    FiledFits(hash, maximum);
    FreshBegins(s.up.value, Smallest(hash));
    OneMisfit(o, maximum);
    TransitOutcome(s, os, t, [o], maximum);
    AllFitConcat(os, [o], maximum);
    assert [o][..1] == [o];
  }

  lemma SmallestIsValid(hash: Text)
    requires ValidHash(hash)
    ensures |hash| == 66 && ValidateCreate(Smallest(hash)).Ok?
    ensures TrackedShareAmount(Smallest(hash)) == Ok(ProtocolDecimal(1)) && PlainDecimal(ProtocolDecimal(1))
    ensures Filed(hash) == NewSubmission(hash, ProtocolDecimal(1))
  {
    hide ProtocolDecimal, PlainDecimal;
    ProtocolDecimalIsExact(1);
  }

  // ---- A refused batch leaves a trace ----

  function Cancellation(): OrderRecord { OrderRecord(FIRST, [], [49], ZERO, StatusCancelled, []) }

  /** A record of the second order whose status text alone exceeds the bound. */
  function Oversize(maximum: nat): OrderRecord {
    OrderRecord(SECOND, [], [49], ZERO, StatusOpen, seq(maximum + 1, _ => 48))
  }

  function Pages(maximum: nat): seq<OrderRecord> { [Cancellation(), Oversize(maximum)] }

  function RefusedBatch(maximum: nat): seq<TrackedOrder> {
    [ReconciledOrder(Filed(FIRST), 1, Some(Cancellation())), ReconciledOrder(Filed(SECOND), 1, Some(Oversize(maximum)))]
  }

  function RefusedRun(maximum: nat): seq<Event> {
    [Reopen([]), Submit(Smallest(FIRST)), Submit(Smallest(SECOND)),
     Venue(Transition.Reconciliation(1, Pages(maximum)), RefusedBatch(maximum))]
  }

  lemma RefusedRecords(maximum: nat)
    requires SaneBound(maximum)
    ensures var b := RefusedBatch(maximum);
            && |b| == 2 && b[0].hash == FIRST && b[1].hash == SECOND && b[0].state == Cancelled
            && Fits(b[0], maximum) && !Fits(b[1], maximum)
  {
    hide PlainDecimal, Payload, Filed, AfterRest;
    var b := RefusedBatch(maximum);
    FiledHash(FIRST);
    FiledHash(SECOND);
    CancelledKept(Filed(FIRST), Cancellation());
    RestConcludes(Filed(FIRST), Cancellation());
    RestConcludes(Filed(SECOND), Oversize(maximum));
    ReasonKept(Filed(FIRST), Cancellation());
    ReasonKept(Filed(SECOND), Oversize(maximum));
    PayloadSize(b[0]);
    PayloadSize(b[1]);
  }

  lemma FiledHash(hash: Text)
    ensures Filed(hash).hash == hash
  {
    hide PlainDecimal, ProtocolDecimal;
  }

  lemma CancelledKept(o: TrackedOrder, r: OrderRecord)
    requires r.status.StatusCancelled?
    ensures AfterRest(o, r).state == Cancelled
  {
    hide PlainDecimal;
  }

  lemma ReasonKept(o: TrackedOrder, r: OrderRecord)
    ensures AfterRest(o, r).reason == r.rawStatus
  {
    hide PlainDecimal, IsZero, Compare;
  }

  lemma LastPages(maximum: nat)
    ensures LastRecord(Pages(maximum), FIRST) == Some(Cancellation())
    ensures LastRecord(Pages(maximum), SECOND) == Some(Oversize(maximum))
  {
    hide PlainDecimal;
    HashesAreValid();
    assert Pages(maximum)[..1] == [Cancellation()];
    assert LastRecord([Cancellation()], FIRST) == Some(Cancellation());
  }

  ghost predicate TwoFiled(orders: Orders) { orders == map[FIRST := Filed(FIRST), SECOND := Filed(SECOND)] }

  lemma RefusedIsBatch(orders: Orders, maximum: nat)
    requires SaneBound(maximum) && TwoFiled(orders)
    ensures IsSnapshot(ReconcileAll(orders, 1, Pages(maximum)), RefusedBatch(maximum))
  {
    hide PlainDecimal, ReconciledOrder, Pages, Filed, LexLess, IsSnapshot, Fits, Cancellation, Oversize, Hash, LastRecord;
    HashesAreValid();
    LastPages(maximum);
    RefusedRecords(maximum);
    var next, b := ReconcileAll(orders, 1, Pages(maximum)), RefusedBatch(maximum);
    assert next.Keys == {FIRST, SECOND} && next[FIRST] == b[0] && next[SECOND] == b[1];
    assert next == map[b[0].hash := b[0], b[1].hash := b[1]];
    TwoAreSnapshot(b[0], b[1]);
    assert b == [b[0], b[1]];
  }

  lemma TwoAreSnapshot(a: TrackedOrder, b: TrackedOrder)
    requires LexLess(a.hash, b.hash) && a.hash != b.hash
    ensures IsSnapshot(map[a.hash := a, b.hash := b], [a, b])
  {
    hide PlainDecimal, LexLess;
    var m, os := map[a.hash := a, b.hash := b], [a, b];
    assert os[0] == a && os[1] == b;
    ListingIsSnapshot(m, os);
  }

  lemma TwoSubmissions(maximum: nat)
    requires SaneBound(maximum)
    ensures var s := Run([Reopen([]), Submit(Smallest(FIRST)), Submit(Smallest(SECOND))], maximum);
            var os := [Filed(FIRST), Filed(SECOND)];
            s.log == LogOf(os) && AllFit(os, maximum) && s.up.Some? && TwoFiled(s.up.value)
  {
    hide PlainDecimal, Next, LogOf, Fits, Filed;
    var e0, e1, e2 := Reopen([]), Submit(Smallest(FIRST)), Submit(Smallest(SECOND));
    HashesAreValid();
    FirstOpen(maximum);
    SubmitFiles(Run([e0], maximum), [], FIRST, maximum);
    assert [] + [Filed(FIRST)] == [Filed(FIRST)] && [e0, e1][..1] == [e0] && [e0, e1, e2][..2] == [e0, e1];
    SubmitFiles(Run([e0, e1], maximum), [Filed(FIRST)], SECOND, maximum);
    assert [Filed(FIRST)] + [Filed(SECOND)] == [Filed(FIRST), Filed(SECOND)];
  }

  /** Two submissions, then a reconciliation whose second record does not fit: the transition is refused and the orders
      stay pending in memory, but the file already says that the first one was cancelled. */
  lemma RefusedBatchLeavesTrace(maximum: nat)
    requires SaneBound(maximum)
    ensures var s := Run(RefusedRun(maximum), maximum);
            && s.up.Some? && FIRST in s.up.value && s.up.value[FIRST].state == SubmissionPending
            && Replayed(s.log, maximum).Ok? && FIRST in Replayed(s.log, maximum).value.orders
            && Replayed(s.log, maximum).value.orders[FIRST].state == Cancelled
    ensures FIRST in Owed(RefusedRun(maximum), maximum)
  {
    hide PlainDecimal, Run, Next, Replayed, LogOf, Fits, RefusedBatch, ReconcileAll, Transit, Records, Owed, IsSnapshot, ProtocolDecimal;
    var events, b := RefusedRun(maximum), RefusedBatch(maximum);
    var t := Transition.Reconciliation(1, Pages(maximum));
    var before, os := events[..3], [Filed(FIRST), Filed(SECOND)];
    assert before == [Reopen([]), Submit(Smallest(FIRST)), Submit(Smallest(SECOND))];
    TwoSubmissions(maximum);
    HashesAreValid();
    var s := Run(before, maximum);
    RefusedIsBatch(s.up.value, maximum);
    RefusedRecords(maximum);
    SecondMisfits(b, maximum);
    VenueStep(s, t, b, maximum);
    TransitOutcome(s, os, t, b, maximum);
    LastEvent(events, maximum);
    AllFitConcat(os, b[..1], maximum);
    CompleteLogReplays(os + b[..1], maximum);
    assert b[..1] == [b[0]];
    RecordsAfter(os, b[0]);
    JournalMatchesMemory(events, maximum);
  }

  lemma SecondMisfits(b: seq<TrackedOrder>, maximum: nat)
    requires |b| == 2 && Fits(b[0], maximum) && !Fits(b[1], maximum)
    ensures FirstMisfit(b, maximum) == 1
  {
    hide PlainDecimal, Fits;
    assert b[1..][0] == b[1];
  }

  lemma RecordsAfter(os: seq<TrackedOrder>, o: TrackedOrder)
    ensures Records(os + [o]) == Records(os)[o.hash := o]
  {
    hide PlainDecimal, LastWins;
    LastWinsConcat(map[], os, [o]);
    SingleWins(Records(os), o);
  }

  lemma LastEvent(events: seq<Event>, maximum: nat)
    requires events != []
    ensures Run(events, maximum) == Next(Run(events[..|events| - 1], maximum), events[|events| - 1], maximum)
  {
    hide Next;
  }

  // ---- A generation that wraps ----

  const LARGEST: uint64 := TWO_64 - 1

  function Flagged(): TrackedOrder { Quarantined(Filed(FIRST), LARGEST) }

  function WrapRun(): seq<Event> {
    [Reopen([]), Submit(Smallest(FIRST)), Venue(Quarantine(LARGEST), [Flagged()]), Crash(None), Reopen([Flagged()])]
  }

  lemma FlaggedFacts(maximum: nat)
    requires SaneBound(maximum)
    ensures Flagged() == Filed(FIRST).(flagged := true, generation := LARGEST) && Fits(Flagged(), maximum)
    ensures Restorable(Flagged()) && !Terminal(Flagged()) && Flagged().hash == Filed(FIRST).hash == FIRST
  {
    hide PlainDecimal, Payload, ProtocolDecimal, ValidHash, IsNegative, IsZero;
    HashesAreValid();
    FiledFits(FIRST, maximum);
    PayloadSize(Filed(FIRST));
    PayloadSize(Flagged());
    ProtocolDecimalIsPositive(1);
    ZeroIsNotNegative();
  }

  lemma OneIsSnapshot(h: Text, o: TrackedOrder)
    requires o.hash == h
    ensures IsSnapshot(map[h := o], [o])
  {
    hide PlainDecimal;
    assert [o][0].hash == h;
  }

  lemma VenueStep(s: System, t: Transition, batch: seq<TrackedOrder>, maximum: nat)
    requires s.up.Some? && !t.Begin? && Apply(s.up.value, t).Ok? && IsBatch(t, Apply(s.up.value, t).value, batch)
    ensures Next(s, Venue(t, batch), maximum) == Transit(s, t, batch, maximum)
  {
    hide PlainDecimal, Apply, Transit, IsBatch;
  }

  lemma WholeLands(s: System, os: seq<TrackedOrder>, t: Transition, o: TrackedOrder, maximum: nat)
    requires SaneBound(maximum) && AllFit(os, maximum) && s.log == LogOf(os) && s.up.Some? && Fits(o, maximum)
    requires Target(t).None? && Apply(s.up.value, t).Ok? && IsSnapshot(Apply(s.up.value, t).value, [o])
    ensures var s' := Next(s, Venue(t, [o]), maximum);
            s'.log == LogOf(os + [o]) && s'.up.Some? && AllFit(os + [o], maximum)
  {
    hide PlainDecimal, LogOf, Fits, Transit, Next, Apply, IsSnapshot;
    VenueStep(s, t, [o], maximum);
    OneMisfit(o, maximum);
    TransitOutcome(s, os, t, [o], maximum);
    AllFitConcat(os, [o], maximum);
    assert [o][..1] == [o];
  }

  lemma QuarantineStep(s: System, maximum: nat)
    requires SaneBound(maximum) && s.log == LogOf([Filed(FIRST)]) && AllFit([Filed(FIRST)], maximum)
    requires s.up == Some(map[FIRST := Filed(FIRST)])
    ensures var s' := Next(s, Venue(Quarantine(LARGEST), [Flagged()]), maximum);
            s'.log == LogOf([Filed(FIRST), Flagged()]) && s'.up.Some? && AllFit([Filed(FIRST), Flagged()], maximum)
  {
    hide PlainDecimal, LogOf, Fits, AllFit, Next, Filed, Flagged, IsSnapshot, QuarantineAll, Restorable, Terminal, Hash;
    FlaggedFacts(maximum);
    QuarantinesOne(s.up.value);
    OneIsSnapshot(FIRST, Flagged());
    WholeLands(s, [Filed(FIRST)], Quarantine(LARGEST), Flagged(), maximum);
    assert [Filed(FIRST)] + [Flagged()] == [Filed(FIRST), Flagged()];
  }

  lemma WrapUntilCrash(maximum: nat)
    requires SaneBound(maximum)
    ensures var s := Run(WrapRun()[..4], maximum);
            && s.log == LogOf([Filed(FIRST), Flagged()]) && AllFit([Filed(FIRST), Flagged()], maximum) && s.up.None?
  {
    hide PlainDecimal, Run, Next, LogOf, Fits, Filed, Flagged;
    var events, f := WrapRun(), Filed(FIRST);
    HashesAreValid();
    FirstOpen(maximum);
    assert events[..1] == [Reopen([])] && events[..2][..1] == events[..1] && events[..3][..2] == events[..2];
    assert events[..4][..3] == events[..3];
    LastEvent(events[..2], maximum);
    LastEvent(events[..3], maximum);
    LastEvent(events[..4], maximum);
    SubmitFiles(Run(events[..1], maximum), [], FIRST, maximum);
    assert [] + [f] == [f];
    QuarantineStep(Run(events[..2], maximum), maximum);
    CrashStep(Run(events[..3], maximum), maximum);
  }

  lemma CrashStep(s: System, maximum: nat)
    requires s.up.Some?
    ensures Next(s, Crash(None), maximum) == s.(up := None, submissions := [])
  {
  }

  lemma QuarantinesOne(orders: Orders)
    requires orders == map[FIRST := Filed(FIRST)]
    ensures QuarantineAll(orders, LARGEST) == map[FIRST := Flagged()] && Flagged().hash == FIRST
  {
    hide PlainDecimal, ProtocolDecimal;
  }

  /** An order quarantined under the largest generation is recovered under a smaller one. */
  lemma GenerationWraps(maximum: nat)
    requires SaneBound(maximum)
    ensures var down, s := Run(WrapRun()[..4], maximum), Run(WrapRun(), maximum);
            && Replayed(down.log, maximum).Ok? && FIRST in Replayed(down.log, maximum).value.orders
            && Replayed(down.log, maximum).value.orders[FIRST].generation == LARGEST
            && s.up.Some? && FIRST in s.up.value && s.up.value[FIRST].generation == 1
  {
    hide PlainDecimal, Run, Replayed, LogOf, Fits, Filed, Flagged, Opened, LastWins, IsSnapshot, Restorable, QuarantineEach;
    var events, os, f := WrapRun(), [Filed(FIRST), Flagged()], Flagged();
    WrapUntilCrash(maximum);
    FlaggedFacts(maximum);
    var down := Run(events[..4], maximum);
    RecordsOfTwo(Filed(FIRST), f);
    OneIsSnapshot(FIRST, f);
    EmptyTail(maximum);
    assert LogOf(os) + [] == LogOf(os) && events[..|events| - 1] == events[..4];
    CompleteLogReplays(os, maximum);
    RestartOutcome(os, [], [f], maximum);
    assert [f][..0] == [] && NextGeneration([f]) == 1;
    assert Quarantined(f, 1).generation == 1;
    LastEvent(events, maximum);
  }

  lemma RecordsOfTwo(o: TrackedOrder, p: TrackedOrder)
    requires o.hash == FIRST && p.hash == FIRST
    ensures Records([o, p]) == map[FIRST := p]
  {
    hide PlainDecimal, LastWins;
    assert [o] + [p] == [o, p] && [] + [o] == [o] && Records([]) == map[] by { EmptyRecords(); }
    RecordsAfter([], o);
    RecordsAfter([o], p);
  }

  lemma EmptyRecords()
    ensures Records([]) == map[]
  {
  }
}
