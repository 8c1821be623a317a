/** Safety of the durable order session over every run. */
module SessionSafety {
  import opened Foundations
  import opened ExactDecimals
  import opened Lifecycle
  import opened Transitions
  import opened Journal
  import opened PersistentTracker
  import opened Durability
  import opened Session
  import Trading

  // ---- The invariant ----

  /** Every record obeys the flag rule and, as long as the venue reported sane amounts, can be restored. */
  predicate RecordRule(o: TrackedOrder, good: bool) { FlagRule(o) && (good ==> Restorable(o)) }

  ghost predicate OrdersRule(orders: Orders, good: bool) { forall h | h in orders :: RecordRule(orders[h], good) }

  /** The venue reports positive amounts and non-negative fills. */
  ghost predicate GoodEvent(e: Event) {
    match e
    case Venue(t, _) => GoodInput(t)
    case Crash(Some(w)) => GoodInput(w.t)
    case _ => true
  }

  ghost predicate LogRule(log: seq<byte>, os: seq<TrackedOrder>, tail: seq<byte>, good: bool, maximum: nat) {
    && AllFit(os, maximum) && Torn(tail, maximum) && log == LogOf(os) + tail
    && (forall o | o in os :: RecordRule(o, good))
  }

  ghost predicate UpRule(orders: Orders, os: seq<TrackedOrder>, good: bool) {
    WellFiled(orders) && orders.Keys == Records(os).Keys && OrdersRule(orders, good)
  }

  /** Replaying the journal finds a complete frame for the hash. */
  ghost predicate Journaled(log: seq<byte>, hash: Text, maximum: nat) {
    Replayed(log, maximum).Ok? && hash in Replayed(log, maximum).value.orders
  }

  ghost predicate PostRule(posts: seq<Post>, os: seq<TrackedOrder>, maximum: nat) {
    && (forall i, j | 0 <= i < j < |posts| :: posts[i].hash != posts[j].hash)
    && (forall i | 0 <= i < |posts| :: posts[i].hash in Records(os) && Journaled(posts[i].log, posts[i].hash, maximum))
  }

  ghost predicate Posted(posts: seq<Post>, hash: Text) { exists i :: 0 <= i < |posts| && posts[i].hash == hash }

  ghost predicate SubmissionRule(subs: seq<Submission>, posts: seq<Post>, os: seq<TrackedOrder>) {
    && (forall i, j | 0 <= i < j < |subs| :: subs[i].hash != subs[j].hash)
    && (forall i | 0 <= i < |subs| ::
          subs[i].hash in Records(os) && Trading.Sound(subs[i].op) && (Posted(posts, subs[i].hash) <==> subs[i].op.dispatched))
  }

  ghost predicate Safe(s: System, os: seq<TrackedOrder>, tail: seq<byte>, good: bool, maximum: nat) {
    && LogRule(s.log, os, tail, good, maximum)
    && (s.up.Some? ==> tail == [] && UpRule(s.up.value, os, good))
    && (s.up.None? ==> s.submissions == [])
    && PostRule(s.posts, os, maximum)
    && SubmissionRule(s.submissions, s.posts, os)
  }

  // ---- Growing the log ----

  lemma RecordsGrow(os: seq<TrackedOrder>, more: seq<TrackedOrder>)
    ensures Records(os + more).Keys == Records(os).Keys + (set o | o in more :: o.hash)
  {
    hide PlainDecimal, LastWins;
    LastWinsConcat(map[], os, more);
    forall h
      ensures h in Records(os + more) <==> h in Records(os) || h in (set o | o in more :: o.hash)
    {
      LastWinsPoint(Records(os), more, h);
    }
  }

  /** Records written by a transition, all or a prefix of them, keep the log rule and the known hashes. */
  lemma LogGrows(os: seq<TrackedOrder>, more: seq<TrackedOrder>, tail: seq<byte>, good: bool, maximum: nat)
    requires LogRule(LogOf(os), os, [], good, maximum) && AllFit(more, maximum) && Torn(tail, maximum)
    requires forall o | o in more :: RecordRule(o, good)
    ensures LogRule(LogOf(os + more) + tail, os + more, tail, good, maximum)
    ensures Records(os).Keys <= Records(os + more).Keys
  {
    hide PlainDecimal, Fits, LogOf, Records, Torn, RecordRule;
    AllFitConcat(os, more, maximum);
    RecordsGrow(os, more);
    assert forall o | o in os + more :: o in os || o in more;
  }

  lemma RulesCarryOver(s: System, os: seq<TrackedOrder>, os': seq<TrackedOrder>, maximum: nat)
    requires PostRule(s.posts, os, maximum) && SubmissionRule(s.submissions, s.posts, os)
    requires Records(os).Keys <= Records(os').Keys
    ensures PostRule(s.posts, os', maximum) && SubmissionRule(s.submissions, s.posts, os')
  {
    hide PlainDecimal, Records, Journaled;
    forall h | h in Records(os)
      ensures h in Records(os')
    {
      assert h in Records(os).Keys;
    }
  }

  /** The orders a transition journals obey the flag rule and are filed under known hashes. */
  lemma BatchIsSound(orders: Orders, t: Transition, batch: seq<TrackedOrder>, good: bool)
    requires WellFiled(orders) && OrdersRule(orders, good) && (good ==> GoodInput(t))
    requires Apply(orders, t).Ok? && IsBatch(t, Apply(orders, t).value, batch)
    ensures WellFiled(Apply(orders, t).value) && OrdersRule(Apply(orders, t).value, good)
    ensures forall o | o in batch :: RecordRule(o, good) && o.hash in Apply(orders, t).value
  {
    hide PlainDecimal, Apply, IsBatch, FlagRule, Restorable, GoodInput, Idle, Positive, Target, ValidHash;
    var next := Apply(orders, t).value;
    ApplyShape(orders, t);
    FlagRulePreserved(orders, t);
    if good {
      RestorablePreserved(orders, t);
    }
    RecordsOfBatch(t, next, batch, good);
  }

  /** What holds of a map holds of the records a transition takes from it. */
  lemma RecordsOfBatch(t: Transition, next: Orders, batch: seq<TrackedOrder>, good: bool)
    requires WellFiled(next) && OrdersRule(next, good) && IsBatch(t, next, batch)
    ensures forall o | o in batch :: RecordRule(o, good) && o.hash in next
  {
    hide PlainDecimal, LexLess, ValidHash, RecordRule, IsSnapshot;
    match Target(t) {
      case Some(h) => assert next[h].hash == h;
      case None => SnapshotListsAll(next, batch);
    }
  }

  /** What a transition leaves on disk and in memory. */
  lemma TransitOutcome(s: System, os: seq<TrackedOrder>, t: Transition, batch: seq<TrackedOrder>, maximum: nat)
    requires SaneBound(maximum) && AllFit(os, maximum) && s.log == LogOf(os) && s.up.Some?
    requires Apply(s.up.value, t).Ok? && !Idle(s.up.value, t)
    ensures var k := FirstMisfit(batch, maximum);
            && Transit(s, t, batch, maximum)
               == s.(log := LogOf(os + batch[..k]),
                     up := Some(if k == |batch| then Apply(s.up.value, t).value else s.up.value))
            && AllFit(batch[..k], maximum)
  {
    hide PlainDecimal, Apply, Fits, LogOf, Appended;
    AppendOnLog(os, batch, maximum);
    FirstMisfitSplits(batch, maximum);
  }

  /** A transition that runs to its end, successfully or not. */
  lemma TransitKeepsSafe(s: System, os: seq<TrackedOrder>, t: Transition, batch: seq<TrackedOrder>, good: bool, maximum: nat)
    returns (os': seq<TrackedOrder>)
    requires SaneBound(maximum) && Safe(s, os, [], good, maximum) && s.up.Some?
    requires Apply(s.up.value, t).Ok? && IsBatch(t, Apply(s.up.value, t).value, batch) && (good ==> GoodInput(t))
    ensures Safe(Transit(s, t, batch, maximum), os', [], good, maximum)
    ensures Records(os).Keys <= Records(os').Keys
    ensures var up' := Transit(s, t, batch, maximum).up.value;
            t.Begin? && up' != s.up.value ==> t.hash in up' && t.hash !in s.up.value
  {
    hide PlainDecimal, Apply, Fits, LogOf, IsBatch, WellFiled, OrdersRule, Records, PostRule, SubmissionRule, Torn, Transit;
    assert LogOf(os) + [] == LogOf(os);
    if Idle(s.up.value, t) {
      os' := os;
      IdleTransit(s, t, batch, maximum);
    } else {
      var k := FirstMisfit(batch, maximum);
      os' := os + batch[..k];
      BatchIsSound(s.up.value, t, batch, good);
      TransitOutcome(s, os, t, batch, maximum);
      assert forall o | o in batch[..k] :: o in batch;
      LogGrows(os, batch[..k], [], good, maximum);
      RulesCarryOver(s, os, os', maximum);
      KeysAfter(s.up.value, os, t, batch, k);
      BeginAddsOne(s.up.value, t);
      assert LogOf(os') + [] == LogOf(os');
    }
  }

  lemma IdleTransit(s: System, t: Transition, batch: seq<TrackedOrder>, maximum: nat)
    requires s.up.Some? && Apply(s.up.value, t).Ok? && Idle(s.up.value, t)
    ensures Transit(s, t, batch, maximum) == s
  {
  }

  lemma BeginAddsOne(orders: Orders, t: Transition)
    requires WellFiled(orders) && Apply(orders, t).Ok?
    ensures t.Begin? ==> t.hash in Apply(orders, t).value && t.hash !in orders
  {
    hide PlainDecimal, Apply, ValidHash;
    ApplyShape(orders, t);
  }

  /** The journaled hashes are those of the published map, whether the append succeeded or stopped early. */
  lemma KeysAfter(orders: Orders, os: seq<TrackedOrder>, t: Transition, batch: seq<TrackedOrder>, k: nat)
    requires WellFiled(orders) && orders.Keys == Records(os).Keys && k <= |batch|
    requires Apply(orders, t).Ok? && IsBatch(t, Apply(orders, t).value, batch)
    ensures k == |batch| ==> Records(os + batch[..k]).Keys == Apply(orders, t).value.Keys
    ensures k < |batch| ==> Records(os + batch[..k]).Keys == orders.Keys
  {
    hide PlainDecimal, Apply, Records, ValidHash, IsBatch, WellFiled;
    var next := Apply(orders, t).value;
    ApplyKeys(orders, t);
    RecordsGrow(os, batch[..k]);
    BatchHashes(t, next, batch, k);
    if k == |batch| {
      assert batch[..k] == batch;
    }
  }

  lemma ApplyKeys(orders: Orders, t: Transition)
    requires WellFiled(orders) && Apply(orders, t).Ok?
    ensures var next := Apply(orders, t).value;
            && WellFiled(next)
            && (match Target(t) case Some(h) => next.Keys == orders.Keys + {h} case None => next.Keys == orders.Keys)
  {
    hide PlainDecimal, Apply, ValidHash;
    ApplyShape(orders, t);
  }

  lemma BatchHashes(t: Transition, next: Orders, batch: seq<TrackedOrder>, k: nat)
    requires WellFiled(next) && IsBatch(t, next, batch) && k <= |batch|
    ensures (set o | o in batch :: o.hash) == match Target(t) case Some(h) => {h} case None => next.Keys
    ensures k < |batch| && Target(t).Some? ==> (set o | o in batch[..k] :: o.hash) == {}
    ensures (set o | o in batch[..k] :: o.hash) <= next.Keys
  {
    hide PlainDecimal, LexLess, ValidHash;
    if Target(t).Some? {
      assert (set o | o in batch :: o.hash) == {next[Target(t).value].hash};
    } else {
      SnapshotMembers(next, batch);
    }
    assert forall o | o in batch[..k] :: o in batch;
  }

  // ---- Every event keeps the invariant ----

  lemma TransitOneKeepsSafe(s: System, os: seq<TrackedOrder>, t: Transition, good: bool, maximum: nat)
    returns (os': seq<TrackedOrder>)
    requires SaneBound(maximum) && Safe(s, os, [], good, maximum) && s.up.Some? && Target(t).Some?
    requires good ==> GoodInput(t)
    ensures Safe(TransitOne(s, t, maximum), os', [], good, maximum)
    ensures Records(os).Keys <= Records(os').Keys
    ensures var s' := TransitOne(s, t, maximum);
            && s'.up.Some? && s'.submissions == s.submissions && s'.posts == s.posts
            && (t.Begin? && s'.up.value != s.up.value ==> t.hash in s'.up.value && t.hash !in s.up.value)
  {
    hide PlainDecimal, Apply, Safe, Records;
    if Apply(s.up.value, t).Ok? && Target(t).value in Apply(s.up.value, t).value {
      os' := TransitKeepsSafe(s, os, t, [Apply(s.up.value, t).value[Target(t).value]], good, maximum);
    } else {
      os' := os;
    }
  }

  /** A new submission has a hash that was never tracked, hence never posted. */
  lemma SubmitKeepsSafe(s: System, os: seq<TrackedOrder>, r: CreateRequest, good: bool, maximum: nat)
    returns (os': seq<TrackedOrder>)
    requires SaneBound(maximum) && Safe(s, os, [], good, maximum) && s.up.Some?
    ensures Safe(AfterSubmit(s, r, maximum), os', [], good, maximum)
  {
    hide PlainDecimal, TransitOne, ValidateCreate, TrackedShareAmount, LogRule, Records, WellFiled, OrdersRule, Journaled;
    os' := os;
    if ValidateCreate(r).Ok? && TrackedShareAmount(r).Ok? && PlainDecimal(TrackedShareAmount(r).value) {
      var t := Begin(r.hash, TrackedShareAmount(r).value);
      os' := TransitOneKeepsSafe(s, os, t, good, maximum);
      var s' := TransitOne(s, t, maximum);
      if s'.up.value != s.up.value {
        FreshSubmission(s, s', os, os', r.hash, good, maximum);
      }
    }
  }

  lemma FreshSubmission(s: System, s': System, os: seq<TrackedOrder>, os': seq<TrackedOrder>, hash: Text, good: bool, maximum: nat)
    requires Safe(s, os, [], good, maximum) && s.up.Some? && Safe(s', os', [], good, maximum) && s'.up.Some?
    requires s'.submissions == s.submissions && s'.posts == s.posts
    requires hash in s'.up.value && hash !in s.up.value
    ensures Safe(s'.(submissions := s.submissions + [Submission(hash, Trading.FRESH)]), os', [], good, maximum)
  {
    hide PlainDecimal, LogRule, Records, WellFiled, OrdersRule, Journaled;
    assert hash !in Records(os) by {
      assert s.up.value.Keys == Records(os).Keys;
    }
    assert hash in Records(os') by {
      assert s'.up.value.Keys == Records(os').Keys;
    }
    assert !Posted(s.posts, hash);
    assert Trading.Sound(Trading.FRESH);
    var subs := s.submissions + [Submission(hash, Trading.FRESH)];
    assert SubmissionRule(subs, s'.posts, os');
  }

  lemma CallbackKeepsSafe(s: System, os: seq<TrackedOrder>, i: nat, e: Trading.OpEvent, message: Text, good: bool, maximum: nat)
    returns (os': seq<TrackedOrder>)
    requires SaneBound(maximum) && Safe(s, os, [], good, maximum) && s.up.Some? && i < |s.submissions|
    ensures Safe(AfterCallback(s, i, e, message, maximum), os', [], good, maximum)
  {
    hide PlainDecimal, TransitOne, LogRule, UpRule, Records, Journaled, Trading.Step, Trading.Sound;
    var sub := s.submissions[i];
    var op := Trading.Step(sub.op, e);
    Trading.StepKeepsSound(sub.op, e);
    StepDispatch(sub.op, e);
    var s' := s.(submissions := s.submissions[i := sub.(op := op)]);
    os' := os;
    if op.posts > sub.op.posts {
      PostIsFirst(s, os, i, op, good, maximum);
    } else {
      assert SubmissionRule(s'.submissions, s'.posts, os);
      if |op.completions| > |sub.op.completions| {
        var t := ResultTransition(sub.hash, op.completions[|op.completions| - 1], message);
        os' := TransitOneKeepsSafe(s', os, t, good, maximum);
      }
    }
  }

  lemma StepDispatch(op: Trading.Operation, e: Trading.OpEvent)
    requires Trading.Sound(op)
    ensures var op' := Trading.Step(op, e);
            if op'.posts > op.posts then op'.dispatched && !op.dispatched else op'.dispatched == op.dispatched
  {
    Trading.StepKeepsSound(op, e);
  }

  /** The POST of a submission is the first for its hash, and its frame is already in the journal. */
  lemma PostIsFirst(s: System, os: seq<TrackedOrder>, i: nat, op: Trading.Operation, good: bool, maximum: nat)
    requires SaneBound(maximum) && Safe(s, os, [], good, maximum) && s.up.Some? && i < |s.submissions|
    requires Trading.Sound(op) && op.dispatched && !s.submissions[i].op.dispatched
    ensures var sub := s.submissions[i];
            var s' := s.(submissions := s.submissions[i := sub.(op := op)], posts := s.posts + [Post(sub.hash, s.log)]);
            Safe(s', os, [], good, maximum)
  {
    hide PlainDecimal, UpRule, Records, Replayed, LogOf, Fits, Torn, RecordRule, Trading.Sound;
    var sub, hash := s.submissions[i], s.submissions[i].hash;
    var posts := s.posts + [Post(hash, s.log)];
    assert LogOf(os) + [] == LogOf(os);
    CompleteLogReplays(os, maximum);
    assert Journaled(s.log, hash, maximum);
    assert !Posted(s.posts, hash);
    forall h
      ensures Posted(posts, h) <==> Posted(s.posts, h) || h == hash
    {
      if h == hash {
        assert posts[|s.posts|].hash == h;
      } else if Posted(s.posts, h) {
        var k :| 0 <= k < |s.posts| && s.posts[k].hash == h;
        assert posts[k].hash == h;
      }
    }
    assert PostRule(posts, os, maximum);
  }

  /** A crash inside an append leaves complete frames and a torn tail. */
  lemma InterruptedKeepsLog(os: seq<TrackedOrder>, batch: seq<TrackedOrder>, bytes: nat, good: bool, maximum: nat)
    returns (os': seq<TrackedOrder>, tail: seq<byte>)
    requires SaneBound(maximum) && LogRule(LogOf(os), os, [], good, maximum) && forall o | o in batch :: RecordRule(o, good)
    ensures LogRule(Interrupted(LogOf(os), batch, bytes, maximum), os', tail, good, maximum)
    ensures Records(os).Keys <= Records(os').Keys
  {
    hide PlainDecimal, Fits, LogRule, Records, Frames, Torn, RecordRule;
    var m := FirstMisfit(batch, maximum);
    FirstMisfitSplits(batch, maximum);
    var n := Min(bytes, |Frames(batch[..m])|);
    var k;
    k, tail := CutBatch(batch[..m], n, maximum);
    os' := os + batch[..m][..k];
    assert forall o | o in batch[..m][..k] :: o in batch[..m] && o in batch;
    LogGrows(os, batch[..m][..k], tail, good, maximum);
    FramesConcat(os, batch[..m][..k]);
    assert LogOf(os) + Frames(batch[..m])[..n] == LogOf(os') + tail;
  }

  lemma CrashKeepsSafe(s: System, os: seq<TrackedOrder>, write: Option<Write>, good: bool, maximum: nat)
    returns (os': seq<TrackedOrder>, tail: seq<byte>)
    requires SaneBound(maximum) && Safe(s, os, [], good, maximum) && s.up.Some?
    requires good ==> GoodEvent(Crash(write))
    ensures Safe(Next(s, Crash(write), maximum), os', tail, good, maximum)
  {
    hide PlainDecimal, Apply, LogRule, Records, WellFiled, OrdersRule, Journaled, IsBatch, Interrupted, LogOf;
    os', tail := os, [];
    NoSubmissions(s.posts, os);
    if write.Some? && Apply(s.up.value, write.value.t).Ok?
       && IsBatch(write.value.t, Apply(s.up.value, write.value.t).value, write.value.batch)
    {
      BatchIsSound(s.up.value, write.value.t, write.value.batch, good);
      LogIsComplete(s.log, os, good, maximum);
      os', tail := InterruptedKeepsLog(os, write.value.batch, write.value.bytes, good, maximum);
      RulesCarryOver(s.(submissions := []), os, os', maximum);
    }
  }

  lemma NoSubmissions(posts: seq<Post>, os: seq<TrackedOrder>)
    ensures SubmissionRule([], posts, os)
  {
  }

  lemma LogIsComplete(log: seq<byte>, os: seq<TrackedOrder>, good: bool, maximum: nat)
    requires LogRule(log, os, [], good, maximum)
    ensures log == LogOf(os)
  {
    assert LogOf(os) + [] == LogOf(os);
  }

  lemma CompleteLogRule(os: seq<TrackedOrder>, tail: seq<byte>, good: bool, maximum: nat)
    requires LogRule(LogOf(os) + tail, os, tail, good, maximum)
    ensures LogRule(LogOf(os), os, [], good, maximum)
  {
    hide PlainDecimal, Fits, LogOf, RecordRule;
    assert LogOf(os) + [] == LogOf(os);
  }

  /** The records that a restart journals obey the flag rule. */
  lemma QuarantineIsSound(os: seq<TrackedOrder>, recovered: seq<TrackedOrder>, generation: uint64, good: bool)
    requires (forall o | o in os :: RecordRule(o, good)) && IsSnapshot(Records(os), recovered)
    ensures forall o | o in QuarantineEach(recovered, generation) :: RecordRule(o, good)
    ensures OrdersRule(QuarantineAll(Records(os), generation), good)
  {
    hide PlainDecimal, LexLess, LastWins, RecordRule, Quarantined;
    RecordsObeyRule(os, good);
    forall h | h in Records(os)
      ensures RecordRule(Quarantined(Records(os)[h], generation), good)
    {
      QuarantineKeepsRule(Records(os)[h], generation, good);
    }
    var q := QuarantineEach(recovered, generation);
    forall o | o in q
      ensures RecordRule(o, good)
    {
      var i :| 0 <= i < |q| && q[i] == o;
      assert recovered[i].hash in Records(os);
    }
  }

  lemma QuarantineKeepsRule(o: TrackedOrder, generation: uint64, good: bool)
    requires RecordRule(o, good)
    ensures RecordRule(Quarantined(o, generation), good)
  {
    hide PlainDecimal, ValidHash, Positive;
  }

  lemma ReopenKeepsSafe(s: System, os: seq<TrackedOrder>, tail: seq<byte>, recovered: seq<TrackedOrder>, good: bool, maximum: nat)
    returns (os': seq<TrackedOrder>)
    requires SaneBound(maximum) && Safe(s, os, tail, good, maximum) && s.up.None? && Recovers(s.log, recovered, maximum)
    ensures Safe(Next(s, Reopen(recovered), maximum), os', [], good, maximum)
  {
    hide PlainDecimal, LogOf, LastWins, Opened, Replayed, IsSnapshot, RestorableAll, WellFiled, OrdersRule, NextGeneration,
         QuarantineEach, QuarantineAll, RecordRule, Fits, Torn, Journaled;
    ReplayLogWithTail(os, tail, maximum);
    RestartOutcome(os, tail, recovered, maximum);
    CompleteLogRule(os, tail, good, maximum);
    assert LogOf(os) + [] == LogOf(os);
    if Opened(s.log, recovered, maximum).1.Ok? {
      var g := NextGeneration(recovered);
      var q := QuarantineEach(recovered, g);
      os' := os + q;
      QuarantineIsSound(os, recovered, g, good);
      RecordsGrow(os, q);
      RulesCarryOver(s, os, os', maximum);
      assert LogOf(os') + [] == LogOf(os');
      assert forall o | o in os' :: o in os || o in q;
    } else {
      os' := os;
    }
  }

  lemma CrashInReopenKeepsSafe(s: System, os: seq<TrackedOrder>, tail: seq<byte>, recovered: seq<TrackedOrder>,
                               bytes: nat, good: bool, maximum: nat)
    returns (os': seq<TrackedOrder>, tail': seq<byte>)
    requires SaneBound(maximum) && Safe(s, os, tail, good, maximum) && s.up.None? && Recovers(s.log, recovered, maximum)
    requires Opened(s.log, recovered, maximum).1.Ok?
    ensures Safe(Next(s, CrashInReopen(recovered, bytes), maximum), os', tail', good, maximum)
  {
    hide PlainDecimal, LogOf, LastWins, Opened, Replayed, IsSnapshot, NextGeneration, Repaired,
         QuarantineEach, QuarantineAll, RecordRule, Fits, Torn, Journaled, Interrupted, OrdersRule;
    ReplayLogWithTail(os, tail, maximum);
    RepairCutsTail(os, tail);
    CompleteLogRule(os, tail, good, maximum);
    var q := QuarantineEach(recovered, NextGeneration(recovered));
    QuarantineIsSound(os, recovered, NextGeneration(recovered), good);
    os', tail' := InterruptedKeepsLog(os, q, bytes, good, maximum);
    RulesCarryOver(s, os, os', maximum);
  }

  lemma NextKeepsSafe(s: System, e: Event, os: seq<TrackedOrder>, tail: seq<byte>, good: bool, maximum: nat)
    returns (os': seq<TrackedOrder>, tail': seq<byte>)
    requires SaneBound(maximum) && Safe(s, os, tail, good, maximum) && (good ==> GoodEvent(e))
    ensures Safe(Next(s, e, maximum), os', tail', good, maximum)
  {
    hide PlainDecimal, AfterSubmit, AfterCallback, Transit, Apply, Opened, Replayed, Interrupted, LogRule, UpRule,
         PostRule, SubmissionRule, IsBatch, Recovers, Repaired;
    os', tail' := os, tail;
    match e {
      case Submit(request) =>
        if s.up.Some? {
          os' := SubmitKeepsSafe(s, os, request, good, maximum);
        }
      case Callback(i, event, message) =>
        if s.up.Some? && i < |s.submissions| {
          os' := CallbackKeepsSafe(s, os, i, event, message, good, maximum);
        }
      case Venue(t, batch) =>
        if s.up.Some? && Apply(s.up.value, t).Ok? && IsBatch(t, Apply(s.up.value, t).value, batch) && !t.Begin? {
          os' := TransitKeepsSafe(s, os, t, batch, good, maximum);
        }
      case Crash(write) =>
        if s.up.Some? {
          os', tail' := CrashKeepsSafe(s, os, write, good, maximum);
        }
      case Reopen(recovered) =>
        if s.up.None? && Recovers(s.log, recovered, maximum) {
          os' := ReopenKeepsSafe(s, os, tail, recovered, good, maximum);
          tail' := [];
        }
      case CrashInReopen(recovered, bytes) =>
        if s.up.None? && Recovers(s.log, recovered, maximum) && Opened(s.log, recovered, maximum).1.Ok? {
          os', tail' := CrashInReopenKeepsSafe(s, os, tail, recovered, bytes, good, maximum);
        }
    }
  }

  lemma InitialIsSafe(good: bool, maximum: nat)
    ensures Safe(INITIAL, [], [], good, maximum)
  {
  }

  lemma {:induction false} RunIsSafe(events: seq<Event>, good: bool, maximum: nat) returns (os: seq<TrackedOrder>, tail: seq<byte>)
    requires SaneBound(maximum) && (good ==> forall e | e in events :: GoodEvent(e))
    ensures Safe(Run(events, maximum), os, tail, good, maximum)
    decreases |events|
  {
    hide Safe, Next;
    if events == [] {
      InitialIsSafe(good, maximum);
      os, tail := [], [];
    } else {
      assert forall e | e in events[..|events| - 1] :: e in events;
      os, tail := RunIsSafe(events[..|events| - 1], good, maximum);
      os, tail := NextKeepsSafe(Run(events[..|events| - 1], maximum), events[|events| - 1], os, tail, good, maximum);
    }
  }

  // ---- Main results ----

  /** Over any run of submissions, callbacks, venue events, crashes at any byte and restarts, each order hash
      causes at most one create POST, and when it is sent a replay of the journal already finds the hash. */
  lemma AtMostOnePostPerHash(events: seq<Event>, maximum: nat)
    requires SaneBound(maximum)
    ensures var posts := Run(events, maximum).posts;
            && (forall i, j | 0 <= i < j < |posts| :: posts[i].hash != posts[j].hash)
            && (forall i | 0 <= i < |posts| :: Journaled(posts[i].log, posts[i].hash, maximum))
  {
    hide Run, Journaled, LogRule, UpRule, SubmissionRule, Records;
    var os, tail := RunIsSafe(events, false, maximum);
  }

  /** In every reachable state the journal replays, every hash that was ever posted is found in it, and the
      published orders are those it names; finished orders are unflagged and uncertain ones flagged. */
  lemma JournalIsAuthoritative(events: seq<Event>, maximum: nat)
    requires SaneBound(maximum)
    ensures var s := Run(events, maximum);
            && (forall i | 0 <= i < |s.posts| :: Journaled(s.log, s.posts[i].hash, maximum))
            && Replayed(s.log, maximum).Ok?
            && (s.up.Some? ==> s.up.value.Keys == Replayed(s.log, maximum).value.orders.Keys && FlagRuleAll(s.up.value))
            && FlagRuleAll(Replayed(s.log, maximum).value.orders)
  {
    hide PlainDecimal, Run, Replayed, SubmissionRule, LastWins, LogOf, Fits, Torn, WellFiled, FlagRule;
    var os, tail := RunIsSafe(events, false, maximum);
    ReplayLogWithTail(os, tail, maximum);
    RecordsObeyRule(os, false);
  }

  lemma RecordsObeyRule(os: seq<TrackedOrder>, good: bool)
    requires forall o | o in os :: RecordRule(o, good)
    ensures OrdersRule(Records(os), good)
  {
    hide PlainDecimal, LastWins, RecordRule;
    forall h | h in Records(os)
      ensures RecordRule(Records(os)[h], good)
    {
      LastWinsPoint(map[], os, h);
    }
  }

  /** When a completed submission is marked rejected, its order was either never posted, in this run or before, or
      was answered with a status that refuses it. */
  lemma RejectionIsCertain(events: seq<Event>, i: nat, e: Trading.OpEvent, message: Text, maximum: nat)
    requires SaneBound(maximum)
    requires var s := Run(events, maximum);
             && s.up.Some? && i < |s.submissions|
             && |Trading.Step(s.submissions[i].op, e).completions| > |s.submissions[i].op.completions|
    ensures var s := Run(events, maximum);
            var c := Trading.Step(s.submissions[i].op, e).completions[|Trading.Step(s.submissions[i].op, e).completions| - 1];
            ResultTransition(s.submissions[i].hash, c, message).Rejection? ==>
              || !Posted(s.posts, s.submissions[i].hash)
              || (c.status.Some? && Trading.Refusal(c.status.value))
  {
    hide PlainDecimal, Run, LogRule, UpRule, PostRule, Records, Trading.Step;
    var os, tail := RunIsSafe(events, false, maximum);
    var op := Run(events, maximum).submissions[i].op;
    Trading.StepKeepsSound(op, e);
    StepDispatch(op, e);
    var op' := Trading.Step(op, e);
    assert op'.completions[|op'.completions| - 1] in op'.completions;
  }

  /** If the venue only ever reports positive amounts and non-negative fills, then after any run, wherever it
      crashed, the journal replays, its orders have a sorted listing, and a restart from that listing succeeds. */
  lemma RestartAlwaysSucceeds(events: seq<Event>, maximum: nat)
    requires SaneBound(maximum) && Run(events, maximum).up.None? && forall e | e in events :: GoodEvent(e)
    ensures Replayed(Run(events, maximum).log, maximum).Ok?
    ensures exists recovered :: IsSnapshot(Replayed(Run(events, maximum).log, maximum).value.orders, recovered)
    ensures forall recovered | IsSnapshot(Replayed(Run(events, maximum).log, maximum).value.orders, recovered) ::
              Next(Run(events, maximum), Reopen(recovered), maximum).up.Some?
  {
    hide PlainDecimal, Run, Replayed, SubmissionRule, PostRule, LastWins, LogOf, Fits, Torn, IsSnapshot, FlagRule, Restorable, Opened;
    var s := Run(events, maximum);
    var os, tail := RunIsSafe(events, true, maximum);
    ReplayLogWithTail(os, tail, maximum);
    ReplayFiles(s.log, maximum);
    var listing := SnapshotExists(Records(os));
    RecordsObeyRule(os, true);
    forall recovered | IsSnapshot(Replayed(s.log, maximum).value.orders, recovered)
      ensures Next(s, Reopen(recovered), maximum).up.Some?
    {
      RestartOutcome(os, tail, recovered, maximum);
    }
  }

  /** The safety results are not met by refusing to trade: in any state, a valid request for an unknown hash whose record
      fits the journal is posted by its first step. */
  lemma FreshOrderIsPosted(s: System, r: CreateRequest, message: Text, maximum: nat)
    requires SaneBound(maximum) && s.up.Some? && r.hash !in s.up.value && ValidateCreate(r).Ok?
    requires TrackedShareAmount(r).Ok? && PlainDecimal(TrackedShareAmount(r).value)
    requires Fits(NewSubmission(r.hash, TrackedShareAmount(r).value), maximum)
    ensures var submitted := Next(s, Submit(r), maximum);
            var first := Callback(|s.submissions|, Trading.Start(false, false, false, Trading.Supplied), message);
            Next(submitted, first, maximum).posts == s.posts + [Post(r.hash, submitted.log)]
  {
    hide PlainDecimal, ValidateCreate, TrackedShareAmount, Fits, Apply, Appended, Trading.Step;
    var o := NewSubmission(r.hash, TrackedShareAmount(r).value);
    FreshBegins(s.up.value, r);
    OneRecordFits(s.log, o, maximum);
    FirstStepPosts();
  }

  /** A valid request for an unknown hash is filed. */
  lemma FreshBegins(orders: Orders, r: CreateRequest)
    requires ValidateCreate(r).Ok? && r.hash !in orders
    ensures TrackedShareAmount(r).Ok? && PlainDecimal(TrackedShareAmount(r).value)
    ensures var t, o := Begin(r.hash, TrackedShareAmount(r).value), NewSubmission(r.hash, TrackedShareAmount(r).value);
            Apply(orders, t) == Ok(orders[r.hash := o]) && !Idle(orders, t) && orders[r.hash := o] != orders
  {
    hide PlainDecimal, ValidateCreate, TrackedShareAmount, Positive, ValidHash;
    ValidRequestsAreTracked(orders, r);
    assert r.hash in orders[r.hash := NewSubmission(r.hash, TrackedShareAmount(r).value)];
  }

  lemma FirstStepPosts()
    ensures Trading.Step(Trading.FRESH, Trading.Start(false, false, false, Trading.Supplied)).posts > Trading.FRESH.posts
  {
  }

  lemma OneRecordFits(log: seq<byte>, o: TrackedOrder, maximum: nat)
    requires SaneBound(maximum) && Fits(o, maximum)
    ensures Appended(log, [o], maximum).1.Ok?
  {
    hide PlainDecimal, Fits, Frame, Frames;
    AppendWrites(log, [o], maximum);
    FirstMisfitSplits([o], maximum);
  }
}
