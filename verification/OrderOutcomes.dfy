/** What a submission, a venue answer and a venue event leave of an order, in the published map and in the journal, after
    any run. */
module OrderOutcomes {
  import opened Foundations
  import opened Numerals
  import opened ExactDecimals
  import opened Lifecycle
  import opened Transitions
  import opened ShareAmounts
  import opened Journal
  import opened PersistentTracker
  import opened Durability
  import opened Session
  import opened SessionSafety
  import opened Agreement
  import Trading

  /** The order is published as `o`, and a replay of the journal gives `o` as well. */
  ghost predicate Recorded(s: System, h: Text, o: TrackedOrder, maximum: nat) {
    && s.up.Some? && h in s.up.value && s.up.value[h] == o
    && Replayed(s.log, maximum).Ok? && h in Replayed(s.log, maximum).value.orders
    && Replayed(s.log, maximum).value.orders[h] == o
  }

  /** Everything but the order under `h` is as before. */
  ghost predicate OnlyAt(s: System, s': System, h: Text) {
    && s.up.Some? && s'.up.Some? && s'.posts == s.posts
    && forall g | g != h :: (g in s'.up.value <==> g in s.up.value) && (g in s.up.value ==> s'.up.value[g] == s.up.value[g])
  }

  ghost predicate Unchanged(s: System, s': System) { s'.up == s.up && s'.log == s.log && s'.posts == s.posts }

  // ---- One transition of one order ----

  /** A transition that is taken is recorded if its record fits, and otherwise leaves no trace. */
  lemma OneIsRecorded(s: System, os: seq<TrackedOrder>, t: Transition, h: Text, o: TrackedOrder, maximum: nat)
    requires SaneBound(maximum) && Base(s, os, maximum) && Target(t) == Some(h) && !Idle(s.up.value, t)
    requires Apply(s.up.value, t).Ok? && h in Apply(s.up.value, t).value && o == Apply(s.up.value, t).value[h]
    ensures var s' := TransitOne(s, t, maximum);
            && s'.submissions == s.submissions
            && if Fits(o, maximum) then Recorded(s', h, o, maximum) && OnlyAt(s, s', h) else s' == s
  {
    hide PlainDecimal, Fits, LogOf, Apply, Records, Idle, Transit, WellFiled, Target, Replayed;
    TransitOutcome(s, os, t, [o], maximum);
    OneMisfit(o, maximum);
    assert [o][..0] == [] && [o][..1] == [o] && os + [] == os;
    SingleEffect(s.up.value, os, t, o);
    if Fits(o, maximum) {
      AllFitConcat(os, [o], maximum);
      CompleteLogReplays(os + [o], maximum);
    }
  }

  /** A transition that is refused, or idle, changes nothing. */
  lemma OneIsRefused(s: System, t: Transition, maximum: nat)
    requires s.up.Some? && Target(t).Some? && (Apply(s.up.value, t).Err? || Idle(s.up.value, t))
    ensures TransitOne(s, t, maximum) == s
  {
    hide PlainDecimal, Apply, Appended;
  }

  // ---- Submitting ----

  /** The shares a request trades, in wei: what a buyer receives and what a seller offers. */
  function TradedShares(r: CreateRequest): nat { if r.side == Buy then r.taker else r.maker }

  /** The requests that are submitted at all. */
  predicate Acceptable(r: CreateRequest) {
    && ValidHash(r.hash) && 1 <= r.signatureLength <= 200 && r.side in {Buy, Sell} && !r.signatureType.UnknownSignature?
    && r.price > 0 && r.maker > 0 && r.taker > 0 && !(r.market && r.postOnly)
  }

  /** The decimal text denotes `n / 10^18`. */
  ghost predicate DenotesWei(a: ExactDecimal, n: nat) {
    Scale(a) <= 18 && Numerator(a) * Pow10(18 - Scale(a)) == n
  }

  /** A new order waiting for its answer, for as many shares as the request trades, none of them filled. */
  ghost predicate Submitted(o: TrackedOrder, r: CreateRequest) {
    && o.hash == r.hash && o.id == None && o.state == SubmissionPending && !o.flagged && o.generation == 0
    && DenotesWei(o.amount, TradedShares(r)) && Numerator(o.filled) == 0
  }

  lemma ValidationDecides(r: CreateRequest)
    ensures ValidateCreate(r).Ok? <==> Acceptable(r)
    ensures ValidateCreate(r) == Err(InvalidPrice) ==> r.price == 0
    ensures ValidateCreate(r) == Err(InvalidQuantity) ==> r.price > 0 && (r.maker == 0 || r.taker == 0)
    ensures ValidateCreate(r).Err? ==> ValidateCreate(r).code in {InvalidArgument, InvalidPrice, InvalidQuantity}
    ensures Acceptable(r.(price := 1, maker := 1, taker := 1)) ==>
              && (r.price == 0 <==> ValidateCreate(r) == Err(InvalidPrice))
              && (r.price > 0 && (r.maker == 0 || r.taker == 0) <==> ValidateCreate(r) == Err(InvalidQuantity))
  {
    hide ValidHash;
  }

  lemma AmountIsTraded(r: CreateRequest)
    requires Acceptable(r)
    ensures TrackedShareAmount(r).Ok? && PlainDecimal(TrackedShareAmount(r).value)
    ensures Submitted(NewSubmission(r.hash, TrackedShareAmount(r).value), r)
  {
    hide PlainDecimal, ProtocolDecimal, ValidHash, Numerator, Scale, Pow10;
    ProtocolDecimalIsExact(TradedShares(r));
    ZeroIsZero();
  }

  /** The request is taken: acceptable, new, and its record fits the journal. */
  ghost predicate Files(s: System, r: CreateRequest, maximum: nat)
    requires s.up.Some?
  {
    hide PlainDecimal, ProtocolDecimal, Acceptable, Fits;
    ProtocolDecimalIsExact(TradedShares(r));
    Acceptable(r) && r.hash !in s.up.value && Fits(NewSubmission(r.hash, ProtocolDecimal(TradedShares(r))), maximum)
  }

  /** After any run: a request is filed exactly when it is acceptable, its hash is not tracked and its record fits. It is
      then published and journaled as a pending order for exactly the shares it trades, and is in flight unsent; otherwise
      nothing changes at all. */
  lemma SubmitIsRecorded(events: seq<Event>, r: CreateRequest, maximum: nat)
    requires SaneBound(maximum) && Run(events, maximum).up.Some?
    ensures var s, s' := Run(events, maximum), Run(events + [Submit(r)], maximum);
            if !Files(s, r, maximum) then s' == s
            else
              && s'.submissions == s.submissions + [Submission(r.hash, Trading.FRESH)]
              && s'.up.Some? && r.hash in s'.up.value && Submitted(s'.up.value[r.hash], r)
              && Recorded(s', r.hash, s'.up.value[r.hash], maximum) && OnlyAt(s, s', r.hash)
  {
    hide Safe, Base, Next, Files, Submitted, Recorded, OnlyAt;
    var s := Run(events, maximum);
    assert (events + [Submit(r)])[..|events|] == events;
    var os, tail := RunIsSafe(events, false, maximum);
    SafeIsBase(s, os, tail, false, maximum);
    SubmitStep(s, os, r, maximum);
  }

  lemma SubmitStep(s: System, os: seq<TrackedOrder>, r: CreateRequest, maximum: nat)
    requires SaneBound(maximum) && Base(s, os, maximum) && s.up.Some?
    ensures var s' := Next(s, Submit(r), maximum);
            if !Files(s, r, maximum) then s' == s
            else
              && s'.submissions == s.submissions + [Submission(r.hash, Trading.FRESH)]
              && s'.up.Some? && r.hash in s'.up.value && Submitted(s'.up.value[r.hash], r)
              && Recorded(s', r.hash, s'.up.value[r.hash], maximum) && OnlyAt(s, s', r.hash)
  {
    hide PlainDecimal, ValidateCreate, TrackedShareAmount, Fits, Submitted, Base, Recorded, Acceptable, TransitOne, Apply, Idle, OnlyAt;
    ValidationDecides(r);
    if Acceptable(r) {
      AmountIsTraded(r);
      AmountIs(r);
      var amount := TrackedShareAmount(r).value;
      var t, o := Begin(r.hash, amount), NewSubmission(r.hash, amount);
      if r.hash !in s.up.value {
        FreshBegins(s.up.value, r);
        OneIsRecorded(s, os, t, r.hash, o, maximum);
        var s1, s' := TransitOne(s, t, maximum), Next(s, Submit(r), maximum);
        RecordedMeans(s1, s', r.hash, o, maximum);
        OnlyAtMeans(s, s1, s', r.hash);
      } else {
        ValidRequestsAreTracked(s.up.value, r);
        BeginIs(s.up.value, r.hash, amount);
        OneIsRefused(s, t, maximum);
      }
    }
  }

  lemma AmountIs(r: CreateRequest)
    requires Acceptable(r)
    ensures TrackedShareAmount(r) == Ok(ProtocolDecimal(TradedShares(r)))
  {
    hide ProtocolDecimal, ValidHash;
  }

  lemma BeginIs(orders: Orders, h: Text, amount: ExactDecimal)
    ensures Apply(orders, Begin(h, amount)) == StartTracking(orders, h, amount)
  {
  }

  /** Only the file and the published orders matter. */
  lemma RecordedMeans(s: System, s': System, h: Text, o: TrackedOrder, maximum: nat)
    ensures Recorded(s, h, o, maximum) ==> s.up.Some? && h in s.up.value && s.up.value[h] == o
    ensures s'.log == s.log && s'.up == s.up && Recorded(s, h, o, maximum) ==> Recorded(s', h, o, maximum)
  {
    hide Replayed;
  }

  lemma OnlyAtMeans(s: System, s1: System, s': System, h: Text)
    ensures s'.up == s1.up && s'.posts == s1.posts && OnlyAt(s, s1, h) ==> OnlyAt(s, s', h)
    ensures s1.up == s.up && s1.posts == s.posts && OnlyAt(s1, s', h) ==> OnlyAt(s, s', h)
  {
  }

  // ---- The answer to a submission ----

  /** What a completion makes of the order it belongs to. */
  function Concluded(o: TrackedOrder, c: Trading.Completion, message: Text): TrackedOrder {
    match c
    case AmbiguousOutcome(_) => o.(state := Ambiguous, flagged := true, reason := message)
    case Acknowledged(x) => o.(state := Accepted, id := Some(x.id), reason := x.code)
    case PlainError(_, _) =>
      o.(state := Rejected, flagged := false, reason := if message == [] then REJECTED_REASON else message)
  }

  /** An acknowledgement must name the order, and a plain error must find it still pending. */
  predicate Taken(o: TrackedOrder, c: Trading.Completion) {
    match c
    case AmbiguousOutcome(_) => true
    case Acknowledged(x) => x.hash == o.hash
    case PlainError(_, _) => o.state == SubmissionPending
  }

  lemma ResultApplies(orders: Orders, h: Text, c: Trading.Completion, message: Text)
    requires WellFiled(orders) && h in orders
    ensures var t := ResultTransition(h, c, message);
            && Target(t) == Some(h)
            && if Taken(orders[h], c) then
                 && Apply(orders, t).Ok? && !Idle(orders, t) && h in Apply(orders, t).value
                 && Apply(orders, t).value[h] == Concluded(orders[h], c, message)
               else Apply(orders, t).Err? || Idle(orders, t)
  {
    hide PlainDecimal, Apply, ValidHash;
    match c {
      case AmbiguousOutcome(_) => OutcomeConcludes(orders, h, CreateOutcome(true, None, Some(message)));
      case Acknowledged(x) => OutcomeConcludes(orders, h, CreateOutcome(false, Some(x), None));
      case PlainError(_, _) => RejectionConcludes(orders, h, message);
    }
  }

  /** The completion, if any, that a callback brings a submission. */
  ghost predicate Completes(s: System, i: nat, e: Trading.OpEvent, c: Trading.Completion) {
    && s.up.Some? && i < |s.submissions|
    && var before, after := s.submissions[i].op.completions, Trading.Step(s.submissions[i].op, e).completions;
       |after| > |before| && c == after[|after| - 1]
  }

  /** After any run, what the completion of a submission leaves of its order, published and journaled alike. Whatever is
      not a plain error or an acknowledgement leaves it flagged; a plain error ends it only while it is pending; an
      acknowledgement for another hash changes nothing. */
  lemma CompletionIsRecorded(events: seq<Event>, i: nat, e: Trading.OpEvent, message: Text, c: Trading.Completion, maximum: nat)
    requires SaneBound(maximum) && Completes(Run(events, maximum), i, e, c)
    ensures var s, s' := Run(events, maximum), Run(events + [Callback(i, e, message)], maximum);
            var h := s.submissions[i].hash;
            && h in s.up.value
            && (!Taken(s.up.value[h], c) ==> Unchanged(s, s'))
            && (Taken(s.up.value[h], c) ==>
                  var a := Concluded(s.up.value[h], c, message);
                  if Fits(a, maximum) then Recorded(s', h, a, maximum) && OnlyAt(s, s', h) else Unchanged(s, s'))
  {
    hide Fits, Safe, Base, Next, Completes, Concluded, Taken, Recorded, OnlyAt, Unchanged;
    var s := Run(events, maximum);
    assert (events + [Callback(i, e, message)])[..|events|] == events;
    var os, tail := RunIsSafe(events, false, maximum);
    CompletesMeans(s, i, e, c);
    SafeIsBase(s, os, tail, false, maximum);
    InFlightIsTracked(s, os, tail, i, maximum);
    CompletionStep(s, os, i, e, message, c, maximum);
  }

  lemma CompletesMeans(s: System, i: nat, e: Trading.OpEvent, c: Trading.Completion)
    requires Completes(s, i, e, c)
    ensures s.up.Some? && i < |s.submissions|
  {
  }

  lemma CompletionStep(s: System, os: seq<TrackedOrder>, i: nat, e: Trading.OpEvent, message: Text, c: Trading.Completion,
                       maximum: nat)
    requires SaneBound(maximum) && Base(s, os, maximum) && Completes(s, i, e, c)
    requires s.submissions[i].hash in s.up.value && WellFiled(s.up.value) && Trading.Sound(s.submissions[i].op)
    ensures var s', h := Next(s, Callback(i, e, message), maximum), s.submissions[i].hash;
            && (!Taken(s.up.value[h], c) ==> Unchanged(s, s'))
            && (Taken(s.up.value[h], c) ==>
                  var a := Concluded(s.up.value[h], c, message);
                  if Fits(a, maximum) then Recorded(s', h, a, maximum) && OnlyAt(s, s', h) else Unchanged(s, s'))
  {
    hide PlainDecimal, Fits, Base, Recorded, Concluded, Taken, TransitOne, Apply, Idle, ResultTransition, Trading.Step, OnlyAt,
         WellFiled, Trading.Sound;
    CompletesOrPosts(s.submissions[i].op, e);
    var sub := s.submissions[i];
    var h, t := sub.hash, ResultTransition(sub.hash, c, message);
    ResultApplies(s.up.value, h, c, message);
    var s1 := s.(submissions := s.submissions[i := sub.(op := Trading.Step(sub.op, e))]);
    BaseIgnores(s, s1, os, maximum);
    if Taken(s.up.value[h], c) {
      var a := Apply(s.up.value, t).value[h];
      OneIsRecorded(s1, os, t, h, a, maximum);
      OnlyAtMeans(s, s1, TransitOne(s1, t, maximum), h);
    } else {
      OneIsRefused(s1, t, maximum);
    }
  }

  lemma InFlightIsTracked(s: System, os: seq<TrackedOrder>, tail: seq<byte>, i: nat, maximum: nat)
    requires Safe(s, os, tail, false, maximum) && s.up.Some? && i < |s.submissions|
    ensures s.submissions[i].hash in s.up.value && WellFiled(s.up.value) && Trading.Sound(s.submissions[i].op)
  {
    hide PlainDecimal, LogRule, Records, WellFiled, OrdersRule, PostRule, Trading.Sound;
    assert s.submissions[i].hash in Records(os).Keys;
  }

  /** A step that completes a submission posts nothing. */
  lemma CompletesOrPosts(op: Trading.Operation, e: Trading.OpEvent)
    requires Trading.Sound(op)
    ensures |Trading.Step(op, e).completions| > |op.completions| ==> Trading.Step(op, e).posts <= op.posts
  {
    hide Trading.Step;
    Trading.StepKeepsSound(op, e);
  }

  lemma BaseIgnores(s: System, s': System, os: seq<TrackedOrder>, maximum: nat)
    requires Base(s, os, maximum) && s'.log == s.log && s'.up == s.up
    ensures Base(s', os, maximum)
  {
    hide PlainDecimal, Fits, LogOf, LastWins, WellFiled;
  }

  /** After any run, when a submission that was posted and has no completion yet gets its answer: a 2xx status with a
      receipt for the order leaves it accepted under the receipt's id, a refusal leaves a pending order rejected, and every
      other answer leaves it flagged as ambiguous; in the published map and in the journal, if the record fits. */
  lemma AnswerIsRecorded(events: seq<Event>, i: nat, result: Trading.TransportResult, message: Text, maximum: nat)
    requires SaneBound(maximum)
    requires var s := Run(events, maximum);
             s.up.Some? && i < |s.submissions| && s.submissions[i].op.posts > 0 && s.submissions[i].op.completions == []
    ensures var s, s' := Run(events, maximum), Run(events + [Callback(i, Trading.Response(result), message)], maximum);
            var h := s.submissions[i].hash;
            && h in s.up.value
            && var o := s.up.value[h];
               var accepted := result.HttpReply? && 200 <= result.status < 300 && result.decoded.Ok?;
               var refused := result.HttpReply? && Trading.Refusal(result.status);
               if (accepted && result.decoded.value.hash != h) || (refused && o.state != SubmissionPending) then Unchanged(s, s')
               else
                 var a := if accepted then
                            o.(state := Accepted, id := Some(result.decoded.value.id), reason := result.decoded.value.code)
                          else if refused then
                            o.(state := Rejected, flagged := false, reason := if message == [] then REJECTED_REASON else message)
                          else o.(state := Ambiguous, flagged := true, reason := message);
                 if Fits(a, maximum) then Recorded(s', h, a, maximum) && OnlyAt(s, s', h) else Unchanged(s, s')
  {
    hide PlainDecimal, Fits, Run, Recorded, OnlyAt, Unchanged, Trading.Step;
    var s, e := Run(events, maximum), Trading.Response(result);
    var os, tail := RunIsSafe(events, false, maximum);
    InFlight(s, os, tail, i, maximum);
    Trading.AnswerCompletes(s.submissions[i].op, result);
    var c := Trading.Step(s.submissions[i].op, e).completions[0];
    CompletionIsRecorded(events, i, e, message, c, maximum);
  }

  lemma InFlight(s: System, os: seq<TrackedOrder>, tail: seq<byte>, i: nat, maximum: nat)
    requires Safe(s, os, tail, false, maximum) && s.up.Some? && i < |s.submissions|
    ensures var h, op := s.submissions[i].hash, s.submissions[i].op;
            && h in s.up.value && s.up.value[h].hash == h && Trading.Sound(op) && (op.posts > 0 <==> op.dispatched)
  {
    hide Safe, PlainDecimal, ValidHash;
    InFlightIsTracked(s, os, tail, i, maximum);
  }

  // ---- What the venue reports later ----

  /** After any run, a venue record, a wallet event or a book removal for a tracked order is published and journaled as
      the tables of `Transitions` say, if the record fits, and otherwise leaves no trace. */
  lemma ReportIsRecorded(events: seq<Event>, t: Transition, a: TrackedOrder, maximum: nat)
    requires SaneBound(maximum) && Run(events, maximum).up.Some? && (t.Rest? || t.Wallet? || t.BookRemoval?)
    requires var orders := Run(events, maximum).up.value;
             Target(t).value in orders && Apply(orders, t).Ok? && a == Apply(orders, t).value[Target(t).value]
    ensures var s, s', h := Run(events, maximum), Run(events + [Venue(t, [a])], maximum), Target(t).value;
            && (if Fits(a, maximum) then Recorded(s', h, a, maximum) && OnlyAt(s, s', h) else Unchanged(s, s'))
            && (t.Rest? ==> FollowsRecord(s.up.value[h], t.record, a))
            && (t.Wallet? ==> FollowsEvent(s.up.value[h], t.event, a))
            && (t.BookRemoval? ==> a == s.up.value[h].(state := BookRemoved, flagged := true, reason := BOOK_REMOVED_REASON))
  {
    hide PlainDecimal, Fits, Safe, Base, Apply, Recorded, OnlyAt, FollowsRecord, FollowsEvent, Transit, TransitOne;
    var s, h := Run(events, maximum), Target(t).value;
    assert (events + [Venue(t, [a])])[..|events|] == events;
    var os, tail := RunIsSafe(events, false, maximum);
    SafeIsBase(s, os, tail, false, maximum);
    ReportApplies(s.up.value, t);
    SingleVenue(s, t, [a], maximum);
    OneIsRecorded(s, os, t, h, a, maximum);
  }

  lemma ReportApplies(orders: Orders, t: Transition)
    requires (t.Rest? || t.Wallet? || t.BookRemoval?) && Target(t).value in orders
    ensures Apply(orders, t).Ok? && Target(t).value in Apply(orders, t).value && !Idle(orders, t)
    ensures var o, a := orders[Target(t).value], Apply(orders, t).value[Target(t).value];
            && (t.Rest? ==> FollowsRecord(o, t.record, a)) && (t.Wallet? ==> FollowsEvent(o, t.event, a))
            && (t.BookRemoval? ==> a == o.(state := BookRemoved, flagged := true, reason := BOOK_REMOVED_REASON))
  {
    hide PlainDecimal, AfterRest, AfterWallet, FollowsRecord, FollowsEvent;
    match t {
      case Rest(r) => RestConcludes(orders[r.hash], r);
      case Wallet(e) => WalletConcludes(orders[e.hash], e);
      case _ =>
    }
  }

  // ---- What settles a doubt ----

  /** A transition that can take the flag off an order: a venue record or event about it with a known status, a snapshot
      that has one, or the rejection of a submission still pending. */
  ghost predicate Settles(t: Transition, h: Text, o: TrackedOrder) {
    match t
    case Rest(r) => r.hash == h && !r.status.StatusUnknown?
    case Wallet(e) => e.hash == h && !e.kind.UnknownEvent?
    case Reconciliation(_, snapshot) =>
      LastRecord(snapshot, h).Some? && !LastRecord(snapshot, h).value.status.StatusUnknown?
    case Rejection(g, _) => g == h && o.state == SubmissionPending
    case _ => false
  }

  ghost predicate SettledBy(a: Attempt, h: Text, o: TrackedOrder) {
    match a
    case Nothing => false
    case Single(t) => Settles(t, h, o)
    case Whole(t, _) => Settles(t, h, o)
  }

  lemma FlagNeedsSettling(orders: Orders, t: Transition, h: Text)
    requires Apply(orders, t).Ok? && h in orders && orders[h].flagged && !Settles(t, h, orders[h])
    ensures h in Apply(orders, t).value && Apply(orders, t).value[h].flagged
  {
    hide PlainDecimal, AfterRest, AfterWallet, ValidHash, Positive;
    match t {
      case Rest(r) =>
        if r.hash == h {
          RestConcludes(orders[h], r);
        }
      case Wallet(e) =>
        if e.hash == h {
          WalletConcludes(orders[h], e);
        }
      case Reconciliation(_, snapshot) =>
        if LastRecord(snapshot, h).Some? {
          RestConcludes(orders[h], LastRecord(snapshot, h).value);
        }
      case _ =>
    }
  }

  /** After any run, whatever happens next while the process stays up, an order in doubt keeps its flag unless the event
      settles it: the venue reports a known status for it, or its own submission, still pending, fails plainly. */
  lemma DoubtStays(events: seq<Event>, e: Event, h: Text, maximum: nat)
    requires SaneBound(maximum)
    requires var s, s' := Run(events, maximum), Run(events + [e], maximum);
             s.up.Some? && s'.up.Some? && h in s.up.value && s.up.value[h].flagged
    ensures var s, s' := Run(events, maximum), Run(events + [e], maximum);
            && h in s'.up.value
            && (!s'.up.value[h].flagged ==> SettledBy(AttemptOf(s, e), h, s.up.value[h]))
  {
    hide PlainDecimal, Safe, Base, Next, AttemptOf, Settles;
    var s := Run(events, maximum);
    assert (events + [e])[..|events|] == events;
    var os, tail := RunIsSafe(events, false, maximum);
    SafeIsBase(s, os, tail, false, maximum);
    PublishesAttempt(s, os, e, maximum);
    match AttemptOf(s, e) {
      case Single(t) => DoubtAfter(s.up.value, t, h);
      case Whole(t, _) => DoubtAfter(s.up.value, t, h);
      case Nothing =>
    }
  }

  lemma DoubtAfter(orders: Orders, t: Transition, h: Text)
    requires h in orders && orders[h].flagged
    ensures Apply(orders, t).Ok? ==> h in Apply(orders, t).value && (!Apply(orders, t).value[h].flagged ==> Settles(t, h, orders[h]))
  {
    hide PlainDecimal, Apply, Settles;
    if Apply(orders, t).Ok? && !Settles(t, h, orders[h]) {
      FlagNeedsSettling(orders, t, h);
    } else if Apply(orders, t).Ok? {
      KeepsHash(orders, t, h);
    }
  }

  lemma KeepsHash(orders: Orders, t: Transition, h: Text)
    requires Apply(orders, t).Ok? && h in orders
    ensures h in Apply(orders, t).value
  {
    hide PlainDecimal, AfterRest, AfterWallet, AfterOutcome, AfterRejection, ValidHash, Positive;
  }

  ghost predicate Publishes(a: Attempt, orders: Orders, next: Orders) {
    match a
    case Nothing => false
    case Single(t) => Apply(orders, t) == Ok(next)
    case Whole(t, _) => Apply(orders, t) == Ok(next)
  }

  /** An event that leaves the process up publishes its attempt whole or not at all. */
  lemma PublishesAttempt(s: System, os: seq<TrackedOrder>, e: Event, maximum: nat)
    requires SaneBound(maximum) && Base(s, os, maximum) && s.up.Some?
    ensures var s' := Next(s, e, maximum);
            s'.up.None? || s'.up == s.up || Publishes(AttemptOf(s, e), s.up.value, s'.up.value)
  {
    hide PlainDecimal, Apply, Base, TransitOne, Transit, IsBatch, ValidateCreate, TrackedShareAmount, Interrupted, Recovers, Opened,
         Trading.Step, ResultTransition;
    match e {
      case Submit(r) =>
        if AttemptOf(s, e).Single? {
          PublishesOne(s, AttemptOf(s, e).t, maximum);
        }
      case Callback(i, event, message) =>
        if i < |s.submissions| && AttemptOf(s, e).Single? {
          var sub := s.submissions[i];
          var s1 := s.(submissions := s.submissions[i := sub.(op := Trading.Step(sub.op, event))]);
          PublishesOne(s1, AttemptOf(s, e).t, maximum);
        }
      case Venue(t, batch) =>
        if !AttemptOf(s, e).Nothing? {
          PublishesBatch(s, t, batch, maximum);
        }
      case _ =>
    }
  }

  lemma PublishesBatch(s: System, t: Transition, batch: seq<TrackedOrder>, maximum: nat)
    requires s.up.Some?
    ensures var s' := Transit(s, t, batch, maximum); s'.up == s.up || (s'.up.Some? && Apply(s.up.value, t) == Ok(s'.up.value))
  {
    hide PlainDecimal, Apply, Appended;
  }

  lemma PublishesOne(s: System, t: Transition, maximum: nat)
    requires s.up.Some? && Target(t).Some?
    ensures var s' := TransitOne(s, t, maximum); s'.up == s.up || (s'.up.Some? && Apply(s.up.value, t) == Ok(s'.up.value))
  {
    hide PlainDecimal, Apply, Transit;
    if Apply(s.up.value, t).Ok? && Target(t).value in Apply(s.up.value, t).value {
      PublishesBatch(s, t, [Apply(s.up.value, t).value[Target(t).value]], maximum);
    }
  }
}
