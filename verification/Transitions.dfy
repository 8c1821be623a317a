/** What every transition of the order tracker keeps. */
module Transitions {
  import opened Foundations
  import opened ExactDecimals
  import opened Lifecycle

  datatype Transition =
    | Begin(hash: Text, amount: ExactDecimal)
    | Outcome(hash: Text, outcome: CreateOutcome)
    | Rejection(hash: Text, message: Text)
    | Rest(record: OrderRecord)
    | Wallet(event: WalletEvent)
    | BookRemoval(hash: Text)
    | Quarantine(generation: uint64)
    | Reconciliation(generation: uint64, snapshot: seq<OrderRecord>)

  function Apply(orders: Orders, t: Transition): Result<Orders> {
    match t
    case Begin(hash, amount) => StartTracking(orders, hash, amount)
    case Outcome(hash, outcome) => ApplyOutcome(orders, hash, outcome)
    case Rejection(hash, message) =>
      (match Reject(orders, hash, message) case Ok(next) => Ok(next.0) case Err(code) => Err(code))
    case Rest(record) => ApplyRest(orders, record)
    case Wallet(event) => ApplyWallet(orders, event)
    case BookRemoval(hash) => RemoveFromBook(orders, hash)
    case Quarantine(generation) => Ok(QuarantineAll(orders, generation))
    case Reconciliation(generation, snapshot) => Ok(ReconcileAll(orders, generation, snapshot))
  }

  /** The one order a transition touches; the last two touch all of them. */
  function Target(t: Transition): Option<Text> {
    match t
    case Begin(hash, _) => Some(hash)
    case Outcome(hash, _) => Some(hash)
    case Rejection(hash, _) => Some(hash)
    case Rest(record) => Some(record.hash)
    case Wallet(event) => Some(event.hash)
    case BookRemoval(hash) => Some(hash)
    case Quarantine(_) => None
    case Reconciliation(_, _) => None
  }

  /** A rejection of an order that is already rejected changes and journals nothing. */
  predicate Idle(orders: Orders, t: Transition) {
    t.Rejection? && t.hash in orders && orders[t.hash].state == Rejected
  }

  /** A transition files its result under the target's hash, touches nothing else, and only `Begin`
      adds a hash, which must be new. */
  lemma ApplyShape(orders: Orders, t: Transition)
    requires WellFiled(orders) && Apply(orders, t).Ok?
    ensures var next := Apply(orders, t).value;
            && WellFiled(next)
            && next.Keys == orders.Keys + (if t.Begin? then {t.hash} else {})
            && (t.Begin? ==> t.hash !in orders && Positive(t.amount))
            && (Target(t).Some? ==> Target(t).value in next && next == orders[Target(t).value := next[Target(t).value]])
            && (Idle(orders, t) ==> next == orders)
  {
    hide PlainDecimal, ValidHash, Positive, AfterOutcome, AfterRejection, AfterRest, AfterWallet, AfterBookRemoval, Quarantined,
         NewSubmission, ReconcileAll, QuarantineAll;
    match t {
      case Begin(hash, amount) => NewIsFiled(hash, amount);
      case Outcome(hash, outcome) =>
        if hash in orders {
          OutcomeKeeps(orders[hash], outcome);
        }
      case Rejection(hash, message) =>
        if hash in orders {
          RejectionKeeps(orders[hash], message);
        }
      case Rest(record) =>
        if record.hash in orders {
          RestKeeps(orders[record.hash], record);
        }
      case Wallet(event) =>
        if event.hash in orders {
          WalletKeeps(orders[event.hash], event);
        }
      case BookRemoval(hash) =>
        if hash in orders {
          RemovalKeeps(orders[hash]);
        }
      case Quarantine(generation) => AllQuarantined(orders, generation);
      case Reconciliation(generation, snapshot) => AllReconciled(orders, generation, snapshot);
    }
  }

  lemma NewIsFiled(hash: Text, amount: ExactDecimal)
    ensures NewSubmission(hash, amount).hash == hash
  {
    hide PlainDecimal;
  }

  lemma OutcomeKeeps(o: TrackedOrder, outcome: CreateOutcome)
    ensures AfterOutcome(o, outcome).Ok? ==> AfterOutcome(o, outcome).value.hash == o.hash
  {
    hide PlainDecimal;
  }

  lemma RejectionKeeps(o: TrackedOrder, message: Text)
    ensures AfterRejection(o, message).Ok? ==> AfterRejection(o, message).value.hash == o.hash
  {
    hide PlainDecimal;
  }

  lemma WalletKeeps(o: TrackedOrder, e: WalletEvent)
    ensures AfterWallet(o, e).hash == o.hash
  {
    hide PlainDecimal, IsZero, Compare;
  }

  lemma RemovalKeeps(o: TrackedOrder)
    ensures AfterBookRemoval(o).hash == o.hash
  {
    hide PlainDecimal;
  }

  lemma AllQuarantined(orders: Orders, generation: uint64)
    ensures QuarantineAll(orders, generation).Keys == orders.Keys
    ensures WellFiled(orders) ==> WellFiled(QuarantineAll(orders, generation))
  {
    hide PlainDecimal, ValidHash;
  }

  lemma AllReconciled(orders: Orders, generation: uint64, snapshot: seq<OrderRecord>)
    ensures ReconcileAll(orders, generation, snapshot).Keys == orders.Keys
    ensures WellFiled(orders) ==> WellFiled(ReconcileAll(orders, generation, snapshot))
  {
    hide PlainDecimal, ValidHash, AfterRest;
    forall h | h in orders
      ensures ReconciledOrder(orders[h], generation, LastRecord(snapshot, h)).hash == orders[h].hash
    {
      var last := LastRecord(snapshot, h);
      if last.Some? {
        RestKeeps(orders[h], last.value);
      }
    }
  }

  /** The refusals of the tracker, each with its code: a hash that is malformed, known twice or unknown, an amount that is
      not positive, and an answer that does not fit the order's state. */
  lemma RefusalsAre(orders: Orders, t: Transition)
    requires WellFiled(orders)
    ensures match t
            case Begin(h, amount) =>
              Apply(orders, t).Err? <==> !ValidHash(h) || !Positive(amount) || h in orders
            case _ => Apply(orders, t).Err? ==> Target(t).Some?
    ensures Apply(orders, t).Err? ==>
              Apply(orders, t).code
              == (match t
                  case Begin(h, amount) => if ValidHash(h) && !Positive(amount) then InvalidQuantity else InvalidArgument
                  case _ => if Target(t).value in orders then ProtocolError else InvalidArgument)
    ensures Target(t).Some? && !t.Begin? && Target(t).value !in orders ==> Apply(orders, t).Err?
  {
    hide PlainDecimal, ValidHash, Positive, AfterRest, AfterWallet;
  }

  /** A hash is `0x` and 64 hexadecimal digits of either case. */
  lemma HashesAre(h: Text)
    ensures ValidHash(h) <==> |h| == 66 && h[..2] == [48, 120] && forall i | 2 <= i < 66 :: h[i] in HEX_DIGITS
  {
    hide IsHexDigit;
    forall i | 2 <= i < |h| ensures IsHexDigit(h[i]) <==> h[i] in HEX_DIGITS {
      HexDigitsAre(h[i]);
    }
  }

  const HEX_DIGITS: Text := [48, 49, 50, 51, 52, 53, 54, 55, 56, 57, 65, 66, 67, 68, 69, 70, 97, 98, 99, 100, 101, 102]

  lemma HexDigitsAre(b: byte)
    ensures IsHexDigit(b) <==> b in HEX_DIGITS
  {
    if 48 <= b <= 57 {
      assert HEX_DIGITS[b - 48] == b;
    } else if 65 <= b <= 70 {
      assert HEX_DIGITS[b - 55] == b;
    } else if 97 <= b <= 102 {
      assert HEX_DIGITS[b - 81] == b;
    }
  }

  /** A record is restored exactly when its hash is well formed, its amount is positive as a number and its fill is not
      negative. */
  lemma RestorableIs(o: TrackedOrder)
    ensures Restorable(o) <==> ValidHash(o.hash) && Numerator(o.amount) > 0 && Numerator(o.filled) >= 0
  {
    hide PlainDecimal, ValidHash, IsZero, IsNegative, Numerator;
    SignTests(o.amount);
    SignTests(o.filled);
  }

  // ---- The reconciliation flag ----

  /** A finished order is never flagged; one whose fate is uncertain always is. */
  predicate FlagRule(o: TrackedOrder) {
    && (Terminal(o) ==> !o.flagged)
    && (o.state in {Ambiguous, Unknown, BookRemoved} ==> o.flagged)
  }

  ghost predicate FlagRuleAll(orders: Orders) { forall h | h in orders :: FlagRule(orders[h]) }

  lemma RestObeysFlagRule(o: TrackedOrder, r: OrderRecord)
    ensures FlagRule(AfterRest(o, r))
    ensures AfterRest(o, r).flagged <==> r.status.StatusUnknown?
  {
    hide PlainDecimal, IsZero, Compare;
  }

  lemma WalletObeysFlagRule(o: TrackedOrder, e: WalletEvent)
    ensures FlagRule(AfterWallet(o, e))
  {
    hide PlainDecimal, IsZero, Compare;
  }

  lemma FlagRulePreserved(orders: Orders, t: Transition)
    requires FlagRuleAll(orders) && Apply(orders, t).Ok?
    ensures FlagRuleAll(Apply(orders, t).value)
  {
    hide PlainDecimal, AfterRest, AfterWallet, ValidHash, IsZero, IsNegative;
    match t {
      case Rest(record) => RestObeysFlagRule(orders[record.hash], record);
      case Wallet(event) => WalletObeysFlagRule(orders[event.hash], event);
      case Reconciliation(generation, snapshot) =>
        forall h | h in orders
          ensures FlagRule(ReconciledOrder(orders[h], generation, LastRecord(snapshot, h)))
        {
          var last := LastRecord(snapshot, h);
          if last.Some? {
            RestObeysFlagRule(orders[h], last.value);
          }
        }
      case _ =>
    }
  }

  // ---- Inputs under which a restart always succeeds ----

  predicate GoodAmounts(amount: ExactDecimal, filled: ExactDecimal) { Positive(amount) && !IsNegative(filled) }

  /** The venue reports positive amounts and non-negative fills. */
  ghost predicate GoodInput(t: Transition) {
    match t
    case Rest(r) => GoodAmounts(r.amount, r.filled)
    case Wallet(e) => GoodAmounts(e.quantity, e.quantityFilled)
    case Reconciliation(_, snapshot) => forall r | r in snapshot :: GoodAmounts(r.amount, r.filled)
    case _ => true
  }

  ghost predicate RestorableAll(orders: Orders) { forall h | h in orders :: Restorable(orders[h]) }

  lemma RestAmounts(o: TrackedOrder, r: OrderRecord)
    ensures AfterRest(o, r).amount == r.amount && AfterRest(o, r).filled == r.filled
  {
    hide PlainDecimal, IsZero, Compare;
  }

  lemma RestorablePreserved(orders: Orders, t: Transition)
    requires WellFiled(orders) && RestorableAll(orders) && GoodInput(t) && Apply(orders, t).Ok?
    ensures RestorableAll(Apply(orders, t).value)
  {
    hide PlainDecimal, AfterRest, ValidHash, IsZero, IsNegative, Compare;
    match t {
      case Begin(hash, amount) =>
        ZeroIsNotNegative();
      case Rest(record) =>
        RestAmounts(orders[record.hash], record);
        RestKeeps(orders[record.hash], record);
      case Reconciliation(generation, snapshot) =>
        forall h | h in orders
          ensures Restorable(ReconciledOrder(orders[h], generation, LastRecord(snapshot, h)))
        {
          var last := LastRecord(snapshot, h);
          if last.Some? {
            RestAmounts(orders[h], last.value);
            RestKeeps(orders[h], last.value);
          }
        }
      case _ =>
    }
  }

  lemma ZeroIsNotNegative()
    ensures !IsNegative(ZERO)
  {
    SignTests(ZERO);
    ZeroIsZero();
  }

  // ---- Fills are compared as numbers ----

  /** For a positive fill the derived state is filled exactly when the fill reaches the amount. */
  lemma DerivedStateIsNumeric(o: TrackedOrder)
    requires Numerator(o.filled) > 0
    ensures DeriveFill(o) == o.(state := if NumericOrder(o.filled, o.amount) >= 0 then Filled else PartiallyFilled)
  {
    hide Compare, IsNegative;
    SignTests(o.filled);
    CompareIsNumeric(o.filled, o.amount);
  }

  /** The fill is not zero and, as a number, reaches the amount. */
  ghost predicate Reaches(filled: ExactDecimal, amount: ExactDecimal) {
    Numerator(filled) != 0 && NumericOrder(filled, amount) >= 0
  }

  lemma DerivedEnds(o: TrackedOrder)
    ensures var d := DeriveFill(o);
            && d == o.(state := d.state)
            && d.state == if Numerator(o.filled) == 0 then o.state
                          else if NumericOrder(o.filled, o.amount) >= 0 then Filled else PartiallyFilled
  {
    hide PlainDecimal, Compare, Numerator, NumericOrder, IsZero;
    SignTests(o.filled);
    CompareIsNumeric(o.filled, o.amount);
  }

  /** Some of the order is filled, and as a number less than its amount. */
  ghost predicate Partial(filled: ExactDecimal, amount: ExactDecimal) {
    Numerator(filled) != 0 && NumericOrder(filled, amount) < 0
  }

  /** What a venue record makes of an order: the record's id, amounts and status text, a flag exactly for an unknown
      status, and a state that each kind of record alone leads to. An open order counts as filled when its fill, as a
      number, reaches its amount; an invalidated one is rejected, never cancelled. */
  ghost predicate FollowsRecord(o: TrackedOrder, r: OrderRecord, a: TrackedOrder) {
    && (a.state == Filled <==> r.status.StatusMatched? || (r.status.StatusOpen? && Reaches(r.filled, r.amount)))
    && (a.state == PartiallyFilled <==> r.status.StatusOpen? && Partial(r.filled, r.amount))
    && (a.state == Open <==> r.status.StatusOpen? && Numerator(r.filled) == 0)
    && (a.state == Cancelled <==> r.status.StatusCancelled?)
    && (a.state == Expired <==> r.status.StatusExpired?)
    && (a.state == Rejected <==> r.status.StatusInvalidated? || r.status.StatusFailed?)
    && (a.state == Unknown <==> r.status.StatusUnknown?) && (a.flagged <==> r.status.StatusUnknown?)
    && a == o.(id := Some(r.id), amount := r.amount, filled := r.filled, reason := r.rawStatus, state := a.state,
               flagged := a.flagged)
  }

  lemma RestConcludes(o: TrackedOrder, r: OrderRecord)
    ensures var a := AfterRest(o, r);
            && FollowsRecord(o, r, a)
            && (Terminal(a) <==> a.state == Filled || !(r.status.StatusOpen? || r.status.StatusUnknown?))
  {
    hide PlainDecimal, DeriveFill, Numerator, NumericOrder;
    DerivedEnds(o.(id := Some(r.id), amount := r.amount, filled := r.filled, reason := r.rawStatus, state := Open));
  }

  /** What a wallet event makes of an order: the event's time, amounts and reason, its id if it has one, a flag exactly
      for an unknown event, and a state that each kind of event alone leads to. */
  ghost predicate FollowsEvent(o: TrackedOrder, e: WalletEvent, a: TrackedOrder) {
    && (a.state == Filled <==>
          (e.kind.OrderAccepted? || e.kind.TransactionSuccess?) && Reaches(e.quantityFilled, e.quantity))
    && (a.state == PartiallyFilled <==>
          (e.kind.OrderAccepted? || e.kind.TransactionSuccess?) && Partial(e.quantityFilled, e.quantity))
    && (a.state == Open <==> e.kind.OrderAccepted? && Numerator(e.quantityFilled) == 0)
    && (a.state == Accepted <==> e.kind.TransactionSuccess? && Numerator(e.quantityFilled) == 0)
    && (a.state == Rejected <==> e.kind.OrderNotAccepted?) && (a.state == Expired <==> e.kind.OrderExpired?)
    && (a.state == Cancelled <==> e.kind.OrderCancelled?)
    && (a.state == TransactionPending <==> e.kind.TransactionSubmitted?)
    && (a.state == TransactionFailed <==> e.kind.TransactionFailure?)
    && (a.state == Unknown <==> e.kind.UnknownEvent?) && (a.flagged <==> e.kind.UnknownEvent?)
    && a == o.(id := if e.id == [] then o.id else Some(e.id), timestamp := e.timestamp, amount := e.quantity,
               filled := e.quantityFilled, reason := if e.reason.Some? then e.reason.value else e.rawKind,
               state := a.state, flagged := a.flagged)
  }

  lemma WalletConcludes(o: TrackedOrder, e: WalletEvent)
    ensures var a := AfterWallet(o, e);
            && FollowsEvent(o, e, a)
            && (Terminal(a) <==> a.state == Filled || e.kind.OrderNotAccepted? || e.kind.OrderExpired?
                                 || e.kind.OrderCancelled? || e.kind.TransactionFailure?)
  {
    hide PlainDecimal, AfterWallet, Numerator, NumericOrder;
    if e.kind.OrderAccepted? || e.kind.TransactionSuccess? {
      WalletConfirms(o, e);
    } else {
      WalletNames(o, e);
    }
  }

  function WalletBase(o: TrackedOrder, e: WalletEvent): TrackedOrder {
    o.(id := if e.id == [] then o.id else Some(e.id), timestamp := e.timestamp, amount := e.quantity,
       filled := e.quantityFilled, reason := if e.reason.Some? then e.reason.value else e.rawKind)
  }

  /** An event that confirms the order decides by its fill. */
  lemma WalletConfirms(o: TrackedOrder, e: WalletEvent)
    requires e.kind.OrderAccepted? || e.kind.TransactionSuccess?
    ensures AfterWallet(o, e)
         == WalletBase(o, e).(flagged := false,
                              state := if Numerator(e.quantityFilled) == 0 then (if e.kind.OrderAccepted? then Open else Accepted)
                                       else if NumericOrder(e.quantityFilled, e.quantity) >= 0 then Filled else PartiallyFilled)
  {
    hide PlainDecimal, DeriveFill, Numerator, NumericOrder;
    DerivedEnds(WalletBase(o, e).(state := if e.kind.OrderAccepted? then Open else Accepted));
  }

  /** Any other event names the state. */
  lemma WalletNames(o: TrackedOrder, e: WalletEvent)
    requires !e.kind.OrderAccepted? && !e.kind.TransactionSuccess?
    ensures var state := match e.kind
                         case OrderNotAccepted => Rejected
                         case OrderExpired => Expired
                         case OrderCancelled => Cancelled
                         case TransactionSubmitted => TransactionPending
                         case TransactionFailure => TransactionFailed
                         case _ => Unknown;
            AfterWallet(o, e) == WalletBase(o, e).(state := state, flagged := state == Unknown)
  {
    hide PlainDecimal, DeriveFill;
  }

  /** A removal from the book leaves the order uncertain: flagged, its fill and amount as they were. */
  lemma RemovalConcludes(o: TrackedOrder)
    ensures var a := AfterBookRemoval(o);
            && a.state == BookRemoved && a.flagged && !Terminal(a)
            && SameTrade(a, o) && a.id == o.id
  {
    hide PlainDecimal;
  }

  // ---- What a create outcome does ----

  /** The order itself, its fill, and when it was last reported, are the same. */
  predicate SameTrade(a: TrackedOrder, o: TrackedOrder) {
    a.hash == o.hash && a.amount == o.amount && a.filled == o.filled && a.generation == o.generation && a.timestamp == o.timestamp
  }

  /** What an outcome makes of its order: uncertain and flagged, or accepted under the receipt's id. */
  predicate OutcomeLeaves(o: TrackedOrder, c: CreateOutcome, a: TrackedOrder) {
    && SameTrade(a, o)
    && (c.ambiguous ==>
          && a.state == Ambiguous && a.flagged && a.id == o.id
          && a.reason == (if c.ambiguity.Some? then c.ambiguity.value else AMBIGUOUS_REASON))
    && (!c.ambiguous ==>
          && a.state == Accepted && a.flagged == o.flagged
          && c.receipt.Some? && a.id == Some(c.receipt.value.id) && a.reason == c.receipt.value.code)
  }

  /** What a rejection makes of its order. */
  predicate RejectionLeaves(o: TrackedOrder, message: Text, a: TrackedOrder) {
    if o.state == Rejected then a == o
    else
      && a.state == Rejected && !a.flagged && a.reason == (if message == [] then REJECTED_REASON else message)
      && SameTrade(a, o) && a.id == o.id
  }

  /** A create outcome is taken for a tracked hash if it is ambiguous or has a receipt for that hash, and for nothing
      else. An ambiguous one leaves the order uncertain and flagged; an acknowledged one leaves it accepted under the
      receipt's id, with everything else, the flag included, as it was. */
  lemma OutcomeConcludes(orders: Orders, h: Text, c: CreateOutcome)
    requires WellFiled(orders)
    ensures Apply(orders, Outcome(h, c)).Ok? <==>
              h in orders && (c.ambiguous || (c.receipt.Some? && c.receipt.value.hash == h))
    ensures Apply(orders, Outcome(h, c)).Ok? ==>
              && h in orders && h in Apply(orders, Outcome(h, c)).value
              && Apply(orders, Outcome(h, c)).value == orders[h := Apply(orders, Outcome(h, c)).value[h]]
              && OutcomeLeaves(orders[h], c, Apply(orders, Outcome(h, c)).value[h])
  {
    hide PlainDecimal, ValidHash;
  }

  /** A rejection is taken while the submission is pending, changes nothing when it was already taken, and is refused in
      every other state; it ends the order unflagged. */
  lemma RejectionConcludes(orders: Orders, h: Text, message: Text)
    ensures Apply(orders, Rejection(h, message)).Ok? <==>
              h in orders && orders[h].state in {SubmissionPending, Rejected}
    ensures Apply(orders, Rejection(h, message)).Ok? ==>
              && h in orders && h in Apply(orders, Rejection(h, message)).value
              && Apply(orders, Rejection(h, message)).value == orders[h := Apply(orders, Rejection(h, message)).value[h]]
              && RejectionLeaves(orders[h], message, Apply(orders, Rejection(h, message)).value[h])
  {
    hide PlainDecimal;
  }

  // ---- Reconciliation ----

  lemma ReconcileIsIdempotent(orders: Orders, generation: uint64, snapshot: seq<OrderRecord>)
    ensures var once := ReconcileAll(orders, generation, snapshot);
            && ReconcileAll(once, generation, snapshot) == once
            && Unresolved(once, snapshot) == Unresolved(orders, snapshot)
  {
    hide PlainDecimal, AfterRest;
    var once := ReconcileAll(orders, generation, snapshot);
    forall h | h in orders
      ensures ReconciledOrder(once[h], generation, LastRecord(snapshot, h)) == once[h]
    {
      var last := LastRecord(snapshot, h);
      if last.Some? {
        RestOverwrites(orders[h], generation, last, last.value);
      }
    }
  }

  /** A reconciliation counts as observed the records, repeated ones included, of hashes it tracks. */
  lemma {:induction false} ObservedAre(orders: Orders, snapshot: seq<OrderRecord>)
    ensures ObservedCount(orders, snapshot) == |Observed(orders, snapshot)|
  {
    hide PlainDecimal;
    if snapshot != [] {
      ObservedAre(orders, snapshot[..|snapshot| - 1]);
      ObservedLast(orders, snapshot);
    }
  }

  /** The positions of the records of tracked hashes. */
  function Observed(orders: Orders, snapshot: seq<OrderRecord>): set<int> {
    set i | 0 <= i < |snapshot| && snapshot[i].hash in orders
  }

  lemma ObservedLast(orders: Orders, snapshot: seq<OrderRecord>)
    requires snapshot != []
    ensures var last := |snapshot| - 1;
            |Observed(orders, snapshot)|
            == |Observed(orders, snapshot[..last])| + if snapshot[last].hash in orders then 1 else 0
  {
    hide PlainDecimal;
    var last := |snapshot| - 1;
    var before := Observed(orders, snapshot[..last]);
    if snapshot[last].hash in orders {
      assert Observed(orders, snapshot) == before + {last};
    } else {
      assert Observed(orders, snapshot) == before;
    }
  }

  /** An order the snapshot does not mention keeps everything but the flag and generation. */
  lemma AbsentOrdersKept(orders: Orders, generation: uint64, snapshot: seq<OrderRecord>, hash: Text)
    requires hash in orders && forall r | r in snapshot :: r.hash != hash
    ensures var o := ReconcileAll(orders, generation, snapshot)[hash];
            && o.(flagged := orders[hash].flagged, generation := orders[hash].generation) == orders[hash]
            && (hash in Unresolved(orders, snapshot) <==> !Terminal(orders[hash]))
            && (hash in Unresolved(orders, snapshot) ==> o.flagged && o.generation == generation)
  {
  }

  /** After reconciliation no order is flagged exactly when the report is complete and every
      deciding record has a known status. */
  lemma CompleteReconciliationClearsFlags(orders: Orders, generation: uint64, snapshot: seq<OrderRecord>)
    requires FlagRuleAll(orders)
    ensures (forall h | h in orders :: !ReconcileAll(orders, generation, snapshot)[h].flagged)
       <==> && Unresolved(orders, snapshot) == {}
            && (forall h | h in orders && LastRecord(snapshot, h).Some? ::
                  !LastRecord(snapshot, h).value.status.StatusUnknown?)
  {
    hide PlainDecimal, AfterRest;
    var next := ReconcileAll(orders, generation, snapshot);
    forall h | h in orders
      ensures next[h].flagged <==>
                match LastRecord(snapshot, h)
                case Some(r) => r.status.StatusUnknown?
                case None => h in Unresolved(orders, snapshot)
    {
      var last := LastRecord(snapshot, h);
      if last.Some? {
        RestObeysFlagRule(orders[h], last.value);
      }
    }
  }
}
