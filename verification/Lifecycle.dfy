/** The order tracker: a map from order hash to lifecycle record, and the transitions that venue
    responses, wallet events and REST records make on it. */
module Lifecycle {
  import opened Foundations
  import opened ExactDecimals

  datatype OrderState =
    | SubmissionPending | Accepted | Open | PartiallyFilled | Filled | BookRemoved | Cancelled
    | Expired | Rejected | TransactionPending | TransactionFailed | Ambiguous | Unknown

  datatype TrackedOrder = TrackedOrder(
    hash: Text, id: Option<Text>, amount: ExactDecimal, filled: ExactDecimal, state: OrderState,
    flagged: bool, generation: uint64, timestamp: int64, reason: Text)

  type Orders = map<Text, TrackedOrder>

  predicate Terminal(o: TrackedOrder) {
    o.state in {Filled, Cancelled, Expired, Rejected, TransactionFailed}
  }

  predicate IsHexDigit(b: byte) { 48 <= b <= 57 || 65 <= b <= 70 || 97 <= b <= 102 }

  /** `0x` followed by 64 hex digits. */
  predicate ValidHash(h: Text) {
    |h| == 66 && h[0] == 48 && h[1] == 120 && forall i | 2 <= i < 66 :: IsHexDigit(h[i])
  }

  predicate Positive(amount: ExactDecimal) { !IsNegative(amount) && !IsZero(amount) }

  // ---- Inputs ----

  datatype Receipt = Receipt(code: Text, id: Text, hash: Text)

  datatype CreateOutcome = CreateOutcome(ambiguous: bool, receipt: Option<Receipt>, ambiguity: Option<Text>)

  datatype OrderStatus =
    StatusOpen | StatusMatched | StatusCancelled | StatusExpired | StatusInvalidated | StatusFailed | StatusUnknown

  datatype OrderRecord = OrderRecord(
    hash: Text, id: Text, amount: ExactDecimal, filled: ExactDecimal, status: OrderStatus, rawStatus: Text)

  datatype WalletEventType =
    | OrderAccepted | OrderNotAccepted | OrderExpired | OrderCancelled
    | TransactionSubmitted | TransactionSuccess | TransactionFailure | UnknownEvent

  datatype WalletEvent = WalletEvent(
    kind: WalletEventType, rawKind: Text, id: Text, hash: Text, timestamp: int64,
    quantity: ExactDecimal, quantityFilled: ExactDecimal, reason: Option<Text>)

  const AMBIGUOUS_REASON: Text := Ascii("mutation result is ambiguous")
  const REJECTED_REASON: Text := Ascii("order submission rejected")
  const BOOK_REMOVED_REASON: Text := Ascii("removed from off-chain orderbook; on-chain order remains valid")

  // ---- Transitions of one order ----

  /** `derive_fill_state`: a nonzero fill decides between filled and partially filled. */
  function DeriveFill(o: TrackedOrder): TrackedOrder {
    if IsZero(o.filled) then o
    else o.(state := if Compare(o.filled, o.amount) >= 0 then Filled else PartiallyFilled)
  }

  function AfterOutcome(o: TrackedOrder, outcome: CreateOutcome): Result<TrackedOrder> {
    if outcome.ambiguous then
      Ok(o.(state := Ambiguous, flagged := true,
            reason := if outcome.ambiguity.Some? then outcome.ambiguity.value else AMBIGUOUS_REASON))
    else if outcome.receipt.None? || outcome.receipt.value.hash != o.hash then Err(ProtocolError)
    else
      Ok(o.(id := Some(outcome.receipt.value.id), state := Accepted, reason := outcome.receipt.value.code))
  }

  function AfterRejection(o: TrackedOrder, message: Text): Result<TrackedOrder> {
    if o.state != SubmissionPending then Err(ProtocolError)
    else Ok(o.(state := Rejected, flagged := false, reason := if message == [] then REJECTED_REASON else message))
  }

  function AfterRest(o: TrackedOrder, r: OrderRecord): TrackedOrder {
    var base := o.(id := Some(r.id), amount := r.amount, filled := r.filled, reason := r.rawStatus);
    match r.status
    case StatusOpen => DeriveFill(base.(state := Open)).(flagged := false)
    case StatusMatched => base.(state := Filled, flagged := false)
    case StatusCancelled => base.(state := Cancelled, flagged := false)
    case StatusExpired => base.(state := Expired, flagged := false)
    case StatusInvalidated => base.(state := Rejected, flagged := false)
    case StatusFailed => base.(state := Rejected, flagged := false)
    case StatusUnknown => base.(state := Unknown, flagged := true)
  }

  function AfterWallet(o: TrackedOrder, e: WalletEvent): TrackedOrder {
    var base := o.(id := if e.id == [] then o.id else Some(e.id), timestamp := e.timestamp,
                   amount := e.quantity, filled := e.quantityFilled,
                   reason := if e.reason.Some? then e.reason.value else e.rawKind);
    match e.kind
    case OrderAccepted => DeriveFill(base.(state := Open)).(flagged := false)
    case OrderNotAccepted => base.(state := Rejected, flagged := false)
    case OrderExpired => base.(state := Expired, flagged := false)
    case OrderCancelled => base.(state := Cancelled, flagged := false)
    case TransactionSubmitted => base.(state := TransactionPending, flagged := false)
    case TransactionSuccess => DeriveFill(base.(state := Accepted)).(flagged := false)
    case TransactionFailure => base.(state := TransactionFailed, flagged := false)
    case UnknownEvent => base.(state := Unknown, flagged := true)
  }

  function AfterBookRemoval(o: TrackedOrder): TrackedOrder {
    o.(state := BookRemoved, reason := BOOK_REMOVED_REASON, flagged := true)
  }

  function Quarantined(o: TrackedOrder, generation: uint64): TrackedOrder {
    if Terminal(o) then o else o.(flagged := true, generation := generation)
  }

  function NewSubmission(hash: Text, amount: ExactDecimal): TrackedOrder {
    TrackedOrder(hash, None, amount, ZERO, SubmissionPending, false, 0, 0, [])
  }

  // ---- Transitions of the whole tracker ----

  function Update(orders: Orders, hash: Text, o: Result<TrackedOrder>): Result<Orders> {
    match o
    case Ok(order) => Ok(orders[hash := order])
    case Err(code) => Err(code)
  }

  function StartTracking(orders: Orders, hash: Text, amount: ExactDecimal): Result<Orders> {
    if !ValidHash(hash) then Err(InvalidArgument)
    else if !Positive(amount) then Err(InvalidQuantity)
    else if hash in orders then Err(InvalidArgument)
    else Ok(orders[hash := NewSubmission(hash, amount)])
  }

  function ApplyOutcome(orders: Orders, hash: Text, outcome: CreateOutcome): Result<Orders> {
    if hash !in orders then Err(InvalidArgument) else Update(orders, hash, AfterOutcome(orders[hash], outcome))
  }

  /** The second component tells whether anything changed. */
  function Reject(orders: Orders, hash: Text, message: Text): Result<(Orders, bool)> {
    if hash !in orders then Err(InvalidArgument)
    else if orders[hash].state == Rejected then Ok((orders, false))
    else
      match AfterRejection(orders[hash], message)
      case Ok(order) => Ok((orders[hash := order], true))
      case Err(code) => Err(code)
  }

  function ApplyRest(orders: Orders, r: OrderRecord): Result<Orders> {
    if r.hash !in orders then Err(InvalidArgument) else Ok(orders[r.hash := AfterRest(orders[r.hash], r)])
  }

  function ApplyWallet(orders: Orders, e: WalletEvent): Result<Orders> {
    if e.hash !in orders then Err(InvalidArgument) else Ok(orders[e.hash := AfterWallet(orders[e.hash], e)])
  }

  function RemoveFromBook(orders: Orders, hash: Text): Result<Orders> {
    if hash !in orders then Err(InvalidArgument) else Ok(orders[hash := AfterBookRemoval(orders[hash])])
  }

  function QuarantineAll(orders: Orders, generation: uint64): Orders {
    map h | h in orders :: Quarantined(orders[h], generation)
  }

  /** The record of a snapshot that decides a hash: the last one. */
  function LastRecord(snapshot: seq<OrderRecord>, hash: Text): (r: Option<OrderRecord>)
    ensures r.Some? ==> r.value in snapshot && r.value.hash == hash
    ensures r.None? ==> forall x | x in snapshot :: x.hash != hash
  {
    if snapshot == [] then None
    else
      var last := snapshot[|snapshot| - 1];
      if last.hash == hash then Some(last) else LastRecord(snapshot[..|snapshot| - 1], hash)
  }

  /** One order after reconciliation against a complete snapshot. */
  function ReconciledOrder(o: TrackedOrder, generation: uint64, last: Option<OrderRecord>): TrackedOrder {
    match last
    case Some(r) => AfterRest(o, r).(generation := generation)
    case None => Quarantined(o, generation)
  }

  function ReconcileAll(orders: Orders, generation: uint64, snapshot: seq<OrderRecord>): Orders {
    map h | h in orders :: ReconciledOrder(orders[h], generation, LastRecord(snapshot, h))
  }

  function Unresolved(orders: Orders, snapshot: seq<OrderRecord>): set<Text> {
    set h | h in orders && LastRecord(snapshot, h).None? && !Terminal(orders[h])
  }

  function ObservedCount(orders: Orders, snapshot: seq<OrderRecord>): nat {
    if snapshot == [] then 0
    else ObservedCount(orders, snapshot[..|snapshot| - 1]) + (if snapshot[|snapshot| - 1].hash in orders then 1 else 0)
  }

  datatype Report = Report(tracked: nat, observed: nat, unresolved: set<Text>)

  /** What `restore` demands of a recovered record. */
  predicate Restorable(o: TrackedOrder) {
    ValidHash(o.hash) && Positive(o.amount) && !IsNegative(o.filled)
  }

  ghost predicate DistinctHashes(orders: seq<TrackedOrder>) {
    forall i, j | 0 <= i < j < |orders| :: orders[i].hash != orders[j].hash
  }

  /** `snapshot()`: every order once, in increasing hash order. */
  ghost predicate IsSnapshot(orders: Orders, batch: seq<TrackedOrder>) {
    && (forall i | 0 <= i < |batch| :: batch[i].hash in orders && orders[batch[i].hash] == batch[i])
    && (forall i, j | 0 <= i < j < |batch| :: LexLess(batch[i].hash, batch[j].hash))
    && (forall h | h in orders :: exists i :: 0 <= i < |batch| && batch[i].hash == h)
  }

  /** Every order is filed under its own, well-formed hash. */
  ghost predicate WellFiled(orders: Orders) {
    forall h | h in orders :: orders[h].hash == h && ValidHash(h)
  }

  // ---- The in-place tracker ----

  class OrderTracker {
    var orders: Orders

    constructor (initial: Orders)
      ensures orders == initial
    {
      orders := initial;
    }

    method BeginSubmission(hash: Text, amount: ExactDecimal) returns (r: Result<TrackedOrder>)
      modifies this
      ensures match StartTracking(old(orders), hash, amount)
              case Ok(next) => orders == next && r == Ok(next[hash])
              case Err(code) => orders == old(orders) && r == Err(code)
    {
      hide PlainDecimal, IsZero, IsNegative, Compare;
      if !ValidHash(hash) {
        return Err(InvalidArgument);
      }
      if IsNegative(amount) || IsZero(amount) {
        return Err(InvalidQuantity);
      }
      if hash in orders {
        return Err(InvalidArgument);
      }
      orders := orders[hash := TrackedOrder(hash, None, amount, ZERO, SubmissionPending, false, 0, 0, [])];
      r := Ok(orders[hash]);
    }

    method ApplyCreateOutcome(hash: Text, outcome: CreateOutcome) returns (r: Result<bool>)
      modifies this
      ensures match ApplyOutcome(old(orders), hash, outcome)
              case Ok(next) => orders == next && r == Ok(true)
              case Err(code) => orders == old(orders) && r == Err(code)
    {
      hide PlainDecimal, IsZero, IsNegative, Compare;
      if hash !in orders {
        return Err(InvalidArgument);
      }
      var tracked := orders[hash];
      if outcome.ambiguous {
        tracked := tracked.(state := Ambiguous);
        tracked := tracked.(flagged := true);
        tracked := tracked.(reason := if outcome.ambiguity.Some? then outcome.ambiguity.value else AMBIGUOUS_REASON);
        orders := orders[hash := tracked];
        return Ok(true);
      }
      if outcome.receipt.None? {
        return Err(ProtocolError);
      }
      if outcome.receipt.value.hash != tracked.hash {
        return Err(ProtocolError);
      }
      tracked := tracked.(id := Some(outcome.receipt.value.id));
      tracked := tracked.(state := Accepted);
      tracked := tracked.(reason := outcome.receipt.value.code);
      orders := orders[hash := tracked];
      r := Ok(true);
    }

    method MarkSubmissionRejected(hash: Text, message: Text) returns (r: Result<bool>)
      modifies this
      ensures match Reject(old(orders), hash, message)
              case Ok(next) => orders == next.0 && r == Ok(next.1)
              case Err(code) => orders == old(orders) && r == Err(code)
    {
      hide PlainDecimal, IsZero, IsNegative, Compare;
      if hash !in orders {
        return Err(InvalidArgument);
      }
      var tracked := orders[hash];
      if tracked.state == Rejected {
        return Ok(false);
      }
      if tracked.state != SubmissionPending {
        return Err(ProtocolError);
      }
      tracked := tracked.(state := Rejected);
      tracked := tracked.(flagged := false);
      tracked := tracked.(reason := if message == [] then REJECTED_REASON else message);
      orders := orders[hash := tracked];
      r := Ok(true);
    }

    /** `derive_fill_state`. */
    method DeriveFillState(order: TrackedOrder) returns (tracked: TrackedOrder)
      ensures tracked == DeriveFill(order)
    {
      hide PlainDecimal, IsZero, Compare;
      tracked := order;
      if !IsZero(tracked.filled) {
        tracked := tracked.(state := if Compare(tracked.filled, tracked.amount) >= 0 then Filled else PartiallyFilled);
      }
    }

    method ApplyRestOrder(record: OrderRecord) returns (r: Result<bool>)
      modifies this
      ensures match ApplyRest(old(orders), record)
              case Ok(next) => orders == next && r == Ok(true)
              case Err(code) => orders == old(orders) && r == Err(code)
    {
      hide PlainDecimal, DeriveFill;
      if record.hash !in orders {
        return Err(InvalidArgument);
      }
      var tracked := orders[record.hash];
      tracked := tracked.(id := Some(record.id));
      tracked := tracked.(amount := record.amount);
      tracked := tracked.(filled := record.filled);
      tracked := tracked.(reason := record.rawStatus);
      match record.status {
        case StatusOpen =>
          tracked := tracked.(state := Open);
          tracked := DeriveFillState(tracked);
        case StatusMatched => tracked := tracked.(state := Filled);
        case StatusCancelled => tracked := tracked.(state := Cancelled);
        case StatusExpired => tracked := tracked.(state := Expired);
        case StatusInvalidated => tracked := tracked.(state := Rejected);
        case StatusFailed => tracked := tracked.(state := Rejected);
        case StatusUnknown =>
          tracked := tracked.(state := Unknown);
          tracked := tracked.(flagged := true);
          orders := orders[record.hash := tracked];
          return Ok(true);
      }
      tracked := tracked.(flagged := false);
      orders := orders[record.hash := tracked];
      r := Ok(true);
    }

    method ApplyWalletEvent(event: WalletEvent) returns (r: Result<bool>)
      modifies this
      ensures match ApplyWallet(old(orders), event)
              case Ok(next) => orders == next && r == Ok(true)
              case Err(code) => orders == old(orders) && r == Err(code)
    {
      hide PlainDecimal, DeriveFill;
      if event.hash !in orders {
        return Err(InvalidArgument);
      }
      var tracked := orders[event.hash];
      tracked := tracked.(id := if event.id == [] then tracked.id else Some(event.id));
      tracked := tracked.(timestamp := event.timestamp);
      tracked := tracked.(amount := event.quantity);
      tracked := tracked.(filled := event.quantityFilled);
      tracked := tracked.(reason := if event.reason.Some? then event.reason.value else event.rawKind);
      match event.kind {
        case OrderAccepted =>
          tracked := tracked.(state := Open);
          tracked := DeriveFillState(tracked);
        case OrderNotAccepted => tracked := tracked.(state := Rejected);
        case OrderExpired => tracked := tracked.(state := Expired);
        case OrderCancelled => tracked := tracked.(state := Cancelled);
        case TransactionSubmitted => tracked := tracked.(state := TransactionPending);
        case TransactionSuccess =>
          tracked := tracked.(state := Accepted);
          tracked := DeriveFillState(tracked);
        case TransactionFailure => tracked := tracked.(state := TransactionFailed);
        case UnknownEvent =>
          tracked := tracked.(state := Unknown);
          tracked := tracked.(flagged := true);
          orders := orders[event.hash := tracked];
          return Ok(true);
      }
      tracked := tracked.(flagged := false);
      orders := orders[event.hash := tracked];
      r := Ok(true);
    }

    method MarkBookRemoved(hash: Text) returns (r: Result<bool>)
      modifies this
      ensures match RemoveFromBook(old(orders), hash)
              case Ok(next) => orders == next && r == Ok(true)
              case Err(code) => orders == old(orders) && r == Err(code)
    {
      hide PlainDecimal, IsZero, IsNegative, Compare;
      if hash !in orders {
        return Err(InvalidArgument);
      }
      orders := orders[hash := orders[hash].(state := BookRemoved, reason := BOOK_REMOVED_REASON, flagged := true)];
      r := Ok(true);
    }

    method RequireReconciliation(generation: uint64)
      modifies this
      ensures orders == QuarantineAll(old(orders), generation)
    {
      hide PlainDecimal, IsZero, IsNegative, Compare;
      var todo := orders.Keys;
      while todo != {}
        invariant orders.Keys == old(orders).Keys && todo <= orders.Keys
        invariant forall h | h in orders ::
          orders[h] == if h in todo then old(orders)[h] else Quarantined(old(orders)[h], generation)
      {
        var h :| h in todo;
        todo := todo - {h};
        var order := orders[h];
        if !Terminal(order) {
          order := order.(flagged := true);
          order := order.(generation := generation);
          orders := orders[h := order];
        }
      }
    }

    /** Applies the snapshot record by record, then quarantines what it did not mention. */
    method Reconcile(generation: uint64, snapshot: seq<OrderRecord>) returns (report: Report)
      modifies this
      ensures orders == ReconcileAll(old(orders), generation, snapshot)
      ensures report == Report(|old(orders)|, ObservedCount(old(orders), snapshot), Unresolved(old(orders), snapshot))
    {
      hide PlainDecimal, LastRecord, AppliedSoFar, ReconciledOrder;
      var tracked := |orders|;
      assert orders.Keys == old(orders).Keys;
      var observed, count := ApplySnapshot(generation, snapshot);
      var todo, unresolved := orders.Keys, {};
      while todo != {}
        invariant orders.Keys == old(orders).Keys && todo <= orders.Keys
        invariant forall h | h in todo ::
          orders[h] == AppliedSoFar(old(orders)[h], generation, LastRecord(snapshot, h))
        invariant forall h | h in orders && h !in todo ::
          orders[h] == ReconciledOrder(old(orders)[h], generation, LastRecord(snapshot, h))
        invariant forall h :: h in unresolved <==> h in Unresolved(old(orders), snapshot) && h !in todo
      {
        var h :| h in todo;
        todo := todo - {h};
        SettleOne(old(orders)[h], generation, LastRecord(snapshot, h));
        if !(Terminal(orders[h]) || h in observed) {
          orders := orders[h := orders[h].(flagged := true, generation := generation)];
          unresolved := unresolved + {h};
        }
      }
      report := Report(tracked, count, unresolved);
    }

    /** The first loop of `reconcile`: each record overwrites the order it names. */
    method ApplySnapshot(generation: uint64, snapshot: seq<OrderRecord>) returns (observed: set<Text>, count: nat)
      modifies this
      ensures orders.Keys == old(orders).Keys
      ensures forall h | h in orders ::
        orders[h] == AppliedSoFar(old(orders)[h], generation, LastRecord(snapshot, h))
      ensures forall h | h in orders :: h in observed <==> LastRecord(snapshot, h).Some?
      ensures count == ObservedCount(old(orders), snapshot)
    {
      hide PlainDecimal, AfterRest, LastRecord, ObservedCount;
      observed, count := {}, 0;
      NoRecords(orders);
      assert snapshot[..0] == [];
      for i := 0 to |snapshot|
        invariant orders.Keys == old(orders).Keys
        invariant count == ObservedCount(old(orders), snapshot[..i])
        invariant forall h | h in orders :: h in observed <==> LastRecord(snapshot[..i], h).Some?
        invariant forall h | h in orders ::
          orders[h] == AppliedSoFar(old(orders)[h], generation, LastRecord(snapshot[..i], h))
      {
        var record := snapshot[i];
        NextRecord(old(orders), snapshot, i);
        if record.hash in orders {
          observed := observed + {record.hash};
          count := count + 1;
          RestOverwrites(old(orders)[record.hash], generation, LastRecord(snapshot[..i], record.hash), record);
          var _ := ApplyRestOrder(record);
          orders := orders[record.hash := orders[record.hash].(generation := generation)];
        }
      }
      assert snapshot[..|snapshot|] == snapshot;
    }

    /** Restores a recovered list, all or nothing. */
    method Restore(recovered: seq<TrackedOrder>) returns (r: Result<bool>)
      modifies this
      ensures r == if (forall o | o in recovered :: Restorable(o)) && DistinctHashes(recovered) then Ok(true)
                   else Err(JournalCorrupt)
      ensures r.Err? ==> orders == old(orders)
      ensures r.Ok? ==> orders.Keys == set o | o in recovered :: o.hash
      ensures r.Ok? ==> forall o | o in recovered :: orders[o.hash] == o
    {
      hide PlainDecimal, IsZero, IsNegative, Compare;
      var next: Orders := map[];
      for i := 0 to |recovered|
        invariant orders == old(orders)
        invariant forall o | o in recovered[..i] :: Restorable(o) && o.hash in next && next[o.hash] == o
        invariant forall h | h in next :: next[h] in recovered[..i] && next[h].hash == h
        invariant DistinctHashes(recovered[..i])
      {
        var order := recovered[i];
        assert order in recovered;
        if !ValidHash(order.hash) || IsNegative(order.amount) || IsZero(order.amount) || IsNegative(order.filled) {
          return Err(JournalCorrupt);
        }
        if order.hash in next {
          var k :| 0 <= k < i && recovered[..i][k] == next[order.hash];
          assert recovered[k].hash == recovered[i].hash;
          return Err(JournalCorrupt);
        }
        next := next[order.hash := order];
        assert recovered[..i + 1] == recovered[..i] + [order];
      }
      assert recovered[..|recovered|] == recovered;
      orders := next;
      r := Ok(true);
    }
  }

  lemma NoRecords(orders: Orders)
    ensures ObservedCount(orders, []) == 0 && forall h :: LastRecord([], h).None?
  {
  }

  /** One more record of the snapshot. */
  lemma NextRecord(orders: Orders, snapshot: seq<OrderRecord>, i: nat)
    requires i < |snapshot|
    ensures forall h :: LastRecord(snapshot[..i + 1], h)
                        == if snapshot[i].hash == h then Some(snapshot[i]) else LastRecord(snapshot[..i], h)
    ensures ObservedCount(orders, snapshot[..i + 1])
         == ObservedCount(orders, snapshot[..i]) + if snapshot[i].hash in orders then 1 else 0
  {
    hide PlainDecimal;
    var front := snapshot[..i + 1];
    assert front[..|front| - 1] == snapshot[..i] && front[|front| - 1] == snapshot[i];
    assert forall h :: LastRecord(front, h) == if snapshot[i].hash == h then Some(snapshot[i]) else LastRecord(snapshot[..i], h);
  }

  /** What is left to do for an order once the snapshot has been applied. */
  lemma SettleOne(o: TrackedOrder, generation: uint64, last: Option<OrderRecord>)
    ensures last.Some? ==> ReconciledOrder(o, generation, last) == AppliedSoFar(o, generation, last)
    ensures last.None? ==> AppliedSoFar(o, generation, last) == o && ReconciledOrder(o, generation, last) == Quarantined(o, generation)
  {
    hide PlainDecimal, AfterRest;
  }

  /** An order while the snapshot is being applied: untouched, or as its latest record left it. */
  function AppliedSoFar(o: TrackedOrder, generation: uint64, last: Option<OrderRecord>): TrackedOrder {
    if last.None? then o else AfterRest(o, last.value).(generation := generation)
  }

  /** A REST record overwrites everything an earlier record of the same order wrote. */
  lemma RestOverwrites(o: TrackedOrder, generation: uint64, last: Option<OrderRecord>, r: OrderRecord)
    ensures AfterRest(AppliedSoFar(o, generation, last), r).(generation := generation)
         == AfterRest(o, r).(generation := generation)
  {
    hide PlainDecimal, AfterRest;
    if last.Some? {
      RestKeeps(o, last.value);
      RestDependsOnlyOn(AppliedSoFar(o, generation, last), o, r);
    }
  }

  lemma RestKeeps(o: TrackedOrder, r: OrderRecord)
    ensures AfterRest(o, r).hash == o.hash
    ensures AfterRest(o, r).timestamp == o.timestamp
    ensures AfterRest(o, r).generation == o.generation
  {
    hide PlainDecimal, IsZero, Compare;
  }

  lemma RestDependsOnlyOn(a: TrackedOrder, b: TrackedOrder, r: OrderRecord)
    requires a.hash == b.hash && a.timestamp == b.timestamp
    ensures AfterRest(a, r) == AfterRest(b, r).(generation := a.generation)
  {
    hide PlainDecimal, IsZero, Compare;
  }
}
