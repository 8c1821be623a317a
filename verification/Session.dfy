/** The durable order session over whole runs: submissions, transport callbacks, venue events, crashes at
    any byte of a journal append, and restarts. */
module Session {
  import opened Foundations
  import opened ExactDecimals
  import opened Lifecycle
  import opened Transitions
  import opened ShareAmounts
  import opened Journal
  import opened PersistentTracker
  import Trading

  // ---- Requests ----

  datatype Side = Buy | Sell | UnknownSide
  datatype SignatureType = Eoa | PolyProxy | GnosisSafe | UnknownSignature

  datatype CreateRequest = CreateRequest(
    hash: Text, signatureLength: nat, side: Side, signatureType: SignatureType, price: nat, maker: nat, taker: nat,
    market: bool, postOnly: bool)

  /** `validate_create_order`. */
  function ValidateCreate(r: CreateRequest): Result<Text> {
    if !ValidHash(r.hash) then Err(InvalidArgument)
    else if r.signatureLength == 0 || r.signatureLength > 200 then Err(InvalidArgument)
    else if r.side == UnknownSide then Err(InvalidArgument)
    else if r.signatureType == UnknownSignature then Err(InvalidArgument)
    else if r.price == 0 then Err(InvalidPrice)
    else if r.maker == 0 || r.taker == 0 then Err(InvalidQuantity)
    else if r.market && r.postOnly then Err(InvalidArgument)
    else Ok(r.hash)
  }

  /** `tracked_share_amount`: a buy receives the taker amount, a sell offers the maker amount. */
  function TrackedShareAmount(r: CreateRequest): Result<Text> {
    if r.side == UnknownSide then Err(InvalidArgument)
    else
      var raw := if r.side == Buy then r.taker else r.maker;
      if raw == 0 then Err(InvalidQuantity) else Ok(ProtocolDecimal(raw))
  }

  /** A valid request always has a positive tracked amount, so only a hash already tracked is refused. */
  lemma ValidRequestsAreTracked(orders: Orders, r: CreateRequest)
    requires ValidateCreate(r).Ok?
    ensures TrackedShareAmount(r).Ok? && PlainDecimal(TrackedShareAmount(r).value)
    ensures StartTracking(orders, r.hash, TrackedShareAmount(r).value).Ok? <==> r.hash !in orders
    ensures r.hash in orders ==> StartTracking(orders, r.hash, TrackedShareAmount(r).value) == Err(InvalidArgument)
  {
    hide PlainDecimal, ProtocolDecimal, IsNegative, IsZero;
    ProtocolDecimalIsPositive(if r.side == Buy then r.taker else r.maker);
  }

  // ---- The system ----

  datatype Submission = Submission(hash: Text, op: Trading.Operation)

  /** A create POST, with the journal as it was at that moment. */
  datatype Post = Post(hash: Text, log: seq<byte>)

  /** The journal on disk, the running process (if any) with its submissions in flight, and every create
      POST that was ever sent. */
  datatype System = System(log: seq<byte>, up: Option<Orders>, submissions: seq<Submission>, posts: seq<Post>)

  const INITIAL: System := System(MAGIC, None, [], [])

  datatype Write = Write(t: Transition, batch: seq<TrackedOrder>, bytes: nat)

  datatype Event =
    | Submit(request: CreateRequest)
    | Callback(index: nat, event: Trading.OpEvent, message: Text)
    | Venue(t: Transition, batch: seq<TrackedOrder>)
    | Crash(write: Option<Write>)
    | Reopen(recovered: seq<TrackedOrder>)
    | CrashInReopen(recovered: seq<TrackedOrder>, bytes: nat)

  /** `on_result`: the transition a completed submission makes. */
  function ResultTransition(hash: Text, c: Trading.Completion, message: Text): Transition {
    match c
    case PlainError(_, _) => Rejection(hash, message)
    case Acknowledged(receipt) => Outcome(hash, CreateOutcome(false, Some(receipt), None))
    case AmbiguousOutcome(_) => Outcome(hash, CreateOutcome(true, None, Some(message)))
  }

  ghost function Transit(s: System, t: Transition, batch: seq<TrackedOrder>, maximum: nat): System
    requires s.up.Some?
  {
    var store := Persisted(Store(s.log, s.up.value), t, batch, maximum).0;
    s.(log := store.log, up := Some(store.orders))
  }

  /** A transition of one order journals that order. */
  ghost function TransitOne(s: System, t: Transition, maximum: nat): System
    requires s.up.Some? && Target(t).Some?
  {
    match Apply(s.up.value, t)
    case Ok(next) => if Target(t).value in next then Transit(s, t, [next[Target(t).value]], maximum) else s
    case Err(_) => s
  }

  ghost function AfterSubmit(s: System, r: CreateRequest, maximum: nat): System
    requires s.up.Some?
  {
    if ValidateCreate(r).Err? || TrackedShareAmount(r).Err? || !PlainDecimal(TrackedShareAmount(r).value) then s
    else
      var s' := TransitOne(s, Begin(r.hash, TrackedShareAmount(r).value), maximum);
      if s'.up.value == s.up.value then s'
      else s'.(submissions := s.submissions + [Submission(r.hash, Trading.FRESH)])
  }

  ghost function AfterCallback(s: System, i: nat, e: Trading.OpEvent, message: Text, maximum: nat): System
    requires s.up.Some? && i < |s.submissions|
  {
    var sub := s.submissions[i];
    var op := Trading.Step(sub.op, e);
    var s' := s.(submissions := s.submissions[i := sub.(op := op)]);
    if op.posts > sub.op.posts then s'.(posts := s.posts + [Post(sub.hash, s.log)])
    else if |op.completions| > |sub.op.completions| then
      TransitOne(s', ResultTransition(sub.hash, op.completions[|op.completions| - 1], message), maximum)
    else s'
  }

  /** The bytes an interrupted append leaves: a prefix of the frames it would have written. */
  ghost function Interrupted(log: seq<byte>, batch: seq<TrackedOrder>, bytes: nat, maximum: nat): seq<byte> {
    var frames := Frames(batch[..FirstMisfit(batch, maximum)]);
    log + frames[..Min(bytes, |frames|)]
  }

  /** One event. An event that the present state does not allow changes nothing. */
  ghost function Next(s: System, e: Event, maximum: nat): System {
    match e
    case Submit(request) => if s.up.Some? then AfterSubmit(s, request, maximum) else s
    case Callback(i, event, message) =>
      if s.up.Some? && i < |s.submissions| then AfterCallback(s, i, event, message, maximum) else s
    case Venue(t, batch) =>
      if s.up.Some? && !t.Begin? && Apply(s.up.value, t).Ok? && IsBatch(t, Apply(s.up.value, t).value, batch)
      then Transit(s, t, batch, maximum) else s
    case Crash(write) =>
      if s.up.None? then s
      else
        var down := s.(up := None, submissions := []);
        (match write
         case None => down
         case Some(w) =>
           if Apply(s.up.value, w.t).Ok? && IsBatch(w.t, Apply(s.up.value, w.t).value, w.batch)
           then down.(log := Interrupted(s.log, w.batch, w.bytes, maximum)) else down)
    case Reopen(recovered) =>
      if s.up.Some? || !Recovers(s.log, recovered, maximum) then s
      else
        var (log, r) := Opened(s.log, recovered, maximum);
        s.(log := log, up := if r.Ok? then Some(r.value) else None)
    case CrashInReopen(recovered, bytes) =>
      if s.up.Some? || !Recovers(s.log, recovered, maximum) || Opened(s.log, recovered, maximum).1.Err? then s
      else
        s.(log := Interrupted(Repaired(s.log, Replayed(s.log, maximum).value),
                              QuarantineEach(recovered, NextGeneration(recovered)), bytes, maximum))
  }

  ghost predicate Recovers(log: seq<byte>, recovered: seq<TrackedOrder>, maximum: nat) {
    Replayed(log, maximum).Ok? && IsSnapshot(Replayed(log, maximum).value.orders, recovered)
  }

  ghost function Run(events: seq<Event>, maximum: nat): System {
    if events == [] then INITIAL else Next(Run(events[..|events| - 1], maximum), events[|events| - 1], maximum)
  }
}
