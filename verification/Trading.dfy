/** One create-order mutation: rate-limit wait, a single POST, and a single completion. */
module Trading {
  import opened Foundations
  import opened Lifecycle

  datatype Credentials = CredentialFailure | MissingApiKey | MissingJwt | Supplied

  datatype TransportResult = TransportError(code: ErrorCode) | HttpReply(status: int, decoded: Result<Receipt>)

  /** What the caller's handler receives: a plain error (with the HTTP status, if a response caused it),
      an acknowledgement, or an outcome that may or may not have taken effect. */
  datatype Completion =
    | PlainError(code: ErrorCode, status: Option<int>)
    | Acknowledged(receipt: Receipt)
    | AmbiguousOutcome(cause: ErrorCode)

  datatype Operation = Operation(
    handler: bool, started: bool, waiting: bool, dispatched: bool, awaiting: bool, stopRequested: bool,
    posts: nat, completions: seq<Completion>)

  const FRESH: Operation := Operation(true, false, false, false, false, false, 0, [])

  datatype OpEvent =
    | BodyRefused(code: ErrorCode)
    | Start(expired: bool, mustWait: bool, waitPastDeadline: bool, credentials: Credentials)
    | TimerFired(cancelled: bool, credentials': Credentials)
    | Response(result: TransportResult)
    | RequestStop
    | CancelDelivered

  /** `finish`: the handler is consumed by its first call. */
  function Finish(op: Operation, c: Completion): Operation {
    if op.handler then op.(handler := false, completions := op.completions + [c]) else op
  }

  function Send(op: Operation, credentials: Credentials): Operation {
    if !op.handler then op
    else if op.stopRequested then Finish(op, PlainError(CancelledByCaller, None))
    else if credentials != Supplied then Finish(op, PlainError(AuthenticationRequired, None))
    else op.(dispatched := true, awaiting := true, posts := op.posts + 1)
  }

  /** The status ranges in the order the client tests them. */
  function Verdict(result: TransportResult): Completion {
    match result
    case TransportError(code) => AmbiguousOutcome(code)
    case HttpReply(status, decoded) =>
      if 200 <= status < 300 then
        (match decoded case Ok(receipt) => Acknowledged(receipt) case Err(code) => AmbiguousOutcome(code))
      else if 300 <= status < 400 then PlainError(HttpRedirect, Some(status))
      else if status == 401 || status == 403 then PlainError(AuthenticationRequired, Some(status))
      else if status == 429 then AmbiguousOutcome(RateLimited)
      else if status >= 500 then AmbiguousOutcome(HttpServerError)
      else if status == 410 then PlainError(VenueRejected, Some(status))
      else PlainError(HttpClientError, Some(status))
  }

  /** One callback. A callback that was never registered, or has already run, does nothing. */
  function Step(op: Operation, e: OpEvent): Operation {
    match e
    case BodyRefused(code) =>
      if op.started then op else Finish(op.(started := true), PlainError(code, None))
    case Start(expired, mustWait, waitPastDeadline, credentials) =>
      if op.started then op
      else
        var s := op.(started := true);
        if !s.handler then s
        else if s.stopRequested then Finish(s, PlainError(CancelledByCaller, None))
        else if expired then Finish(s, PlainError(DeadlineExceeded, None))
        else if !mustWait then Send(s, credentials)
        else if waitPastDeadline then Finish(s, PlainError(DeadlineExceeded, None))
        else s.(waiting := true)
    case TimerFired(cancelled, credentials) =>
      if !op.waiting then op
      else
        var s := op.(waiting := false);
        if cancelled then Finish(s, PlainError(CancelledByCaller, None)) else Send(s, credentials)
    case Response(result) =>
      if !op.awaiting then op else Finish(op.(awaiting := false), Verdict(result))
    case RequestStop => op.(stopRequested := true)
    case CancelDelivered =>
      if !op.stopRequested then op
      else if op.dispatched then Finish(op, AmbiguousOutcome(CancelledByCaller))
      else Finish(op, PlainError(CancelledByCaller, None))
  }

  function Run(op: Operation, events: seq<OpEvent>): Operation {
    if events == [] then op else Step(Run(op, events[..|events| - 1]), events[|events| - 1])
  }

  // ---- The in-place operation ----

  class TradingOperation {
    var handler: bool
    var started: bool
    var waiting: bool
    var dispatched: bool
    var awaiting: bool
    var stopRequested: bool
    var posts: nat
    var completions: seq<Completion>

    ghost function View(): Operation
      reads this
    {
      Operation(handler, started, waiting, dispatched, awaiting, stopRequested, posts, completions)
    }

    constructor ()
      ensures View() == FRESH
    {
      handler, started, waiting, dispatched, awaiting, stopRequested := true, false, false, false, false, false;
      posts, completions := 0, [];
    }

    method Complete(c: Completion)
      modifies this
      ensures View() == Finish(old(View()), c)
    {
      if !handler {
        return;
      }
      handler := false;
      completions := completions + [c];
    }

    method SendRequest(credentials: Credentials)
      modifies this
      ensures View() == Send(old(View()), credentials)
    {
      if !handler {
        return;
      }
      if stopRequested {
        Complete(PlainError(CancelledByCaller, None));
        return;
      }
      if credentials != Supplied {
        Complete(PlainError(AuthenticationRequired, None));
        return;
      }
      dispatched := true;
      awaiting := true;
      posts := posts + 1;
    }

    method Begin(expired: bool, mustWait: bool, waitPastDeadline: bool, credentials: Credentials)
      requires !started
      modifies this
      ensures View() == Step(old(View()), Start(expired, mustWait, waitPastDeadline, credentials))
    {
      started := true;
      if !handler {
        return;
      }
      if stopRequested {
        Complete(PlainError(CancelledByCaller, None));
        return;
      }
      if expired {
        Complete(PlainError(DeadlineExceeded, None));
        return;
      }
      if !mustWait {
        SendRequest(credentials);
        return;
      }
      if waitPastDeadline {
        Complete(PlainError(DeadlineExceeded, None));
        return;
      }
      waiting := true;
    }

    method OnTimer(cancelled: bool, credentials: Credentials)
      requires waiting
      modifies this
      ensures View() == Step(old(View()), TimerFired(cancelled, credentials))
    {
      waiting := false;
      if cancelled {
        Complete(PlainError(CancelledByCaller, None));
        return;
      }
      SendRequest(credentials);
    }

    method Handle(result: TransportResult)
      requires awaiting
      modifies this
      ensures View() == Step(old(View()), Response(result))
    {
      awaiting := false;
      if result.TransportError? {
        Complete(AmbiguousOutcome(result.code));
        return;
      }
      var status := result.status;
      if status >= 200 && status < 300 {
        if result.decoded.Err? {
          Complete(AmbiguousOutcome(result.decoded.code));
          return;
        }
        Complete(Acknowledged(result.decoded.value));
        return;
      }
      if status >= 300 && status < 400 {
        Complete(PlainError(HttpRedirect, Some(status)));
        return;
      }
      if status == 401 || status == 403 {
        Complete(PlainError(AuthenticationRequired, Some(status)));
        return;
      }
      if status == 429 || status >= 500 {
        Complete(AmbiguousOutcome(if status == 429 then RateLimited else HttpServerError));
        return;
      }
      Complete(PlainError(if status == 410 then VenueRejected else HttpClientError, Some(status)));
    }

    method OnCancellation()
      requires stopRequested
      modifies this
      ensures View() == Step(old(View()), CancelDelivered)
    {
      if dispatched {
        Complete(AmbiguousOutcome(CancelledByCaller));
      } else {
        Complete(PlainError(CancelledByCaller, None));
      }
    }
  }

  // ---- What every run keeps ----

  /** A status that refuses the order outright. */
  predicate Refusal(status: int) { !(200 <= status < 300) && status != 429 && status < 500 }

  /** A plain error is reported only for a request that was never sent or was answered with a refusal;
      anything else only for a request that was sent. */
  predicate Honest(op: Operation, c: Completion) {
    if c.PlainError? then !op.dispatched || (c.status.Some? && Refusal(c.status.value)) else op.dispatched
  }

  ghost predicate Sound(op: Operation) { Consistent(op) && (op.dispatched && op.handler ==> op.awaiting) }

  ghost predicate Consistent(op: Operation) {
    && op.posts == (if op.dispatched then 1 else 0)
    && (op.handler <==> op.completions == []) && |op.completions| <= 1
    && (!op.started ==> !op.waiting && !op.dispatched)
    && (op.waiting ==> !op.dispatched)
    && (op.awaiting ==> op.dispatched)
    && (forall c | c in op.completions :: Honest(op, c))
  }

  /** The later state of an operation that sends nothing more. */
  predicate Follows(op: Operation, d: Operation) {
    d.posts == op.posts && d.dispatched == op.dispatched && d.stopRequested == op.stopRequested && op.completions <= d.completions
  }

  lemma FinishIsSound(op: Operation, c: Completion)
    requires Consistent(op) && Honest(op, c)
    ensures Sound(Finish(op, c)) && Follows(op, Finish(op, c))
  {
  }

  lemma SendIsSound(op: Operation, credentials: Credentials)
    requires Consistent(op) && op.started && !op.waiting && !op.dispatched
    ensures var d := Send(op, credentials);
            && Sound(d)
            && (Follows(op, d)
                || (op.handler && !op.stopRequested && d.handler && d.posts == op.posts + 1 && d.dispatched && d.stopRequested == op.stopRequested
                    && d.completions == op.completions))
  {
    hide Consistent, Finish, Honest;
    ConsistentMeans(op);
    if op.handler && op.stopRequested {
      FinishIsSound(op, PlainError(CancelledByCaller, None));
    } else if op.handler && credentials != Supplied {
      FinishIsSound(op, PlainError(AuthenticationRequired, None));
    }
  }

  lemma ConsistentMeans(op: Operation)
    requires Consistent(op)
    ensures (op.handler <==> op.completions == []) && (op.posts == if op.dispatched then 1 else 0)
    ensures !op.dispatched ==> forall code, status :: Honest(op, PlainError(code, status))
    ensures op.dispatched ==> forall cause :: Honest(op, AmbiguousOutcome(cause))
    ensures op.handler && op.started && !op.waiting && !op.dispatched ==>
              Sound(op.(dispatched := true, awaiting := true, posts := op.posts + 1))
    ensures (!op.handler ==> Sound(op)) && Consistent(op.(stopRequested := true))
    ensures Consistent(op.(awaiting := false)) && Consistent(op.(waiting := false))
    ensures !op.started ==> Consistent(op.(started := true)) && !op.waiting && !op.dispatched
    ensures op.started && !op.dispatched ==> Consistent(op.(waiting := true))
    ensures (op.waiting ==> !op.dispatched && op.started) && (op.awaiting ==> op.dispatched)
  {
  }

  /** An answer is reported honestly. */
  lemma VerdictIsHonest(op: Operation, result: TransportResult)
    requires op.dispatched
    ensures Honest(op, Verdict(result))
  {
  }

  lemma StepKeepsSound(op: Operation, e: OpEvent)
    requires Sound(op)
    ensures Sound(Step(op, e))
    ensures Step(op, e).posts == op.posts || (op.handler && Step(op, e).posts == op.posts + 1 && Step(op, e).handler)
    ensures op.dispatched ==> Step(op, e).dispatched
    ensures op.stopRequested || op.completions != [] ==> Step(op, e).posts == op.posts
    ensures op.stopRequested ==> Step(op, e).stopRequested
    ensures op.completions <= Step(op, e).completions
  {
    hide Consistent, Finish, Send, Honest, Verdict;
    ConsistentMeans(op);
    match e {
      case BodyRefused(code) =>
        if !op.started {
          var s := op.(started := true);
          ConsistentMeans(s);
          FinishIsSound(s, PlainError(code, None));
        }
      case Start(expired, mustWait, waitPastDeadline, credentials) =>
        if !op.started {
          var s := op.(started := true);
          ConsistentMeans(s);
          FinishIsSound(s, PlainError(CancelledByCaller, None));
          FinishIsSound(s, PlainError(DeadlineExceeded, None));
          SendIsSound(s, credentials);
        }
      case TimerFired(cancelled, credentials) =>
        if op.waiting {
          var s := op.(waiting := false);
          ConsistentMeans(s);
          FinishIsSound(s, PlainError(CancelledByCaller, None));
          SendIsSound(s, credentials);
        }
      case Response(result) =>
        if op.awaiting {
          VerdictIsHonest(op.(awaiting := false), result);
          FinishIsSound(op.(awaiting := false), Verdict(result));
        }
      case CancelDelivered =>
        if op.stopRequested && op.dispatched {
          FinishIsSound(op, AmbiguousOutcome(CancelledByCaller));
        } else if op.stopRequested {
          FinishIsSound(op, PlainError(CancelledByCaller, None));
        }
      case RequestStop =>
    }
  }

  lemma {:induction false} RunKeepsSound(events: seq<OpEvent>)
    ensures Sound(Run(FRESH, events))
    decreases |events|
  {
    if events != [] {
      RunKeepsSound(events[..|events| - 1]);
      StepKeepsSound(Run(FRESH, events[..|events| - 1]), events[|events| - 1]);
    }
  }

  /** Over every sequence of callbacks: at most one POST and at most one completion; once posted, a plain
      error only for a status that is neither 2xx, 429 nor at least 500; never posted, only plain errors. */
  lemma AtMostOnce(events: seq<OpEvent>)
    ensures var op := Run(FRESH, events);
            && op.posts <= 1 && |op.completions| <= 1
            && (op.posts > 0 ==> forall c | c in op.completions && c.PlainError? ::
                  c.status.Some? && Refusal(c.status.value))
            && (op.posts == 0 ==> forall c | c in op.completions :: c.PlainError?)
  {
    RunKeepsSound(events);
  }

  // ---- What an answer means ----

  /** How the client classifies an answer, status by status. */
  ghost predicate Classifies(result: TransportResult, c: Completion) {
    && (forall x :: c == Acknowledged(x) <==> result.HttpReply? && 200 <= result.status < 300 && result.decoded == Ok(x))
    && (c.PlainError? <==> result.HttpReply? && Refusal(result.status))
    && (c.PlainError? ==> && c.status == Some(result.status)
                          && (c.code == HttpRedirect <==> 300 <= result.status < 400)
                          && (c.code == AuthenticationRequired <==> result.status in {401, 403})
                          && (c.code == VenueRejected <==> result.status == 410)
                          && c.code in {HttpRedirect, AuthenticationRequired, VenueRejected, HttpClientError})
    && (c.AmbiguousOutcome? && result.TransportError? ==> c.cause == result.code)
    && (c.AmbiguousOutcome? && result.HttpReply? && 200 <= result.status < 300 ==> result.decoded == Err(c.cause))
    && (c.AmbiguousOutcome? && result.HttpReply? && !(200 <= result.status < 300) ==>
          c.cause == if result.status == 429 then RateLimited else HttpServerError)
  }

  /** After any callbacks, an operation that has posted and not completed completes with the answer to its POST: it is
      acknowledged exactly for a 2xx status with a receipt, and with that receipt; it fails plainly exactly for a refusal,
      with that status; and it is ambiguous otherwise, for the reason the answer gives. */
  lemma ResponseDecides(events: seq<OpEvent>, result: TransportResult)
    requires var op := Run(FRESH, events); op.posts > 0 && op.completions == []
    ensures var after := Run(FRESH, events + [Response(result)]);
            |after.completions| == 1 && Classifies(result, after.completions[0])
  {
    RunKeepsSound(events);
    assert (events + [Response(result)])[..|events|] == events;
    AnswerCompletes(Run(FRESH, events), result);
  }

  lemma AnswerCompletes(op: Operation, result: TransportResult)
    requires Sound(op) && op.dispatched && op.completions == []
    ensures var after := Step(op, Response(result));
            && |after.completions| == 1 && Classifies(result, after.completions[0])
            && after == op.(awaiting := false, handler := false, completions := after.completions)
  {
    VerdictClassifies(result);
  }

  lemma VerdictClassifies(result: TransportResult)
    ensures Classifies(result, Verdict(result))
  {
  }

  // ---- When a request is posted, and what ends one that is not ----

  predicate IsStart(e: OpEvent) { e.Start? || e.BodyRefused? }

  /** What an operation knows of its past. */
  lemma {:induction false} RemembersEvents(events: seq<OpEvent>)
    ensures var op := Run(FRESH, events);
            && (op.stopRequested <==> RequestStop in events)
            && (op.started <==> exists e :: e in events && IsStart(e))
            && (op.handler <==> op.completions == [])
    decreases |events|
  {
    if events != [] {
      var before, e := events[..|events| - 1], events[|events| - 1];
      RemembersEvents(before);
      RunKeepsSound(events);
      assert forall x :: x in events <==> x in before || x == e;
      StepRemembers(Run(FRESH, before), e);
    }
  }

  lemma FinishKeeps(op: Operation, c: Completion)
    ensures Finish(op, c).stopRequested == op.stopRequested && Finish(op, c).started == op.started
  {
  }

  lemma SendKeeps(op: Operation, credentials: Credentials)
    ensures Send(op, credentials).stopRequested == op.stopRequested && Send(op, credentials).started == op.started
  {
  }

  lemma StepRemembers(op: Operation, e: OpEvent)
    ensures Step(op, e).stopRequested <==> op.stopRequested || e == RequestStop
    ensures Step(op, e).started <==> op.started || IsStart(e)
  {
    hide Verdict, Finish, Send;
    var s := op.(started := true);
    match e {
      case BodyRefused(code) => FinishKeeps(s, PlainError(code, None));
      case Start(_, _, _, credentials) =>
        FinishKeeps(s, PlainError(CancelledByCaller, None));
        FinishKeeps(s, PlainError(DeadlineExceeded, None));
        SendKeeps(s, credentials);
      case TimerFired(_, credentials) =>
        FinishKeeps(op.(waiting := false), PlainError(CancelledByCaller, None));
        SendKeeps(op.(waiting := false), credentials);
      case Response(result) => FinishKeeps(op.(awaiting := false), Verdict(result));
      case CancelDelivered =>
        FinishKeeps(op, AmbiguousOutcome(CancelledByCaller));
        FinishKeeps(op, PlainError(CancelledByCaller, None));
      case RequestStop =>
    }
  }

  /** The start that sends at once, and the one that waits for the rate limiter first. */
  predicate SendsAtOnce(e: OpEvent) { e.Start? && !e.expired && !e.mustWait && e.credentials == Supplied }

  predicate Waits(e: OpEvent) { e.Start? && !e.expired && e.mustWait && !e.waitPastDeadline }

  /** A POST is sent by the first start of an operation, unless it must wait or has no credentials, or by the timer it
      waits for; never after a stop request or a completion. */
  lemma PostsExactlyWhen(events: seq<OpEvent>, e: OpEvent)
    ensures var op, after := Run(FRESH, events), Run(FRESH, events + [e]);
            after.posts > op.posts <==>
              && RequestStop !in events && op.completions == []
              && ((SendsAtOnce(e) && forall x | x in events :: !IsStart(x))
                  || (op.waiting && e.TimerFired? && !e.cancelled && e.credentials' == Supplied))
  {
    RunKeepsSound(events);
    RemembersEvents(events);
    assert (events + [e])[..|events|] == events;
    StepPosts(Run(FRESH, events), e);
  }

  lemma StepPosts(op: Operation, e: OpEvent)
    requires Sound(op)
    ensures Step(op, e).posts > op.posts <==>
              && !op.stopRequested && op.completions == []
              && ((SendsAtOnce(e) && !op.started) || (op.waiting && e.TimerFired? && !e.cancelled && e.credentials' == Supplied))
  {
  }

  /** An operation waits exactly from a start that must wait until its timer. */
  lemma WaitsExactlyWhen(events: seq<OpEvent>, e: OpEvent)
    ensures var op, after := Run(FRESH, events), Run(FRESH, events + [e]);
            after.waiting <==>
              if op.waiting then !e.TimerFired?
              else Waits(e) && RequestStop !in events && op.completions == [] && forall x | x in events :: !IsStart(x)
  {
    RunKeepsSound(events);
    RemembersEvents(events);
    assert (events + [e])[..|events|] == events;
    StepWaits(Run(FRESH, events), e);
  }

  lemma StepWaits(op: Operation, e: OpEvent)
    requires Sound(op)
    ensures Step(op, e).waiting <==>
              if op.waiting then !e.TimerFired? else Waits(e) && !op.stopRequested && op.completions == [] && !op.started
  {
  }

  /** The error of a request that ends without having been sent. */
  ghost predicate Unsent(op: Operation, e: OpEvent, c: Completion) {
    match e
    case BodyRefused(code) => c == PlainError(code, None)
    case Start(expired, mustWait, _, _) =>
      c == PlainError(if op.stopRequested then CancelledByCaller
                      else if expired || mustWait then DeadlineExceeded else AuthenticationRequired, None)
    case TimerFired(cancelled, _) =>
      c == PlainError(if cancelled || op.stopRequested then CancelledByCaller else AuthenticationRequired, None)
    case _ => c == PlainError(CancelledByCaller, None)
  }

  /** Every start and every timer of an unfinished operation posts, waits or completes; and what completes an operation
      without an answer says why: a cancellation is ambiguous exactly when the request was already out. */
  lemma NothingIsLost(events: seq<OpEvent>, e: OpEvent)
    requires Run(FRESH, events).completions == [] && !e.Response?
    ensures var op, after := Run(FRESH, events), Run(FRESH, events + [e]);
            && ((IsStart(e) && !op.started) || (e.TimerFired? && op.waiting) ==>
                  after.posts > op.posts || after.waiting || after.completions != [])
            && (e == CancelDelivered && RequestStop in events ==> after.completions != [])
            && (after.completions != [] ==>
                  if op.posts > 0 then e == CancelDelivered && after.completions == [AmbiguousOutcome(CancelledByCaller)]
                  else Unsent(op, e, after.completions[0]))
  {
    RunKeepsSound(events);
    RemembersEvents(events);
    assert (events + [e])[..|events|] == events;
    StepEnds(Run(FRESH, events), e);
  }

  lemma StepEnds(op: Operation, e: OpEvent)
    requires Sound(op) && op.completions == [] && !e.Response?
    ensures var after := Step(op, e);
            && ((IsStart(e) && !op.started) || (e.TimerFired? && op.waiting) ==>
                  after.posts > op.posts || after.waiting || after.completions != [])
            && (e == CancelDelivered && op.stopRequested ==> after.completions != [])
            && (after.completions != [] ==>
                  if op.dispatched then e == CancelDelivered && after.completions == [AmbiguousOutcome(CancelledByCaller)]
                  else Unsent(op, e, after.completions[0]))
  {
  }

  /** Nothing is posted after a stop request or after the completion. */
  lemma {:induction false} NoPostAfterStop(before: seq<OpEvent>, after: seq<OpEvent>)
    requires var op := Run(FRESH, before); op.stopRequested || op.completions != []
    ensures Run(FRESH, before + after).posts == Run(FRESH, before).posts
    decreases |after|
  {
    if after == [] {
      assert before + after == before;
    } else {
      var front := after[..|after| - 1];
      NoPostAfterStop(before, front);
      StaysClosed(before, front);
      assert (before + after)[..|before + after| - 1] == before + front;
      RunKeepsSound(before + front);
      StepKeepsSound(Run(FRESH, before + front), after[|after| - 1]);
    }
  }

  lemma {:induction false} StaysClosed(before: seq<OpEvent>, after: seq<OpEvent>)
    requires var op := Run(FRESH, before); op.stopRequested || op.completions != []
    ensures var op := Run(FRESH, before + after); op.stopRequested || op.completions != []
    decreases |after|
  {
    if after == [] {
      assert before + after == before;
    } else {
      var front := after[..|after| - 1];
      StaysClosed(before, front);
      assert (before + after)[..|before + after| - 1] == before + front;
      RunKeepsSound(before + front);
      StepKeepsSound(Run(FRESH, before + front), after[|after| - 1]);
    }
  }
}
