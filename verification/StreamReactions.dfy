/** How the private stream answers each callback, in every reachable state: which ones take the session down, how it
    comes back, and how it gets from a connection to live data. */
module StreamReactions {
  import opened PrivateStream
  import opened StreamSafety

  // ---- The phases of a client ----

  /** Waiting to dial again, with nothing left of the last session. */
  predicate Down(c: Client) {
    && c.started && c.reconnectPending && c.state == ReconnectWait
    && !c.channel && !c.sessionOpen && !c.awaitingAck && !c.reconciled
  }

  /** A new connection that is not open yet. */
  predicate Dialling(c: Client) {
    && c.started && !c.reconnectPending && c.state == Connecting
    && c.channel && !c.sessionOpen && !c.awaitingAck && !c.reconciled
  }

  /** The state names the phase, and the phase fixes every flag. */
  predicate Phased(c: Client) {
    match c.state
    case Stopped => !c.started && !c.reconnectPending && !c.channel && !c.sessionOpen && !c.awaitingAck && !c.reconciled
    case Connecting => Dialling(c)
    case Subscribing => c.started && !c.reconnectPending && c.channel && c.sessionOpen && c.awaitingAck && !c.reconciled
    case ReconciliationRequired =>
      c.started && !c.reconnectPending && c.channel && c.sessionOpen && !c.awaitingAck && !c.reconciled
    case Live => c.started && !c.reconnectPending && c.channel && c.sessionOpen && !c.awaitingAck && c.reconciled
    case ReconnectWait => Down(c)
    case Degraded => false
  }

  // ---- The handlers, one by one ----

  lemma SetStateIs(o: Options, c: Client, value: StreamState)
    ensures var d := SetState(o, c, value); d == c.(state := value, queue := d.queue)
  {
  }

  lemma ScheduleIs(o: Options, c: Client)
    ensures var d := ScheduleReconnect(o, c);
            && (c.started && !c.reconnectPending ==> Down(d) && d.generation == c.generation && d.nextRequestId == c.nextRequestId)
            && (!c.started || c.reconnectPending ==> d == c)
  {
    hide SetState;
    SetStateIs(o, c.(reconnectPending := true, channel := false, sessionOpen := false, awaitingAck := false,
                     reconciled := false), ReconnectWait);
  }

  lemma StopIs(o: Options, c: Client)
    ensures var d := HardStop(o, c);
            Phased(d) && d.state == Stopped && d.generation == c.generation && d.nextRequestId == c.nextRequestId
  {
    hide SetState;
    SetStateIs(o, c.(started := false, sessionOpen := false, awaitingAck := false, reconciled := false,
                     reconnectPending := false, channel := false), Stopped);
  }

  /** What a dial leaves: the next generation, connecting; or, without a channel or a key, waiting again. */
  predicate Dials(c: Client, d: Client, dial: Dial) {
    d.generation == c.generation + 1 && if dial == Dialled then Dialling(d) else Down(d)
  }

  lemma ConnectIs(o: Options, c: Client, dial: Dial)
    requires c.started
    ensures var d := Connect(o, c, dial); Dials(c, d, dial) && d.nextRequestId == c.nextRequestId
  {
    hide SetState, ScheduleReconnect;
    var n := c.(reconnectPending := false, generation := c.generation + 1, sessionOpen := false, awaitingAck := false,
                reconciled := false);
    SetStateIs(o, n, Connecting);
    var d := SetState(o, n, Connecting);
    ScheduleIs(o, d.(channel := false));
    ScheduleIs(o, d.(channel := true));
  }

  lemma OpenIs(o: Options, c: Client, g: nat, ok: bool, ask: Ask)
    requires Current(c, g) && Dialling(c)
    ensures var d := Opened(o, c, g, ok, ask);
            if ok && ask == Written then
              d == c.(sessionOpen := true, awaitingAck := true, state := Subscribing, pendingRequestId := c.nextRequestId,
                      nextRequestId := c.nextRequestId + 1, queue := d.queue)
            else Down(d) && d.generation == c.generation && d.nextRequestId >= c.nextRequestId
  {
    hide SetState, ScheduleReconnect;
    ScheduleIs(o, c);
    SetStateIs(o, c.(sessionOpen := true), Subscribing);
    var s := SetState(o, c.(sessionOpen := true), Subscribing);
    ScheduleIs(o, s);
    ScheduleIs(o, s.(nextRequestId := s.nextRequestId + 1));
  }

  lemma AnswerIs(o: Options, c: Client, id: nat, success: bool)
    requires Phased(c) && c.started
    ensures var d := HandleResponse(o, c, id, success);
            if c.state == Subscribing && id == c.pendingRequestId && success then
              d == c.(awaitingAck := false, state := ReconciliationRequired, queue := d.queue)
            else Down(d) && d.generation == c.generation && d.nextRequestId == c.nextRequestId
  {
    hide SetState, ScheduleReconnect;
    ScheduleIs(o, c);
    ScheduleIs(o, c.(awaitingAck := false));
    SetStateIs(o, c.(awaitingAck := false, reconciled := false), ReconciliationRequired);
  }

  lemma ReadIs(o: Options, c: Client, g: nat, frame: Frame)
    requires Phased(c) && Current(c, g)
    ensures var d, step := Received(o, c, g, frame), ReadDone(g, frame);
            && d.generation == c.generation && d.nextRequestId == c.nextRequestId
            && (Breaks(o, c, step) ==> Down(d))
            && (!Breaks(o, c, step) ==>
                  match frame
                  case Response(_, _) => d == c.(awaitingAck := false, state := ReconciliationRequired, queue := d.queue)
                  case Wallet(wallet) => d == c.(queue := c.queue + [Data(wallet, c.state == Live, c.generation)])
                  case _ => d == c.(faulted := d.faulted))
  {
    hide SetState, ScheduleReconnect, HandleResponse;
    ScheduleIs(o, c);
    if frame.Response? {
      AnswerIs(o, c, frame.requestId, frame.success);
    }
  }

  lemma ConfirmIs(o: Options, c: Client, g: nat)
    requires Phased(c)
    ensures var d := MarkReconciled(o, c, g);
            if Current(c, g) && c.state == ReconciliationRequired then d == c.(reconciled := true, state := Live, queue := d.queue)
            else d == c
  {
    hide SetState;
    SetStateIs(o, c.(reconciled := true), Live);
  }

  lemma PhaseAfter(o: Options, c: Client, step: Step)
    requires Phased(c) && (step.OpenDone? && Current(c, step.generation) ==> c.state == Connecting)
    ensures Phased(Handled(o, c, step))
  {
    hide SetState, ScheduleReconnect, Connect, HardStop, Opened, Received, MarkReconciled;
    match step {
      case Start(dial) =>
        StopIs(o, c);
        ConnectIs(o, c.(started := true), dial);
      case Stop => StopIs(o, c);
      case Timer(dial) =>
        if c.started {
          ConnectIs(o, c.(reconnectPending := false), dial);
        } else {
          NotStarted(o, c, dial);
        }
      case OpenDone(g, ok, ask) =>
        if Current(c, g) {
          OpenIs(o, c, g, ok, ask);
        } else {
          NotCurrent(o, c, step);
        }
      case ReadDone(g, frame) =>
        if Current(c, g) {
          ReadIs(o, c, g, frame);
        } else {
          NotCurrent(o, c, step);
        }
      case Confirm(g) => ConfirmIs(o, c, g);
      case _ => ScheduleIs(o, c);
    }
  }

  lemma NotStarted(o: Options, c: Client, dial: Dial)
    requires Phased(c) && !c.started
    ensures ReconnectTimer(o, c, dial) == c
  {
  }

  lemma NotCurrent(o: Options, c: Client, step: Step)
    requires FromSession(step) && !Current(c, step.generation)
    ensures Handled(o, c, step) == c
  {
  }

  /** In every reachable state the client is in one of six phases, and is never in the degraded state it announces. */
  lemma {:induction false} RunIsPhased(o: Options, steps: seq<Step>)
    ensures Phased(Run(o, steps).client)
    decreases |steps|
  {
    hide Phased, Handled, Linked, AllCertified, Emitted;
    if steps == [] {
      assert Phased(INITIAL) by { StartsStopped(); }
    } else {
      var before, step := steps[..|steps| - 1], steps[|steps| - 1];
      RunIsPhased(o, before);
      RunIsGood(o, before);
      if Enabled(Run(o, before), step) {
        PhaseAfter(o, Run(o, before).client, step);
      }
    }
  }

  lemma StartsStopped()
    ensures Phased(INITIAL)
  {
  }

  // ---- What takes a session down ----

  /** Callbacks of the current session that end it: a failed open, a subscription that could not be asked for, a frame that
      cannot be read, decoded or answered, an answer that is not the expected yes, a wallet event without room, a failure,
      and a missing answer. */
  predicate Breaks(o: Options, c: Client, step: Step) {
    match step
    case OpenDone(_, ok, ask) => !ok || ask != Written
    case ReadDone(_, ReadFailed) => true
    case ReadDone(_, Malformed) => true
    case ReadDone(_, Heartbeat(encodable)) => !encodable
    case ReadDone(_, Response(id, success)) => c.state != Subscribing || id != c.pendingRequestId || !success
    case ReadDone(_, Wallet(_)) => |c.queue| >= o.maxPending
    case Failure(_) => true
    case AckTimer(_) => c.state == Subscribing
    case _ => false
  }

  predicate FromSession(step: Step) { step.OpenDone? || step.ReadDone? || step.Failure? || step.AckTimer? || step.Confirm? }

  lemma BreakIs(o: Options, c: Client, step: Step)
    requires Phased(c) && FromSession(step) && (step.OpenDone? && Current(c, step.generation) ==> c.state == Connecting)
    ensures var d := Handled(o, c, step);
            && d.generation == c.generation
            && (Down(d) <==> Down(c) || (Current(c, step.generation) && Breaks(o, c, step)))
  {
    hide SetState, ScheduleReconnect, Opened, Received, MarkReconciled;
    if !Current(c, step.generation) {
      NotCurrent(o, c, step);
    } else {
      match step {
        case OpenDone(g, ok, ask) => OpenIs(o, c, g, ok, ask);
        case ReadDone(g, frame) => ReadIs(o, c, g, frame);
        case Confirm(g) => ConfirmIs(o, c, g);
        case _ => ScheduleIs(o, c);
      }
    }
  }

  /** After any run, a callback of a session leaves the client waiting to reconnect exactly when it already was or the
      callback breaks the current session; and it never starts a new generation. */
  lemma SessionEndsExactlyWhen(o: Options, steps: seq<Step>, step: Step)
    requires var w := Run(o, steps); !w.client.faulted && Enabled(w, step) && FromSession(step)
    ensures var c, d := Run(o, steps).client, Run(o, steps + [step]).client;
            && d.generation == c.generation
            && (Down(d) <==> Down(c) || (Current(c, step.generation) && Breaks(o, c, step)))
  {
    hide Handled, Linked, AllCertified, Emitted, Down, Breaks, Phased;
    assert (steps + [step])[..|steps|] == steps;
    RunIsPhased(o, steps);
    RunIsGood(o, steps);
    BreakIs(o, Run(o, steps).client, step);
  }

  // ---- How it dials ----

  lemma DialIs(o: Options, c: Client, step: Step)
    requires Phased(c) && (step.Start? || step.Timer? || step.Stop?)
    ensures var d := Handled(o, c, step);
            match step
            case Start(dial) =>
              if c.started then d == c
              else if o.maxPending > 0 && o.endpointIsValid && o.hasProviders then Dials(c, d, dial)
              else d.state == Stopped && d.generation == c.generation
            case Timer(dial) => if c.started then Dials(c, d, dial) else d == c
            case _ => d.state == Stopped && d.generation == c.generation
  {
    hide SetState, Connect, HardStop;
    StopIs(o, c);
    match step {
      case Start(dial) => ConnectIs(o, c.(started := true), dial);
      case Timer(dial) =>
        if c.started {
          ConnectIs(o, c.(reconnectPending := false), dial);
        } else {
          NotStarted(o, c, dial);
        }
      case _ =>
    }
  }

  /** After any run: a start dials unless the client runs or its options are unusable, the reconnect timer dials while it
      runs, and a stop always stops it. */
  lemma DialsExactlyWhen(o: Options, steps: seq<Step>, step: Step)
    requires !Run(o, steps).client.faulted && (step.Start? || step.Timer? || step.Stop?)
    ensures var c, d := Run(o, steps).client, Run(o, steps + [step]).client;
            match step
            case Start(dial) =>
              if c.started then d == c
              else if o.maxPending > 0 && o.endpointIsValid && o.hasProviders then Dials(c, d, dial)
              else d.state == Stopped && d.generation == c.generation
            case Timer(dial) => if c.started then Dials(c, d, dial) else d == c
            case _ => d.state == Stopped && d.generation == c.generation
  {
    hide Handled, Dials, Phased, Emitted;
    assert (steps + [step])[..|steps|] == steps;
    RunIsPhased(o, steps);
    DialIs(o, Run(o, steps).client, step);
  }

  // ---- From a connection to live data ----

  /** The steps that bring a session forward, and what they leave. */
  predicate Forward(o: Options, c: Client, step: Step, d: Client) {
    match step
    case OpenDone(_, true, Written) =>
      d.state == Subscribing && d.pendingRequestId == c.nextRequestId && d.nextRequestId == c.nextRequestId + 1
    case ReadDone(_, Response(id, true)) =>
      c.state == Subscribing && id == c.pendingRequestId ==> d.state == ReconciliationRequired
    case ReadDone(_, Wallet(wallet)) =>
      |c.queue| < o.maxPending ==> d == c.(queue := c.queue + [Data(wallet, c.state == Live, c.generation)])
    case ReadDone(_, Heartbeat(true)) => d.(faulted := c.faulted) == c
    case AckTimer(_) => c.state != Subscribing ==> d == c
    case Confirm(_) => if c.state == ReconciliationRequired then d.state == Live else d == c
    case _ => true
  }

  lemma ForwardIs(o: Options, c: Client, step: Step)
    requires Phased(c) && FromSession(step) && Current(c, step.generation) && (step.OpenDone? ==> c.state == Connecting)
    ensures Forward(o, c, step, Handled(o, c, step))
  {
    hide SetState, ScheduleReconnect, Opened, Received, MarkReconciled;
    match step {
      case OpenDone(g, ok, ask) => OpenIs(o, c, g, ok, ask);
      case ReadDone(g, frame) => ReadIs(o, c, g, frame);
      case Confirm(g) => ConfirmIs(o, c, g);
      case _ =>
    }
  }

  /** After any run, each step of the current session that does not break it brings it one phase forward, or changes
      nothing but the queue: a written request is awaited under a new id, its answer asks for reconciliation, and the
      mark that follows makes the stream live; a wallet event is queued as reconciled exactly while it is live. */
  lemma SessionAdvances(o: Options, steps: seq<Step>, step: Step)
    requires var w := Run(o, steps);
             !w.client.faulted && Enabled(w, step) && FromSession(step) && Current(w.client, step.generation)
    ensures Forward(o, Run(o, steps).client, step, Run(o, steps + [step]).client)
  {
    hide Handled, Linked, AllCertified, Emitted, Forward, Phased;
    assert (steps + [step])[..|steps|] == steps;
    RunIsPhased(o, steps);
    RunIsGood(o, steps);
    ForwardIs(o, Run(o, steps).client, step);
  }

  // ---- Request ids ----

  /** Every request was asked for under a larger id than the ones before it. */
  ghost predicate FreshIds(log: seq<Mark>, next: nat) {
    && (forall i | 0 <= i < |log| && log[i].Asked? :: log[i].requestId < next)
    && (forall i, j | 0 <= i < j < |log| && log[i].Asked? && log[j].Asked? :: log[i].requestId < log[j].requestId)
  }

  lemma AskIs(o: Options, c: Client, step: Step)
    requires Phased(c) && (step.OpenDone? && Current(c, step.generation) ==> c.state == Connecting)
    ensures var d := Handled(o, c, step);
            var more := Emitted(c, step, d);
            && d.nextRequestId >= c.nextRequestId
            && (forall k | 0 <= k < |more| && more[k].Asked? :: more[k].requestId == c.nextRequestId < d.nextRequestId)
            && (forall k, l | 0 <= k < l < |more| :: !(more[k].Asked? && more[l].Asked?))
  {
    hide Handled, Phased;
    IdsGrow(o, c, step);
  }

  lemma IdsGrow(o: Options, c: Client, step: Step)
    requires Phased(c) && (step.OpenDone? && Current(c, step.generation) ==> c.state == Connecting)
    ensures var d := Handled(o, c, step);
            && d.nextRequestId >= c.nextRequestId
            && (step.OpenDone? && Current(c, step.generation) && step.ok && step.ask == Written ==> d.nextRequestId > c.nextRequestId)
  {
    hide SetState, ScheduleReconnect, Connect, HardStop, Opened, Received, MarkReconciled;
    match step {
      case Start(dial) =>
        StopIs(o, c);
        ConnectIs(o, c.(started := true), dial);
      case Stop => StopIs(o, c);
      case Timer(dial) =>
        if c.started {
          ConnectIs(o, c.(reconnectPending := false), dial);
        } else {
          NotStarted(o, c, dial);
        }
      case OpenDone(g, ok, ask) =>
        if Current(c, g) {
          OpenIs(o, c, g, ok, ask);
        } else {
          NotCurrent(o, c, step);
        }
      case ReadDone(g, frame) =>
        if Current(c, g) {
          ReadIs(o, c, g, frame);
        } else {
          NotCurrent(o, c, step);
        }
      case Confirm(g) => ConfirmIs(o, c, g);
      case _ => ScheduleIs(o, c);
    }
  }

  lemma FreshAppend(log: seq<Mark>, next: nat, more: seq<Mark>, next': nat)
    requires FreshIds(log, next) && next <= next'
    requires forall k | 0 <= k < |more| && more[k].Asked? :: more[k].requestId == next < next'
    requires forall k, l | 0 <= k < l < |more| :: !(more[k].Asked? && more[l].Asked?)
    ensures FreshIds(log + more, next')
  {
    var all := log + more;
    assert forall k | |log| <= k < |all| :: all[k] == more[k - |log|];
  }

  /** No request id is used twice, in whatever session. */
  lemma {:induction false} RequestIdsAreFresh(o: Options, steps: seq<Step>)
    ensures FreshIds(Run(o, steps).log, Run(o, steps).client.nextRequestId)
    decreases |steps|
  {
    hide Handled, Emitted, FreshIds, Phased, Linked, AllCertified;
    if steps == [] {
      assert FreshIds([], 1) by { NoIds(); }
    } else {
      var before, step := steps[..|steps| - 1], steps[|steps| - 1];
      var w := Run(o, before);
      RequestIdsAreFresh(o, before);
      RunIsPhased(o, before);
      RunIsGood(o, before);
      if Enabled(w, step) {
        AskIs(o, w.client, step);
        var d := Handled(o, w.client, step);
        FreshAppend(w.log, w.client.nextRequestId, Emitted(w.client, step, d), d.nextRequestId);
      }
    }
  }

  lemma NoIds()
    ensures FreshIds([], 1)
  {
  }
}
