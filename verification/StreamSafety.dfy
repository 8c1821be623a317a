/** What holds over every run of the private stream: when an event may claim to be reconciled, how far the queue grows,
    and which late callback the client does not survive. */
module StreamSafety {
  import opened Foundations
  import opened PrivateStream

  /** Milestones of a run. Answers and marks are logged as they arrive, whether or not the client acts on them. */
  datatype Mark =
    | Connected(generation: nat)
    | Asked(generation: nat, requestId: nat)
    | Answered(generation: nat, requestId: nat)
    | Marked(generation: nat)
    | Published(generation: nat, reconciled: bool)
    | Interrupted

  /** The client, the callbacks that are still to come, the milestones so far and the events the consumer has taken.
      A channel completes every open and every read once, and a cancelled one may still complete it. */
  datatype World = World(
    client: Client, opening: set<nat>, reading: set<nat>, sessions: set<nat>, log: seq<Mark>, delivered: seq<StreamEvent>)

  datatype Step =
    | Start(dial: Dial)
    | Stop
    | Timer(dial: Dial)
    | OpenDone(generation: nat, ok: bool, ask: Ask)
    | ReadDone(generation: nat, frame: Frame)
    | Failure(generation: nat)
    | AckTimer(generation: nat)
    | Confirm(generation: nat)
    | Pop

  const START: World := World(INITIAL, {}, {}, {}, [], [])

  predicate Enabled(w: World, step: Step) {
    match step
    case OpenDone(g, _, _) => g in w.opening
    case ReadDone(g, _) => g in w.reading
    case Failure(g) => g in w.sessions
    case AckTimer(g) => g in w.sessions
    case _ => true
  }

  function Handled(o: Options, c: Client, step: Step): Client {
    match step
    case Start(dial) => Begin(o, c, dial)
    case Stop => HardStop(o, c)
    case Timer(dial) => ReconnectTimer(o, c, dial)
    case OpenDone(g, ok, ask) => Opened(o, c, g, ok, ask)
    case ReadDone(g, frame) => Received(o, c, g, frame)
    case Failure(g) => Failed(o, c, g)
    case AckTimer(g) => AckTimedOut(o, c, g)
    case Confirm(g) => MarkReconciled(o, c, g)
    case Pop => if c.queue == [] then c else c.(queue := c.queue[1..])
  }

  /** A stop, a refused start, or a newly scheduled reconnect. */
  predicate Interrupts(c: Client, step: Step, d: Client) {
    || step.Stop? || (step.Start? && !d.started)
    || (d.reconnectPending && (!c.reconnectPending || d.generation != c.generation))
  }

  function Dialing(c: Client, d: Client): seq<Mark> {
    if d.generation != c.generation then [Connected(d.generation)] else []
  }

  function Exchange(c: Client, step: Step, d: Client): seq<Mark> {
    match step
    case OpenDone(g, true, Written) => if Current(c, g) then [Asked(g, c.nextRequestId)] else []
    case ReadDone(g, Response(id, true)) => if Current(c, g) then [Answered(g, id)] else []
    case ReadDone(g, Wallet(_)) =>
      if |d.queue| == |c.queue| + 1 && d.queue[|c.queue|].Data?
      then [Published(d.queue[|c.queue|].generation, d.queue[|c.queue|].reconciled)] else []
    case Confirm(g) => [Marked(g)]
    case _ => []
  }

  function Emitted(c: Client, step: Step, d: Client): seq<Mark> {
    Dialing(c, d) + Exchange(c, step, d) + if Interrupts(c, step, d) then [Interrupted] else []
  }

  function Next(o: Options, w: World, step: Step): World {
    if w.client.faulted || !Enabled(w, step) then w
    else
      var c, d := w.client, Handled(o, w.client, step);
      World(d,
            (if step.OpenDone? then w.opening - {step.generation} else w.opening)
            + (if d.generation != c.generation && !d.reconnectPending then {d.generation} else {}),
            (if step.ReadDone? then w.reading - {step.generation} else w.reading)
            + (if (step.ReadDone? && Current(d, step.generation) && d.channel)
                  || (step.OpenDone? && step.ok && Current(c, step.generation) && c.channel)
               then {step.generation} else {}),
            w.sessions + (if step.OpenDone? && step.ok && Current(c, step.generation) then {step.generation} else {}),
            w.log + Emitted(c, step, d),
            if step.Pop? && c.queue != [] then w.delivered + [c.queue[0]] else w.delivered)
  }

  function Run(o: Options, steps: seq<Step>): World {
    if steps == [] then START else Next(o, Run(o, steps[..|steps| - 1]), steps[|steps| - 1])
  }

  // ---- Chains of milestones ----

  ghost predicate Quiet(log: seq<Mark>, from: nat) {
    forall k | from <= k < |log| :: !log[k].Connected? && !log[k].Interrupted?
  }

  /** Generation `g` connected at position `a`, and nothing has interrupted it since. */
  ghost predicate OpenSince(log: seq<Mark>, g: nat, a: nat) {
    a < |log| && log[a] == Connected(g) && Quiet(log, a + 1)
  }

  ghost predicate AskedSince(log: seq<Mark>, g: nat, id: nat, a: nat, b: nat) {
    OpenSince(log, g, a) && a < b < |log| && log[b] == Asked(g, id)
  }

  ghost predicate AnsweredSince(log: seq<Mark>, g: nat, id: nat, a: nat, b: nat, c: nat) {
    AskedSince(log, g, id, a, b) && b < c < |log| && log[c] == Answered(g, id)
  }

  ghost predicate CertifiedSince(log: seq<Mark>, g: nat, id: nat, a: nat, b: nat, c: nat, d: nat) {
    AnsweredSince(log, g, id, a, b, c) && c < d < |log| && log[d] == Marked(g)
  }

  ghost predicate IsOpen(log: seq<Mark>, g: nat) { exists a :: OpenSince(log, g, a) }

  ghost predicate IsAsked(log: seq<Mark>, g: nat, id: nat) { exists a, b :: AskedSince(log, g, id, a, b) }

  ghost predicate IsAnswered(log: seq<Mark>, g: nat) { exists id, a, b, c :: AnsweredSince(log, g, id, a, b, c) }

  /** Connect, own request, answer to that very request, caller's mark, in this order and without interruption. */
  ghost predicate IsCertified(log: seq<Mark>, g: nat) { exists id, a, b, c, d :: CertifiedSince(log, g, id, a, b, c, d) }

  predicate Calm(m: Mark) { !m.Connected? && !m.Interrupted? }

  lemma CalmKeepsChains(log: seq<Mark>, m: Mark, g: nat)
    requires Calm(m)
    ensures IsOpen(log, g) ==> IsOpen(log + [m], g)
    ensures forall id | IsAsked(log, g, id) :: IsAsked(log + [m], g, id)
    ensures IsAnswered(log, g) ==> IsAnswered(log + [m], g)
    ensures IsCertified(log, g) ==> IsCertified(log + [m], g)
  {
    var more := log + [m];
    assert forall a | OpenSince(log, g, a) :: OpenSince(more, g, a);
    assert forall id, a, b | AskedSince(log, g, id, a, b) :: AskedSince(more, g, id, a, b);
    assert forall id, a, b, c | AnsweredSince(log, g, id, a, b, c) :: AnsweredSince(more, g, id, a, b, c);
    assert forall id, a, b, c, d | CertifiedSince(log, g, id, a, b, c, d) :: CertifiedSince(more, g, id, a, b, c, d);
  }

  lemma ConnectedOpens(log: seq<Mark>, g: nat)
    ensures IsOpen(log + [Connected(g)], g)
  {
    assert OpenSince(log + [Connected(g)], g, |log|);
  }

  lemma AskExtends(log: seq<Mark>, g: nat, id: nat)
    requires IsOpen(log, g)
    ensures IsAsked(log + [Asked(g, id)], g, id)
  {
    var a :| OpenSince(log, g, a);
    assert AskedSince(log + [Asked(g, id)], g, id, a, |log|);
  }

  lemma AnswerExtends(log: seq<Mark>, g: nat, id: nat)
    requires IsAsked(log, g, id)
    ensures IsAnswered(log + [Answered(g, id)], g)
  {
    var a, b :| AskedSince(log, g, id, a, b);
    assert AnsweredSince(log + [Answered(g, id)], g, id, a, b, |log|);
  }

  lemma MarkExtends(log: seq<Mark>, g: nat)
    requires IsAnswered(log, g)
    ensures IsCertified(log + [Marked(g)], g)
  {
    var id, a, b, c :| AnsweredSince(log, g, id, a, b, c);
    assert CertifiedSince(log + [Marked(g)], g, id, a, b, c, |log|);
  }

  // ---- The invariant ----

  /** How the client's flags hang together. */
  predicate Flags(c: Client) {
    && (c.reconciled <==> c.state == Live)
    && (c.started ==> (c.channel <==> !c.reconnectPending))
    && (!c.started ==> c.state == Stopped && !c.channel)
    && (c.sessionOpen || c.awaitingAck || c.reconciled || c.state == ReconciliationRequired ==> c.channel)
  }

  /** What the flags owe to the milestones. */
  ghost predicate Linked(c: Client, log: seq<Mark>) {
    && (c.channel ==> IsOpen(log, c.generation))
    && (c.awaitingAck ==> IsAsked(log, c.generation, c.pendingRequestId))
    && (c.state == ReconciliationRequired ==> IsAnswered(log, c.generation))
    && (c.reconciled ==> IsCertified(log, c.generation))
  }

  /** A generation whose open is still to come has done nothing else. */
  predicate Pending(w: World) {
    var c := w.client;
    && (forall g | g in w.opening :: g <= c.generation)
    && (forall g | g in w.reading :: g <= c.generation)
    && (forall g | g in w.sessions :: g <= c.generation)
    && (c.generation in w.opening ==> c.generation !in w.reading && c.generation !in w.sessions)
    && (c.generation in w.opening && c.started ==> c.state == Connecting && c.channel && !c.awaitingAck)
  }

  ghost predicate AllCertified(log: seq<Mark>) {
    forall k | 0 <= k < |log| && log[k].Published? && log[k].reconciled :: IsCertified(log[..k], log[k].generation)
  }

  ghost predicate Good(w: World) {
    Flags(w.client) && Pending(w) && Linked(w.client, w.log) && AllCertified(w.log)
  }

  lemma ScheduleIsLinked(o: Options, c: Client, log: seq<Mark>)
    requires Flags(c)
    ensures var d := ScheduleReconnect(o, c);
            && Flags(d) && d.generation == c.generation
            && (d == c || (d.reconnectPending && !c.reconnectPending && Linked(d, log)))
  {
    hide IsOpen, IsAsked, IsAnswered, IsCertified;
  }

  lemma ConnectIsLinked(o: Options, c: Client, dial: Dial, log: seq<Mark>)
    requires c.started
    ensures var d := Connect(o, c, dial);
            && Flags(d) && d.generation == c.generation + 1 && d.started && d.faulted == c.faulted
            && (d.reconnectPending ==> Linked(d, log))
            && (!d.reconnectPending ==> Linked(d, log + [Connected(d.generation)]) && d.state == Connecting && d.channel
                                        && !d.awaitingAck)
  {
    hide IsOpen, IsAsked, IsAnswered, IsCertified;
    ConnectedOpens(log, c.generation + 1);
  }

  lemma OpenIsLinked(o: Options, c: Client, g: nat, ask: Ask, log: seq<Mark>)
    requires Flags(c) && Linked(c, log) && Current(c, g) && c.state == Connecting && c.channel && !c.awaitingAck
    ensures var d := Opened(o, c, g, true, ask);
            && Flags(d) && d.generation == g && d.faulted == c.faulted
            && (ask.Written? ==> !d.reconnectPending && Linked(d, log + [Asked(g, c.nextRequestId)]))
            && (!ask.Written? ==> d.reconnectPending && Linked(d, log))
  {
    hide IsOpen, IsAsked, IsAnswered, IsCertified;
    CalmKeepsChains(log, Asked(g, c.nextRequestId), g);
    AskExtends(log, g, c.nextRequestId);
  }

  lemma ResponseIsLinked(o: Options, c: Client, id: nat, success: bool, log: seq<Mark>)
    requires Flags(c) && Linked(c, log) && c.started
    ensures var d := HandleResponse(o, c, id, success);
            && Flags(d) && d.generation == c.generation
            && (d.reconnectPending && !c.reconnectPending ==> !d.channel && !d.awaitingAck && !d.reconciled && d.state == ReconnectWait)
            && (d.reconnectPending == c.reconnectPending && success ==> Linked(d, log + [Answered(c.generation, id)]))
            && (d.reconnectPending == c.reconnectPending && !success ==> d == c)
  {
    hide IsOpen, IsAsked, IsAnswered, IsCertified;
    CalmKeepsChains(log, Answered(c.generation, id), c.generation);
    if c.awaitingAck && id == c.pendingRequestId {
      AnswerExtends(log, c.generation, id);
    }
  }

  lemma MarkIsLinked(o: Options, c: Client, g: nat, log: seq<Mark>)
    requires Flags(c) && Linked(c, log)
    ensures var d := MarkReconciled(o, c, g);
            Flags(d) && d.generation == c.generation && d.reconnectPending == c.reconnectPending && Linked(d, log + [Marked(g)])
  {
    hide IsOpen, IsAsked, IsAnswered, IsCertified;
    CalmKeepsChains(log, Marked(g), c.generation);
    if c.state == ReconciliationRequired && g == c.generation {
      MarkExtends(log, g);
    }
  }

  /** A client without a channel owes nothing. */
  lemma DisconnectedIsLinked(d: Client, log: seq<Mark>)
    requires Flags(d) && !d.channel
    ensures Linked(d, log)
  {}

  lemma StepIsLinked(o: Options, w: World, step: Step)
    requires Good(w) && !w.client.faulted && Enabled(w, step)
    ensures var d := Handled(o, w.client, step);
            Flags(d) && Linked(d, w.log + Emitted(w.client, step, d))
  {
    hide Linked, AllCertified;
    var c, d, log := w.client, Handled(o, w.client, step), w.log;
    var out := log + Emitted(c, step, d);
    match step {
      case Start(dial) => DialIsLinked(o, w, step, dial);
      case Timer(dial) => DialIsLinked(o, w, step, dial);
      case Stop => DisconnectedIsLinked(d, out);
      case OpenDone(g, ok, ask) => OpenStepIsLinked(o, w, g, ok, ask);
      case ReadDone(g, frame) => ReadStepIsLinked(o, w, g, frame);
      case Failure(g) => FailureIsLinked(o, w, step);
      case AckTimer(g) => FailureIsLinked(o, w, step);
      case Confirm(g) =>
        hide MarkReconciled;
        MarkIsLinked(o, c, g, log);
        assert out == log + [Marked(g)];
      case Pop =>
        SameFlags(c, d, log);
        assert out == log;
    }
  }

  /** The queue plays no part in the invariant. */
  lemma SameFlags(c: Client, d: Client, log: seq<Mark>)
    requires d == c.(queue := d.queue) && Flags(c) && Linked(c, log)
    ensures Flags(d) && Linked(d, log)
  {
    hide IsOpen, IsAsked, IsAnswered, IsCertified;
  }

  lemma DialIsLinked(o: Options, w: World, step: Step, dial: Dial)
    requires Good(w) && (step == Start(dial) || step == Timer(dial))
    ensures var d := Handled(o, w.client, step);
            Flags(d) && Linked(d, w.log + Emitted(w.client, step, d))
  {
    hide Linked, AllCertified, Connect, SetState;
    var c, d, log := w.client, Handled(o, w.client, step), w.log;
    var out := log + Emitted(c, step, d);
    if step.Start? && c.started {
      assert out == log;
    } else if step.Start? && (o.maxPending == 0 || !o.endpointIsValid || !o.hasProviders) {
      StoppedFlags(o, c);
      DisconnectedIsLinked(d, out);
    } else if step.Timer? && !c.started {
      IdleTimer(o, c, dial);
      SameButPending(c, d, log);
      assert out == log;
    } else {
      var e := if step.Start? then c.(started := true) else c.(reconnectPending := false);
      ConnectIsLinked(o, e, dial, log);
      if d.reconnectPending {
        DisconnectedIsLinked(d, out);
      } else {
        assert out == log + [Connected(d.generation)];
      }
    }
  }

  lemma StoppedFlags(o: Options, c: Client)
    ensures var d := HardStop(o, c);
            Flags(d) && !d.channel && !d.started && d.generation == c.generation && d.faulted == c.faulted
  {}

  lemma IdleTimer(o: Options, c: Client, dial: Dial)
    requires !c.started
    ensures ReconnectTimer(o, c, dial) == c.(reconnectPending := false)
  {}

  lemma SameButPending(c: Client, d: Client, log: seq<Mark>)
    requires !c.started && d == c.(reconnectPending := false) && Flags(c) && Linked(c, log)
    ensures Flags(d) && Linked(d, log)
  {}

  lemma OpenStepIsLinked(o: Options, w: World, g: nat, ok: bool, ask: Ask)
    requires Good(w) && g in w.opening
    ensures var d := Handled(o, w.client, OpenDone(g, ok, ask));
            Flags(d) && Linked(d, w.log + Emitted(w.client, OpenDone(g, ok, ask), d))
  {
    hide Linked, AllCertified, SetState, ScheduleReconnect, Subscribe;
    var c, log := w.client, w.log;
    var d := Handled(o, c, OpenDone(g, ok, ask));
    var out := log + Emitted(c, OpenDone(g, ok, ask), d);
    if !Current(c, g) {
      assert out == log;
    } else if !ok {
      ScheduleIsLinked(o, c, out);
      if d == c {
        assert out == log;
      }
    } else {
      OpenIsLinked(o, c, g, ask, log);
      if ask.Written? {
        assert out == log + [Asked(g, c.nextRequestId)];
      } else {
        DisconnectedIsLinked(d, out);
      }
    }
  }

  lemma ReadStepIsLinked(o: Options, w: World, g: nat, frame: Frame)
    requires Good(w)
    ensures var d := Handled(o, w.client, ReadDone(g, frame));
            Flags(d) && Linked(d, w.log + Emitted(w.client, ReadDone(g, frame), d))
  {
    hide Linked, AllCertified, SetState, ScheduleReconnect, HandleResponse;
    var c, log := w.client, w.log;
    var step := ReadDone(g, frame);
    var d := Handled(o, c, step);
    var out := log + Emitted(c, step, d);
    if !Current(c, g) {
      assert out == log;
    } else {
      match frame {
        case ReadFailed => DropIsLinked(o, w, step);
        case Malformed => DropIsLinked(o, w, step);
        case Heartbeat(encodable) =>
          if encodable {
            FaultFlag(c, d, log);
            assert out == log;
          } else {
            DropIsLinked(o, w, step);
          }
        case Response(id, success) => AnswerIsLinked(o, w, g, id, success);
        case Wallet(wallet) =>
          if |c.queue| < o.maxPending {
            var m := Published(c.generation, c.reconciled);
            SameFlags(c, d, log);
            PublishKeepsLinks(d, log, m);
            assert out == log + [m];
          } else {
            DropIsLinked(o, w, step);
          }
      }
    }
  }

  lemma FaultFlag(c: Client, d: Client, log: seq<Mark>)
    requires d == c.(faulted := d.faulted) && Flags(c) && Linked(c, log)
    ensures Flags(d) && Linked(d, log)
  {
    hide IsOpen, IsAsked, IsAnswered, IsCertified;
  }

  lemma PublishKeepsLinks(d: Client, log: seq<Mark>, m: Mark)
    requires Linked(d, log) && m.Published?
    ensures Linked(d, log + [m])
  {
    hide IsOpen, IsAsked, IsAnswered, IsCertified;
    CalmKeepsChains(log, m, d.generation);
  }

  /** A step that at most schedules a reconnect. */
  lemma DropIsLinked(o: Options, w: World, step: Step)
    requires Good(w) && step.ReadDone? && !step.frame.Response? && Current(w.client, step.generation)
    requires Handled(o, w.client, step) == ScheduleReconnect(o, w.client)
    ensures var d := Handled(o, w.client, step);
            Flags(d) && Linked(d, w.log + Emitted(w.client, step, d))
  {
    hide Linked, AllCertified, SetState, ScheduleReconnect, Handled;
    var c, log := w.client, w.log;
    var d := ScheduleReconnect(o, c);
    var out := log + Emitted(c, step, d);
    ScheduleIsLinked(o, c, out);
    ScheduledQueue(o, c);
    if d == c {
      assert out == log;
    }
  }

  /** Scheduling a reconnect never publishes data. */
  lemma ScheduledQueue(o: Options, c: Client)
    ensures var d := ScheduleReconnect(o, c);
            |d.queue| == |c.queue| + 1 ==> !d.queue[|c.queue|].Data?
  {}

  lemma AnswerIsLinked(o: Options, w: World, g: nat, id: nat, success: bool)
    requires Good(w) && Current(w.client, g)
    ensures var step := ReadDone(g, Response(id, success));
            var d := Handled(o, w.client, step);
            Flags(d) && Linked(d, w.log + Emitted(w.client, step, d))
  {
    hide Linked, AllCertified, HandleResponse;
    var c, log := w.client, w.log;
    var step := ReadDone(g, Response(id, success));
    var d := HandleResponse(o, c, id, success);
    var out := log + Emitted(c, step, d);
    ResponseIsLinked(o, c, id, success, log);
    if d.reconnectPending && !c.reconnectPending {
      DisconnectedIsLinked(d, out);
    } else if success {
      ResponsePending(o, c, id, success);
      assert out == log + [Answered(g, id)];
    } else {
      ResponsePending(o, c, id, success);
      assert out == log;
    }
  }

  lemma ResponsePending(o: Options, c: Client, id: nat, success: bool)
    ensures var d := HandleResponse(o, c, id, success);
            (c.reconnectPending ==> d.reconnectPending) && d.generation == c.generation
  {}

  lemma FailureIsLinked(o: Options, w: World, step: Step)
    requires Good(w) && (step.Failure? || step.AckTimer?)
    ensures var d := Handled(o, w.client, step);
            Flags(d) && Linked(d, w.log + Emitted(w.client, step, d))
  {
    hide Linked, AllCertified, SetState, ScheduleReconnect;
    var c, log := w.client, w.log;
    var d := Handled(o, c, step);
    var out := log + Emitted(c, step, d);
    ScheduleIsLinked(o, c, out);
    if d == c {
      assert out == log;
    }
  }

  // ---- Pending callbacks ----

  /** A step that keeps the generation leaves a client whose open is still to come as it was, unless it stops it. */
  lemma UntouchedWhileOpening(o: Options, w: World, step: Step)
    requires Good(w) && !w.client.faulted && Enabled(w, step) && w.client.started && w.client.generation in w.opening
    requires !(step.OpenDone? && step.generation == w.client.generation) && !step.Stop?
    ensures var c, d := w.client, Handled(o, w.client, step);
            d.generation == c.generation ==> d == c.(queue := d.queue)
  {
    hide Linked, AllCertified, IsOpen, IsAsked, IsAnswered, IsCertified;
  }

  predicate Fits(o: Options, c: Client) { |c.queue| <= Max(1, o.maxPending) }

  /** The generation and the started flag stay, and the queue does not outgrow its bound. */
  predicate Keeps(o: Options, c: Client, d: Client) {
    d.generation == c.generation && d.started == c.started && (Fits(o, c) ==> Fits(o, d))
  }

  lemma SetStateKeeps(o: Options, c: Client, value: StreamState)
    ensures var d := SetState(o, c, value);
            d == c.(state := value, queue := d.queue) && Keeps(o, c, d)
  {}

  lemma ScheduleKeeps(o: Options, c: Client)
    ensures Keeps(o, c, ScheduleReconnect(o, c))
  {
    hide SetState;
    SetStateKeeps(o, c.(reconnectPending := true, channel := false, sessionOpen := false, awaitingAck := false,
                        reconciled := false), ReconnectWait);
  }

  lemma OpenedKeeps(o: Options, c: Client, g: nat, ok: bool, ask: Ask)
    ensures Keeps(o, c, Opened(o, c, g, ok, ask))
  {
    hide SetState, ScheduleReconnect, Fits;
    var d := SetState(o, c.(sessionOpen := true), Subscribing);
    SetStateKeeps(o, c.(sessionOpen := true), Subscribing);
    SameQueue(o, c, c.(sessionOpen := true));
    ScheduleKeeps(o, c);
    ScheduleKeeps(o, d);
    ScheduleKeeps(o, d.(nextRequestId := d.nextRequestId + 1));
    SameQueue(o, d, Subscribe(o, d, Written));
    SameQueue(o, d, d.(nextRequestId := d.nextRequestId + 1));
  }

  lemma SameQueue(o: Options, c: Client, d: Client)
    requires c.queue == d.queue
    ensures Fits(o, c) == Fits(o, d)
  {}

  lemma ReceivedKeeps(o: Options, c: Client, g: nat, frame: Frame)
    ensures Keeps(o, c, Received(o, c, g, frame))
  {
    hide SetState, ScheduleReconnect;
    var d := c.(awaitingAck := false);
    ScheduleKeeps(o, c);
    ScheduleKeeps(o, d);
    SetStateKeeps(o, d.(reconciled := false), ReconciliationRequired);
  }

  lemma MarkKeeps(o: Options, c: Client, g: nat)
    ensures Keeps(o, c, MarkReconciled(o, c, g))
  {
    hide SetState;
    SetStateKeeps(o, c.(reconciled := true), Live);
  }

  lemma StopKeeps(o: Options, c: Client)
    ensures var d := HardStop(o, c);
            d.generation == c.generation && !d.started && (Fits(o, c) ==> Fits(o, d))
  {
    hide SetState;
    SetStateKeeps(o, c.(started := false, sessionOpen := false, awaitingAck := false, reconciled := false,
                        reconnectPending := false, channel := false), Stopped);
  }

  lemma ConnectGeneration(o: Options, c: Client, dial: Dial)
    ensures var d := Connect(o, c, dial);
            && d.started == c.started && d.generation == c.generation + (if c.started then 1 else 0)
            && (c.started && !d.reconnectPending ==> d.state == Connecting && d.channel && !d.awaitingAck)
            && (Fits(o, c) ==> Fits(o, d))
  {
    hide SetState;
    var e := c.(reconnectPending := false, generation := c.generation + 1, sessionOpen := false, awaitingAck := false,
                reconciled := false);
    SetStateKeeps(o, e, Connecting);
    var d := SetState(o, e, Connecting);
    ScheduleKeeps(o, d.(channel := true));
    SetStateKeeps(o, d.(reconnectPending := true, channel := false, sessionOpen := false, awaitingAck := false,
                        reconciled := false), ReconnectWait);
  }

  /** At most one new generation, which is then being dialled unless it already failed; the queue keeps its bound. */
  predicate Advances(o: Options, c: Client, d: Client) {
    && c.generation <= d.generation <= c.generation + 1
    && (d.generation != c.generation ==> d.started)
    && (d.generation != c.generation && !d.reconnectPending ==> d.state == Connecting && d.channel && !d.awaitingAck)
    && (!c.started && d.started ==> d.generation != c.generation)
    && (Fits(o, c) ==> Fits(o, d))
  }

  lemma KeepsAdvances(o: Options, c: Client, d: Client)
    requires Keeps(o, c, d)
    ensures Advances(o, c, d)
  {
    hide Fits;
  }

  lemma BeginAdvances(o: Options, c: Client, dial: Dial)
    ensures Advances(o, c, Begin(o, c, dial))
  {
    hide Connect, HardStop, Fits;
    SameQueue(o, c, c.(started := true));
    ConnectGeneration(o, c.(started := true), dial);
    StopKeeps(o, c);
  }

  lemma TimerAdvances(o: Options, c: Client, dial: Dial)
    ensures Advances(o, c, ReconnectTimer(o, c, dial))
  {
    hide Connect, Fits;
    SameQueue(o, c, c.(reconnectPending := false));
    ConnectGeneration(o, c.(reconnectPending := false), dial);
  }

  lemma QuietKeeps(o: Options, c: Client, step: Step)
    requires !step.Start? && !step.Timer? && !step.Stop?
    ensures Keeps(o, c, Handled(o, c, step))
  {
    hide Opened, Received, ScheduleReconnect, MarkReconciled;
    match step {
      case OpenDone(g, ok, ask) => OpenedKeeps(o, c, g, ok, ask);
      case ReadDone(g, frame) => ReceivedKeeps(o, c, g, frame);
      case Failure(g) => ScheduleKeeps(o, c);
      case AckTimer(g) => ScheduleKeeps(o, c);
      case Confirm(g) => MarkKeeps(o, c, g);
      case Pop =>
    }
  }

  lemma GenerationStep(o: Options, c: Client, step: Step)
    ensures var d := Handled(o, c, step);
            && Advances(o, c, d)
            && (step.Stop? ==> !d.started && d.generation == c.generation)
            && (d.generation != c.generation ==> step.Start? || step.Timer?)
  {
    hide Begin, ReconnectTimer, HardStop, Opened, Received, Failed, AckTimedOut, MarkReconciled, Fits, Keeps;
    match step {
      case Start(dial) => BeginAdvances(o, c, dial);
      case Stop => StopKeeps(o, c);
      case Timer(dial) => TimerAdvances(o, c, dial);
      case _ =>
        QuietKeeps(o, c, step);
        KeptGeneration(o, c, Handled(o, c, step));
        KeepsAdvances(o, c, Handled(o, c, step));
    }
  }

  lemma KeptGeneration(o: Options, c: Client, d: Client)
    requires Keeps(o, c, d)
    ensures d.generation == c.generation
  {
  }

  lemma StepKeepsPending(o: Options, w: World, step: Step)
    requires Good(w)
    ensures Pending(Next(o, w, step))
  {
    hide Linked, AllCertified, Handled, Emitted, Fits;
    if !w.client.faulted && Enabled(w, step) {
      var c, d, v := w.client, Handled(o, w.client, step), Next(o, w, step);
      GenerationStep(o, c, step);
      if d.generation == c.generation && c.generation in v.opening {
        assert c.generation in w.opening && !(step.OpenDone? && step.generation == c.generation);
        if c.started && !step.Stop? {
          UntouchedWhileOpening(o, w, step);
        }
      }
    }
  }

  lemma StepKeepsCertified(o: Options, w: World, step: Step)
    requires Good(w)
    ensures AllCertified(Next(o, w, step).log)
  {
    hide Linked, IsCertified, Handled, Flags;
    var c, d, v := w.client, Handled(o, w.client, step), Next(o, w, step);
    if !c.faulted && Enabled(w, step) {
      forall k | 0 <= k < |v.log| && v.log[k].Published? && v.log[k].reconciled
        ensures IsCertified(v.log[..k], v.log[k].generation)
      {
        if k < |w.log| {
          assert v.log[..k] == w.log[..k] && v.log[k] == w.log[k];
        } else {
          PublishedMark(o, w, step, k - |w.log|);
          assert v.log[..k] == w.log;
        }
      }
    }
  }

  /** A published mark is the first of its step, and says what the client's flag says. */
  lemma PublishedMark(o: Options, w: World, step: Step, k: nat)
    requires Good(w)
    requires k < |Emitted(w.client, step, Handled(o, w.client, step))|
    requires Emitted(w.client, step, Handled(o, w.client, step))[k].Published?
    requires Emitted(w.client, step, Handled(o, w.client, step))[k].reconciled
    ensures k == 0 && IsCertified(w.log, Emitted(w.client, step, Handled(o, w.client, step))[k].generation)
  {
    hide IsOpen, IsAsked, IsAnswered, IsCertified, AllCertified, Pending;
  }

  lemma StepKeepsGood(o: Options, w: World, step: Step)
    requires Good(w)
    ensures Good(Next(o, w, step))
  {
    hide Flags, Linked, AllCertified, Handled, Emitted;
    StepKeepsPending(o, w, step);
    StepKeepsCertified(o, w, step);
    if !w.client.faulted && Enabled(w, step) {
      StepIsLinked(o, w, step);
    }
  }

  lemma {:induction false} RunIsGood(o: Options, steps: seq<Step>)
    ensures Good(Run(o, steps))
    decreases |steps|
  {
    hide Good, Next;
    if steps == [] {
      assert Good(START) by { StartIsGood(); }
    } else {
      RunIsGood(o, steps[..|steps| - 1]);
      StepKeepsGood(o, Run(o, steps[..|steps| - 1]), steps[|steps| - 1]);
    }
  }

  lemma StartIsGood()
    ensures Good(START)
  {}

  // ---- The theorems ----

  /** In every run, an event published as reconciled for `g` comes after the connect of `g`, the client's own request,
      the answer to that very request and the caller's mark for `g`, in this order, with no reconnect, stop or other
      connect from there up to the event. */
  lemma ReconciledDataIsCertified(o: Options, steps: seq<Step>, k: nat, g: nat)
    returns (id: nat, a: nat, b: nat, c: nat, d: nat)
    requires k < |Run(o, steps).log| && Run(o, steps).log[k] == Published(g, true)
    ensures var log := Run(o, steps).log;
            && a < b < c < d < k && log[a] == Connected(g) && log[b] == Asked(g, id) && log[c] == Answered(g, id)
            && log[d] == Marked(g) && forall j | a < j < k :: !log[j].Connected? && !log[j].Interrupted?
  {
    hide Run;
    RunIsGood(o, steps);
    var log := Run(o, steps).log;
    var before := log[..k];
    assert IsCertified(before, g);
    id, a, b, c, d :| CertifiedSince(before, g, id, a, b, c, d);
    forall j | a < j < k ensures !log[j].Connected? && !log[j].Interrupted? {
      assert before[j] == log[j];
    }
  }

  lemma Handshake(o: Options)
    requires o.maxPending >= 5 && o.endpointIsValid && o.hasProviders
    ensures var w := Next(o, Next(o, START, Start(Dialled)), OpenDone(1, true, Written));
            var c := w.client;
            && 1 in w.reading && c.awaitingAck && c.pendingRequestId == 1 && |c.queue| == 2 && c.channel && c.sessionOpen
            && c.started && c.generation == 1 && !c.faulted && !c.reconnectPending
  {
    var w := Next(o, START, Start(Dialled));
    assert w.client.generation == 1 && 1 in w.opening && |w.client.queue| == 1 && w.client.nextRequestId == 1;
  }

  /** The chain can be completed: an undisturbed session publishes a reconciled event. */
  lemma ReconciledDataIsReachable(o: Options, wallet: Text)
    requires o.maxPending >= 5 && o.endpointIsValid && o.hasProviders
    ensures var steps := [Start(Dialled), OpenDone(1, true, Written), ReadDone(1, Response(1, true)), Confirm(1),
                          ReadDone(1, Wallet(wallet))];
            Published(1, true) in Run(o, steps).log
  {
    hide Run, Next;
    var s1, s2, s3, s4 := Start(Dialled), OpenDone(1, true, Written), ReadDone(1, Response(1, true)), Confirm(1);
    var s5 := ReadDone(1, Wallet(wallet));
    Unrolled(o, [], s1);
    Unrolled(o, [s1], s2);
    Unrolled(o, [s1, s2], s3);
    Unrolled(o, [s1, s2, s3], s4);
    Unrolled(o, [s1, s2, s3, s4], s5);
    assert [s1, s2, s3, s4, s5] == [s1, s2, s3, s4] + [s5] && [s1, s2, s3, s4] == [s1, s2, s3] + [s4];
    assert [s1, s2, s3] == [s1, s2] + [s3] && [s1, s2] == [s1] + [s2] && [s1] == [] + [s1];
    Handshake(o);
    Certification(o, Run(o, [s1, s2]), wallet);
  }

  lemma Certification(o: Options, w: World, wallet: Text)
    requires 1 in w.reading && w.client.awaitingAck && w.client.pendingRequestId == 1 && |w.client.queue| == 2
    requires w.client.channel && w.client.sessionOpen && w.client.started && w.client.generation == 1
    requires o.maxPending >= 5 && !w.client.faulted && !w.client.reconnectPending
    ensures var v := Next(o, Next(o, Next(o, w, ReadDone(1, Response(1, true))), Confirm(1)), ReadDone(1, Wallet(wallet)));
            Published(1, true) in v.log
  {
    var w3 := Next(o, w, ReadDone(1, Response(1, true)));
    assert 1 in w3.reading && w3.client.state == ReconciliationRequired && |w3.client.queue| == 3 && !w3.client.faulted;
    var w4 := Next(o, w3, Confirm(1));
    assert w4.client.reconciled && 1 in w4.reading && |w4.client.queue| == 4 && !w4.client.faulted;
    var w5 := Next(o, w4, ReadDone(1, Wallet(wallet)));
    assert Exchange(w4.client, ReadDone(1, Wallet(wallet)), w5.client) == [Published(1, true)];
  }

  lemma Unrolled(o: Options, steps: seq<Step>, last: Step)
    ensures Run(o, steps + [last]) == Next(o, Run(o, steps), last) && Run(o, []) == START
  {
    assert (steps + [last])[..|steps|] == steps;
  }

  lemma LiveIffReconciled(o: Options, steps: seq<Step>)
    ensures var c := Run(o, steps).client;
            && (c.state == Live <==> c.reconciled)
            && (c.reconciled ==> c.started && c.channel && !c.reconnectPending)
  {
    hide Run, Linked, Pending, AllCertified;
    RunIsGood(o, steps);
  }

  /** A callback or a mark of any generation but the current one changes nothing the client holds. */
  lemma StaleHasNoEffect(o: Options, c: Client, step: Step)
    requires step.OpenDone? || step.ReadDone? || step.Failure? || step.AckTimer? || step.Confirm?
    requires step.generation != c.generation
    ensures Handled(o, c, step) == c
  {}

  /** In a reachable state, a step dereferences a null channel exactly when it delivers an encodable heartbeat of the
      current generation after a reconnect has been scheduled. */
  lemma FaultIff(o: Options, steps: seq<Step>, step: Step)
    requires !Run(o, steps).client.faulted
    ensures var w := Run(o, steps);
            Next(o, w, step).client.faulted
            <==> Enabled(w, step) && step.ReadDone? && step.frame == Heartbeat(true)
                 && Current(w.client, step.generation) && w.client.reconnectPending
  {
    hide Run, Linked, AllCertified, Emitted, Handled;
    var w := Run(o, steps);
    RunIsGood(o, steps);
    if Enabled(w, step) {
      FaultOfStep(o, w, step);
    }
  }

  /** Which handlers use the channel, and when it is null. */
  lemma FaultOfStep(o: Options, w: World, step: Step)
    requires Good(w) && Enabled(w, step) && !w.client.faulted
    ensures Handled(o, w.client, step).faulted
       <==> step.ReadDone? && step.frame == Heartbeat(true) && Current(w.client, step.generation) && w.client.reconnectPending
  {
    hide Linked, AllCertified, SetState, ScheduleReconnect;
    var c := w.client;
    ScheduleKeepsFault(o, c);
    match step {
      case OpenDone(g, ok, ask) =>
        SetStateKeeps(o, c.(sessionOpen := true), Subscribing);
        var d := SetState(o, c.(sessionOpen := true), Subscribing);
        ScheduleKeepsFault(o, d);
        ScheduleKeepsFault(o, d.(nextRequestId := d.nextRequestId + 1));
      case ReadDone(g, frame) =>
        ScheduleKeepsFault(o, c.(awaitingAck := false));
        SetStateKeeps(o, c.(awaitingAck := false, reconciled := false), ReconciliationRequired);
      case Confirm(g) => SetStateKeeps(o, c.(reconciled := true), Live);
      case Start(dial) =>
        ConnectKeepsFault(o, c.(started := true), dial);
        StoppedFlags(o, c);
      case Timer(dial) => ConnectKeepsFault(o, c.(reconnectPending := false), dial);
      case Stop => StoppedFlags(o, c);
      case _ =>
    }
  }

  lemma ScheduleKeepsFault(o: Options, c: Client)
    ensures ScheduleReconnect(o, c).faulted == c.faulted
  {
  }

  lemma ConnectKeepsFault(o: Options, c: Client, dial: Dial)
    ensures Connect(o, c, dial).faulted == c.faulted
  {
  }

  /** Such a step is reachable: a frame already read when the write of the request fails. */
  lemma LateHeartbeatFaults(o: Options)
    requires o.maxPending >= 1 && o.endpointIsValid && o.hasProviders
    ensures Run(o, [Start(Dialled), OpenDone(1, true, Written), Failure(1), ReadDone(1, Heartbeat(true))]).client.faulted
  {
    hide Run;
    var s1, s2, s3 := Start(Dialled), OpenDone(1, true, Written), Failure(1);
    var s4 := ReadDone(1, Heartbeat(true));
    assert [s1, s2, s3, s4] == [s1, s2, s3] + [s4] && [s1, s2, s3] == [s1, s2] + [s3] && [s1, s2] == [s1] + [s2];
    var w1 := Next(o, START, s1);
    assert w1.client.generation == 1 && 1 in w1.opening && w1.client.channel && w1.client.started;
    var w2 := Next(o, w1, s2);
    assert 1 in w2.reading && 1 in w2.sessions && w2.client.generation == 1 && !w2.client.faulted && w2.client.started;
    var w3 := Next(o, w2, s3);
    assert 1 in w3.reading && !w3.client.channel && w3.client.started && w3.client.generation == 1 && !w3.client.faulted;
    Unrolled(o, [s1, s2, s3], s4);
    Unrolled(o, [s1, s2], s3);
    Unrolled(o, [s1], s2);
    Unrolled(o, [], s1);
    assert [] + [s1] == [s1];
  }

  // ---- The queue ----

  lemma {:induction false} QueueIsBounded(o: Options, steps: seq<Step>)
    ensures Fits(o, Run(o, steps).client)
    decreases |steps|
  {
    hide Handled, Emitted;
    if steps != [] {
      QueueIsBounded(o, steps[..|steps| - 1]);
      GenerationStep(o, Run(o, steps[..|steps| - 1]).client, steps[|steps| - 1]);
    }
  }

  /** The configured bound holds in every run exactly when it is at least one. */
  lemma QueueBoundIff(o: Options)
    ensures (forall steps :: |Run(o, steps).client.queue| <= o.maxPending) <==> o.maxPending >= 1
  {
    if o.maxPending >= 1 {
      forall steps ensures |Run(o, steps).client.queue| <= o.maxPending {
        QueueIsBounded(o, steps);
      }
    } else {
      assert [Stop][..0] == [];
      assert Run(o, []) == START;
      assert Run(o, [Stop]) == Next(o, START, Stop);
      assert |Run(o, [Stop]).client.queue| == 1;
    }
  }

  // ---- The client object follows the runs ----

  method Perform(client: PrivateStreamClient, step: Step)
    modifies client
    ensures client.View() == Handled(client.options, old(client.View()), step)
  {
    match step {
      case Start(dial) => client.Start(dial);
      case Stop => client.Stop();
      case Timer(dial) => client.OnReconnectTimer(dial);
      case OpenDone(g, ok, ask) => client.OnOpened(g, ok, ask);
      case ReadDone(g, frame) => client.OnReceived(g, frame);
      case Failure(g) => client.OnFailure(g);
      case AckTimer(g) => client.OnAckTimeout(g);
      case Confirm(g) => client.OnMarkReconciled(g);
      case Pop => var event := client.Pop();
    }
  }

  /** A client object that is handed the enabled steps of a run, one after the other, holds what the run says; so what
      is proved of runs holds of its fields. */
  method Drive(o: Options, steps: seq<Step>) returns (client: PrivateStreamClient, w: World)
    ensures fresh(client) && client.options == o && w == Run(o, steps) && client.View() == w.client
    ensures client.state == Live <==> client.reconciled
    ensures o.maxPending >= 1 ==> |client.queue| <= o.maxPending
  {
    hide Next, Handled, Fits;
    client := new PrivateStreamClient(o);
    w := START;
    for i := 0 to |steps|
      invariant fresh(client) && client.options == o && w == Run(o, steps[..i]) && client.View() == w.client
    {
      assert steps[..i + 1] == steps[..i] + [steps[i]];
      Unrolled(o, steps[..i], steps[i]);
      StepOf(o, w, steps[i]);
      if !w.client.faulted && Enabled(w, steps[i]) {
        Perform(client, steps[i]);
      }
      w := Next(o, w, steps[i]);
    }
    assert steps[..|steps|] == steps;
    LiveIffReconciled(o, steps);
    QueueIsBounded(o, steps);
    assert Fits(o, w.client);
    FitsMeans(o, w.client);
  }

  lemma StepOf(o: Options, w: World, step: Step)
    ensures Next(o, w, step).client
         == if w.client.faulted || !Enabled(w, step) then w.client else Handled(o, w.client, step)
  {
    hide Handled, Emitted;
  }

  lemma FitsMeans(o: Options, c: Client)
    requires Fits(o, c)
    ensures o.maxPending >= 1 ==> |c.queue| <= o.maxPending
  {
  }
}
