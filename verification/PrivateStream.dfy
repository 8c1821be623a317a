/** The private wallet stream: a generation-stamped session over a WebSocket with a bounded event queue
    (`src/private_wss.cpp`). Handlers run one at a time on a strand. */
module PrivateStream {
  import opened Foundations

  datatype StreamState = Stopped | Connecting | Subscribing | ReconciliationRequired | Live | Degraded | ReconnectWait

  datatype StreamEvent =
    | StateChange(state: StreamState, generation: nat)
    | Data(wallet: Text, reconciled: bool, generation: nat)

  datatype Options = Options(maxPending: nat, endpointIsValid: bool, hasProviders: bool)

  /** The fields of the client. `channel` says whether the channel pointer is set; `faulted` that a null one has been
      dereferenced. */
  datatype Client = Client(
    started: bool, sessionOpen: bool, awaitingAck: bool, reconciled: bool, reconnectPending: bool, channel: bool,
    state: StreamState, generation: nat, nextRequestId: nat, pendingRequestId: nat, queue: seq<StreamEvent>,
    faulted: bool)

  const INITIAL: Client := Client(false, false, false, false, false, false, Stopped, 0, 1, 0, [], false)

  /** What the channel factory and the key provider do inside `connect`. */
  datatype Dial = NoChannel | NoKey | Dialled

  /** What the token provider and the encoder do inside `subscribe`. */
  datatype Ask = NoToken | NotEncodable | Written

  datatype Frame =
    | ReadFailed
    | Malformed
    | Heartbeat(encodable: bool)
    | Response(requestId: nat, success: bool)
    | Wallet(wallet: Text)

  // ---- What each handler does ----

  function SetState(o: Options, c: Client, value: StreamState): Client {
    c.(state := value,
       queue := if |c.queue| < o.maxPending then c.queue + [StateChange(value, c.generation)]
                else [StateChange(Degraded, c.generation)])
  }

  function HardStop(o: Options, c: Client): Client {
    SetState(o, c.(started := false, sessionOpen := false, awaitingAck := false, reconciled := false,
                   reconnectPending := false, channel := false), Stopped)
  }

  function ScheduleReconnect(o: Options, c: Client): Client {
    if !c.started || c.reconnectPending then c
    else
      SetState(o, c.(reconnectPending := true, channel := false, sessionOpen := false, awaitingAck := false,
                     reconciled := false), ReconnectWait)
  }

  function Connect(o: Options, c: Client, dial: Dial): Client {
    if !c.started then c
    else
      var d := SetState(o, c.(reconnectPending := false, generation := c.generation + 1, sessionOpen := false,
                              awaitingAck := false, reconciled := false), Connecting);
      if dial.NoChannel? then ScheduleReconnect(o, d.(channel := false))
      else if dial.NoKey? then ScheduleReconnect(o, d.(channel := true))
      else d.(channel := true)
  }

  function Begin(o: Options, c: Client, dial: Dial): Client {
    if c.started then c
    else if o.maxPending == 0 || !o.endpointIsValid || !o.hasProviders then HardStop(o, c)
    else Connect(o, c.(started := true), dial)
  }

  function Subscribe(o: Options, c: Client, ask: Ask): Client {
    match ask
    case NoToken => ScheduleReconnect(o, c)
    case NotEncodable => ScheduleReconnect(o, c.(nextRequestId := c.nextRequestId + 1))
    case Written =>
      c.(nextRequestId := c.nextRequestId + 1, pendingRequestId := c.nextRequestId, awaitingAck := true,
         faulted := c.faulted || !c.channel)
  }

  predicate Current(c: Client, generation: nat) { c.started && generation == c.generation }

  function Opened(o: Options, c: Client, generation: nat, ok: bool, ask: Ask): Client {
    if !Current(c, generation) then c
    else if !ok then ScheduleReconnect(o, c)
    else Subscribe(o, SetState(o, c.(sessionOpen := true), Subscribing), ask)
  }

  function HandleResponse(o: Options, c: Client, requestId: nat, success: bool): Client {
    if !c.awaitingAck || requestId != c.pendingRequestId then ScheduleReconnect(o, c)
    else if !success then ScheduleReconnect(o, c.(awaitingAck := false))
    else SetState(o, c.(awaitingAck := false, reconciled := false), ReconciliationRequired)
  }

  function Received(o: Options, c: Client, generation: nat, frame: Frame): Client {
    if !Current(c, generation) then c
    else
      match frame
      case ReadFailed => ScheduleReconnect(o, c)
      case Malformed => ScheduleReconnect(o, c)
      case Heartbeat(encodable) =>
        if encodable then c.(faulted := c.faulted || !c.channel) else ScheduleReconnect(o, c)
      case Response(requestId, success) => HandleResponse(o, c, requestId, success)
      case Wallet(wallet) =>
        if |c.queue| < o.maxPending then c.(queue := c.queue + [Data(wallet, c.reconciled, c.generation)])
        else ScheduleReconnect(o, c)
  }

  /** A failed write, or a heartbeat deadline. */
  function Failed(o: Options, c: Client, generation: nat): Client {
    if Current(c, generation) then ScheduleReconnect(o, c) else c
  }

  function AckTimedOut(o: Options, c: Client, generation: nat): Client {
    if Current(c, generation) && c.awaitingAck then ScheduleReconnect(o, c) else c
  }

  function ReconnectTimer(o: Options, c: Client, dial: Dial): Client { Connect(o, c.(reconnectPending := false), dial) }

  function MarkReconciled(o: Options, c: Client, generation: nat): Client {
    if Current(c, generation) && !c.awaitingAck && c.sessionOpen && c.state == ReconciliationRequired
    then SetState(o, c.(reconciled := true), Live) else c
  }

  // ---- The client object ----

  class PrivateStreamClient {
    const options: Options
    var started: bool
    var sessionOpen: bool
    var awaitingAck: bool
    var reconciled: bool
    var reconnectPending: bool
    var channel: bool
    var state: StreamState
    var generation: nat
    var nextRequestId: nat
    var pendingRequestId: nat
    var queue: seq<StreamEvent>
    var faulted: bool

    ghost function View(): Client
      reads this
    {
      Client(started, sessionOpen, awaitingAck, reconciled, reconnectPending, channel, state, generation, nextRequestId,
             pendingRequestId, queue, faulted)
    }

    constructor (options: Options)
      ensures this.options == options && View() == INITIAL
    {
      this.options := options;
      started, sessionOpen, awaitingAck, reconciled, reconnectPending, channel := false, false, false, false, false, false;
      state, generation, nextRequestId, pendingRequestId, queue, faulted := Stopped, 0, 1, 0, [], false;
    }

    method Enqueue(event: StreamEvent) returns (ok: bool)
      modifies this`queue
      ensures ok == (|old(queue)| < options.maxPending)
      ensures queue == if ok then old(queue) + [event] else old(queue)
    {
      ok := |queue| < options.maxPending;
      if ok {
        queue := queue + [event];
      }
    }

    method Transition(value: StreamState)
      modifies this
      ensures View() == SetState(options, old(View()), value)
    {
      state := value;
      var ok := Enqueue(StateChange(value, generation));
      if !ok {
        queue := [StateChange(Degraded, generation)];
      }
    }

    method Stop()
      modifies this
      ensures View() == HardStop(options, old(View()))
    {
      hide SetState;
      started, sessionOpen, awaitingAck, reconciled, reconnectPending, channel := false, false, false, false, false, false;
      Transition(Stopped);
    }

    method Reconnect()
      modifies this
      ensures View() == ScheduleReconnect(options, old(View()))
    {
      hide SetState;
      if !started || reconnectPending {
        return;
      }
      reconnectPending, channel, sessionOpen, awaitingAck, reconciled := true, false, false, false, false;
      Transition(ReconnectWait);
    }

    method NextGeneration()
      modifies this
      ensures View() == SetState(options, old(View()).(reconnectPending := false, generation := old(generation) + 1,
                                                       sessionOpen := false, awaitingAck := false, reconciled := false),
                                 Connecting)
    {
      hide SetState;
      reconnectPending := false;
      generation := generation + 1;
      sessionOpen, awaitingAck, reconciled := false, false, false;
      Transition(Connecting);
    }

    method Dialling(dial: Dial)
      modifies this
      ensures View() == Connect(options, old(View()), dial)
    {
      hide SetState, ScheduleReconnect;
      if !started {
        return;
      }
      NextGeneration();
      channel := !dial.NoChannel?;
      if !dial.Dialled? {
        Reconnect();
      }
    }

    method Start(dial: Dial)
      modifies this
      ensures View() == Begin(options, old(View()), dial)
    {
      hide HardStop, Connect;
      if started {
        return;
      }
      if options.maxPending == 0 || !options.endpointIsValid || !options.hasProviders {
        Stop();
        return;
      }
      started := true;
      Dialling(dial);
    }

    method OnOpened(attempt: nat, ok: bool, ask: Ask)
      modifies this
      ensures View() == Opened(options, old(View()), attempt, ok, ask)
    {
      hide SetState, ScheduleReconnect, Subscribe;
      if !started || attempt != generation {
        return;
      }
      if !ok {
        Reconnect();
        return;
      }
      sessionOpen := true;
      Transition(Subscribing);
      AskForWallet(ask);
    }

    method AskForWallet(ask: Ask)
      modifies this
      ensures View() == Subscribe(options, old(View()), ask)
    {
      hide ScheduleReconnect;
      match ask {
        case NoToken =>
          Reconnect();
        case NotEncodable =>
          nextRequestId := nextRequestId + 1;
          Reconnect();
        case Written =>
          pendingRequestId := nextRequestId;
          nextRequestId := nextRequestId + 1;
          awaitingAck := true;
          faulted := faulted || !channel;
      }
    }

    method OnReceived(read: nat, frame: Frame)
      modifies this
      ensures View() == Received(options, old(View()), read, frame)
    {
      hide ScheduleReconnect, HandleResponse;
      if !started || read != generation {
        return;
      }
      match frame {
        case ReadFailed =>
          Reconnect();
        case Malformed =>
          Reconnect();
        case Heartbeat(encodable) =>
          if encodable {
            faulted := faulted || !channel;
          } else {
            Reconnect();
          }
        case Response(requestId, success) =>
          OnResponse(requestId, success);
        case Wallet(wallet) =>
          var ok := Enqueue(Data(wallet, reconciled, generation));
          if !ok {
            Reconnect();
          }
      }
    }

    method OnResponse(requestId: nat, success: bool)
      modifies this
      ensures View() == HandleResponse(options, old(View()), requestId, success)
    {
      hide SetState, ScheduleReconnect;
      if !awaitingAck || requestId != pendingRequestId {
        Reconnect();
        return;
      }
      awaitingAck := false;
      if !success {
        Reconnect();
        return;
      }
      reconciled := false;
      Transition(ReconciliationRequired);
    }

    method OnFailure(failed: nat)
      modifies this
      ensures View() == Failed(options, old(View()), failed)
    {
      if started && failed == generation {
        Reconnect();
      }
    }

    method OnAckTimeout(timed: nat)
      modifies this
      ensures View() == AckTimedOut(options, old(View()), timed)
    {
      if started && timed == generation && awaitingAck {
        Reconnect();
      }
    }

    method OnReconnectTimer(dial: Dial)
      modifies this
      ensures View() == ReconnectTimer(options, old(View()), dial)
    {
      reconnectPending := false;
      Dialling(dial);
    }

    method OnMarkReconciled(marked: nat)
      modifies this
      ensures View() == MarkReconciled(options, old(View()), marked)
    {
      hide SetState;
      if !started || marked != generation || awaitingAck || !sessionOpen || state != ReconciliationRequired {
        return;
      }
      reconciled := true;
      Transition(Live);
    }

    /** `try_pop_event`: the oldest event, if any. */
    method Pop() returns (event: Option<StreamEvent>)
      modifies this`queue
      ensures event == if old(queue) == [] then None else Some(old(queue)[0])
      ensures queue == if old(queue) == [] then [] else old(queue)[1..]
    {
      if queue == [] {
        return None;
      }
      event := Some(queue[0]);
      queue := queue[1..];
    }
  }
}
