/** What the consumer of the private stream sees: which state change precedes a reconciled event. */
module StreamDelivery {
  import opened Foundations
  import opened PrivateStream
  import opened StreamSafety

  // ---- Confirmations that took effect ----

  /** The caller's mark made the session live. */
  predicate TakesEffect(c: Client, step: Step, d: Client) { step.Confirm? && c.state != Live && d.state == Live }

  /** Step `j` of a run is a mark for `g` that took effect. */
  ghost predicate TookEffect(o: Options, steps: seq<Step>, j: nat, g: nat) {
    && j < |steps| && steps[j] == Confirm(g)
    && TakesEffect(Run(o, steps[..j]).client, steps[j], Run(o, steps[..j + 1]).client)
  }

  /** The queue had room for one more event before step `j`. */
  ghost predicate HadRoom(o: Options, steps: seq<Step>, j: nat)
    requires j <= |steps|
  {
    |Run(o, steps[..j]).client.queue| < o.maxPending
  }

  /** For each generation that went live, whether the queue had room then. */
  function Rooms(o: Options, steps: seq<Step>): map<nat, bool> {
    if steps == [] then map[]
    else
      var front, last := steps[..|steps| - 1], steps[|steps| - 1];
      var c := Run(o, front).client;
      if TakesEffect(c, last, Next(o, Run(o, front), last).client)
      then Rooms(o, front)[last.generation := |c.queue| < o.maxPending] else Rooms(o, front)
  }

  // ---- Announcements ----

  function LastChange(stream: seq<StreamEvent>): Option<StreamEvent> {
    if stream == [] then None
    else
      var e := stream[|stream| - 1];
      if e.StateChange? then Some(e) else LastChange(stream[..|stream| - 1])
  }

  function Announcement(room: bool, g: nat): StreamEvent { StateChange(if room then Live else Degraded, g) }

  predicate Announces(rooms: map<nat, bool>, change: Option<StreamEvent>, g: nat) {
    g in rooms && change == Some(Announcement(rooms[g], g))
  }

  /** The last state change before every reconciled event is the announcement of its own generation. */
  ghost predicate Ordered(rooms: map<nat, bool>, stream: seq<StreamEvent>) {
    forall k | 0 <= k < |stream| && stream[k].Data? && stream[k].reconciled ::
      Announces(rooms, LastChange(stream[..k]), stream[k].generation)
  }

  ghost predicate Announced(rooms: map<nat, bool>, c: Client, delivered: seq<StreamEvent>) {
    && Ordered(rooms, delivered + c.queue)
    && (c.reconciled ==> Announces(rooms, LastChange(delivered + c.queue), c.generation))
  }

  predicate Quieted(c: Client) { c.state in {Live, ReconnectWait, Stopped} && !c.awaitingAck }

  /** A generation that has been live is live or over. */
  predicate Settled(w: World) { Quieted(w.client) && w.client.generation !in w.opening }

  ghost predicate Told(w: World, rooms: map<nat, bool>) {
    && Announced(rooms, w.client, w.delivered)
    && (forall g | g in rooms :: g <= w.client.generation)
    && (w.client.generation in rooms ==> Settled(w))
  }

  lemma OrderedPrefix(rooms: map<nat, bool>, stream: seq<StreamEvent>, n: nat)
    requires n <= |stream| && Ordered(rooms, stream)
    ensures Ordered(rooms, stream[..n])
  {
    hide LastChange;
    var p := stream[..n];
    forall k | 0 <= k < |p| && p[k].Data? && p[k].reconciled
      ensures Announces(rooms, LastChange(p[..k]), p[k].generation)
    {
      assert p[..k] == stream[..k];
    }
  }

  lemma OrderedAppend(rooms: map<nat, bool>, stream: seq<StreamEvent>, e: StreamEvent)
    requires Ordered(rooms, stream) && (e.Data? && e.reconciled ==> Announces(rooms, LastChange(stream), e.generation))
    ensures Ordered(rooms, stream + [e])
    ensures LastChange(stream + [e]) == if e.StateChange? then Some(e) else LastChange(stream)
  {
    var more := stream + [e];
    assert more[..|stream|] == stream;
    forall k | 0 <= k < |more| && more[k].Data? && more[k].reconciled
      ensures Announces(rooms, LastChange(more[..k]), more[k].generation)
    {
      if k < |stream| {
        assert more[..k] == stream[..k];
      }
    }
  }

  /** A state change is announced as itself, or as degraded when the queue is full. */
  lemma ChangeIsOrdered(rooms: map<nat, bool>, o: Options, c: Client, value: StreamState, delivered: seq<StreamEvent>)
    requires Ordered(rooms, delivered + c.queue)
    ensures var d := SetState(o, c, value);
            && Ordered(rooms, delivered + d.queue)
            && LastChange(delivered + d.queue)
               == Some(StateChange(if |c.queue| < o.maxPending then value else Degraded, c.generation))
  {
    hide Ordered, LastChange;
    var d := SetState(o, c, value);
    if |c.queue| < o.maxPending {
      OrderedAppend(rooms, delivered + c.queue, StateChange(value, c.generation));
      assert delivered + d.queue == delivered + c.queue + [StateChange(value, c.generation)];
    } else {
      OrderedPrefix(rooms, delivered + c.queue, |delivered|);
      assert (delivered + c.queue)[..|delivered|] == delivered;
      OrderedAppend(rooms, delivered, StateChange(Degraded, c.generation));
    }
  }

  lemma ChangeIsAnnounced(rooms: map<nat, bool>, o: Options, c: Client, value: StreamState, delivered: seq<StreamEvent>)
    requires Ordered(rooms, delivered + c.queue) && !c.reconciled
    ensures Announced(rooms, SetState(o, c, value), delivered)
  {
    hide Ordered, LastChange;
    ChangeIsOrdered(rooms, o, c, value, delivered);
  }

  lemma ScheduleIsAnnounced(rooms: map<nat, bool>, o: Options, c: Client, delivered: seq<StreamEvent>)
    requires Announced(rooms, c, delivered)
    ensures Announced(rooms, ScheduleReconnect(o, c), delivered)
  {
    hide Ordered, LastChange, SetState;
    var e := c.(reconnectPending := true, channel := false, sessionOpen := false, awaitingAck := false, reconciled := false);
    ChangeIsAnnounced(rooms, o, e, ReconnectWait, delivered);
  }

  lemma ConnectIsAnnounced(rooms: map<nat, bool>, o: Options, c: Client, dial: Dial, delivered: seq<StreamEvent>)
    requires Announced(rooms, c, delivered)
    ensures Announced(rooms, Connect(o, c, dial), delivered)
  {
    hide Ordered, LastChange, SetState, ScheduleReconnect;
    var e := c.(reconnectPending := false, generation := c.generation + 1, sessionOpen := false, awaitingAck := false,
                reconciled := false);
    ChangeIsAnnounced(rooms, o, e, Connecting, delivered);
    var d := SetState(o, e, Connecting);
    ScheduleIsAnnounced(rooms, o, d.(channel := false), delivered);
    ScheduleIsAnnounced(rooms, o, d.(channel := true), delivered);
  }

  lemma StopIsAnnounced(rooms: map<nat, bool>, o: Options, c: Client, delivered: seq<StreamEvent>)
    requires Announced(rooms, c, delivered)
    ensures Announced(rooms, HardStop(o, c), delivered)
  {
    hide Ordered, LastChange, SetState;
    var e := c.(started := false, sessionOpen := false, awaitingAck := false, reconciled := false,
                reconnectPending := false, channel := false);
    ChangeIsAnnounced(rooms, o, e, Stopped, delivered);
  }

  lemma OpenIsAnnounced(rooms: map<nat, bool>, o: Options, w: World, g: nat, ok: bool, ask: Ask)
    requires Good(w) && Announced(rooms, w.client, w.delivered) && g in w.opening
    ensures Announced(rooms, Opened(o, w.client, g, ok, ask), w.delivered)
  {
    hide Ordered, LastChange, SetState, ScheduleReconnect, Linked, AllCertified;
    var c := w.client;
    ScheduleIsAnnounced(rooms, o, c, w.delivered);
    if Current(c, g) && ok {
      var d := SetState(o, c.(sessionOpen := true), Subscribing);
      ChangeIsAnnounced(rooms, o, c.(sessionOpen := true), Subscribing, w.delivered);
      ScheduleIsAnnounced(rooms, o, d, w.delivered);
      ScheduleIsAnnounced(rooms, o, d.(nextRequestId := d.nextRequestId + 1), w.delivered);
    }
  }

  lemma ReadIsAnnounced(rooms: map<nat, bool>, o: Options, c: Client, g: nat, frame: Frame, delivered: seq<StreamEvent>)
    requires Announced(rooms, c, delivered)
    ensures Announced(rooms, Received(o, c, g, frame), delivered)
  {
    hide Ordered, LastChange, SetState, ScheduleReconnect;
    ScheduleIsAnnounced(rooms, o, c, delivered);
    ScheduleIsAnnounced(rooms, o, c.(awaitingAck := false), delivered);
    ChangeIsAnnounced(rooms, o, c.(awaitingAck := false, reconciled := false), ReconciliationRequired, delivered);
    if frame.Wallet? {
      var e := Data(frame.wallet, c.reconciled, c.generation);
      OrderedAppend(rooms, delivered + c.queue, e);
      assert delivered + (c.queue + [e]) == delivered + c.queue + [e];
    }
  }

  /** A mark that takes effect announces its generation for the first time. */
  lemma ConfirmIsAnnounced(rooms: map<nat, bool>, o: Options, c: Client, delivered: seq<StreamEvent>)
    requires Ordered(rooms, delivered + c.queue) && c.generation !in rooms
    ensures var room := |c.queue| < o.maxPending;
            Announced(rooms[c.generation := room], SetState(o, c.(reconciled := true), Live), delivered)
  {
    hide LastChange, SetState;
    var after := rooms[c.generation := |c.queue| < o.maxPending];
    assert Ordered(after, delivered + c.queue);
    hide Ordered;
    SetStateKeeps(o, c.(reconciled := true), Live);
    ChangeIsOrdered(after, o, c.(reconciled := true), Live, delivered);
  }

  /** Every step but an effective mark. */
  lemma QuietStepIsAnnounced(rooms: map<nat, bool>, o: Options, w: World, step: Step)
    requires Good(w) && Announced(rooms, w.client, w.delivered)
    requires !TakesEffect(w.client, step, Next(o, w, step).client)
    ensures Announced(rooms, Next(o, w, step).client, Next(o, w, step).delivered)
  {
    hide Ordered, LastChange, ScheduleReconnect, Connect, HardStop, Received, Opened, Good, Emitted;
    var c := w.client;
    if !c.faulted && Enabled(w, step) {
      match step {
        case Start(dial) =>
          StopIsAnnounced(rooms, o, c, w.delivered);
          ConnectIsAnnounced(rooms, o, c.(started := true), dial, w.delivered);
        case Stop => StopIsAnnounced(rooms, o, c, w.delivered);
        case Timer(dial) => ConnectIsAnnounced(rooms, o, c.(reconnectPending := false), dial, w.delivered);
        case OpenDone(g, ok, ask) => OpenIsAnnounced(rooms, o, w, g, ok, ask);
        case ReadDone(g, frame) => ReadIsAnnounced(rooms, o, c, g, frame, w.delivered);
        case Failure(g) => ScheduleIsAnnounced(rooms, o, c, w.delivered);
        case AckTimer(g) => ScheduleIsAnnounced(rooms, o, c, w.delivered);
        case Confirm(g) =>
        case Pop =>
          if c.queue != [] {
            assert w.delivered + [c.queue[0]] + c.queue[1..] == w.delivered + c.queue;
          }
      }
    }
  }

  lemma ScheduleQuiets(o: Options, c: Client)
    requires Quieted(c)
    ensures Quieted(ScheduleReconnect(o, c))
  {
  }

  lemma HandledSettled(o: Options, w: World, step: Step)
    requires Enabled(w, step) && Settled(w) && Handled(o, w.client, step).generation == w.client.generation
    ensures Quieted(Handled(o, w.client, step))
  {
    hide ScheduleReconnect, Connect, SetState;
    var c := w.client;
    ScheduleQuiets(o, c);
    match step {
      case Start(dial) =>
        ConnectGeneration(o, c.(started := true), dial);
        SetStateKeeps(o, c.(started := false, sessionOpen := false, awaitingAck := false, reconciled := false,
                            reconnectPending := false, channel := false), Stopped);
      case Stop =>
        SetStateKeeps(o, c.(started := false, sessionOpen := false, awaitingAck := false, reconciled := false,
                            reconnectPending := false, channel := false), Stopped);
      case Timer(dial) =>
        ConnectGeneration(o, c.(reconnectPending := false), dial);
        if !c.started {
          IdleTimer(o, c, dial);
        }
      case _ =>
    }
  }

  lemma StepKeepsSettled(o: Options, w: World, step: Step)
    requires Settled(w) && Next(o, w, step).client.generation == w.client.generation
    ensures Settled(Next(o, w, step))
  {
    hide Handled, Emitted;
    if !w.client.faulted && Enabled(w, step) {
      HandledSettled(o, w, step);
    }
  }

  /** An effective mark is for the current generation, which was waiting for it. */
  lemma EffectiveMark(o: Options, w: World, step: Step)
    requires TakesEffect(w.client, step, Next(o, w, step).client)
    ensures var c, v := w.client, Next(o, w, step);
            && !c.faulted && step.generation == c.generation && c.state == ReconciliationRequired && !c.awaitingAck
            && v.client == SetState(o, c.(reconciled := true), Live) && v.delivered == w.delivered
            && v.opening == w.opening && v.client.generation == c.generation
  {
    hide Emitted;
  }

  lemma StepIsTold(o: Options, w: World, rooms: map<nat, bool>, step: Step)
    requires Good(w) && Told(w, rooms)
    ensures var v := Next(o, w, step);
            Told(v, if TakesEffect(w.client, step, v.client)
                    then rooms[step.generation := |w.client.queue| < o.maxPending] else rooms)
  {
    hide Announced, Next, Good;
    var v := Next(o, w, step);
    if TakesEffect(w.client, step, v.client) {
      EffectiveMark(o, w, step);
      PendingIsSettled(w);
      assert Ordered(rooms, w.delivered + w.client.queue) by { AnnouncedIsOrdered(rooms, w.client, w.delivered); }
      ConfirmIsAnnounced(rooms, o, w.client, w.delivered);
    } else {
      QuietStepIsAnnounced(rooms, o, w, step);
      GenerationGrows(o, w, step);
      if v.client.generation == w.client.generation && w.client.generation in rooms {
        StepKeepsSettled(o, w, step);
      }
    }
  }

  lemma AnnouncedIsOrdered(rooms: map<nat, bool>, c: Client, delivered: seq<StreamEvent>)
    requires Announced(rooms, c, delivered)
    ensures Ordered(rooms, delivered + c.queue)
  {
  }

  /** A generation past its acknowledgement has had its open. */
  lemma PendingIsSettled(w: World)
    requires Good(w) && w.client.state == ReconciliationRequired
    ensures w.client.generation !in w.opening
  {
    hide Linked, AllCertified;
  }

  lemma GenerationGrows(o: Options, w: World, step: Step)
    ensures Next(o, w, step).client.generation >= w.client.generation
  {
    hide Handled, Emitted, Fits;
    GenerationStep(o, w.client, step);
  }

  lemma {:induction false} RunIsTold(o: Options, steps: seq<Step>)
    ensures Told(Run(o, steps), Rooms(o, steps))
    decreases |steps|
  {
    hide Told, Next, Good;
    if steps == [] {
      NothingToTell();
    } else {
      RunIsTold(o, steps[..|steps| - 1]);
      RunIsGood(o, steps[..|steps| - 1]);
      StepIsTold(o, Run(o, steps[..|steps| - 1]), Rooms(o, steps[..|steps| - 1]), steps[|steps| - 1]);
    }
  }

  lemma NothingToTell()
    ensures Told(START, map[])
  {
  }

  // ---- One effective mark per generation ----

  lemma {:induction false} RoomHasStep(o: Options, steps: seq<Step>, g: nat) returns (j: nat)
    requires g in Rooms(o, steps)
    ensures TookEffect(o, steps, j, g)
    decreases |steps|
  {
    hide Next;
    var front, last := steps[..|steps| - 1], steps[|steps| - 1];
    assert steps[..|steps|] == steps;
    if TakesEffect(Run(o, front).client, last, Next(o, Run(o, front), last).client) && last.generation == g {
      j := |steps| - 1;
    } else {
      j := RoomHasStep(o, front, g);
      assert front[..j] == steps[..j] && front[..j + 1] == steps[..j + 1];
    }
  }

  lemma {:induction false} StepHasRoom(o: Options, steps: seq<Step>, j: nat, g: nat)
    requires TookEffect(o, steps, j, g)
    ensures g in Rooms(o, steps) && Rooms(o, steps)[g] == HadRoom(o, steps, j)
    decreases |steps|
  {
    hide Next;
    var front, last := steps[..|steps| - 1], steps[|steps| - 1];
    if j < |front| {
      assert front[..j] == steps[..j] && front[..j + 1] == steps[..j + 1];
      StepHasRoom(o, front, j, g);
      if TakesEffect(Run(o, front).client, last, Next(o, Run(o, front), last).client) {
        FirstTimeOnly(o, front, last);
      }
    } else {
      assert steps[..j] == front && steps[..j + 1] == steps;
    }
  }

  /** A mark takes effect only for a generation that has not been live. */
  lemma FirstTimeOnly(o: Options, steps: seq<Step>, step: Step)
    requires TakesEffect(Run(o, steps).client, step, Next(o, Run(o, steps), step).client)
    ensures step.generation !in Rooms(o, steps)
  {
    hide Next, Announced, Rooms, Run;
    RunIsTold(o, steps);
    EffectiveMark(o, Run(o, steps), step);
  }

  lemma EffectIsOnce(o: Options, steps: seq<Step>, i: nat, j: nat, g: nat)
    requires TookEffect(o, steps, i, g) && TookEffect(o, steps, j, g)
    ensures i >= j
  {
    hide Rooms, Run, Next;
    if i < j {
      var before := steps[..j];
      assert before[..i] == steps[..i] && before[..i + 1] == steps[..i + 1];
      StepHasRoom(o, before, i, g);
      assert steps[..j + 1] == before + [steps[j]];
      Unrolled(o, before, steps[j]);
      FirstTimeOnly(o, before, steps[j]);
    }
  }

  // ---- The theorems ----

  /** In every run, before the consumer takes a reconciled event of `g` exactly one mark for `g` took effect, and the last
      state change the consumer has taken is of `g`: to live exactly when the queue had room at that mark, and to
      degraded otherwise. */
  lemma ConsumerIsTold(o: Options, steps: seq<Step>, k: nat) returns (j: nat)
    requires k < |Run(o, steps).delivered|
    requires Run(o, steps).delivered[k].Data? && Run(o, steps).delivered[k].reconciled
    ensures var seen := Run(o, steps).delivered;
            var g := seen[k].generation;
            && TookEffect(o, steps, j, g) && (forall i | TookEffect(o, steps, i, g) :: i == j)
            && LastChange(seen[..k]) == Some(StateChange(if HadRoom(o, steps, j) then Live else Degraded, g))
            && (LastChange(seen[..k]) == Some(StateChange(Live, g)) <==> HadRoom(o, steps, j))
  {
    hide Run, Rooms, LastChange, TookEffect, HadRoom;
    RunIsTold(o, steps);
    var w := Run(o, steps);
    var g, stream := w.delivered[k].generation, w.delivered + w.client.queue;
    assert stream[..k] == w.delivered[..k] && stream[k] == w.delivered[k];
    j := RoomHasStep(o, steps, g);
    StepHasRoom(o, steps, j, g);
    forall i | TookEffect(o, steps, i, g) ensures i == j {
      EffectIsOnce(o, steps, i, j, g);
      EffectIsOnce(o, steps, j, i, g);
    }
  }

  /** Both cases occur. With room for three events, the consumer of an undisturbed session is never told that it is live:
      it takes the degraded event and then a reconciled one. */
  lemma OverflowHidesLive(o: Options, wallet: Text)
    requires o.maxPending == 3 && o.endpointIsValid && o.hasProviders
    ensures var steps := [Start(Dialled), OpenDone(1, true, Written), ReadDone(1, Response(1, true)), Confirm(1),
                          ReadDone(1, Wallet(wallet)), Pop, Pop];
            && Run(o, steps).delivered == [StateChange(Degraded, 1), Data(wallet, true, 1)]
            && Run(o, steps).client.state == Live
  {
    hide Run, Next;
    var s1, s2, s3, s4 := Start(Dialled), OpenDone(1, true, Written), ReadDone(1, Response(1, true)), Confirm(1);
    var s5 := ReadDone(1, Wallet(wallet));
    Unrolled(o, [], s1);
    Unrolled(o, [s1], s2);
    Unrolled(o, [s1, s2], s3);
    Unrolled(o, [s1, s2, s3], s4);
    Unrolled(o, [s1, s2, s3, s4], s5);
    Unrolled(o, [s1, s2, s3, s4, s5], Pop);
    Unrolled(o, [s1, s2, s3, s4, s5, Pop], Pop);
    assert [] + [s1] == [s1] && [s1] + [s2] == [s1, s2] && [s1, s2] + [s3] == [s1, s2, s3];
    assert [s1, s2, s3] + [s4] == [s1, s2, s3, s4] && [s1, s2, s3, s4] + [s5] == [s1, s2, s3, s4, s5];
    assert [s1, s2, s3, s4, s5] + [Pop] == [s1, s2, s3, s4, s5, Pop];
    assert [s1, s2, s3, s4, s5, Pop] + [Pop] == [s1, s2, s3, s4, s5, Pop, Pop];
    FullQueue(o);
    LiveOnFullQueue(o, Run(o, [s1, s2, s3]), wallet);
  }

  /** The three state changes of the handshake fill the queue. */
  lemma FullQueue(o: Options)
    requires o.maxPending == 3 && o.endpointIsValid && o.hasProviders
    ensures var w := Next(o, Next(o, Next(o, START, Start(Dialled)), OpenDone(1, true, Written)),
                          ReadDone(1, Response(1, true)));
            Waiting(w)
  {
    hide Emitted;
    var w1 := Next(o, START, Start(Dialled));
    assert w1.client.generation == 1 && 1 in w1.opening && |w1.client.queue| == 1 && w1.client.nextRequestId == 1;
    var w2 := Next(o, w1, OpenDone(1, true, Written));
    assert 1 in w2.reading && w2.client.awaitingAck && w2.client.pendingRequestId == 1 && |w2.client.queue| == 2;
  }

  predicate Waiting(w: World) {
    && 1 in w.reading && |w.client.queue| == 3 && w.client.channel && w.client.sessionOpen && w.client.started
    && w.client.generation == 1 && !w.client.faulted && !w.client.reconnectPending && !w.client.awaitingAck
    && w.client.state == ReconciliationRequired && w.delivered == []
  }

  lemma LiveOnFullQueue(o: Options, w: World, wallet: Text)
    requires o.maxPending == 3 && Waiting(w)
    ensures var v := Next(o, Next(o, Next(o, Next(o, w, Confirm(1)), ReadDone(1, Wallet(wallet))), Pop), Pop);
            v.delivered == [StateChange(Degraded, 1), Data(wallet, true, 1)] && v.client.state == Live
  {
    hide Next, Handled;
    var w4 := Next(o, w, Confirm(1));
    FullConfirm(o, w);
    var w5 := Next(o, w4, ReadDone(1, Wallet(wallet)));
    RoomyRead(o, w4, wallet);
    PopTwo(o, w5);
  }

  lemma FullConfirm(o: Options, w: World)
    requires o.maxPending == 3 && Waiting(w)
    ensures var v := Next(o, w, Confirm(1));
            && v.client == w.client.(reconciled := true, state := Live, queue := [StateChange(Degraded, 1)])
            && 1 in v.reading && v.delivered == []
  {
    hide Emitted;
  }

  lemma RoomyRead(o: Options, w: World, wallet: Text)
    requires 1 in w.reading && Current(w.client, 1) && !w.client.faulted && |w.client.queue| < o.maxPending
    ensures var v := Next(o, w, ReadDone(1, Wallet(wallet)));
            && v.client == w.client.(queue := w.client.queue + [Data(wallet, w.client.reconciled, 1)])
            && v.delivered == w.delivered
  {
    hide Emitted;
  }

  lemma PopTwo(o: Options, w: World)
    requires |w.client.queue| == 2 && !w.client.faulted
    ensures var v := Next(o, Next(o, w, Pop), Pop);
            v.delivered == w.delivered + w.client.queue && v.client == w.client.(queue := [])
  {
    hide Emitted;
    var q := w.client.queue;
    assert w.delivered + [q[0]] + [q[1..][0]] == w.delivered + q && q[1..][1..] == [];
  }
}
