/**
 * From the device to the driver: the server with its interrupt worker, and a guest driver that polls the
 * event ring and acknowledges what it has read, from one configuration of the ring to the next reset.
 */
module EventDelivery {
  import opened Bytes
  import opened CycleRings
  import opened EventRings
  import opened GuestMemory
  import opened HandoverSystem
  import opened Interrupters
  import opened Ownership
  import Signals = OwnerSignals
  import opened Trbs
  import opened Wrappers

  /** The server, and the queue between its worker and the driver. */
  datatype Delivery = Delivery(x: Signals.Whole, v: World)

  datatype Move =
    | ServerMoves(m: Signals.Move)
    | DriverPolls
    | DriverAcknowledges(upTo: nat)
    | MemoryWritten(a: nat, bytes: seq<Byte>)

  /** The events written since the ring was configured or reset last. */
  function WrittenSince(trace: seq<Action>): seq<EventTrb> {
    if trace == [] then []
    else
      var front, last := trace[..|trace| - 1], trace[|trace| - 1];
      match last
      case Wrote(e) => WrittenSince(front) + [e]
      case Signalled(_) => WrittenSince(front)
      case _ => []
  }

  lemma {:induction false} WrittenAfterSignal(trace: seq<Action>, line: Line)
    ensures WrittenSince(trace + [Signalled(line)]) == WrittenSince(trace)
  {
    assert (trace + [Signalled(line)])[..|trace|] == trace;
  }

  lemma {:induction false} WrittenAfterWrite(trace: seq<Action>, e: EventTrb, line: Line)
    ensures WrittenSince(trace + [Wrote(e), Signalled(line)]) == WrittenSince(trace) + [e]
  {
    var wrote := trace + [Wrote(e)];
    assert wrote[..|trace|] == trace;
    assert trace + [Wrote(e), Signalled(line)] == wrote + [Signalled(line)];
    WrittenAfterSignal(wrote, line);
  }

  /** What the server may do before the next reset takes hold. */
  predicate ServerCan(x: Signals.Whole, m: Signals.Move) {
    match m
    case HandoverStep(_) => Signals.Possible(x, m)
    case DeviceSends(e) => FitsFields(e)
    case ControllerReset => true
    case WorkerTakes => Signals.Possible(x, m) && !x.queue[0].Reset?
    case _ => false
  }

  ghost predicate CanHappen(d: Delivery, a: Move, segs: seq<Segment>)
    requires 0 < |Slots(segs)|
  {
    var table := Table(d.x.w.registers);
    match a
    case ServerMoves(m) => ServerCan(d.x, m)
    case DriverPolls => true
    case DriverAcknowledges(upTo) => Allowed(d.v, Acknowledge(upTo), table, segs)
    case MemoryWritten(x, bytes) => Allowed(d.v, WriteElsewhere(x, bytes), table, segs)
  }

  /** The queue's side of what the worker does with the message at the head of its own queue. */
  function QueueAfter(d: Delivery, m: Signals.Move, segs: seq<Segment>): World
    requires 0 < |Slots(segs)|
  {
    if m.WorkerTakes? && d.x.queue != [] && d.x.queue[0].SendEvent? && d.x.w.phase.Configured? && CanWrite(d.x.w)
    then Moved(d.v, Send(d.x.queue[0].event), Table(d.x.w.registers), segs)
    else d.v
  }

  function After(d: Delivery, a: Move, segs: seq<Segment>): Delivery
    requires 0 < |Slots(segs)|
    requires a.ServerMoves? ==> ServerCan(d.x, a.m)
  {
    var table, w := Table(d.x.w.registers), d.x.w;
    match a
    case ServerMoves(m) => Delivery(Signals.Then(d.x, m), QueueAfter(d, m, segs))
    case DriverPolls => d.(v := Moved(d.v, Take, table, segs))
    case DriverAcknowledges(upTo) =>
      var v := Moved(d.v, Acknowledge(upTo), table, segs);
      Delivery(d.x.(w := w.(registers := w.registers.(erdp := v.erdp))), v)
    case MemoryWritten(x, bytes) =>
      var v := Moved(d.v, WriteElsewhere(x, bytes), table, segs);
      Delivery(d.x.(w := w.(memory := v.memory)), v)
  }

  ghost predicate QueueFits(queue: seq<Message>) {
    forall k | 0 <= k < |queue| :: queue[k].SendEvent? ==> FitsFields(queue[k].event)
  }

  /** As long as the worker lives, it serves the queue, and what was sent on it is what its trace says was written. */
  ghost predicate InStep(d: Delivery, segs: seq<Segment>) {
    && Signals.InTune(d.x) && QueueFits(d.x.queue) && 0 < |Slots(segs)|
    && (!d.x.w.phase.Dead? ==> Serves(d.x.w, d.v, segs) && d.v.sent == WrittenSince(d.x.w.trace))
  }

  lemma TakingKeepsStep(d: Delivery, z: Delivery, segs: seq<Segment>)
    requires InStep(d, segs) && ServerCan(d.x, Signals.WorkerTakes)
    requires z == After(d, ServerMoves(Signals.WorkerTakes), segs)
    ensures !z.x.w.phase.Dead? ==> Serves(z.x.w, z.v, segs) && z.v.sent == WrittenSince(z.x.w.trace)
  {
    var w, m := d.x.w, d.x.queue[0];
    match m
    case SendEvent(e) =>
      WritingIsSending(w, d.v, e, segs);
      WrittenAfterWrite(w.trace, e, w.line);
    case UpdateInterruptLine(line) => WrittenAfterSignal(w.trace, line);
  }

  lemma ServerKeepsStep(d: Delivery, z: Delivery, m: Signals.Move, segs: seq<Segment>)
    requires InStep(d, segs) && ServerCan(d.x, m) && z == After(d, ServerMoves(m), segs)
    ensures InStep(z, segs)
  {
    Signals.MoveStaysInTune(d.x, m);
    if m.WorkerTakes? {
      TakingKeepsStep(d, z, segs);
    }
  }

  /** The queue moved on the driver's side, and the worker's registers and memory followed. */
  lemma QueueMoveIsServed(w: Worker, x: Worker, v: World, u: World, q: EventRings.Move, segs: seq<Segment>)
    requires 0 < |Slots(segs)| && Serves(w, v, segs) && !q.Send?
    requires Allowed(v, q, Table(w.registers), segs) && u == Moved(v, q, Table(w.registers), segs)
    requires x == w.(registers := w.registers.(erdp := u.erdp), memory := u.memory)
    ensures Serves(x, u, segs) && u.sent == v.sent
  {
    MoveKeepsStep(v, q, Table(w.registers), segs);
  }

  lemma DriverKeepsStep(d: Delivery, z: Delivery, a: Move, segs: seq<Segment>)
    requires InStep(d, segs) && CanHappen(d, a, segs) && !a.ServerMoves? && z == After(d, a, segs)
    ensures InStep(z, segs)
  {
    if !d.x.w.phase.Dead? {
      match a
      case DriverPolls => QueueMoveIsServed(d.x.w, z.x.w, d.v, z.v, Take, segs);
      case DriverAcknowledges(upTo) => QueueMoveIsServed(d.x.w, z.x.w, d.v, z.v, Acknowledge(upTo), segs);
      case MemoryWritten(x, bytes) => QueueMoveIsServed(d.x.w, z.x.w, d.v, z.v, WriteElsewhere(x, bytes), segs);
    }
  }

  /** The worker was waiting, the driver has set up cleared segments and writes their table's address. */
  ghost predicate Begins(d: Delivery, w: Worker, segs: seq<Segment>) {
    && Signals.InTune(d.x) && QueueFits(d.x.queue)
    && Prompt(w) && w.phase.Waiting? && CanConfigure(w.registers) && Entries(w.registers) == |segs|
    && Describes(w.memory, Table(w.registers), segs) && 0 < |Slots(segs)| && Backed(w.memory, Slots(segs))
    && (forall i | 0 <= i < |Slots(segs)| :: NeverWritten(w.memory, Slots(segs), i))
    && w.registers.erdp == Slots(segs)[0]
    && d.x.w == Notified(w) && d.v == World(w.memory, d.x.w.ring, w.registers.erdp, [], [], 0)
  }

  lemma BeginningIsInStep(d: Delivery, w: Worker, segs: seq<Segment>)
    requires Begins(d, w, segs)
    ensures InStep(d, segs)
  {
    ConfigurationStartsQueue(w, segs);
  }

  ghost predicate StepAt(ds: seq<Delivery>, moves: seq<Move>, i: nat, segs: seq<Segment>)
    requires |ds| == |moves| + 1 && i < |moves| && 0 < |Slots(segs)|
  {
    CanHappen(ds[i], moves[i], segs) && ds[i + 1] == After(ds[i], moves[i], segs)
  }

  /** A session: from a configuration of the ring to the next reset of the controller. */
  ghost predicate Session(ds: seq<Delivery>, moves: seq<Move>, segs: seq<Segment>) {
    && |ds| == |moves| + 1 && 0 < |Slots(segs)| && (exists w :: Begins(ds[0], w, segs))
    && (forall i | 0 <= i < |moves| :: StepAt(ds, moves, i, segs))
  }

  lemma {:induction false} SessionStaysInStep(ds: seq<Delivery>, moves: seq<Move>, segs: seq<Segment>, i: nat)
    requires Session(ds, moves, segs) && i < |ds|
    ensures InStep(ds[i], segs)
    decreases i
  {
    if i == 0 {
      var w :| Begins(ds[0], w, segs);
      BeginningIsInStep(ds[0], w, segs);
    } else {
      SessionStaysInStep(ds, moves, segs, i - 1);
      assert StepAt(ds, moves, i - 1, segs);
      if moves[i - 1].ServerMoves? {
        ServerKeepsStep(ds[i - 1], ds[i], moves[i - 1].m, segs);
      } else {
        DriverKeepsStep(ds[i - 1], ds[i], moves[i - 1], segs);
      }
    }
  }

  /**
   * In every session, through hand-overs, line changes and any timing of the driver, as long as the worker
   * lives: the driver has read exactly the first of the events written since the configuration, in order;
   * its next poll finds the next one if there is one; and each of them was followed by a signal on the
   * line the worker now has.
   */
  lemma DriverReadsWhatWorkerWrote(ds: seq<Delivery>, moves: seq<Move>, segs: seq<Segment>, i: nat)
    requires Session(ds, moves, segs) && i < |ds| && !ds[i].x.w.phase.Dead?
    ensures var v, w, written := ds[i].v, ds[i].x.w, WrittenSince(ds[i].x.w.trace);
      && |v.received| <= |written|
      && (forall k | 0 <= k < |v.received| :: ReadEvent(v.received[k]) == Some(written[k]))
      && var next := Poll(w.memory, Slots(segs), |v.received|);
      && (next.Some? <==> |v.received| < |written|)
      && (next.Some? ==> ReadEvent(next.value) == Some(written[|v.received|]))
      && NothingLost(w.trace, w.line)
  {
    SessionStaysInStep(ds, moves, segs, i);
    DriverReadsPrefix(ds[i].v, Table(ds[i].x.w.registers), segs);
    PromptLosesNothing(ds[i].x.w);
  }

  /**
   * The worker dies of a full ring only, that is only while the driver is a full turn behind with its
   * acknowledgements.
   */
  lemma WorkerDiesOfFullRingOnly(ds: seq<Delivery>, moves: seq<Move>, segs: seq<Segment>, i: nat)
    requires Session(ds, moves, segs) && i < |moves| && !ds[i].x.w.phase.Dead?
    ensures ds[i + 1].x.w.phase.Dead? <==>
      && moves[i] == ServerMoves(Signals.WorkerTakes) && ds[i].x.queue != [] && ds[i].x.queue[0].SendEvent?
      && |ds[i].v.sent| + 1 == ds[i].v.acknowledged + |Slots(segs)|
  {
    SessionStaysInStep(ds, moves, segs, i);
    assert StepAt(ds, moves, i, segs);
    if moves[i] == ServerMoves(Signals.WorkerTakes) && ds[i].x.queue[0].SendEvent? {
      WritingIsSending(ds[i].x.w, ds[i].v, ds[i].x.queue[0].event, segs);
    }
  }
}
