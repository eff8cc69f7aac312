/**
 * The interrupt worker: one thread works through a queue of events, line changes and resets, and
 * waits for the driver to configure the event ring before it writes anything.
 */
module Interrupters {
  import opened Bytes
  import opened CycleRings
  import opened EventRings
  import opened GuestMemory
  import opened Modular
  import opened Ownership
  import opened Trbs

  datatype Message = SendEvent(event: EventTrb) | UpdateInterruptLine(line: Line) | Reset

  /** The registers of the interrupter the guest writes at any time. */
  datatype Registers = Registers(erstba: nat, erstsz: nat, erdp: nat)

  function Table(r: Registers): nat { r.erstba - r.erstba % 32 }

  function Entries(r: Registers): nat { r.erstsz % TWO_32 }

  /** What the worker did, in order; this is what the guest can tell. */
  datatype Action = ConfiguredFrom(index: nat) | Wrote(event: EventTrb) | Signalled(line: Line) | WasReset

  /** `Dead` stands for a panicked worker: a misaligned or empty table, or a full ring. */
  datatype Phase = Waiting | Configured | Dead

  datatype Worker = Worker(
    phase: Phase, line: Line, ring: RingState, registers: Registers, memory: Memory, trace: seq<Action>)

  predicate CanConfigure(r: Registers) { Table(r) % 64 == 0 && 0 < Entries(r) }

  /** The driver wrote the table address while the worker was waiting for it. */
  function Notified(w: Worker): Worker {
    if CanConfigure(w.registers)
    then
      var t := Table(w.registers);
      w.(phase := Configured, trace := w.trace + [ConfiguredFrom(w.ring.erstCount)],
         ring := RingState(EntryBase(w.memory, t, 0), EntrySize(w.memory, t, 0), w.ring.erstCount, true))
    else w.(phase := Dead)
  }

  function AfterReset(w: Worker): Worker {
    w.(phase := Waiting, ring := UNCONFIGURED, registers := Registers(0, 0, 0), trace := w.trace + [WasReset])
  }

  predicate CanWrite(w: Worker) {
    && (w.ring.trbCount == 1 ==> 0 < Entries(w.registers))
    && !Full(w.memory, w.ring, Table(w.registers), Entries(w.registers), w.registers.erdp)
  }

  function EventWritten(w: Worker, e: EventTrb): Worker {
    if CanWrite(w)
    then
      var (m, r) := Enqueued(w.memory, w.ring, e, Table(w.registers), Entries(w.registers));
      w.(memory := m, ring := r, trace := w.trace + [Wrote(e), Signalled(w.line)])
    else w.(phase := Dead)
  }

  function Handled(w: Worker, m: Message): Worker
    requires !w.phase.Dead?
  {
    match m
    case SendEvent(e) => if w.phase.Waiting? then w else EventWritten(w, e)
    case UpdateInterruptLine(line) =>
      if w.phase.Waiting? then w.(line := line) else w.(line := line, trace := w.trace + [Signalled(line)])
    case Reset => AfterReset(w)
  }

  /** Working through a whole queue; a dead worker takes nothing more. */
  function Drained(w: Worker, queue: seq<Message>, n: nat): Worker
    requires n <= |queue|
  {
    if n == 0 then w
    else
      var v := Drained(w, queue, n - 1);
      if v.phase.Dead? then v else Handled(v, queue[n - 1])
  }

  class EventWorker {
    var registers: Registers
    var interruptLine: Line
    const eventRing: EventRing
    var phase: Phase
    ghost var trace: seq<Action>

    ghost function View(): Worker
      reads this, eventRing, eventRing.dma
    {
      Worker(phase, interruptLine, eventRing.View(), registers, eventRing.dma.bytes, trace)
    }

    constructor (dma: DmaMemory)
      ensures View() == Worker(Waiting, Unconnected, UNCONFIGURED, Registers(0, 0, 0), dma.bytes, [])
      ensures eventRing.dma == dma && fresh(eventRing)
    {
      eventRing := new EventRing(dma);
      registers, interruptLine, phase, trace := Registers(0, 0, 0), Unconnected, Waiting, [];
    }

    method ConfigureOnNotification()
      requires phase.Waiting?
      modifies this, eventRing
      ensures View() == Notified(old(View()))
    {
      var table, entries := registers.erstba - registers.erstba % 32, registers.erstsz % TWO_32;
      if table % 64 != 0 || entries == 0 {
        phase := Dead;
        return;
      }
      trace := trace + [ConfiguredFrom(eventRing.erstCount)];
      eventRing.Configure(table, entries);
      phase := Configured;
    }

    method ResetRegisters()
      modifies this, eventRing
      ensures View() == AfterReset(old(View()))
    {
      registers := Registers(0, 0, 0);
      eventRing.Reset();
      phase := Waiting;
      trace := trace + [WasReset];
    }

    method WriteEvent(e: EventTrb)
      requires phase.Configured?
      modifies this, eventRing, eventRing.dma
      ensures View() == EventWritten(old(View()), e)
    {
      var table, entries := registers.erstba - registers.erstba % 32, registers.erstsz % TWO_32;
      if eventRing.trbCount == 1 && entries == 0 {
        phase := Dead;
        return;
      }
      var full := eventRing.CheckEventRingFull(table, entries, registers.erdp);
      if full {
        phase := Dead;
        return;
      }
      eventRing.Enqueue(e, table, entries, registers.erdp);
      trace := trace + [Wrote(e), Signalled(interruptLine)];
    }

    /** Before configuration events are dropped, but lines and resets are not. */
    method HandleWhileWaiting(m: Message)
      requires phase.Waiting?
      modifies this, eventRing
      ensures View() == Handled(old(View()), m)
    {
      match m
      case SendEvent(_) =>
      case UpdateInterruptLine(line) => interruptLine := line;
      case Reset => ResetRegisters();
    }

    /**
     * A new line is signalled once: events written before it were signalled on a line nobody may listen to
     * any more.
     */
    method HandleConfigured(m: Message)
      requires phase.Configured?
      modifies this, eventRing, eventRing.dma
      ensures View() == Handled(old(View()), m)
    {
      match m
      case SendEvent(e) => WriteEvent(e);
      case UpdateInterruptLine(line) =>
        interruptLine := line;
        trace := trace + [Signalled(line)];
      case Reset => ResetRegisters();
    }

    /** Works through the queue as long as nobody writes a register and the worker is alive. */
    method Drain(queue: seq<Message>)
      requires !phase.Dead?
      modifies this, eventRing, eventRing.dma
      ensures View() == Drained(old(View()), queue, |queue|)
    {
      var i := 0;
      while i < |queue| && !phase.Dead?
        invariant i <= |queue|
        invariant View() == Drained(old(View()), queue, i)
      {
        if phase.Waiting? {
          HandleWhileWaiting(queue[i]);
        } else {
          HandleConfigured(queue[i]);
        }
        i := i + 1;
      }
      DeadTakesNothing(old(View()), queue, i);
    }
  }

  lemma {:induction false} DeadTakesNothing(w: Worker, queue: seq<Message>, n: nat)
    requires n <= |queue| && (n < |queue| ==> Drained(w, queue, n).phase.Dead?)
    ensures Drained(w, queue, |queue|) == Drained(w, queue, n)
    decreases |queue| - n
  {
    if n < |queue| {
      DeadTakesNothing(w, queue, n + 1);
    }
  }

  // ---------------------------------------------------------------------
  // No interrupt is lost
  // ---------------------------------------------------------------------

  /** Entry `k` of the trace is an event written since the ring was configured last. */
  ghost predicate WrittenSinceConfigured(trace: seq<Action>, k: nat) {
    k < |trace| && trace[k].Wrote? && forall j | k <= j < |trace| :: !trace[j].ConfiguredFrom? && !trace[j].WasReset?
  }

  /** Every event written since the last configuration was followed by a signal on this line. */
  ghost predicate NothingLost(trace: seq<Action>, line: Line) {
    forall k | 0 <= k < |trace| && WrittenSinceConfigured(trace, k) :: SignalledAfter(trace, k, line)
  }

  ghost predicate SignalledAfter(trace: seq<Action>, k: nat, line: Line) {
    exists j | k < j < |trace| :: trace[j] == Signalled(line)
  }

  /** At the head of the loop the worker's last action was a signal on its line, or there is nothing to signal. */
  ghost predicate Prompt(w: Worker) {
    && (w.phase.Waiting? ==>
          w.ring == RingState(0, 0, 0, false) && (w.trace == [] || w.trace[|w.trace| - 1] == WasReset))
    && (w.phase.Configured? ==>
          0 < |w.trace| && var last := w.trace[|w.trace| - 1]; last.ConfiguredFrom? || last == Signalled(w.line))
    && (forall k | 0 <= k < |w.trace| && w.trace[k].ConfiguredFrom? :: w.trace[k].index == 0)
  }

  lemma PromptLosesNothing(w: Worker)
    requires Prompt(w) && !w.phase.Dead?
    ensures NothingLost(w.trace, w.line)
  {
    forall k | 0 <= k < |w.trace| && WrittenSinceConfigured(w.trace, k) ensures SignalledAfter(w.trace, k, w.line) {
      assert w.trace[|w.trace| - 1] == Signalled(w.line);
    }
  }

  lemma HandlingStaysPrompt(w: Worker, m: Message)
    requires Prompt(w) && !w.phase.Dead?
    ensures Prompt(Handled(w, m))
  {
  }

  lemma NotificationStaysPrompt(w: Worker)
    requires Prompt(w) && w.phase.Waiting?
    ensures Prompt(Notified(w))
  {
  }

  /** The line the worker ends up on when the queue is worked through. */
  function LastLine(queue: seq<Message>, line: Line): Line {
    if queue == [] then line
    else
      var last := queue[|queue| - 1];
      if last.UpdateInterruptLine? then last.line else LastLine(queue[..|queue| - 1], line)
  }

  /** Taking the head off the queue does not change where the line ends up. */
  lemma {:induction false} LastLineAfterHead(queue: seq<Message>, line: Line)
    requires queue != []
    ensures LastLine(queue, line) ==
      LastLine(queue[1..], if queue[0].UpdateInterruptLine? then queue[0].line else line)
  {
    var n := |queue|;
    if n > 1 && !queue[n - 1].UpdateInterruptLine? {
      LastLineAfterHead(queue[..n - 1], line);
      assert queue[..n - 1][1..] == queue[1..][..n - 2];
    }
  }

  /** Whatever the queue holds, a worker that survives it stands on the last line handed over. */
  lemma {:induction false} DrainingReachesLastLine(w: Worker, queue: seq<Message>, n: nat)
    requires n <= |queue|
    ensures var v := Drained(w, queue, n); !v.phase.Dead? ==> v.line == LastLine(queue[..n], w.line)
  {
    if n > 0 {
      DrainingReachesLastLine(w, queue, n - 1);
      assert queue[..n][..n - 1] == queue[..n - 1];
    }
  }

  // ---------------------------------------------------------------------
  // The worker and the queue the driver reads
  // ---------------------------------------------------------------------

  /** The worker's ring, memory and registers are those of a queue over these segments. */
  ghost predicate Serves(w: Worker, v: World, segs: seq<Segment>) {
    && w.phase.Configured? && v.memory == w.memory && v.ring == w.ring && v.erdp == w.registers.erdp
    && Entries(w.registers) == |segs| && InStep(v, Table(w.registers), segs)
  }

  /** A prompt worker that is configured over a described table of cleared slots starts an empty queue. */
  lemma ConfigurationStartsQueue(w: Worker, segs: seq<Segment>)
    requires Prompt(w) && w.phase.Waiting? && CanConfigure(w.registers) && Entries(w.registers) == |segs|
    requires Describes(w.memory, Table(w.registers), segs) && 0 < |Slots(segs)| && Backed(w.memory, Slots(segs))
    requires forall i | 0 <= i < |Slots(segs)| :: NeverWritten(w.memory, Slots(segs), i)
    requires w.registers.erdp == Slots(segs)[0]
    ensures Serves(Notified(w), World(w.memory, Notified(w).ring, w.registers.erdp, [], [], 0), segs)
  {
    ConfiguredStandsAtZero(w.memory, Table(w.registers), segs);
    SegmentsMakeLayout(segs);
    SmallPosition(0, |Slots(segs)|);
  }

  /**
   * A serving worker can write an event exactly if the driver has acknowledged enough of them, and
   * then it sends it on the queue; otherwise it dies.
   */
  lemma WritingIsSending(w: Worker, v: World, e: EventTrb, segs: seq<Segment>)
    requires Serves(w, v, segs) && FitsFields(e)
    ensures CanWrite(w) <==> |v.sent| + 1 < v.acknowledged + |Slots(segs)|
    ensures CanWrite(w) ==>
      var u := Moved(v, Send(e), Table(w.registers), segs);
      Serves(EventWritten(w, e), u, segs) && u.sent == v.sent + [e]
    ensures !CanWrite(w) ==> EventWritten(w, e).phase.Dead?
  {
    FullExactly(w.memory, w.ring, Table(w.registers), segs, |v.sent|, v.acknowledged);
    if CanWrite(w) {
      SendKeepsStep(v, Moved(v, Send(e), Table(w.registers), segs), e, Table(w.registers), segs);
    }
  }
}
