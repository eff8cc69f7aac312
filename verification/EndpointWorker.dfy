/**
 * The endpoint worker: a state machine driven by messages and completions. It keeps the endpoint
 * context in guest memory in step with itself, the driver reads it there while the endpoint rests.
 */
module EndpointWorkers {
  import opened Bytes
  import opened CycleRings
  import opened GuestMemory
  import opened LinkedRings
  import opened Modular
  import opened Trbs
  import opened Wrappers

  // ---------------------------------------------------------------------
  // The endpoint context in guest memory
  // ---------------------------------------------------------------------

  const DISABLED: Byte := 0
  const RUNNING: Byte := 1
  const HALTED: Byte := 2
  const STOPPED: Byte := 3
  const ERROR: Byte := 4

  const POINTER_OFFSET: nat := 8

  function ContextState(m: Memory, at: nat): Byte { ReadByte(m, at) }

  function ContextCursor(m: Memory, at: nat): Cursor {
    var bits := ReadNumber(m, WrappingAdd(at, POINTER_OFFSET), 8);
    Cursor(bits - bits % 16, bits % 2 == 1)
  }

  function WithState(m: Memory, at: nat, state: Byte): Memory { Write(m, at, [state]) }

  function WithCursor(m: Memory, at: nat, c: Cursor): Memory {
    Write(m, WrappingAdd(at, POINTER_OFFSET), ToLe(CursorBits(c), 8))
  }

  /** The context lies in mapped memory below the end of the address space. */
  ghost predicate Placed(m: Memory, at: nat) { at + 16 <= TWO_64 && Mapped(m, at, 16) }

  predicate Aligned(c: Cursor) { c.pointer % 16 == 0 && c.pointer < TWO_64 }

  lemma OffsetDoesNotWrap(at: nat)
    requires at + 16 <= TWO_64
    ensures WrappingAdd(at, POINTER_OFFSET) == at + POINTER_OFFSET
  {
    SmallPosition(at + POINTER_OFFSET, TWO_64);
  }

  /** Writing the state byte sets the state and nothing else. */
  lemma StateIsSet(m: Memory, at: nat, state: Byte)
    requires Placed(m, at)
    ensures ContextState(WithState(m, at, state), at) == state
    ensures ContextCursor(WithState(m, at, state), at) == ContextCursor(m, at)
    ensures Placed(WithState(m, at, state), at)
  {
    OffsetDoesNotWrap(at);
    ReadElsewhere(m, at, [state], at + POINTER_OFFSET, 8);
  }

  function CursorBits(c: Cursor): nat { c.pointer + if c.cycle then 1 else 0 }

  lemma CursorBitsFit(c: Cursor)
    requires Aligned(c)
    ensures var bits := CursorBits(c);
      bits < Power256(8) && bits - bits % 16 == c.pointer && (bits % 2 == 1 <==> c.cycle)
  {
    SmallPowers();
    var q, flag := c.pointer / 16, if c.cycle then 1 else 0;
    assert c.pointer == q * 16;
    Uniquely(CursorBits(c), 16, q, flag);
    Uniquely(CursorBits(c), 2, q * 8, flag);
  }

  /** Pointer and cycle state survive the way through the eight bytes of the context. */
  lemma CursorIsSet(m: Memory, at: nat, c: Cursor)
    requires Placed(m, at) && Aligned(c)
    ensures ContextCursor(WithCursor(m, at, c), at) == c
    ensures ContextState(WithCursor(m, at, c), at) == ContextState(m, at)
    ensures Placed(WithCursor(m, at, c), at)
  {
    var bits := CursorBits(c);
    OffsetDoesNotWrap(at);
    CursorBitsFit(c);
    LeRoundTrip(bits, 8);
    assert forall x | at + POINTER_OFFSET <= x < at + 16 :: x in m;
    ReadBack(m, at + POINTER_OFFSET, ToLe(bits, 8));
    ReadElsewhere(m, at + POINTER_OFFSET, ToLe(bits, 8), at, 1);
    StateByte(m, WithCursor(m, at, c), at);
  }

  lemma StateByte(m: Memory, after: Memory, at: nat)
    requires Read(after, at, 1) == Read(m, at, 1)
    ensures ContextState(after, at) == ContextState(m, at)
  {
    assert Read(after, at, 1)[0] == Read(m, at, 1)[0];
  }

  class EndpointContext {
    const address: nat
    const dma: DmaMemory

    constructor (address: nat, dma: DmaMemory)
      ensures this.address == address && this.dma == dma
    {
      this.address, this.dma := address, dma;
    }

    method GetDequeuePointerAndCycleState() returns (pointer: nat, cycle: bool)
      ensures Cursor(pointer, cycle) == ContextCursor(dma.bytes, address)
      ensures pointer % 16 == 0 && pointer < TWO_64
    {
      var bytes := ReadNumber(dma.bytes, WrappingAdd(address, POINTER_OFFSET), 8);
      ContextCursorIsAligned(dma.bytes, address);
      return bytes - bytes % 16, bytes % 2 == 1;
    }

    /** The precondition is an assertion of the program; `PointerStaysAligned` shows that it cannot fail. */
    method SetDequeuePointerAndCycleState(pointer: nat, cycle: bool)
      requires pointer % 16 == 0
      modifies dma
      ensures dma.bytes == WithCursor(old(dma.bytes), address, Cursor(pointer, cycle))
    {
      dma.bytes := Write(dma.bytes, WrappingAdd(address, POINTER_OFFSET), ToLe(pointer + if cycle then 1 else 0, 8));
    }

    method SetState(state: Byte)
      modifies dma
      ensures dma.bytes == WithState(old(dma.bytes), address, state)
    {
      dma.bytes := Write(dma.bytes, address, [state]);
    }
  }

  lemma ContextCursorIsAligned(m: Memory, at: nat)
    ensures Aligned(ContextCursor(m, at))
  {
    FromLeBound(Read(m, WrappingAdd(at, POINTER_OFFSET), 8));
    SmallPowers();
  }

  // ---------------------------------------------------------------------
  // The state machine
  // ---------------------------------------------------------------------

  /** Commands carry the name of the sender that waits for a completion code. */
  datatype Message =
    | Doorbell
    | Stop(sender: nat)
    | Reset(sender: nat)
    | SetTrDequeuePointer(pointer: nat, cycle: bool, sender: nat)
    | Terminate(notify: nat)

  /** What the hot-plug wrapper makes of a completed TRB; `Broken` if it cannot tell. */
  datatype Completion =
    | Done
    | Stall(at: Option<Cursor>)
    | TransactionError(at: Option<Cursor>)
    | TrbError
    | Broken

  datatype WorkerState =
    | WaitForDoorbell
    | LookForTrb
    | WaitForTrbCompletion
    | Halted
    | Error
    | StoppedWithContinuableTrb
    | SettingTrDequeuePointer(pointer: nat, cycle: bool, sender: nat)
    | Stopped
    | Terminating(notify: nat)
    | Terminated
    | Failed

  datatype Answer = Answer(sender: nat, code: CompletionCode)

  /** The worker, the memory it shares with the guest, what it submitted and what it answered. */
  datatype Worker = Worker(
    state: WorkerState, context: nat, memory: Memory, ring: Cursor, submitted: seq<RawTrb>, answers: seq<Answer>)

  function Launched(m: Memory, context: nat): Worker {
    var running := WithState(m, context, RUNNING);
    Worker(WaitForDoorbell, context, running, ContextCursor(running, context), [], [])
  }

  /** Come to rest: show the state and where the ring stands. */
  function Rest(w: Worker, shown: Byte, state: WorkerState): Worker {
    w.(memory := WithCursor(WithState(w.memory, w.context, shown), w.context, w.ring), state := state)
  }

  function Answered(w: Worker, sender: nat, code: CompletionCode): Worker {
    w.(answers := w.answers + [Answer(sender, code)])
  }

  /** A message that does not fit the state; only commands that wait for a code get one. */
  function Refused(w: Worker, m: Message): Worker {
    match m
    case Stop(s) => Answered(w, s, CONTEXT_STATE_ERROR)
    case Reset(s) => Answered(w, s, CONTEXT_STATE_ERROR)
    case SetTrDequeuePointer(_, _, s) => Answered(w, s, CONTEXT_STATE_ERROR)
    case _ => w
  }

  function FromStopped(w: Worker, m: Message): Worker {
    match m
    case Doorbell => w.(memory := WithState(w.memory, w.context, RUNNING), state := LookForTrb)
    case SetTrDequeuePointer(p, c, s) => w.(state := SettingTrDequeuePointer(p, c, s))
    case Terminate(s) => w.(state := Terminating(s))
    case _ => Refused(w, m)
  }

  /** `works` tells whether the device does what it is called for; if not, the worker ends where it stands. */
  function OnMessage(w: Worker, m: Message, works: bool): Worker
    requires Listens(w)
  {
    match (w.state, m)
    case (WaitForDoorbell, Doorbell) => w.(state := LookForTrb)
    case (WaitForDoorbell, Stop(s)) => Answered(Rest(w, STOPPED, Stopped), s, SUCCESS)
    case (WaitForDoorbell, Terminate(s)) => w.(state := Terminating(s))
    case (WaitForTrbCompletion, Stop(s)) =>
      if works then Answered(Rest(w, STOPPED, StoppedWithContinuableTrb), s, SUCCESS) else Rest(w, STOPPED, Failed)
    case (Halted, Reset(s)) =>
      if works then Answered(Rest(w, STOPPED, Stopped), s, SUCCESS) else w.(state := Failed)
    case (Halted, Terminate(s)) => w.(state := Terminating(s))
    case (Error, SetTrDequeuePointer(p, c, s)) => w.(state := SettingTrDequeuePointer(p, c, s))
    case (StoppedWithContinuableTrb, _) => FromStopped(w, m)
    case (Stopped, _) => FromStopped(w, m)
    case _ => Refused(w, m)
  }

  function OnCompletion(w: Worker, c: Completion): Worker {
    match c
    case Done => w.(ring := Advanced(w.ring), state := LookForTrb)
    case Stall(at) => Rest(if at.Some? then w.(ring := at.value) else w, HALTED, Halted)
    case TransactionError(at) => Rest(if at.Some? then w.(ring := at.value) else w, HALTED, Halted)
    case TrbError => Rest(w, ERROR, Error)
    case Broken => w.(state := Failed)
  }

  /** What the worker does without waiting for anything. */
  function Proceeded(w: Worker, works: bool): Worker {
    match w.state
    case LookForTrb =>
      var (t, c) := Chase(w.memory, w.ring, MAX_LINKS);
      if t.Some?
      then w.(ring := c, submitted := w.submitted + [t.value], state := if works then WaitForTrbCompletion else Failed)
      else w.(ring := c, state := WaitForDoorbell)
    case SettingTrDequeuePointer(p, c, s) => Answered(Rest(w.(ring := Cursor(p, c)), STOPPED, Stopped), s, SUCCESS)
    case Terminating(_) => w.(memory := WithState(w.memory, w.context, DISABLED), state := Terminated)
    case _ => w
  }

  predicate Listens(w: Worker) {
    match w.state
    case WaitForDoorbell | WaitForTrbCompletion | Halted | Error | StoppedWithContinuableTrb | Stopped => true
    case _ => false
  }

  predicate Proceeds(w: Worker) { w.state.LookForTrb? || w.state.SettingTrDequeuePointer? || w.state.Terminating? }

  /** The device side of the endpoint, as far as the worker uses it: what was submitted. */
  class RealEndpoint {
    var submitted: seq<RawTrb>

    constructor ()
      ensures submitted == []
    {
      submitted := [];
    }

    method SubmitTrb(t: RawTrb)
      modifies this
      ensures submitted == old(submitted) + [t]
    {
      submitted := submitted + [t];
    }
  }

  class EndpointWorker {
    var state: WorkerState
    const context: EndpointContext
    const transferRing: LinkedRing
    const realEndpoint: RealEndpoint
    var answers: seq<Answer>

    ghost predicate Valid() { context.dma == transferRing.dma }

    function View(): Worker
      reads this, context.dma, transferRing, realEndpoint
    {
      Worker(state, context.address, context.dma.bytes, transferRing.View(), realEndpoint.submitted, answers)
    }

    constructor Launch(dma: DmaMemory, context: EndpointContext, consumer: RealEndpoint)
      requires context.dma == dma && consumer.submitted == []
      modifies dma
      ensures Valid() && this.context == context && realEndpoint == consumer && fresh(transferRing)
      ensures View() == Launched(old(dma.bytes), context.address)
    {
      context.SetState(RUNNING);
      var pointer, cycle := context.GetDequeuePointerAndCycleState();
      transferRing := new LinkedRing(dma, pointer, cycle);
      this.context, realEndpoint := context, consumer;
      state, answers := WaitForDoorbell, [];
    }

    method ComeToRest(shown: Byte, next: WorkerState)
      requires Valid() && transferRing.dequeuePointer % 16 == 0
      modifies this`state, context.dma
      ensures View() == Rest(old(View()), shown, next)
    {
      context.SetState(shown);
      context.SetDequeuePointerAndCycleState(transferRing.dequeuePointer, transferRing.cycleState);
      state := next;
    }

    method Send(sender: nat, code: CompletionCode)
      modifies this`answers
      ensures View() == Answered(old(View()), sender, code)
    {
      answers := answers + [Answer(sender, code)];
    }

    method ContextStateError(m: Message)
      modifies this`answers
      ensures View() == Refused(old(View()), m)
    {
      match m
      case Stop(s) => Send(s, CONTEXT_STATE_ERROR);
      case Reset(s) => Send(s, CONTEXT_STATE_ERROR);
      case SetTrDequeuePointer(_, _, s) => Send(s, CONTEXT_STATE_ERROR);
      case _ =>
    }

    method MessageWhileStopped(m: Message)
      requires Valid()
      modifies this, context.dma
      ensures View() == FromStopped(old(View()), m)
    {
      match m
      case Doorbell =>
        context.SetState(RUNNING);
        state := LookForTrb;
      case SetTrDequeuePointer(p, c, s) => state := SettingTrDequeuePointer(p, c, s);
      case Terminate(s) => state := Terminating(s);
      case _ => ContextStateError(m);
    }

    method MessageWhileRunning(m: Message, works: bool)
      requires Valid() && transferRing.dequeuePointer % 16 == 0
      requires state.WaitForDoorbell? || state.WaitForTrbCompletion?
      modifies this, context.dma
      ensures View() == OnMessage(old(View()), m, works)
    {
      if state.WaitForDoorbell? {
        match m {
          case Doorbell => state := LookForTrb;
          case Stop(s) =>
            ComeToRest(STOPPED, Stopped);
            Send(s, SUCCESS);
          case Terminate(s) => state := Terminating(s);
          case _ => ContextStateError(m);
        }
      } else {
        match m {
          case Stop(s) =>
            ComeToRest(STOPPED, WaitForTrbCompletion);
            if !works {
              state := Failed;
              return;
            }
            state := StoppedWithContinuableTrb;
            Send(s, SUCCESS);
          case Doorbell =>
          case _ => ContextStateError(m);
        }
      }
    }

    method TakeMessage(m: Message, works: bool)
      requires Valid() && transferRing.dequeuePointer % 16 == 0 && Listens(View())
      modifies this, context.dma
      ensures View() == OnMessage(old(View()), m, works)
    {
      if state.WaitForDoorbell? || state.WaitForTrbCompletion? {
        MessageWhileRunning(m, works);
      } else if state.Halted? {
        if m.Reset? {
          if !works {
            state := Failed;
            return;
          }
          ComeToRest(STOPPED, Stopped);
          Send(m.sender, SUCCESS);
        } else if m.Stop? {
          Send(m.sender, CONTEXT_STATE_ERROR);
        } else if m.Terminate? {
          state := Terminating(m.notify);
        } else {
          ContextStateError(m);
        }
      } else if state.Error? {
        if m.SetTrDequeuePointer? {
          state := SettingTrDequeuePointer(m.pointer, m.cycle, m.sender);
        } else {
          ContextStateError(m);
        }
      } else {
        MessageWhileStopped(m);
      }
    }

    method TakeCompletion(c: Completion)
      requires Valid() && state.WaitForTrbCompletion? && transferRing.dequeuePointer % 16 == 0
      requires (c.Stall? || c.TransactionError?) && c.at.Some? ==> c.at.value.pointer % 16 == 0
      modifies this, context.dma, transferRing
      ensures View() == OnCompletion(old(View()), c)
    {
      match c
      case Done =>
        transferRing.Advance();
        state := LookForTrb;
      case TrbError => ComeToRest(ERROR, Error);
      case Broken => state := Failed;
      case _ =>
        if c.at.Some? {
          transferRing.SetDequeuePointer(c.at.value.pointer, c.at.value.cycle);
        }
        ComeToRest(HALTED, Halted);
    }

    method Proceed(works: bool)
      requires Valid() && Proceeds(View())
      requires state.SettingTrDequeuePointer? ==> state.pointer % 16 == 0
      modifies this, context.dma, transferRing, realEndpoint
      ensures View() == Proceeded(old(View()), works)
    {
      if state.LookForTrb? {
        var t := transferRing.NextTrb();
        if t.Some? {
          realEndpoint.SubmitTrb(t.value);
          state := if works then WaitForTrbCompletion else Failed;
        } else {
          state := WaitForDoorbell;
        }
      } else if state.SettingTrDequeuePointer? {
        var sender := state.sender;
        transferRing.SetDequeuePointer(state.pointer, state.cycle);
        ComeToRest(STOPPED, Stopped);
        Send(sender, SUCCESS);
      } else {
        context.SetState(DISABLED);
        state := Terminated;
      }
    }
  }
}
