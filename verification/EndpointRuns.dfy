/** What holds over whole runs of the endpoint worker, for every order of messages and completions. */
module EndpointRuns {
  import opened Bytes
  import opened CycleRings
  import opened EndpointWorkers
  import opened GuestMemory
  import opened LinkedRings
  import opened Modular
  import opened Trbs
  import opened Wrappers

  /**
   * A message, a completion, a step of its own, or anything the rest of the machine does to memory;
   * `works` is the answer of the device if it is called.
   */
  datatype Input =
    | Take(m: Message, works: bool)
    | Complete(c: Completion)
    | Go(works: bool)
    | Outside(memory: Memory)

  predicate WasSubmitted(w: Worker, k: nat, c: Cursor)
    requires k < |w.submitted|
  {
    w.submitted[k].address == c.pointer && CycleBit(w.submitted[k].buffer) == c.cycle
  }

  /** Failures name a TRB that was submitted, or none. */
  ghost predicate NamesSubmitted(w: Worker, at: Option<Cursor>) {
    at.Some? ==> exists k | 0 <= k < |w.submitted| :: WasSubmitted(w, k, at.value)
  }

  ghost predicate SameContext(a: Memory, b: Memory, at: nat) {
    a.Keys == b.Keys && Read(a, at, 16) == Read(b, at, 16)
  }

  ghost predicate Enabled(w: Worker, i: Input) {
    match i
    case Take(m, _) => Listens(w) && (m.SetTrDequeuePointer? ==> Aligned(Cursor(m.pointer, m.cycle)))
    case Complete(c) =>
      w.state.WaitForTrbCompletion? && (c.Stall? || c.TransactionError? ==> NamesSubmitted(w, c.at))
    case Go(_) => Proceeds(w)
    case Outside(m) => SameContext(w.memory, m, w.context)
  }

  /** A worker that has not ended has work of its own to go on with, or listens; it is never stuck. */
  lemma ListensOrGoesOn(w: Worker)
    ensures w.state.Terminated? || w.state.Failed? || Enabled(w, Go(true)) || Enabled(w, Take(Doorbell, true))
    ensures Enabled(w, Go(true)) ==> !Enabled(w, Take(Doorbell, true))
  {
  }

  function After(w: Worker, i: Input): Worker
    requires i.Take? ==> Listens(w)
  {
    match i
    case Take(m, works) => OnMessage(w, m, works)
    case Complete(c) => OnCompletion(w, c)
    case Go(works) => Proceeded(w, works)
    case Outside(m) => w.(memory := m)
  }

  // ---------------------------------------------------------------------
  // The invariant
  // ---------------------------------------------------------------------

  predicate AtRest(s: WorkerState) { s.Stopped? || s.StoppedWithContinuableTrb? || s.Halted? || s.Error? }

  /** The state the driver sees for each state of the worker. */
  predicate Shows(s: WorkerState, shown: Byte) {
    match s
    case WaitForDoorbell | LookForTrb | WaitForTrbCompletion => shown == RUNNING
    case Halted => shown == HALTED
    case Stopped | StoppedWithContinuableTrb => shown == STOPPED
    case Error => shown == ERROR
    case SettingTrDequeuePointer(_, _, _) => shown == STOPPED || shown == ERROR
    case Terminating(_) => shown == RUNNING || shown == HALTED || shown == STOPPED
    case Terminated => shown == DISABLED
    case Failed => shown != DISABLED
  }

  ghost predicate AllAligned(submitted: seq<RawTrb>) {
    forall k | 0 <= k < |submitted| :: submitted[k].address % 16 == 0 && submitted[k].address < TWO_64
  }

  ghost predicate Inv(w: Worker) {
    && Placed(w.memory, w.context)
    && Aligned(w.ring) && AllAligned(w.submitted)
    && (w.state.SettingTrDequeuePointer? ==> Aligned(Cursor(w.state.pointer, w.state.cycle)))
    && Shows(w.state, ContextState(w.memory, w.context))
    && (AtRest(w.state) ==> ContextCursor(w.memory, w.context) == w.ring)
  }

  lemma LaunchEstablishesInv(m: Memory, context: nat)
    requires Placed(m, context)
    ensures Inv(Launched(m, context))
  {
    StateIsSet(m, context, RUNNING);
    ContextCursorIsAligned(WithState(m, context, RUNNING), context);
  }

  /** Whatever the links in memory say, the pointer stays aligned. */
  lemma {:induction false} ChaseStaysAligned(m: Memory, c: Cursor, budget: nat)
    requires Aligned(c)
    ensures Aligned(Chase(m, c, budget).1)
    ensures Chase(m, c, budget).0.Some? ==> Chase(m, c, budget).0.value.address == Chase(m, c, budget).1.pointer
    decreases budget
  {
    match Fresh(m, c)
    case None =>
    case Some(t) =>
      if IsLink(t) && budget > 0 {
        LinkPointerIsAligned(t);
        ChaseStaysAligned(m, FollowLink(c, ParseLink(t).value), budget - 1);
      }
  }

  lemma AdvancedStaysAligned(c: Cursor)
    requires Aligned(c)
    ensures Aligned(Advanced(c))
  {
    if c.pointer + TRB_SIZE < TWO_64 {
      SmallPosition(c.pointer + TRB_SIZE, TWO_64);
    } else {
      assert c.pointer == TWO_64 - 16;
      Uniquely(c.pointer + TRB_SIZE, TWO_64, 1, 0);
    }
  }

  lemma RestShowsState(w: Worker, shown: Byte, state: WorkerState)
    requires Placed(w.memory, w.context) && Aligned(w.ring) && AllAligned(w.submitted)
    requires (AtRest(state) || state.Failed?) && Shows(state, shown)
    ensures Inv(Rest(w, shown, state)) && ContextState(Rest(w, shown, state).memory, w.context) == shown
  {
    StateIsSet(w.memory, w.context, shown);
    CursorIsSet(WithState(w.memory, w.context, shown), w.context, w.ring);
  }

  lemma MessageKeepsInv(w: Worker, m: Message, works: bool)
    requires Inv(w) && Enabled(w, Take(m, works))
    ensures Inv(OnMessage(w, m, works))
  {
    if m.Stop? || m.Reset? {
      RestShowsState(w, STOPPED, Stopped);
      RestShowsState(w, STOPPED, StoppedWithContinuableTrb);
      RestShowsState(w, STOPPED, Failed);
    }
    if m.Doorbell? { StateIsSet(w.memory, w.context, RUNNING); }
  }

  lemma CompletionKeepsInv(w: Worker, c: Completion)
    requires Inv(w) && Enabled(w, Complete(c))
    ensures Inv(OnCompletion(w, c))
  {
    match c
    case Done => AdvancedStaysAligned(w.ring);
    case TrbError => RestShowsState(w, ERROR, Error);
    case Broken =>
    case _ => RestShowsState(if c.at.Some? then w.(ring := c.at.value) else w, HALTED, Halted);
  }

  lemma ProceedKeepsInv(w: Worker, works: bool)
    requires Inv(w) && Proceeds(w)
    ensures Inv(Proceeded(w, works))
  {
    match w.state
    case LookForTrb => ChaseStaysAligned(w.memory, w.ring, MAX_LINKS);
    case SettingTrDequeuePointer(p, c, s) => RestShowsState(w.(ring := Cursor(p, c)), STOPPED, Stopped);
    case Terminating(_) => StateIsSet(w.memory, w.context, DISABLED);
  }

  lemma OutsideKeepsContext(a: Memory, b: Memory, at: nat)
    requires SameContext(a, b, at) && Placed(a, at)
    ensures Placed(b, at) && ContextState(b, at) == ContextState(a, at) && ContextCursor(b, at) == ContextCursor(a, at)
  {
    assert Read(a, at, 16)[0] == Read(b, at, 16)[0];
    OffsetDoesNotWrap(at);
    assert Read(a, at + 8, 8) == Read(a, at, 16)[8..];
    assert Read(b, at + 8, 8) == Read(b, at, 16)[8..];
    assert forall x | at <= x < at + 16 :: x in a ==> x in b;
  }

  lemma StepKeepsInv(w: Worker, i: Input)
    requires Inv(w) && Enabled(w, i)
    ensures Inv(After(w, i))
  {
    match i
    case Take(m, works) => MessageKeepsInv(w, m, works);
    case Complete(c) => CompletionKeepsInv(w, c);
    case Go(works) => ProceedKeepsInv(w, works);
    case Outside(m) => OutsideKeepsContext(w.memory, m, w.context);
  }

  // ---------------------------------------------------------------------
  // Runs
  // ---------------------------------------------------------------------

  ghost predicate StepAt(ws: seq<Worker>, inputs: seq<Input>, i: nat)
    requires |ws| == |inputs| + 1 && i < |inputs|
  {
    Enabled(ws[i], inputs[i]) && ws[i + 1] == After(ws[i], inputs[i])
  }

  ghost predicate Run(ws: seq<Worker>, inputs: seq<Input>) {
    && |ws| == |inputs| + 1
    && (exists m: Memory :: Placed(m, ws[0].context) && ws[0] == Launched(m, ws[0].context))
    && (forall i | 0 <= i < |inputs| :: StepAt(ws, inputs, i))
  }

  lemma {:induction false} RunKeepsInv(ws: seq<Worker>, inputs: seq<Input>, i: nat)
    requires Run(ws, inputs) && i < |ws|
    ensures Inv(ws[i])
  {
    if i == 0 {
      var m: Memory :| Placed(m, ws[0].context) && ws[0] == Launched(m, ws[0].context);
      LaunchEstablishesInv(m, ws[0].context);
    } else {
      RunKeepsInv(ws, inputs, i - 1);
      assert StepAt(ws, inputs, i - 1);
      StepKeepsInv(ws[i - 1], inputs[i - 1]);
    }
  }

  // ---------------------------------------------------------------------
  // What the driver reads in the context
  // ---------------------------------------------------------------------

  /** The endpoint state, by its number in section 6.2.3 of the xHCI specification. */
  function Seen(w: Worker): Byte { Read(w.memory, w.context, 1)[0] }

  /** The eight bytes that hold the dequeue pointer and, in bit 0, the cycle state. */
  function SeenBits(w: Worker): nat { FromLe(Read(w.memory, w.context + 8, 8)) }

  ghost predicate SeesCursor(w: Worker, pointer: nat, cycle: bool) {
    SeenBits(w) - SeenBits(w) % 16 == pointer && (SeenBits(w) % 2 == 1 <==> cycle)
  }

  lemma SeenIsContext(w: Worker)
    requires w.context + 16 <= TWO_64
    ensures Seen(w) == ContextState(w.memory, w.context)
    ensures SeesCursor(w, ContextCursor(w.memory, w.context).pointer, ContextCursor(w.memory, w.context).cycle)
  {
    OffsetDoesNotWrap(w.context);
  }

  /** Whenever the endpoint rests, the context in guest memory tells its state and where the ring stands. */
  lemma RestingContextIsTrue(ws: seq<Worker>, inputs: seq<Input>, i: nat)
    requires Run(ws, inputs) && i < |ws| && AtRest(ws[i].state)
    ensures SeesCursor(ws[i], ws[i].ring.pointer, ws[i].ring.cycle)
    ensures Seen(ws[i]) == match ws[i].state case Halted => 2 case Error => 4 case _ => 3
  {
    RunKeepsInv(ws, inputs, i);
    SeenIsContext(ws[i]);
  }

  /** A completion that sets the ring back. */
  predicate GoesBack(i: Input) { i.Complete? && (i.c.Stall? || i.c.TransactionError?) && i.c.at.Some? }

  /** The worker's pointer, and every pointer it is about to write, is aligned: the program's assertion never fails. */
  lemma PointerStaysAligned(ws: seq<Worker>, inputs: seq<Input>, i: nat)
    requires Run(ws, inputs) && i < |ws|
    ensures ws[i].ring.pointer % 16 == 0 && ws[i].ring.pointer < TWO_64
    ensures ws[i].state.SettingTrDequeuePointer? ==> ws[i].state.pointer % 16 == 0
    ensures i < |inputs| && GoesBack(inputs[i]) ==> inputs[i].c.at.value.pointer % 16 == 0
  {
    RunKeepsInv(ws, inputs, i);
    if i < |inputs| && GoesBack(inputs[i]) {
      assert StepAt(ws, inputs, i);
      var k :| 0 <= k < |ws[i].submitted| && WasSubmitted(ws[i], k, inputs[i].c.at.value);
    }
  }

  // ---------------------------------------------------------------------
  // Answers
  // ---------------------------------------------------------------------

  predicate IsCommand(m: Message) { m.Stop? || m.Reset? || m.SetTrDequeuePointer? }

  /** Who asked, in the order in which the messages were taken. */
  function Commands(inputs: seq<Input>, n: nat): seq<nat>
    requires n <= |inputs|
  {
    if n == 0 then []
    else if inputs[n - 1].Take? && IsCommand(inputs[n - 1].m) then Commands(inputs, n - 1) + [inputs[n - 1].m.sender]
    else Commands(inputs, n - 1)
  }

  function Senders(answers: seq<Answer>): (r: seq<nat>)
    ensures |r| == |answers|
  {
    seq(|answers|, k requires 0 <= k < |answers| => answers[k].sender)
  }

  function Pending(s: WorkerState): seq<nat> { if s.SettingTrDequeuePointer? then [s.sender] else [] }

  lemma SendersGrow(answers: seq<Answer>, a: Answer)
    ensures Senders(answers + [a]) == Senders(answers) + [a.sender]
  {
  }

  /** The sender of a command that is taken. */
  function Asking(i: Input): seq<nat> { if i.Take? && IsCommand(i.m) then [i.m.sender] else [] }

  lemma StepAnswers(w: Worker, i: Input)
    requires Enabled(w, i)
    ensures var v := After(w, i);
      if v.state.Failed? && !w.state.Failed? then v.answers == w.answers && Pending(w.state) == []
      else Senders(v.answers) + Pending(v.state) == Senders(w.answers) + Pending(w.state) + Asking(i)
  {
    if i.Take? && IsCommand(i.m) {
      SendersGrow(w.answers, Answer(i.m.sender, SUCCESS));
      SendersGrow(w.answers, Answer(i.m.sender, CONTEXT_STATE_ERROR));
    }
    if i.Go? && w.state.SettingTrDequeuePointer? {
      SendersGrow(w.answers, Answer(w.state.sender, SUCCESS));
    }
  }

  /** All commands are answered or pending, but for `lost`, the one during which the device failed. */
  ghost predicate Accounted(w: Worker, lost: seq<nat>, commands: seq<nat>) {
    && Senders(w.answers) + Pending(w.state) + lost == commands
    && |lost| <= 1 && (lost != [] ==> w.state.Failed?)
  }

  lemma AppendNothing(a: seq<nat>, b: seq<nat>)
    ensures a + b + [] == a + b && a + [] == a
  {
  }

  lemma StepAccounts(w: Worker, i: Input, v: Worker, lost: seq<nat>, commands: seq<nat>) returns (more: seq<nat>)
    requires Enabled(w, i) && v == After(w, i) && Accounted(w, lost, commands)
    ensures Accounted(v, more, commands + Asking(i))
  {
    StepAnswers(w, i);
    AppendNothing(Senders(w.answers), Pending(w.state));
    if w.state.Failed? {
      assert Asking(i) == [] && commands + [] == commands;
      more := lost;
    } else if v.state.Failed? {
      more := Asking(i);
    } else {
      more := [];
      AppendNothing(Senders(v.answers), Pending(v.state));
    }
  }

  /**
   * Every Stop, Reset and Set TR Dequeue Pointer taken is answered once, in the order taken; at most
   * one answer is outstanding while a new pointer is being set. Only the command during which the
   * device failed, ending the worker, remains unanswered.
   */
  lemma {:induction false} EveryCommandIsAnsweredOnce(
    ws: seq<Worker>, inputs: seq<Input>, n: nat) returns (lost: seq<nat>)
    requires Run(ws, inputs) && n <= |inputs|
    ensures Senders(ws[n].answers) + Pending(ws[n].state) + lost == Commands(inputs, n)
    ensures |lost| <= 1 && (lost != [] ==> ws[n].state.Failed?)
  {
    lost := [];
    if n > 0 {
      var before := EveryCommandIsAnsweredOnce(ws, inputs, n - 1);
      assert StepAt(ws, inputs, n - 1);
      lost := StepAccounts(ws[n - 1], inputs[n - 1], ws[n], before, Commands(inputs, n - 1));
      assert Commands(inputs, n) == Commands(inputs, n - 1) + Asking(inputs[n - 1]);
    }
  }

  /** What section 4.8.3 of the xHCI specification allows when the driver sees this state. */
  predicate CommandFits(m: Message, seen: Byte)
    requires IsCommand(m)
  {
    match m
    case Stop(_) => seen == 1
    case Reset(_) => seen == 2
    case SetTrDequeuePointer(_, _, _) => seen == 3 || seen == 4
  }

  /** Stopping in the middle of a TRB cancels it, and a reset clears the halt; both go to the device. */
  predicate CallsDevice(w: Worker, m: Message) {
    (m.Stop? && w.state.WaitForTrbCompletion?) || (m.Reset? && w.state.Halted?)
  }

  /**
   * A command is refused, with code 19, exactly if it does not fit the state the driver could see, and then
   * changes nothing; otherwise it is taken up, and answered with code 1.
   */
  lemma CommandsAreJudgedByVisibleState(ws: seq<Worker>, inputs: seq<Input>, i: nat)
    requires Run(ws, inputs) && i < |inputs| && inputs[i].Take? && IsCommand(inputs[i].m)
    ensures var w, v, m := ws[i], ws[i + 1], inputs[i].m;
      if CommandFits(m, Seen(w))
      then if m.SetTrDequeuePointer? then v == w.(state := SettingTrDequeuePointer(m.pointer, m.cycle, m.sender))
           else if CallsDevice(w, m) && !inputs[i].works then v.answers == w.answers && v.state.Failed?
           else v.answers == w.answers + [Answer(m.sender, CompletionCode(1))] && Seen(v) == 3 && v.ring == w.ring
      else v == w.(answers := w.answers + [Answer(m.sender, CompletionCode(19))])
  {
    RunKeepsInv(ws, inputs, i);
    RunKeepsInv(ws, inputs, i + 1);
    assert StepAt(ws, inputs, i);
    SeenIsContext(ws[i]);
    SeenIsContext(ws[i + 1]);
  }

  /**
   * A new pointer that was accepted is set by the worker's next step, whatever happens to memory until then:
   * the ring stands on it, the driver sees it in a stopped endpoint, and the command is answered.
   */
  lemma NewPointerTakesEffect(ws: seq<Worker>, inputs: seq<Input>, i: nat)
    requires Run(ws, inputs) && i < |inputs| && ws[i].state.SettingTrDequeuePointer?
    ensures var w, v := ws[i], ws[i + 1];
      if inputs[i].Outside? then v == w.(memory := inputs[i].memory)
      else
        && inputs[i].Go? && v.state.Stopped?
        && v.ring == Cursor(w.state.pointer, w.state.cycle)
        && Seen(v) == 3 && SeesCursor(v, w.state.pointer, w.state.cycle)
        && v.answers == w.answers + [Answer(w.state.sender, CompletionCode(1))] && v.submitted == w.submitted
  {
    RunKeepsInv(ws, inputs, i + 1);
    assert StepAt(ws, inputs, i);
    SeenIsContext(ws[i + 1]);
  }

  /**
   * A request to terminate ends the endpoint by the worker's next step, and the driver sees it disabled;
   * while a TRB is being waited for, and in the Error state, the request is dropped.
   */
  lemma TerminationExactly(ws: seq<Worker>, inputs: seq<Input>, i: nat)
    requires Run(ws, inputs) && i < |inputs|
    ensures inputs[i].Take? && inputs[i].m.Terminate? ==>
      ws[i + 1] == if ws[i].state.WaitForTrbCompletion? || ws[i].state.Error? then ws[i]
                   else ws[i].(state := Terminating(inputs[i].m.notify))
    ensures ws[i].state.Terminating? && inputs[i].Go? ==> ws[i + 1].state.Terminated? && Seen(ws[i + 1]) == 0
  {
    RunKeepsInv(ws, inputs, i + 1);
    assert StepAt(ws, inputs, i);
    SeenIsContext(ws[i + 1]);
  }

  /** A device that fails when it is called ends the worker where it stands, and nothing follows. */
  lemma FailingDeviceEndsWorker(ws: seq<Worker>, inputs: seq<Input>, i: nat)
    requires Run(ws, inputs) && i < |inputs|
    ensures inputs[i] == Complete(Broken) ==> ws[i + 1] == ws[i].(state := Failed)
    ensures ws[i].state.LookForTrb? && inputs[i] == Go(false) ==>
      (ws[i + 1].state.Failed? <==> Chase(ws[i].memory, ws[i].ring, MAX_LINKS).0.Some?)
    ensures ws[i].state.Failed? ==> inputs[i].Outside?
  {
    assert StepAt(ws, inputs, i);
  }

  // ---------------------------------------------------------------------
  // Doorbells
  // ---------------------------------------------------------------------

  /**
   * A doorbell makes the worker look for a TRB if the driver sees the endpoint running or stopped, unless a
   * TRB is being waited for, after which it looks anyway; otherwise it changes nothing.
   */
  lemma DoorbellMakesItLook(ws: seq<Worker>, inputs: seq<Input>, i: nat)
    requires Run(ws, inputs) && i < |inputs| && inputs[i].Take? && inputs[i].m.Doorbell?
    ensures var w, v := ws[i], ws[i + 1];
      if (Seen(w) == 1 || Seen(w) == 3) && !w.state.WaitForTrbCompletion?
      then
        && v.state.LookForTrb? && Seen(v) == 1
        && v.ring == w.ring && v.submitted == w.submitted && v.answers == w.answers
      else v == w
  {
    RunKeepsInv(ws, inputs, i);
    RunKeepsInv(ws, inputs, i + 1);
    assert StepAt(ws, inputs, i);
    SeenIsContext(ws[i]);
    SeenIsContext(ws[i + 1]);
  }

  /** In state `j` the worker looked and found no fresh TRB in reach. */
  predicate LookedInVain(w: Worker) { w.state.LookForTrb? && Chase(w.memory, w.ring, MAX_LINKS).0.None? }

  /**
   * A worker that waits for a doorbell has waited since its launch, or since a look that found no fresh TRB:
   * it never goes to sleep over one.
   */
  lemma {:induction false} WaitsOnlyAfterLookingInVain(ws: seq<Worker>, inputs: seq<Input>, i: nat) returns (j: nat)
    requires Run(ws, inputs) && i < |ws| && ws[i].state.WaitForDoorbell?
    ensures j <= i && (forall m | j <= m <= i :: ws[m].state.WaitForDoorbell?)
    ensures j == 0 || (LookedInVain(ws[j - 1]) && inputs[j - 1].Go?)
    decreases i
  {
    j := i;
    if i > 0 {
      assert StepAt(ws, inputs, i - 1);
      if ws[i - 1].state.WaitForDoorbell? {
        j := WaitsOnlyAfterLookingInVain(ws, inputs, i - 1);
      }
    }
  }

  // ---------------------------------------------------------------------
  // The endpoint state diagram
  // ---------------------------------------------------------------------

  /**
   * The edges of the endpoint state diagram in section 4.8.3 of the xHCI specification, for an enabled endpoint:
   * 0 is disabled, 1 running, 2 halted, 3 stopped, 4 error.
   */
  predicate Edge(a: Byte, b: Byte) {
    || (a == 1 && (b == 2 || b == 3 || b == 4))
    || (a == 2 && b == 3)
    || (a == 3 && b == 1)
    || (a == 4 && b == 3)
    || (a != 0 && b == 0)
  }

  /** The state the driver sees after an input, from the one it saw before. */
  function NextSeen(a: Byte, s: WorkerState, i: Input): Byte {
    match i
    case Complete(c) => if c.Stall? || c.TransactionError? then 2 else if c.TrbError? then 4 else a
    case Take(m, works) =>
      if m.Doorbell? && a == 3 then 1
      else if m.Stop? && a == 1 then 3
      else if m.Reset? && a == 2 && works then 3
      else a
    case Go(_) => if s.Terminating? then 0 else if s.SettingTrDequeuePointer? then 3 else a
    case Outside(_) => a
  }

  lemma StepFollows(w: Worker, i: Input, v: Worker)
    requires Inv(w) && Inv(v) && Enabled(w, i) && v == After(w, i)
    ensures ContextState(v.memory, v.context) == NextSeen(ContextState(w.memory, w.context), w.state, i)
  {
    match i
    case Take(m, _) => if m.Stop? { RestShowsState(w, STOPPED, Failed); }
    case Complete(c) =>
    case Go(_) =>
    case Outside(m) => OutsideKeepsContext(w.memory, m, w.context);
  }

  /** Each step changes the state the driver sees exactly as its cause demands, along an edge of the diagram. */
  lemma VisibleStateFollowsDiagram(ws: seq<Worker>, inputs: seq<Input>, i: nat)
    requires Run(ws, inputs) && i < |inputs|
    ensures Seen(ws[i + 1]) == NextSeen(Seen(ws[i]), ws[i].state, inputs[i])
    ensures Seen(ws[i + 1]) == Seen(ws[i]) || Edge(Seen(ws[i]), Seen(ws[i + 1]))
  {
    RunKeepsInv(ws, inputs, i);
    RunKeepsInv(ws, inputs, i + 1);
    assert StepAt(ws, inputs, i);
    StepFollows(ws[i], inputs[i], ws[i + 1]);
    SeenIsContext(ws[i]);
    SeenIsContext(ws[i + 1]);
  }
}
