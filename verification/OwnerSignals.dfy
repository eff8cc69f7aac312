/**
 * Ownership and interrupts together: every line the hand-over installs travels through the
 * interrupt worker's queue, among events and resets. Whoever owns the device gets the signals.
 */
module OwnerSignals {
  import opened Bytes
  import opened CycleRings
  import opened EventRings
  import opened GuestMemory
  import opened HandoverSystem
  import opened Interrupters
  import opened Modular
  import opened Ownership
  import opened Trbs
  import opened Wrappers

  /** The server, its interrupt worker, and the messages in between. */
  datatype Whole = Whole(y: System, w: Worker, queue: seq<Message>)

  datatype Move =
    | HandoverStep(a: Step)
    | DeviceSends(e: EventTrb)
    | ControllerReset
    | WorkerTakes
    | WorkerWakes
    | GuestWrites(registers: Registers, memory: Memory)

  predicate Possible(x: Whole, m: Move) {
    match m
    case HandoverStep(a) => Enabled(x.y, a)
    case WorkerTakes => !x.w.phase.Dead? && x.queue != []
    case WorkerWakes => x.w.phase.Waiting?
    case _ => true
  }

  /** The message for a line that a step installed. */
  function NewLines(s: State, t: State): seq<Message> {
    if |s.lines| < |t.lines| then [UpdateInterruptLine(LineOf(t))] else []
  }

  function Then(x: Whole, m: Move): Whole
    requires Possible(x, m)
  {
    match m
    case HandoverStep(a) =>
      var z := Next(x.y, a);
      x.(y := z, queue := x.queue + NewLines(x.y.s, z.s))
    case DeviceSends(e) => x.(queue := x.queue + [SendEvent(e)])
    case ControllerReset => x.(queue := x.queue + [Interrupters.Reset])
    case WorkerTakes => x.(w := Handled(x.w, x.queue[0]), queue := x.queue[1..])
    case WorkerWakes => x.(w := Notified(x.w))
    case GuestWrites(r, memory) => x.(w := x.w.(registers := r, memory := memory))
  }

  /** A step hands over at most one line and takes none back. */
  predicate AtMostOneLine(s: State, t: State) {
    t.lines == s.lines || (|t.lines| == |s.lines| + 1 && t.lines[..|s.lines|] == s.lines)
  }

  lemma RegisterInstallsAtMostOne(s: State, id: ConnId, reg: Registration, now: nat, installs: bool)
    requires reg.sender == id
    ensures AtMostOneLine(s, SetIrqs(s, id, reg, now, installs).state)
  {
  }

  lemma LeaveInstallsAtMostOne(s: State, id: ConnId, now: nat, reclaim: bool, promote: bool)
    ensures AtMostOneLine(s, Disconnect(s, id, now, reclaim, promote))
  {
  }

  lemma DecisionInstallsAtMostOne(s: State, id: ConnId, epoch: nat, now: nat, installs: bool)
    ensures AtMostOneLine(s, Commit(s, id, epoch, now, installs).state)
    ensures AtMostOneLine(s, Reclaim(s, id, epoch, now, installs).state)
  {
  }

  lemma StepInstallsAtMostOne(y: System, a: Step)
    requires Enabled(y, a)
    ensures AtMostOneLine(y.s, After(y, a))
  {
    match a
    case Register(id, reg, now, duplicates) => RegisterInstallsAtMostOne(y.s, id, reg, now, duplicates);
    case Leave(id, now, reclaim, promote) => LeaveInstallsAtMostOne(y.s, id, now, reclaim, promote);
    case CommitTo(conn, epoch, now, duplicates) => DecisionInstallsAtMostOne(y.s, conn, epoch, now, duplicates);
    case ReclaimFor(conn, epoch, now, duplicates) => DecisionInstallsAtMostOne(y.s, conn, epoch, now, duplicates);
    case _ =>
  }

  /** The queue ends on the line that ownership installed last, and the worker is prompt. */
  ghost predicate InTune(x: Whole) {
    && HandoverSystem.Inv(x.y)
    && Prompt(x.w)
    && (!x.w.phase.Dead? ==> LastLine(x.queue, x.w.line) == LineOf(x.y.s))
  }

  lemma {:induction false} LastLineAfterAppend(queue: seq<Message>, m: Message, line: Line)
    ensures LastLine(queue + [m], line) == if m.UpdateInterruptLine? then m.line else LastLine(queue, line)
  {
    assert (queue + [m])[..|queue|] == queue;
  }

  lemma HandoverStaysInTune(x: Whole, a: Step)
    requires InTune(x) && Enabled(x.y, a)
    ensures InTune(Then(x, HandoverStep(a)))
  {
    StepKeepsInv(x.y, a);
    StepInstallsAtMostOne(x.y, a);
    var z := Next(x.y, a);
    assert z.s == x.y.s || z.s == After(x.y, a);
    if |x.y.s.lines| < |z.s.lines| {
      LastLineAfterAppend(x.queue, UpdateInterruptLine(LineOf(z.s)), x.w.line);
    } else {
      assert x.queue + [] == x.queue;
    }
  }

  lemma MoveStaysInTune(x: Whole, m: Move)
    requires InTune(x) && Possible(x, m)
    ensures InTune(Then(x, m))
  {
    match m
    case HandoverStep(a) => HandoverStaysInTune(x, a);
    case DeviceSends(e) => LastLineAfterAppend(x.queue, SendEvent(e), x.w.line);
    case ControllerReset => LastLineAfterAppend(x.queue, Interrupters.Reset, x.w.line);
    case WorkerTakes =>
      HandlingStaysPrompt(x.w, x.queue[0]);
      LastLineAfterHead(x.queue, x.w.line);
    case WorkerWakes => NotificationStaysPrompt(x.w);
    case GuestWrites(r, memory) =>
  }

  ghost predicate MoveAt(xs: seq<Whole>, moves: seq<Move>, i: nat)
    requires |xs| == |moves| + 1 && i < |moves|
  {
    Possible(xs[i], moves[i]) && xs[i + 1] == Then(xs[i], moves[i])
  }

  /** A run from the start of the server. */
  ghost predicate Play(xs: seq<Whole>, moves: seq<Move>) {
    && |xs| == |moves| + 1
    && (exists policy :: xs[0].y == System(Boot(policy), 0, {}, map[]))
    && xs[0].w == Worker(Waiting, Unconnected, UNCONFIGURED, Registers(0, 0, 0), xs[0].w.memory, [])
    && xs[0].queue == []
    && (forall i | 0 <= i < |moves| :: MoveAt(xs, moves, i))
  }

  lemma {:induction false} PlayStaysInTune(xs: seq<Whole>, moves: seq<Move>, i: nat)
    requires Play(xs, moves) && i < |xs|
    ensures InTune(xs[i])
    decreases i
  {
    if i == 0 {
      var policy :| xs[0].y == System(Boot(policy), 0, {}, map[]);
      BootIsFine(policy);
    } else {
      PlayStaysInTune(xs, moves, i - 1);
      assert MoveAt(xs, moves, i - 1);
      MoveStaysInTune(xs[i - 1], moves[i - 1]);
    }
  }

  lemma {:induction false} NoUpdateNoChange(queue: seq<Message>, line: Line)
    requires forall k | 0 <= k < |queue| :: !queue[k].UpdateInterruptLine?
    ensures LastLine(queue, line) == line
  {
    if queue != [] { NoUpdateNoChange(queue[..|queue| - 1], line); }
  }

  /**
   * In every run of server, device, guest and worker: once no line change is on its way any more, the
   * worker signals on the line of whoever owns the device now (or on the silence that owner asked
   * for), and every event written since the ring was configured last has been followed by a signal
   * on exactly that line. The ring is only ever configured with its segment index at zero.
   */
  lemma OwnerMissesNoInterrupt(xs: seq<Whole>, moves: seq<Move>, i: nat)
    requires Play(xs, moves) && i < |xs| && !xs[i].w.phase.Dead?
    requires forall k | 0 <= k < |xs[i].queue| :: !xs[i].queue[k].UpdateInterruptLine?
    requires xs[i].y.s.owner != NO_OWNER
    ensures var w, s := xs[i].w, xs[i].y.s;
      && s.ownerReg.Some? && s.ownerReg.value.fds != []
      && (w.line == EventFd(s.ownerReg.value.fds[0], s.owner) || w.line == Silenced(s.owner))
      && NothingLost(w.trace, w.line)
      && (forall k | 0 <= k < |w.trace| && w.trace[k].ConfiguredFrom? :: w.trace[k].index == 0)
  {
    PlayStaysInTune(xs, moves, i);
    NoUpdateNoChange(xs[i].queue, xs[i].w.line);
    PromptLosesNothing(xs[i].w);
  }

  /** Whatever is queued, if the worker survives working through it, it then signals the present owner. */
  lemma DrainedWorkerSignalsOwner(xs: seq<Whole>, moves: seq<Move>, i: nat)
    requires Play(xs, moves) && i < |xs| && xs[i].y.s.owner != NO_OWNER
    requires !Drained(xs[i].w, xs[i].queue, |xs[i].queue|).phase.Dead? && !xs[i].w.phase.Dead?
    ensures var v, s := Drained(xs[i].w, xs[i].queue, |xs[i].queue|), xs[i].y.s;
      && s.ownerReg.Some? && s.ownerReg.value.fds != []
      && (v.line == EventFd(s.ownerReg.value.fds[0], s.owner) || v.line == Silenced(s.owner))
    ensures var v := Drained(xs[i].w, xs[i].queue, |xs[i].queue|); NothingLost(v.trace, v.line)
  {
    var x := xs[i];
    PlayStaysInTune(xs, moves, i);
    DrainingReachesLastLine(x.w, x.queue, |x.queue|);
    assert x.queue[..|x.queue|] == x.queue;
    DrainingStaysPrompt(x.w, x.queue, |x.queue|);
    PromptLosesNothing(Drained(x.w, x.queue, |x.queue|));
  }

  lemma {:induction false} DrainingStaysPrompt(w: Worker, queue: seq<Message>, n: nat)
    requires n <= |queue| && Prompt(w)
    ensures Prompt(Drained(w, queue, n))
  {
    if n > 0 {
      DrainingStaysPrompt(w, queue, n - 1);
      var v := Drained(w, queue, n - 1);
      if !v.phase.Dead? { HandlingStaysPrompt(v, queue[n - 1]); }
    }
  }

  // ---------------------------------------------------------------------
  // Waiting for a configuration, and how a worker ends
  // ---------------------------------------------------------------------

  /**
   * Before the ring is configured, and again after a reset, the worker listens without writing: an event is
   * dropped, a line is taken over, a reset clears the registers. None of them ends it or the waiting.
   */
  lemma WaitingWorkerOnlyListens(xs: seq<Whole>, moves: seq<Move>, i: nat)
    requires Play(xs, moves) && i < |moves| && xs[i].w.phase.Waiting? && moves[i] == WorkerTakes
    ensures xs[i].queue != []
    ensures var w, m := xs[i].w, xs[i].queue[0];
      xs[i + 1].w == Worker(
        Waiting,
        if m.UpdateInterruptLine? then m.line else w.line,
        RingState(0, 0, 0, false),
        if m.Reset? then Registers(0, 0, 0) else w.registers,
        w.memory,
        w.trace + if m.Reset? then [WasReset] else [])
  {
    PlayStaysInTune(xs, moves, i);
    assert MoveAt(xs, moves, i);
    assert xs[i].w.trace + [] == xs[i].w.trace;
  }

  /** A reset taken from the queue stops a configured worker and makes it wait, on the line it has. */
  lemma ResetStartsOver(xs: seq<Whole>, moves: seq<Move>, i: nat)
    requires Play(xs, moves) && i < |moves| && moves[i] == WorkerTakes
    requires xs[i].queue != [] && xs[i].queue[0].Reset?
    ensures xs[i + 1].w == var w := xs[i].w;
      Worker(Waiting, w.line, RingState(0, 0, 0, false), Registers(0, 0, 0), w.memory, w.trace + [WasReset])
  {
    assert MoveAt(xs, moves, i);
  }

  /** The address of the table starts at a multiple of 64, and the table has an entry. */
  predicate ProperTable(r: Registers) { r.erstba / 32 % 2 == 0 && r.erstsz % 0x1_0000_0000 != 0 }

  lemma EvenMeansAligned(a: nat)
    ensures (a - a % 32) % 64 == 0 <==> a / 32 % 2 == 0
    ensures a % 64 == 0 ==> a % 32 == 0
  {
    var k := a / 32;
    assert a - a % 32 == 32 * k && k == 2 * (k / 2) + k % 2;
    if k % 2 == 0 { Uniquely(a - a % 32, 64, k / 2, 0); } else { Uniquely(a - a % 32, 64, k / 2, 32); }
    if a % 64 == 0 { Uniquely(a, 32, 2 * (a / 64), 0); }
  }

  lemma ProperExactly(r: Registers)
    ensures CanConfigure(r) <==> ProperTable(r)
  {
    EvenMeansAligned(r.erstba);
  }

  /**
   * The first write of the table's address configures a waiting worker if and only if the table is a proper
   * one, and ends it otherwise; the segment index is zero then.
   */
  lemma NotificationExactly(xs: seq<Whole>, moves: seq<Move>, i: nat)
    requires Play(xs, moves) && i < |moves| && moves[i] == WorkerWakes
    ensures var w, v := xs[i].w, xs[i + 1].w;
      && w.phase.Waiting? && v.phase == (if ProperTable(w.registers) then Configured else Dead)
      && v.line == w.line && v.registers == w.registers && v.memory == w.memory
      && (v.phase.Configured? ==> v.trace == w.trace + [ConfiguredFrom(0)])
  {
    PlayStaysInTune(xs, moves, i);
    assert MoveAt(xs, moves, i);
    ProperExactly(xs[i].w.registers);
  }

  /** A worker that is configured stands on the first slot of the segment that the first entry holds. */
  lemma ConfiguredFromTable(xs: seq<Whole>, moves: seq<Move>, i: nat, s: Segment)
    requires Play(xs, moves) && i < |moves| && moves[i] == WorkerWakes && ProperTable(xs[i].w.registers)
    requires xs[i].w.registers.erstba % 64 == 0 && xs[i].w.registers.erstba + 16 <= TWO_64
    requires HoldsEntry(xs[i].w.memory, xs[i].w.registers.erstba, 0, s) && Usable(s)
    ensures xs[i + 1].w.ring == RingState(s.base, s.size, 0, true)
  {
    var table := xs[i].w.registers.erstba;
    PlayStaysInTune(xs, moves, i);
    assert MoveAt(xs, moves, i);
    ProperExactly(xs[i].w.registers);
    EvenMeansAligned(table);
    EntryAddress(table, 0, 1);
    EntryReadsBack(xs[i].w.memory, table, s);
  }

  /** The slot behind the next one is where the driver stands, or there is no next segment to look at. */
  predicate NoRoomLeft(w: Worker) {
    var r, entries := w.registers, w.registers.erstsz % 0x1_0000_0000;
    if w.ring.trbCount != 1 then r.erdp == WrappingAdd(w.ring.enqueuePointer, 16)
    else
      entries == 0
      || r.erdp == ReadNumber(w.memory, WrappingAdd(r.erstba - r.erstba % 32, (w.ring.erstCount + 1) % entries * 16), 8)
  }

  lemma NoRoomExactly(w: Worker)
    ensures NoRoomLeft(w) <==> !CanWrite(w)
  {
    var entries := Entries(w.registers);
    if w.ring.trbCount == 1 && entries != 0 {
      SmallPosition(WrappingAdd(Table(w.registers), (w.ring.erstCount + 1) % entries * 16), TWO_64);
    }
  }

  /** In every run the worker ends in two ways only: woken without a proper table, or by an event without room. */
  lemma WorkerEndsExactly(xs: seq<Whole>, moves: seq<Move>, i: nat)
    requires Play(xs, moves) && i < |moves| && !xs[i].w.phase.Dead?
    ensures xs[i + 1].w.phase.Dead? <==>
      || (moves[i] == WorkerWakes && !ProperTable(xs[i].w.registers))
      || (moves[i] == WorkerTakes && xs[i].w.phase.Configured? && xs[i].queue != [] && xs[i].queue[0].SendEvent?
          && NoRoomLeft(xs[i].w))
  {
    assert MoveAt(xs, moves, i);
    ProperExactly(xs[i].w.registers);
    NoRoomExactly(xs[i].w);
  }

  /** Not woken since step `j`. */
  ghost predicate Undisturbed(moves: seq<Move>, j: nat, i: nat)
    requires j <= i <= |moves|
  {
    forall k | j <= k < i :: !moves[k].WorkerWakes?
  }

  /**
   * A waiting worker stays alive and waiting until it is woken, whatever is sent to it: nothing is written
   * meanwhile, and only resets leave a trace.
   */
  lemma {:induction false} WaitsUntilWoken(xs: seq<Whole>, moves: seq<Move>, j: nat, i: nat)
    requires Play(xs, moves) && j <= i < |xs| && xs[j].w.phase.Waiting? && Undisturbed(moves, j, i)
    ensures xs[i].w.phase.Waiting?
    ensures |xs[j].w.trace| <= |xs[i].w.trace| && xs[i].w.trace[..|xs[j].w.trace|] == xs[j].w.trace
    ensures forall k | |xs[j].w.trace| <= k < |xs[i].w.trace| :: xs[i].w.trace[k] == WasReset
    decreases i
  {
    if j < i {
      WaitsUntilWoken(xs, moves, j, i - 1);
      assert MoveAt(xs, moves, i - 1);
      if moves[i - 1] == WorkerTakes { WaitingWorkerOnlyListens(xs, moves, i - 1); }
    }
  }

  // ---------------------------------------------------------------------
  // The queue
  // ---------------------------------------------------------------------

  /** The message a move sends: an event, a reset, or the line that a hand-over step put in place of the last. */
  function SentBy(x: Whole, m: Move): seq<Message>
    requires Possible(x, m)
  {
    match m
    case DeviceSends(e) => [SendEvent(e)]
    case ControllerReset => [Interrupters.Reset]
    case HandoverStep(a) =>
      var lines := Next(x.y, a).s.lines;
      if lines == x.y.s.lines || lines == [] then [] else [UpdateInterruptLine(lines[|lines| - 1])]
    case _ => []
  }

  /** Everything sent by the first `i` moves of a run. */
  function AllSent(xs: seq<Whole>, moves: seq<Move>, i: nat): seq<Message>
    requires i <= |moves| && |xs| == |moves| + 1 && forall k | 0 <= k < |moves| :: Possible(xs[k], moves[k])
  {
    if i == 0 then [] else AllSent(xs, moves, i - 1) + SentBy(xs[i - 1], moves[i - 1])
  }

  /** Everything the worker took up in the first `i` moves. */
  function AllTaken(xs: seq<Whole>, moves: seq<Move>, i: nat): seq<Message>
    requires i <= |moves| && |xs| == |moves| + 1 && forall k | 0 <= k < |moves| :: Possible(xs[k], moves[k])
  {
    if i == 0 then []
    else AllTaken(xs, moves, i - 1) + if moves[i - 1].WorkerTakes? then [xs[i - 1].queue[0]] else []
  }

  lemma QueueGrowsByWhatIsSent(x: Whole, m: Move)
    requires Possible(x, m) && !m.WorkerTakes?
    ensures Then(x, m).queue == x.queue + SentBy(x, m)
  {
    if m.HandoverStep? {
      StepInstallsAtMostOne(x.y, m.a);
      assert Next(x.y, m.a).s == x.y.s || Next(x.y, m.a).s == After(x.y, m.a);
    }
  }

  /**
   * Every message is taken once and in the order of sending: in every run the worker has taken the first
   * of what device, controller and hand-over have sent, and the rest is in the queue.
   */
  lemma {:induction false} MessagesAreTakenInOrder(xs: seq<Whole>, moves: seq<Move>, i: nat)
    requires Play(xs, moves) && i < |xs|
    requires forall k | 0 <= k < |moves| :: Possible(xs[k], moves[k])
    ensures AllSent(xs, moves, i) == AllTaken(xs, moves, i) + xs[i].queue
  {
    if i > 0 {
      MessagesAreTakenInOrder(xs, moves, i - 1);
      assert MoveAt(xs, moves, i - 1);
      var x, m := xs[i - 1], moves[i - 1];
      if m.WorkerTakes? {
        HeadMoves(AllTaken(xs, moves, i - 1), x.queue);
      } else {
        QueueGrowsByWhatIsSent(x, m);
        TailGrows(AllTaken(xs, moves, i - 1), x.queue, SentBy(x, m));
      }
    }
  }

  lemma HeadMoves<T>(taken: seq<T>, queue: seq<T>)
    requires queue != []
    ensures taken + queue + [] == taken + [queue[0]] + queue[1..]
  {
  }

  lemma TailGrows<T>(taken: seq<T>, queue: seq<T>, more: seq<T>)
    ensures taken + queue + more == taken + [] + (queue + more)
  {
  }

  /** The guest may write anything to its memory and to the registers of the ring, at any time, and nothing else. */
  lemma GuestWritesAnything(x: Whole, r: Registers, memory: Memory)
    ensures Possible(x, GuestWrites(r, memory))
    ensures Then(x, GuestWrites(r, memory)) == x.(w := x.w.(registers := r, memory := memory))
  {
  }
}
