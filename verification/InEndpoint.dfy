/**
 * An IN endpoint as a whole: the worker on its transfer ring, the handle that collects TDs, and a device
 * that answers them. Every step of it is a step the worker is allowed, and a transfer that fails resumes
 * at the first TRB whose buffer was not filled.
 */
module InEndpoint {
  import opened Bytes
  import opened CycleRings
  import opened EndpointOnRing
  import opened EndpointRuns
  import opened EndpointWorkers
  import opened GuestMemory
  import In = InTransfers
  import opened LinkedRings
  import opened Trbs
  import opened Wrappers

  // ---------------------------------------------------------------------
  // From the handle's outcome to the worker's completion
  // ---------------------------------------------------------------------

  function CursorOf(at: Option<(nat, bool)>): Option<Cursor> {
    match at case None => None case Some((pointer, cycle)) => Some(Cursor(pointer, cycle))
  }

  /** The hot-plug wrapper: a device that is gone looks like a failed transaction. */
  function CompletionOf(p: In.ProcessingResult): Completion {
    match p
    case Ok => Completion.Done
    case Stall(at) => Completion.Stall(CursorOf(at))
    case TransactionError(at) => Completion.TransactionError(CursorOf(at))
    case Disconnect => Completion.TransactionError(None)
    case TrbError => Completion.TrbError
  }

  // ---------------------------------------------------------------------
  // What the handle holds
  // ---------------------------------------------------------------------

  function TakenTrb(f: Fetched): (t: In.InTrb)
    ensures t.addr == f.cursor.pointer && t.cycleBit == CycleBit(f.trb)
  {
    In.ToInTrb(RawTrb(f.cursor.pointer, f.trb))
  }

  /** The TRBs taken from the ring, from number `from` on. */
  function TakenFrom(fetched: seq<Fetched>, from: nat): (td: seq<In.InTrb>)
    requires from <= |fetched|
    ensures |td| == |fetched| - from
    ensures forall k | 0 <= k < |td| :: td[k] == TakenTrb(fetched[from + k])
  {
    seq<In.InTrb>(|fetched| - from, k requires 0 <= k < |fetched| - from => TakenTrb(fetched[from + k]))
  }

  lemma OneMoreTaken(fetched: seq<Fetched>, from: nat, f: Fetched)
    requires from <= |fetched|
    ensures TakenFrom(fetched + [f], from) == TakenFrom(fetched, from) + [TakenTrb(f)]
  {
  }

  /** The worker with its ring, and the handle. */
  datatype InSystem = InSystem(s: System, handle: In.SubmissionState)

  function HeldBy(h: In.SubmissionState): seq<In.InTrb> { if h.UnsupportedTrb? then [] else h.trbs }

  /** How many of the handle's TRBs the worker has stepped over; the last one is waited for. */
  function TakenPart(x: InSystem): nat {
    if x.s.worker.state.WaitForTrbCompletion? && HeldBy(x.handle) != [] then |HeldBy(x.handle)| - 1
      else |HeldBy(x.handle)|
  }

  /** The number of the first of them among the TRBs taken. */
  function First(x: InSystem): nat {
    if TakenPart(x) <= |x.s.ring.fetched| then |x.s.ring.fetched| - TakenPart(x) else 0
  }

  /**
   * The first `taken` of these TRBs are the last ones taken from the ring, and the driver gave up none of
   * their slots.
   */
  ghost predicate Holding(trbs: seq<In.InTrb>, taken: nat, fetched: seq<Fetched>, released: nat) {
    && taken <= |fetched| && taken <= |trbs|
    && trbs[..taken] == TakenFrom(fetched, |fetched| - taken)
    && (0 < taken ==> released <= fetched[|fetched| - taken].position)
  }

  lemma HoldingNothing(trbs: seq<In.InTrb>, fetched: seq<Fetched>, released: nat)
    ensures Holding(trbs, 0, fetched, released)
  {
  }

  lemma HoldingOneMore(trbs: seq<In.InTrb>, t: In.InTrb, fetched: seq<Fetched>, released: nat)
    requires Holding(trbs, |trbs|, fetched, released)
    ensures Holding(trbs + [t], |trbs|, fetched, released)
  {
    assert (trbs + [t])[..|trbs|] == trbs == trbs[..|trbs|];
  }

  lemma TakingTheLast(trbs: seq<In.InTrb>, fetched: seq<Fetched>, released: nat, f: Fetched)
    requires trbs != [] && Holding(trbs, |trbs| - 1, fetched, released)
    requires TakenTrb(f) == trbs[|trbs| - 1] && released <= f.position
    ensures Holding(trbs, |trbs|, fetched + [f], released)
  {
    var n := |trbs| - 1;
    OneMoreTaken(fetched, |fetched| - n, f);
    assert trbs[..n] + [trbs[n]] == trbs[..n + 1];
  }

  /** The handle's last TRB is the one submitted last. */
  ghost predicate HoldsAwaited(h: In.SubmissionState, submitted: seq<RawTrb>) {
    && 0 < |submitted|
    && (h.UnsupportedTrb? || (h.trbs != [] && h.trbs[|h.trbs| - 1] == In.ToInTrb(submitted[|submitted| - 1])))
  }

  /**
   * As long as the worker is alive the handle holds exactly the last TRBs taken, and behind them the one
   * waited for.
   */
  ghost predicate Collects(x: InSystem) {
    !x.s.worker.state.Failed? ==>
    && Holding(HeldBy(x.handle), TakenPart(x), x.s.ring.fetched, x.s.ring.released)
    && (if x.s.worker.state.WaitForTrbCompletion? then HoldsAwaited(x.handle, x.s.worker.submitted)
         else x.handle.CollectingTd?)
  }

  // ---------------------------------------------------------------------
  // Steps
  // ---------------------------------------------------------------------

  /**
   * The driver and the rest of the machine, messages, looking for a TRB, the device's answer to a TD, and the
   * hot-plug wrapper's own answer once the device is gone; a handle that is gone collects nothing of interest.
   */
  datatype InMove =
    | Elsewhere(a: EndpointOnRing.Move)
    | TakeMessage(m: Message, works: bool)
    | Proceed(works: bool)
    | Finish(reply: Option<In.Reply>)
    | Detached

  /** What the handle says when it is asked: at once while it collects, or once the device has answered. */
  function Result(h: In.SubmissionState, reply: Option<In.Reply>): Option<In.ProcessingResult> {
    match h
    case CollectingTd(_) => Some(In.ProcessingResult.Ok)
    case UnsupportedTrb => Some(In.ProcessingResult.TrbError)
    case AwaitingRealTransfer(td) => if reply.None? then None else Some(In.Outcome(td, reply.value))
  }

  function Completed(h: In.SubmissionState, reply: Option<In.Reply>): Completion {
    match Result(h, reply) case None => Completion.Broken case Some(p) => CompletionOf(p)
  }

  /** Which TRB the failed transfer goes back to. */
  function FailedAt(x: InSystem, reply: Option<In.Reply>): nat {
    First(x) + if reply.Some? then In.FirstShort(HeldBy(x.handle), |reply.value.data|) else 0
  }

  function NamesTrb(c: Completion): bool { (c.Stall? || c.TransactionError?) && c.at.Some? }

  /** The step of the worker and its ring that this is. */
  function MoveOf(x: InSystem, a: InMove): EndpointOnRing.Move {
    match a
    case Elsewhere(b) => b
    case TakeMessage(m, works) => WorkerStep(Take(m, works))
    case Proceed(works) => WorkerStep(Go(works))
    case Finish(reply) =>
      var c := Completed(x.handle, reply);
      if NamesTrb(c) then WorkerGoesBack(c, FailedAt(x, reply)) else WorkerStep(Complete(c))
    case Detached => WorkerStep(Complete(Completion.TransactionError(None)))
  }

  /** The driver gives up no slot of a TD that was not finished. */
  ghost predicate Patient(x: InSystem, a: EndpointOnRing.Move) {
    a.DriverReleases? && 0 < TakenPart(x) <= |x.s.ring.fetched| ==> a.upTo <= x.s.ring.fetched[First(x)].position
  }

  ghost predicate CanHappen(x: InSystem, a: InMove, r: TransferRing)
    requires Joined(r)
  {
    match a
    case Elsewhere(b) => (b.DriverPuts? || b.DriverReleases? || b.MemoryWritten?) && Possible(x.s, b, r)
      && Patient(x, b)
    case TakeMessage(m, works) => Enabled(x.s.worker, Take(m, works))
    case Proceed(works) => Proceeds(x.s.worker) && !x.s.worker.state.SettingTrDequeuePointer?
    case Finish(_) => x.s.worker.state.WaitForTrbCompletion?
    case Detached => x.s.worker.state.WaitForTrbCompletion?
  }

  /** The handle after the step: it takes what the worker submits, and forgets a TD that is cancelled or answered. */
  function HandleAfter(x: InSystem, a: InMove): In.SubmissionState {
    var w := x.s.worker;
    match a
    case Elsewhere(_) => x.handle
    case TakeMessage(m, _) => if w.state.WaitForTrbCompletion? && m.Stop? then In.IDLE else x.handle
    case Proceed(works) =>
      var t := Chase(w.memory, w.ring, MAX_LINKS).0;
      if w.state.LookForTrb? && t.Some? && x.handle.CollectingTd?
        then In.Submitted(x.handle.trbs, In.ToInTrb(t.value)).0
      else x.handle
    case Finish(reply) => if x.handle.CollectingTd? || Result(x.handle, reply).None? then x.handle else In.IDLE
    case Detached => In.IDLE
  }

  function After(x: InSystem, a: InMove, r: TransferRing): InSystem
    requires 0 < |r.slots|
    requires a.TakeMessage? ==> Listens(x.s.worker)
    requires a.Elsewhere? ==> !a.a.WorkerStep?
  {
    InSystem(Next(x.s, MoveOf(x, a), r), HandleAfter(x, a))
  }

  // ---------------------------------------------------------------------
  // Failures
  // ---------------------------------------------------------------------

  /** Later TRBs were taken at later positions. */
  lemma PositionsAscend(v: World, r: TransferRing, j: nat, k: nat)
    requires Joined(r) && InStep(v, r) && j <= k < |v.fetched|
    ensures v.fetched[j].position <= v.fetched[k].position
  {
    assert TookAt(v, r, j) && TookAt(v, r, k);
    if v.fetched[k].position < v.fetched[j].position {
      PayloadGrows(v.log, v.fetched[k].position, v.fetched[j].position);
      assert false;
    }
  }

  /** The TRB waited for carries where the ring stands. */
  lemma AwaitedIsFresh(w: Worker, v: World, r: TransferRing)
    requires Coupled(w, v, r) && w.state.WaitForTrbCompletion?
    ensures var t := In.ToInTrb(w.submitted[|w.submitted| - 1]); Cursor(t.addr, t.cycleBit) == w.ring
  {
    assert Proper(r, v.position, v.log[v.position]);
  }

  /**
   * When the device's answer stalls or fails a TD, the worker is told exactly where the ring stood when it
   * came to the first TRB whose buffer was not filled, whether that was taken long ago or is the last of
   * the TD and still waited for.
   */
  lemma FailureNamesFirstUnfilled(x: InSystem, reply: In.Reply, r: TransferRing)
    requires Coupled(x.s.worker, x.s.ring, r) && Collects(x)
    requires x.s.worker.state.WaitForTrbCompletion? && x.handle.AwaitingRealTransfer?
    requires var p := In.Outcome(x.handle.trbs, reply); p.Stall? || p.TransactionError?
    ensures var td, k := x.handle.trbs, In.FirstShort(x.handle.trbs, |reply.data|);
      && k < |td| && In.Crosses(td, |reply.data|, k)
      && EndpointOnRing.Names(x.s.worker, x.s.ring, Completed(x.handle, Some(reply)), First(x) + k, r)
      && In.ToInTrb(NamedTrb(x.s.worker, x.s.ring, First(x) + k)) == td[k]
  {
    var k := In.FirstShort(x.handle.trbs, |reply.data|);
    In.FailureNamesFirstShort(x.handle.trbs, reply);
    if k < TakenPart(x) {
      TakenTrbIsNamed(x, k, r);
    } else {
      AwaitedIsFresh(x.s.worker, x.s.ring, r);
    }
  }

  /** A TRB of the TD that was taken carries where the ring stood, and the driver has not given up its slot. */
  lemma TakenTrbIsNamed(x: InSystem, k: nat, r: TransferRing)
    requires Coupled(x.s.worker, x.s.ring, r) && Collects(x) && !x.s.worker.state.Failed? && k < TakenPart(x)
    ensures var v, f := x.s.ring, x.s.ring.fetched[First(x) + k];
      && HeldBy(x.handle)[k] == TakenTrb(f) == In.ToInTrb(RawTrb(f.cursor.pointer, f.trb))
      && Cursor(TakenTrb(f).addr, TakenTrb(f).cycleBit) == f.cursor
      && Allowed(v, Rewind(First(x) + k), r)
  {
    var v, trbs := x.s.ring, HeldBy(x.handle);
    assert trbs[k] == trbs[..TakenPart(x)][k] == TakenTrb(v.fetched[First(x) + k]);
    FetchedIsFresh(v, r, First(x) + k);
    PositionsAscend(v, r, First(x), First(x) + k);
  }

  /** The ring that was set back finds the named TRB at once. */
  lemma WoundBackFindsNamed(w: Worker, v: World, r: TransferRing, c: Completion, k: nat)
    requires Coupled(w, v, r) && w.state.WaitForTrbCompletion? && EndpointOnRing.Names(w, v, c, k, r)
    ensures var halted := OnCompletion(w, c);
      && halted.ring == c.at.value
      && Chase(halted.memory, halted.ring, MAX_LINKS) == (Some(NamedTrb(w, v, k)), halted.ring)
  {
    var u := WoundBack(w, v, c, k);
    FailureWindsBack(w, v, r, c, k);
    if k < |v.fetched| { assert TookAt(v, r, k); }
    assert Reach(u.log, u.position, MAX_LINKS) == u.position;
    ChaseReadsLog(u.memory, r, u.log, u.position, MAX_LINKS);
  }

  /** `halted` stands on TRB `t`: its ring is set to it, finds it, and submits it after a reset and a doorbell. */
  ghost predicate StandsOn(halted: Worker, t: In.InTrb) {
    && halted.state.Halted? && halted.ring == Cursor(t.addr, t.cycleBit)
    && var (found, at) := Chase(halted.memory, halted.ring, MAX_LINKS);
    && found.Some? && In.ToInTrb(found.value) == t && at == halted.ring
    && Restarted(halted).state.WaitForTrbCompletion? && Restarted(halted).submitted == halted.submitted + [found.value]
  }

  /**
   * After a stall or transaction error the worker stands on the first TRB whose buffer was not filled.
   */
  lemma FailureStandsOnFirstUnfilled(x: InSystem, reply: In.Reply, r: TransferRing)
    requires Coupled(x.s.worker, x.s.ring, r) && Collects(x)
    requires x.s.worker.state.WaitForTrbCompletion? && x.handle.AwaitingRealTransfer?
    requires var p := In.Outcome(x.handle.trbs, reply); p.Stall? || p.TransactionError?
    ensures var td, k := x.handle.trbs, In.FirstShort(x.handle.trbs, |reply.data|);
      && k < |td| && In.Crosses(td, |reply.data|, k)
      && StandsOn(OnCompletion(x.s.worker, Completed(x.handle, Some(reply))), td[k])
  {
    var k, c := In.FirstShort(x.handle.trbs, |reply.data|), Completed(x.handle, Some(reply));
    In.FailureNamesFirstShort(x.handle.trbs, reply);
    FailureNamesFirstUnfilled(x, reply, r);
    WoundBackFindsNamed(x.s.worker, x.s.ring, r, c, First(x) + k);
    FailureGoesBack(x.s.worker, x.s.ring, r, c, First(x) + k);
  }

  // ---------------------------------------------------------------------
  // Every step is a step of the worker on its ring
  // ---------------------------------------------------------------------

  ghost predicate InOrder(x: InSystem, r: TransferRing) { Orderly(x.s, r) && Collects(x) }

  lemma StepIsPossible(x: InSystem, a: InMove, r: TransferRing)
    requires InOrder(x, r) && CanHappen(x, a, r)
    ensures Possible(x.s, MoveOf(x, a), r)
  {
    if a.Finish? && NamesTrb(Completed(x.handle, a.reply)) {
      FailureNamesFirstUnfilled(x, a.reply.value, r);
    }
  }

  lemma MessageKeepsCollecting(x: InSystem, z: InSystem, m: Message, works: bool, r: TransferRing)
    requires InOrder(x, r) && CanHappen(x, TakeMessage(m, works), r) && z == After(x, TakeMessage(m, works), r)
    ensures Collects(z)
  {
    var b := OnlyContextIsWritten(x.s.worker, Take(m, works));
    assert z.s.ring.fetched == x.s.ring.fetched && z.s.ring.released == x.s.ring.released;
    if z.handle == In.IDLE {
      HoldingNothing([], x.s.ring.fetched, x.s.ring.released);
    } else {
      assert z.handle == x.handle;
    }
  }

  lemma LookKeepsCollecting(x: InSystem, z: InSystem, works: bool, r: TransferRing)
    requires InOrder(x, r) && CanHappen(x, Proceed(works), r) && z == After(x, Proceed(works), r)
    requires x.s.worker.state.LookForTrb?
    ensures Collects(z)
  {
    var w, v, trbs := x.s.worker, x.s.ring, x.handle.trbs;
    var t := Chase(w.memory, w.ring, MAX_LINKS).0;
    assert z.s.ring.fetched == v.fetched && z.s.ring.released == v.released;
    if t.Some? && works {
      HoldingOneMore(trbs, In.ToInTrb(t.value), v.fetched, v.released);
      HoldingNothing([], v.fetched, v.released);
    }
  }

  lemma ContinuingTakes(x: InSystem, z: InSystem, reply: Option<In.Reply>, r: TransferRing) returns (f: Fetched)
    requires InOrder(x, r) && CanHappen(x, Finish(reply), r) && x.handle.CollectingTd?
    requires z == After(x, Finish(reply), r)
    ensures z.s.ring.fetched == x.s.ring.fetched + [f] && z.s.ring.released == x.s.ring.released <= f.position
    ensures TakenTrb(f) == In.ToInTrb(x.s.worker.submitted[|x.s.worker.submitted| - 1])
    ensures z.s.worker.state == LookForTrb && z.handle == x.handle
  {
    var w, v := x.s.worker, x.s.ring;
    CompletionTakesNext(w, v, r);
    f := Fetched(v.position, w.ring, w.submitted[|w.submitted| - 1].buffer);
  }

  /** A TRB that only continues the TD is stepped over and kept. */
  lemma ContinuingKeepsCollecting(x: InSystem, z: InSystem, reply: Option<In.Reply>, r: TransferRing)
    requires InOrder(x, r) && CanHappen(x, Finish(reply), r) && x.handle.CollectingTd?
    requires z == After(x, Finish(reply), r)
    ensures Collects(z)
  {
    var f := ContinuingTakes(x, z, reply, r);
    TakingTheLast(x.handle.trbs, x.s.ring.fetched, x.s.ring.released, f);
  }

  lemma FinishKeepsCollecting(x: InSystem, z: InSystem, reply: Option<In.Reply>, r: TransferRing)
    requires InOrder(x, r) && CanHappen(x, Finish(reply), r) && z == After(x, Finish(reply), r)
    ensures Collects(z)
  {
    if x.handle.CollectingTd? {
      ContinuingKeepsCollecting(x, z, reply, r);
    } else {
      HoldingNothing([], z.s.ring.fetched, z.s.ring.released);
    }
  }

  lemma ElsewhereTakesNothing(x: InSystem, z: InSystem, b: EndpointOnRing.Move, r: TransferRing)
    requires 0 < |r.slots| && (b.DriverPuts? || b.DriverReleases? || b.MemoryWritten?) && z == After(x, Elsewhere(b), r)
    ensures z.handle == x.handle && z.s.ring.fetched == x.s.ring.fetched
    ensures z.s.worker.state == x.s.worker.state && z.s.worker.submitted == x.s.worker.submitted
    ensures z.s.ring.released == if b.DriverReleases? then b.upTo else x.s.ring.released
  {
  }

  lemma ElsewhereKeepsCollecting(x: InSystem, z: InSystem, b: EndpointOnRing.Move, r: TransferRing)
    requires InOrder(x, r) && CanHappen(x, Elsewhere(b), r) && z == After(x, Elsewhere(b), r)
    ensures Collects(z)
  {
    ElsewhereTakesNothing(x, z, b, r);
  }

  lemma DetachKeepsCollecting(x: InSystem, z: InSystem, r: TransferRing)
    requires InOrder(x, r) && CanHappen(x, Detached, r) && z == After(x, Detached, r)
    ensures Collects(z)
  {
    HoldingNothing([], z.s.ring.fetched, z.s.ring.released);
  }

  lemma StepKeepsCollecting(x: InSystem, z: InSystem, a: InMove, r: TransferRing)
    requires InOrder(x, r) && CanHappen(x, a, r) && z == After(x, a, r)
    ensures Collects(z)
  {
    match a
    case TakeMessage(m, works) => MessageKeepsCollecting(x, z, m, works, r);
    case Proceed(works) => if x.s.worker.state.LookForTrb? { LookKeepsCollecting(x, z, works, r); }
    case Finish(reply) => FinishKeepsCollecting(x, z, reply, r);
    case Detached => DetachKeepsCollecting(x, z, r);
    case Elsewhere(b) => ElsewhereKeepsCollecting(x, z, b, r);
  }

  lemma StepKeepsOrder(x: InSystem, z: InSystem, a: InMove, r: TransferRing)
    requires InOrder(x, r) && CanHappen(x, a, r) && z == After(x, a, r)
    ensures InOrder(z, r)
  {
    StepIsPossible(x, a, r);
    MoveKeepsOrder(x.s, z.s, MoveOf(x, a), r);
    StepKeepsCollecting(x, z, a, r);
  }

  ghost predicate StepAt(xs: seq<InSystem>, moves: seq<InMove>, i: nat, r: TransferRing)
    requires Joined(r) && |xs| == |moves| + 1 && i < |moves|
  {
    CanHappen(xs[i], moves[i], r) && xs[i + 1] == After(xs[i], moves[i], r)
  }

  /** A run of an IN endpoint from its launch. */
  ghost predicate InPlay(xs: seq<InSystem>, moves: seq<InMove>, r: TransferRing) {
    && |xs| == |moves| + 1 && EndpointOnRing.Start(xs[0].s, r) && xs[0].handle == In.IDLE
    && (forall i | 0 <= i < |moves| :: StepAt(xs, moves, i, r))
  }

  lemma {:induction false} PlayStaysInOrder(xs: seq<InSystem>, moves: seq<InMove>, r: TransferRing, i: nat)
    requires InPlay(xs, moves, r) && i < |xs|
    ensures InOrder(xs[i], r)
    decreases i
  {
    if i == 0 {
      StartIsOrderly(xs[0].s, r);
    } else {
      PlayStaysInOrder(xs, moves, r, i - 1);
      assert StepAt(xs, moves, i - 1, r);
      StepKeepsOrder(xs[i - 1], xs[i], moves[i - 1], r);
    }
  }

  function WorkersOf(xs: seq<InSystem>): (ss: seq<System>)
    ensures |ss| == |xs| && forall i | 0 <= i < |xs| :: ss[i] == xs[i].s
  {
    seq<System>(|xs|, i requires 0 <= i < |xs| => xs[i].s)
  }

  function MovesOf(xs: seq<InSystem>, moves: seq<InMove>): (r: seq<EndpointOnRing.Move>)
    requires |xs| == |moves| + 1
    ensures |r| == |moves| && forall i | 0 <= i < |moves| :: r[i] == MoveOf(xs[i], moves[i])
  {
    seq<EndpointOnRing.Move>(|moves|, i requires 0 <= i < |moves| => MoveOf(xs[i], moves[i]))
  }

  /**
   * Every run of an IN endpoint, whatever the device answers, is a run of the worker on its ring: in
   * particular its TRBs are completed in the driver's order.
   */
  lemma InEndpointRefinesWorker(xs: seq<InSystem>, moves: seq<InMove>, r: TransferRing)
    requires InPlay(xs, moves, r)
    ensures EndpointOnRing.Play(WorkersOf(xs), MovesOf(xs, moves), r)
  {
    var ss, ms := WorkersOf(xs), MovesOf(xs, moves);
    forall i | 0 <= i < |ms| ensures EndpointOnRing.MoveAt(ss, ms, i, r) {
      PlayStaysInOrder(xs, moves, r, i);
      assert StepAt(xs, moves, i, r);
      StepIsPossible(xs[i], moves[i], r);
    }
  }

  /**
   * In every run, when the device stalls or fails a TD before filling it, the worker ends up on the first
   * TRB whose buffer was not filled: the ring is set back to exactly the pointer and cycle state it had
   * there, across links that toggled it, looking again finds that TRB, and after a reset and a doorbell it
   * is submitted next.
   */
  lemma WindingBackFindsTheFailedTrb(xs: seq<InSystem>, moves: seq<InMove>, r: TransferRing, i: nat, reply: In.Reply)
    requires InPlay(xs, moves, r) && i < |moves| && moves[i] == Finish(Some(reply))
    requires xs[i].handle.AwaitingRealTransfer?
    requires var p := In.Outcome(xs[i].handle.trbs, reply); p.Stall? || p.TransactionError?
    ensures var td, k := xs[i].handle.trbs, In.FirstShort(xs[i].handle.trbs, |reply.data|);
      k < |td| && In.Crosses(td, |reply.data|, k) && StandsOn(xs[i + 1].s.worker, td[k])
  {
    PlayStaysInOrder(xs, moves, r, i);
    assert StepAt(xs, moves, i, r);
    FailureStandsOnFirstUnfilled(xs[i], reply, r);
    FailureIsGoingBack(xs[i], reply);
    WorkerAfterGoingBack(xs[i], xs[i + 1], reply, r);
  }

  lemma FailureIsGoingBack(x: InSystem, reply: In.Reply)
    requires x.handle.AwaitingRealTransfer?
    requires var p := In.Outcome(x.handle.trbs, reply); p.Stall? || p.TransactionError?
    ensures MoveOf(x, Finish(Some(reply))) == WorkerGoesBack(Completed(x.handle, Some(reply)), FailedAt(x, Some(reply)))
  {
    In.FailureNamesFirstShort(x.handle.trbs, reply);
  }

  lemma WorkerAfterGoingBack(x: InSystem, z: InSystem, reply: In.Reply, r: TransferRing)
    requires 0 < |r.slots| && z == After(x, Finish(Some(reply)), r)
    requires MoveOf(x, Finish(Some(reply))) ==
      WorkerGoesBack(Completed(x.handle, Some(reply)), FailedAt(x, Some(reply)))
    ensures z.s.worker == OnCompletion(x.s.worker, Completed(x.handle, Some(reply)))
  {
  }

  /** What the worker is told decides its state: it goes on, halts, stops in error, or ends with a broken device. */
  lemma CompletionDecidesState(x: InSystem, z: InSystem, reply: Option<In.Reply>, r: TransferRing)
    requires 0 < |r.slots| && z == After(x, Finish(reply), r)
    ensures var c, s := Completed(x.handle, reply), z.s.worker.state;
      && (c.Done? ==> s.LookForTrb?) && (c.Stall? || c.TransactionError? ==> s.Halted?)
      && (c.TrbError? ==> s.Error?) && (c.Broken? ==> s.Failed?)
  {
  }

  /**
   * What becomes of the endpoint, by what the handle holds and what the device answers: a TRB that only adds to
   * a TD is done with at once, an unsupported one is an error, and a whole TD is done with if the device
   * delivered or filled everything, and halts the endpoint otherwise; so does a device that is gone.
   */
  lemma OutcomeDecidesState(xs: seq<InSystem>, moves: seq<InMove>, r: TransferRing, i: nat)
    requires InPlay(xs, moves, r) && i < |moves|
    ensures moves[i].Finish? ==>
      var reply, s := moves[i].reply, xs[i + 1].s.worker.state;
      match xs[i].handle
      case CollectingTd(_) => s.LookForTrb?
      case UnsupportedTrb => s.Error?
      case AwaitingRealTransfer(td) =>
        if reply.None? then s.Failed?
        else if reply.value.status == In.Delivered || In.Requested(td, |td|) <= |reply.value.data| then s.LookForTrb?
        else s.Halted?
    ensures moves[i].Detached? ==> xs[i + 1].s.worker.state.Halted?
  {
    assert StepAt(xs, moves, i, r);
    if moves[i].Finish? {
      CompletionDecidesState(xs[i], xs[i + 1], moves[i].reply, r);
      if xs[i].handle.AwaitingRealTransfer? && moves[i].reply.Some? {
        In.FirstShortCrosses(xs[i].handle.trbs, |moves[i].reply.value.data|);
      }
    }
  }
}
