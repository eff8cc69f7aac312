/**
 * The endpoint worker on a transfer ring kept by a well-behaved driver: what it submits and what it
 * completes, through stops, doorbells, stalls and resets.
 */
module EndpointOnRing {
  import opened Bytes
  import opened CycleRings
  import opened EndpointRuns
  import opened EndpointWorkers
  import opened GuestMemory
  import opened LinkedRings
  import opened Modular
  import opened Trbs
  import opened Wrappers

  /** The submitted TRB the worker waits for is the ring's entry at its position. */
  ghost predicate Awaits(w: Worker, v: World, r: TransferRing)
    requires 0 < |r.slots|
  {
    && v.position < |v.log| && !IsLink(v.log[v.position])
    && 0 < |w.submitted|
    && w.submitted[|w.submitted| - 1] == RawTrb(At(r, v.position).pointer, v.log[v.position])
  }

  /** Worker and ring share memory and stand at the same place; the context lies beside the ring. */
  ghost predicate Coupled(w: Worker, v: World, r: TransferRing) {
    && Joined(r) && InStep(v, r)
    && w.memory == v.memory && w.ring == v.cursor
    && w.context + 16 <= TWO_64 && OffRing(r.slots, w.context, 16)
    && (w.state.WaitForTrbCompletion? ==> Awaits(w, v, r))
  }

  lemma OffRingWithin(slots: seq<nat>, a: nat, n: nat, b: nat, m: nat)
    requires OffRing(slots, a, n) && a <= b && b + m <= a + n
    ensures OffRing(slots, b, m)
  {
    assert forall i | 0 <= i < |slots| :: Apart(a, n, slots[i], TRB_SIZE) ==> Apart(b, m, slots[i], TRB_SIZE);
  }

  /** Writing the context does not touch the ring. */
  lemma ContextWrites(w: Worker, v: World, r: TransferRing, state: Byte)
    requires Joined(r) && InStep(v, r) && w.memory == v.memory
    requires w.context + 16 <= TWO_64 && OffRing(r.slots, w.context, 16)
    ensures InStep(v.(memory := WithState(w.memory, w.context, state)), r)
    ensures InStep(v.(memory := WithCursor(WithState(w.memory, w.context, state), w.context, w.ring)), r)
  {
    OffsetDoesNotWrap(w.context);
    OffRingWithin(r.slots, w.context, 16, w.context, 1);
    OffRingWithin(r.slots, w.context, 16, w.context + POINTER_OFFSET, 8);
    var first := WriteElsewhere(w.context, [state]);
    MoveKeepsStep(v, first, r);
    var u := Moved(v, first, r);
    MoveKeepsStep(u, WriteElsewhere(w.context + POINTER_OFFSET, ToLe(CursorBits(w.ring), 8)), r);
  }

  /** The worker's own steps between the driver's: what they are to the ring. */
  datatype Progress = Same | Looked | Took

  function Effect(w: Worker, i: Input): Progress {
    if i.Complete? && i.c.Done? then Took else if i.Go? && w.state.LookForTrb? then Looked else Same
  }

  /** The ring after a step of the worker that neither goes back nor sets a new pointer. */
  function RingAfter(w: Worker, v: World, r: TransferRing, i: Input): World
    requires 0 < |r.slots| && (i.Take? ==> Listens(w))
  {
    match Effect(w, i)
    case Took => AfterFetch(v)
    case Looked => Moved(v, Peek, r)
    case Same => v.(memory := After(w, i).memory)
  }

  /** Steps that keep the order of the ring: no failure that names a TRB, no new pointer. */
  ghost predicate Forward(w: Worker, i: Input) {
    match i
    case Take(_, _) => true
    case Complete(c) => c.Stall? || c.TransactionError? ==> c.at.None?
    case Go(_) => !w.state.SettingTrDequeuePointer?
    case Outside(_) => false
  }

  /** Such a step leaves the ring alone and writes at most the context. */
  lemma OnlyContextIsWritten(w: Worker, i: Input) returns (b: Byte)
    requires Enabled(w, i) && Forward(w, i) && Effect(w, i).Same?
    ensures var v := After(w, i); var one := WithState(w.memory, w.context, b);
      && v.ring == w.ring && v.context == w.context && v.submitted == w.submitted
      && (v.state.WaitForTrbCompletion? ==> w.state.WaitForTrbCompletion?)
      && (v.memory == w.memory || v.memory == one || v.memory == WithCursor(one, w.context, w.ring))
  {
    match i
    case Take(m, _) => b := if m.Doorbell? then RUNNING else STOPPED;
    case Complete(c) => b := if c.TrbError? then ERROR else HALTED;
    case Go(_) => b := DISABLED;
  }

  lemma SameStep(w: Worker, v: World, r: TransferRing, i: Input)
    requires Coupled(w, v, r) && Enabled(w, i) && Forward(w, i) && Effect(w, i).Same?
    ensures Coupled(After(w, i), v.(memory := After(w, i).memory), r)
  {
    var b := OnlyContextIsWritten(w, i);
    ContextWrites(w, v, r, b);
    assert After(w, i).memory == w.memory ==> v.(memory := After(w, i).memory) == v;
  }

  /** Looking for a TRB submits the next one of the payload, if there is one in reach. */
  lemma LookSubmitsNext(w: Worker, v: World, r: TransferRing, works: bool)
    requires Coupled(w, v, r) && w.state.LookForTrb?
    ensures var after, u := Proceeded(w, works), Moved(v, Peek, r);
      && Coupled(after, u, r) && u.fetched == v.fetched && u.log == v.log
      && (after.state.WaitForTrbCompletion? <==> works && after.submitted != w.submitted)
      && (after.submitted == w.submitted
          || (|v.fetched| < |Payload(v.log, |v.log|)|
              && after.submitted == w.submitted + [RawTrb(after.ring.pointer, Payload(v.log, |v.log|)[|v.fetched|])]))
  {
    var e := Reach(v.log, v.position, MAX_LINKS);
    PeekKeepsStep(v, r);
    ChaseReadsLog(v.memory, r, v.log, v.position, MAX_LINKS);
    LinksAddNothing(v.log, v.position, e);
    PayloadGrows(v.log, e, |v.log|);
  }

  /** A completed TRB is the one submitted last, and the next of the payload. */
  lemma CompletionTakesNext(w: Worker, v: World, r: TransferRing)
    requires Coupled(w, v, r) && w.state.WaitForTrbCompletion?
    ensures var after, u := OnCompletion(w, Done), AfterFetch(v);
      && Coupled(after, u, r) && u.log == v.log
      && |v.fetched| < |Payload(v.log, |v.log|)|
      && w.submitted[|w.submitted| - 1] == RawTrb(w.ring.pointer, Payload(v.log, |v.log|)[|v.fetched|])
      && u.fetched == v.fetched + [Fetched(v.position, w.ring, w.submitted[|w.submitted| - 1].buffer)]
  {
    assert Reach(v.log, v.position, MAX_LINKS) == v.position;
    ChaseReadsLog(v.memory, r, v.log, v.position, MAX_LINKS);
    FetchKeepsStep(v, r);
    FetchYieldsNext(v, r);
    PayloadGrows(v.log, v.position, |v.log|);
  }

  /** The driver adding a TRB changes nothing about the TRB that is being waited for. */
  lemma PutKeepsCoupling(w: Worker, v: World, r: TransferRing, t: Trb)
    requires Coupled(w, v, r) && Allowed(v, Put(t), r)
    ensures Coupled(w.(memory := Moved(v, Put(t), r).memory), Moved(v, Put(t), r), r)
  {
    PutKeepsStep(v, t, r);
  }

  /** A failure that names the TRB number `k` of those taken, or the one being waited for. */
  ghost predicate Names(w: Worker, v: World, c: Completion, k: nat, r: TransferRing)
    requires Joined(r)
  {
    && (c.Stall? || c.TransactionError?) && c.at.Some?
    && if k < |v.fetched| then Allowed(v, Rewind(k), r) && c.at.value == v.fetched[k].cursor
       else k == |v.fetched| && c.at.value == w.ring
  }

  /** The ring after such a failure. */
  function WoundBack(w: Worker, v: World, c: Completion, k: nat): World {
    var m := OnCompletion(w, c).memory;
    if k < |v.fetched|
    then v.(cursor := v.fetched[k].cursor, position := v.fetched[k].position, fetched := v.fetched[..k], memory := m)
    else v.(memory := m)
  }

  /** A failure that names a TRB puts the ring back onto it. */
  lemma FailureWindsBack(w: Worker, v: World, r: TransferRing, c: Completion, k: nat)
    requires Coupled(w, v, r) && w.state.WaitForTrbCompletion? && Names(w, v, c, k, r)
    ensures Coupled(OnCompletion(w, c), WoundBack(w, v, c, k), r)
  {
    if k < |v.fetched| {
      RewindKeepsStep(v, k, r);
      var back := Moved(v, Rewind(k), r);
      ContextWrites(w.(ring := back.cursor), back, r, HALTED);
    } else {
      ContextWrites(w, v, r, HALTED);
    }
  }

  /** The TRB number `k` of those taken, or else the one being waited for. */
  function NamedTrb(w: Worker, v: World, k: nat): RawTrb
    requires k < |v.fetched| || 0 < |w.submitted|
  {
    if k < |v.fetched| then RawTrb(v.fetched[k].cursor.pointer, v.fetched[k].trb) else w.submitted[|w.submitted| - 1]
  }

  /** After a failure: the endpoint is reset, the doorbell rung, and the worker looks for a TRB. */
  function Restarted(halted: Worker): Worker
    requires halted.state.Halted?
  {
    Proceeded(OnMessage(OnMessage(halted, Reset(0), true), Doorbell, true), true)
  }

  /** Whichever TRB a failure named, taken before or waited for, is the next one submitted. */
  lemma FailureGoesBack(w: Worker, v: World, r: TransferRing, c: Completion, k: nat)
    requires Coupled(w, v, r) && w.state.WaitForTrbCompletion? && Names(w, v, c, k, r)
    ensures var again := Restarted(OnCompletion(w, c));
      again.state.WaitForTrbCompletion? && again.submitted == w.submitted + [NamedTrb(w, v, k)]
  {
    var halted, u := OnCompletion(w, c), WoundBack(w, v, c, k);
    FailureWindsBack(w, v, r, c, k);
    var stopped := OnMessage(halted, Reset(0), true);
    SameStep(halted, u, r, Take(Reset(0), true));
    var running := OnMessage(stopped, Doorbell, true);
    var u1 := u.(memory := stopped.memory);
    SameStep(stopped, u1, r, Take(Doorbell, true));
    var u2 := u1.(memory := running.memory);
    if k < |v.fetched| { assert TookAt(v, r, k); }
    assert Reach(u2.log, u2.position, MAX_LINKS) == u2.position;
    ChaseReadsLog(u2.memory, r, u2.log, u2.position, MAX_LINKS);
  }

  // ---------------------------------------------------------------------
  // Runs of driver and worker
  // ---------------------------------------------------------------------

  /**
   * The driver adds a TRB or takes note of how far the worker is; anybody writes memory beside the ring;
   * the worker makes a step or goes back after a failure.
   */
  datatype Move =
    | DriverPuts(t: Trb)
    | DriverReleases(upTo: nat)
    | MemoryWritten(a: nat, bytes: seq<Byte>)
    | WorkerStep(i: Input)
    | WorkerGoesBack(c: Completion, k: nat)

  /** `completed` are the TRBs that count as done. */
  datatype System = System(worker: Worker, ring: World, completed: seq<Trb>)

  /** The TRB submitted last. */
  function LastOf(submitted: seq<RawTrb>): seq<Trb> {
    if submitted == [] then [] else [submitted[|submitted| - 1].buffer]
  }

  ghost predicate Possible(s: System, a: Move, r: TransferRing)
    requires Joined(r)
  {
    match a
    case DriverPuts(t) => Allowed(s.ring, Put(t), r)
    case DriverReleases(n) => Allowed(s.ring, Release(n), r)
    case MemoryWritten(a, bytes) => Allowed(s.ring, WriteElsewhere(a, bytes), r)
    case WorkerStep(i) => Enabled(s.worker, i) && Forward(s.worker, i)
    case WorkerGoesBack(c, k) => s.worker.state.WaitForTrbCompletion? && Names(s.worker, s.ring, c, k, r)
  }

  function Next(s: System, a: Move, r: TransferRing): System
    requires 0 < |r.slots|
    requires a.WorkerStep? && a.i.Take? ==> Listens(s.worker)
  {
    match a
    case DriverPuts(t) =>
      var u := LinkedRings.Moved(s.ring, Put(t), r);
      s.(ring := u, worker := s.worker.(memory := u.memory))
    case DriverReleases(n) => s.(ring := LinkedRings.Moved(s.ring, Release(n), r))
    case MemoryWritten(a, bytes) =>
      var u := LinkedRings.Moved(s.ring, WriteElsewhere(a, bytes), r);
      s.(ring := u, worker := s.worker.(memory := u.memory))
    case WorkerStep(i) =>
      System(After(s.worker, i), RingAfter(s.worker, s.ring, r, i),
        if Effect(s.worker, i).Took? then s.completed + LastOf(s.worker.submitted) else s.completed)
    case WorkerGoesBack(c, k) =>
      System(OnCompletion(s.worker, c), WoundBack(s.worker, s.ring, c, k),
        if k < |s.completed| then s.completed[..k] else s.completed)
  }

  /** The completed TRBs are the first of the payload. */
  ghost predicate Orderly(s: System, r: TransferRing) {
    && Coupled(s.worker, s.ring, r)
    && |s.completed| == |s.ring.fetched| <= |Payload(s.ring.log, |s.ring.log|)|
    && s.completed == Payload(s.ring.log, |s.ring.log|)[..|s.completed|]
  }

  lemma OneMoreOf(all: seq<Trb>, some: seq<Trb>)
    requires |some| < |all| && some == all[..|some|]
    ensures all[..|some| + 1] == some + [all[|some|]]
  {
  }

  lemma CompletionKeepsOrder(s: System, z: System, r: TransferRing)
    requires Orderly(s, r) && s.worker.state.WaitForTrbCompletion? && z == Next(s, WorkerStep(Complete(Done)), r)
    ensures Orderly(z, r)
  {
    CompletionTakesNext(s.worker, s.ring, r);
    OneMoreOf(Payload(s.ring.log, |s.ring.log|), s.completed);
  }

  /** What counts as done does not change while nothing is taken or put. */
  lemma SameProgress(s: System, z: System, r: TransferRing)
    requires Orderly(s, r) && Coupled(z.worker, z.ring, r)
    requires z.completed == s.completed && z.ring.fetched == s.ring.fetched && z.ring.log == s.ring.log
    ensures Orderly(z, r)
  {
  }

  lemma LookKeepsOrder(s: System, z: System, works: bool, r: TransferRing)
    requires Orderly(s, r) && s.worker.state.LookForTrb? && z == Next(s, WorkerStep(Go(works)), r)
    ensures Orderly(z, r)
  {
    LookSubmitsNext(s.worker, s.ring, r, works);
    SameProgress(s, z, r);
  }

  lemma WorkerKeepsOrder(s: System, z: System, i: Input, r: TransferRing)
    requires Orderly(s, r) && Enabled(s.worker, i) && Forward(s.worker, i) && z == Next(s, WorkerStep(i), r)
    ensures Orderly(z, r)
  {
    match Effect(s.worker, i)
    case Took => CompletionKeepsOrder(s, z, r);
    case Looked => LookKeepsOrder(s, z, i.works, r);
    case Same => SameStep(s.worker, s.ring, r, i);
  }

  lemma PuttingKeepsOrder(s: System, z: System, t: Trb, r: TransferRing)
    requires Orderly(s, r) && Possible(s, DriverPuts(t), r) && z == Next(s, DriverPuts(t), r)
    ensures Orderly(z, r)
  {
    PutKeepsCoupling(s.worker, s.ring, r, t);
    var log, longer := s.ring.log, s.ring.log + [t];
    PayloadIsStable(log, longer, |log|);
    PayloadGrows(longer, |log|, |longer|);
  }

  lemma ReleasingKeepsOrder(s: System, z: System, n: nat, r: TransferRing)
    requires Orderly(s, r) && Possible(s, DriverReleases(n), r) && z == Next(s, DriverReleases(n), r)
    ensures Orderly(z, r)
  {
    LinkedRings.MoveKeepsStep(s.ring, Release(n), r);
  }

  lemma WritingKeepsOrder(s: System, z: System, a: nat, bytes: seq<Byte>, r: TransferRing)
    requires Orderly(s, r) && Possible(s, MemoryWritten(a, bytes), r) && z == Next(s, MemoryWritten(a, bytes), r)
    ensures Orderly(z, r)
  {
    LinkedRings.MoveKeepsStep(s.ring, WriteElsewhere(a, bytes), r);
  }

  lemma GoingBackKeepsOrder(s: System, c: Completion, k: nat, r: TransferRing)
    requires Orderly(s, r) && Possible(s, WorkerGoesBack(c, k), r)
    ensures Orderly(Next(s, WorkerGoesBack(c, k), r), r)
  {
    FailureWindsBack(s.worker, s.ring, r, c, k);
  }

  ghost predicate MoveAt(ss: seq<System>, moves: seq<Move>, i: nat, r: TransferRing)
    requires Joined(r) && |ss| == |moves| + 1 && i < |moves|
  {
    Possible(ss[i], moves[i], r) && ss[i + 1] == Next(ss[i], moves[i], r)
  }

  /** A freshly launched endpoint whose context names the start of a cleared ring. */
  ghost predicate Start(s: System, r: TransferRing) {
    var w, v := s.worker, s.ring;
    && Joined(r)
    && w == Worker(WaitForDoorbell, w.context, v.memory, Cursor(r.slots[0], true), [], [])
    && v == World(v.memory, Cursor(r.slots[0], true), 0, [], [], 0)
    && Backed(v.memory, r.slots) && (forall i | 0 <= i < |r.slots| :: NeverWritten(v.memory, r.slots, i))
    && w.context + 16 <= TWO_64 && OffRing(r.slots, w.context, 16)
    && s.completed == []
  }

  lemma StartIsOrderly(s: System, r: TransferRing)
    requires Start(s, r)
    ensures Orderly(s, r)
  {
    SmallPosition(0, |r.slots|);
  }

  lemma MoveKeepsOrder(s: System, z: System, a: Move, r: TransferRing)
    requires Orderly(s, r) && Possible(s, a, r) && z == Next(s, a, r)
    ensures Orderly(z, r)
  {
    match a
    case WorkerStep(i) => WorkerKeepsOrder(s, z, i, r);
    case WorkerGoesBack(c, k) => GoingBackKeepsOrder(s, c, k, r);
    case DriverPuts(t) => PuttingKeepsOrder(s, z, t, r);
    case DriverReleases(n) => ReleasingKeepsOrder(s, z, n, r);
    case MemoryWritten(x, bytes) => WritingKeepsOrder(s, z, x, bytes, r);
  }

  ghost predicate Play(ss: seq<System>, moves: seq<Move>, r: TransferRing) {
    && |ss| == |moves| + 1 && Start(ss[0], r)
    && (forall i | 0 <= i < |moves| :: MoveAt(ss, moves, i, r))
  }

  lemma {:induction false} PlayStaysOrderly(ss: seq<System>, moves: seq<Move>, r: TransferRing, i: nat)
    requires Play(ss, moves, r) && i < |ss|
    ensures Orderly(ss[i], r)
    decreases i
  {
    if i == 0 {
      StartIsOrderly(ss[0], r);
    } else {
      PlayStaysOrderly(ss, moves, r, i - 1);
      assert MoveAt(ss, moves, i - 1, r);
      MoveKeepsOrder(ss[i - 1], ss[i], moves[i - 1], r);
    }
  }

  /**
   * Through every mix of doorbells, stops, resets and failures, the TRBs completed are exactly the first
   * of what the driver put in, each once and in order, where a failure that goes back takes the TRBs from
   * there on back; and a TRB being worked on is the next one, even if it was submitted before.
   */
  lemma CompletesPayloadInOrder(ss: seq<System>, moves: seq<Move>, r: TransferRing, i: nat)
    requires Play(ss, moves, r) && i < |ss|
    ensures var s := ss[i]; var all := Payload(s.ring.log, |s.ring.log|);
      && s.completed <= all
      && (s.worker.state.WaitForTrbCompletion? ==>
            && |s.completed| < |all| && 0 < |s.worker.submitted|
            && s.worker.submitted[|s.worker.submitted| - 1].buffer == all[|s.completed|])
  {
    PlayStaysOrderly(ss, moves, r, i);
    if ss[i].worker.state.WaitForTrbCompletion? {
      CompletionTakesNext(ss[i].worker, ss[i].ring, r);
    }
  }

  // ---------------------------------------------------------------------
  // Launch and doorbells
  // ---------------------------------------------------------------------

  /**
   * Launching an endpoint whose context holds the ring's first slot with the cycle bit set, over cleared
   * slots, starts a run.
   */
  lemma LaunchStartsRun(m: Memory, context: nat, r: TransferRing)
    requires Joined(r) && Backed(m, r.slots) && (forall i | 0 <= i < |r.slots| :: NeverWritten(m, r.slots, i))
    requires EndpointWorkers.Placed(m, context) && OffRing(r.slots, context, 16)
    requires r.slots[0] % 16 == 0 && r.slots[0] < TWO_64 && Read(m, context + 8, 8) == ToLe(r.slots[0] + 1, 8)
    ensures var w := Launched(m, context);
      && Start(System(w, World(w.memory, w.ring, 0, [], [], 0), []), r)
      && Seen(w) == 1
  {
    var after, c := WithState(m, context, RUNNING), Cursor(r.slots[0], true);
    OffsetDoesNotWrap(context);
    CursorBitsFit(c);
    LeRoundTrip(CursorBits(c), 8);
    StateIsSet(m, context, RUNNING);
    SeenIsContext(Launched(m, context));
    OffRingWithin(r.slots, context, 16, context, 1);
    ClearedStaysCleared(m, context, [RUNNING], r.slots);
  }

  lemma ClearedStaysCleared(m: Memory, a: nat, bytes: seq<Byte>, slots: seq<nat>)
    requires Layout(slots) && Backed(m, slots) && OffRing(slots, a, |bytes|)
    requires forall i | 0 <= i < |slots| :: NeverWritten(m, slots, i)
    ensures Backed(Write(m, a, bytes), slots)
    ensures forall i | 0 <= i < |slots| :: NeverWritten(Write(m, a, bytes), slots, i)
  {
    var after := Write(m, a, bytes);
    assert forall i | 0 <= i < |slots| :: Mapped(m, slots[i], TRB_SIZE) ==> Mapped(after, slots[i], TRB_SIZE);
    forall i | 0 <= i < |slots| ensures NeverWritten(after, slots, i) {
      ReadElsewhere(m, a, bytes, slots[i], TRB_SIZE);
      assert NeverWritten(m, slots, i);
    }
  }

  /** A TRB of the payload lies within 256 links of where the ring stands. */
  predicate InReach(v: World) { var e := Reach(v.log, v.position, 256); e < |v.log| && !IsLink(v.log[e]) }

  /** Moves of the driver, of the rest of the machine, and of nobody. */
  predicate ByOthers(a: Move) { a.DriverPuts? || a.DriverReleases? || a.MemoryWritten? }

  /** While only others move, the worker keeps looking. */
  lemma {:induction false} KeepsLooking(ss: seq<System>, moves: seq<Move>, r: TransferRing, i: nat, j: nat)
    requires Play(ss, moves, r) && i <= j < |ss| && ss[i].worker.state.LookForTrb?
    requires forall m | i <= m < j :: ByOthers(moves[m])
    ensures ss[j].worker.state.LookForTrb? && ss[j].worker.submitted == ss[i].worker.submitted
    ensures ss[j].ring.fetched == ss[i].ring.fetched && ss[j].completed == ss[i].completed
    decreases j
  {
    if i < j {
      KeepsLooking(ss, moves, r, i, j - 1);
      assert MoveAt(ss, moves, j - 1, r);
      assert ByOthers(moves[j - 1]);
    }
  }

  /** Looking with a device that works submits the next TRB of the payload exactly if there is one in reach. */
  lemma LookFindsExactly(w: Worker, v: World, r: TransferRing)
    requires Coupled(w, v, r) && w.state.LookForTrb?
    ensures var after := Proceeded(w, true);
      if InReach(v)
      then after.state.WaitForTrbCompletion? && |v.fetched| < |Payload(v.log, |v.log|)|
           && after.submitted == w.submitted + [RawTrb(after.ring.pointer, Payload(v.log, |v.log|)[|v.fetched|])]
      else after.state.WaitForDoorbell? && after.submitted == w.submitted
  {
    LookSubmitsNext(w, v, r, true);
    ChaseReadsLog(v.memory, r, v.log, v.position, MAX_LINKS);
  }

  /**
   * No doorbell is lost: after one that is rung while the worker waits for it or is stopped, whatever others do
   * in between, the worker's next step with a working device submits exactly the next TRB of the payload if
   * one is in reach by then, and waits for it.
   */
  lemma DoorbellSubmitsNext(ss: seq<System>, moves: seq<Move>, r: TransferRing, i: nat, j: nat, works: bool)
    requires Play(ss, moves, r) && i < j < |moves|
    requires moves[i] == WorkerStep(Take(Doorbell, works)) && moves[j] == WorkerStep(Go(true))
    requires var s := ss[i].worker.state; s.WaitForDoorbell? || s.Stopped? || s.StoppedWithContinuableTrb?
    requires forall m | i < m < j :: ByOthers(moves[m])
    ensures var s, z := ss[j], ss[j + 1]; var all := Payload(s.ring.log, |s.ring.log|);
      && s.completed == ss[i].completed
      && if InReach(s.ring)
      then z.worker.state.WaitForTrbCompletion? && |s.completed| < |all|
           && z.worker.submitted == ss[i].worker.submitted + [RawTrb(z.worker.ring.pointer, all[|s.completed|])]
      else z.worker.state.WaitForDoorbell? && z.worker.submitted == ss[i].worker.submitted
  {
    PlayStaysOrderly(ss, moves, r, i);
    PlayStaysOrderly(ss, moves, r, j);
    assert MoveAt(ss, moves, i, r) && MoveAt(ss, moves, j, r);
    RungWorkerLooks(ss[i], ss[i + 1], r, works);
    KeepsLooking(ss, moves, r, i + 1, j);
    LookFindsExactly(ss[j].worker, ss[j].ring, r);
  }

  lemma RungWorkerLooks(s: System, z: System, r: TransferRing, works: bool)
    requires 0 < |r.slots| && Listens(s.worker) && z == Next(s, WorkerStep(Take(Doorbell, works)), r)
    requires var t := s.worker.state; t.WaitForDoorbell? || t.Stopped? || t.StoppedWithContinuableTrb?
    ensures z.worker.state.LookForTrb? && z.worker.submitted == s.worker.submitted
    ensures z.ring.fetched == s.ring.fetched && z.completed == s.completed
  {
  }
}
