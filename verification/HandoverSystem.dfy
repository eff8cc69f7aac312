/**
 * The hand-over as a state machine: connections and control clients race, one lock-held
 * section at a time, in any order and with any answers from the environment.
 */
module HandoverSystem {
  import opened DmaBus
  import opened MemoryBus
  import opened Ownership
  import opened Wrappers

  /** The shared state, and what is known about the connections outside the lock. */
  datatype System = System(
    s: State,
    nextId: ConnId,
    departed: set<ConnId>,
    parked: map<ConnId, nat>)

  datatype Step =
    | Connect
    | Arrive(id: ConnId)
    | Map(id: ConnId, address: nat, size: nat, accepted: bool)
    | Unmap(id: ConnId, address: nat, size: nat)
    | Register(id: ConnId, reg: Registration, now: nat, duplicates: bool)
    | Look(id: ConnId, now: nat)
    | Leave(id: ConnId, now: nat, reclaimDuplicates: bool, promoteDuplicates: bool)
    | DeclareReady(conn: ConnId, now: nat)
    | DropCandidate(conn: ConnId, now: nat)
    | CommitTo(conn: ConnId, epoch: nat, now: nat, duplicates: bool)
    | ReclaimFor(conn: ConnId, epoch: nat, now: nat, duplicates: bool)
    | AskStatus(now: nat)
    | SeeController
    | SeeInventory(devices: nat)

  /** The connection whose own thread takes the step; control clients have none. */
  function Actor(a: Step): Option<ConnId> {
    match a
    case Arrive(id) => Some(id)
    case Map(id, _, _, _) => Some(id)
    case Unmap(id, _, _) => Some(id)
    case Register(id, _, _, _) => Some(id)
    case Look(id, _) => Some(id)
    case Leave(id, _, _, _) => Some(id)
    case _ => None
  }

  /** A connection sends commands once it has arrived, none while it is parked, and none after it left. */
  predicate Enabled(y: System, a: Step) {
    match a
    case Connect => y.nextId < NO_OWNER
    case Arrive(id) => id < y.nextId && id !in y.departed
    case Map(id, _, _, _) => id in y.s.live && id !in y.parked
    case Unmap(id, _, _) => id in y.s.live && id !in y.parked
    case Register(id, reg, _, _) => id in y.s.live && id !in y.parked && reg.sender == id
    case Look(id, _) => id in y.parked
    case Leave(id, _, _, _) => id < y.nextId && id !in y.departed && id !in y.parked
    case _ => true
  }

  /**
   * What is left to the participants: a live connection that waits for no answer may send anything and may end,
   * one that waits is looked at until it is answered, and a controller may send anything at any time.
   */
  lemma AnythingMayHappen(y: System, a: Step)
    ensures var id := Actor(a);
      && (id.Some? && id.value in y.s.live && id.value !in y.parked && (a.Register? ==> a.reg.sender == id.value) ==>
            a.Map? || a.Unmap? || a.Register? ==> Enabled(y, a))
      && (a.Leave? && a.id < y.nextId && a.id !in y.departed && a.id !in y.parked ==> Enabled(y, a))
      && (a.Arrive? && a.id < y.nextId && a.id !in y.departed ==> Enabled(y, a))
      && (a.Look? && a.id in y.parked ==> Enabled(y, a))
      && (a.Connect? && y.nextId < NO_OWNER ==> Enabled(y, a))
      && (a.DeclareReady? || a.DropCandidate? || a.CommitTo? || a.ReclaimFor? ==> Enabled(y, a))
      && (a.AskStatus? || a.SeeController? || a.SeeInventory? ==> Enabled(y, a))
  {
  }

  /** The effect of a step on the shared state. */
  function After(y: System, a: Step): State
    requires Enabled(y, a)
  {
    var s := y.s;
    match a
    case Connect => s
    case Arrive(id) => Establish(s, id)
    case Map(id, address, size, accepted) => DmaMap(s, id, address, size, accepted).0
    case Unmap(id, address, size) => DmaUnmap(s, id, address, size)
    case Register(id, reg, now, duplicates) => SetIrqs(s, id, reg, now, duplicates).state
    case Look(id, now) => ParkPoll(s, id, y.parked[id], now).state
    case Leave(id, now, reclaim, promote) => Disconnect(s, id, now, reclaim, promote)
    case DeclareReady(conn, now) => Ready(s, conn, now).state
    case DropCandidate(conn, now) => Abort(s, conn, now).state
    case CommitTo(conn, epoch, now, duplicates) => Commit(s, conn, epoch, now, duplicates).state
    case ReclaimFor(conn, epoch, now, duplicates) => Reclaim(s, conn, epoch, now, duplicates).state
    case AskStatus(now) => Expire(s, now)
    case SeeController => NoteController(s)
    case SeeInventory(devices) => NoteInventory(s, devices)
  }

  /** How a registration or a parked look is answered. */
  function Reply(y: System, a: Step): Option<IrqReply>
    requires Enabled(y, a)
  {
    match a
    case Register(id, reg, now, duplicates) => Some(SetIrqs(y.s, id, reg, now, duplicates).reply)
    case Look(id, now) => Some(ParkPoll(y.s, id, y.parked[id], now).reply)
    case _ => None
  }

  function Next(y: System, a: Step): System
    requires Enabled(y, a)
  {
    var t := After(y, a);
    match a
    case Connect => y.(nextId := y.nextId + 1)
    case Leave(id, _, _, _) => y.(s := t, departed := y.departed + {id})
    case Register(id, _, _, _) => y.(s := t, parked := Repark(y, id, Reply(y, a)))
    case Look(id, _) => y.(s := t, parked := Repark(y, id, Reply(y, a)))
    case _ => y.(s := t)
  }

  function Repark(y: System, id: ConnId, reply: Option<IrqReply>): map<ConnId, nat> {
    match reply
    case Some(Parked(until)) => y.parked[id := until]
    case _ => y.parked - {id}
  }

  // ---------------------------------------------------------------------
  // The invariant
  // ---------------------------------------------------------------------

  ghost predicate SentBy(reg: Registration, id: ConnId) { reg.sender == id && reg.fds != [] }

  /** Owner and recorded registration are set together, likewise for the previous owner. */
  ghost predicate RolesMatch(s: State) {
    && (s.owner == NO_OWNER <==> s.ownerReg.None?)
    && (s.prev == NO_OWNER <==> s.prevReg.None?)
    && (s.ownerReg.Some? ==> SentBy(s.ownerReg.value, s.owner))
    && (s.prevReg.Some? ==> SentBy(s.prevReg.value, s.prev))
    && (s.candidate.Some? ==>
          SentBy(s.candidate.value.reg, s.candidate.value.id) && s.candidate.value.id != NO_OWNER)
    && (s.prev != NO_OWNER || s.candidate.Some? ==> s.owner != NO_OWNER)
    && (s.owner != NO_OWNER ==> 0 < s.epoch)
  }

  /** The installed line is the one the owner registered, or the silence the owner asked for. */
  ghost predicate OwnerHoldsLine(s: State) {
    s.ownerReg.Some? && s.ownerReg.value.fds != [] ==>
      LineOf(s) == LineFor(s.ownerReg.value) || LineOf(s) == Silenced(s.owner)
  }

  ghost predicate RangesFit(s: State) {
    forall id, r | id in s.mapped && r in s.mapped[id] :: r.address + r.size <= U64_MAX
  }

  ghost predicate IdsKnown(y: System) {
    && y.nextId <= NO_OWNER
    && (forall id | id in y.s.live :: id < y.nextId)
    && (forall id | id in y.departed :: id < y.nextId)
    && y.s.live !! y.departed
    && y.parked.Keys <= y.s.live
    && y.s.mapped.Keys <= y.s.live
    && (y.s.owner != NO_OWNER ==> y.s.owner < y.nextId)
    && (y.s.prev != NO_OWNER ==> y.s.prev < y.nextId)
    && (y.s.candidate.Some? ==> y.s.candidate.value.id < y.nextId)
  }

  ghost predicate Inv(y: System) {
    && RolesMatch(y.s)
    && OwnerHoldsLine(y.s)
    && StoredRequestsValid(y.s)
    && RangesFit(y.s)
    && Mappable(y.s.segments)
    && IdsKnown(y)
  }

  lemma BootIsFine(policy: Policy)
    ensures Inv(System(Boot(policy), 0, {}, map[]))
  {
    MappableMeans([]);
  }

  lemma MapKeepsSegmentsAndRanges(y: System, a: Step)
    requires Inv(y) && Enabled(y, a) && (a.Map? || a.Unmap?)
    ensures RangesFit(After(y, a)) && Mappable(After(y, a).segments)
  {
    var s := y.s;
    if a.Map? {
      UpsertIsMappable(s.segments, a.address, Device(a.id, a.size));
    } else {
      RemovingAlwaysWorks(s.segments, a.address, a.size);
    }
  }

  /** The part of the invariant that speaks about owner, previous owner, candidate and line. */
  ghost predicate Sound(s: State) { RolesMatch(s) && OwnerHoldsLine(s) && StoredRequestsValid(s) }

  lemma HandOverIsSound(s: State, now: nat)
    requires Sound(s) && s.candidate.Some?
    ensures Sound(HandOver(s, now)) && Sound(Promote(s, now))
  {
  }

  lemma GiveBackIsSound(s: State, committedAt: Option<nat>)
    requires Sound(s) && s.prevReg.Some?
    ensures Sound(GiveBack(s)) && Sound(GiveBack(s).(committedAt := committedAt))
  {
  }

  lemma DisconnectIsSound(s: State, id: ConnId, now: nat, reclaim: bool, promote: bool)
    requires Sound(s)
    ensures Sound(Disconnect(s, id, now, reclaim, promote))
  {
    var t := Forget(s, id);
    assert Sound(t);
    if CanGiveBack(t) { GiveBackIsSound(t, Some(now)); }
    if t.candidate.Some? { HandOverIsSound(t, now); }
  }

  lemma CommitIsSound(s: State, id: ConnId, epoch: nat, now: nat, installs: bool)
    requires Sound(s)
    ensures Sound(Commit(s, id, epoch, now, installs).state)
  {
    var t := Expire(s, now);
    assert Sound(t);
    if t.candidate.Some? { HandOverIsSound(t, now); }
  }

  lemma ReclaimIsSound(s: State, id: ConnId, epoch: nat, now: nat, installs: bool)
    requires Sound(s)
    ensures Sound(Reclaim(s, id, epoch, now, installs).state)
  {
    var t := Expire(s, now);
    assert Sound(t);
    if t.prevReg.Some? { GiveBackIsSound(t, None); }
  }

  lemma ParkPollIsSound(s: State, id: ConnId, deadline: nat, now: nat)
    requires Sound(s)
    ensures Sound(ParkPoll(s, id, deadline, now).state)
  {
  }

  lemma StageIsSound(s: State, id: ConnId, reg: Registration, deadline: nat)
    requires Sound(s) && s.owner != NO_OWNER && id != NO_OWNER
    requires SentBy(reg, id) && ValidIrqRequest(reg.index, reg.count)
    ensures Sound(Stage(s, id, reg, deadline))
  {
  }

  lemma SetIrqsIsSound(s: State, id: ConnId, reg: Registration, now: nat, installs: bool)
    requires Sound(s) && reg.sender == id && id != NO_OWNER
    ensures Sound(SetIrqs(s, id, reg, now, installs).state)
  {
    var t := Expire(s, now);
    assert Sound(t);
    if reg.fds == [] || !ValidIrqRequest(reg.index, reg.count) {
    } else if t.owner == NO_OWNER || t.owner == id {
    } else {
      var deadline := now + t.policy.preflightTimeout;
      StageIsSound(t, id, reg, deadline);
      ParkPollIsSound(Stage(t, id, reg, deadline), id, deadline, now);
    }
  }

  lemma SoundnessKept(y: System, a: Step)
    requires Inv(y) && Enabled(y, a)
    ensures Sound(After(y, a))
  {
    var s := y.s;
    match a
    case Register(id, reg, now, duplicates) => SetIrqsIsSound(s, id, reg, now, duplicates);
    case Look(id, now) => ParkPollIsSound(s, id, y.parked[id], now);
    case Leave(id, now, reclaim, promote) => DisconnectIsSound(s, id, now, reclaim, promote);
    case CommitTo(conn, epoch, now, duplicates) => CommitIsSound(s, conn, epoch, now, duplicates);
    case ReclaimFor(conn, epoch, now, duplicates) => ReclaimIsSound(s, conn, epoch, now, duplicates);
    case DeclareReady(conn, now) => ReadyIsSound(s, conn, now);
    case DropCandidate(conn, now) => AbortIsSound(s, conn, now);
    case _ => OtherStepsAreSound(y, a);
  }

  lemma ReadyIsSound(s: State, id: ConnId, now: nat)
    requires Sound(s)
    ensures Sound(Ready(s, id, now).state)
  {
  }

  lemma AbortIsSound(s: State, id: ConnId, now: nat)
    requires Sound(s)
    ensures Sound(Abort(s, id, now).state)
  {
  }

  lemma OtherStepsAreSound(y: System, a: Step)
    requires Sound(y.s) && Enabled(y, a)
    requires a.Connect? || a.Arrive? || a.Map? || a.Unmap? || a.AskStatus? || a.SeeController? || a.SeeInventory?
    ensures Sound(After(y, a))
  {
  }

  /** Steps that neither map, unmap, arrive nor leave touch no published range and no connection. */
  ghost predicate SameConnections(s: State, t: State) {
    s.mapped == t.mapped && s.live == t.live && s.segments == t.segments && s.policy == t.policy
  }

  ghost predicate HasRole(s: State, id: ConnId) {
    id == NO_OWNER || id == s.owner || id == s.prev || (s.candidate.Some? && id == s.candidate.value.id)
  }

  /** Nobody becomes owner, previous owner or candidate except those who already had a role, or `extra`. */
  ghost predicate RolesFrom(s: State, t: State, extra: Option<ConnId>) {
    && (HasRole(s, t.owner) || extra == Some(t.owner))
    && (HasRole(s, t.prev) || extra == Some(t.prev))
    && (t.candidate.Some? ==>
          (s.candidate.Some? && t.candidate.value.id == s.candidate.value.id) || extra == Some(t.candidate.value.id))
  }

  lemma CommitTouchesNoConnection(s: State, id: ConnId, epoch: nat, now: nat, installs: bool)
    ensures SameConnections(s, Commit(s, id, epoch, now, installs).state)
    ensures RolesFrom(s, Commit(s, id, epoch, now, installs).state, None)
  {
  }

  lemma ReclaimTouchesNoConnection(s: State, id: ConnId, epoch: nat, now: nat, installs: bool)
    ensures SameConnections(s, Reclaim(s, id, epoch, now, installs).state)
    ensures RolesFrom(s, Reclaim(s, id, epoch, now, installs).state, None)
  {
  }

  lemma RegisterTouchesNoConnection(s: State, id: ConnId, reg: Registration, now: nat, installs: bool)
    requires reg.sender == id
    ensures SameConnections(s, SetIrqs(s, id, reg, now, installs).state)
    ensures RolesFrom(s, SetIrqs(s, id, reg, now, installs).state, Some(id))
  {
    var t := Expire(s, now);
    assert SameConnections(s, t) && RolesFrom(s, t, None);
    if reg.fds == [] || !ValidIrqRequest(reg.index, reg.count) {
    } else if t.owner == NO_OWNER || t.owner == id {
    } else {
      var deadline := now + t.policy.preflightTimeout;
      LookTouchesNoConnection(Stage(t, id, reg, deadline), id, deadline, now);
    }
  }

  lemma LookTouchesNoConnection(s: State, id: ConnId, deadline: nat, now: nat)
    ensures SameConnections(s, ParkPoll(s, id, deadline, now).state)
    ensures RolesFrom(s, ParkPoll(s, id, deadline, now).state, None)
  {
  }

  lemma DisconnectOnlyForgets(s: State, id: ConnId, now: nat, reclaim: bool, promote: bool)
    ensures var t := Disconnect(s, id, now, reclaim, promote);
      SameConnections(Forget(s, id), t) && RolesFrom(s, t, None)
  {
  }

  lemma ConnectionsOf(y: System, a: Step)
    requires Enabled(y, a) && !a.Map? && !a.Unmap? && !a.Arrive? && !a.Leave?
    ensures SameConnections(y.s, After(y, a))
    ensures RolesFrom(y.s, After(y, a), if a.Register? then Some(a.id) else None)
  {
    match a
    case Register(id, reg, now, duplicates) => RegisterTouchesNoConnection(y.s, id, reg, now, duplicates);
    case Look(id, now) => LookTouchesNoConnection(y.s, id, y.parked[id], now);
    case CommitTo(conn, epoch, now, duplicates) => CommitTouchesNoConnection(y.s, conn, epoch, now, duplicates);
    case ReclaimFor(conn, epoch, now, duplicates) => ReclaimTouchesNoConnection(y.s, conn, epoch, now, duplicates);
    case _ =>
  }

  lemma MemoryKept(y: System, a: Step)
    requires Inv(y) && Enabled(y, a)
    ensures RangesFit(After(y, a)) && Mappable(After(y, a).segments)
  {
    if a.Map? || a.Unmap? {
      MapKeepsSegmentsAndRanges(y, a);
    } else if a.Leave? {
      DisconnectOnlyForgets(y.s, a.id, a.now, a.reclaimDuplicates, a.promoteDuplicates);
    } else if !a.Arrive? {
      ConnectionsOf(y, a);
    }
  }

  lemma IdsFollowRoles(y: System, t: State, parked: map<ConnId, nat>, extra: Option<ConnId>)
    requires IdsKnown(y) && SameConnections(y.s, t) && RolesFrom(y.s, t, extra)
    requires extra.Some? ==> extra.value in y.s.live
    requires forall id | id in parked :: id in y.parked || extra == Some(id)
    ensures IdsKnown(y.(s := t, parked := parked))
  {
  }

  lemma IdsKeptByLeaving(y: System, a: Step)
    requires IdsKnown(y) && Enabled(y, a) && a.Leave?
    ensures IdsKnown(Next(y, a))
  {
    var gone := Forget(y.s, a.id);
    assert IdsKnown(y.(s := gone, departed := y.departed + {a.id}));
    DisconnectOnlyForgets(y.s, a.id, a.now, a.reclaimDuplicates, a.promoteDuplicates);
    IdsFollowRoles(y.(s := gone, departed := y.departed + {a.id}), After(y, a), y.parked, None);
  }

  lemma IdsKeptByMapping(y: System, a: Step)
    requires IdsKnown(y) && Enabled(y, a) && (a.Map? || a.Unmap? || a.Arrive? || a.Connect?)
    ensures IdsKnown(Next(y, a))
  {
  }

  lemma IdsKept(y: System, a: Step)
    requires IdsKnown(y) && Enabled(y, a)
    ensures IdsKnown(Next(y, a))
  {
    if a.Leave? {
      IdsKeptByLeaving(y, a);
    } else if a.Map? || a.Unmap? || a.Arrive? || a.Connect? {
      IdsKeptByMapping(y, a);
    } else {
      ConnectionsOf(y, a);
      IdsFollowRoles(y, After(y, a), Next(y, a).parked, if a.Register? then Some(a.id) else None);
    }
  }

  /** Every step of every participant keeps the invariant. */
  lemma StepKeepsInv(y: System, a: Step)
    requires Inv(y) && Enabled(y, a)
    ensures Inv(Next(y, a))
  {
    SoundnessKept(y, a);
    MemoryKept(y, a);
    IdsKept(y, a);
  }

  // ---------------------------------------------------------------------
  // Runs
  // ---------------------------------------------------------------------

  ghost predicate StepAt(ys: seq<System>, steps: seq<Step>, i: nat)
    requires i < |steps| && |ys| == |steps| + 1
  {
    Enabled(ys[i], steps[i]) && ys[i + 1] == Next(ys[i], steps[i])
  }

  /** A stretch of a run: any enabled step may come next. */
  ghost predicate Path(ys: seq<System>, steps: seq<Step>) {
    |ys| == |steps| + 1 && forall i | 0 <= i < |steps| :: StepAt(ys, steps, i)
  }

  lemma PathStep(ys: seq<System>, steps: seq<Step>, k: nat)
    requires Path(ys, steps) && k < |steps|
    ensures Enabled(ys[k], steps[k]) && ys[k + 1] == Next(ys[k], steps[k]) && ys[k + 1].s == After(ys[k], steps[k])
  {
    assert StepAt(ys, steps, k);
  }

  /** A run from the start of the server. */
  ghost predicate Run(ys: seq<System>, steps: seq<Step>) {
    Path(ys, steps) && exists policy :: ys[0] == System(Boot(policy), 0, {}, map[])
  }

  lemma {:induction false} PathKeepsInv(ys: seq<System>, steps: seq<Step>, i: nat)
    requires Path(ys, steps) && Inv(ys[0]) && i < |ys|
    ensures Inv(ys[i])
    decreases i
  {
    if i > 0 {
      PathKeepsInv(ys, steps, i - 1);
      PathStep(ys, steps, i - 1);
      StepKeepsInv(ys[i - 1], steps[i - 1]);
    }
  }

  /** In every reachable state with an owner, the line is that owner's registration or its silence. */
  lemma ReachableOwnerHoldsLine(ys: seq<System>, steps: seq<Step>, i: nat)
    requires Run(ys, steps) && i < |ys| && ys[i].s.owner != NO_OWNER
    ensures var s := ys[i].s;
      && s.ownerReg.Some? && s.ownerReg.value.sender == s.owner && s.ownerReg.value.fds != []
      && (LineOf(s) == EventFd(s.ownerReg.value.fds[0], s.owner) || LineOf(s) == Silenced(s.owner))
  {
    var policy :| ys[0] == System(Boot(policy), 0, {}, map[]);
    BootIsFine(policy);
    PathKeepsInv(ys, steps, i);
  }
}
