/**
 * What each decision of the hand-over does, and exactly when, in terms of the recorded fields alone: who
 * may take the device over, what the answers mean, and who follows an owner that is gone.
 */
module HandoverDecisions {
  import opened DmaBus
  import opened HandoverSafety
  import opened HandoverSystem
  import opened MemoryBus
  import opened Ownership
  import opened Wrappers

  // ---------------------------------------------------------------------
  // What a candidate has to bring
  // ---------------------------------------------------------------------

  /** There is a candidate and its window is open. */
  predicate InTime(s: State, now: nat) { s.candidate.Some? && now <= s.candidate.value.deadline }

  ghost predicate OnlyEventFds(reg: Registration) { forall fd | fd in reg.fds :: fd.isEventFd }

  /** A device is attached, or nobody asks for one. */
  predicate DeviceThere(s: State) { s.policy.requireDevice ==> s.deviceCount != Some(0) }

  /** The candidate registered the vector the owner uses. */
  predicate OnOwnersVector(s: State, reg: Registration) {
    s.ownerReg.Some? ==>
      reg.index == s.ownerReg.value.index && reg.start == s.ownerReg.value.start && reg.count == s.ownerReg.value.count
  }

  /** Every needed range lies inside one range that is there. */
  ghost predicate EachInside(have: seq<Range>, needed: seq<Range>) {
    forall n | n in needed :: exists h | h in have :: h.address <= n.address && n.address + n.size <= h.address + h.size
  }

  /** The candidate's memory is looked at only after the commit, because its registration waits for the answer. */
  predicate MemoryComesLater(s: State) {
    s.policy.blockRegistration && (s.controllerSeen || s.policy.requireController)
  }

  lemma CoverageIsBeingInside(s: State, id: ConnId, needed: seq<Range>)
    requires forall n | n in needed :: n.address + n.size <= U64_MAX
    ensures RangesCover(RangesOf(s, id), needed) <==> EachInside(RangesOf(s, id), needed)
  {
    if EachInside(RangesOf(s, id), needed) {
      forall n | n in needed ensures exists h | h in RangesOf(s, id) :: Covers(h, n) {
        var h :| h in RangesOf(s, id) && h.address <= n.address && n.address + n.size <= h.address + h.size;
        assert Covers(h, n);
      }
    }
    if RangesCover(RangesOf(s, id), needed) {
      forall n | n in needed
        ensures exists h | h in RangesOf(s, id) :: h.address <= n.address && n.address + n.size <= h.address + h.size
      {
        var h :| h in RangesOf(s, id) && Covers(h, n);
      }
    }
  }

  // ---------------------------------------------------------------------
  // Commit
  // ---------------------------------------------------------------------

  /** Everything a commit checks, but for the candidate's memory. */
  ghost predicate PassesOtherChecks(s: State, id: ConnId, epoch: nat, now: nat) {
    && InTime(s, now) && s.candidate.value.id == id && epoch == s.epoch
    && (s.policy.requireReady ==> s.candidate.value.ready)
    && OnlyEventFds(s.candidate.value.reg) && DeviceThere(s) && OnOwnersVector(s, s.candidate.value.reg)
  }

  /** Everything a commit checks. */
  ghost predicate MayTakeOver(s: State, id: ConnId, epoch: nat, now: nat) {
    && PassesOtherChecks(s, id, epoch, now)
    && (MemoryComesLater(s) || EachInside(RangesOf(s, id), RangesOf(s, s.owner)))
  }

  /** The candidate is the owner, its line is installed, and the incumbent is remembered; all else is as it was. */
  function TakenOver(s: State, now: nat): State
    requires s.candidate.Some? && s.candidate.value.reg.fds != []
  {
    var c := s.candidate.value;
    State(c.id, s.owner, s.epoch + 1, Some(now), None, Some(c.reg), s.ownerReg, s.mapped, s.live,
          s.policy, s.controllerSeen, s.deviceCount, s.lines + [EventFd(c.reg.fds[0], c.reg.sender)], s.segments)
  }

  /**
   * A commit moves the device if and only if its candidate may take over and its line can be installed,
   * whether that candidate is still there or not; and then it moves it to that candidate.
   */
  lemma CommitMovesExactly(y: System, id: ConnId, epoch: nat, now: nat, installs: bool)
    requires Inv(y)
    ensures Moves(y.s, id, epoch, now, installs) <==> MayTakeOver(y.s, id, epoch, now) && installs
    ensures Moves(y.s, id, epoch, now, installs) ==>
      && y.s.candidate.value.reg.fds != []
      && Commit(y.s, id, epoch, now, installs) == Answer(TakenOver(y.s, now), Success(()))
  {
    CoverageIsBeingInside(y.s, id, RangesOf(y.s, y.s.owner));
  }

  /** A connection that left has published nothing, so it covers exactly nothing. */
  lemma TheDeadCoverNothing(y: System, id: ConnId, needed: seq<Range>)
    requires Inv(y) && id !in y.s.live
    ensures EachInside(RangesOf(y.s, id), needed) <==> needed == []
  {
    if needed != [] { assert needed[0] in needed; }
  }

  /**
   * A commit hands the device to a connection that left if and only if that connection is still staged and
   * passes the other checks, and the check of its memory is deferred or the incumbent has published none.
   */
  lemma CommitToDeadExactly(y: System, id: ConnId, epoch: nat, now: nat, installs: bool)
    requires Inv(y)
    ensures Moves(y.s, id, epoch, now, installs) && Commit(y.s, id, epoch, now, installs).state.owner !in y.s.live
      <==>
      PassesOtherChecks(y.s, id, epoch, now) && installs && id !in y.s.live
      && (MemoryComesLater(y.s) || RangesOf(y.s, y.s.owner) == [])
  {
    CommitMovesExactly(y, id, epoch, now, installs);
    if id !in y.s.live { TheDeadCoverNothing(y, id, RangesOf(y.s, y.s.owner)); }
  }

  ghost predicate CommitsToTheDead(y: System, a: Step) {
    Enabled(y, a) && a.CommitTo? && After(y, a).owner != y.s.owner && After(y, a).owner !in After(y, a).live
  }

  /** It does happen, in a history from the start of the server, when readiness is not required. */
  lemma CommitCanReachTheDead()
    ensures exists y, a :: Reachable(y) && CommitsToTheDead(y, a)
  {
    var policy := Policy(5000, 2000, false, true, true, false, false);
    var r0 := Registration(MSIX_IRQ_INDEX, 0, 0, 1, [Fd(7, true)], 0);
    var r1 := Registration(MSIX_IRQ_INDEX, 0, 0, 1, [Fd(8, true)], 1);
    StagedClientLeavesFirst(policy, r0, r1);
    var y, a := StagedAndGone(policy, r0, r1), CommitTo(1, 1, 10, true);
    ReachableIsSound(y);
    assert r1.fds == [Fd(8, true)];
    assert PassesOtherChecks(y.s, 1, 1, 10);
    CommitToDeadExactly(y, 1, 1, 10, true);
    CommitMovesExactly(y, 1, 1, 10, true);
    assert CommitsToTheDead(y, a);
  }

  /** Why a commit fails: each error means what it says, and the earlier checks passed. */
  lemma CommitErrorsExactly(y: System, id: ConnId, epoch: nat, now: nat, installs: bool)
    requires Inv(y)
    ensures var s, r := y.s, Commit(y.s, id, epoch, now, installs).outcome;
      var staged := InTime(s, now) && epoch == s.epoch;
      var named := staged && s.candidate.value.id == id;
      var ready := named && (s.policy.requireReady ==> s.candidate.value.ready);
      var usable := ready && OnlyEventFds(s.candidate.value.reg);
      && (r == Failure(EpochMismatch) <==> InTime(s, now) && epoch != s.epoch)
      && (r == Failure(WrongCandidate) <==> staged && s.candidate.value.id != id)
      && (r == Failure(NotReady) <==> named && s.policy.requireReady && !s.candidate.value.ready)
      && (r == Failure(BadEventFd) <==> ready && !OnlyEventFds(s.candidate.value.reg))
      && (r == Failure(DeviceGone) <==> usable && !DeviceThere(s))
      && (r == Failure(IrqMismatch) <==> usable && DeviceThere(s) && !OnOwnersVector(s, s.candidate.value.reg))
      && (r == Failure(DmaIncomplete) <==>
            && usable && DeviceThere(s) && OnOwnersVector(s, s.candidate.value.reg)
            && !MemoryComesLater(s) && !EachInside(RangesOf(s, id), RangesOf(s, s.owner)))
      && (r == Failure(BackendError) <==> MayTakeOver(s, id, epoch, now) && !installs)
  {
    CoverageIsBeingInside(y.s, id, RangesOf(y.s, y.s.owner));
  }

  /** Without a candidate in time a commit is answered yes only to repeat itself, or says why there is none. */
  lemma CommitWithoutCandidate(s: State, id: ConnId, epoch: nat, now: nat, installs: bool)
    requires !InTime(s, now)
    ensures var r, repeated := Commit(s, id, epoch, now, installs), s.owner == id && epoch + 1 == s.epoch;
      && r.state == s.(candidate := None)
      && (r.outcome == Success(()) <==> repeated)
      && (r.outcome == Failure(PreflightTimeout) <==> !repeated && s.candidate.Some? && s.candidate.value.id == id)
      && (r.outcome == Failure(NoCandidate) <==> !repeated && !(s.candidate.Some? && s.candidate.value.id == id))
  {
  }

  /** Readiness and abort without a candidate in time, or for another one, say why they are refused. */
  lemma CandidateErrorsExactly(s: State, id: ConnId, now: nat)
    ensures var r := Ready(s, id, now).outcome;
      && (r == Failure(WrongCandidate) <==> InTime(s, now) && s.candidate.value.id != id)
      && (r == Failure(PreflightTimeout) <==> !InTime(s, now) && s.candidate.Some? && s.candidate.value.id == id)
      && (r == Failure(NoCandidate) <==> !InTime(s, now) && !(s.candidate.Some? && s.candidate.value.id == id))
    ensures var r := Abort(s, id, now).outcome;
      && (r == Failure(WrongCandidate) <==> InTime(s, now) && s.candidate.value.id != id)
      && (r == Failure(NoCandidate) <==> !InTime(s, now))
    ensures !InTime(s, now) ==>
      Ready(s, id, now).state == Abort(s, id, now).state == s.(candidate := None)
  {
  }

  // ---------------------------------------------------------------------
  // Reclaim
  // ---------------------------------------------------------------------

  /** The time since the commit is within the lease; a clock that ran backwards counts as no time. */
  predicate LeaseHolds(s: State, now: nat) { s.committedAt.Some? && now <= s.committedAt.value + s.policy.lease }

  /** The previous owner is the owner again, on the line it had registered; `candidate` and `committedAt` as given. */
  function GivenBack(s: State, candidate: Option<Candidate>, committedAt: Option<nat>): State
    requires s.prevReg.Some? && s.prevReg.value.fds != []
  {
    var reg := s.prevReg.value;
    State(s.prev, NO_OWNER, s.epoch + 1, committedAt, candidate, Some(reg), None, s.mapped, s.live,
          s.policy, s.controllerSeen, s.deviceCount, s.lines + [EventFd(reg.fds[0], reg.sender)], s.segments)
  }

  /**
   * A reclaim succeeds if and only if it comes from the previous owner, connected and within its lease, with
   * the epoch of now, and its line can be installed; each refusal says which of these failed first.
   */
  lemma ReclaimExactly(y: System, id: ConnId, epoch: nat, now: nat, installs: bool)
    requires Inv(y)
    ensures var s, r := y.s, Reclaim(y.s, id, epoch, now, installs);
      var previous := s.prev == id && id != NO_OWNER;
      var kept := if InTime(s, now) then s.candidate else None;
      && (r.outcome == Success(()) <==> previous && id in s.live && epoch == s.epoch && LeaseHolds(s, now) && installs)
      && (r.outcome == Success(()) ==>
            s.prevReg.Some? && s.prevReg.value.fds != [] && r.state == GivenBack(s, kept, s.committedAt))
      && (r.outcome != Success(()) ==> r.state == s.(candidate := kept))
      && (r.outcome == Failure(NotPreviousOwner) <==> !previous)
      && (r.outcome == Failure(PreviousGone) <==> previous && id !in s.live)
      && (r.outcome == Failure(EpochMismatch) <==> previous && id in s.live && epoch != s.epoch)
      && (r.outcome == Failure(LeaseExpired) <==> previous && id in s.live && epoch == s.epoch && !LeaseHolds(s, now))
  {
  }

  // ---------------------------------------------------------------------
  // The end of an owner
  // ---------------------------------------------------------------------

  /** What is left without connection `id`. */
  function Left(s: State, id: ConnId): State { s.(live := s.live - {id}, mapped := s.mapped - {id}) }

  /** The previous owner is there to take the device back. */
  predicate PreviousCanReturn(s: State, id: ConnId) {
    s.policy.autoReclaim && s.prev != NO_OWNER && s.prev in s.live - {id}
  }

  /** The staged candidate could serve the device of the dead owner, memory included. */
  ghost predicate CandidateCanServe(s: State, id: ConnId) {
    && s.policy.autoReclaim && s.candidate.Some?
    && OnlyEventFds(s.candidate.value.reg) && DeviceThere(s) && OnOwnersVector(s, s.candidate.value.reg)
    && EachInside(RangesOf(Left(s, id), s.candidate.value.id), RangesOf(s, id))
  }

  /**
   * Who follows an owner that is gone, and in which state: the previous owner if it can return and its line
   * can be installed; otherwise the candidate if it can serve and its line can be installed; otherwise
   * nobody. A connection that is not the owner only takes its memory and itself with it.
   */
  lemma SuccessorExactly(y: System, id: ConnId, now: nat, reclaimInstalls: bool, promoteInstalls: bool)
    requires Inv(y)
    ensures var s, left := y.s, Left(y.s, id);
      var t := Disconnect(s, id, now, reclaimInstalls, promoteInstalls);
      if s.owner != id then t == left
      else if PreviousCanReturn(s, id) && reclaimInstalls then
        && s.prevReg.Some? && s.prevReg.value.fds != []
        && t == GivenBack(left, s.candidate, Some(now))
      else if CandidateCanServe(s, id) && promoteInstalls then
        && s.candidate.value.reg.fds != []
        && t == TakenOver(left, now).(prev := NO_OWNER, prevReg := None)
      else
        t == left.(owner := NO_OWNER, ownerReg := None, prev := NO_OWNER, prevReg := None,
                   candidate := None, committedAt := None, epoch := s.epoch + 1)
  {
    if y.s.candidate.Some? {
      CoverageIsBeingInside(Left(y.s, id), y.s.candidate.value.id, RangesOf(y.s, id));
    }
  }

  // ---------------------------------------------------------------------
  // Registrations
  // ---------------------------------------------------------------------

  predicate WellFormedRequest(reg: Registration) { reg.index == 2 && reg.count <= 1 }

  /**
   * What a registration does. Without descriptors it silences the owner's line and means nothing from anybody
   * else. With descriptors it claims a device nobody owns, moves the owner's line, or stages a second client.
   */
  lemma RegistrationExactly(s: State, id: ConnId, reg: Registration, now: nat, installs: bool)
    requires reg.sender == id && id != NO_OWNER
    ensures var r := SetIrqs(s, id, reg, now, installs);
      var u := s.(candidate := if InTime(s, now) then s.candidate else None);
      if reg.fds == [] then
        if s.owner != id then r == IrqAnswer(u, Accepted)
        else if !WellFormedRequest(reg) then r == IrqAnswer(u, Rejected)
        else r == IrqAnswer(u.(lines := s.lines + [Silenced(id)]), Accepted)
      else if !WellFormedRequest(reg) then r == IrqAnswer(u, Rejected)
      else if s.owner == NO_OWNER || s.owner == id then
        r == if !installs then IrqAnswer(u, Rejected)
             else IrqAnswer(u.(owner := id, ownerReg := Some(reg), lines := s.lines + [EventFd(reg.fds[0], id)],
                               epoch := s.epoch + (if s.owner == NO_OWNER then 1 else 0)), Accepted)
      else
        var until := now + s.policy.preflightTimeout;
        var ready := InTime(s, now) && s.candidate.value.id == id && s.candidate.value.ready;
        r == if !MemoryComesLater(s) then IrqAnswer(u.(candidate := Some(Candidate(id, reg, until, ready))), Accepted)
             else if s.policy.preflightTimeout == 0 then IrqAnswer(u.(candidate := None), Rejected)
             else IrqAnswer(u.(candidate := Some(Candidate(id, reg, until, ready))), Parked(until))
  {
  }

  /** The owner's request for silence installs it. */
  lemma SilencingInstallsSilence(s: State, id: ConnId, reg: Registration, now: nat, installs: bool)
    requires reg.sender == id && id != NO_OWNER && reg.fds == [] && s.owner == id && WellFormedRequest(reg)
    ensures LineOf(SetIrqs(s, id, reg, now, installs).state) == Silenced(id)
  {
    RegistrationExactly(s, id, reg, now, installs);
  }

  /**
   * A look at a parked registration accepts it if and only if its connection owns the device, and rejects it
   * if and only if that neither owns it nor is staged, or its time is up; a rejection unstages it.
   */
  lemma ParkedLookExactly(s: State, id: ConnId, deadline: nat, now: nat)
    ensures var r, staged := ParkPoll(s, id, deadline, now), s.candidate.Some? && s.candidate.value.id == id;
      && (r.reply == Accepted <==> s.owner == id)
      && (r.reply == Rejected <==> s.owner != id && (!staged || deadline <= now))
      && (r.reply.Parked? ==> r.reply.until == deadline)
      && r.state == if s.owner != id && staged && deadline <= now then s.(candidate := None) else s
  {
  }

  // ---------------------------------------------------------------------
  // Memory and reports
  // ---------------------------------------------------------------------

  /**
   * Unmapping by the owner, or by anybody while nobody owns the device, drops exactly the mappings that start
   * inside the range, and the named range from what that connection published; by anybody else it does nothing.
   */
  lemma UnmapDropsExactly(s: State, id: ConnId, address: nat, size: nat)
    requires address + size <= U64_MAX
    ensures var t := DmaUnmap(s, id, address, size);
      if s.owner != id && s.owner != NO_OWNER then t == s
      else
        && (forall g :: g in t.segments <==> g in s.segments && !(address <= g.start < address + size))
        && (forall r :: r in RangesOf(t, id) <==> r in RangesOf(s, id) && r != Range(address, size))
        && (forall x | x != id :: RangesOf(t, x) == RangesOf(s, x))
        && t.(segments := s.segments, mapped := s.mapped) == s
  {
  }

  /** Before a controller is seen memory comes later only where a policy asks for it, and devices are not counted. */
  lemma NothingSeenAtFirst(policy: Policy)
    ensures MemoryComesLater(Boot(policy)) <==> policy.blockRegistration && policy.requireController
    ensures DeviceThere(Boot(policy))
    ensures Boot(policy).owner == NO_OWNER && Boot(policy).epoch == 0 && Boot(policy).lines == []
  {
  }

  /** From the moment a controller is seen, memory comes later exactly if registrations wait at all. */
  lemma ControllerDecidesDeferral(y: System)
    ensures MemoryComesLater(After(y, SeeController)) <==> y.s.policy.blockRegistration
    ensures After(y, SeeController).(controllerSeen := y.s.controllerSeen) == y.s
  {
  }

  /** After a report that no device is left, nobody takes over where a device is required. */
  lemma NoDeviceNoTakeover(y: System, id: ConnId, epoch: nat, now: nat, installs: bool)
    requires Inv(y) && y.s.policy.requireDevice
    ensures !Moves(After(y, SeeInventory(0)), id, epoch, now, installs)
    ensures forall n: nat | 0 < n :: DeviceThere(After(y, SeeInventory(n)))
  {
    var z := Next(y, SeeInventory(0));
    StepKeepsInv(y, SeeInventory(0));
    CommitMovesExactly(z, id, epoch, now, installs);
  }

  /**
   * A look of a watching controller is answered if and only if there is a candidate in time, the epoch moved
   * or its time is up; the answer shows the state, from which a candidate found too late has gone.
   */
  lemma WatchExactly(s: State, startEpoch: nat, deadline: nat, now: nat)
    ensures var (t, answer) := WatchPoll(s, startEpoch, deadline, now);
      && t == s.(candidate := if InTime(s, now) then s.candidate else None)
      && (answer.Some? <==> InTime(s, now) || s.epoch != startEpoch || deadline <= now)
      && (answer.Some? ==> answer.value == StatusOf(t))
  {
  }

  /** A connection is live from its arrival to its end. */
  lemma LiveExactly(y: System, a: Step, x: ConnId)
    requires Enabled(y, a)
    ensures x in After(y, a).live <==> (x in y.s.live || a == Arrive(x)) && !(a.Leave? && a.id == x)
  {
    if a.Leave? {
      DisconnectOnlyForgets(y.s, a.id, a.now, a.reclaimDuplicates, a.promoteDuplicates);
    } else if !a.Map? && !a.Unmap? && !a.Arrive? {
      ConnectionsOf(y, a);
    }
  }
}
