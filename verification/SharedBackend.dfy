/**
 * The shared backend as the server runs it: one object behind one lock, updated in place.
 *
 * The lock guards one record, `o`; every method is one lock-held section that updates it field
 * by field. Each contract says which step of module `Ownership` the section performs. Answers
 * of the environment (the clock, whether descriptors can be duplicated, whether the kernel
 * accepts a mapping) are arguments.
 */
module SharedBackends {
  import opened DmaBus
  import opened MemoryBus
  import opened Ownership
  import opened Wrappers

  class SharedBackendState {
    var o: State
    var nextId: ConnId

    constructor (policy: Policy)
      ensures o == Boot(policy) && nextId == 0
    {
      o := Boot(policy);
      nextId := 0;
    }

    /** Every registration the server keeps was checked before it was kept. */
    ghost predicate KeepsValidRequests() reads this`o { StoredRequestsValid(o) }

    /** Hand out a connection id; no id is handed out twice. */
    method Connect() returns (id: ConnId)
      modifies this`nextId
      ensures id == old(nextId) && id < nextId
    {
      id := nextId;
      nextId := nextId + 1;
    }

    method NoteControllerSeen()
      modifies this`o
      ensures o == NoteController(old(o))
    {
      if !o.controllerSeen {
        o := o.(controllerSeen := true);
      }
    }

    method NoteDeviceInventory(devices: nat)
      modifies this`o
      ensures o == NoteInventory(old(o), devices)
    {
      o := o.(deviceCount := Some(devices));
    }

    method ExpireCandidate(now: nat) returns (expired: Option<ConnId>)
      modifies this`o
      ensures o == Expire(old(o), now) && expired == Expired(old(o), now)
    {
      if o.candidate.None? || now <= o.candidate.value.deadline {
        return None;
      }
      expired := Some(o.candidate.value.id);
      o := o.(candidate := None);
    }

    /** The backend's `set_irqs`: a registration without descriptors connects a line that does nothing. */
    method BackendSetIrqs(reg: Registration) returns (accepted: bool)
      modifies this`o
      ensures accepted == ValidIrqRequest(reg.index, reg.count)
      ensures o == if accepted then Ownership.InstallRegistration(old(o), reg) else old(o)
    {
      accepted := reg.index == MSIX_IRQ_INDEX && reg.count <= 1;
      if accepted {
        var line := if reg.fds == [] then Silenced(reg.sender) else EventFd(reg.fds[0], reg.sender);
        o := o.(lines := o.lines + [line]);
      }
    }

    method InstallRegistration(reg: Registration, duplicates: bool) returns (r: Result<Registration, HandoverError>)
      modifies this`o
      ensures r == if duplicates && ValidIrqRequest(reg.index, reg.count) then Success(reg) else Failure(BackendError)
      ensures o == if r.Success? then Ownership.InstallRegistration(old(o), reg) else old(o)
    {
      if !duplicates {
        return Failure(BackendError);
      }
      var accepted := BackendSetIrqs(reg);
      r := if accepted then Success(reg) else Failure(BackendError);
    }

    method MakeUnowned()
      modifies this`o
      ensures o == Unowned(old(o))
    {
      o := o.(owner := NO_OWNER);
      o := o.(ownerReg := None);
      o := o.(prev := NO_OWNER);
      o := o.(prevReg := None);
      o := o.(candidate := None);
      o := o.(committedAt := None);
      o := o.(epoch := o.epoch + 1);
    }

    /** The owner's end is decided in order: previous owner, staged candidate, nobody. */
    method Disconnect(id: ConnId, now: nat, reclaimDuplicates: bool, promoteDuplicates: bool)
      requires KeepsValidRequests()
      modifies this`o
      ensures o == Ownership.Disconnect(old(o), id, now, reclaimDuplicates, promoteDuplicates)
    {
      o := o.(live := o.live - {id});
      var ownerRanges := if id in o.mapped then o.mapped[id] else [];
      o := o.(mapped := o.mapped - {id});
      if o.owner != id {
        return;
      }
      var done := ReclaimForPrevious(now, reclaimDuplicates);
      if !done {
        done := PromoteCandidate(ownerRanges, now, promoteDuplicates);
      }
      if !done {
        MakeUnowned();
      }
    }

    method ReclaimForPrevious(now: nat, duplicates: bool) returns (done: bool)
      requires KeepsValidRequests()
      modifies this`o
      ensures done == (CanGiveBack(old(o)) && duplicates)
      ensures o == if done then GiveBack(old(o)).(committedAt := Some(now)) else old(o)
    {
      if !o.policy.autoReclaim || o.prev == NO_OWNER || o.prev !in o.live || o.prevReg.None? {
        return false;
      }
      var prev, reg := o.prev, o.prevReg.value;
      o := o.(prevReg := None);
      var installed := InstallRegistration(reg, duplicates);
      if installed.Failure? {
        o := o.(prevReg := Some(reg));
        return false;
      }
      o := o.(owner := prev);
      o := o.(prev := NO_OWNER);
      o := o.(ownerReg := Some(installed.value));
      o := o.(committedAt := Some(now));
      o := o.(epoch := o.epoch + 1);
      return true;
    }

    /** A candidate that cannot take over is dropped; the caller leaves the device unowned then. */
    method PromoteCandidate(ownerRanges: seq<Range>, now: nat, duplicates: bool) returns (done: bool)
      requires KeepsValidRequests()
      modifies this`o
      ensures done == (CanPromote(old(o), ownerRanges) && duplicates)
      ensures done ==> o == Promote(old(o), now)
      ensures !done ==> o.(candidate := None) == old(o).(candidate := None)
    {
      if !o.policy.autoReclaim || o.candidate.None? {
        return false;
      }
      var cand := o.candidate.value;
      var refused := PreflightHard(o, cand, ownerRanges, true);
      o := o.(candidate := None);
      if refused.Some? {
        return false;
      }
      var installed := InstallRegistration(cand.reg, duplicates);
      if installed.Failure? {
        return false;
      }
      o := o.(owner := cand.id);
      o := o.(prev := NO_OWNER);
      o := o.(prevReg := None);
      o := o.(ownerReg := Some(installed.value));
      o := o.(committedAt := Some(now));
      o := o.(epoch := o.epoch + 1);
      return true;
    }

    method HandoverStatus(now: nat) returns (status: HandoverStatus)
      modifies this`o
      ensures o == Expire(old(o), now) && status == StatusOf(o)
    {
      var _ := ExpireCandidate(now);
      status := StatusOf(o);
    }

    /** One look of `handover_watch` between two waits. */
    method HandoverWatchLook(startEpoch: nat, deadline: nat, now: nat) returns (status: Option<HandoverStatus>)
      modifies this`o
      ensures (o, status) == WatchPoll(old(o), startEpoch, deadline, now)
    {
      var _ := ExpireCandidate(now);
      if o.candidate.Some? || o.epoch != startEpoch || deadline <= now {
        return Some(StatusOf(o));
      }
      return None;
    }

    method HandoverReady(id: ConnId, now: nat) returns (r: Outcome)
      modifies this`o
      ensures Answer(o, r) == Ready(old(o), id, now)
    {
      var expired := ExpireCandidate(now);
      match o.candidate
      case Some(c) =>
        if c.id != id {
          return Failure(WrongCandidate);
        }
        o := o.(candidate := Some(c.(ready := true)));
        return Success(());
      case None =>
        return Failure(if expired == Some(id) then PreflightTimeout else NoCandidate);
    }

    method HandoverAbort(id: ConnId, now: nat) returns (r: Outcome)
      modifies this`o
      ensures Answer(o, r) == Abort(old(o), id, now)
    {
      var _ := ExpireCandidate(now);
      match o.candidate
      case Some(c) =>
        if c.id != id {
          return Failure(WrongCandidate);
        }
        o := o.(candidate := None);
        return Success(());
      case None =>
        return Failure(NoCandidate);
    }

    /** The candidate is consumed at the commit point; the ownership is touched only once its line is installed. */
    method HandoverCommit(id: ConnId, observedEpoch: nat, now: nat, duplicates: bool) returns (r: Outcome)
      requires KeepsValidRequests()
      modifies this`o
      ensures Answer(o, r) == Commit(old(o), id, observedEpoch, now, duplicates)
    {
      var expired := ExpireCandidate(now);
      if o.candidate.None? {
        if o.owner == id && observedEpoch + 1 == o.epoch {
          return Success(());
        }
        return Failure(if expired == Some(id) then PreflightTimeout else NoCandidate);
      }
      if observedEpoch != o.epoch {
        return Failure(EpochMismatch);
      }
      var cand := o.candidate.value;
      if cand.id != id {
        return Failure(WrongCandidate);
      }
      if o.policy.requireReady && !cand.ready {
        return Failure(NotReady);
      }
      var ownerRanges := if o.owner in o.mapped then o.mapped[o.owner] else [];
      var deferA3 := o.policy.blockRegistration && (o.controllerSeen || o.policy.requireController);
      var refused := PreflightHard(o, cand, ownerRanges, !deferA3);
      if refused.Some? {
        return Failure(refused.value);
      }
      r := CommitPoint(now, duplicates);
    }

    method CommitPoint(now: nat, duplicates: bool) returns (r: Outcome)
      requires o.candidate.Some? && KeepsValidRequests()
      modifies this`o
      ensures Answer(o, r) ==
        if duplicates then Answer(HandOver(old(o), now), Success(()))
        else Answer(old(o).(candidate := None), Failure(BackendError))
    {
      var cand := o.candidate.value;
      o := o.(candidate := None);
      var installed := InstallRegistration(cand.reg, duplicates);
      if installed.Failure? {
        return Failure(installed.error);
      }
      o := o.(prev := o.owner);
      o := o.(prevReg := o.ownerReg);
      o := o.(owner := cand.id);
      o := o.(ownerReg := Some(installed.value));
      o := o.(epoch := o.epoch + 1);
      o := o.(committedAt := Some(now));
      return Success(());
    }

    method HandoverReclaim(id: ConnId, observedEpoch: nat, now: nat, duplicates: bool) returns (r: Outcome)
      requires KeepsValidRequests()
      modifies this`o
      ensures Answer(o, r) == Reclaim(old(o), id, observedEpoch, now, duplicates)
    {
      var _ := ExpireCandidate(now);
      if o.prev == NO_OWNER || o.prev != id {
        return Failure(NotPreviousOwner);
      }
      if id !in o.live {
        return Failure(PreviousGone);
      }
      if observedEpoch != o.epoch {
        return Failure(EpochMismatch);
      }
      if o.committedAt.None? || o.policy.lease < Elapsed(o.committedAt.value, now) {
        return Failure(LeaseExpired);
      }
      if o.prevReg.None? {
        return Failure(NotPreviousOwner);
      }
      var reg := o.prevReg.value;
      o := o.(prevReg := None);
      var installed := InstallRegistration(reg, duplicates);
      if installed.Failure? {
        o := o.(prevReg := Some(reg));
        return Failure(installed.error);
      }
      o := o.(owner := id);
      o := o.(prev := NO_OWNER);
      o := o.(ownerReg := Some(installed.value));
      o := o.(epoch := o.epoch + 1);
      return Success(());
    }
  }

  /** One client connection; its slot becomes live with the first command it sends. */
  class SharedBackend {
    const id: ConnId
    const state: SharedBackendState
    var established: bool

    constructor (id: ConnId, state: SharedBackendState)
      ensures this.id == id && this.state == state && !established
    {
      this.id, this.state, established := id, state, false;
    }

    /** What the shared state is once this connection has announced itself. */
    ghost function Touched(): State reads this, state`o {
      if established then state.o else Establish(state.o, id)
    }

    method Touch()
      modifies this, state`o
      ensures established && state.o == old(Touched())
    {
      if !established {
        established := true;
        state.o := state.o.(live := state.o.live + {id});
      }
    }

    method DmaMap(address: nat, size: nat, accepted: bool) returns (ok: bool)
      modifies this, state`o
      ensures established && (state.o, ok) == Ownership.DmaMap(old(Touched()), id, address, size, accepted)
    {
      Touch();
      var after := Upsert(state.o.segments, address, Device(id, size));
      ok := accepted && Mappable(after);
      if ok {
        state.o := state.o.(segments := after);
        var ranges := if id in state.o.mapped then state.o.mapped[id] else [];
        state.o := state.o.(mapped := state.o.mapped[id := ranges + [Range(address, size)]]);
      }
    }

    method DmaUnmap(address: nat, size: nat)
      modifies this, state`o
      ensures established && state.o == Ownership.DmaUnmap(old(Touched()), id, address, size)
    {
      Touch();
      if state.o.owner != id && state.o.owner != NO_OWNER {
        return;
      }
      state.o := state.o.(segments := Without(state.o.segments, address, size));
      if id in state.o.mapped {
        var ranges := DropRange(state.o.mapped[id], Range(address, size));
        state.o := state.o.(mapped := state.o.mapped[id := ranges]);
      }
    }

    /** The registration up to the point where it is answered or parks for the first time. */
    method SetIrqs(reg: Registration, now: nat, duplicates: bool) returns (reply: IrqReply)
      requires reg.sender == id
      modifies this, state`o
      ensures established
      ensures IrqAnswer(state.o, reply) == Ownership.SetIrqs(old(Touched()), id, reg, now, duplicates)
    {
      Touch();
      var _ := state.ExpireCandidate(now);
      if reg.fds == [] {
        if state.o.owner != id {
          return Accepted;
        }
        var accepted := state.BackendSetIrqs(reg);
        return if accepted then Accepted else Rejected;
      }
      if !ValidIrqRequest(reg.index, reg.count) {
        return Rejected;
      }
      if state.o.owner == NO_OWNER || state.o.owner == id {
        if !duplicates {
          return Rejected;
        }
        var _ := state.BackendSetIrqs(reg);
        var first := state.o.owner == NO_OWNER;
        state.o := state.o.(owner := id);
        state.o := state.o.(ownerReg := Some(reg));
        if first {
          state.o := state.o.(epoch := state.o.epoch + 1);
        }
        return Accepted;
      }
      var deadline := now + state.o.policy.preflightTimeout;
      var ready := state.o.candidate.Some? && state.o.candidate.value.id == id && state.o.candidate.value.ready;
      state.o := state.o.(candidate := Some(Candidate(id, reg, deadline, ready)));
      if state.o.policy.blockRegistration && (state.o.controllerSeen || state.o.policy.requireController) {
        reply := ParkedLook(deadline, now);
      } else {
        reply := Accepted;
      }
    }

    /** One iteration of the parked loop, between two waits. */
    method ParkedLook(deadline: nat, now: nat) returns (reply: IrqReply)
      modifies state`o
      ensures IrqAnswer(state.o, reply) == ParkPoll(old(state.o), id, deadline, now)
    {
      if state.o.owner == id {
        return Accepted;
      }
      if state.o.candidate.None? || state.o.candidate.value.id != id {
        return Rejected;
      }
      if deadline <= now {
        state.o := state.o.(candidate := None);
        return Rejected;
      }
      return Parked(deadline);
    }
  }
}
