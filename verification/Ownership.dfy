/**
 * The state that decides who owns the shared device, and what one lock-held step does to it.
 *
 * `State` is everything behind the ownership lock together with what the backend exposes: the
 * interrupt lines handed to the interrupter, oldest first, and the mappings of the DMA bus.
 * Each operation is a function of that state, of the time, and of the environment's answers.
 */
module Ownership {
  import opened DmaBus
  import opened MemoryBus
  import opened Wrappers

  type ConnId = nat

  /** The value that stands for "no connection". */
  const NO_OWNER: ConnId := 0xFFFF_FFFF_FFFF_FFFF

  /** The only interrupt index the device offers. */
  const MSIX_IRQ_INDEX: nat := 2

  /** A descriptor a client sent; the kernel knows whether it is an eventfd. */
  datatype Fd = Fd(handle: nat, isEventFd: bool)

  /** A `SetIrqs` request kept for later; `sender` records which connection sent it. */
  datatype Registration = Registration(
    index: nat, flags: nat, start: nat, count: nat, fds: seq<Fd>, sender: ConnId)

  datatype Candidate = Candidate(id: ConnId, reg: Registration, deadline: nat, ready: bool)

  /** What the interrupter signals on. */
  datatype Line =
    | Unconnected
    | Silenced(asker: ConnId)
    | EventFd(fd: Fd, sender: ConnId)

  /** A range a connection has published: first address and size. */
  datatype Range = Range(address: nat, size: nat)

  datatype Policy = Policy(
    lease: nat, preflightTimeout: nat, requireReady: bool, autoReclaim: bool,
    requireDevice: bool, blockRegistration: bool, requireController: bool)

  datatype State = State(
    owner: ConnId, prev: ConnId, epoch: nat, committedAt: Option<nat>,
    candidate: Option<Candidate>,
    ownerReg: Option<Registration>, prevReg: Option<Registration>,
    mapped: map<ConnId, seq<Range>>, live: set<ConnId>,
    policy: Policy, controllerSeen: bool, deviceCount: Option<nat>,
    lines: seq<Line>, segments: seq<Segment>)

  datatype HandoverError =
    | NoCandidate | WrongCandidate | PreflightTimeout | NotReady | BadEventFd | DeviceGone
    | DmaIncomplete | IrqMismatch | NotPreviousOwner | PreviousGone | EpochMismatch
    | LeaseExpired | BackendError

  /** The state of a freshly started server. */
  function Boot(policy: Policy): State {
    State(NO_OWNER, NO_OWNER, 0, None, None, None, None, map[], {}, policy, false, None, [], [])
  }

  /** The line the interrupter will end up on once it has worked through its queue. */
  function LineOf(s: State): Line { if s.lines == [] then Unconnected else s.lines[|s.lines| - 1] }

  /** The line a registration with at least one descriptor stands for. */
  function LineFor(reg: Registration): Line
    requires reg.fds != []
  {
    EventFd(reg.fds[0], reg.sender)
  }

  function Install(s: State, line: Line): State { s.(lines := s.lines + [line]) }

  /** Stored registrations passed the request check when they arrived. */
  ghost predicate StoredRequestsValid(s: State) {
    && (s.candidate.Some? ==> ValidIrqRequest(s.candidate.value.reg.index, s.candidate.value.reg.count))
    && (s.ownerReg.Some? ==> ValidIrqRequest(s.ownerReg.value.index, s.ownerReg.value.count))
    && (s.prevReg.Some? ==> ValidIrqRequest(s.prevReg.value.index, s.prevReg.value.count))
  }

  function InstallRegistration(s: State, reg: Registration): State {
    Install(s, if reg.fds == [] then Silenced(reg.sender) else LineFor(reg))
  }

  predicate ValidIrqRequest(index: nat, count: nat) { index == MSIX_IRQ_INDEX && count <= 1 }

  // ---------------------------------------------------------------------
  // Preflight
  // ---------------------------------------------------------------------

  predicate Covers(have: Range, need: Range) {
    have.address <= need.address
    && need.address + need.size <= U64_MAX
    && need.address + need.size <= have.address + have.size
  }

  /** Every needed range lies inside one single range that is there. */
  predicate RangesCover(have: seq<Range>, needed: seq<Range>) {
    forall need | need in needed :: exists h | h in have :: Covers(h, need)
  }

  function RangesOf(s: State, id: ConnId): seq<Range> {
    if id in s.mapped then s.mapped[id] else []
  }

  function SameVector(a: Registration, b: Registration): bool {
    a.index == b.index && a.start == b.start && a.count == b.count
  }

  /** The checks every hand-over has to pass, whoever decides it. */
  function PreflightHard(s: State, cand: Candidate, ownerRanges: seq<Range>, checkDma: bool): Option<HandoverError> {
    if exists fd | fd in cand.reg.fds :: !fd.isEventFd then Some(BadEventFd)
    else if s.policy.requireDevice && s.deviceCount == Some(0) then Some(DeviceGone)
    else if s.ownerReg.Some? && !SameVector(cand.reg, s.ownerReg.value) then Some(IrqMismatch)
    else if checkDma && !RangesCover(RangesOf(s, cand.id), ownerRanges) then Some(DmaIncomplete)
    else None
  }

  function DefersDma(s: State): bool {
    s.policy.blockRegistration && (s.controllerSeen || s.policy.requireController)
  }

  // ---------------------------------------------------------------------
  // Control-path steps
  // ---------------------------------------------------------------------

  function Expired(s: State, now: nat): Option<ConnId> {
    if s.candidate.Some? && s.candidate.value.deadline < now then Some(s.candidate.value.id) else None
  }

  function Expire(s: State, now: nat): State {
    if Expired(s, now).Some? then s.(candidate := None) else s
  }

  type Outcome = Result<(), HandoverError>

  datatype Answer = Answer(state: State, outcome: Outcome)

  function Ready(s: State, id: ConnId, now: nat): Answer {
    var t := Expire(s, now);
    match t.candidate
    case Some(c) =>
      if c.id == id
      then Answer(t.(candidate := Some(c.(ready := true))), Success(()))
      else Answer(t, Failure(WrongCandidate))
    case None => Answer(t, Failure(if Expired(s, now) == Some(id) then PreflightTimeout else NoCandidate))
  }

  function Abort(s: State, id: ConnId, now: nat): Answer {
    var t := Expire(s, now);
    match t.candidate
    case Some(c) =>
      if c.id == id then Answer(t.(candidate := None), Success(())) else Answer(t, Failure(WrongCandidate))
    case None => Answer(t, Failure(NoCandidate))
  }

  /** Why a commit is refused before anything is touched; the candidate is staged. */
  function CommitRefusal(s: State, id: ConnId, epoch: nat): Option<HandoverError>
    requires s.candidate.Some?
  {
    if epoch != s.epoch then Some(EpochMismatch)
    else if s.candidate.value.id != id then Some(WrongCandidate)
    else if s.policy.requireReady && !s.candidate.value.ready then Some(NotReady)
    else PreflightHard(s, s.candidate.value, RangesOf(s, s.owner), !DefersDma(s))
  }

  /** The device moves to the candidate; the incumbent is remembered for a reclaim. */
  function HandOver(s: State, now: nat): State
    requires s.candidate.Some?
  {
    var cand := s.candidate.value;
    InstallRegistration(s, cand.reg).(
      candidate := None, prev := s.owner, prevReg := s.ownerReg,
      owner := cand.id, ownerReg := Some(cand.reg), epoch := s.epoch + 1, committedAt := Some(now))
  }

  function Commit(s: State, id: ConnId, epoch: nat, now: nat, installs: bool): Answer {
    var t := Expire(s, now);
    if t.candidate.None? then
      Answer(t,
        if t.owner == id && epoch + 1 == t.epoch then Success(())
        else if Expired(s, now) == Some(id) then Failure(PreflightTimeout)
        else Failure(NoCandidate))
    else match CommitRefusal(t, id, epoch)
      case Some(e) => Answer(t, Failure(e))
      case None =>
        if installs then Answer(HandOver(t, now), Success(()))
        else Answer(t.(candidate := None), Failure(BackendError))
  }

  function Elapsed(since: nat, now: nat): nat { if now < since then 0 else now - since }

  function LeaseRunning(s: State, now: nat): bool {
    s.committedAt.Some? && Elapsed(s.committedAt.value, now) <= s.policy.lease
  }

  /** The device goes back to the previous owner, on the line it had registered. */
  function GiveBack(s: State): State
    requires s.prevReg.Some?
  {
    InstallRegistration(s, s.prevReg.value).(
      owner := s.prev, prev := NO_OWNER, ownerReg := s.prevReg, prevReg := None, epoch := s.epoch + 1)
  }

  function Reclaim(s: State, id: ConnId, epoch: nat, now: nat, installs: bool): Answer {
    var t := Expire(s, now);
    if t.prev == NO_OWNER || t.prev != id then Answer(t, Failure(NotPreviousOwner))
    else if id !in t.live then Answer(t, Failure(PreviousGone))
    else if epoch != t.epoch then Answer(t, Failure(EpochMismatch))
    else if !LeaseRunning(t, now) then Answer(t, Failure(LeaseExpired))
    else if t.prevReg.None? then Answer(t, Failure(NotPreviousOwner))
    else if !installs then Answer(t, Failure(BackendError))
    else Answer(GiveBack(t), Success(()))
  }

  // ---------------------------------------------------------------------
  // Status replies
  // ---------------------------------------------------------------------

  datatype HandoverStatus = HandoverStatus(
    owner: Option<nat>, prev: Option<nat>, candidate: Option<nat>, epoch: nat,
    candidateReady: bool, leaseMs: nat, live: seq<nat>, devices: Option<nat>,
    requireDevice: bool, requireReady: bool, binding: bool, controller: bool, deferredA3: bool)

  lemma {:induction false} HasLeast(ids: set<nat>, x: nat)
    requires x in ids
    ensures exists m :: m in ids && forall y | y in ids :: m <= y
    decreases x
  {
    if y :| y in ids && y < x { HasLeast(ids, y); }
  }

  function Least(ids: set<nat>): (m: nat)
    requires ids != {}
    ensures m in ids && forall y | y in ids :: m <= y
  {
    assert exists m :: m in ids && forall y | y in ids :: m <= y by {
      var x :| x in ids;
      HasLeast(ids, x);
    }
    var m :| m in ids && forall y | y in ids :: m <= y;
    m
  }

  /** The live connections in ascending order, each once. */
  function Ascending(ids: set<nat>): (r: seq<nat>)
    ensures forall x :: x in r <==> x in ids
    ensures forall i, j | 0 <= i < j < |r| :: r[i] < r[j]
  {
    if ids == {} then []
    else
      var m := Least(ids);
      var rest := Ascending(ids - {m});
      assert forall i | 0 <= i < |rest| :: rest[i] in ids - {m};
      [m] + rest
  }

  function Known(id: ConnId): Option<nat> { if id == NO_OWNER then None else Some(id) }

  function StatusOf(s: State): HandoverStatus {
    HandoverStatus(
      Known(s.owner), Known(s.prev), if s.candidate.Some? then Some(s.candidate.value.id) else None,
      s.epoch, s.candidate.Some? && s.candidate.value.ready, s.policy.lease, Ascending(s.live),
      s.deviceCount, s.policy.requireDevice, s.policy.requireReady, s.policy.blockRegistration,
      s.controllerSeen, DefersDma(s))
  }

  /** One look of a waiting controller; it is answered once there is something to decide. */
  function WatchPoll(s: State, startEpoch: nat, deadline: nat, now: nat): (State, Option<HandoverStatus>) {
    var t := Expire(s, now);
    (t, if t.candidate.Some? || t.epoch != startEpoch || deadline <= now then Some(StatusOf(t)) else None)
  }

  function NoteController(s: State): State { s.(controllerSeen := true) }

  function NoteInventory(s: State, devices: nat): State { s.(deviceCount := Some(devices)) }

  // ---------------------------------------------------------------------
  // Steps of a client connection
  // ---------------------------------------------------------------------

  function Establish(s: State, id: ConnId): State { s.(live := s.live + {id}) }

  function Unowned(s: State): State {
    s.(owner := NO_OWNER, ownerReg := None, prev := NO_OWNER, prevReg := None,
       candidate := None, committedAt := None, epoch := s.epoch + 1)
  }

  /** What is left once a connection is gone, before anybody is asked to take over. */
  function Forget(s: State, id: ConnId): State { s.(live := s.live - {id}, mapped := s.mapped - {id}) }

  function CanGiveBack(s: State): bool {
    s.policy.autoReclaim && s.prev != NO_OWNER && s.prev in s.live && s.prevReg.Some?
  }

  function CanPromote(s: State, deadRanges: seq<Range>): bool {
    s.policy.autoReclaim && s.candidate.Some?
    && PreflightHard(s, s.candidate.value, deadRanges, true).None?
  }

  function Promote(s: State, now: nat): State
    requires s.candidate.Some?
  {
    HandOver(s, now).(prev := NO_OWNER, prevReg := None)
  }

  function Disconnect(s: State, id: ConnId, now: nat, reclaimInstalls: bool, promoteInstalls: bool): State {
    var t := Forget(s, id);
    if s.owner != id then t
    else if CanGiveBack(t) && reclaimInstalls then GiveBack(t).(committedAt := Some(now))
    else if CanPromote(t, RangesOf(s, id)) && promoteInstalls then Promote(t, now)
    else Unowned(t)
  }

  function Owns(s: State, id: ConnId): bool { s.owner == id }

  /** Some other connection owns the device, so a teardown by `id` would disturb it. */
  function IsStale(s: State, id: ConnId): bool { !Owns(s, id) && s.owner != NO_OWNER }

  /** The segment a connection maps; `accepted` is false when the kernel refuses the descriptor. */
  function DmaMap(s: State, id: ConnId, address: nat, size: nat, accepted: bool): (State, bool) {
    var after := Upsert(s.segments, address, Device(id, size));
    if accepted && Mappable(after)
    then (s.(segments := after, mapped := s.mapped[id := RangesOf(s, id) + [Range(address, size)]]), true)
    else (s, false)
  }

  function DropRange(ranges: seq<Range>, r: Range): (kept: seq<Range>)
    ensures forall x :: x in kept <==> x in ranges && x != r
  {
    if ranges == [] then []
    else if ranges[0] == r then DropRange(ranges[1..], r)
    else [ranges[0]] + DropRange(ranges[1..], r)
  }

  function DmaUnmap(s: State, id: ConnId, address: nat, size: nat): State {
    if IsStale(s, id) then s
    else
      s.(segments := Without(s.segments, address, size),
         mapped := if id in s.mapped then s.mapped[id := DropRange(s.mapped[id], Range(address, size))] else s.mapped)
  }

  /** How a `SetIrqs` request is answered, if it is answered already. */
  datatype IrqReply = Accepted | Rejected | Parked(until: nat)

  datatype IrqAnswer = IrqAnswer(state: State, reply: IrqReply)

  function Stage(s: State, id: ConnId, reg: Registration, deadline: nat): State {
    var ready := s.candidate.Some? && s.candidate.value.id == id && s.candidate.value.ready;
    s.(candidate := Some(Candidate(id, reg, deadline, ready)))
  }

  function SetIrqs(s: State, id: ConnId, reg: Registration, now: nat, installs: bool): IrqAnswer
    requires reg.sender == id
  {
    var t := Expire(s, now);
    if reg.fds == [] then
      if !Owns(t, id) then IrqAnswer(t, Accepted)
      else if !ValidIrqRequest(reg.index, reg.count) then IrqAnswer(t, Rejected)
      else IrqAnswer(Install(t, Silenced(id)), Accepted)
    else if !ValidIrqRequest(reg.index, reg.count) then IrqAnswer(t, Rejected)
    else if t.owner == NO_OWNER || t.owner == id then
      if !installs then IrqAnswer(t, Rejected)
      else
        IrqAnswer(
          InstallRegistration(t, reg).(
            owner := id, ownerReg := Some(reg),
            epoch := if t.owner == NO_OWNER then t.epoch + 1 else t.epoch),
          Accepted)
    else
      var deadline := now + t.policy.preflightTimeout;
      var staged := Stage(t, id, reg, deadline);
      if !DefersDma(staged) then IrqAnswer(staged, Accepted)
      else ParkPoll(staged, id, deadline, now)
  }

  /** One look of a parked registration at the shared state. */
  function ParkPoll(s: State, id: ConnId, deadline: nat, now: nat): IrqAnswer {
    if s.owner == id then IrqAnswer(s, Accepted)
    else if !(s.candidate.Some? && s.candidate.value.id == id) then IrqAnswer(s, Rejected)
    else if deadline <= now then IrqAnswer(s.(candidate := None), Rejected)
    else IrqAnswer(s, Parked(deadline))
  }
}
