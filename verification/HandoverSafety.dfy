/** What the hand-over guarantees about one step: isolation of the owner, and the end of an owner. */
module HandoverSafety {
  import opened DmaBus
  import opened HandoverSystem
  import opened MemoryBus
  import opened Ownership
  import opened Wrappers

  // ---------------------------------------------------------------------
  // A connection that does not own the device cannot disturb its owner
  // ---------------------------------------------------------------------

  /** The step is taken by a connection while a different connection owns the device. */
  ghost predicate ByStranger(y: System, a: Step) {
    Actor(a).Some? && y.s.owner != NO_OWNER && Actor(a).value != y.s.owner
  }

  /** Line, owner, previous owner, their recorded registrations, epoch and lease are the same. */
  predicate SameOwnership(s: State, t: State) {
    && t.lines == s.lines && t.owner == s.owner && t.ownerReg == s.ownerReg
    && t.prev == s.prev && t.prevReg == s.prevReg && t.epoch == s.epoch && t.committedAt == s.committedAt
  }

  lemma StrangersRegistrationIsOnlyStaged(s: State, id: ConnId, reg: Registration, now: nat, installs: bool)
    requires reg.sender == id && s.owner != NO_OWNER && s.owner != id
    ensures SameOwnership(s, SetIrqs(s, id, reg, now, installs).state)
  {
  }

  /** A stranger never touches the line, the owner, the recorded registrations or the epoch. */
  lemma StrangerLeavesOwnershipAlone(y: System, a: Step)
    requires Enabled(y, a) && ByStranger(y, a)
    ensures SameOwnership(y.s, After(y, a))
  {
    if a.Register? {
      StrangersRegistrationIsOnlyStaged(y.s, a.id, a.reg, a.now, a.duplicates);
    }
  }

  /** Of a stranger's steps only a mapping request changes the DMA bus. */
  lemma StrangerUnmapsNothing(y: System, a: Step)
    requires Enabled(y, a) && ByStranger(y, a) && !a.Map?
    ensures After(y, a).segments == y.s.segments
  {
    if a.Leave? {
      DisconnectOnlyForgets(y.s, a.id, a.now, a.reclaimDuplicates, a.promoteDuplicates);
    } else if !a.Unmap? && !a.Arrive? {
      ConnectionsOf(y, a);
    }
  }

  /** The connection whose memory answers at address `x`. */
  function Holder(segments: seq<Segment>, x: nat): Option<ConnId> {
    match Route(Entries(segments), ByteAt(x))
    case ToDevice(e) => Some(e.device.id)
    case _ => None
  }

  /** An address is held by whoever has a mapping around it; there is never more than one. */
  lemma HolderIsAround(segments: seq<Segment>, x: nat, g: Segment)
    requires Mappable(segments) && g in segments && g.Range().Has(x)
    ensures Holder(segments, x) == Some(g.device.id)
  {
    var es, request := Entries(segments), ByteAt(x);
    EntriesMembers(segments, EntryOf(g));
    FirstMatchIsRoute(es, U64_MAX, request);
    match Route(es, request)
    case ToDevice(e) =>
      Intervals.ContainmentMeansAllAddresses(e.range, request);
      ContainingEntryIsUnique(es, U64_MAX, request, e, EntryOf(g));
    case _ =>
  }

  lemma HeldMeansAround(segments: seq<Segment>, x: nat) returns (g: Segment)
    requires Mappable(segments) && Holder(segments, x).Some?
    ensures g in segments && g.Range().Has(x) && Holder(segments, x) == Some(g.device.id)
  {
    var es := Entries(segments);
    RouteTargetIsAnEntry(es, ByteAt(x));
    var e := Route(es, ByteAt(x)).entry;
    EntriesMembers(segments, e);
    g :| g in segments && EntryOf(g) == e;
    Intervals.ContainmentMeansAllAddresses(e.range, ByteAt(x));
    assert ByteAt(x).Has(x);
  }

  /** Connection `v` still has every address it had. */
  ghost predicate KeepsAddresses(before: seq<Segment>, after: seq<Segment>, v: ConnId) {
    forall x: nat :: Holder(before, x) == Some(v) ==> Holder(after, x) == Some(v)
  }

  /** What starts at `address` does not take anything from `v` when replaced by `size` bytes of `id`. */
  predicate Harmless(g: Segment, v: ConnId, id: ConnId, size: nat) {
    g.device.id == v ==> g.device.size == 0 || (v == id && g.device.size <= size)
  }

  lemma HarmlessMappingsKeep(segments: seq<Segment>, id: ConnId, address: nat, size: nat, v: ConnId)
    requires Mappable(segments) && Mappable(Upsert(segments, address, Device(id, size)))
    requires forall g | g in segments && g.start == address :: Harmless(g, v, id, size)
    ensures KeepsAddresses(segments, Upsert(segments, address, Device(id, size)), v)
  {
    var after, mine := Upsert(segments, address, Device(id, size)), Segment(address, Device(id, size));
    forall x: nat | Holder(segments, x) == Some(v) ensures Holder(after, x) == Some(v) {
      var g := HeldMeansAround(segments, x);
      if g.start == address {
        HolderIsAround(after, x, mine);
      } else {
        HolderIsAround(after, x, g);
      }
    }
  }

  /** A byte that only the replaced mapping had goes to the new one, or to nobody. */
  lemma ReplacedMappingLosesByte(segments: seq<Segment>, id: ConnId, address: nat, size: nat, g: Segment, x: nat)
    requires Mappable(segments) && Mappable(Upsert(segments, address, Device(id, size)))
    requires g in segments && g.start == address && g.Range().Has(x)
    ensures Holder(Upsert(segments, address, Device(id, size)), x) == if x < address + size then Some(id) else None
  {
    var after, mine := Upsert(segments, address, Device(id, size)), Segment(address, Device(id, size));
    if x < address + size {
      HolderIsAround(after, x, mine);
    } else if Holder(after, x).Some? {
      var t := HeldMeansAround(after, x);
      MappingsAreApart(segments, g, t);
      Intervals.OverlapMeansSharedAddress(g.Range(), t.Range());
    }
  }

  /**
   * Replacing mappings is where isolation ends. An accepted mapping leaves a connection all the addresses
   * it had if and only if no mapping with memory of that connection starts at the same address; only a
   * connection's own mapping may be replaced, by one that is at least as large. Whatever starts there
   * otherwise loses its bytes, to the new mapping as far as that reaches.
   */
  lemma MapKeepsAddressesExactly(s: State, id: ConnId, address: nat, size: nat, v: ConnId)
    requires Mappable(s.segments) && DmaMap(s, id, address, size, true).1
    ensures var after := DmaMap(s, id, address, size, true).0.segments;
      KeepsAddresses(s.segments, after, v)
      <==> (forall g | g in s.segments && g.start == address :: Harmless(g, v, id, size))
  {
    var after := Upsert(s.segments, address, Device(id, size));
    if forall g | g in s.segments && g.start == address :: Harmless(g, v, id, size) {
      HarmlessMappingsKeep(s.segments, id, address, size, v);
    } else {
      var g :| g in s.segments && g.start == address && !Harmless(g, v, id, size);
      var x := if v == id then address + size else address;
      HolderIsAround(s.segments, x, g);
      ReplacedMappingLosesByte(s.segments, id, address, size, g, x);
    }
  }

  /** The step is not taken by `v`, and maps nothing where memory of `v` starts. */
  ghost predicate Spares(y: System, a: Step, v: ConnId) {
    && Actor(a) != Some(v)
    && (a.Map? ==> forall g | g in y.s.segments && g.start == a.address && g.device.id == v :: g.device.size == 0)
  }

  lemma SparingStepKeeps(y: System, a: Step, v: ConnId)
    requires Inv(y) && Enabled(y, a) && y.s.owner == v && v != NO_OWNER && Spares(y, a, v)
    ensures KeepsAddresses(y.s.segments, After(y, a).segments, v)
  {
    if a.Map? && DmaMap(y.s, a.id, a.address, a.size, a.accepted).1 {
      MapKeepsAddressesExactly(y.s, a.id, a.address, a.size, v);
    } else if Actor(a).Some? && !a.Map? {
      StrangerUnmapsNothing(y, a);
    } else if !a.Map? {
      ConnectionsOf(y, a);
    }
  }

  /** In every stretch of a run the owner keeps all its addresses as long as nobody maps where its memory starts. */
  lemma {:induction false} OwnerKeepsAddresses(ys: seq<System>, steps: seq<Step>, i: nat, j: nat, v: ConnId)
    requires Path(ys, steps) && Inv(ys[0]) && i <= j < |ys| && v != NO_OWNER
    requires forall m | i <= m < j :: ys[m].s.owner == v && Spares(ys[m], steps[m], v)
    ensures KeepsAddresses(ys[i].s.segments, ys[j].s.segments, v)
    decreases j
  {
    if i < j {
      OwnerKeepsAddresses(ys, steps, i, j - 1, v);
      PathKeepsInv(ys, steps, j - 1);
      PathStep(ys, steps, j - 1);
      SparingStepKeeps(ys[j - 1], steps[j - 1], v);
    }
  }

  // ---------------------------------------------------------------------
  // Two histories
  // ---------------------------------------------------------------------

  ghost predicate Reachable(y: System) { exists ys, steps :: Run(ys, steps) && ys[|ys| - 1] == y }

  /** One more step from a reachable state. */
  lemma ReachableStep(y: System, a: Step)
    requires Reachable(y) && Enabled(y, a)
    ensures Reachable(Next(y, a))
  {
    var ys, steps :| Run(ys, steps) && ys[|ys| - 1] == y;
    var zs, more := ys + [Next(y, a)], steps + [a];
    forall i | 0 <= i < |more| ensures StepAt(zs, more, i) {
      assert i < |steps| ==> StepAt(ys, steps, i);
    }
    assert Run(zs, more) && zs[|zs| - 1] == Next(y, a);
  }

  /** Two clients have arrived at a server that was just started. */
  function TwoClients(policy: Policy): System { System(Boot(policy).(live := {0, 1}), 2, {}, map[]) }

  lemma TwoClientsArrive(policy: Policy)
    ensures Reachable(TwoClients(policy))
  {
    var start := System(Boot(policy), 0, {}, map[]);
    var steps: seq<Step> := [];
    assert Run([start], steps);
    ReachableStep(start, Connect);
    ReachableStep(start.(nextId := 1), Connect);
    ReachableStep(start.(nextId := 2), Arrive(0));
    var one := start.(nextId := 2, s := start.s.(live := {0}));
    ReachableStep(one, Arrive(1));
    assert Next(one, Arrive(1)) == TwoClients(policy) by { assert {0} + {1} == {0, 1}; }
  }

  /** The first client maps its memory and registers: it owns the device. */
  function OwnerWithMemory(policy: Policy, reg: Registration, address: nat, size: nat): System {
    var s := TwoClients(policy).s;
    TwoClients(policy).(s := s.(owner := 0, ownerReg := Some(reg), epoch := 1, lines := [InstalledLine(reg)],
      segments := [Segment(address, Device(0, size))], mapped := map[0 := [Range(address, size)]]))
  }

  function InstalledLine(reg: Registration): Line { if reg.fds == [] then Silenced(reg.sender) else LineFor(reg) }

  predicate UsableBy(reg: Registration, id: ConnId) {
    reg.fds != [] && reg.sender == id && ValidIrqRequest(reg.index, reg.count)
  }

  lemma OneMappingIsMappable(address: nat, device: Device)
    requires address + device.size <= U64_MAX
    ensures Mappable([Segment(address, device)])
  {
    MappableMeans([Segment(address, device)]);
  }

  lemma OwnerMapsAndRegisters(policy: Policy, reg: Registration, address: nat, size: nat)
    requires UsableBy(reg, 0) && address + size <= U64_MAX
    ensures Reachable(OwnerWithMemory(policy, reg, address, size))
  {
    var y := TwoClients(policy);
    TwoClientsArrive(policy);
    OneMappingIsMappable(address, Device(0, size));
    assert Upsert([], address, Device(0, size)) == [Segment(address, Device(0, size))];
    ReachableStep(y, Map(0, address, size, true));
    var mapped := Next(y, Map(0, address, size, true));
    assert mapped.s.mapped == map[0 := [Range(address, size)]]
      by { assert [] + [Range(address, size)] == [Range(address, size)]; }
    UnownedDeviceIsClaimedByNextRegistration(mapped.s, 0, reg, 0);
    ReachableStep(mapped, Register(0, reg, 0, true));
    assert Next(mapped, Register(0, reg, 0, true)) == OwnerWithMemory(policy, reg, address, size) by {
      assert mapped.parked - {0} == map[] && [] + [InstalledLine(reg)] == [InstalledLine(reg)];
    }
  }

  /** A step of another connection after which address `x` no longer belongs to the owner who held it. */
  ghost predicate TakesFromOwner(y: System, a: Step, x: nat, now: Option<ConnId>) {
    && Reachable(y) && Enabled(y, a) && ByStranger(y, a) && a.Map?
    && Holder(y.s.segments, x) == Some(y.s.owner) && Holder(After(y, a).segments, x) == now
  }

  /**
   * It does happen, in histories from the start of the server: a stranger's mapping of the same size takes
   * over the owner's memory, and a smaller one leaves part of it with nobody.
   */
  lemma StrangerCanTakeOverAMapping()
    ensures exists y, a, x, v :: TakesFromOwner(y, a, x, Some(v)) && v != y.s.owner
    ensures exists y, a, x :: TakesFromOwner(y, a, x, None)
  {
    var policy := Policy(5000, 2000, true, true, true, false, false);
    var reg := Registration(MSIX_IRQ_INDEX, 0, 0, 1, [Fd(7, true)], 0);
    var y := OwnerWithMemory(policy, reg, 0x1000, 0x2000);
    OwnerMapsAndRegisters(policy, reg, 0x1000, 0x2000);
    StrangerTakes(y, 0x2000, 0x1000);
    StrangerTakes(y, 0x1000, 0x2000);
    assert TakesFromOwner(y, Map(1, 0x1000, 0x2000, true), 0x1000, Some(1));
    assert TakesFromOwner(y, Map(1, 0x1000, 0x1000, true), 0x2000, None);
  }

  lemma StrangerTakes(y: System, size: nat, x: nat)
    requires y.s.segments == [Segment(0x1000, Device(0, 0x2000))] && y.s.owner == 0 && 1 in y.s.live
    requires y.parked == map[]
    requires 0 < size <= 0x2000 && 0x1000 <= x < 0x3000
    ensures Enabled(y, Map(1, 0x1000, size, true)) && Holder(y.s.segments, x) == Some(0)
    ensures Holder(After(y, Map(1, 0x1000, size, true)).segments, x) == if x < 0x1000 + size then Some(1) else None
  {
    var theirs := Segment(0x1000, Device(0, 0x2000));
    OneMappingIsMappable(0x1000, Device(0, 0x2000));
    OneMappingIsMappable(0x1000, Device(1, size));
    assert [theirs][1..] == [] && Filter([theirs], StartsElsewhere(0x1000)) == [];
    assert Upsert([theirs], 0x1000, Device(1, size)) == [Segment(0x1000, Device(1, size))];
    HolderIsAround(y.s.segments, x, theirs);
    ReplacedMappingLosesByte(y.s.segments, 1, 0x1000, size, theirs, x);
  }

  // ---------------------------------------------------------------------
  // DMA coverage
  // ---------------------------------------------------------------------

  ghost predicate ByteOf(r: Range, x: nat) { r.address <= x < r.address + r.size }

  /** Every byte of every needed range lies in one range that is there, the same one for the whole range. */
  ghost predicate CoversBytes(have: seq<Range>, needed: seq<Range>) {
    forall n | n in needed :: exists h :: h in have && forall x :: ByteOf(n, x) ==> ByteOf(h, x)
  }

  lemma CoverageCoversBytes(have: seq<Range>, needed: seq<Range>)
    requires RangesCover(have, needed)
    ensures CoversBytes(have, needed)
  {
    forall n | n in needed ensures exists h :: h in have && forall x :: ByteOf(n, x) ==> ByteOf(h, x) {
      var h :| h in have && Covers(h, n);
      assert forall x :: ByteOf(n, x) ==> ByteOf(h, x);
    }
  }

  /** The coverage check is exact: it asks for one containing range per needed range. */
  lemma CoverageIsPerRange(have: seq<Range>, needed: seq<Range>)
    requires forall r | r in needed :: r.address + r.size <= U64_MAX && 0 < r.size
    ensures RangesCover(have, needed) <==> CoversBytes(have, needed)
  {
    if RangesCover(have, needed) { CoverageCoversBytes(have, needed); }
    if CoversBytes(have, needed) {
      forall n | n in needed ensures exists h | h in have :: Covers(h, n) {
        var h :| h in have && forall x :: ByteOf(n, x) ==> ByteOf(h, x);
        assert ByteOf(n, n.address) && ByteOf(n, n.address + n.size - 1);
        assert Covers(h, n);
      }
    }
  }

  /** The unchecked addition in the coverage check cannot overflow: recorded ranges were accepted by the bus. */
  lemma CoverageNeverOverflows(y: System, id: ConnId)
    requires Inv(y)
    ensures forall r | r in RangesOf(y.s, id) :: r.address + r.size <= U64_MAX
  {
  }

  // ---------------------------------------------------------------------
  // The end of an owner
  // ---------------------------------------------------------------------

  ghost predicate Promotes(s: State, id: ConnId, reclaim: bool, promote: bool) {
    var t := Forget(s, id);
    s.owner == id && !(CanGiveBack(t) && reclaim) && CanPromote(t, RangesOf(s, id)) && promote
  }

  /**
   * A promoted candidate can serve the device: its descriptors, its vector, and every byte the dead owner
   * published.
   */
  lemma PromotedCandidateCanServe(s: State, id: ConnId, now: nat, reclaim: bool, promote: bool)
    requires RolesMatch(s) && id != NO_OWNER && Promotes(s, id, reclaim, promote)
    ensures var t := Disconnect(s, id, now, reclaim, promote);
      && s.candidate.Some? && s.ownerReg.Some?
      && t.owner == s.candidate.value.id && t.ownerReg == Some(s.candidate.value.reg)
      && LineOf(t) == LineFor(s.candidate.value.reg)
      && SameVector(s.candidate.value.reg, s.ownerReg.value)
      && (forall fd | fd in s.candidate.value.reg.fds :: fd.isEventFd)
      && CoversBytes(RangesOf(t, t.owner), RangesOf(s, id))
  {
    DisconnectOnlyForgets(s, id, now, reclaim, promote);
    CoverageCoversBytes(RangesOf(Forget(s, id), s.candidate.value.id), RangesOf(s, id));
  }

  /** Whoever covers something has published something. */
  lemma CoveringMeansPublished(s: State, id: ConnId, needed: seq<Range>)
    requires RangesCover(RangesOf(s, id), needed) && needed != []
    ensures id in s.mapped
  {
    assert needed[0] in needed;
  }

  /** An owner that had published memory is succeeded by nobody or by somebody who is there. */
  lemma PublishingOwnerHasLiveSuccessor(y: System, a: Step)
    requires Inv(y) && Enabled(y, a) && a.Leave? && a.id == y.s.owner
    requires RangesOf(y.s, a.id) != []
    ensures var t := After(y, a);
      t.owner == NO_OWNER || (t.owner in t.live && t.owner != a.id)
  {
    var s, gone := y.s, Forget(y.s, a.id);
    if Promotes(s, a.id, a.reclaimDuplicates, a.promoteDuplicates) {
      CoveringMeansPublished(gone, s.candidate.value.id, RangesOf(s, a.id));
    }
  }

  /** When exactly the successor is a connection that is not there any more. */
  lemma DeadSuccessorExactly(y: System, a: Step)
    requires Inv(y) && Enabled(y, a) && a.Leave? && a.id == y.s.owner
    ensures var t := After(y, a);
      (t.owner != NO_OWNER && t.owner !in t.live)
      <==> (Promotes(y.s, a.id, a.reclaimDuplicates, a.promoteDuplicates)
            && y.s.candidate.value.id !in y.s.live - {a.id})
  {
    DisconnectOnlyForgets(y.s, a.id, a.now, a.reclaimDuplicates, a.promoteDuplicates);
  }

  /** Both clients register without memory; the second leaves while it is staged, and stays the candidate. */
  function StagedAndGone(policy: Policy, r0: Registration, r1: Registration): System {
    var s := Boot(policy).(owner := 0, ownerReg := Some(r0), epoch := 1, live := {0}, lines := [InstalledLine(r0)],
                           candidate := Some(Candidate(1, r1, policy.preflightTimeout, false)));
    System(s, 2, {1}, map[])
  }

  lemma StagedClientLeavesFirst(policy: Policy, r0: Registration, r1: Registration)
    requires UsableBy(r0, 0) && UsableBy(r1, 1) && !policy.blockRegistration
    ensures Reachable(StagedAndGone(policy, r0, r1))
  {
    var y := TwoClients(policy);
    TwoClientsArrive(policy);
    UnownedDeviceIsClaimedByNextRegistration(y.s, 0, r0, 0);
    ReachableStep(y, Register(0, r0, 0, true));
    var owned := Next(y, Register(0, r0, 0, true));
    StrangerIsStaged(owned.s, 1, r1, 0, true);
    ReachableStep(owned, Register(1, r1, 0, true));
    var staged := Next(owned, Register(1, r1, 0, true));
    ReachableStep(staged, Leave(1, 0, true, true));
    assert Next(staged, Leave(1, 0, true, true)) == StagedAndGone(policy, r0, r1) by {
      assert {0, 1} - {1} == {0} && [] + [InstalledLine(r0)] == [InstalledLine(r0)];
    }
  }

  /** The owner's connection ends and a connection that is not there becomes owner. */
  ghost predicate PromotesTheDead(y: System, a: Step) {
    && Enabled(y, a) && a.Leave? && a.id == y.s.owner
    && After(y, a).owner != NO_OWNER && After(y, a).owner !in After(y, a).live
  }

  lemma ReachableIsSound(y: System)
    requires Reachable(y)
    ensures Inv(y)
  {
    var ys, steps :| Run(ys, steps) && ys[|ys| - 1] == y;
    var policy :| ys[0] == System(Boot(policy), 0, {}, map[]);
    BootIsFine(policy);
    PathKeepsInv(ys, steps, |ys| - 1);
  }

  /** It does happen: the owner never published memory and the staged candidate left before it. */
  lemma DeadCandidateCanBePromoted()
    ensures exists y, a :: Reachable(y) && PromotesTheDead(y, a)
  {
    var policy := Policy(5000, 2000, true, true, true, false, false);
    var r0 := Registration(MSIX_IRQ_INDEX, 0, 0, 1, [Fd(7, true)], 0);
    var r1 := Registration(MSIX_IRQ_INDEX, 0, 0, 1, [Fd(8, true)], 1);
    StagedClientLeavesFirst(policy, r0, r1);
    var y, a := StagedAndGone(policy, r0, r1), Leave(0, 10, true, true);
    ReachableIsSound(y);
    assert r1.fds == [Fd(8, true)];
    assert Promotes(y.s, 0, true, true);
    DeadSuccessorExactly(y, a);
    assert PromotesTheDead(y, a);
  }

  /** While nobody owns the device, the next valid registration claims it and installs its line. */
  lemma UnownedDeviceIsClaimedByNextRegistration(s: State, id: ConnId, reg: Registration, now: nat)
    requires RolesMatch(s) && s.owner == NO_OWNER && reg.sender == id && id != NO_OWNER
    requires reg.fds != [] && ValidIrqRequest(reg.index, reg.count)
    ensures var r := SetIrqs(s, id, reg, now, true);
      && r.reply == Accepted && r.state.owner == id && LineOf(r.state) == LineFor(reg)
      && r.state.epoch == s.epoch + 1
  {
  }

  /** The owner may register again at any time: line and record follow, nothing else moves. */
  lemma OwnerReregistersInPlace(s: State, id: ConnId, reg: Registration, now: nat)
    requires s.owner == id && id != NO_OWNER && reg.sender == id && reg.fds != []
    requires ValidIrqRequest(reg.index, reg.count)
    ensures var r := SetIrqs(s, id, reg, now, true);
      && r.reply == Accepted
      && LineOf(r.state) == LineFor(reg) && r.state.ownerReg == Some(reg)
      && r.state.(lines := s.lines, ownerReg := s.ownerReg, candidate := s.candidate) == s
  {
  }

  /**
   * A second client is staged: it replaces whoever was staged, gets a fresh window, and stays ready only
   * if it was already the ready candidate. It is answered at once unless its answer waits for a controller,
   * and refused at once if there is no time to wait.
   */
  lemma StrangerIsStaged(s: State, id: ConnId, reg: Registration, now: nat, installs: bool)
    requires s.owner != NO_OWNER && s.owner != id && reg.sender == id
    requires reg.fds != [] && ValidIrqRequest(reg.index, reg.count)
    ensures var r, until := SetIrqs(s, id, reg, now, installs), now + s.policy.preflightTimeout;
      var ready := s.candidate.Some? && s.candidate.value.id ==
        id && s.candidate.value.ready && now <= s.candidate.value.deadline;
      && r.state.(candidate := s.candidate) == s
      && if DefersDma(s) && s.policy.preflightTimeout == 0
         then r.state.candidate.None? && r.reply == Rejected
         else r.state.candidate == Some(Candidate(id, reg, until, ready))
              && r.reply == if DefersDma(s) then Parked(until) else Accepted
  {
  }

  /** A malformed registration with descriptors is rejected and changes nothing but an expired candidate. */
  lemma MalformedRegistrationIsRejected(s: State, id: ConnId, reg: Registration, now: nat, installs: bool)
    requires reg.sender == id && reg.fds != [] && !ValidIrqRequest(reg.index, reg.count)
    ensures SetIrqs(s, id, reg, now, installs) == IrqAnswer(Expire(s, now), Rejected)
  {
  }

  // ---------------------------------------------------------------------
  // Commits and refusals
  // ---------------------------------------------------------------------

  /** The commit moved the device. */
  ghost predicate Moves(s: State, id: ConnId, epoch: nat, now: nat, installs: bool) {
    Commit(s, id, epoch, now, installs).state.epoch != s.epoch
  }

  /** Any refusal leaves the ownership and the line alone; a preflight refusal keeps the candidate too. */
  lemma RefusedCommitChangesNothing(s: State, id: ConnId, epoch: nat, now: nat, installs: bool)
    requires Commit(s, id, epoch, now, installs).outcome.Failure?
    ensures var t := Commit(s, id, epoch, now, installs);
      && t.state.(candidate := s.candidate) == s
      && (t.outcome.error != BackendError && s.candidate.Some? && now <= s.candidate.value.deadline ==>
            t.state == s)
      && (t.outcome.error == BackendError ==> t.state.candidate.None?)
  {
  }

  lemma RefusedReclaimChangesNothing(s: State, id: ConnId, epoch: nat, now: nat, installs: bool)
    requires Reclaim(s, id, epoch, now, installs).outcome.Failure?
    ensures Reclaim(s, id, epoch, now, installs).state == Expire(s, now)
  {
  }

  /** Readiness is accepted exactly from the staged connection while its window is open, and touches nothing else. */
  lemma ReadyMarksExactly(s: State, id: ConnId, now: nat)
    ensures var r := Ready(s, id, now);
      && (r.outcome.Success? <==> s.candidate.Some? && s.candidate.value.id == id && now <= s.candidate.value.deadline)
      && (r.outcome.Success? ==> r.state == s.(candidate := Some(s.candidate.value.(ready := true))))
      && (r.outcome == Failure(PreflightTimeout) <==>
            s.candidate.Some? && s.candidate.value.id == id && s.candidate.value.deadline < now)
      && r.state.(candidate := s.candidate) == s
  {
  }

  /** Aborting works exactly on the staged connection while its window is open, and the incumbent keeps everything. */
  lemma AbortDropsExactly(s: State, id: ConnId, now: nat)
    ensures var r := Abort(s, id, now);
      && (r.outcome.Success? <==> s.candidate.Some? && s.candidate.value.id == id && now <= s.candidate.value.deadline)
      && (r.outcome.Success? ==> r.state == s.(candidate := None))
      && (r.outcome == Failure(WrongCandidate) <==>
            s.candidate.Some? && s.candidate.value.id != id && now <= s.candidate.value.deadline)
      && r.state.(candidate := s.candidate) == s
  {
  }

  // ---------------------------------------------------------------------
  // Mapping and unmapping
  // ---------------------------------------------------------------------

  /** An accepted mapping is published for its connection alone; a refused one changes nothing. */
  lemma MapPublishes(s: State, id: ConnId, address: nat, size: nat, accepted: bool)
    requires Mappable(s.segments)
    ensures var (t, ok) := DmaMap(s, id, address, size, accepted);
      && (ok <==> accepted && address + size <= 0xFFFF_FFFF_FFFF_FFFF
                  && forall g | g in s.segments && g.start != address ::
                       DmaBus.Apart(g, Segment(address, Device(id, size))))
      && (!ok ==> t == s)
      && (ok ==> RangesOf(t, id) == RangesOf(s, id) + [Range(address, size)])
      && (ok ==> Segment(address, Device(id, size)) in t.segments)
      && (forall x | x != id :: RangesOf(t, x) == RangesOf(s, x))
  {
    UpsertIsMappable(s.segments, address, Device(id, size));
  }

  lemma {:induction false} DropAppended(ranges: seq<Range>, r: Range)
    requires r !in ranges
    ensures DropRange(ranges + [r], r) == ranges
  {
    if ranges != [] {
      assert (ranges + [r])[1..] == ranges[1..] + [r];
      DropAppended(ranges[1..], r);
    }
  }

  /**
   * Unmapping a range that was just mapped where nothing started before restores the bus and what every
   * connection has published, for the owner and for anybody while nobody owns the device.
   */
  lemma UnmapUndoesMap(s: State, id: ConnId, address: nat, size: nat)
    requires !IsStale(s, id) && 0 < size && DmaMap(s, id, address, size, true).1
    requires forall g | g in s.segments :: g.start < address || address + size <= g.start
    requires Range(address, size) !in RangesOf(s, id)
    ensures var t := DmaUnmap(DmaMap(s, id, address, size, true).0, id, address, size);
      && t.segments == s.segments
      && (forall x :: RangesOf(t, x) == RangesOf(s, x))
      && t.(segments := s.segments, mapped := s.mapped) == s
  {
    WithoutUndoesUpsert(s.segments, address, Device(id, size));
    DropAppended(RangesOf(s, id), Range(address, size));
  }

  /** What the preflight of a commit that moved the device had established. */
  lemma MovingCommitWasChecked(s: State, id: ConnId, epoch: nat, now: nat, installs: bool)
    requires RolesMatch(s) && Moves(s, id, epoch, now, installs)
    ensures Commit(s, id, epoch, now, installs).outcome.Success? && epoch == s.epoch && installs
    ensures s.candidate.Some? && s.ownerReg.Some?
    ensures var cand := s.candidate.value;
      && cand.id == id && now <= cand.deadline
      && (s.policy.requireReady ==> cand.ready)
      && SameVector(cand.reg, s.ownerReg.value)
      && (forall fd | fd in cand.reg.fds :: fd.isEventFd)
      && !(s.policy.requireDevice && s.deviceCount == Some(0))
      && (!DefersDma(s) ==> RangesCover(RangesOf(s, id), RangesOf(s, s.owner)))
  {
  }

  /** The state a moving commit leaves behind. */
  lemma MovingCommitInstallsCandidate(s: State, id: ConnId, epoch: nat, now: nat, installs: bool)
    requires RolesMatch(s) && Moves(s, id, epoch, now, installs)
    ensures var t := Commit(s, id, epoch, now, installs).state;
      && t.owner == id && t.ownerReg == Some(s.candidate.value.reg) && LineOf(t) == LineFor(s.candidate.value.reg)
      && t.prev == s.owner && t.prevReg == s.ownerReg && t.candidate == None
      && t.epoch == s.epoch + 1 && t.committedAt == Some(now)
  {
  }
}
