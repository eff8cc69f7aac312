/** What the hand-over guarantees about whole runs: epochs fence decisions, and every move has a history. */
module HandoverHistory {
  import opened HandoverSafety
  import opened HandoverSystem
  import opened Ownership
  import opened Wrappers

  // ---------------------------------------------------------------------
  // Epoch fencing
  // ---------------------------------------------------------------------

  /** The roles an epoch stands for. */
  ghost predicate SameRoles(s: State, t: State) {
    t.owner == s.owner && t.prev == s.prev && t.prevReg == s.prevReg && t.committedAt == s.committedAt
  }

  ghost predicate Fenced(s: State, t: State) {
    && t.policy == s.policy
    && (t.epoch == s.epoch + 1 || (t.epoch == s.epoch && SameRoles(s, t)))
  }

  lemma DisconnectIsFenced(s: State, id: ConnId, now: nat, reclaim: bool, promote: bool)
    ensures Fenced(s, Disconnect(s, id, now, reclaim, promote))
  {
  }

  lemma CommitIsFenced(s: State, id: ConnId, epoch: nat, now: nat, installs: bool)
    ensures Fenced(s, Commit(s, id, epoch, now, installs).state)
  {
  }

  lemma ReclaimIsFenced(s: State, id: ConnId, epoch: nat, now: nat, installs: bool)
    ensures Fenced(s, Reclaim(s, id, epoch, now, installs).state)
  {
  }

  lemma SetIrqsIsFenced(s: State, id: ConnId, reg: Registration, now: nat, installs: bool)
    requires reg.sender == id
    ensures Fenced(s, SetIrqs(s, id, reg, now, installs).state)
  {
  }

  /** Owner, previous owner and its registration move only together with the epoch, one at a time. */
  lemma StepIsFenced(y: System, a: Step)
    requires Enabled(y, a)
    ensures Fenced(y.s, After(y, a))
  {
    match a
    case Register(id, reg, now, duplicates) => SetIrqsIsFenced(y.s, id, reg, now, duplicates);
    case Leave(id, now, reclaim, promote) => DisconnectIsFenced(y.s, id, now, reclaim, promote);
    case CommitTo(conn, epoch, now, duplicates) => CommitIsFenced(y.s, conn, epoch, now, duplicates);
    case ReclaimFor(conn, epoch, now, duplicates) => ReclaimIsFenced(y.s, conn, epoch, now, duplicates);
    case _ =>
  }

  /** Along any run the epoch never falls, and as long as it stands still nobody changes role. */
  lemma {:induction false} EpochFencesRoles(ys: seq<System>, steps: seq<Step>, i: nat, j: nat)
    requires Path(ys, steps) && i <= j < |ys|
    ensures ys[i].s.epoch <= ys[j].s.epoch && ys[j].s.policy == ys[i].s.policy
    ensures ys[i].s.epoch == ys[j].s.epoch ==> SameRoles(ys[i].s, ys[j].s)
    decreases j
  {
    if i < j {
      EpochFencesRoles(ys, steps, i, j - 1);
      PathStep(ys, steps, j - 1);
      StepIsFenced(ys[j - 1], steps[j - 1]);
    }
  }

  /**
   * A commit that moves the device acts on exactly the owner and previous owner that the
   * status reply carrying its epoch had shown.
   */
  lemma CommitActsOnObservedOwner(ys: seq<System>, steps: seq<Step>, i: nat, k: nat)
    requires Path(ys, steps) && Inv(ys[0]) && i <= k < |steps|
    requires steps[k].CommitTo? && steps[k].epoch == StatusOf(ys[i].s).epoch
    requires Moves(ys[k].s, steps[k].conn, steps[k].epoch, steps[k].now, steps[k].duplicates)
    ensures var t := ys[k + 1].s;
      && Known(t.prev) == StatusOf(ys[i].s).owner
      && Known(ys[k].s.prev) == StatusOf(ys[i].s).prev
      && t.owner == steps[k].conn
  {
    var a := steps[k];
    PathKeepsInv(ys, steps, k);
    MovingCommitWasChecked(ys[k].s, a.conn, a.epoch, a.now, a.duplicates);
    MovingCommitInstallsCandidate(ys[k].s, a.conn, a.epoch, a.now, a.duplicates);
    EpochFencesRoles(ys, steps, i, k);
    PathStep(ys, steps, k);
  }

  /** The same for a reclaim that took effect. */
  lemma ReclaimActsOnObservedRoles(ys: seq<System>, steps: seq<Step>, i: nat, k: nat)
    requires Path(ys, steps) && i <= k < |steps|
    requires steps[k].ReclaimFor? && steps[k].epoch == StatusOf(ys[i].s).epoch
    requires Reclaim(ys[k].s, steps[k].conn, steps[k].epoch, steps[k].now, steps[k].duplicates).outcome.Success?
    ensures Known(ys[k + 1].s.owner) == StatusOf(ys[i].s).prev && ys[k].s.owner == ys[i].s.owner
  {
    EpochFencesRoles(ys, steps, i, k);
    PathStep(ys, steps, k);
  }

  /** Repeating a commit that moved the device, with nothing staged since, is answered yes and changes nothing. */
  lemma RepeatedCommitIsIdempotent(ys: seq<System>, steps: seq<Step>, k: nat, j: nat, now: nat, installs: bool)
    requires Path(ys, steps) && Inv(ys[0]) && k < |steps| && k < j < |ys|
    requires steps[k].CommitTo?
    requires Moves(ys[k].s, steps[k].conn, steps[k].epoch, steps[k].now, steps[k].duplicates)
    requires ys[j].s.epoch == ys[k + 1].s.epoch && ys[j].s.candidate.None?
    ensures Commit(ys[j].s, steps[k].conn, steps[k].epoch, now, installs) == Answer(ys[j].s, Success(()))
  {
    var a := steps[k];
    PathKeepsInv(ys, steps, k);
    MovingCommitWasChecked(ys[k].s, a.conn, a.epoch, a.now, a.duplicates);
    MovingCommitInstallsCandidate(ys[k].s, a.conn, a.epoch, a.now, a.duplicates);
    PathStep(ys, steps, k);
    EpochFencesRoles(ys, steps, k + 1, j);
  }

  // ---------------------------------------------------------------------
  // Commit, then reclaim
  // ---------------------------------------------------------------------

  /**
   * However many connections come, go, register, stage and abort in between: as long as the
   * epoch stands still, a reclaim undoes the commit, and it works exactly while the previous
   * owner is connected, its lease runs and its descriptors can be duplicated.
   */
  lemma ReclaimUndoesCommit(ys: seq<System>, steps: seq<Step>, k: nat, j: nat)
    requires Path(ys, steps) && Inv(ys[0]) && k < j < |steps|
    requires steps[k].CommitTo?
    requires Moves(ys[k].s, steps[k].conn, steps[k].epoch, steps[k].now, steps[k].duplicates)
    requires steps[j].ReclaimFor? && steps[j].conn == ys[k].s.owner && steps[j].epoch == ys[k + 1].s.epoch
    requires ys[j].s.epoch == ys[k + 1].s.epoch
    ensures var before, after, a := ys[k].s, ys[j + 1].s, steps[j];
      var outcome := Reclaim(ys[j].s, a.conn, a.epoch, a.now, a.duplicates).outcome;
      && (outcome.Success? <==>
            before.owner in ys[j].s.live
            && Elapsed(steps[k].now, a.now) <= before.policy.lease
            && a.duplicates)
      && (outcome.Success? ==>
            && after.owner == before.owner
            && after.ownerReg == before.ownerReg && before.ownerReg.Some?
            && before.ownerReg.value.fds != []
            && LineOf(after) == LineFor(before.ownerReg.value)
            && after.prev == NO_OWNER
            && after.epoch == before.epoch + 2)
  {
    var c := steps[k];
    PathKeepsInv(ys, steps, k);
    MovingCommitWasChecked(ys[k].s, c.conn, c.epoch, c.now, c.duplicates);
    MovingCommitInstallsCandidate(ys[k].s, c.conn, c.epoch, c.now, c.duplicates);
    PathStep(ys, steps, k);
    EpochFencesRoles(ys, steps, k, k + 1);
    EpochFencesRoles(ys, steps, k + 1, j);
    PathKeepsInv(ys, steps, j);
    PathStep(ys, steps, j);
  }

  // ---------------------------------------------------------------------
  // The history behind a candidate
  // ---------------------------------------------------------------------

  /** The time of a step that drops an expired candidate before anything else. */
  function Clock(a: Step): Option<nat> {
    match a
    case Register(_, _, now, _) => Some(now)
    case DeclareReady(_, now) => Some(now)
    case DropCandidate(_, now) => Some(now)
    case CommitTo(_, _, now, _) => Some(now)
    case ReclaimFor(_, _, now, _) => Some(now)
    case AskStatus(now) => Some(now)
    case _ => None
  }

  /** The step does not find the staged candidate expired. */
  predicate WithinWindow(y: System, a: Step) {
    Clock(a).Some? && y.s.candidate.Some? ==> Clock(a).value <= y.s.candidate.value.deadline
  }

  predicate IsCandidate(s: State, id: ConnId) { s.candidate.Some? && s.candidate.value.id == id }

  /**
   * The same connection is the candidate in every state after `from`, up to `upTo`, and no step in between
   * finds it expired.
   */
  ghost predicate UnbrokenCandidacy(ys: seq<System>, steps: seq<Step>, from: nat, upTo: nat, id: ConnId)
    requires upTo < |ys| && upTo <= |steps|
  {
    && (forall m | from < m <= upTo :: IsCandidate(ys[m].s, id))
    && (forall m | from < m < upTo :: WithinWindow(ys[m], steps[m]))
  }

  /** Step `m` is a registration by `id` that staged `reg`. */
  ghost predicate Registered(steps: seq<Step>, m: nat, id: ConnId, reg: Registration)
    requires m < |steps|
  {
    steps[m].Register? && steps[m].id == id && steps[m].reg == reg
  }

  /** Step `m` declares the staged, unexpired candidate `id` ready. */
  ghost predicate DeclaredReady(ys: seq<System>, steps: seq<Step>, m: nat, id: ConnId)
    requires m < |steps| && m < |ys|
  {
    && steps[m].DeclareReady? && steps[m].conn == id
    && ys[m].s.candidate.Some? && ys[m].s.candidate.value.id == id
    && steps[m].now <= ys[m].s.candidate.value.deadline
  }

  /** The candidate `c` of state `s` is the one of state `t`, readiness aside. */
  predicate SameCandidate(s: State, t: State) {
    && s.candidate.Some? && t.candidate.Some?
    && s.candidate.value.id == t.candidate.value.id && s.candidate.value.reg == t.candidate.value.reg
  }

  lemma RegisteringStages(s: State, id: ConnId, reg: Registration, now: nat, installs: bool)
    requires reg.sender == id && SetIrqs(s, id, reg, now, installs).state.candidate.Some?
    ensures var t := SetIrqs(s, id, reg, now, installs).state;
      (t.candidate.value.id == id && t.candidate.value.reg == reg)
        || (t.candidate == s.candidate && Expired(s, now).None?)
  {
  }

  lemma LeavingStagesNobody(s: State, id: ConnId, now: nat, reclaim: bool, promote: bool)
    requires Disconnect(s, id, now, reclaim, promote).candidate.Some?
    ensures Disconnect(s, id, now, reclaim, promote).candidate == s.candidate
  {
  }

  lemma DecidingStagesNobody(s: State, id: ConnId, epoch: nat, now: nat, installs: bool)
    ensures var t := Commit(s, id, epoch, now, installs).state;
      t.candidate.Some? ==> t.candidate == s.candidate && Expired(s, now).None?
    ensures var t := Reclaim(s, id, epoch, now, installs).state;
      t.candidate.Some? ==> t.candidate == s.candidate && Expired(s, now).None?
  {
  }

  /** A step either is the registration that stages the candidate, or keeps the one that was there, unexpired. */
  lemma CandidateComesFrom(y: System, a: Step)
    requires Enabled(y, a) && After(y, a).candidate.Some?
    ensures var c := After(y, a).candidate.value;
      (a.Register? && a.id == c.id && a.reg == c.reg) || (SameCandidate(y.s, After(y, a)) && WithinWindow(y, a))
  {
    match a
    case Register(id, reg, now, duplicates) => RegisteringStages(y.s, id, reg, now, duplicates);
    case Leave(id, now, reclaim, promote) => LeavingStagesNobody(y.s, id, now, reclaim, promote);
    case CommitTo(conn, epoch, now, duplicates) => DecidingStagesNobody(y.s, conn, epoch, now, duplicates);
    case ReclaimFor(conn, epoch, now, duplicates) => DecidingStagesNobody(y.s, conn, epoch, now, duplicates);
    case _ =>
  }

  lemma {:induction false} CandidateWasRegistered(ys: seq<System>, steps: seq<Step>, k: nat) returns (r: nat)
    requires Run(ys, steps) && k < |ys| && ys[k].s.candidate.Some?
    ensures r < k <= |steps|
    ensures Registered(steps, r, ys[k].s.candidate.value.id, ys[k].s.candidate.value.reg)
    ensures UnbrokenCandidacy(ys, steps, r, k, ys[k].s.candidate.value.id)
    decreases k
  {
    var c := ys[k].s.candidate.value;
    var y, a := ys[k - 1], steps[k - 1];
    PathStep(ys, steps, k - 1);
    CandidateComesFrom(y, a);
    if a.Register? && a.id == c.id && a.reg == c.reg {
      r := k - 1;
    } else {
      r := CandidateWasRegistered(ys, steps, k - 1);
    }
  }

  /** The candidate of `t` carries the readiness of an unexpired candidate of `s`, or was just declared ready. */
  lemma RegisteringKeepsReadiness(s: State, id: ConnId, reg: Registration, now: nat, installs: bool, who: ConnId)
    requires reg.sender == id && IsCandidate(SetIrqs(s, id, reg, now, installs).state, who)
    ensures var t := SetIrqs(s, id, reg, now, installs).state;
      t.candidate.value.ready <==> IsCandidate(s, who) && s.candidate.value.ready && now <= s.candidate.value.deadline
  {
    if s.owner != NO_OWNER && s.owner != id && reg.fds != [] && ValidIrqRequest(reg.index, reg.count) {
      StrangerIsStaged(s, id, reg, now, installs);
    } else {
      RegisteringStages(s, id, reg, now, installs);
    }
  }

  /** From one state to the next a candidate is ready exactly if it was, unexpired, or is declared so by this step. */
  lemma ReadinessFollows(y: System, a: Step, id: ConnId)
    requires Enabled(y, a) && IsCandidate(After(y, a), id)
    ensures After(y, a).candidate.value.ready <==>
      && IsCandidate(y.s, id) && WithinWindow(y, a)
      && (y.s.candidate.value.ready || a == DeclareReady(id, if a.DeclareReady? then a.now else 0))
  {
    match a
    case Register(conn, reg, now, duplicates) => RegisteringKeepsReadiness(y.s, conn, reg, now, duplicates, id);
    case Leave(conn, now, reclaim, promote) => LeavingStagesNobody(y.s, conn, now, reclaim, promote);
    case CommitTo(conn, epoch, now, duplicates) => DecidingStagesNobody(y.s, conn, epoch, now, duplicates);
    case ReclaimFor(conn, epoch, now, duplicates) => DecidingStagesNobody(y.s, conn, epoch, now, duplicates);
    case DeclareReady(conn, now) => ReadyMarksExactly(y.s, conn, now);
    case _ =>
  }

  lemma {:induction false} ReadyWasDeclared(ys: seq<System>, steps: seq<Step>, k: nat) returns (d: nat)
    requires Run(ys, steps) && k < |ys|
    requires ys[k].s.candidate.Some? && ys[k].s.candidate.value.ready
    ensures d < k <= |steps| && DeclaredReady(ys, steps, d, ys[k].s.candidate.value.id)
    ensures UnbrokenCandidacy(ys, steps, d, k, ys[k].s.candidate.value.id)
    decreases k
  {
    PathStep(ys, steps, k - 1);
    ReadinessFollows(ys[k - 1], steps[k - 1], ys[k].s.candidate.value.id);
    if ys[k - 1].s.candidate.value.ready {
      d := ReadyWasDeclared(ys, steps, k - 1);
    } else {
      d := k - 1;
    }
  }

  lemma {:induction false} DeclaredStaysReady(ys: seq<System>, steps: seq<Step>, d: nat, k: nat, id: ConnId)
    requires Path(ys, steps) && d < k < |ys| && DeclaredReady(ys, steps, d, id)
    requires UnbrokenCandidacy(ys, steps, d, k, id)
    ensures ys[k].s.candidate.value.ready
    decreases k
  {
    assert IsCandidate(ys[k].s, id);
    PathStep(ys, steps, k - 1);
    ReadinessFollows(ys[k - 1], steps[k - 1], id);
    if d < k - 1 {
      assert IsCandidate(ys[k - 1].s, id) && WithinWindow(ys[k - 1], steps[k - 1]);
      DeclaredStaysReady(ys, steps, d, k - 1, id);
    }
  }

  /**
   * In every run a candidate is ready if and only if it was declared ready during this very candidacy:
   * the declaration found it staged and unexpired, and no step since replaced, dropped or expired it,
   * however often it registered again.
   */
  lemma ReadyExactlyWhenDeclared(ys: seq<System>, steps: seq<Step>, k: nat, id: ConnId)
    requires Run(ys, steps) && k < |ys| && IsCandidate(ys[k].s, id)
    ensures ys[k].s.candidate.value.ready <==>
      exists d: nat :: d < k && DeclaredReady(ys, steps, d, id) && UnbrokenCandidacy(ys, steps, d, k, id)
  {
    if ys[k].s.candidate.value.ready {
      var d := ReadyWasDeclared(ys, steps, k);
      assert DeclaredReady(ys, steps, d, id);
    }
    if d: nat :| d < k && DeclaredReady(ys, steps, d, id) && UnbrokenCandidacy(ys, steps, d, k, id) {
      DeclaredStaysReady(ys, steps, d, k, id);
    }
  }

  /**
   * Behind every commit that moved the device: the named connection sent the registration that
   * is now installed and stayed the candidate ever since, never expired; it was declared ready
   * within that same unbroken and unexpired candidacy if readiness is required; it uses the
   * owner's vector; and it covers what the owner published unless that check was deferred.
   */
  lemma MovingCommitHasHistory(ys: seq<System>, steps: seq<Step>, k: nat)
    requires Run(ys, steps) && k < |steps| && steps[k].CommitTo?
    requires Moves(ys[k].s, steps[k].conn, steps[k].epoch, steps[k].now, steps[k].duplicates)
    ensures var s, id := ys[k].s, steps[k].conn;
      && ys[k + 1].s.owner == id
      && (exists r: nat :: r < k && UnbrokenCandidacy(ys, steps, r, k, id)
            && ys[k + 1].s.ownerReg.Some? && Registered(steps, r, id, ys[k + 1].s.ownerReg.value))
      && s.candidate.Some? && steps[k].now <= s.candidate.value.deadline
      && (s.policy.requireReady ==>
            exists d: nat :: d < k && DeclaredReady(ys, steps, d, id) && UnbrokenCandidacy(ys, steps, d, k, id))
      && s.ownerReg.Some? && SameVector(s.candidate.value.reg, s.ownerReg.value)
      && (!DefersDma(s) ==> RangesCover(RangesOf(s, id), RangesOf(s, s.owner)))
  {
    var s, a := ys[k].s, steps[k];
    var policy :| ys[0] == System(Boot(policy), 0, {}, map[]);
    BootIsFine(policy);
    PathKeepsInv(ys, steps, k);
    MovingCommitWasChecked(s, a.conn, a.epoch, a.now, a.duplicates);
    MovingCommitInstallsCandidate(s, a.conn, a.epoch, a.now, a.duplicates);
    PathStep(ys, steps, k);
    var r := CandidateWasRegistered(ys, steps, k);
    assert Registered(steps, r, a.conn, ys[k + 1].s.ownerReg.value);
    if s.policy.requireReady { ReadyExactlyWhenDeclared(ys, steps, k, a.conn); }
  }

  /** After an accepted abort no commit hands the device to that connection unless it registered again since. */
  lemma AbortedNeedsNewRegistration(ys: seq<System>, steps: seq<Step>, k: nat, j: nat)
    requires Run(ys, steps) && k < j < |steps| && steps[k].DropCandidate? && steps[j].CommitTo?
    requires steps[j].conn == steps[k].conn
    requires Abort(ys[k].s, steps[k].conn, steps[k].now).outcome.Success?
    requires Moves(ys[j].s, steps[j].conn, steps[j].epoch, steps[j].now, steps[j].duplicates)
    ensures exists r: nat :: k < r < j && Registered(steps, r, steps[k].conn, ys[j].s.candidate.value.reg)
  {
    var policy :| ys[0] == System(Boot(policy), 0, {}, map[]);
    BootIsFine(policy);
    PathKeepsInv(ys, steps, j);
    MovingCommitWasChecked(ys[j].s, steps[j].conn, steps[j].epoch, steps[j].now, steps[j].duplicates);
    PathStep(ys, steps, k);
    AbortDropsExactly(ys[k].s, steps[k].conn, steps[k].now);
    var r := CandidateWasRegistered(ys, steps, j);
    assert r <= k ==> IsCandidate(ys[k + 1].s, steps[j].conn);
    assert Registered(steps, r, steps[k].conn, ys[j].s.candidate.value.reg);
  }

  // ---------------------------------------------------------------------
  // What stays installed, and what refusals leave alone
  // ---------------------------------------------------------------------

  lemma RegistrationFencesLine(s: State, id: ConnId, reg: Registration, now: nat, installs: bool)
    requires reg.sender == id && id != s.owner
    ensures var t := SetIrqs(s, id, reg, now, installs).state;
      t.epoch == s.epoch ==> t.lines == s.lines && t.ownerReg == s.ownerReg
  {
  }

  lemma DecisionFencesLine(s: State, id: ConnId, epoch: nat, now: nat, installs: bool)
    ensures var t := Commit(s, id, epoch, now, installs).state;
      t.epoch == s.epoch ==> t.lines == s.lines && t.ownerReg == s.ownerReg
    ensures var t := Reclaim(s, id, epoch, now, installs).state;
      t.epoch == s.epoch ==> t.lines == s.lines && t.ownerReg == s.ownerReg
  {
  }

  lemma LeavingFencesLine(s: State, id: ConnId, now: nat, reclaim: bool, promote: bool)
    ensures var t := Disconnect(s, id, now, reclaim, promote);
      t.epoch == s.epoch ==> t.lines == s.lines && t.ownerReg == s.ownerReg
  {
  }

  /** While the epoch stands still, only the owner's own registrations move the line and the record of it. */
  lemma LineIsFenced(y: System, a: Step)
    requires Enabled(y, a) && After(y, a).epoch == y.s.epoch && !(a.Register? && a.id == y.s.owner)
    ensures After(y, a).lines == y.s.lines && After(y, a).ownerReg == y.s.ownerReg
  {
    match a
    case Register(id, reg, now, duplicates) => RegistrationFencesLine(y.s, id, reg, now, duplicates);
    case Leave(id, now, reclaim, promote) => LeavingFencesLine(y.s, id, now, reclaim, promote);
    case CommitTo(conn, epoch, now, duplicates) => DecisionFencesLine(y.s, conn, epoch, now, duplicates);
    case ReclaimFor(conn, epoch, now, duplicates) => DecisionFencesLine(y.s, conn, epoch, now, duplicates);
    case _ =>
  }

  /** Step `k` is a registration with descriptors that was accepted and left its sender the owner. */
  ghost predicate TookEffect(ys: seq<System>, steps: seq<Step>, k: nat)
    requires Path(ys, steps) && k < |steps|
  {
    && steps[k].Register? && steps[k].reg.fds != [] && ys[k + 1].s.owner == steps[k].id && steps[k].id != NO_OWNER
    && StepAt(ys, steps, k) && Reply(ys[k], steps[k]) == Some(Accepted)
  }

  lemma EffectOfRegistration(ys: seq<System>, steps: seq<Step>, k: nat)
    requires Path(ys, steps) && Inv(ys[0]) && k < |steps| && TookEffect(ys, steps, k)
    ensures LineOf(ys[k + 1].s) == LineFor(steps[k].reg) && ys[k + 1].s.ownerReg == Some(steps[k].reg)
  {
    var s, a := ys[k].s, steps[k];
    PathKeepsInv(ys, steps, k);
    PathStep(ys, steps, k);
    if s.owner == NO_OWNER {
      UnownedDeviceIsClaimedByNextRegistration(s, a.id, a.reg, a.now);
    } else if s.owner == a.id {
      OwnerReregistersInPlace(s, a.id, a.reg, a.now);
    } else {
      StrangersRegistrationIsOnlyStaged(s, a.id, a.reg, a.now, a.duplicates);
    }
  }

  /**
   * What an owner registered stays installed, whatever anybody else does, until it registers again or
   * the epoch moves.
   */
  lemma {:induction false} RegisteredLineStays(ys: seq<System>, steps: seq<Step>, k: nat, j: nat)
    requires Path(ys, steps) && Inv(ys[0]) && k < j < |ys| && TookEffect(ys, steps, k)
    requires ys[j].s.epoch == ys[k + 1].s.epoch
    requires forall m | k < m < j :: !(steps[m].Register? && steps[m].id == steps[k].id)
    ensures ys[j].s.owner == steps[k].id
    ensures LineOf(ys[j].s) == LineFor(steps[k].reg) && ys[j].s.ownerReg == Some(steps[k].reg)
    decreases j
  {
    if j == k + 1 {
      EffectOfRegistration(ys, steps, k);
    } else {
      EpochFencesRoles(ys, steps, k + 1, j - 1);
      EpochFencesRoles(ys, steps, j - 1, j);
      RegisteredLineStays(ys, steps, k, j - 1);
      PathStep(ys, steps, j - 1);
      LineIsFenced(ys[j - 1], steps[j - 1]);
    }
  }

  /** The outcome of a control command, and of a registration that is answered at once. */
  function Refusal(y: System, a: Step): bool
    requires Enabled(y, a)
  {
    match a
    case DeclareReady(conn, now) => Ready(y.s, conn, now).outcome.Failure?
    case DropCandidate(conn, now) => Abort(y.s, conn, now).outcome.Failure?
    case CommitTo(conn, epoch, now, duplicates) => Commit(y.s, conn, epoch, now, duplicates).outcome.Failure?
    case ReclaimFor(conn, epoch, now, duplicates) => Reclaim(y.s, conn, epoch, now, duplicates).outcome.Failure?
    case Register(id, reg, now, duplicates) => SetIrqs(y.s, id, reg, now, duplicates).reply == Rejected
    case _ => false
  }

  lemma RejectedRegistrationChangesNothing(s: State, id: ConnId, reg: Registration, now: nat, installs: bool)
    requires reg.sender == id && SetIrqs(s, id, reg, now, installs).reply == Rejected
    ensures var t := SetIrqs(s, id, reg, now, installs).state;
      && t.(candidate := s.candidate) == s
      && (t.candidate == Expire(s, now).candidate || (t.candidate.None? && s.policy.preflightTimeout == 0))
  {
    if reg.fds != [] && !ValidIrqRequest(reg.index, reg.count) {
      MalformedRegistrationIsRejected(s, id, reg, now, installs);
    } else if reg.fds != [] && s.owner != NO_OWNER && s.owner != id {
      StrangerIsStaged(s, id, reg, now, installs);
    }
  }

  /**
   * Whatever is refused changes nothing but the candidate; and that only by dropping one that expired,
   * failed to be installed by a commit, or had no time to wait in.
   */
  lemma RefusalsChangeNothing(y: System, a: Step)
    requires Enabled(y, a) && Refusal(y, a)
    ensures var t := After(y, a);
      && t.(candidate := y.s.candidate) == y.s
      && (t.candidate == y.s.candidate || t.candidate.None?)
      && (t.candidate.None? && y.s.candidate.Some? ==>
            || !WithinWindow(y, a)
            || (a.CommitTo? && Commit(y.s, a.conn, a.epoch, a.now, a.duplicates).outcome == Failure(BackendError))
            || (a.Register? && y.s.policy.preflightTimeout == 0))
  {
    match a
    case DeclareReady(conn, now) => ReadyMarksExactly(y.s, conn, now);
    case DropCandidate(conn, now) => AbortDropsExactly(y.s, conn, now);
    case CommitTo(conn, epoch, now, duplicates) => RefusedCommitChangesNothing(y.s, conn, epoch, now, duplicates);
    case ReclaimFor(conn, epoch, now, duplicates) => RefusedReclaimChangesNothing(y.s, conn, epoch, now, duplicates);
    case Register(id, reg, now, duplicates) => RejectedRegistrationChangesNothing(y.s, id, reg, now, duplicates);
  }

  /**
   * A watch that started in state `i` and is still unanswered after a look at state `k` has missed
   * nothing: the roles are the same, no candidate can be committed, and its time is not up.
   */
  lemma UnansweredWatchMissedNothing(ys: seq<System>, steps: seq<Step>, i: nat, k: nat, deadline: nat, now: nat)
    requires Path(ys, steps) && i <= k < |ys|
    requires WatchPoll(ys[k].s, ys[i].s.epoch, deadline, now).1.None?
    ensures SameRoles(ys[i].s, ys[k].s) && now < deadline
    ensures forall id, epoch, installs :: !Moves(ys[k].s, id, epoch, now, installs)
  {
    WatchAnswersWhenThereIsSomething(ys[k].s, ys[i].s.epoch, deadline, now);
    EpochFencesRoles(ys, steps, i, k);
  }

  // ---------------------------------------------------------------------
  // Parked registrations
  // ---------------------------------------------------------------------

  /** What the answer to a parked registration says about the state it was given in. */
  lemma ParkedAnswerIsTrue(y: System, a: Step)
    requires Enabled(y, a) && a.Look?
    ensures var t := After(y, a);
      match Reply(y, a).value
      case Accepted => y.s.owner == a.id && t == y.s
      case Rejected =>
        && y.s.owner != a.id && t.owner != a.id
        && !(t.candidate.Some? && t.candidate.value.id == a.id)
        && t.(candidate := y.s.candidate) == y.s
      case Parked(until) =>
        && until == y.parked[a.id] && a.now < until && t == y.s
        && t.candidate.Some? && t.candidate.value.id == a.id && t.owner != a.id
    ensures y.parked[a.id] <= a.now ==> !Reply(y, a).value.Parked?
    ensures a.id in Next(y, a).parked <==> Reply(y, a).value.Parked?
  {
  }

  /** A registration parks only while somebody else owns the device. */
  lemma ParkingIsForStrangers(y: System, a: Step)
    requires Enabled(y, a) && a.Register? && Reply(y, a).value.Parked?
    ensures y.s.owner != a.id && y.s.owner != NO_OWNER && y.s.policy.blockRegistration
    ensures After(y, a).owner == y.s.owner && After(y, a).lines == y.s.lines && After(y, a).epoch == y.s.epoch
    ensures a.now < Next(y, a).parked[a.id]
  {
  }

  /** An accepted parked registration was accepted because the device really moved while it waited. */
  lemma AcceptedParkedMeansMoved(ys: seq<System>, steps: seq<Step>, i: nat, k: nat)
    requires Path(ys, steps) && i < k < |steps|
    requires StepAt(ys, steps, i) && steps[i].Register? && Reply(ys[i], steps[i]).value.Parked?
    requires StepAt(ys, steps, k) && steps[k].Look? && steps[k].id == steps[i].id
    requires Reply(ys[k], steps[k]) == Some(Accepted)
    ensures ys[k].s.owner == steps[i].id && ys[i].s.epoch < ys[k].s.epoch
    ensures exists m: nat :: i < m < k && ys[m].s.owner != steps[i].id && ys[m + 1].s.owner == steps[i].id
                             && ys[m + 1].s.epoch == ys[m].s.epoch + 1
  {
    var id := steps[i].id;
    ParkingIsForStrangers(ys[i], steps[i]);
    PathStep(ys, steps, i);
    EpochFencesRoles(ys, steps, i + 1, k);
    var m := OwnershipArrives(ys, steps, id, i + 1, k);
  }

  lemma {:induction false} OwnershipArrives(ys: seq<System>, steps: seq<Step>, id: ConnId, from: nat, upTo: nat)
    returns (m: nat)
    requires Path(ys, steps) && from <= upTo < |ys|
    requires ys[from].s.owner != id && ys[upTo].s.owner == id
    ensures from <= m < upTo && ys[m].s.owner != id && ys[m + 1].s.owner == id
    ensures ys[m + 1].s.epoch == ys[m].s.epoch + 1
    decreases upTo
  {
    PathStep(ys, steps, upTo - 1);
    StepIsFenced(ys[upTo - 1], steps[upTo - 1]);
    if ys[upTo - 1].s.owner != id {
      m := upTo - 1;
    } else {
      m := OwnershipArrives(ys, steps, id, from, upTo - 1);
    }
  }

  /** A controller that watches is answered exactly when there is a candidate, a new epoch, or no time left. */
  lemma WatchAnswersWhenThereIsSomething(s: State, startEpoch: nat, deadline: nat, now: nat)
    ensures var r := WatchPoll(s, startEpoch, deadline, now);
      && (r.1.Some? <==>
            (s.candidate.Some? && now <= s.candidate.value.deadline) || s.epoch != startEpoch || deadline <= now)
      && (r.1.Some? ==> r.1 == Some(StatusOf(r.0)))
  {
  }
}
