/** The status line: what the server renders and what a controller reads out of it. */
module StatusWire {
  import opened Bytes
  import opened HandoverSystem
  import opened Ownership
  import opened Words
  import opened Wrappers

  function Id(v: Option<nat>): string { if v.Some? then Show(v.value) else "-" }

  function YesNo(b: bool): string { if b then "true" else "false" }

  /** The first element of a list with the punctuation behind it. */
  function Element(ids: seq<nat>): string
    requires ids != []
  {
    Show(ids[0]) + if |ids| == 1 then "]" else ","
  }

  /** The elements of a list after its opening bracket. */
  function Elements(ids: seq<nat>): string
    requires ids != []
  {
    Element(ids) + if |ids| == 1 then "" else " " + Elements(ids[1..])
  }

  function List(ids: seq<nat>): string { if ids == [] then "[]" else "[" + Elements(ids) }

  const FIELDS: nat := 12

  /** The fields before the list of connections, in their order on the line. */
  function FieldAt(s: HandoverStatus, k: nat): string
    requires k < FIELDS
  {
    if k == 0 then "owner=" + Id(s.owner)
    else if k == 1 then "prev=" + Id(s.prev)
    else if k == 2 then "candidate=" + Id(s.candidate)
    else if k == 3 then "epoch=" + Show(s.epoch)
    else if k == 4 then "ready=" + YesNo(s.candidateReady)
    else if k == 5 then "lease_ms=" + Show(s.leaseMs)
    else if k == 6 then "devices=" + Id(s.devices)
    else if k == 7 then "require_ready=" + YesNo(s.requireReady)
    else if k == 8 then "require_device=" + YesNo(s.requireDevice)
    else if k == 9 then "binding=" + YesNo(s.binding)
    else if k == 10 then "controller=" + YesNo(s.controller)
    else "deferred_a3=" + YesNo(s.deferredA3)
  }

  function Fields(s: HandoverStatus): (r: seq<string>)
    ensures |r| == FIELDS && forall k | 0 <= k < FIELDS :: r[k] == FieldAt(s, k)
  {
    seq<string>(FIELDS, k requires 0 <= k < FIELDS => FieldAt(s, k))
  }

  /** All fields with single spaces between them, the list of live connections last. */
  function Render(s: HandoverStatus): string { Join(Fields(s) + ["live=" + List(s.live)]) }

  /** What a controller keeps of the status. */
  datatype Snapshot = Snapshot(
    owner: Option<nat>, prev: Option<nat>, candidate: Option<nat>, epoch: nat, ready: bool, leaseMs: nat,
    binding: bool, controller: bool, deferredA3: bool)

  const NOTHING_KNOWN := Snapshot(None, None, None, 0, false, 0, false, false, false)

  function StripPrefix(field: string, key: string): Option<string> {
    if key <= field then Some(field[|key|..]) else None
  }

  function Number(field: string, key: string): Option<nat> {
    match StripPrefix(field, key) case None => None case Some(v) => ParseU64(v)
  }

  /** One field read into the snapshot; unknown ones and malformed numbers are passed over. */
  function Absorb(s: Snapshot, field: string): Snapshot {
    if Number(field, "owner=").Some? then s.(owner := Number(field, "owner="))
    else if Number(field, "prev=").Some? then s.(prev := Number(field, "prev="))
    else if Number(field, "candidate=").Some? then s.(candidate := Number(field, "candidate="))
    else if Number(field, "epoch=").Some? then s.(epoch := Number(field, "epoch=").value)
    else if Number(field, "lease_ms=").Some? then s.(leaseMs := Number(field, "lease_ms=").value)
    else if StripPrefix(field, "ready=").Some? then s.(ready := StripPrefix(field, "ready=") == Some("true"))
    else if StripPrefix(field, "binding=").Some? then s.(binding := StripPrefix(field, "binding=") == Some("true"))
    else if StripPrefix(field, "controller=").Some?
      then s.(controller := StripPrefix(field, "controller=") == Some("true"))
    else if StripPrefix(field, "deferred_a3=").Some?
      then s.(deferredA3 := StripPrefix(field, "deferred_a3=") == Some("true"))
    else s
  }

  /** The first `n` fields read one after the other. */
  function AbsorbUpTo(s: Snapshot, fields: seq<string>, n: nat): Snapshot
    requires n <= |fields|
  {
    if n == 0 then s else Absorb(AbsorbUpTo(s, fields, n - 1), fields[n - 1])
  }

  function ReadSnapshot(body: string): Snapshot { AbsorbUpTo(NOTHING_KNOWN, Split(body), |Split(body)|) }

  method ParseSnapshot(body: string) returns (s: Snapshot)
    ensures s == ReadSnapshot(body)
  {
    var fields := Split(body);
    s := NOTHING_KNOWN;
    for i := 0 to |fields|
      invariant s == AbsorbUpTo(NOTHING_KNOWN, fields, i)
    {
      s := Absorb(s, fields[i]);
    }
  }

  // ---------------------------------------------------------------------
  // Which keys a field can be mistaken for
  // ---------------------------------------------------------------------

  lemma OtherKey(field: string, key: string, i: nat)
    requires i < |key| && i < |field| && key[i] != field[i]
    ensures StripPrefix(field, key) == None && Number(field, key) == None
  {
  }

  lemma OwnKey(key: string, v: string)
    ensures StripPrefix(key + v, key) == Some(v)
  {
  }

  lemma AbsorbOwner(s: Snapshot, v: string)
    ensures Absorb(s, "owner=" + v) == if ParseU64(v).Some? then s.(owner := ParseU64(v)) else s
  {
    OwnKey("owner=", v);
    OtherKeys("owner=" + v, 'o');
  }

  /** A field whose first letter no other key has is tried against its own key only. */
  lemma OtherKeys(f: string, c: char)
    requires f != "" && f[0] == c
    ensures c != 'o' ==> Number(f, "owner=") == None
    ensures c != 'p' ==> Number(f, "prev=") == None
    ensures c != 'c' ==> Number(f, "candidate=") == None && StripPrefix(f, "controller=") == None
    ensures c != 'e' ==> Number(f, "epoch=") == None
    ensures c != 'l' ==> Number(f, "lease_ms=") == None
    ensures c != 'r' ==> StripPrefix(f, "ready=") == None
    ensures c != 'b' ==> StripPrefix(f, "binding=") == None
    ensures c != 'd' ==> StripPrefix(f, "deferred_a3=") == None
  {
    if c != 'o' { OtherKey(f, "owner=", 0); }
    if c != 'p' { OtherKey(f, "prev=", 0); }
    if c != 'c' { OtherKey(f, "candidate=", 0); OtherKey(f, "controller=", 0); }
    if c != 'e' { OtherKey(f, "epoch=", 0); }
    if c != 'l' { OtherKey(f, "lease_ms=", 0); }
    if c != 'r' { OtherKey(f, "ready=", 0); }
    if c != 'b' { OtherKey(f, "binding=", 0); }
    if c != 'd' { OtherKey(f, "deferred_a3=", 0); }
  }

  lemma IdReadsBack(v: Option<nat>)
    requires v.Some? ==> v.value < TWO_64
    ensures ParseU64(Id(v)) == v
    ensures IsWord(Id(v))
  {
    if v.Some? {
      NumbersRoundTrip(v.value);
    } else {
      assert !IsDigit("-"[0]);
    }
  }

  lemma AbsorbPrev(s: Snapshot, v: string)
    ensures Absorb(s, "prev=" + v) == if ParseU64(v).Some? then s.(prev := ParseU64(v)) else s
  {
    OwnKey("prev=", v);
    OtherKeys("prev=" + v, 'p');
  }

  lemma AbsorbCandidate(s: Snapshot, v: string)
    ensures Absorb(s, "candidate=" + v) == if ParseU64(v).Some? then s.(candidate := ParseU64(v)) else s
  {
    OwnKey("candidate=", v);
    OtherKeys("candidate=" + v, 'c');
    OtherKey("candidate=" + v, "controller=", 1);
  }

  lemma AbsorbEpoch(s: Snapshot, v: string)
    ensures Absorb(s, "epoch=" + v) == if ParseU64(v).Some? then s.(epoch := ParseU64(v).value) else s
  {
    OwnKey("epoch=", v);
    OtherKeys("epoch=" + v, 'e');
  }

  lemma AbsorbLease(s: Snapshot, v: string)
    ensures Absorb(s, "lease_ms=" + v) == if ParseU64(v).Some? then s.(leaseMs := ParseU64(v).value) else s
  {
    OwnKey("lease_ms=", v);
    OtherKeys("lease_ms=" + v, 'l');
  }

  lemma YesNoReadsBack(b: bool)
    ensures YesNo(b) == "true" <==> b
    ensures IsWord(YesNo(b))
  {
    assert "false"[0] != "true"[0];
  }

  lemma AbsorbReady(s: Snapshot, v: string)
    ensures Absorb(s, "ready=" + v) == s.(ready := v == "true")
  {
    OwnKey("ready=", v);
    OtherKeys("ready=" + v, 'r');
  }

  lemma AbsorbBinding(s: Snapshot, v: string)
    ensures Absorb(s, "binding=" + v) == s.(binding := v == "true")
  {
    OwnKey("binding=", v);
    OtherKeys("binding=" + v, 'b');
  }

  lemma AbsorbController(s: Snapshot, v: string)
    ensures Absorb(s, "controller=" + v) == s.(controller := v == "true")
  {
    OwnKey("controller=", v);
    OtherKeys("controller=" + v, 'c');
    OtherKey("controller=" + v, "candidate=", 1);
  }

  lemma AbsorbDeferred(s: Snapshot, v: string)
    ensures Absorb(s, "deferred_a3=" + v) == s.(deferredA3 := v == "true")
  {
    OwnKey("deferred_a3=", v);
    OtherKeys("deferred_a3=" + v, 'd');
  }

  /** Fields a snapshot has no use for. */
  ghost predicate Inert(f: string) { forall s :: Absorb(s, f) == s }

  /** A field with none of the nine keys is passed over. */
  lemma OtherFieldsAreInert(f: string)
    requires !("owner=" <= f) && !("prev=" <= f) && !("candidate=" <= f) && !("epoch=" <= f) && !("lease_ms=" <= f)
    requires !("ready=" <= f) && !("binding=" <= f) && !("controller=" <= f) && !("deferred_a3=" <= f)
    ensures Inert(f)
  {
  }

  lemma DevicesAreInert(v: string)
    ensures Inert("devices=" + v)
  {
    var f := "devices=" + v;
    OtherKeys(f, 'd');
    OtherKey(f, "deferred_a3=", 2);
  }

  lemma RequirementsAreInert(v: string)
    ensures Inert("require_ready=" + v) && Inert("require_device=" + v)
  {
    OtherKeys("require_ready=" + v, 'r');
    OtherKey("require_ready=" + v, "ready=", 2);
    OtherKeys("require_device=" + v, 'r');
    OtherKey("require_device=" + v, "ready=", 2);
  }

  lemma LiveIsInert(v: string)
    ensures Inert("live=" + v)
  {
    var f := "live=" + v;
    OtherKeys(f, 'l');
    OtherKey(f, "lease_ms=", 1);
  }

  lemma {:induction false} NumbersAreInert(n: nat, v: string)
    ensures Inert(Show(n) + v)
  {
    var f := Show(n) + v;
    assert IsDigit(f[0]);
    OtherKeys(f, f[0]);
  }

  ghost predicate AllInert(fs: seq<string>) { forall i | 0 <= i < |fs| :: Inert(fs[i]) }

  /** However many connections are live, the words of the list are fields nobody reads. */
  lemma {:induction false} ElementsFallApart(ids: seq<nat>)
    requires ids != []
    ensures AllInert(Split(Elements(ids)))
    decreases |ids|
  {
    ElementIsWord("", ids);
    assert "" + Element(ids) == Element(ids);
    NumbersAreInert(ids[0], if |ids| == 1 then "]" else ",");
    RestFallsApart(Element(ids), ids);
    if |ids| > 1 { ElementsFallApart(ids[1..]); }
  }

  lemma ElementIsWord(prefix: string, ids: seq<nat>)
    requires NoSpace(prefix) && ids != []
    ensures IsWord(prefix + Element(ids))
  {
    var n, w := Show(ids[0]), prefix + Element(ids);
    NumbersRoundTrip(ids[0]);
    forall i | 0 <= i < |w| ensures !IsSpace(w[i]) {
      if |prefix| <= i < |prefix| + |n| { assert w[i] == n[i - |prefix|]; }
    }
  }

  /** Behind the first word come the words of the other elements. */
  lemma {:induction false} RestFallsApart(w: string, ids: seq<nat>)
    requires ids != [] && IsWord(w)
    ensures var rest := if |ids| == 1 then "" else " " + Elements(ids[1..]);
      Split(w + rest) == [w] + if |ids| == 1 then [] else Split(Elements(ids[1..]))
  {
    if |ids| == 1 {
      SplitWordFirst(w, "");
    } else {
      var rest := " " + Elements(ids[1..]);
      SplitWordFirst(w, rest);
      assert rest[1..] == Elements(ids[1..]);
    }
  }

  lemma NoConnectionsFallApart()
    ensures AllInert(Split("live=" + List([])))
  {
    var w := "live=" + "[]";
    assert forall i | 0 <= i < |w| :: w[i] == if i < 5 then "live="[i] else "[]"[i - 5];
    SplitOneWord(w);
    LiveIsInert("[]");
  }

  lemma BracketBelongsToWord(x: string, rest: string)
    ensures "live=" + ("[" + (x + rest)) == "live=[" + x + rest
    ensures "live=" + ("[" + x) == "live=[" + x
    ensures NoSpace("live=[")
  {
  }

  lemma LiveFallsApart(ids: seq<nat>)
    ensures AllInert(Split("live=" + List(ids)))
  {
    if ids == [] {
      NoConnectionsFallApart();
    } else {
      var x, rest := Element(ids), if |ids| == 1 then "" else " " + Elements(ids[1..]);
      BracketBelongsToWord(x, rest);
      ElementIsWord("live=[", ids);
      RestFallsApart("live=[" + x, ids);
      LiveIsInert("[" + x);
      if |ids| > 1 { ElementsFallApart(ids[1..]); }
    }
  }

  // ---------------------------------------------------------------------
  // The whole line
  // ---------------------------------------------------------------------

  predicate StatusFits(s: HandoverStatus) {
    && (s.owner.Some? ==> s.owner.value < TWO_64)
    && (s.prev.Some? ==> s.prev.value < TWO_64)
    && (s.candidate.Some? ==> s.candidate.value < TWO_64)
    && (s.devices.Some? ==> s.devices.value < TWO_64)
    && s.epoch < TWO_64 && s.leaseMs < TWO_64
  }

  /** What is known after the first `k` fields. */
  function KnownAfter(s: HandoverStatus, k: nat): Snapshot {
    Snapshot(
      if 0 < k then s.owner else None, if 1 < k then s.prev else None, if 2 < k then s.candidate else None,
      if 3 < k then s.epoch else 0, 4 < k && s.candidateReady, if 5 < k then s.leaseMs else 0,
      9 < k && s.binding, 10 < k && s.controller, 11 < k && s.deferredA3)
  }

  lemma FirstFieldsRead(s: HandoverStatus, k: nat)
    requires StatusFits(s) && k < 6
    ensures Absorb(KnownAfter(s, k), FieldAt(s, k)) == KnownAfter(s, k + 1)
  {
    var t := KnownAfter(s, k);
    if k == 0 { IdReadsBack(s.owner); AbsorbOwner(t, Id(s.owner)); }
    else if k == 1 { IdReadsBack(s.prev); AbsorbPrev(t, Id(s.prev)); }
    else if k == 2 { IdReadsBack(s.candidate); AbsorbCandidate(t, Id(s.candidate)); }
    else if k == 3 { NumbersRoundTrip(s.epoch); AbsorbEpoch(t, Show(s.epoch)); }
    else if k == 4 { YesNoReadsBack(s.candidateReady); AbsorbReady(t, YesNo(s.candidateReady)); }
    else { NumbersRoundTrip(s.leaseMs); AbsorbLease(t, Show(s.leaseMs)); }
  }

  lemma LastFieldsRead(s: HandoverStatus, k: nat)
    requires StatusFits(s) && 6 <= k < FIELDS
    ensures Absorb(KnownAfter(s, k), FieldAt(s, k)) == KnownAfter(s, k + 1)
  {
    var t := KnownAfter(s, k);
    if k == 6 { DevicesAreInert(Id(s.devices)); }
    else if k == 7 { RequirementsAreInert(YesNo(s.requireReady)); }
    else if k == 8 { RequirementsAreInert(YesNo(s.requireDevice)); }
    else if k == 9 { YesNoReadsBack(s.binding); AbsorbBinding(t, YesNo(s.binding)); }
    else if k == 10 { YesNoReadsBack(s.controller); AbsorbController(t, YesNo(s.controller)); }
    else { YesNoReadsBack(s.deferredA3); AbsorbDeferred(t, YesNo(s.deferredA3)); }
  }

  lemma {:induction false} FieldsRead(s: HandoverStatus, all: seq<string>, k: nat)
    requires StatusFits(s) && k <= FIELDS <= |all| && forall i | 0 <= i < FIELDS :: all[i] == FieldAt(s, i)
    ensures AbsorbUpTo(NOTHING_KNOWN, all, k) == KnownAfter(s, k)
  {
    if k > 0 {
      FieldsRead(s, all, k - 1);
      if k - 1 < 6 { FirstFieldsRead(s, k - 1); } else { LastFieldsRead(s, k - 1); }
    }
  }

  lemma RoleFieldIsWord(s: HandoverStatus, k: nat)
    requires StatusFits(s) && k <= 2
    ensures IsWord(FieldAt(s, k))
  {
    if k == 0 { IdReadsBack(s.owner); KeyedWord("owner=", Id(s.owner)); }
    else if k == 1 { IdReadsBack(s.prev); KeyedWord("prev=", Id(s.prev)); }
    else { IdReadsBack(s.candidate); KeyedWord("candidate=", Id(s.candidate)); }
  }

  lemma NumberFieldIsWord(s: HandoverStatus, k: nat)
    requires StatusFits(s) && (k == 3 || k == 5 || k == 6)
    ensures IsWord(FieldAt(s, k))
  {
    if k == 3 { NumbersRoundTrip(s.epoch); KeyedWord("epoch=", Show(s.epoch)); }
    else if k == 5 { NumbersRoundTrip(s.leaseMs); KeyedWord("lease_ms=", Show(s.leaseMs)); }
    else { IdReadsBack(s.devices); KeyedWord("devices=", Id(s.devices)); }
  }

  lemma FlagFieldIsWord(s: HandoverStatus, k: nat)
    requires k < FIELDS && (k == 4 || 7 <= k)
    ensures IsWord(FieldAt(s, k))
  {
    YesNoReadsBack(true);
    YesNoReadsBack(false);
    if k == 4 { KeyedWord("ready=", YesNo(s.candidateReady)); }
    else if k == 7 { KeyedWord("require_ready=", YesNo(s.requireReady)); }
    else if k == 8 { KeyedWord("require_device=", YesNo(s.requireDevice)); }
    else if k == 9 { KeyedWord("binding=", YesNo(s.binding)); }
    else if k == 10 { KeyedWord("controller=", YesNo(s.controller)); }
    else { KeyedWord("deferred_a3=", YesNo(s.deferredA3)); }
  }

  /** Fields nobody reads change nothing. */
  lemma {:induction false} InertFieldsChangeNothing(s: Snapshot, all: seq<string>, from: nat, n: nat)
    requires from + n <= |all| && forall i | from <= i < |all| :: Inert(all[i])
    ensures AbsorbUpTo(s, all, from + n) == AbsorbUpTo(s, all, from)
  {
    if n > 0 {
      InertFieldsChangeNothing(s, all, from, n - 1);
      assert Inert(all[from + n - 1]);
    }
  }

  lemma InertBehind(front: seq<string>, tail: seq<string>)
    requires AllInert(tail)
    ensures forall i | |front| <= i < |front| + |tail| :: Inert((front + tail)[i])
    ensures forall i | 0 <= i < |front| :: (front + tail)[i] == front[i]
  {
    forall i | |front| <= i < |front| + |tail| ensures Inert((front + tail)[i]) {
      assert (front + tail)[i] == tail[i - |front|];
    }
  }

  lemma RenderedWords(s: HandoverStatus)
    requires StatusFits(s)
    ensures Split(Render(s)) == Fields(s) + Split("live=" + List(s.live))
  {
    var front := Fields(s);
    forall k | 0 <= k < |front| ensures IsWord(front[k]) {
      if k <= 2 { RoleFieldIsWord(s, k); } else if k == 4 || 7 <= k { FlagFieldIsWord(s, k); }
        else { NumberFieldIsWord(s, k); }
    }
    JoinSplitsButLast(front, "live=" + List(s.live));
  }

  lemma FieldsAre(s: HandoverStatus)
    ensures Id(None) == "-" && YesNo(true) == "true" && YesNo(false) == "false"
    ensures Fields(s) == [
      "owner=" + Id(s.owner), "prev=" + Id(s.prev), "candidate=" + Id(s.candidate), "epoch=" + Show(s.epoch),
      "ready=" + YesNo(s.candidateReady), "lease_ms=" + Show(s.leaseMs), "devices=" + Id(s.devices),
      "require_ready=" + YesNo(s.requireReady), "require_device=" + YesNo(s.requireDevice),
      "binding=" + YesNo(s.binding), "controller=" + YesNo(s.controller), "deferred_a3=" + YesNo(s.deferredA3)]
  {
  }

  lemma Apart(a: seq<string>, b: seq<string>)
    ensures (a + b)[..|a|] == a && (a + b)[|a|..] == b
  {
  }

  /** The line word by word: twelve fields, and behind them the list of connections. */
  lemma StatusLineReads(s: HandoverStatus)
    requires StatusFits(s)
    ensures var ws := Split(Render(s));
      && 12 <= |ws| && ws[12..] == Split("live=" + List(s.live))
      && ws[..12] == [
        "owner=" + Id(s.owner), "prev=" + Id(s.prev), "candidate=" + Id(s.candidate), "epoch=" + Show(s.epoch),
        "ready=" + YesNo(s.candidateReady), "lease_ms=" + Show(s.leaseMs), "devices=" + Id(s.devices),
        "require_ready=" + YesNo(s.requireReady), "require_device=" + YesNo(s.requireDevice),
        "binding=" + YesNo(s.binding), "controller=" + YesNo(s.controller), "deferred_a3=" + YesNo(s.deferredA3)]
  {
    RenderedWords(s);
    FieldsAre(s);
    Apart(Fields(s), Split("live=" + List(s.live)));
  }

  /** The list: nothing between its brackets, or numbers with a comma and a space between them. */
  lemma {:induction false} ListReads(ids: seq<nat>, x: nat)
    requires ids != []
    ensures List([]) == "[]" && List([x]) == "[" + Show(x) + "]"
    ensures List(ids) != "" && List(ids + [x]) == List(ids)[..|List(ids)| - 1] + ", " + Show(x) + "]"
  {
    assert Elements([x]) == Show(x) + "]";
    ElementsRead(ids, x);
    Bracketed(Elements(ids), Show(x), Elements(ids + [x]));
  }

  lemma Bracketed(e: string, t: string, more: string)
    requires e != "" && more == e[..|e| - 1] + ", " + t + "]"
    ensures "[" + more == ("[" + e)[..|"[" + e| - 1] + ", " + t + "]"
  {
    assert ("[" + e)[..|"[" + e| - 1] == "[" + e[..|e| - 1];
  }

  lemma {:induction false} ElementsRead(ids: seq<nat>, x: nat)
    requires ids != []
    ensures |Elements(ids)| > 0
    ensures Elements(ids + [x]) == Elements(ids)[..|Elements(ids)| - 1] + ", " + Show(x) + "]"
  {
    assert (ids + [x])[1..] == ids[1..] + [x];
    if |ids| == 1 {
      assert Elements([x]) == Show(x) + "]" && Elements(ids) == Show(ids[0]) + "]";
    } else {
      ElementsRead(ids[1..], x);
    }
  }

  lemma {:induction false} AllFieldsRead(s: HandoverStatus, all: seq<string>)
    requires StatusFits(s) && FIELDS <= |all| && forall i | 0 <= i < FIELDS :: all[i] == FieldAt(s, i)
    requires forall i | FIELDS <= i < |all| :: Inert(all[i])
    ensures AbsorbUpTo(NOTHING_KNOWN, all, |all|) == KnownAfter(s, FIELDS)
  {
    InertFieldsChangeNothing(NOTHING_KNOWN, all, FIELDS, |all| - FIELDS);
    FieldsRead(s, all, FIELDS);
  }

  /** Whatever the state and however many connections are live, the controller recovers every field it keeps. */
  lemma SnapshotRecoversStatus(s: HandoverStatus)
    requires StatusFits(s)
    ensures ReadSnapshot(Render(s)) ==
      Snapshot(
        s.owner, s.prev, s.candidate, s.epoch, s.candidateReady, s.leaseMs, s.binding, s.controller, s.deferredA3)
  {
    var tail := Split("live=" + List(s.live));
    RenderedWords(s);
    LiveFallsApart(s.live);
    InertBehind(Fields(s), tail);
    AllFieldsRead(s, Fields(s) + tail);
  }

  /** In every reachable state the ids in the status fit 64 bits. */
  lemma ReachableStatusFits(y: System)
    requires Inv(y) && y.s.epoch < TWO_64 && y.s.policy.lease < TWO_64
    requires y.s.deviceCount.Some? ==> y.s.deviceCount.value < TWO_64
    ensures StatusFits(StatusOf(y.s))
  {
  }

  /** What the line says beyond what a controller keeps: each live connection once, in order, and the policy. */
  lemma StatusShowsState(s: State)
    ensures var t := StatusOf(s);
      && (forall x :: x in t.live <==> x in s.live) && (forall i, j | 0 <= i < j < |t.live| :: t.live[i] < t.live[j])
      && t.devices == s.deviceCount && t.binding == s.policy.blockRegistration
      && t.requireDevice == s.policy.requireDevice && t.requireReady == s.policy.requireReady
  {
  }

  /** What a controller reads out of a status line is the state itself. */
  lemma ControllerSeesState(y: System)
    requires Inv(y) && y.s.epoch < TWO_64 && y.s.policy.lease < TWO_64
    requires y.s.deviceCount.Some? ==> y.s.deviceCount.value < TWO_64
    ensures var s, seen := y.s, ReadSnapshot(Render(StatusOf(y.s)));
      && (seen.owner == None <==> s.owner == NO_OWNER) && (seen.owner.Some? ==> seen.owner.value == s.owner)
      && (seen.prev == None <==> s.prev == NO_OWNER) && (seen.prev.Some? ==> seen.prev.value == s.prev)
      && (seen.candidate.Some? <==> s.candidate.Some?)
      && (seen.candidate.Some? ==>
           seen.candidate.value == s.candidate.value.id && seen.ready == s.candidate.value.ready)
      && seen.epoch == s.epoch && seen.leaseMs == s.policy.lease
      && seen.controller == s.controllerSeen && seen.deferredA3 == DefersDma(s)
  {
    ReachableStatusFits(y);
    SnapshotRecoversStatus(StatusOf(y.s));
  }
}
