/** The copy-on-write DMA bus: mappings can be replaced and dropped while requests are served. */
module DmaBus {
  import opened MemoryBus
  import opened Intervals
  import opened Wrappers

  datatype Segment = Segment(start: nat, device: Device) {
    function Range(): Interval { Interval(start, start + device.size) }
  }

  function EntryOf(s: Segment): Entry { Entry(s.Range(), s.device) }

  function Entries(segments: seq<Segment>): (r: seq<Entry>)
    ensures |r| == |segments|
  {
    seq(|segments|, i requires 0 <= i < |segments| => EntryOf(segments[i]))
  }

  /** A list of mappings a bus can be built from. */
  predicate Mappable(segments: seq<Segment>) { WellFormed(Entries(segments), U64_MAX) }

  function Filter(segments: seq<Segment>, keep: Segment -> bool): (r: seq<Segment>)
    ensures forall s :: s in r <==> s in segments && keep(s)
  {
    if segments == [] then []
    else if keep(segments[0]) then [segments[0]] + Filter(segments[1..], keep)
    else Filter(segments[1..], keep)
  }

  function StartsElsewhere(start: nat): Segment -> bool { (s: Segment) => s.start != start }

  function StartsOutside(address: nat, size: nat): Segment -> bool {
    (s: Segment) => s.start < address || SaturatingAdd(address, size) <= s.start
  }

  /** Replace the mapping that starts at `start`, or insert a new one. */
  function Upsert(segments: seq<Segment>, start: nat, device: Device): seq<Segment> {
    Filter(segments, StartsElsewhere(start)) + [Segment(start, device)]
  }

  function SaturatingAdd(a: nat, b: nat): nat { Min(a + b, U64_MAX) }

  /** Drop every mapping that starts inside the given range. */
  function Without(segments: seq<Segment>, address: nat, size: nat): seq<Segment> {
    Filter(segments, StartsOutside(address, size))
  }

  // ---------------------------------------------------------------------
  // Which lists are mappable
  // ---------------------------------------------------------------------

  predicate Apart(a: Segment, b: Segment) { !a.Range().Overlaps(b.Range()) }

  predicate Fits(s: Segment) { s.Range().end <= U64_MAX }

  /** The pairwise reading of `Mappable`. */
  lemma MappableMeans(segments: seq<Segment>)
    ensures Mappable(segments) <==>
      && (forall i | 0 <= i < |segments| :: Fits(segments[i]))
      && (forall i, j | 0 <= i < j < |segments| :: Apart(segments[i], segments[j]))
  {
    var es := Entries(segments);
    if Mappable(segments) {
      forall i | 0 <= i < |segments| ensures Fits(segments[i]) { assert Placed(es[i], U64_MAX); }
      forall i, j | 0 <= i < j < |segments| ensures Apart(segments[i], segments[j]) {
        assert !es[i].range.Overlaps(es[j].range);
      }
    } else if forall i | 0 <= i < |segments| :: Fits(segments[i]) {
      assert forall i | 0 <= i < |es| :: Placed(es[i], U64_MAX);
      var i, j :| 0 <= i < j < |es| && es[i].range.Overlaps(es[j].range);
      assert !Apart(segments[i], segments[j]);
    }
  }

  lemma MappableCons(head: Segment, tail: seq<Segment>)
    ensures Mappable([head] + tail) <==>
      Fits(head) && (forall s | s in tail :: Apart(head, s)) && Mappable(tail)
  {
    var all := [head] + tail;
    MappableMeans(all);
    MappableMeans(tail);
    if Mappable(all) {
      assert Fits(all[0]);
      forall s | s in tail ensures Apart(head, s) {
        var i :| 0 <= i < |tail| && tail[i] == s;
        assert Apart(all[0], all[i + 1]);
      }
      forall i | 0 <= i < |tail| ensures Fits(tail[i]) { assert Fits(all[i + 1]); }
      forall i, j | 0 <= i < j < |tail| ensures Apart(tail[i], tail[j]) {
        assert Apart(all[i + 1], all[j + 1]);
      }
    }
    if Fits(head) && (forall s | s in tail :: Apart(head, s)) && Mappable(tail) {
      forall i | 0 <= i < |all| ensures Fits(all[i]) { assert i > 0 ==> Fits(tail[i - 1]); }
      forall i, j | 0 <= i < j < |all| ensures Apart(all[i], all[j]) {
        assert all[j] == tail[j - 1];
        assert i > 0 ==> Apart(tail[i - 1], tail[j - 1]);
      }
    }
  }

  lemma {:induction false} MappableSnoc(segments: seq<Segment>, last: Segment)
    ensures Mappable(segments + [last]) <==>
      Mappable(segments) && Fits(last) && (forall s | s in segments :: Apart(s, last))
  {
    if segments == [] {
      MappableCons(last, []);
      assert segments + [last] == [last] + [];
    } else {
      var head, tail := segments[0], segments[1..];
      assert segments == [head] + tail;
      assert segments + [last] == [head] + (tail + [last]);
      MappableCons(head, tail + [last]);
      MappableCons(head, tail);
      MappableSnoc(tail, last);
    }
  }

  lemma {:induction false} FilterStaysMappable(segments: seq<Segment>, keep: Segment -> bool)
    requires Mappable(segments)
    ensures Mappable(Filter(segments, keep))
  {
    if segments != [] {
      var head, tail := segments[0], segments[1..];
      assert segments == [head] + tail;
      MappableCons(head, tail);
      FilterStaysMappable(tail, keep);
      MappableCons(head, Filter(tail, keep));
    }
  }

  /** Adding works exactly when the range fits and avoids every mapping with another start. */
  lemma UpsertIsMappable(segments: seq<Segment>, start: nat, device: Device)
    requires Mappable(segments)
    ensures Mappable(Upsert(segments, start, device)) <==>
      && start + device.size <= U64_MAX
      && forall s | s in segments && s.start != start :: Apart(s, Segment(start, device))
  {
    FilterStaysMappable(segments, StartsElsewhere(start));
    MappableSnoc(Filter(segments, StartsElsewhere(start)), Segment(start, device));
  }

  /** Two different mappings of a mappable list never overlap. */
  lemma MappingsAreApart(segments: seq<Segment>, a: Segment, b: Segment)
    requires Mappable(segments) && a in segments && b in segments && a != b
    ensures Apart(a, b)
  {
    MappableMeans(segments);
    var i :| 0 <= i < |segments| && segments[i] == a;
    var j :| 0 <= j < |segments| && segments[j] == b;
    OverlapMeansSharedAddress(a.Range(), b.Range());
    assert i < j ==> Apart(segments[i], segments[j]);
    assert j < i ==> Apart(segments[j], segments[i]);
  }

  /** Mapping a range again at the same place and size can never be refused. */
  lemma RemappingAlwaysWorks(segments: seq<Segment>, old_: Segment, device: Device)
    requires Mappable(segments) && old_ in segments && device.size == old_.device.size
    ensures Mappable(Upsert(segments, old_.start, device))
  {
    UpsertIsMappable(segments, old_.start, device);
    MappableMeans(segments);
    var i :| 0 <= i < |segments| && segments[i] == old_;
    assert Fits(segments[i]);
    forall s | s in segments && s.start != old_.start ensures Apart(s, Segment(old_.start, device)) {
      MappingsAreApart(segments, s, old_);
    }
  }

  /** Dropping mappings never produces a list the bus would refuse. */
  lemma RemovingAlwaysWorks(segments: seq<Segment>, address: nat, size: nat)
    requires Mappable(segments)
    ensures Mappable(Without(segments, address, size))
  {
    FilterStaysMappable(segments, StartsOutside(address, size));
  }

  lemma {:induction false} FilterAll(segments: seq<Segment>, keep: Segment -> bool)
    requires forall s | s in segments :: keep(s)
    ensures Filter(segments, keep) == segments
  {
    if segments != [] { FilterAll(segments[1..], keep); }
  }

  lemma {:induction false} FilterAppended(segments: seq<Segment>, last: Segment, keep: Segment -> bool)
    ensures Filter(segments + [last], keep) == Filter(segments, keep) + if keep(last) then [last] else []
  {
    if segments != [] {
      assert (segments + [last])[1..] == segments[1..] + [last];
      FilterAppended(segments[1..], last, keep);
    }
  }

  /** Removing a range that was just added where nothing started before restores the list. */
  lemma WithoutUndoesUpsert(segments: seq<Segment>, address: nat, device: Device)
    requires 0 < device.size && Mappable(Upsert(segments, address, device))
    requires forall g | g in segments :: g.start < address || address + device.size <= g.start
    ensures Without(Upsert(segments, address, device), address, device.size) == segments
  {
    var mine, after := Segment(address, device), Upsert(segments, address, device);
    FilterAll(segments, StartsElsewhere(address));
    assert after == segments + [mine];
    MappableMeans(after);
    assert Fits(after[|segments|]);
    FilterAppended(segments, mine, StartsOutside(address, device.size));
    FilterAll(segments, StartsOutside(address, device.size));
  }

  // ---------------------------------------------------------------------
  // What routing keeps
  // ---------------------------------------------------------------------

  lemma EntriesMembers(segments: seq<Segment>, e: Entry)
    ensures e in Entries(segments) <==> exists s :: s in segments && EntryOf(s) == e
  {
    if e in Entries(segments) {
      var i :| 0 <= i < |Entries(segments)| && Entries(segments)[i] == e;
      assert segments[i] in segments && EntryOf(segments[i]) == e;
    }
    if s :| s in segments && EntryOf(s) == e {
      var i :| 0 <= i < |segments| && segments[i] == s;
      assert Entries(segments)[i] == e;
    }
  }

  /** Two lists that agree on every mapping a request touches route it alike. */
  lemma {:induction false} SameTouchedSameRoute(s1: seq<Segment>, s2: seq<Segment>, request: Interval)
    requires Mappable(s1) && Mappable(s2) && !request.IsEmpty()
    requires forall s: Segment :: s.Range().Overlaps(request) ==> (s in s1 <==> s in s2)
    ensures Route(Entries(s1), request) == Route(Entries(s2), request)
  {
    forall e | e in Entries(s1) && e.range.Overlaps(request) ensures e in Entries(s2) {
      EntriesMembers(s1, e);
      EntriesMembers(s2, e);
    }
    forall e | e in Entries(s2) && e.range.Overlaps(request) ensures e in Entries(s1) {
      EntriesMembers(s1, e);
      EntriesMembers(s2, e);
    }
    UntouchedEntriesDoNotMatter(Entries(s1), Entries(s2), U64_MAX, request);
  }

  /** A successful add changes no request outside the replaced and the new range. */
  lemma {:induction false} AddKeepsOtherRoutes(segments: seq<Segment>, start: nat, device: Device, request: Interval)
    requires Mappable(segments) && Mappable(Upsert(segments, start, device)) && !request.IsEmpty()
    requires !Segment(start, device).Range().Overlaps(request)
    requires forall s | s in segments && s.start == start :: !s.Range().Overlaps(request)
    ensures Route(Entries(Upsert(segments, start, device)), request) == Route(Entries(segments), request)
  {
    SameTouchedSameRoute(Upsert(segments, start, device), segments, request);
  }

  /** After an add, requests inside the new range reach the new device. */
  lemma {:induction false} AddedRangeReachesDevice(
    segments: seq<Segment>, start: nat, device: Device, request: Interval)
    requires Mappable(Upsert(segments, start, device)) && !request.IsEmpty()
    requires Segment(start, device).Range().ContainsInterval(request)
    ensures Route(Entries(Upsert(segments, start, device)), request) == ToDevice(EntryOf(Segment(start, device)))
  {
    var after := Upsert(segments, start, device);
    var es, e := Entries(after), EntryOf(Segment(start, device));
    assert es[|after| - 1] == e;
    FirstMatchIsRoute(es, U64_MAX, request);
    ContainingMeansOverlapping(e.range, request);
    match Route(es, request)
    case ToDevice(b) =>
      ContainingMeansOverlapping(b.range, request);
      ContainingEntryIsUnique(es, U64_MAX, request, e, b);
    case _ =>
  }

  // ---------------------------------------------------------------------
  // The shared object
  // ---------------------------------------------------------------------

  class DynamicBus {
    var segments: seq<Segment>
    var bus: Bus

    /** The published bus is always the one built from the list of mappings. */
    ghost predicate Valid() reads this, bus {
      bus.size == U64_MAX && bus.devices == Entries(segments) && Mappable(segments)
    }

    constructor ()
      ensures Valid() && segments == []
    {
      segments := [];
      bus := new Bus(U64_MAX);
    }

    static method Build(segments: seq<Segment>) returns (r: Result<Bus, AddError>)
      ensures r.Success? <==> Mappable(segments)
      ensures r.Success? ==> fresh(r.value) && r.value.size == U64_MAX && r.value.devices == Entries(segments)
    {
      var bus := new Bus(U64_MAX);
      MappableMeans([]);
      for i := 0 to |segments|
        invariant fresh(bus) && bus.size == U64_MAX
        invariant bus.devices == Entries(segments[..i]) && Mappable(segments[..i])
      {
        var added := bus.Add(segments[i].start, segments[i].device);
        BuildStep(segments, i);
        if added.Failure? {
          return Failure(added.error);
        }
      }
      assert segments[..|segments|] == segments;
      return Success(bus);
    }

    /** On failure nothing changes; on success a fresh bus is published and the old one is left as it was. */
    method Add(startAddr: nat, device: Device) returns (r: Result<(), AddError>)
      requires Valid()
      modifies this
      ensures Valid()
      ensures r.Success? <==>
        && startAddr + device.size <= U64_MAX
        && forall s | s in old(segments) && s.start != startAddr :: Apart(s, Segment(startAddr, device))
      ensures r.Success? ==> segments == Upsert(old(segments), startAddr, device) && fresh(bus)
      ensures r.Failure? ==> segments == old(segments) && bus == old(bus)
      ensures old(bus).devices == old(bus.devices)
    {
      var candidate := Upsert(segments, startAddr, device);
      UpsertIsMappable(segments, startAddr, device);
      var built := Build(candidate);
      match built
      case Failure(e) => r := Failure(e);
      case Success(newBus) =>
        segments, bus := candidate, newBus;
        r := Success(());
    }

    /** Dropping mappings never fails. */
    method RemoveRange(address: nat, size: nat) returns (r: Result<(), AddError>)
      requires Valid()
      modifies this
      ensures Valid() && r.Success? && fresh(bus)
      ensures segments == Without(old(segments), address, size)
      ensures old(bus).devices == old(bus.devices)
    {
      var candidate := Without(segments, address, size);
      RemovingAlwaysWorks(segments, address, size);
      var built := Build(candidate);
      match built
      case Failure(e) => r := Failure(e);
      case Success(newBus) =>
        segments, bus := candidate, newBus;
        r := Success(());
    }
  }

  /** One step of `Build`: the next mapping is accepted exactly when the longer prefix is mappable. */
  lemma BuildStep(segments: seq<Segment>, i: nat)
    requires i < |segments|
    ensures var s, prefix := segments[i], segments[..i];
      && Entries(segments[..i + 1]) == Entries(prefix) + [EntryOf(s)]
      && (Mappable(segments[..i + 1]) <==>
            Mappable(prefix) && Fits(s) && forall e | e in Entries(prefix) :: !e.range.Overlaps(s.Range()))
      && (Mappable(segments) ==> Mappable(segments[..i + 1]))
  {
    var s, prefix := segments[i], segments[..i];
    assert segments[..i + 1] == prefix + [s];
    MappableSnoc(prefix, s);
    forall t | t in prefix ensures EntryOf(t) in Entries(prefix) { EntriesMembers(prefix, EntryOf(t)); }
    forall e | e in Entries(prefix) ensures exists t :: t in prefix && EntryOf(t) == e { EntriesMembers(prefix, e); }
    if Mappable(segments) {
      MappableMeans(segments);
      MappableMeans(segments[..i + 1]);
    }
  }
}
