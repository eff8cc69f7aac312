/**
 * Transfer and command rings: the driver produces, the controller consumes and chases Link TRBs.
 * The object keeps an address and a cycle state; against a driver that follows section 4.9.2 of
 * the xHCI specification it yields exactly the TRBs the driver put in, Link TRBs left out.
 */
module LinkedRings {
  import opened Bytes
  import opened CycleRings
  import opened GuestMemory
  import opened Modular
  import opened Trbs
  import opened Wrappers

  const MAX_LINKS: nat := 256

  /** Where the controller reads next, and the cycle bit a fresh TRB has there. */
  datatype Cursor = Cursor(pointer: nat, cycle: bool)

  datatype RawTrb = RawTrb(address: nat, buffer: Trb)

  function Fresh(m: Memory, c: Cursor): Option<Trb> {
    var t := TrbAt(m, c.pointer);
    if CycleBit(t) == c.cycle then Some(t) else None
  }

  function FollowLink(c: Cursor, link: LinkTrb): Cursor {
    Cursor(link.segmentPointer, if link.toggleCycle then !c.cycle else c.cycle)
  }

  /** The next TRB that is no link, following at most `budget` links, and where the ring stands then. */
  function Chase(m: Memory, c: Cursor, budget: nat): (r: (Option<RawTrb>, Cursor))
    decreases budget
  {
    match Fresh(m, c)
    case None => (None, c)
    case Some(t) =>
      match ParseLink(t)
      case None => (Some(RawTrb(c.pointer, t)), c)
      case Some(link) => if budget == 0 then (None, c) else Chase(m, FollowLink(c, link), budget - 1)
  }

  function Advanced(c: Cursor): Cursor { c.(pointer := WrappingAdd(c.pointer, TRB_SIZE)) }

  class LinkedRing {
    const dma: DmaMemory
    var dequeuePointer: nat
    var cycleState: bool

    function View(): Cursor reads this { Cursor(dequeuePointer, cycleState) }

    constructor (dma: DmaMemory, dequeuePointer: nat, cycleState: bool)
      ensures this.dma == dma && View() == Cursor(dequeuePointer, cycleState)
    {
      this.dma, this.dequeuePointer, this.cycleState := dma, dequeuePointer, cycleState;
    }

    method NextTrbRaw() returns (t: Option<Trb>)
      ensures t == Fresh(dma.bytes, View())
    {
      var buffer := TrbAt(dma.bytes, dequeuePointer);
      if CycleBit(buffer) != cycleState {
        return None;
      }
      return Some(buffer);
    }

    /** Follows links as far as they are fresh, but no more than 256 of them, whatever the memory holds. */
    method NextTrb() returns (t: Option<RawTrb>)
      modifies this
      ensures (t, View()) == Chase(dma.bytes, old(View()), MAX_LINKS)
    {
      var first := NextTrbRaw();
      if first == None {
        return None;
      }
      var buffer := first.value;
      var links := 0;
      while ParseLink(buffer).Some?
        invariant links <= MAX_LINKS
        invariant Fresh(dma.bytes, View()) == Some(buffer)
        invariant Chase(dma.bytes, old(View()), MAX_LINKS) == Chase(dma.bytes, View(), MAX_LINKS - links)
        decreases MAX_LINKS - links
      {
        if links == MAX_LINKS {
          return None;
        }
        links := links + 1;
        var link := ParseLink(buffer).value;
        dequeuePointer := link.segmentPointer;
        if link.toggleCycle {
          cycleState := !cycleState;
        }
        var next := NextTrbRaw();
        if next == None {
          return None;
        }
        buffer := next.value;
      }
      return Some(RawTrb(dequeuePointer, buffer));
    }

    method Advance()
      modifies this
      ensures View() == Advanced(old(View()))
    {
      dequeuePointer := WrappingAdd(dequeuePointer, TRB_SIZE);
    }

    method SetDequeuePointer(pointer: nat, cycle: bool)
      modifies this
      ensures View() == Cursor(pointer, cycle)
    {
      dequeuePointer, cycleState := pointer, cycle;
    }
  }

  /** The cursor of a returned TRB finds the same TRB again as long as its sixteen bytes are unchanged. */
  lemma SnapshotFindsTheSameTrb(before: Memory, after: Memory, c: Cursor, budget: nat)
    requires var (t, at) := Chase(before, c, budget);
      t.Some? && TrbAt(after, at.pointer) == TrbAt(before, at.pointer)
    ensures var (t, at) := Chase(before, c, budget);
      t.value.address == at.pointer && Chase(after, at, MAX_LINKS) == (t, at)
    decreases budget
  {
    var t := Fresh(before, c).value;
    if ParseLink(t).Some? {
      SnapshotFindsTheSameTrb(before, after, FollowLink(c, ParseLink(t).value), budget - 1);
    }
  }

  // ---------------------------------------------------------------------
  // A ring of linked segments
  // ---------------------------------------------------------------------

  /** The slots of a transfer ring; `links[i]` says that slot `i` is kept for a Link TRB. */
  datatype TransferRing = TransferRing(slots: seq<nat>, links: seq<bool>)

  /** A slot that is not kept for a link is followed by the slot next to it in memory. */
  ghost predicate Joined(r: TransferRing) {
    && Layout(r.slots) && |r.links| == |r.slots|
    && forall i | 0 <= i < |r.slots| :: !r.links[i] ==> HasNeighbour(r.slots, i)
  }

  ghost predicate HasNeighbour(slots: seq<nat>, i: nat) {
    i + 1 < |slots| && slots[i] + TRB_SIZE < TWO_64 && slots[i + 1] == slots[i] + TRB_SIZE
  }

  predicate IsLink(t: Trb) {
    ParseLink(t).Some?
  }

  /**
   * What the driver may put at position `p`: a link to the next slot where a link belongs, toggling at the
   * end only.
   */
  ghost predicate Proper(r: TransferRing, p: nat, t: Trb)
    requires Joined(r)
  {
    var n := |r.slots|;
    && CycleBit(t) == CycleAt(p, n)
    && if r.links[p % n]
       then IsLink(t) && ParseLink(t).value.segmentPointer == r.slots[(p + 1) % n]
            && (ParseLink(t).value.toggleCycle <==> (p + 1) % n == 0)
       else !IsLink(t)
  }

  ghost predicate ProperLog(r: TransferRing, log: seq<Trb>)
    requires Joined(r)
  {
    forall k | 0 <= k < |log| :: Proper(r, k, log[k])
  }

  /** The cursor of a controller that has come to position `p`. */
  function At(r: TransferRing, p: nat): Cursor
    requires 0 < |r.slots|
  {
    Cursor(r.slots[p % |r.slots|], CycleAt(p, |r.slots|))
  }

  /** Following the link at `p`, or stepping over the TRB at `p`, leads to position `p + 1`. */
  lemma StepsForward(r: TransferRing, p: nat, t: Trb)
    requires Joined(r) && Proper(r, p, t)
    ensures if IsLink(t) then FollowLink(At(r, p), ParseLink(t).value) == At(r, p + 1)
      else Advanced(At(r, p)) == At(r, p + 1)
  {
    var n := |r.slots|;
    NextTurn(p, n, p % n + 1);
    if !IsLink(t) {
      assert HasNeighbour(r.slots, p % n);
      var a := r.slots[p % n] + TRB_SIZE;
      Uniquely(a, TWO_64, 0, a);
    }
  }

  /** How far `budget` links reach from position `d`. */
  function Reach(log: seq<Trb>, d: nat, budget: nat): (e: nat)
    ensures d <= e <= d + budget && (d <= |log| ==> e <= |log|)
    ensures forall k | d <= k < e :: k < |log| && IsLink(log[k])
    ensures e < |log| && IsLink(log[e]) ==> e == d + budget
    decreases budget
  {
    if budget == 0 || d >= |log| || !IsLink(log[d]) then d else Reach(log, d + 1, budget - 1)
  }

  /** Against a well-behaved driver, chasing yields the first entry that is no link and stands exactly on it. */
  lemma {:induction false} ChaseReadsLog(m: Memory, r: TransferRing, log: seq<Trb>, d: nat, budget: nat)
    requires Joined(r) && ProperLog(r, log) && Holds(m, r.slots, log) && d <= |log| <= d + |r.slots|
    ensures var e := Reach(log, d, budget);
      Chase(m, At(r, d), budget) ==
        (if e < |log| && !IsLink(log[e]) then Some(RawTrb(At(r, e).pointer, log[e])) else None, At(r, e))
    decreases budget
  {
    PollReadsLog(m, r.slots, log, d);
    assert Fresh(m, At(r, d)) == Poll(m, r.slots, d);
    if d < |log| && IsLink(log[d]) && budget > 0 {
      assert Proper(r, d, log[d]);
      StepsForward(r, d, log[d]);
      ChaseReadsLog(m, r, log, d + 1, budget - 1);
    }
  }

  /** The entries below position `d` that are no links: what a transfer is made of. */
  function Payload(log: seq<Trb>, d: nat): seq<Trb>
    requires d <= |log|
  {
    if d == 0 then []
    else if IsLink(log[d - 1]) then Payload(log, d - 1)
    else Payload(log, d - 1) + [log[d - 1]]
  }

  lemma {:induction false} LinksAddNothing(log: seq<Trb>, d: nat, e: nat)
    requires d <= e <= |log| && forall k | d <= k < e :: IsLink(log[k])
    ensures Payload(log, e) == Payload(log, d)
    decreases e
  {
    if d < e { LinksAddNothing(log, d, e - 1); }
  }

  lemma {:induction false} PayloadGrows(log: seq<Trb>, d: nat, e: nat)
    requires d <= e <= |log|
    ensures Payload(log, d) <= Payload(log, e)
    ensures d < e && !IsLink(log[d]) ==>
      |Payload(log, d)| < |Payload(log, e)| && Payload(log, e)[|Payload(log, d)|] == log[d]
    decreases e
  {
    if d < e { PayloadGrows(log, d, e - 1); }
  }

  lemma {:induction false} PayloadIsStable(log: seq<Trb>, longer: seq<Trb>, d: nat)
    requires d <= |log| && log <= longer
    ensures Payload(log, d) == Payload(longer, d)
  {
    if d > 0 { PayloadIsStable(log, longer, d - 1); }
  }

  // ---------------------------------------------------------------------
  // Driver and controller together
  // ---------------------------------------------------------------------

  /** A TRB the controller took, where it was, and what the ring said about it at that moment. */
  datatype Fetched = Fetched(position: nat, cursor: Cursor, trb: Trb)

  /** `log` is what the driver put in; it reuses slots only below `released`. */
  datatype World = World(
    memory: Memory, cursor: Cursor, position: nat, log: seq<Trb>, fetched: seq<Fetched>, released: nat)

  datatype Move =
    | Put(t: Trb)
    | Peek
    | Fetch
    | Rewind(k: nat)
    | Release(upTo: nat)
    | WriteElsewhere(a: nat, bytes: seq<Byte>)

  /** The driver keeps the cycle discipline; the controller only goes back to TRBs that were not given up yet. */
  ghost predicate Allowed(w: World, a: Move, r: TransferRing)
    requires Joined(r)
  {
    match a
    case Put(t) => Proper(r, |w.log|, t) && |w.log| < w.released + |r.slots|
    case Peek => true
    case Fetch => true
    case Rewind(k) => k < |w.fetched| && w.released <= w.fetched[k].position
    case Release(upTo) => w.released <= upTo <= w.position
    case WriteElsewhere(a, bytes) => OffRing(r.slots, a, |bytes|)
  }

  /** Take the next TRB, if there is one, and step over it. */
  function AfterFetch(w: World): World {
    var e := Reach(w.log, w.position, MAX_LINKS);
    match Chase(w.memory, w.cursor, MAX_LINKS)
    case (None, c) => w.(cursor := c, position := e)
    case (Some(t), c) => w.(cursor := Advanced(c), position := e + 1, fetched := w.fetched + [Fetched(e, c, t.buffer)])
  }

  function Moved(w: World, a: Move, r: TransferRing): World
    requires 0 < |r.slots|
    requires a.Rewind? ==> a.k < |w.fetched|
  {
    match a
    case Put(t) => w.(memory := Write(w.memory, r.slots[|w.log| % |r.slots|], t), log := w.log + [t])
    case Peek =>
      w.(cursor := Chase(w.memory, w.cursor, MAX_LINKS).1, position := Reach(w.log, w.position, MAX_LINKS))
    case Fetch => AfterFetch(w)
    case Rewind(k) => w.(cursor := w.fetched[k].cursor, position := w.fetched[k].position, fetched := w.fetched[..k])
    case Release(upTo) => w.(released := upTo)
    case WriteElsewhere(a, bytes) => w.(memory := Write(w.memory, a, bytes))
  }

  ghost predicate TookAt(w: World, r: TransferRing, j: nat)
    requires 0 < |r.slots| && j < |w.fetched|
  {
    var f := w.fetched[j];
    && f.position < w.position && f.position < |w.log|
    && f.cursor == At(r, f.position) && f.trb == w.log[f.position] && !IsLink(f.trb)
    && |Payload(w.log, f.position)| == j
  }

  /** The controller stands on its position, and has taken exactly the payload below it. */
  ghost predicate InStep(w: World, r: TransferRing)
    requires Joined(r)
  {
    && ProperLog(r, w.log) && Holds(w.memory, r.slots, w.log)
    && w.released <= w.position <= |w.log| <= w.released + |r.slots|
    && w.cursor == At(r, w.position)
    && |w.fetched| == |Payload(w.log, w.position)|
    && (forall j | 0 <= j < |w.fetched| :: TookAt(w, r, j))
  }

  lemma PutKeepsStep(w: World, t: Trb, r: TransferRing)
    requires Joined(r) && InStep(w, r) && Allowed(w, Put(t), r)
    ensures InStep(Moved(w, Put(t), r), r)
  {
    var v := Moved(w, Put(t), r);
    Publish(w.memory, r.slots, w.log, t);
    forall k | 0 <= k < |v.log| ensures Proper(r, k, v.log[k]) {
      assert k < |w.log| ==> Proper(r, k, w.log[k]);
    }
    PayloadIsStable(w.log, v.log, w.position);
    forall j | 0 <= j < |v.fetched| ensures TookAt(v, r, j) {
      assert TookAt(w, r, j);
      PayloadIsStable(w.log, v.log, w.fetched[j].position);
    }
  }

  /** What was taken stays taken as the ring goes on. */
  lemma TookStays(w: World, v: World, r: TransferRing, j: nat)
    requires 0 < |r.slots| && j < |w.fetched| && j < |v.fetched| && TookAt(w, r, j)
    requires v.log == w.log && w.position <= v.position && v.fetched[j] == w.fetched[j]
    ensures TookAt(v, r, j)
  {
  }

  lemma JustTook(v: World, r: TransferRing, e: nat)
    requires 0 < |r.slots| && 0 < |v.fetched| && e < |v.log| && !IsLink(v.log[e]) && v.position == e + 1
    requires v.fetched[|v.fetched| - 1] == Fetched(e, At(r, e), v.log[e]) && |Payload(v.log, e)| == |v.fetched| - 1
    ensures TookAt(v, r, |v.fetched| - 1) && |Payload(v.log, e + 1)| == |v.fetched|
  {
  }

  lemma FetchTakes(w: World, v: World, r: TransferRing, e: nat)
    requires Joined(r) && InStep(w, r) && w.position <= e < |w.log| && !IsLink(w.log[e])
    requires Payload(w.log, e) == Payload(w.log, w.position)
    requires v == w.(cursor := At(r, e + 1), position := e + 1, fetched := w.fetched + [Fetched(e, At(r, e), w.log[e])])
    ensures InStep(v, r)
  {
    JustTook(v, r, e);
    forall j | 0 <= j < |v.fetched| ensures TookAt(v, r, j) {
      if j < |w.fetched| {
        assert TookAt(w, r, j);
        TookStays(w, v, r, j);
      }
    }
  }

  lemma {:induction false} FetchFindsNothing(w: World, v: World, r: TransferRing, e: nat)
    requires Joined(r) && InStep(w, r) && w.position <= e <= |w.log| && Payload(w.log, e) == Payload(w.log, w.position)
    requires v == w.(cursor := At(r, e), position := e)
    ensures InStep(v, r)
  {
    assert forall j | 0 <= j < |w.fetched| :: TookAt(w, r, j) ==> TookAt(v, r, j);
  }

  /** A fetch follows what chasing finds. */
  lemma FetchFollowsChase(w: World, t: Option<RawTrb>, c: Cursor)
    requires Chase(w.memory, w.cursor, MAX_LINKS) == (t, c)
    ensures var e := Reach(w.log, w.position, MAX_LINKS);
      AfterFetch(w) ==
        if t.None? then w.(cursor := c, position := e)
        else w.(cursor := Advanced(c), position := e + 1, fetched := w.fetched + [Fetched(e, c, t.value.buffer)])
  {
  }

  /** What a fetch does, in terms of the driver's log. */
  lemma FetchReadsLog(w: World, r: TransferRing)
    requires Joined(r) && InStep(w, r)
    ensures var e := Reach(w.log, w.position, MAX_LINKS);
      AfterFetch(w) ==
        if e < |w.log| && !IsLink(w.log[e])
        then w.(cursor := At(r, e + 1), position := e + 1, fetched := w.fetched + [Fetched(e, At(r, e), w.log[e])])
        else w.(cursor := At(r, e), position := e)
  {
    var e := Reach(w.log, w.position, MAX_LINKS);
    ChaseReadsLog(w.memory, r, w.log, w.position, MAX_LINKS);
    if e < |w.log| && !IsLink(w.log[e]) {
      FetchFollowsChase(w, Some(RawTrb(At(r, e).pointer, w.log[e])), At(r, e));
      assert Proper(r, e, w.log[e]);
      StepsForward(r, e, w.log[e]);
    } else {
      FetchFollowsChase(w, None, At(r, e));
    }
  }

  lemma FetchKeepsStep(w: World, r: TransferRing)
    requires Joined(r) && InStep(w, r)
    ensures InStep(AfterFetch(w), r)
  {
    var e := Reach(w.log, w.position, MAX_LINKS);
    FetchReadsLog(w, r);
    LinksAddNothing(w.log, w.position, e);
    if e < |w.log| && !IsLink(w.log[e]) {
      FetchTakes(w, AfterFetch(w), r, e);
    } else {
      FetchFindsNothing(w, AfterFetch(w), r, e);
    }
  }

  /** Fetching yields the next payload TRB; it yields nothing only at the end of the log or after 256 links in a row. */
  lemma FetchYieldsNext(w: World, r: TransferRing)
    requires Joined(r) && InStep(w, r)
    ensures var v := AfterFetch(w); var e := Reach(w.log, w.position, MAX_LINKS);
      if e < |w.log| && !IsLink(w.log[e])
      then v.fetched == w.fetched + [Fetched(e, At(r, e), w.log[e])]
      else v.fetched == w.fetched && v.position == e && (e == |w.log| || e == w.position + MAX_LINKS)
  {
    FetchReadsLog(w, r);
  }

  /** Looking without taking only moves past links; looking again finds the same. */
  lemma PeekKeepsStep(w: World, r: TransferRing)
    requires Joined(r) && InStep(w, r)
    ensures var v := Moved(w, Peek, r);
      && InStep(v, r) && v.fetched == w.fetched
      && (Chase(w.memory, w.cursor, MAX_LINKS).0.Some? ==>
           Chase(v.memory, v.cursor, MAX_LINKS) == Chase(w.memory, w.cursor, MAX_LINKS))
  {
    var e := Reach(w.log, w.position, MAX_LINKS);
    ChaseReadsLog(w.memory, r, w.log, w.position, MAX_LINKS);
    LinksAddNothing(w.log, w.position, e);
    FetchFindsNothing(w, Moved(w, Peek, r), r, e);
    if Chase(w.memory, w.cursor, MAX_LINKS).0.Some? {
      SnapshotFindsTheSameTrb(w.memory, w.memory, w.cursor, MAX_LINKS);
    }
  }

  lemma RewindKeepsStep(w: World, k: nat, r: TransferRing)
    requires Joined(r) && InStep(w, r) && Allowed(w, Rewind(k), r)
    ensures InStep(Moved(w, Rewind(k), r), r)
  {
    var v := Moved(w, Rewind(k), r);
    assert TookAt(w, r, k);
    forall j | 0 <= j < k ensures TookAt(v, r, j) {
      assert TookAt(w, r, j);
      if w.fetched[k].position <= w.fetched[j].position {
        PayloadGrows(w.log, w.fetched[k].position, w.fetched[j].position);
        assert false;
      }
    }
  }

  lemma MoveKeepsStep(w: World, a: Move, r: TransferRing)
    requires Joined(r) && InStep(w, r) && Allowed(w, a, r)
    ensures InStep(Moved(w, a, r), r)
  {
    match a
    case Put(t) => PutKeepsStep(w, t, r);
    case Peek => PeekKeepsStep(w, r);
    case Fetch => FetchKeepsStep(w, r);
    case Rewind(k) => RewindKeepsStep(w, k, r);
    case Release(upTo) =>
      assert forall j | 0 <= j < |w.fetched| :: TookAt(w, r, j) ==> TookAt(Moved(w, a, r), r, j);
    case WriteElsewhere(x, bytes) =>
      WriteBeside(w.memory, r.slots, w.log, x, bytes);
      assert forall j | 0 <= j < |w.fetched| :: TookAt(w, r, j) ==> TookAt(Moved(w, a, r), r, j);
  }

  ghost predicate MoveAt(ws: seq<World>, moves: seq<Move>, i: nat, r: TransferRing)
    requires Joined(r) && |ws| == |moves| + 1 && i < |moves|
  {
    Allowed(ws[i], moves[i], r) && ws[i + 1] == Moved(ws[i], moves[i], r)
  }

  /** A run from a ring of cleared slots. */
  ghost predicate Play(ws: seq<World>, moves: seq<Move>, r: TransferRing) {
    && Joined(r) && |ws| == |moves| + 1
    && Backed(ws[0].memory, r.slots)
    && (forall i | 0 <= i < |r.slots| :: NeverWritten(ws[0].memory, r.slots, i))
    && ws[0] == World(ws[0].memory, Cursor(r.slots[0], true), 0, [], [], 0)
    && (forall i | 0 <= i < |moves| :: MoveAt(ws, moves, i, r))
  }

  lemma {:induction false} PlayStaysInStep(ws: seq<World>, moves: seq<Move>, r: TransferRing, i: nat)
    requires Play(ws, moves, r) && i < |ws|
    ensures InStep(ws[i], r)
    decreases i
  {
    if i == 0 {
      SmallPosition(0, |r.slots|);
    } else {
      PlayStaysInStep(ws, moves, r, i - 1);
      assert MoveAt(ws, moves, i - 1, r);
      MoveKeepsStep(ws[i - 1], moves[i - 1], r);
    }
  }

  /** A TRB was taken because its cycle bit was that of the ring. */
  lemma FetchedIsFresh(w: World, r: TransferRing, j: nat)
    requires Joined(r) && InStep(w, r) && j < |w.fetched|
    ensures CycleBit(w.fetched[j].trb) == w.fetched[j].cursor.cycle
  {
    assert TookAt(w, r, j);
    assert Proper(r, w.fetched[j].position, w.log[w.fetched[j].position]);
  }

  lemma FetchedIsPayload(w: World, r: TransferRing, j: nat)
    requires Joined(r) && InStep(w, r) && j < |w.fetched|
    ensures j < |Payload(w.log, |w.log|)| && w.fetched[j].trb == Payload(w.log, |w.log|)[j]
  {
    assert TookAt(w, r, j);
    PayloadGrows(w.log, w.fetched[j].position, |w.log|);
  }

  /**
   * In every run the controller has taken exactly the first TRBs of the driver's payload, each once
   * and in order. The next fetch takes the next one if it takes any; it comes back empty-handed with
   * payload pending only after 256 links in a row, and then nothing is lost: it stands past them.
   */
  lemma RingYieldsPayload(ws: seq<World>, moves: seq<Move>, r: TransferRing, i: nat)
    requires Play(ws, moves, r) && i < |ws|
    ensures var w := ws[i]; var all := Payload(w.log, |w.log|); var v := AfterFetch(w);
      && |w.fetched| <= |all|
      && (forall j | 0 <= j < |w.fetched| :: w.fetched[j].trb == all[j])
      && (|v.fetched| > |w.fetched| ==> |w.fetched| < |all| && v.fetched[|w.fetched|].trb == all[|w.fetched|])
      && (|v.fetched| == |w.fetched| < |all| ==>
            v.position == w.position + MAX_LINKS && forall k | w.position <= k < v.position :: IsLink(w.log[k]))
  {
    var w := ws[i];
    PlayStaysInStep(ws, moves, r, i);
    FetchKeepsStep(w, r);
    FetchYieldsNext(w, r);
    LinksAddNothing(w.log, w.position, Reach(w.log, w.position, MAX_LINKS));
    var v := AfterFetch(w);
    forall j | 0 <= j < |w.fetched|
      ensures j < |Payload(w.log, |w.log|)| && w.fetched[j].trb == Payload(w.log, |w.log|)[j] {
      FetchedIsPayload(w, r, j);
    }
    if |w.fetched| < |v.fetched| { FetchedIsPayload(v, r, |w.fetched|); }
    PayloadGrows(w.log, w.position, |w.log|);
  }

  /**
   * Going back to the recorded cursor of a TRB and fetching again takes that same TRB from that
   * same place, however many links, toggling or not, lay between.
   */
  lemma RewindFetchesAgain(ws: seq<World>, moves: seq<Move>, r: TransferRing, i: nat, k: nat)
    requires Play(ws, moves, r) && i < |ws|
    requires Allowed(ws[i], Rewind(k), r)
    ensures var back := Moved(ws[i], Rewind(k), r);
      && Chase(back.memory, back.cursor, MAX_LINKS)
         == (Some(RawTrb(ws[i].fetched[k].cursor.pointer, ws[i].fetched[k].trb)), ws[i].fetched[k].cursor)
      && AfterFetch(back).fetched == ws[i].fetched[..k + 1]
  {
    var w := ws[i];
    PlayStaysInStep(ws, moves, r, i);
    RewindKeepsStep(w, k, r);
    var back := Moved(w, Rewind(k), r);
    assert TookAt(w, r, k);
    ChaseReadsLog(back.memory, r, back.log, back.position, MAX_LINKS);
    FetchYieldsNext(back, r);
  }
}
