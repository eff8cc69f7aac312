/**
 * IN transfers. The TRBs of a transfer descriptor (TD) are collected until the chain ends, become
 * one device request, and the reply is scattered back over their buffers. Lengths are summed up
 * from the front; everything that happens is decided by where the reply runs out.
 */
module InTransfers {
  import opened Bytes
  import opened CycleRings
  import opened GuestMemory
  import opened LinkedRings
  import opened Trbs
  import opened Wrappers

  datatype InTrb = InTrb(addr: nat, cycleBit: bool, variant: TransferTrb)

  function Length(t: InTrb): nat { if t.variant.Normal? then t.variant.length else 0 }

  predicate Supported(t: InTrb) { !t.variant.Unsupported? }

  predicate Chained(t: InTrb)
    requires Supported(t)
  {
    t.variant.chain
  }

  datatype Status = Delivered | Stalled | TransactionFailed | Disconnected

  datatype ProcessingResult =
    | Ok
    | Stall(at: Option<(nat, bool)>)
    | TransactionError(at: Option<(nat, bool)>)
    | Disconnect
    | TrbError

  datatype Reply = Reply(status: Status, data: seq<Byte>)

  datatype Endpoint = Endpoint(endpointId: Byte, slotId: Byte)

  // ---------------------------------------------------------------------
  // What a TD and a reply amount to
  // ---------------------------------------------------------------------

  /** Bytes asked for by the first `n` TRBs. */
  function Requested(td: seq<InTrb>, n: nat): nat
    requires n <= |td|
  {
    if n == 0 then 0 else Requested(td, n - 1) + Length(td[n - 1])
  }

  lemma {:induction false} RequestedGrows(td: seq<InTrb>, i: nat, j: nat)
    requires i <= j <= |td|
    ensures Requested(td, i) <= Requested(td, j)
    decreases j
  {
    if i < j { RequestedGrows(td, i, j - 1); }
  }

  /** The first TRB from `i` on that `available` bytes cannot fill, or the length of the TD. */
  function ShortFrom(td: seq<InTrb>, available: nat, i: nat): (k: nat)
    requires i <= |td|
    ensures i <= k <= |td|
    ensures k < |td| ==> available < Requested(td, k + 1)
    ensures i < k ==> Requested(td, k) <= available
    decreases |td| - i
  {
    if i == |td| || available < Requested(td, i + 1) then i else ShortFrom(td, available, i + 1)
  }

  function FirstShort(td: seq<InTrb>, available: nat): (k: nat)
    ensures k <= |td|
  {
    ShortFrom(td, available, 0)
  }

  /** Seen from TRB `i`: whether it can be filled decides where the shortage is. */
  lemma ShortageAt(td: seq<InTrb>, available: nat, i: nat)
    requires i < |td|
    ensures var k := FirstShort(td, available);
      && (k < i ==> available < Requested(td, i))
      && (i < k ==> Requested(td, i + 1) <= available)
      && (i == k ==> Requested(td, i) <= available < Requested(td, i + 1))
  {
    var k := FirstShort(td, available);
    if k < i { RequestedGrows(td, k + 1, i); }
    if i < k { RequestedGrows(td, i + 1, k); }
  }

  /** Some TRB is short exactly if the whole TD asked for more, and it is the only one where the sum crosses. */
  lemma {:induction false} FirstShortCrosses(td: seq<InTrb>, available: nat)
    ensures var k := FirstShort(td, available);
      && (k < |td| <==> available < Requested(td, |td|))
      && (k < |td| ==> Requested(td, k) <= available < Requested(td, k + 1) && td[k].variant.Normal?)
      && (forall j | 0 <= j < |td| && Crosses(td, available, j) :: j == k)
  {
    var k := FirstShort(td, available);
    if k < |td| {
      RequestedGrows(td, k + 1, |td|);
      ShortageAt(td, available, k);
    }
    forall j | 0 <= j < |td| && Crosses(td, available, j) ensures j == k {
      ShortageAt(td, available, j);
    }
  }

  predicate Crosses(td: seq<InTrb>, available: nat, j: nat)
    requires j < |td|
  {
    Requested(td, j) <= available < Requested(td, j + 1)
  }

  function Min(a: nat, b: nat): nat { if a < b then a else b }

  /** The part of the reply that belongs to TRB `i`. */
  function Share(td: seq<InTrb>, data: seq<Byte>, i: nat): seq<Byte>
    requires i < |td|
  {
    RequestedGrows(td, i, i + 1);
    data[Min(Requested(td, i), |data|)..Min(Requested(td, i + 1), |data|)]
  }

  /** Memory after the shares of the first `n` TRBs were written to their buffers. */
  function Scattered(m: Memory, td: seq<InTrb>, data: seq<Byte>, n: nat): (r: Memory)
    requires n <= |td|
    ensures r.Keys == m.Keys
  {
    if n == 0 then m
    else if td[n - 1].variant.Normal?
    then Write(Scattered(m, td, data, n - 1), td[n - 1].variant.dataPointer, Share(td, data, n - 1))
    else Scattered(m, td, data, n - 1)
  }

  function TransferReport(e: Endpoint, t: InTrb, residue: nat, code: CompletionCode): seq<EventTrb> {
    [TransferEvent(t.addr, residue, code, false, e.endpointId, e.slotId)]
  }

  function FailureCode(s: Status): CompletionCode { if s == Stalled then STALL_ERROR else USB_TRANSACTION_ERROR }

  /** Bytes missing where the reply ran out. */
  function Missing(td: seq<InTrb>, available: nat): nat
    requires FirstShort(td, available) < |td|
  {
    Requested(td, FirstShort(td, available) + 1) - available
  }

  /**
   * The events TRB `i` causes: filled ones report success if asked to, the first short one and what follows
   * report the shortage.
   */
  function Report(e: Endpoint, td: seq<InTrb>, r: Reply, i: nat): seq<EventTrb>
    requires i < |td|
  {
    var t, k := td[i], FirstShort(td, |r.data|);
    match t.variant
    case NoOp(_, ioc) => if ioc then TransferReport(e, t, 0, SUCCESS) else []
    case Normal(_, _, _, ioc, isp) =>
      if i < k then if ioc then TransferReport(e, t, 0, SUCCESS) else []
      else if r.status != Delivered then TransferReport(e, t, Missing(td, |r.data|), FailureCode(r.status))
      else if ioc || (i == k && isp) then TransferReport(e, t, Missing(td, |r.data|), SHORT_PACKET)
      else []
    case _ => []
  }

  function Reports(e: Endpoint, td: seq<InTrb>, r: Reply, n: nat): seq<EventTrb>
    requires n <= |td|
  {
    if n == 0 then [] else Reports(e, td, r, n - 1) + Report(e, td, r, n - 1)
  }

  /** How many TRBs are gone through: a failed transfer ends at the first TRB it did not fill. */
  function Handled(td: seq<InTrb>, r: Reply): (n: nat)
    ensures n <= |td|
  {
    var k := FirstShort(td, |r.data|);
    if r.status != Delivered && k < |td| then k + 1 else |td|
  }

  function Outcome(td: seq<InTrb>, r: Reply): ProcessingResult {
    var k := FirstShort(td, |r.data|);
    if k == |td| then Ok else
      match r.status
      case Delivered => Ok
      case Stalled => Stall(Some((td[k].addr, td[k].cycleBit)))
      case TransactionFailed => TransactionError(Some((td[k].addr, td[k].cycleBit)))
      case Disconnected => Disconnect
  }

  // ---------------------------------------------------------------------
  // Working through a reply, TRB by TRB
  // ---------------------------------------------------------------------

  /** Where events go; the receiving end is the interrupt worker. */
  class EventSender {
    var sent: seq<EventTrb>

    constructor ()
      ensures sent == []
    {
      sent := [];
    }

    method Send(e: EventTrb)
      modifies this
      ensures sent == old(sent) + [e]
    {
      sent := sent + [e];
    }
  }

  datatype TdState = Default | ShortTransfer(missing: nat)

  /**
   * Dealing with one TRB: the state and data afterwards, the bytes written, the events, and an outcome if
   * this is the end.
   */
  datatype Work = Work(
    state: TdState, rest: seq<Byte>, written: seq<Byte>, events: seq<EventTrb>, early: Option<ProcessingResult>)

  function WorkNormal(e: Endpoint, status: Status, state: TdState, data: seq<Byte>, t: InTrb): Work
    requires t.variant.Normal?
  {
    var v := t.variant;
    match state
    case ShortTransfer(missing) =>
      Work(state, data, [], if v.ioc then TransferReport(e, t, missing, SHORT_PACKET) else [], None)
    case Default =>
      if v.length <= |data| then
        Work(Default, data[v.length..], data[..v.length], if v.ioc then TransferReport(e, t, 0, SUCCESS) else [], None)
      else
        var missing := v.length - |data|;
        if status == Delivered then
          Work(ShortTransfer(missing), [], data, if v.ioc || v.isp then TransferReport(e, t, missing, SHORT_PACKET)
            else [], None)
        else
          var at := Some((t.addr, t.cycleBit));
          Work(Default, [], data, TransferReport(e, t, missing, FailureCode(status)),
               Some(match status
                    case Stalled => Stall(at) case TransactionFailed => TransactionError(at) case _ => Disconnect))
  }

  class TdProcessingInfo {
    const endpoint: Endpoint
    const status: Status
    const events: EventSender
    const dma: DmaMemory
    var state: TdState
    var data: seq<Byte>

    constructor (endpoint: Endpoint, r: Reply, events: EventSender, dma: DmaMemory)
      ensures this.endpoint == endpoint && this.status == r.status && this.events == events && this.dma == dma
      ensures state == Default && data == r.data
    {
      this.endpoint, this.status, this.events, this.dma := endpoint, r.status, events, dma;
      state, data := Default, r.data;
    }

    method ProcessNormalTrb(t: InTrb) returns (early: Option<ProcessingResult>)
      requires t.variant.Normal?
      modifies this, events, dma
      ensures var w := WorkNormal(endpoint, status, old(state), old(data), t);
        && state == w.state && data == w.rest && early == w.early
        && dma.bytes == Write(old(dma.bytes), t.variant.dataPointer, w.written)
        && events.sent == old(events.sent) + w.events
    {
      if state.ShortTransfer? {
        WriteNothing(dma.bytes, t.variant.dataPointer);
        if t.variant.ioc {
          events.Send(TransferEvent(t.addr, state.missing, SHORT_PACKET, false, endpoint.endpointId, endpoint.slotId));
        }
        return None;
      }
      var requested, available := t.variant.length, |data|;
      var count := if requested < available then requested else available;
      var bytes := data[..count];
      data := data[count..];
      dma.bytes := Write(dma.bytes, t.variant.dataPointer, bytes);
      if available < requested {
        var missing := requested - available;
        if status == Delivered {
          if t.variant.ioc || t.variant.isp {
            events.Send(TransferEvent(t.addr, missing, SHORT_PACKET, false, endpoint.endpointId, endpoint.slotId));
          }
          state := ShortTransfer(missing);
          return None;
        }
        var code := if status == Stalled then STALL_ERROR else USB_TRANSACTION_ERROR;
        events.Send(TransferEvent(t.addr, missing, code, false, endpoint.endpointId, endpoint.slotId));
        match status {
          case Stalled => return Some(Stall(Some((t.addr, t.cycleBit))));
          case TransactionFailed => return Some(TransactionError(Some((t.addr, t.cycleBit))));
          case _ => return Some(Disconnect);
        }
      }
      if t.variant.ioc {
        events.Send(TransferEvent(t.addr, 0, SUCCESS, false, endpoint.endpointId, endpoint.slotId));
      }
      return None;
    }

    /** Either the next TRB is dealt with, or the transfer ends here with its outcome. */
    method ProcessTrb(
      t: InTrb, ghost td: seq<InTrb>, ghost r: Reply, ghost i: nat, ghost m: Memory, ghost sent: seq<EventTrb>)
      returns (early: Option<ProcessingResult>)
      requires i < |td| && td[i] == t && Supported(t) && !t.variant.EventData?
      requires status == r.status && Standing(state, data, td, r, i)
      requires Done(m, sent, dma.bytes, events.sent, endpoint, td, r, i)
      modifies this, events, dma
      ensures Done(m, sent, dma.bytes, events.sent, endpoint, td, r, i + 1)
      ensures early.None? ==> Standing(state, data, td, r, i + 1)
      ensures early.Some? <==> r.status != Delivered && i == FirstShort(td, |r.data|)
      ensures early.Some? ==> early.value == Outcome(td, r) && Handled(td, r) == i + 1
    {
      OneMore(m, sent, dma.bytes, events.sent, endpoint, td, r, i);
      if t.variant.Normal? {
        WorkFollowsPlan(endpoint, state, data, td, r, i);
        early := ProcessNormalTrb(t);
      } else {
        if t.variant.ioc {
          events.Send(TransferEvent(t.addr, 0, SUCCESS, false, endpoint.endpointId, endpoint.slotId));
        }
        ShortageAt(td, |r.data|, i);
        return None;
      }
    }
  }

  /** The first `i` TRBs of the TD are done, with this state and this data left. */
  ghost predicate Standing(state: TdState, data: seq<Byte>, td: seq<InTrb>, r: Reply, i: nat)
    requires i <= |td|
  {
    && data == Left(td, r.data, i)
    && state == (if FirstShort(td, |r.data|) < i then ShortTransfer(Missing(td, |r.data|)) else Default)
    && (r.status != Delivered ==> i <= FirstShort(td, |r.data|))
  }

  /** What is left of the data when each of the first `i` TRBs has taken its due. */
  function Left(td: seq<InTrb>, data: seq<Byte>, i: nat): seq<Byte>
    requires i <= |td|
  {
    if i == 0 then data else var l := Left(td, data, i - 1); l[Min(Length(td[i - 1]), |l|)..]
  }

  lemma {:induction false} LeftIsSuffix(td: seq<InTrb>, data: seq<Byte>, i: nat)
    requires i <= |td|
    ensures Left(td, data, i) == data[Min(Requested(td, i), |data|)..]
  {
    if i > 0 { LeftIsSuffix(td, data, i - 1); }
  }

  /** What is left after the first `i` shares begins with share `i`. */
  lemma {:induction false} ShareIsNext(td: seq<InTrb>, data: seq<Byte>, i: nat)
    requires i < |td|
    ensures var l := Left(td, data, i);
      && |l| == |data| - Min(Requested(td, i), |data|)
      && Share(td, data, i) == l[..Min(Length(td[i]), |l|)]
  {
    LeftIsSuffix(td, data, i);
  }

  /** Dealing with TRB `i` from where the first `i` left off does what the sums say. */
  lemma WorkFollowsPlan(e: Endpoint, state: TdState, data: seq<Byte>, td: seq<InTrb>, r: Reply, i: nat)
    requires i < |td| && td[i].variant.Normal? && Standing(state, data, td, r, i)
    ensures var w := WorkNormal(e, r.status, state, data, td[i]);
      && w.written == Share(td, r.data, i)
      && w.events == Report(e, td, r, i)
      && (w.early.None? ==> Standing(w.state, w.rest, td, r, i + 1))
      && (w.early.Some? <==> r.status != Delivered && i == FirstShort(td, |r.data|))
      && (w.early.Some? ==> w.early.value == Outcome(td, r))
  {
    ShortageAt(td, |r.data|, i);
    ShareIsNext(td, r.data, i);
  }

  lemma WriteNothing(m: Memory, a: nat)
    ensures Write(m, a, []) == m
  {
  }

  /** Memory and events after the first `i` TRBs. */
  ghost predicate Done(
    m: Memory, sent: seq<EventTrb>, now: Memory, events: seq<EventTrb>, e: Endpoint, td: seq<InTrb>, r: Reply, i: nat)
    requires i <= |td|
  {
    now == Scattered(m, td, r.data, i) && events == sent + Reports(e, td, r, i)
  }

  lemma OneMore(
    m: Memory, sent: seq<EventTrb>, now: Memory, events: seq<EventTrb>, e: Endpoint, td: seq<InTrb>, r: Reply, i: nat)
    requires i < |td| && Done(m, sent, now, events, e, td, r, i)
    ensures var t := td[i];
      var next := if t.variant.Normal? then Write(now, t.variant.dataPointer, Share(td, r.data, i)) else now;
      Done(m, sent, next, events + Report(e, td, r, i), e, td, r, i + 1)
  {
  }

  lemma EndsWell(state: TdState, data: seq<Byte>, td: seq<InTrb>, r: Reply)
    requires Standing(state, data, td, r, |td|)
    ensures Handled(td, r) == |td| && Outcome(td, r) == Ok
  {
  }

  /** Having ended early or gone through all of them, everything the reply calls for is done. */
  lemma {:induction false} AllDone(
    m: Memory, sent: seq<EventTrb>, now: Memory, events: seq<EventTrb>, e: Endpoint, td: seq<InTrb>, r: Reply, i: nat)
    requires i <= |td| && Done(m, sent, now, events, e, td, r, i) && i == Handled(td, r)
    ensures now == Scattered(m, td, r.data, |td|) && events == sent + Reports(e, td, r, Handled(td, r))
  {
    if i < |td| { NothingAfterTheShortage(m, td, r.data, i); }
  }

  /** The whole reply, in the order of the TRBs. */
  method ProcessRealTransferResponse(e: Endpoint, r: Reply, td: seq<InTrb>, events: EventSender, dma: DmaMemory)
    returns (result: ProcessingResult)
    requires forall i | 0 <= i < |td| :: Supported(td[i]) && !td[i].variant.EventData?
    modifies events, dma
    ensures dma.bytes == Scattered(old(dma.bytes), td, r.data, |td|)
    ensures events.sent == old(events.sent) + Reports(e, td, r, Handled(td, r))
    ensures result == Outcome(td, r)
  {
    ghost var m, sent := dma.bytes, events.sent;
    var info := new TdProcessingInfo(e, r, events, dma);
    var i := 0;
    while i < |td|
      invariant i <= |td| && fresh(info)
      invariant info.endpoint == e && info.events == events && info.dma == dma && info.status == r.status
      invariant Standing(info.state, info.data, td, r, i)
      invariant Done(m, sent, dma.bytes, events.sent, e, td, r, i)
    {
      var early := info.ProcessTrb(td[i], td, r, i, m, sent);
      if early.Some? {
        AllDone(m, sent, dma.bytes, events.sent, e, td, r, i + 1);
        return early.value;
      }
      i := i + 1;
    }
    EndsWell(info.state, info.data, td, r);
    AllDone(m, sent, dma.bytes, events.sent, e, td, r, i);
    return Ok;
  }

  /** TRBs after the first short one receive nothing. */
  lemma {:induction false} NothingAfterTheShortage(m: Memory, td: seq<InTrb>, data: seq<Byte>, n: nat)
    requires FirstShort(td, |data|) < n <= |td|
    ensures Scattered(m, td, data, n) == Scattered(m, td, data, |td|)
    decreases |td| - n
  {
    if n < |td| {
      ShortageAt(td, |data|, n);
      RequestedGrows(td, n, n + 1);
      assert Share(td, data, n) == [];
      WriteNothing(Scattered(m, td, data, n), if td[n].variant.Normal? then td[n].variant.dataPointer else 0);
      NothingAfterTheShortage(m, td, data, n + 1);
    }
  }

  // ---------------------------------------------------------------------
  // The endpoint handle: collecting a TD and completing it
  // ---------------------------------------------------------------------

  datatype SubmissionState =
    | CollectingTd(trbs: seq<InTrb>)
    | AwaitingRealTransfer(trbs: seq<InTrb>)
    | UnsupportedTrb

  const IDLE := CollectingTd([])

  function ToInTrb(t: RawTrb): InTrb {
    InTrb(t.address, CycleBit(t.buffer), ParseTransfer(t.buffer))
  }

  /** Submitting one more TRB while collecting: the new state and the request it makes, if it ends the TD. */
  function Submitted(trbs: seq<InTrb>, t: InTrb): (SubmissionState, Option<nat>) {
    if !Supported(t) then (UnsupportedTrb, None)
    else if Chained(t) then (CollectingTd(trbs + [t]), None)
    else (AwaitingRealTransfer(trbs + [t]), Some(Requested(trbs + [t], |trbs| + 1)))
  }

  class TdBasedInEndpointHandle {
    const endpoint: Endpoint
    const events: EventSender
    const dma: DmaMemory
    var submission: SubmissionState
    /** The lengths asked of the device so far. */
    var requests: seq<nat>

    constructor (endpoint: Endpoint, events: EventSender, dma: DmaMemory)
      ensures this.endpoint == endpoint && this.events == events && this.dma == dma
      ensures submission == IDLE && requests == []
    {
      this.endpoint, this.events, this.dma := endpoint, events, dma;
      submission, requests := IDLE, [];
    }

    /** `accepts` is the device's answer to a request; a refused one leaves the TD collected. */
    method SubmitTrb(trb: RawTrb, accepts: bool) returns (ok: bool)
      modifies this
      ensures old(submission).CollectingTd? <== ok
      ensures !old(submission).CollectingTd? ==> submission == old(submission) && requests == old(requests)
      ensures old(submission).CollectingTd? ==>
        var (next, request) := Submitted(old(submission).trbs, ToInTrb(trb));
        && ok == (request.None? || accepts)
        && submission == (if ok then next else CollectingTd(next.trbs))
        && requests == (if ok && request.Some? then old(requests) + [request.value] else old(requests))
    {
      if !submission.CollectingTd? {
        return false;
      }
      var t := ToInTrb(trb);
      if !Supported(t) {
        submission := UnsupportedTrb;
        return true;
      }
      var trbs := submission.trbs + [t];
      submission := CollectingTd(trbs);
      if !Chained(t) {
        var length := 0;
        for i := 0 to |trbs|
          invariant length == Requested(trbs, i)
        {
          length := length + Length(trbs[i]);
        }
        if !accepts {
          return false;
        }
        requests := requests + [length];
        submission := AwaitingRealTransfer(trbs);
      }
      return true;
    }

    /** `reply` is what the device came back with, `None` if asking it failed. */
    method NextCompletion(reply: Option<Reply>) returns (r: Option<ProcessingResult>)
      requires submission.AwaitingRealTransfer? ==>
        forall i | 0 <= i < |submission.trbs| :: Supported(submission.trbs[i]) && !submission.trbs[i].variant.EventData?
      modifies this, events, dma
      ensures requests == old(requests)
      ensures match old(submission)
        case CollectingTd(_) => r == Some(Ok) && submission ==
          old(submission) && Untouched(old(dma.bytes), old(events.sent))
        case UnsupportedTrb => r == Some(TrbError) && submission == IDLE && Untouched(old(dma.bytes), old(events.sent))
        case AwaitingRealTransfer(td) =>
          if reply.None? then r == None && submission == old(submission) && Untouched(old(dma.bytes), old(events.sent))
          else
            && r == Some(Outcome(td, reply.value)) && submission == IDLE
            && dma.bytes == Scattered(old(dma.bytes), td, reply.value.data, |td|)
            && events.sent == old(events.sent) + Reports(endpoint, td, reply.value, Handled(td, reply.value))
    {
      match submission
      case CollectingTd(_) => return Some(Ok);
      case UnsupportedTrb =>
        submission := IDLE;
        return Some(TrbError);
      case AwaitingRealTransfer(trbs) =>
        if reply == None {
          return None;
        }
        submission := IDLE;
        var result := ProcessRealTransferResponse(endpoint, reply.value, trbs, events, dma);
        return Some(result);
    }

    ghost predicate Untouched(m: Memory, sent: seq<EventTrb>)
      reads this, events, dma
    {
      dma.bytes == m && events.sent == sent
    }

    method Cancel()
      modifies this
      ensures submission == IDLE && requests == old(requests)
    {
      submission := IDLE;
    }
  }

  // ---------------------------------------------------------------------
  // What the driver gets to see
  // ---------------------------------------------------------------------

  /** Supported TRBs chained up to the last one: a complete TD. */
  ghost predicate IsTd(td: seq<InTrb>) {
    && 0 < |td|
    && (forall i | 0 <= i < |td| :: Supported(td[i]))
    && (forall i | 0 <= i < |td| :: Chained(td[i]) <==> i + 1 < |td|)
  }

  /** Submitting the first `n` TRBs of a TD one after the other: the state, and all requests made. */
  function Collected(td: seq<InTrb>, n: nat): (SubmissionState, seq<nat>)
    requires n <= |td|
  {
    if n == 0 then (IDLE, [])
    else
      var (state, made) := Collected(td, n - 1);
      if !state.CollectingTd? then (state, made)
      else var (next, request) := Submitted(state.trbs, td[n - 1]);
        (next, if request.Some? then made + [request.value] else made)
  }

  lemma {:induction false} CollectsPrefix(td: seq<InTrb>, n: nat)
    requires IsTd(td) && n < |td|
    ensures Collected(td, n) == (CollectingTd(td[..n]), [])
  {
    if n > 0 {
      CollectsPrefix(td, n - 1);
      assert td[..n - 1] + [td[n - 1]] == td[..n];
    }
  }

  /** A TD becomes exactly one device request, made with its last TRB and asking for the sum of all buffers. */
  lemma {:induction false} TdBecomesOneRequest(td: seq<InTrb>)
    requires IsTd(td)
    ensures Collected(td, |td|) == (AwaitingRealTransfer(td), [Requested(td, |td|)])
  {
    var n := |td| - 1;
    CollectsPrefix(td, n);
    assert Supported(td[n]) && !Chained(td[n]);
    assert td[..n] + [td[n]] == td;
    assert Submitted(td[..n], td[n]) == (AwaitingRealTransfer(td), Some(Requested(td, |td|)));
    assert [] + [Requested(td, |td|)] == [Requested(td, |td|)];
  }

  function SharesUpTo(td: seq<InTrb>, data: seq<Byte>, n: nat): seq<Byte>
    requires n <= |td|
  {
    if n == 0 then [] else SharesUpTo(td, data, n - 1) + Share(td, data, n - 1)
  }

  /** The shares, laid end to end, are the reply itself as far as it was asked for: no byte lost, doubled or moved. */
  lemma {:induction false} SharesMakeTheReply(td: seq<InTrb>, data: seq<Byte>, n: nat)
    requires n <= |td|
    ensures SharesUpTo(td, data, n) == data[..Min(Requested(td, n), |data|)]
  {
    if n > 0 {
      SharesMakeTheReply(td, data, n - 1);
      RequestedGrows(td, n - 1, n);
      var a, b := Min(Requested(td, n - 1), |data|), Min(Requested(td, n), |data|);
      assert data[..a] + data[a..b] == data[..b];
    }
  }

  /** Buffers of the Normal TRBs do not share a byte. */
  ghost predicate BuffersApart(td: seq<InTrb>) {
    forall i, j | 0 <= i < j < |td| && td[i].variant.Normal? && td[j].variant.Normal? ::
      Apart(td[i].variant.dataPointer, Length(td[i]), td[j].variant.dataPointer, Length(td[j]))
  }

  lemma ShareFitsBuffer(td: seq<InTrb>, data: seq<Byte>, i: nat)
    requires i < |td|
    ensures |Share(td, data, i)| <= Length(td[i])
    ensures Filled(td, |data|, i) ==> |Share(td, data, i)| == Length(td[i])
  {
  }

  predicate Filled(td: seq<InTrb>, available: nat, i: nat)
    requires i < |td|
  {
    Requested(td, i + 1) <= available
  }

  /** Once the whole TD is dealt with, every buffer starts with its share and is otherwise as it was. */
  lemma {:induction false} BuffersHoldTheirShares(m: Memory, td: seq<InTrb>, data: seq<Byte>, n: nat, i: nat)
    requires i < n <= |td| && td[i].variant.Normal? && BuffersApart(td)
    requires Mapped(m, td[i].variant.dataPointer, Length(td[i]))
    ensures var p := td[i].variant.dataPointer; var share := Share(td, data, i);
      && |share| <= Length(td[i])
      && Read(Scattered(m, td, data, n), p, |share|) == share
      && Read(Scattered(m, td, data, n), p + |share|, Length(td[i]) - |share|) ==
           Read(m, p + |share|, Length(td[i]) - |share|)
    decreases n
  {
    ShareFitsBuffer(td, data, i);
    if n == i + 1 {
      BufferGetsItsShare(m, td, data, i);
    } else {
      var p, share := td[i].variant.dataPointer, Share(td, data, i);
      BuffersHoldTheirShares(m, td, data, n - 1, i);
      if td[n - 1].variant.Normal? {
        ShareFitsBuffer(td, data, n - 1);
        var before := Scattered(m, td, data, n - 1);
        var q, other := td[n - 1].variant.dataPointer, Share(td, data, n - 1);
        assert Apart(p, Length(td[i]), q, Length(td[n - 1]));
        ReadElsewhere(before, q, other, p, |share|);
        ReadElsewhere(before, q, other, p + |share|, Length(td[i]) - |share|);
      }
    }
  }

  lemma {:induction false} BufferGetsItsShare(m: Memory, td: seq<InTrb>, data: seq<Byte>, i: nat)
    requires i < |td| && td[i].variant.Normal? && BuffersApart(td) && |Share(td, data, i)| <= Length(td[i])
    requires Mapped(m, td[i].variant.dataPointer, Length(td[i]))
    ensures var p := td[i].variant.dataPointer; var share := Share(td, data, i);
      && Read(Scattered(m, td, data, i + 1), p, |share|) == share
      && Read(Scattered(m, td, data, i + 1), p + |share|, Length(td[i]) - |share|) ==
           Read(m, p + |share|, Length(td[i]) - |share|)
  {
    var p, share, before := td[i].variant.dataPointer, Share(td, data, i), Scattered(m, td, data, i);
    assert Scattered(m, td, data, i + 1) == Write(before, p, share);
    OthersKeepBuffer(m, td, data, i, i);
    ReadsWithin(before, m, p, Length(td[i]), |share|);
    WriteIntoBuffer(m, before, p, share, Length(td[i]));
  }

  lemma WriteIntoBuffer(m: Memory, before: Memory, p: nat, bytes: seq<Byte>, n: nat)
    requires |bytes| <= n && Mapped(m, p, n) && before.Keys == m.Keys
    ensures Read(Write(before, p, bytes), p, |bytes|) == bytes
    ensures Read(Write(before, p, bytes), p + |bytes|, n - |bytes|) == Read(before, p + |bytes|, n - |bytes|)
  {
    assert forall x | p <= x < p + |bytes| :: x in m ==> x in before;
    ReadBack(before, p, bytes);
    ReadElsewhere(before, p, bytes, p + |bytes|, n - |bytes|);
  }

  lemma ReadsWithin(a: Memory, b: Memory, p: nat, n: nat, k: nat)
    requires k <= n && Read(a, p, n) == Read(b, p, n)
    ensures Read(a, p + k, n - k) == Read(b, p + k, n - k)
  {
    assert Read(a, p + k, n - k) == Read(a, p, n)[k..];
    assert Read(b, p + k, n - k) == Read(b, p, n)[k..];
  }

  /** Until its turn comes, a buffer is left alone. */
  lemma {:induction false} OthersKeepBuffer(m: Memory, td: seq<InTrb>, data: seq<Byte>, n: nat, i: nat)
    requires n <= i < |td| && td[i].variant.Normal? && BuffersApart(td)
    ensures Read(Scattered(m, td, data, n), td[i].variant.dataPointer, Length(td[i])) ==
      Read(m, td[i].variant.dataPointer, Length(td[i]))
  {
    if n > 0 {
      OthersKeepBuffer(m, td, data, n - 1, i);
      if td[n - 1].variant.Normal? {
        ShareFitsBuffer(td, data, n - 1);
        ReadElsewhere(Scattered(m, td, data, n - 1), td[n - 1].variant.dataPointer, Share(td, data, n - 1),
                      td[i].variant.dataPointer, Length(td[i]));
      }
    }
  }

  /**
   * The transfer fails exactly if the device failed before delivering everything asked for. Then the
   * last event names the first TRB whose buffer was not filled, and what was asked for up to there
   * less the residue is what arrived; a failure with a full reply goes unreported.
   */
  lemma {:induction false} FailureIsReported(e: Endpoint, td: seq<InTrb>, r: Reply)
    requires forall i | 0 <= i < |td| && td[i].variant.Normal? :: Length(td[i]) < 0x2_0000
    ensures Outcome(td, r) != Ok <==> r.status != Delivered && |r.data| < Requested(td, |td|)
    ensures Outcome(td, r) != Ok ==>
      var k, all := FirstShort(td, |r.data|), Reports(e, td, r, Handled(td, r));
      && k < |td| && td[k].variant.Normal? && Crosses(td, |r.data|, k) && 0 < |all|
      && var last := all[|all| - 1];
      && last.TransferEvent? && last.trbPointer == td[k].addr && last.code == FailureCode(r.status)
      && 0 < last.residue < 0x2_0000 && Requested(td, k + 1) - last.residue == |r.data|
  {
    FirstShortCrosses(td, |r.data|);
  }

  /** A No Op or Normal TRB with its interrupt-on-completion bit set. */
  predicate Asks(t: InTrb) { (t.variant.NoOp? || t.variant.Normal?) && t.variant.ioc }

  /** A Transfer Event for a TRB, with the completion code as a number. */
  function EventFor(e: Endpoint, t: InTrb, residue: nat, code: Byte): EventTrb {
    TransferEvent(t.addr, residue, CompletionCode(code), false, e.endpointId, e.slotId)
  }

  /** The TRBs below `n` that ask for an event, in their order. */
  function AskingUpTo(td: seq<InTrb>, n: nat): (r: seq<InTrb>)
    requires n <= |td|
  {
    if n == 0 then [] else AskingUpTo(td, n - 1) + if Asks(td[n - 1]) then [td[n - 1]] else []
  }

  /** One success event, code 1 and no residue, for each of these TRBs. */
  function SuccessesFor(e: Endpoint, asking: seq<InTrb>): (r: seq<EventTrb>)
    ensures |r| == |asking|
  {
    seq<EventTrb>(|asking|, i requires 0 <= i < |asking| => EventFor(e, asking[i], 0, 1))
  }

  lemma SuccessesForMore(e: Endpoint, asking: seq<InTrb>, t: InTrb)
    ensures SuccessesFor(e, asking + [t]) == SuccessesFor(e, asking) + [EventFor(e, t, 0, 1)]
  {
  }

  /** Up to the shortage every TRB that asks for an event gets one success event, in TRB order; there are no others. */
  lemma {:induction false} FilledTrbsReportExactly(e: Endpoint, td: seq<InTrb>, r: Reply, n: nat)
    requires n <= FirstShort(td, |r.data|)
    ensures Reports(e, td, r, n) == SuccessesFor(e, AskingUpTo(td, n))
  {
    if n > 0 {
      FilledTrbsReportExactly(e, td, r, n - 1);
      SuccessesForMore(e, AskingUpTo(td, n - 1), td[n - 1]);
    }
  }

  /** The first short TRB: a failure always reports, code 6 for a stall, else 4; a shortage, code 13, if asked. */
  function AtShortage(e: Endpoint, td: seq<InTrb>, status: Status, k: nat, missing: nat): seq<EventTrb>
    requires k < |td|
  {
    var t := td[k];
    match status
    case Delivered =>
      if t.variant.Normal? && (t.variant.ioc || t.variant.isp) then [EventFor(e, t, missing, 13)] else []
    case Stalled => [EventFor(e, t, missing, 6)]
    case _ => [EventFor(e, t, missing, 4)]
  }

  /** Behind the shortage: a No Op TRB that asks succeeds, a Normal one reports the same shortage. */
  function Behind(e: Endpoint, t: InTrb, missing: nat): seq<EventTrb> {
    if !Asks(t) then [] else [if t.variant.NoOp? then EventFor(e, t, 0, 1) else EventFor(e, t, missing, 13)]
  }

  function BehindShortage(e: Endpoint, td: seq<InTrb>, k: nat, n: nat, missing: nat): seq<EventTrb>
    requires k < n <= |td|
  {
    if n == k + 1 then [] else BehindShortage(e, td, k, n - 1, missing) + Behind(e, td[n - 1], missing)
  }

  lemma {:induction false} ReportFromShortage(e: Endpoint, td: seq<InTrb>, r: Reply, i: nat)
    requires FirstShort(td, |r.data|) <= i < |td|
    ensures var k := FirstShort(td, |r.data|); var missing := Requested(td, k + 1) - |r.data|;
      && (i == k ==> Report(e, td, r, i) == AtShortage(e, td, r.status, k, missing))
      && (i > k && r.status == Delivered ==> Report(e, td, r, i) == Behind(e, td[i], missing))
  {
    FirstShortCrosses(td, |r.data|);
  }

  lemma {:induction false} OneMoreBehind(e: Endpoint, td: seq<InTrb>, r: Reply, i: nat, k: nat, missing: nat)
    requires k == FirstShort(td, |r.data|) && r.status == Delivered && k < i < |td|
    requires missing == Requested(td, k + 1) - |r.data|
    ensures Reports(e, td, r, i + 1) == Reports(e, td, r, i) + Behind(e, td[i], missing)
    ensures BehindShortage(e, td, k, i + 1, missing) == BehindShortage(e, td, k, i, missing) + Behind(e, td[i], missing)
  {
    ReportFromShortage(e, td, r, i);
  }

  /** Behind the shortage each TRB of a delivered transfer adds its own events. */
  lemma {:induction false} ReportsBehindShortage(e: Endpoint, td: seq<InTrb>, r: Reply, n: nat, k: nat, missing: nat)
    requires k == FirstShort(td, |r.data|) && r.status == Delivered && k < n <= |td|
    requires missing == Requested(td, k + 1) - |r.data|
    ensures Reports(e, td, r, n) == Reports(e, td, r, k + 1) + BehindShortage(e, td, k, n, missing)
  {
    if n == k + 1 {
      NothingBehindYet(Reports(e, td, r, n), BehindShortage(e, td, k, n, missing));
    } else {
      ReportsBehindShortage(e, td, r, n - 1, k, missing);
      OneMoreBehind(e, td, r, n - 1, k, missing);
      AppendMore(Reports(e, td, r, n - 1), Reports(e, td, r, k + 1), BehindShortage(e, td, k, n - 1, missing),
                 Behind(e, td[n - 1], missing));
    }
  }

  lemma NothingBehindYet<T>(all: seq<T>, none: seq<T>)
    requires none == []
    ensures all == all + none
  {
  }

  lemma AppendMore<T>(all: seq<T>, a: seq<T>, b: seq<T>, c: seq<T>)
    requires all == a + b
    ensures all + c == a + (b + c)
  {
  }

  lemma {:induction false} ReportsUpToShortage(e: Endpoint, td: seq<InTrb>, r: Reply, k: nat, missing: nat)
    requires k == FirstShort(td, |r.data|) && k < |td| && missing == Requested(td, k + 1) - |r.data|
    ensures Reports(e, td, r, k + 1) == SuccessesFor(e, AskingUpTo(td, k)) + AtShortage(e, td, r.status, k, missing)
  {
    FilledTrbsReportExactly(e, td, r, k);
    ReportFromShortage(e, td, r, k);
  }

  /**
   * All events of a transfer, in order: a success for each filled TRB that asks; then, if the reply ran out,
   * the event of the TRB where it did; then, if the device had delivered, those of the TRBs behind it.
   */
  lemma {:induction false} TransferReportsExactly(e: Endpoint, td: seq<InTrb>, r: Reply)
    ensures var k, all := FirstShort(td, |r.data|), Reports(e, td, r, Handled(td, r));
      if k == |td| then all == SuccessesFor(e, AskingUpTo(td, |td|))
      else
        var missing := Requested(td, k + 1) - |r.data|;
        var upTo := SuccessesFor(e, AskingUpTo(td, k)) + AtShortage(e, td, r.status, k, missing);
        all == if r.status == Delivered then upTo + BehindShortage(e, td, k, |td|, missing) else upTo
  {
    var k := FirstShort(td, |r.data|);
    FilledTrbsReportExactly(e, td, r, k);
    if k < |td| {
      var missing := Requested(td, k + 1) - |r.data|;
      ReportsUpToShortage(e, td, r, k, missing);
      if r.status == Delivered { ReportsBehindShortage(e, td, r, |td|, k, missing); }
    }
  }

  /**
   * In a transfer the device delivered, a short TRB and all Normal TRBs behind it report the same shortage,
   * and never success.
   */
  lemma {:induction false} ShortageIsReported(e: Endpoint, td: seq<InTrb>, r: Reply, i: nat)
    requires r.status == Delivered && FirstShort(td, |r.data|) <= i < |td| && td[i].variant.Normal?
    ensures var k, missing := FirstShort(td, |r.data|), Requested(td, FirstShort(td, |r.data|) + 1) - |r.data|;
      && 0 < missing <= Length(td[k])
      && Report(e, td, r, i) ==
           if td[i].variant.ioc || (i == k && td[i].variant.isp)
           then [TransferEvent(td[i].addr, missing, SHORT_PACKET, false, e.endpointId, e.slotId)] else []
  {
    FirstShortCrosses(td, |r.data|);
  }

  /** A stall or transaction error names the first TRB that was not filled. */
  lemma FailureNamesFirstShort(td: seq<InTrb>, r: Reply)
    requires Outcome(td, r).Stall? || Outcome(td, r).TransactionError?
    ensures var k := FirstShort(td, |r.data|);
      k < |td| && Crosses(td, |r.data|, k) && Outcome(td, r).at == Some((td[k].addr, td[k].cycleBit))
  {
    FirstShortCrosses(td, |r.data|);
  }
}
