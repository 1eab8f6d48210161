/** Events and the event loop (ProcessEvent in kernel/usb/xhci/xhci.cpp, event TRBs in trb.hpp). */
module EventLoops {
  import opened Wrappers
  import opened Trbs
  import opened Rings
  import opened PortConfig
  import opened EventRings
  import opened Xhci
  import P = PortProtocol

  /** What the handlers read of an event TRB. */
  datatype Event =
    | TransferEvent(slotId: Byte, endpointId: nat, pointer: Address, code: Byte, residual: nat)
    | CommandCompletionEvent(slotId: Byte, pointer: Address)
    | PortStatusChangeEvent(portId: Byte)
    | OtherEvent

  const TRANSFER_EVENT: nat := 32
  const COMMAND_COMPLETION_EVENT: nat := 33
  const PORT_STATUS_CHANGE_EVENT: nat := 34

  /** The casts of ProcessEvent, in its order, and the fields of the class that succeeds. */
  function EventOf(t: Trb): Event {
    if TypeOf(t) == TRANSFER_EVENT then
      TransferEvent(t.w3 / 0x100_0000, t.w3 / 0x1_0000 % 32, Parameter(t), t.w2 / 0x100_0000, t.w2 % 0x100_0000)
    else if TypeOf(t) == PORT_STATUS_CHANGE_EVENT then PortStatusChangeEvent(t.w0 / 0x100_0000)
    else if TypeOf(t) == COMMAND_COMPLETION_EVENT then CommandCompletionEvent(t.w3 / 0x100_0000, Pointer16(t))
    else OtherEvent
  }

  /** Fields that fit; a command lies at a 16-byte aligned address. */
  predicate Posted(e: Event) {
    match e
    case TransferEvent(_, endpointId, _, _, residual) => endpointId < 32 && residual < 0x100_0000
    case CommandCompletionEvent(_, pointer) => pointer % 16 == 0
    case PortStatusChangeEvent(_) => true
    case OtherEvent => false
  }

  /** The TRB that the controller posts (section 6.4.2 of the xHCI specification); 1 is the code of success. */
  function EventTrb(e: Event): Trb
    requires Posted(e)
  {
    match e
    case TransferEvent(slotId, endpointId, pointer, code, residual) =>
      Trb(Low(pointer), High(pointer), 0x100_0000 * code + residual,
          0x100_0000 * slotId + 0x1_0000 * endpointId + 32768)
    case CommandCompletionEvent(slotId, pointer) =>
      Trb(Low(pointer), High(pointer), 0x100_0000, 0x100_0000 * slotId + 33792)
    case PortStatusChangeEvent(portId) => Trb(0x100_0000 * portId, 0, 0x100_0000, 34816)
  }

  lemma TypeField(t: Trb, upper: nat, kind: nat)
    requires t.w3 / 2 == 0x8000 * upper + 512 * kind && kind < 64
    ensures t.w3 / 1024 % 64 == kind && t.w3 / 0x1_0000 == upper && t.w3 / 0x100_0000 == upper / 256
  {
    assert t.w3 / 1024 == 64 * upper + kind;
  }

  lemma SlotAndEndpoint(slotId: nat, endpointId: nat)
    requires endpointId < 32
    ensures (256 * slotId + endpointId) / 256 == slotId && (256 * slotId + endpointId) % 32 == endpointId
  {
    LowBits(8 * slotId, endpointId);
  }

  lemma LowBits(high: nat, low: nat)
    requires low < 32
    ensures (32 * high + low) % 32 == low && (32 * high + low) / 32 == high
  {
  }

  lemma CodeAndLength(code: nat, residual: nat)
    requires residual < 0x100_0000
    ensures var w := 0x100_0000 * code + residual; w / 0x100_0000 == code && w % 0x100_0000 == residual
  {
  }

  lemma TransferRoundTrip(e: Event, t: Trb)
    requires Posted(e) && e.TransferEvent? && SameButCycle(t, EventTrb(e))
    ensures EventOf(t) == e
  {
    hide SameButCycle, CycleOf;
    SameButCycleWords(t, EventTrb(e));
    TypeField(t, 256 * e.slotId + e.endpointId, 32);
    SlotAndEndpoint(e.slotId, e.endpointId);
    CodeAndLength(e.code, e.residual);
  }

  lemma CommandRoundTrip(e: Event, t: Trb)
    requires Posted(e) && e.CommandCompletionEvent? && SameButCycle(t, EventTrb(e))
    ensures EventOf(t) == e
  {
    hide SameButCycle, CycleOf;
    SameButCycleWords(t, EventTrb(e));
    TypeField(t, 256 * e.slotId, 33);
    SlotAndEndpoint(e.slotId, 0);
  }

  lemma PortRoundTrip(e: Event, t: Trb)
    requires Posted(e) && e.PortStatusChangeEvent? && SameButCycle(t, EventTrb(e))
    ensures EventOf(t) == e
  {
    hide SameButCycle, CycleOf;
    SameButCycleWords(t, EventTrb(e));
    TypeField(t, 0, 34);
  }

  lemma SameButCycleWords(t: Trb, u: Trb)
    requires SameButCycle(t, u)
    ensures t.w0 == u.w0 && t.w1 == u.w1 && t.w2 == u.w2 && t.w3 / 2 == u.w3 / 2
  {
  }

  /** What the driver reads of an event is what the controller posted, whatever the cycle bit. */
  lemma EventRoundTrip(e: Event, t: Trb)
    requires Posted(e) && SameButCycle(t, EventTrb(e))
    ensures EventOf(t) == e
  {
    match e
    case TransferEvent(_, _, _, _, _) => TransferRoundTrip(e, t);
    case CommandCompletionEvent(_, _) => CommandRoundTrip(e, t);
    case PortStatusChangeEvent(_) => PortRoundTrip(e, t);
  }

  // ---- what an event does to the driver ----

  /** The command TRB lies in the command ring. */
  predicate InRing(r: RingState, pointer: Address) {
    r.base <= pointer < r.base + 16 * |r.mem| && (pointer - r.base) % 16 == 0
  }

  predicate EventOk(d: Driver, e: Event) {
    e.CommandCompletionEvent? ==> InRing(d.ring, e.pointer)
  }

  function IndexOf(r: RingState, pointer: Address): (i: nat)
    requires InRing(r, pointer)
    ensures i < |r.mem| && pointer == r.base + 16 * i
  {
    (pointer - r.base) / 16
  }

  /** `outcome` is what the device object's handler of a transfer event returns and leaves behind. */
  function Handled(d: Driver, e: Event, outcome: TransferOutcome, regs: PortReadings, place: Placement): (Driver, Error)
    requires DriverOk(d) && EventOk(d, e)
  {
    match e
    case TransferEvent(slotId, _, _, _, _) => PortConfig.OnTransferEvent(d, slotId, outcome, regs)
    case CommandCompletionEvent(slotId, pointer) =>
      PortConfig.OnCommandCompletion(d, IndexOf(d.ring, pointer), slotId, regs, place)
    case PortStatusChangeEvent(portId) => PortConfig.OnPortStatusChange(d, portId, regs)
    case OtherEvent => (d, NotImplemented)
  }

  /** `dispatched` logs every event whose handler was chosen. */
  class EventLoop {
    const ring: EventRing
    const xhc: Controller
    ghost var dispatched: seq<Trb>

    ghost predicate Valid()
      reads this, ring, xhc, xhc.Repr, xhc.cr
    {
      ring.Valid() && xhc.Valid() && {this as object, ring, ring.buf} !! xhc.Repr
    }

    ghost function State(): (c: Consumer)
      requires ring.Valid()
      reads this, ring
      ensures c.deq < ring.buf.Length
    {
      Consumer(ring.Index(), ring.cycleBit, dispatched)
    }

    constructor (ring: EventRing, xhc: Controller)
      requires ring.Valid() && xhc.Valid() && {ring as object, ring.buf} !! xhc.Repr
      ensures Valid() && this.ring == ring && this.xhc == xhc && dispatched == []
    {
      this.ring, this.xhc := ring, xhc;
      dispatched := [];
    }

    /** The handler of one event. */
    method OnEvent(t: Trb, outcome: TransferOutcome, regs: PortReadings, place: Placement) returns (err: Error)
      requires xhc.Valid() && EventOk(xhc.State(), EventOf(t))
      modifies xhc.Repr
      ensures xhc.Valid() && (xhc.State(), err) == Handled(old(xhc.State()), EventOf(t), outcome, regs, place)
    {
      hide PortConfig.OnTransferEvent, PortConfig.OnCommandCompletion, PortConfig.OnPortStatusChange, Pointer16;
      if TypeOf(t) == TRANSFER_EVENT {
        err := xhc.OnTransferEvent(t.w3 / 0x100_0000, outcome, regs);
      } else if TypeOf(t) == PORT_STATUS_CHANGE_EVENT {
        err := xhc.OnPortStatusChange(t.w0 / 0x100_0000, regs);
      } else if TypeOf(t) == COMMAND_COMPLETION_EVENT {
        err := xhc.OnCommandCompletion((Pointer16(t) - xhc.cr.base) / 16, t.w3 / 0x100_0000, regs, place);
      } else {
        err := NotImplemented;
      }
    }

    /** Takes up at most one event, and pops it also when its handler fails. */
    method ProcessEvent(outcome: TransferOutcome, regs: PortReadings, place: Placement) returns (err: Error)
      requires Valid() && EventOk(xhc.State(), EventOf(ring.buf[ring.Index()]))
      modifies this, ring, xhc.Repr
      ensures Valid() && State() == Processed(ring.buf[..], old(State()))
      ensures var t := ring.buf[old(ring.Index())];
              (xhc.State(), err) ==
                if CycleOf(t) != old(ring.cycleBit) then (old(xhc.State()), Success)
                else Handled(old(xhc.State()), EventOf(t), outcome, regs, place)
    {
      var hasFront := ring.HasFront();
      if !hasFront {
        return Success;
      }
      var event := ring.Front();
      err := OnEvent(event, outcome, regs, place);
      dispatched := dispatched + [event];
      ring.Pop();
    }
  }

  // ---- each event is the step of the port protocol that its fields name ----

  lemma PortEventIsStep(h: P.Host, maxPorts: Byte, t: Trb, outcome: TransferOutcome, regs: PortReadings,
          place: Placement)
    requires DriverOk(h.d) && t.w3 / 1024 % 64 == 34 && 1 <= t.w0 / 0x100_0000 <= maxPorts
    ensures var step := P.PortStatus(t.w0 / 0x100_0000, regs);
            && EventOk(h.d, EventOf(t)) && P.Enabled(h, maxPorts, step)
            && h.(d := Handled(h.d, EventOf(t), outcome, regs, place).0) == P.After(h, maxPorts, step)
  {
  }

  lemma TransferEventIsStep(h: P.Host, maxPorts: Byte, t: Trb, outcome: TransferOutcome, regs: PortReadings,
          place: Placement)
    requires DriverOk(h.d) && t.w3 / 1024 % 64 == 32
    ensures var step := P.Transfer(t.w3 / 0x100_0000, outcome, regs);
            && EventOk(h.d, EventOf(t)) && P.Enabled(h, maxPorts, step)
            && h.(d := Handled(h.d, EventOf(t), outcome, regs, place).0) == P.After(h, maxPorts, step)
  {
  }

  /** The event of the command that completes next: it names the slot and the command's entry in the ring. */
  predicate Completes(h: P.Host, t: Trb) {
    && h.results != [] && h.done < |h.d.issued| && t.w3 / 0x100_0000 == h.results[0]
    && (t.w1 * 0x1_0000_0000 + t.w0) / 16 * 16 == h.d.ring.base + 16 * h.d.issued[h.done].index
  }

  lemma CommandEventIsStep(h: P.Host, maxPorts: Byte, t: Trb, outcome: TransferOutcome, regs: PortReadings,
          place: Placement)
    requires DriverOk(h.d) && t.w3 / 1024 % 64 == 33 && Completes(h, t) && h.d.issued[h.done].index < |h.d.ring.mem|
    ensures var step := P.Completion(regs, place);
            && EventOk(h.d, EventOf(t)) && P.Enabled(h, maxPorts, step)
            && P.Host(Handled(h.d, EventOf(t), outcome, regs, place).0, h.done + 1, h.results[1..]) ==
                 P.After(h, maxPorts, step)
  {
    hide PortConfig.OnCommandCompletion, PortConfig.OnTransferEvent, PortConfig.OnPortStatusChange;
    MultipleStays(h.d.issued[h.done].index);
  }

  /** An event of any other type changes nothing, and is reported. */
  lemma OtherEventsIgnored(d: Driver, t: Trb, outcome: TransferOutcome, regs: PortReadings, place: Placement)
    requires DriverOk(d)
    ensures EventOf(t) == OtherEvent <==> t.w3 / 1024 % 64 !in {32, 33, 34}
    ensures EventOf(t) == OtherEvent ==> Handled(d, EventOf(t), outcome, regs, place) == (d, NotImplemented)
  {
  }
}
