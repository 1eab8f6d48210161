/** Transfers of one device slot: requests to TRBs and transfer events back to requests (kernel/usb/xhci/device.cpp). */
module Transfers {
  import opened Wrappers
  import opened Trbs
  import opened Rings
  import opened ArrayMaps

  /** Address of a TRB: the transfer ring (by device context index) and the entry in it. */
  datatype TrbPtr = TrbPtr(dci: nat, index: nat)

  const RINGS: nat := 31
  const SETUP_MAP_SIZE: nat := 16
  const CODE_SUCCESS: nat := 1
  const CODE_SHORT_PACKET: nat := 13

  /** transfer_rings_ (index dci - 1) and setup_stage_map_. */
  datatype DeviceState = DeviceState(rings: seq<Option<RingState>>, setupMap: seq<Entry<TrbPtr, TrbPtr>>)

  predicate DeviceOk(d: DeviceState) {
    |d.rings| == RINGS && forall i :: 0 <= i < RINGS && d.rings[i].Some? ==> RingOk(d.rings[i].value)
  }

  /** A control request as its issuer states it; buffer 0 means no data stage. */
  datatype Request = Request(dirIn: bool, setup: SetupData, buf: Address, len: nat)

  /** Transfer type of the setup stage (section 4.11.2.2 of the xHCI specification). */
  function TransferType(r: Request): nat {
    if r.buf == 0 then 0 else if r.dirIn then 3 else 2
  }

  /** The TRBs of a control transfer; an event is asked for on the data stage, or on the status stage without one. */
  function RequestTrbs(r: Request): seq<Trb> {
    var setup := SetupStageTrb(r.setup, TransferType(r));
    if r.buf != 0 then [setup, DataStageTrb(r.buf, r.len, r.dirIn), StatusStageTrb(!r.dirIn, false)]
    else [setup, StatusStageTrb(true, true)]
  }

  /** A Setup Stage TRB (section 6.4.1.2.1): 8 bytes of immediate data that asks for no event. */
  predicate SetupFields(t: Trb, s: SetupData, transferType: nat) {
    && t.w0 % 256 == s.requestType && t.w0 / 256 % 256 == s.request && t.w0 / 65536 == s.value
    && t.w1 % 65536 == s.index && t.w1 / 65536 == s.length && t.w2 == 8
    && t.w3 / 1024 % 64 == 2 && t.w3 / 65536 == transferType
    && t.w3 / 64 % 2 == 1 && t.w3 / 32 % 2 == 0
  }

  /** A Data Stage TRB (section 6.4.1.2.2): unchained, not immediate, with an event on completion. */
  predicate DataFields(t: Trb, buf: Address, len: nat, dirIn: bool) {
    && t.w0 + 0x1_0000_0000 * t.w1 == buf && t.w2 == len % 0x20000
    && t.w3 / 1024 % 64 == 3 && t.w3 / 65536 == (if dirIn then 1 else 0)
    && t.w3 / 64 % 16 == 0 && t.w3 / 32 % 2 == 1 && t.w3 / 16 % 2 == 0
  }

  /** A Status Stage TRB (section 6.4.1.2.3). */
  predicate StatusFields(t: Trb, dirIn: bool, event: bool) {
    && t.w0 == t.w1 == t.w2 == 0 && t.w3 / 1024 % 64 == 4 && t.w3 / 65536 == (if dirIn then 1 else 0)
    && t.w3 / 32 % 2 == (if event then 1 else 0) && t.w3 / 16 % 2 == 0
  }

  /**
   * A control transfer is put together as sections 3.2.9 and 4.11.2.2 of the xHCI specification ask: an immediate
   * 8-byte setup stage that announces the data stage, the data stage in the direction of the request, and a status
   * stage the other way, or IN without data; the second TRB alone asks for an event.
   */
  lemma RequestShape(r: Request)
    ensures var ts := RequestTrbs(r);
            if r.buf != 0
            then |ts| == 3 && SetupFields(ts[0], r.setup, if r.dirIn then 3 else 2) &&
                 DataFields(ts[1], r.buf, r.len, r.dirIn) && StatusFields(ts[2], !r.dirIn, false)
            else |ts| == 2 && SetupFields(ts[0], r.setup, 0) && StatusFields(ts[1], true, true)
  {
    SetupRoundTrip(r.setup, TransferType(r), false);
  }

  function PushedAll(s: RingState, trbs: seq<Trb>): (s': RingState)
    requires RingOk(s)
    ensures RingOk(s') && |s'.mem| == |s.mem|
    decreases |trbs|
  {
    if trbs == [] then s else PushedAll(Pushed(s, trbs[0]), trbs[1..])
  }

  function EndpointNumber(address: int): int { address / 2 }

  /** The ring of an endpoint address, or why there is none; address 0 has no ring and must not be used. */
  function RingOf(d: DeviceState, address: int): Option<RingState>
    requires DeviceOk(d)
  {
    if 1 <= address <= RINGS then d.rings[address - 1] else None
  }

  function WithRing(d: DeviceState, address: int, r: RingState): DeviceState
    requires DeviceOk(d) && 1 <= address <= RINGS
  {
    d.(rings := d.rings[address - 1 := Some(r)])
  }

  /** ControlIn and ControlOut. */
  function Control(d: DeviceState, address: int, r: Request): (DeviceState, Error)
    requires DeviceOk(d) && address != 0
  {
    if EndpointNumber(address) < 0 || 15 < EndpointNumber(address) then (d, InvalidEndpointNumber)
    else match RingOf(d, address)
      case None => (d, TransferRingNotSet)
      case Some(ring) =>
        var setupPtr := TrbPtr(address, ring.writeIndex);
        var key := TrbPtr(address, NextIndex(|ring.mem|, ring.writeIndex));
        (WithRing(d, address, PushedAll(ring, RequestTrbs(r))).(setupMap := Inserted(d.setupMap, key, setupPtr)),
          Success)
  }

  function PushInterrupt(d: DeviceState, address: int, buf: Address, len: nat): (DeviceState, Error)
    requires DeviceOk(d) && 1 <= address <= RINGS
  {
    match RingOf(d, address)
    case None => (d, TransferRingNotSet)
    case Some(ring) => (WithRing(d, address, Pushed(ring, NormalTrb(buf, len))), Success)
  }

  /** The result of a transfer, exactly: endpoint addresses 2 to 31 belong to numbers 1 to 15, 1 to number 0. */
  lemma TransferAnswers(d: DeviceState, address: int, r: Request, buf: Address, len: nat)
    requires DeviceOk(d) && address != 0
    ensures var (d', err) := Control(d, address, r);
            && (err == InvalidEndpointNumber <==> address < 0 || address >= 32)
            && (err == TransferRingNotSet <==> 1 <= address < 32 && d.rings[address - 1] == None)
            && (err == Success <==> 1 <= address < 32 && d.rings[address - 1] != None)
            && (err == Success || d' == d)
    ensures 1 <= address < 32 ==>
              var (d', err) := PushInterrupt(d, address, buf, len);
              && err == (if d.rings[address - 1] == None then TransferRingNotSet else Success)
              && (err == Success || d' == d)
  {
  }

  /** What a transfer event leads to: a call of OnInterruptCompleted or OnControlCompleted, or an error. */
  datatype Upcall =
    | Failed(error: Error)
    | InterruptCompleted(buf: Address, len: int)
    | ControlCompleted(setup: SetupData, controlBuf: Address, controlLen: int)

  predicate PtrOk(d: DeviceState, p: TrbPtr)
    requires DeviceOk(d)
  {
    1 <= p.dci <= RINGS && d.rings[p.dci - 1].Some? && p.index < |d.rings[p.dci - 1].value.mem|
  }

  /** Where a TRB lies in memory. */
  function AddressOf(d: DeviceState, p: TrbPtr): nat
    requires DeviceOk(d) && PtrOk(d, p)
  {
    d.rings[p.dci - 1].value.base + 16 * p.index
  }

  /** No two rings of a device share memory, as the allocator hands it out. */
  predicate RingsApart(d: DeviceState)
    requires DeviceOk(d)
  {
    forall i, j :: 0 <= i < j < RINGS && d.rings[i].Some? && d.rings[j].Some? ==>
      var a, b := d.rings[i].value, d.rings[j].value;
      a.base + 16 * |a.mem| <= b.base || b.base + 16 * |b.mem| <= a.base
  }

  /** So the pointer in a transfer event names one TRB: that is what pairs of ring and entry stand for. */
  lemma AddressNamesTrb(d: DeviceState, p: TrbPtr, q: TrbPtr)
    requires DeviceOk(d) && RingsApart(d) && PtrOk(d, p) && PtrOk(d, q)
    ensures AddressOf(d, p) == AddressOf(d, q) <==> p == q
  {
    if p.dci < q.dci {
      assert d.rings[p.dci - 1].Some? && d.rings[q.dci - 1].Some?;
    }
  }

  function Read(d: DeviceState, p: TrbPtr): Trb
    requires DeviceOk(d) && PtrOk(d, p)
  {
    d.rings[p.dci - 1].value.mem[p.index]
  }

  /** Stored pointers point into the rings. */
  predicate MapOk(d: DeviceState)
    requires DeviceOk(d)
  {
    forall i :: 0 <= i < |d.setupMap| && d.setupMap[i].key.Some? ==> PtrOk(d, d.setupMap[i].value)
  }

  function OnTransferEvent(d: DeviceState, p: TrbPtr, code: nat, residual: nat): (DeviceState, Upcall)
    requires DeviceOk(d) && PtrOk(d, p) && MapOk(d)
  {
    if code != CODE_SUCCESS && code != CODE_SHORT_PACKET then (d, Failed(TransferFailed))
    else
      var issuer := Read(d, p);
      if TypeOf(issuer) == NORMAL then (d, InterruptCompleted(Parameter(issuer), TransferLength(issuer) - residual))
      else match Lookup(d.setupMap, p)
        case None => (d, Failed(NoCorrespondingSetupStage))
        case Some(setupPtr) =>
          var d' := d.(setupMap := Removed(d.setupMap, p));
          var setup := SetupDataOf(Read(d, setupPtr));
          if TypeOf(issuer) == DATA_STAGE then
            (d', ControlCompleted(setup, Parameter(issuer), TransferLength(issuer) - residual))
          else if TypeOf(issuer) == STATUS_STAGE then (d', ControlCompleted(setup, 0, 0))
          else (d', Failed(NotImplemented))
  }

  /**
   * Which handler an event reaches, by code and by the type of its TRB: 1 is success and 13 a short packet; 1 is
   * Normal, 3 and 4 are data and status stage.  An error before the map is looked up changes nothing.
   */
  lemma EventAnswers(d: DeviceState, p: TrbPtr, code: nat, residual: nat)
    requires DeviceOk(d) && PtrOk(d, p) && MapOk(d)
    ensures var (d', up) := OnTransferEvent(d, p, code, residual);
            var kind, entry := Read(d, p).w3 / 1024 % 64, Lookup(d.setupMap, p);
            && (up == Failed(TransferFailed) <==> code != 1 && code != 13)
            && (code == 1 || code == 13 ==>
                  && (up.InterruptCompleted? <==> kind == 1)
                  && (up.ControlCompleted? <==> entry.Some? && (kind == 3 || kind == 4))
                  && (up == Failed(NoCorrespondingSetupStage) <==> entry == None && kind != 1)
                  && (up == Failed(NotImplemented) <==> entry.Some? && kind !in {1, 3, 4})
                  && (kind == 4 && entry.Some? ==> up.controlBuf == 0 && up.controlLen == 0))
            && (up.InterruptCompleted? || up == Failed(TransferFailed) || up == Failed(NoCorrespondingSetupStage) ==>
                  d' == d)
  {
  }

  /** Pushing one TRB at a time on an endpoint's ring. */
  lemma PushTwo(d: DeviceState, address: int, a: Trb, b: Trb)
    requires DeviceOk(d) && RingOf(d, address).Some?
    ensures var r := RingOf(d, address).value;
            && PushedAll(r, [a, b]) == Pushed(Pushed(r, a), b)
            && WithRing(WithRing(d, address, Pushed(r, a)), address, Pushed(Pushed(r, a), b)) ==
              WithRing(d, address, PushedAll(r, [a, b]))
  {
    var r := RingOf(d, address).value;
    assert [a, b][1..] == [b] && [b][1..] == [];
    assert PushedAll(Pushed(r, a), [b]) == PushedAll(Pushed(Pushed(r, a), b), []);
  }

  lemma PushThree(d: DeviceState, address: int, a: Trb, b: Trb, c: Trb)
    requires DeviceOk(d) && RingOf(d, address).Some?
    ensures var r := RingOf(d, address).value;
            && PushedAll(r, [a, b, c]) == Pushed(Pushed(Pushed(r, a), b), c)
            && WithRing(WithRing(WithRing(d, address, Pushed(r, a)), address, Pushed(Pushed(r, a), b)), address,
              Pushed(Pushed(Pushed(r, a), b), c))
                 == WithRing(d, address, PushedAll(r, [a, b, c]))
  {
    var r := RingOf(d, address).value;
    PushTwo(WithRing(d, address, Pushed(r, a)), address, b, c);
    assert [a, b, c][1..] == [b, c];
  }

  // ---- the device object ----

  class Device {
    const rings: array<Ring?>
    const setupMap: ArrayMap<TrbPtr, TrbPtr>
    ghost var Repr: set<object>

    ghost predicate Valid()
      reads this, Repr
    {
      && {this, rings, setupMap, setupMap.table} <= Repr
      && rings.Length == RINGS && setupMap.table.Length == SETUP_MAP_SIZE
      && (forall i :: 0 <= i < RINGS && rings[i] != null ==>
            && rings[i] in Repr && rings[i].buf in Repr && rings[i].Valid() && rings[i].buf as object != rings
            && rings[i].buf as object != setupMap.table)
      && (forall i, j :: 0 <= i < j < RINGS && rings[i] != null && rings[j] != null ==>
            rings[i] != rings[j] && rings[i].buf != rings[j].buf)
    }

    ghost function RingAt(i: nat): Option<RingState>
      requires Valid() && i < RINGS
      reads this, Repr
    {
      if rings[i] == null then None else Some(rings[i].State())
    }

    ghost function State(): (d: DeviceState)
      requires Valid()
      reads this, Repr
      ensures DeviceOk(d)
    {
      DeviceState(seq(RINGS, i requires Valid() && 0 <= i < RINGS reads this, Repr => RingAt(i)), setupMap.State())
    }

    constructor ()
      ensures Valid() && fresh(Repr)
      ensures State() == DeviceState(seq(RINGS, _ => None), seq(SETUP_MAP_SIZE, _ => Entry(None, TrbPtr(0, 0))))
    {
      rings := new Ring?[RINGS](_ => null);
      setupMap := new ArrayMap(SETUP_MAP_SIZE, TrbPtr(0, 0));
      new;
      Repr := {this, rings, setupMap, setupMap.table};
    }

    /** One Push on the ring of an endpoint. */
    method PushOn(address: nat, t: Trb) returns (i: nat)
      requires Valid() && 1 <= address <= RINGS && rings[address - 1] != null
      modifies Repr
      ensures Valid() && Repr == old(Repr) && rings[..] == old(rings[..])
      ensures i == old(rings[address - 1].writeIndex)
      ensures var ring := RingOf(old(State()), address).value;
              State() == WithRing(old(State()), address, Pushed(ring, t)) &&
              rings[address - 1].writeIndex == NextIndex(|ring.mem|, ring.writeIndex)
    {
      i := rings[address - 1].Push(t);
      assert forall k :: 0 <= k < RINGS && k != address - 1 ==> RingAt(k) == old(RingAt(k));
    }

    /** `buf` 0 is the null pointer. */
    method ControlIn(address: int, setup: SetupData, buf: Address, len: nat) returns (err: Error)
      requires Valid() && address != 0
      modifies Repr
      ensures Valid() && Repr == old(Repr)
      ensures (State(), err) == Control(old(State()), address, Request(true, setup, buf, len))
    {
      if EndpointNumber(address) < 0 || 15 < EndpointNumber(address) {
        return InvalidEndpointNumber;
      }
      if rings[address - 1] == null {
        return TransferRingNotSet;
      }
      ghost var before := State();
      assert RingAt(address - 1) == RingOf(before, address);
      if buf != 0 {
        PushThree(before, address, SetupStageTrb(setup, 3), DataStageTrb(buf, len, true), StatusStageTrb(false, false));
        var setupIndex := PushOn(address, SetupStageTrb(setup, 3));
        var dataIndex := PushOn(address, DataStageTrb(buf, len, true));
        var _ := PushOn(address, StatusStageTrb(false, false));
        RememberStage(address, dataIndex, setupIndex);
      } else {
        PushTwo(before, address, SetupStageTrb(setup, 0), StatusStageTrb(true, true));
        var setupIndex := PushOn(address, SetupStageTrb(setup, 0));
        var statusIndex := PushOn(address, StatusStageTrb(true, true));
        RememberStage(address, statusIndex, setupIndex);
      }
      return Success;
    }

    method ControlOut(address: int, setup: SetupData, buf: Address, len: nat) returns (err: Error)
      requires Valid() && address != 0
      modifies Repr
      ensures Valid() && Repr == old(Repr)
      ensures (State(), err) == Control(old(State()), address, Request(false, setup, buf, len))
    {
      if EndpointNumber(address) < 0 || 15 < EndpointNumber(address) {
        return InvalidEndpointNumber;
      }
      if rings[address - 1] == null {
        return TransferRingNotSet;
      }
      ghost var before := State();
      assert RingAt(address - 1) == RingOf(before, address);
      if buf != 0 {
        PushThree(before, address, SetupStageTrb(setup, 2), DataStageTrb(buf, len, false), StatusStageTrb(true, false));
        var setupIndex := PushOn(address, SetupStageTrb(setup, 2));
        var dataIndex := PushOn(address, DataStageTrb(buf, len, false));
        var _ := PushOn(address, StatusStageTrb(true, false));
        RememberStage(address, dataIndex, setupIndex);
      } else {
        PushTwo(before, address, SetupStageTrb(setup, 0), StatusStageTrb(true, true));
        var setupIndex := PushOn(address, SetupStageTrb(setup, 0));
        var statusIndex := PushOn(address, StatusStageTrb(true, true));
        RememberStage(address, statusIndex, setupIndex);
      }
      return Success;
    }

    method RememberStage(address: nat, index: nat, setupIndex: nat)
      requires Valid()
      modifies setupMap.table
      ensures Valid() && Repr == old(Repr)
      ensures State() == old(State()).(setupMap :=
              Inserted(old(State()).setupMap, TrbPtr(address, index), TrbPtr(address, setupIndex)))
    {
      setupMap.Put(TrbPtr(address, index), TrbPtr(address, setupIndex));
      assert forall k :: 0 <= k < RINGS ==> RingAt(k) == old(RingAt(k));
    }

    method InterruptIn(address: nat, buf: Address, len: nat) returns (err: Error)
      requires Valid() && 1 <= address <= RINGS
      modifies Repr
      ensures Valid() && Repr == old(Repr)
      ensures (State(), err) == PushInterrupt(old(State()), address, buf, len)
    {
      if rings[address - 1] == null {
        return TransferRingNotSet;
      }
      var _ := PushOn(address, NormalTrb(buf, len));
      return Success;
    }

    /** Deletes the entry of an event TRB and reads the setup data of its request. */
    method RetireStage(p: TrbPtr, s: TrbPtr) returns (setup: SetupData)
      requires Valid() && PtrOk(State(), s)
      modifies setupMap.table
      ensures Valid() && Repr == old(Repr)
      ensures State() == old(State()).(setupMap := Removed(old(State()).setupMap, p))
      ensures setup == SetupDataOf(Read(old(State()), s))
    {
      assert RingAt(s.dci - 1) == State().rings[s.dci - 1];
      setupMap.Delete(p);
      assert forall k :: 0 <= k < RINGS ==> RingAt(k) == old(RingAt(k));
      assert State().rings == old(State()).rings;
      setup := SetupDataOf(rings[s.dci - 1].buf[s.index]);
    }

    method OnTransferEventReceived(p: TrbPtr, code: nat, residual: nat) returns (up: Upcall)
      requires Valid() && PtrOk(State(), p) && MapOk(State())
      modifies Repr
      ensures Valid() && Repr == old(Repr)
      ensures (State(), up) == OnTransferEvent(old(State()), p, code, residual)
    {
      if code != CODE_SUCCESS && code != CODE_SHORT_PACKET {
        return Failed(TransferFailed);
      }
      assert RingAt(p.dci - 1) == State().rings[p.dci - 1];
      var issuer := rings[p.dci - 1].buf[p.index];
      assert issuer == Read(State(), p);
      if TypeOf(issuer) == NORMAL {
        return InterruptCompleted(Parameter(issuer), TransferLength(issuer) - residual);
      }
      var setupPtr := setupMap.Get(p);
      if setupPtr == None {
        return Failed(NoCorrespondingSetupStage);
      }
      var setup := RetireStage(p, setupPtr.value);
      if TypeOf(issuer) == DATA_STAGE {
        return ControlCompleted(setup, Parameter(issuer), TransferLength(issuer) - residual);
      } else if TypeOf(issuer) == STATUS_STAGE {
        return ControlCompleted(setup, 0, 0);
      } else {
        return Failed(NotImplemented);
      }
    }
  }
}
