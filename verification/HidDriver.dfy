/** The HID base class driver (kernel/usb/classdriver/hid.cpp). */
module HidDrivers {
  import opened Wrappers
  import opened Trbs
  import opened Descriptors

  /** `self` and `buf` are the addresses of the driver and of its report buffer. */
  datatype Hid = Hid(self: Address, buf: Address, interfaceIndex: Byte, packetSize: nat, phase: nat, epIn: nat,
    epOut: nat)

  /** How a handler ends: with a transfer asked of the parent device, or with an error. */
  datatype ParentCall =
    | ControlOut(setup: SetupData)
    | InterruptIn(endpoint: nat, buf: Address, len: nat)
    | Fail(error: Error)

  const SET_PROTOCOL: Byte := 11

  /** Host to device, class, interface; value 0 selects the boot protocol. */
  function SetProtocolSetup(interfaceIndex: Byte): SetupData { SetupData(0x21, SET_PROTOCOL, 0, interfaceIndex, 0) }

  function WithEndpoint(h: Hid, c: EndpointConfig): Hid {
    if c.epType != INTERRUPT then h else if IsIn(c.address) then h.(epIn := c.address) else h.(epOut := c.address)
  }

  /** Every endpoint of the interface, in order: the last interrupt-IN endpoint is the one polled. */
  function WithEndpoints(h: Hid, cs: seq<EndpointConfig>): Hid {
    if cs == [] then h else WithEndpoint(WithEndpoints(h, cs[..|cs| - 1]), cs[|cs| - 1])
  }

  function Configured(h: Hid): (Hid, ParentCall) {
    (h.(phase := 1), ControlOut(SetProtocolSetup(h.interfaceIndex)))
  }

  function Poll(h: Hid): ParentCall { InterruptIn(h.epIn, h.buf, h.packetSize) }

  function ControlDone(h: Hid): (Hid, ParentCall) {
    if h.phase == 1 then (h.(phase := 2), Poll(h)) else (h, Fail(NotImplemented))
  }

  function InterruptDone(h: Hid, endpoint: nat): ParentCall {
    if IsIn(endpoint) then Poll(h) else Fail(NotImplemented)
  }

  class HidDriver {
    const self: Address
    const buf: Address
    const interfaceIndex: Byte
    const packetSize: nat
    var epIn: nat
    var epOut: nat
    var phase: nat

    ghost function State(): Hid
      reads this
    {
      Hid(self, buf, interfaceIndex, packetSize, phase, epIn, epOut)
    }

    constructor (self: Address, buf: Address, interfaceIndex: Byte, packetSize: nat)
      ensures State() == Hid(self, buf, interfaceIndex, packetSize, 0, 0, 0)
    {
      this.self, this.buf, this.interfaceIndex, this.packetSize := self, buf, interfaceIndex, packetSize;
      epIn, epOut, phase := 0, 0, 0;
    }

    method SetEndpoint(config: EndpointConfig)
      modifies this
      ensures State() == WithEndpoint(old(State()), config)
    {
      if config.epType == INTERRUPT && IsIn(config.address) {
        epIn := config.address;
      } else if config.epType == INTERRUPT && !IsIn(config.address) {
        epOut := config.address;
      }
    }

    method OnEndpointsConfigured() returns (call: ParentCall)
      modifies this
      ensures (State(), call) == Configured(old(State()))
    {
      phase := 1;
      return ControlOut(SetProtocolSetup(interfaceIndex));
    }

    method OnControlCompleted() returns (call: ParentCall)
      modifies this
      ensures (State(), call) == ControlDone(old(State()))
    {
      if phase == 1 {
        phase := 2;
        return InterruptIn(epIn, buf, packetSize);
      }
      return Fail(NotImplemented);
    }

    method OnInterruptCompleted(endpoint: nat) returns (call: ParentCall)
      ensures call == InterruptDone(State(), endpoint)
    {
      if IsIn(endpoint) {
        return InterruptIn(epIn, buf, packetSize);
      }
      return Fail(NotImplemented);
    }
  }

  predicate IsPollable(c: EndpointConfig) { c.epType == INTERRUPT && IsIn(c.address) }

  /** SetEndpoint on every endpoint changes the two endpoint addresses only. */
  lemma {:induction false} EndpointsKeepRest(h: Hid, cs: seq<EndpointConfig>)
    ensures WithEndpoints(h, cs) == h.(epIn := WithEndpoints(h, cs).epIn, epOut := WithEndpoints(h, cs).epOut)
  {
    if cs != [] { EndpointsKeepRest(h, cs[..|cs| - 1]); }
  }

  /** The driver polls an interrupt-IN endpoint it was given, exactly if it was given one. */
  lemma {:induction false} PollsGivenEndpoint(h: Hid, cs: seq<EndpointConfig>)
    ensures if exists j :: 0 <= j < |cs| && IsPollable(cs[j])
            then exists j :: 0 <= j < |cs| && IsPollable(cs[j]) && cs[j].address == WithEndpoints(h, cs).epIn
            else WithEndpoints(h, cs).epIn == h.epIn
  {
    if cs != [] {
      var n := |cs| - 1;
      PollsGivenEndpoint(h, cs[..n]);
      if IsPollable(cs[n]) {
        assert cs[n].address == WithEndpoints(h, cs).epIn;
      } else if j :| 0 <= j < |cs| && IsPollable(cs[j]) {
        assert cs[..n][j] == cs[j];
        var k :| 0 <= k < n && IsPollable(cs[..n][k]) && cs[..n][k].address == WithEndpoints(h, cs[..n]).epIn;
        assert cs[k] == cs[..n][k];
      }
    }
  }

  /** An interrupt endpoint (transfer type 3) of one direction; the low bit of an address is set for IN. */
  predicate InterruptEndpoint(c: EndpointConfig, dirIn: bool) {
    c.epType == 3 && c.address % 2 == if dirIn then 1 else 0
  }

  predicate LastOne(cs: seq<EndpointConfig>, dirIn: bool, j: nat) {
    j < |cs| && InterruptEndpoint(cs[j], dirIn) && forall k :: j < k < |cs| ==> !InterruptEndpoint(cs[k], dirIn)
  }

  /** Of several interrupt endpoints of one direction the last one given counts. */
  lemma {:induction false} LastEndpointCounts(h: Hid, cs: seq<EndpointConfig>, dirIn: bool, j: nat)
    requires LastOne(cs, dirIn, j)
    ensures var h' := WithEndpoints(h, cs); (if dirIn then h'.epIn else h'.epOut) == cs[j].address
  {
    var n := |cs| - 1;
    if j < n {
      assert LastOne(cs[..n], dirIn, j) && !InterruptEndpoint(cs[n], dirIn);
      LastEndpointCounts(h, cs[..n], dirIn, j);
    }
  }

  /** Without one the address is as it was. */
  lemma {:induction false} OthersDoNotCount(h: Hid, cs: seq<EndpointConfig>, dirIn: bool)
    requires forall k :: 0 <= k < |cs| ==> !InterruptEndpoint(cs[k], dirIn)
    ensures var h' := WithEndpoints(h, cs); if dirIn then h'.epIn == h.epIn else h'.epOut == h.epOut
  {
    if cs != [] {
      assert !InterruptEndpoint(cs[|cs| - 1], dirIn);
      OthersDoNotCount(h, cs[..|cs| - 1], dirIn);
    }
  }
}
