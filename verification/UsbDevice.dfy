/** Enumeration of one device and its class driver (kernel/usb/device.cpp). */
module UsbDevices {
  import opened Wrappers
  import opened Trbs
  import opened ArrayMaps
  import opened Transfers
  import opened Descriptors
  import opened HidDrivers
  import opened RequestMatching

  const ENDPOINTS: nat := 16
  const WAITERS: nat := 4
  const BUF_SIZE: nat := 256
  const EP0: nat := 1                  // number 0, direction in

  const GET_DESCRIPTOR: Byte := 6
  const SET_CONFIGURATION: Byte := 9

  /**
   * `configs` is the used part of ep_configs_; `drivers` is class_drivers_, by endpoint number, 0 for null; `waiters`
   * is event_waiters_; `hid` is the driver object, of which enumeration makes at most one; `buf` the address of buf_.
   * `sent` and `polled` record every control request and every interrupt TRB that was put on a ring.
   */
  datatype Usb = Usb(
    initialized: bool, phase: nat, configs: seq<EndpointConfig>, drivers: seq<Address>,
    waiters: seq<Entry<SetupData, Address>>, hid: Option<Hid>, buf: Address, xfer: DeviceState,
    sent: seq<InFlight>, polled: seq<TrbPtr>)

  /** A non-null class driver or waiter is the one driver; every configured endpoint has it, number 0 never. */
  predicate UsbOk(u: Usb) {
    && |u.drivers| == ENDPOINTS && |u.waiters| == WAITERS && |u.configs| <= ENDPOINTS && DeviceOk(u.xfer)
    && (forall i :: 0 <= i < ENDPOINTS && u.drivers[i] != 0 ==> u.hid.Some? && u.drivers[i] == u.hid.value.self)
    && (forall i :: 0 <= i < WAITERS && u.waiters[i].key.Some? ==>
      u.hid.Some? && u.waiters[i].value == u.hid.value.self)
    && (forall j :: 0 <= j < |u.configs| ==>
      1 <= NumberOf(u.configs[j]) < ENDPOINTS && u.drivers[NumberOf(u.configs[j])] != 0)
    && (u.hid.Some? ==> u.hid.value.self != 0) && u.drivers[0] == 0
  }

  // ---- requests ----

  /** ControlIn and ControlOut: the issuer, unless null, waits for the setup data. */
  function ControlTransfer(u: Usb, r: Request, issuer: Address): (Usb, Error)
    requires DeviceOk(u.xfer)
  {
    var waiters := if issuer != 0 then Inserted(u.waiters, r.setup, issuer) else u.waiters;
    var (xfer, err) := Control(u.xfer, EP0, r);
    var sent := match RingOf(u.xfer, EP0) case None => [] case Some(ring) => [NewFlight(ring, EP0, r)];
    (u.(waiters := waiters, xfer := xfer, sent := u.sent + sent), err)
  }

  /** Sections 9.4.3 and 9.4.7 of USB 2.0. */
  function GetDescriptorRequest(kind: Byte, index: Byte, buf: Address): Request {
    var high: nat := kind;
    Request(true, SetupData(0x80, GET_DESCRIPTOR, 256 * high + index, 0, BUF_SIZE), buf, BUF_SIZE)
  }

  function SetConfigurationRequest(value: Byte): Request {
    Request(false, SetupData(0, SET_CONFIGURATION, value, 0, 0), 0, 0)
  }

  function Perform(u: Usb, call: ParentCall): (Usb, Error)
    requires DeviceOk(u.xfer) && u.hid.Some? && (call.InterruptIn? ==> 1 <= call.endpoint <= RINGS)
  {
    match call
    case ControlOut(setup) => ControlTransfer(u, Request(false, setup, 0, 0), u.hid.value.self)
    case InterruptIn(endpoint, buf, len) =>
      var (xfer, err) := PushInterrupt(u.xfer, endpoint, buf, len);
      var polled := match RingOf(u.xfer, endpoint)
                    case None => []
                    case Some(ring) => [TrbPtr(endpoint, ring.writeIndex)];
      (u.(xfer := xfer, polled := u.polled + polled), err)
    case Fail(error) => (u, error)
  }

  // ---- the phases ----

  function Start(u: Usb): (Usb, Error)
    requires DeviceOk(u.xfer)
  {
    ControlTransfer(u.(initialized := false, phase := 1), GetDescriptorRequest(DEVICE_DESCRIPTOR, 0, u.buf), 0)
  }

  function Phase1(u: Usb): (Usb, Error)
    requires DeviceOk(u.xfer)
  {
    ControlTransfer(u.(phase := 2), GetDescriptorRequest(CONFIGURATION_DESCRIPTOR, 0, u.buf), 0)
  }

  /** Well-formed descriptors; the chosen interface has at most 16 endpoints, all described, with numbers 1 to 15. */
  predicate BlobOk(descs: seq<Descriptor>) {
    && |descs| >= 1 && AllOk(descs)
    && var c := FirstSupported(descs, 1);
       c < |descs| ==>
         |ChosenConfigs(descs, c)| == descs[c][4] <= ENDPOINTS && NumbersOk(ChosenConfigs(descs, c))
  }

  predicate NumbersOk(cs: seq<EndpointConfig>) {
    forall j :: 0 <= j < |cs| ==> 1 <= NumberOf(cs[j]) < ENDPOINTS
  }

  /** What enumeration keeps of a blob whose interface c is chosen. */
  function ChosenConfigs(descs: seq<Descriptor>, c: nat): seq<EndpointConfig>
    requires AllOk(descs) && c < |descs| && KindOf(descs[c]).Some?
  {
    ConfigsFrom(descs, c + 1, descs[c][4])
  }

  /** Interface number and report size: 8 bytes from a keyboard, 3 from a mouse. */
  function NewHid(d: Descriptor, self: Address, buf: Address): Hid
    requires DescriptorOk(d) && KindOf(d).Some?
  {
    Hid(self, buf, d[2], if KindOf(d) == Some(Keyboard) then 8 else 3, 0, 0, 0)
  }

  predicate NumbersFit(cs: seq<EndpointConfig>) {
    forall j :: 0 <= j < |cs| ==> NumberOf(cs[j]) < ENDPOINTS
  }

  /** The driver stands for the number of every endpoint. */
  function Bound(drivers: seq<Address>, cs: seq<EndpointConfig>, self: Address): (r: seq<Address>)
    requires |drivers| == ENDPOINTS && NumbersFit(cs)
    ensures |r| == ENDPOINTS
  {
    if cs == [] then drivers else Bound(drivers, cs[..|cs| - 1], self)[NumberOf(cs[|cs| - 1]) := self]
  }

  /** Interface c of the blob is chosen: its endpoints and a new driver, at `self` with its buffer at `hidBuf`. */
  function WithInterface(u: Usb, descs: seq<Descriptor>, c: nat, self: Address, hidBuf: Address): Usb
    requires |u.drivers| == ENDPOINTS && BlobOk(descs) && c == FirstSupported(descs, 1) < |descs|
  {
    var configs := ChosenConfigs(descs, c);
    u.(configs := configs, drivers := Bound(u.drivers, configs, self), hid := Some(NewHid(descs[c], self, hidBuf)),
      phase := 3)
  }

  function Phase2(u: Usb, descs: seq<Descriptor>, self: Address, hidBuf: Address): (Usb, Error)
    requires DeviceOk(u.xfer) && |u.drivers| == ENDPOINTS && BlobOk(descs)
  {
    if descs[0][1] != CONFIGURATION_DESCRIPTOR then (u, InvalidDescriptor)
    else
      var c := FirstSupported(descs, 1);
      if c == |descs| then (u, Success)
      else ControlTransfer(WithInterface(u, descs, c, self, hidBuf), SetConfigurationRequest(descs[0][5]), 0)
  }

  function Phase3(u: Usb): (Usb, Error) {
    var hid := if u.hid.Some? then Some(WithEndpoints(u.hid.value, u.configs)) else None;
    (u.(hid := hid, phase := 4, initialized := true), Success)
  }

  // ---- completions ----

  /** A GET_DESCRIPTOR reply in phase 1 or 2 arrives in a buffer and starts with a descriptor. */
  predicate ReplyOk(u: Usb, setup: SetupData, buf: Address, descs: seq<Descriptor>) {
    && (!u.initialized && (u.phase == 1 || u.phase == 2) && setup.request == GET_DESCRIPTOR ==>
          buf != 0 && |descs| >= 1 && AllOk(descs))
    && (!u.initialized && u.phase == 2 && setup.request == GET_DESCRIPTOR ==>
          descs[0][1] == CONFIGURATION_DESCRIPTOR ==> BlobOk(descs))
    && (!u.initialized && u.phase == 2 ==> u.hid.None?)
    && (u.initialized && Lookup(u.waiters, setup).Some? && u.hid.Some? && u.hid.value.phase == 1 ==> CanPoll(u))
  }

  /** The polled endpoint has a place in the ring array; address 0, before any SetEndpoint, has none. */
  predicate CanPoll(u: Usb)
    requires u.hid.Some?
  {
    1 <= u.hid.value.epIn <= RINGS
  }

  /** A report from an IN endpoint with a class driver is followed by a poll. */
  predicate ReportOk(u: Usb, endpoint: nat) {
    && endpoint / 2 < |u.drivers|
    && (u.drivers[endpoint / 2] != 0 && IsIn(endpoint) && u.hid.Some? ==> CanPoll(u))
  }

  function OnControl(u: Usb, setup: SetupData, buf: Address, descs: seq<Descriptor>, self: Address,
          hidBuf: Address): (Usb, Error)
    requires UsbOk(u) && ReplyOk(u, setup, buf, descs) && self != 0
  {
    if u.initialized then
      match Lookup(u.waiters, setup)
      case None => (u, NoWaiter)
      case Some(_) =>
        var (h, call) := ControlDone(u.hid.value);
        Perform(u.(hid := Some(h)), call)
    else if u.phase == 1 then
      if setup.request == GET_DESCRIPTOR && descs[0][1] == DEVICE_DESCRIPTOR then Phase1(u) else (u, InvalidPhase)
    else if u.phase == 2 then
      if setup.request == GET_DESCRIPTOR && descs[0][1] == CONFIGURATION_DESCRIPTOR
        then Phase2(u, descs, self, hidBuf) else (u, InvalidPhase)
    else if u.phase == 3 then
      if setup.request == SET_CONFIGURATION then Phase3(u) else (u, InvalidPhase)
    else (u, NotImplemented)
  }

  function OnInterrupt(u: Usb, endpoint: nat): (Usb, Error)
    requires UsbOk(u) && ReportOk(u, endpoint)
  {
    if u.drivers[endpoint / 2] == 0 then (u, NoWaiter) else Perform(u, InterruptDone(u.hid.value, endpoint))
  }

  /** What the handler that is called relies on. */
  predicate UpcallOk(u: Usb, endpoint: nat, up: Upcall, descs: seq<Descriptor>) {
    match up
    case Failed(_) => true
    case InterruptCompleted(_, _) => ReportOk(u, endpoint)
    case ControlCompleted(setup, buf, len) =>
      ReplyOk(u, setup, buf, descs) && 0 <= len <= BUF_SIZE && (descs != [] && AllOk(descs) ==> |Flatten(descs)| == len)
  }

  /** xhci::Device::OnTransferEventReceived, up to the handler it calls. */
  function OnEvent(u: Usb, endpoint: nat, p: TrbPtr, code: nat, residual: nat, descs: seq<Descriptor>, self: Address,
          hidBuf: Address): (Usb, Error)
    requires UsbOk(u) && PtrOk(u.xfer, p) && MapOk(u.xfer) && self != 0
    requires UpcallOk(u, endpoint, OnTransferEvent(u.xfer, p, code, residual).1, descs)
  {
    var (xfer, up) := OnTransferEvent(u.xfer, p, code, residual);
    var u1 := u.(xfer := xfer);
    match up
    case Failed(error) => (u1, error)
    case InterruptCompleted(_, _) => OnInterrupt(u1, endpoint)
    case ControlCompleted(setup, buf, _) => OnControl(u1, setup, buf, descs, self, hidBuf)
  }

  /** Device::OnEndpointsConfigured from class driver i on. */
  function ConfiguredFrom(u: Usb, i: nat): (Usb, Error)
    requires UsbOk(u) && i <= ENDPOINTS
    decreases ENDPOINTS - i
  {
    if i == ENDPOINTS then (u, Success)
    else if u.drivers[i] == 0 then ConfiguredFrom(u, i + 1)
    else
      var (u1, err) := ConfigureOne(u);
      if err != Success then (u1, err) else ConfiguredFrom(u1, i + 1)
  }

  /** The only issuer is the driver. */
  lemma ControlTransferOk(u: Usb, r: Request, issuer: Address)
    requires UsbOk(u) && (issuer != 0 ==> u.hid.Some? && issuer == u.hid.value.self)
    ensures UsbOk(ControlTransfer(u, r, issuer).0)
  {
  }

  function ConfigureOne(u: Usb): (r: (Usb, Error))
    requires UsbOk(u) && u.hid.Some?
    ensures UsbOk(r.0) && r.0.drivers == u.drivers
  {
    var (h, call) := Configured(u.hid.value);
    Perform(u.(hid := Some(h)), call)
  }

  /** Which waiter a completion finds: the driver, whatever setup data it put and however often. */
  lemma WaiterIsDriver(u: Usb, setup: SetupData)
    requires UsbOk(u) && Lookup(u.waiters, setup).Some?
    ensures u.hid.Some? && Lookup(u.waiters, setup).value == u.hid.value.self
  {
    var i := Find(u.waiters, Some(setup), 0);
    assert u.waiters[i].key.Some?;
  }

  /** Inside the inner loop of InitializePhase2: `configs` are stored, the rest of `all` start at i. */
  predicate Collected(descs: seq<Descriptor>, i: nat, all: seq<EndpointConfig>, configs: seq<EndpointConfig>) {
    && AllOk(descs) && i <= |descs| && |configs| <= |all|
    && all == configs + ConfigsFrom(descs, i, |all| - |configs|)
  }

  lemma CollectStep(descs: seq<Descriptor>, i: nat, all: seq<EndpointConfig>, configs: seq<EndpointConfig>)
    requires Collected(descs, i, all, configs) && |configs| < |all| && NumbersOk(all)
    ensures i < |descs|
    ensures if descs[i][1] == ENDPOINT_DESCRIPTOR
            then NumberOf(ConfigOf(descs[i])) < ENDPOINTS &&
              Collected(descs, i + 1, all, configs + [ConfigOf(descs[i])])
            else Collected(descs, i + 1, all, configs)
  {
    ConfigsStep(descs, i, |all| - |configs|);
    if descs[i][1] == ENDPOINT_DESCRIPTOR {
      assert all[|configs|] == ConfigOf(descs[i]);
    }
  }

  lemma BoundSnoc(drivers: seq<Address>, cs: seq<EndpointConfig>, c: EndpointConfig, self: Address)
    requires |drivers| == ENDPOINTS && NumbersFit(cs) && NumberOf(c) < ENDPOINTS
    ensures Bound(drivers, cs + [c], self) == Bound(drivers, cs, self)[NumberOf(c) := self]
  {
    assert (cs + [c])[..|cs|] == cs;
  }

  /** After binding, exactly the numbers of the endpoints changed. */
  lemma {:induction false} BoundAt(drivers: seq<Address>, cs: seq<EndpointConfig>, self: Address, i: nat)
    requires |drivers| == ENDPOINTS && NumbersFit(cs) && i < ENDPOINTS
    ensures Bound(drivers, cs, self)[i] == if exists j :: 0 <= j < |cs| && NumberOf(cs[j]) == i then self
            else drivers[i]
  {
    if cs != [] {
      var n := |cs| - 1;
      BoundAt(drivers, cs[..n], self, i);
      if NumberOf(cs[n]) != i {
        if j :| 0 <= j < |cs| && NumberOf(cs[j]) == i { assert cs[..n][j] == cs[j]; }
      }
    }
  }

  lemma WithInterfaceOk(u: Usb, descs: seq<Descriptor>, c: nat, self: Address, hidBuf: Address)
    requires UsbOk(u) && u.hid.None? && BlobOk(descs) && c == FirstSupported(descs, 1) < |descs| && self != 0
    ensures UsbOk(WithInterface(u, descs, c, self, hidBuf))
  {
    var configs := ChosenConfigs(descs, c);
    forall i | 0 <= i < ENDPOINTS
      ensures Bound(u.drivers, configs, self)[i] == 0 || Bound(u.drivers, configs, self)[i] == self
    {
      BoundAt(u.drivers, configs, self, i);
    }
    BoundAt(u.drivers, configs, self, 0);
    forall j | 0 <= j < |configs| ensures Bound(u.drivers, configs, self)[NumberOf(configs[j])] == self {
      BoundAt(u.drivers, configs, self, NumberOf(configs[j]));
    }
  }

  /** Skipping to the next interface skips no supported one. */
  lemma {:induction false} SupportedIsInterface(descs: seq<Descriptor>, i: nat)
    requires AllOk(descs) && i <= |descs|
    ensures FirstSupported(descs, i) == FirstSupported(descs, FirstOfType(descs, i, INTERFACE_DESCRIPTOR))
    decreases |descs| - i
  {
    if i < |descs| && descs[i][1] != INTERFACE_DESCRIPTOR { SupportedIsInterface(descs, i + 1); }
  }

  // ---- the device object ----

  /** xhci::Device derives from usb::Device; here the derived part is the object `xhci`. */
  class UsbDevice {
    const xhci: Device
    const waiters: ArrayMap<SetupData, Address>
    const epConfigs: array<EndpointConfig>
    const classDrivers: array<Address>
    const buf: array<Byte>
    const bufAddress: Address
    var driver: HidDriver?               // the object class drivers and waiters point to
    var initialized: bool
    var phase: nat
    var numEpConfigs: nat
    ghost var sent: seq<InFlight>
    ghost var polled: seq<TrbPtr>

    ghost predicate Valid()
      reads this, epConfigs, classDrivers, waiters.table, driver, xhci, xhci.Repr
    {
      && epConfigs.Length == ENDPOINTS && classDrivers.Length == ENDPOINTS && waiters.table.Length == WAITERS
      && buf.Length == BUF_SIZE && bufAddress != 0 && numEpConfigs <= ENDPOINTS
      && xhci.Valid() && {this, epConfigs, classDrivers, buf, waiters, waiters.table, driver} !! xhci.Repr
      && classDrivers as object != buf
      && UsbOk(State())
    }

    ghost function State(): Usb
      requires xhci.Valid() && numEpConfigs <= epConfigs.Length
      reads this, epConfigs, classDrivers, waiters.table, driver, xhci, xhci.Repr
    {
      Usb(initialized, phase, epConfigs[..numEpConfigs], classDrivers[..], waiters.State(),
          if driver == null then None else Some(driver.State()), bufAddress, xhci.State(), sent, polled)
    }

    constructor (xhci: Device, bufAddress: Address)
      requires xhci.Valid() && bufAddress != 0
      ensures Valid() && this.xhci == xhci && fresh(epConfigs) && fresh(classDrivers) && fresh(buf)
      ensures fresh(waiters.table)
      ensures State() == Usb(false, 0, [], seq(ENDPOINTS, _ => 0), seq(WAITERS, _ => Entry(None, 0)), None, bufAddress,
              xhci.State(), [], [])
    {
      this.xhci, this.bufAddress := xhci, bufAddress;
      waiters := new ArrayMap(WAITERS, 0);
      epConfigs := new EndpointConfig[ENDPOINTS](_ => EndpointConfig(0, 0, 0, 0));
      classDrivers := new Address[ENDPOINTS](_ => 0);
      buf := new Byte[BUF_SIZE](_ => 0);
      driver, initialized, phase, numEpConfigs, sent, polled := null, false, 0, 0, [], [];
      new;
      assert classDrivers[..] == seq(ENDPOINTS, _ => 0);
    }

    method ControlIn(setup: SetupData, buf: Address, len: nat, issuer: Address) returns (err: Error)
      requires Valid() && (issuer != 0 ==> driver != null && issuer == driver.self)
      modifies this`sent, this`polled, waiters.table, xhci.Repr
      ensures Valid() && xhci.Repr == old(xhci.Repr)
      ensures (State(), err) == ControlTransfer(old(State()), Request(true, setup, buf, len), issuer)
    {
      hide UsbOk, Inserted, Control;
      ghost var was := State();
      if issuer != 0 {
        waiters.Put(setup, issuer);
      }
      sent := ControlTransfer(was, Request(true, setup, buf, len), issuer).0.sent;
      err := xhci.ControlIn(EP0, setup, buf, len);
      ControlTransferOk(was, Request(true, setup, buf, len), issuer);
    }

    method ControlOut(setup: SetupData, buf: Address, len: nat, issuer: Address) returns (err: Error)
      requires Valid() && (issuer != 0 ==> driver != null && issuer == driver.self)
      modifies this`sent, this`polled, waiters.table, xhci.Repr
      ensures Valid() && xhci.Repr == old(xhci.Repr)
      ensures (State(), err) == ControlTransfer(old(State()), Request(false, setup, buf, len), issuer)
    {
      hide UsbOk, Inserted, Control;
      ghost var was := State();
      if issuer != 0 {
        waiters.Put(setup, issuer);
      }
      sent := ControlTransfer(was, Request(false, setup, buf, len), issuer).0.sent;
      err := xhci.ControlOut(EP0, setup, buf, len);
      ControlTransferOk(was, Request(false, setup, buf, len), issuer);
    }

    method InterruptIn(endpoint: nat, buf: Address, len: nat) returns (err: Error)
      requires Valid() && driver != null && 1 <= endpoint <= RINGS
      modifies this`polled, xhci.Repr
      ensures Valid() && xhci.Repr == old(xhci.Repr)
      ensures (State(), err) == Perform(old(State()), HidDrivers.ParentCall.InterruptIn(endpoint, buf, len))
    {
      polled := Perform(State(), HidDrivers.ParentCall.InterruptIn(endpoint, buf, len)).0.polled;
      err := xhci.InterruptIn(endpoint, buf, len);
    }

    method GetDescriptor(kind: Byte, index: Byte) returns (err: Error)
      requires Valid()
      modifies this`sent, this`polled, waiters.table, xhci.Repr
      ensures Valid() && xhci.Repr == old(xhci.Repr)
      ensures (State(), err) == ControlTransfer(old(State()), GetDescriptorRequest(kind, index, bufAddress), 0)
    {
      var high: nat := kind;
      err := ControlIn(SetupData(0x80, GET_DESCRIPTOR, 256 * high + index, 0, BUF_SIZE), bufAddress, BUF_SIZE, 0);
    }

    method SetConfiguration(value: Byte) returns (err: Error)
      requires Valid()
      modifies this`sent, this`polled, waiters.table, xhci.Repr
      ensures Valid() && xhci.Repr == old(xhci.Repr)
      ensures (State(), err) == ControlTransfer(old(State()), SetConfigurationRequest(value), 0)
    {
      err := ControlOut(SetupData(0, SET_CONFIGURATION, value, 0, 0), 0, 0, 0);
    }

    method StartInitialize() returns (err: Error)
      requires Valid()
      modifies this`initialized, this`phase, this`sent, this`polled, waiters.table, xhci.Repr
      ensures Valid() && xhci.Repr == old(xhci.Repr)
      ensures (State(), err) == Start(old(State()))
    {
      hide ControlTransfer;
      initialized := false;
      phase := 1;
      err := GetDescriptor(DEVICE_DESCRIPTOR, 0);
    }

    method InitializePhase1() returns (err: Error)
      requires Valid()
      modifies this`phase, this`sent, this`polled, waiters.table, xhci.Repr
      ensures Valid() && xhci.Repr == old(xhci.Repr)
      ensures (State(), err) == Phase1(old(State()))
    {
      hide ControlTransfer;
      phase := 2;
      err := GetDescriptor(CONFIGURATION_DESCRIPTOR, 0);
    }

    /** The loop of InitializePhase3. */
    method SetEndpoints()
      requires Valid() && (driver == null ==> numEpConfigs == 0)
      modifies driver
      ensures driver != null ==>
              driver.State() == WithEndpoints(old(driver.State()), epConfigs[..numEpConfigs]) &&
                driver.self == old(driver.self)
    {
      ghost var configs := epConfigs[..numEpConfigs];
      for i := 0 to numEpConfigs
        invariant driver != null ==> driver.State() == WithEndpoints(old(driver.State()), configs[..i])
      {
        assert configs[..i + 1][..i] == configs[..i] && configs[i] == epConfigs[i];
        driver.SetEndpoint(epConfigs[i]);
      }
      assert configs[..numEpConfigs] == configs;
    }

    method InitializePhase3() returns (err: Error)
      requires Valid()
      modifies this`initialized, this`phase, driver
      ensures Valid() && (State(), err) == Phase3(old(State()))
    {
      assert numEpConfigs > 0 ==> classDrivers[NumberOf(epConfigs[..numEpConfigs][0])] != 0;
      SetEndpoints();
      phase := 4;
      initialized := true;
      return Success;
    }

    /** MakeEPConfig for the endpoint descriptor d, which lies at p. */
    method MakeEPConfig(p: nat, ghost d: Descriptor) returns (c: EndpointConfig)
      requires DescriptorOk(d) && d[1] == ENDPOINT_DESCRIPTOR && p + |d| <= buf.Length && buf[p..p + |d|] == d
      ensures c == ConfigOf(d)
    {
      assert forall i :: 0 <= i < |d| ==> d[i] == buf[p + i];
      var high: nat := buf[p + 5];
      c := EndpointConfig(2 * (buf[p + 2] % 16) + buf[p + 2] / 128, buf[p + 3] % 4, buf[p + 4] + 256 * high,
        buf[p + 6]);
    }

    /** NewClassDriver for the interface descriptor d, which lies at p. */
    method NewClassDriver(p: nat, ghost d: Descriptor, self: Address, hidBuf: Address) returns (r: HidDriver?)
      requires DescriptorOk(d) && d[1] == INTERFACE_DESCRIPTOR && p + |d| <= buf.Length && buf[p..p + |d|] == d
      ensures r == null <==> KindOf(d).None?
      ensures r != null ==> fresh(r) && r.State() == NewHid(d, self, hidBuf)
    {
      assert forall i :: 0 <= i < |d| ==> d[i] == buf[p + i];
      if buf[p + 5] == 3 && buf[p + 6] == 1 {
        if buf[p + 7] == 1 {
          r := new HidDriver(self, hidBuf, buf[p + 2], 8);
          return r;
        } else if buf[p + 7] == 2 {
          r := new HidDriver(self, hidBuf, buf[p + 2], 3);
          return r;
        }
      }
      return null;
    }

    /** Numbers of the stored configurations are bound to the driver. */
    ghost predicate BoundSoFar(drivers: seq<Address>, self: Address)
      reads this, epConfigs, classDrivers
    {
      && epConfigs.Length == ENDPOINTS && classDrivers.Length == ENDPOINTS && |drivers| == ENDPOINTS &&
        numEpConfigs <= ENDPOINTS
      && NumbersFit(epConfigs[..numEpConfigs]) && classDrivers[..] == Bound(drivers, epConfigs[..numEpConfigs], self)
    }

    method AddEndpoint(conf: EndpointConfig, self: Address, ghost drivers: seq<Address>)
      requires BoundSoFar(drivers, self) && numEpConfigs < ENDPOINTS && NumberOf(conf) < ENDPOINTS
      modifies this`numEpConfigs, epConfigs, classDrivers
      ensures numEpConfigs == old(numEpConfigs) + 1 && BoundSoFar(drivers, self)
      ensures epConfigs[..numEpConfigs] == old(epConfigs[..numEpConfigs]) + [conf]
    {
      BoundSnoc(drivers, epConfigs[..numEpConfigs], conf, self);
      epConfigs[numEpConfigs] := conf;
      numEpConfigs := numEpConfigs + 1;
      classDrivers[conf.address / 2] := self;
      assert epConfigs[..numEpConfigs] == old(epConfigs[..numEpConfigs]) + [conf];
    }

    /** The next descriptor of the blob, as an endpoint configuration if it is one. */
    method NextEndpoint(reader: ConfigurationDescriptorReader) returns (c: Option<EndpointConfig>)
      requires reader.Valid() && reader.buf == buf && reader.k + 1 < |reader.descs|
      modifies reader
      ensures reader.Valid() && reader.k == old(reader.k) + 1
      ensures var d := reader.descs[reader.k]; c == if d[1] == ENDPOINT_DESCRIPTOR then Some(ConfigOf(d)) else None
    {
      var desc := reader.Next();
      if buf[desc.value + 1] == ENDPOINT_DESCRIPTOR {
        var conf := MakeEPConfig(desc.value, reader.descs[reader.k]);
        return Some(conf);
      }
      return None;
    }

    /** One turn of the inner loop of InitializePhase2. */
    method CollectOne(reader: ConfigurationDescriptorReader, self: Address, ghost all: seq<EndpointConfig>,
            ghost drivers: seq<Address>)
      requires reader.Valid() && reader.buf == buf && reader.k < |reader.descs| && classDrivers as object != buf
      requires BoundSoFar(drivers, self) && numEpConfigs < |all| <= ENDPOINTS && NumbersOk(all)
      requires Collected(reader.descs, reader.k + 1, all, epConfigs[..numEpConfigs])
      modifies reader, this`numEpConfigs, epConfigs, classDrivers
      ensures reader.Valid() && reader.k == old(reader.k) + 1 && reader.k < |reader.descs|
      ensures BoundSoFar(drivers, self) && numEpConfigs <= |all|
      ensures Collected(reader.descs, reader.k + 1, all, epConfigs[..numEpConfigs])
    {
      CollectStep(reader.descs, reader.k + 1, all, epConfigs[..numEpConfigs]);
      var conf := NextEndpoint(reader);
      if conf.Some? {
        AddEndpoint(conf.value, self, drivers);
      }
    }

    /** The inner loop of InitializePhase2: the reader stands at an interface that announces n endpoints. */
    method CollectEndpoints(reader: ConfigurationDescriptorReader, n: nat, self: Address)
      requires reader.Valid() && reader.buf == buf && reader.k < |reader.descs| && n <= ENDPOINTS
      requires epConfigs.Length == ENDPOINTS && classDrivers.Length == ENDPOINTS && classDrivers as object != buf
      requires |ConfigsFrom(reader.descs, reader.k + 1, n)| == n &&
               NumbersOk(ConfigsFrom(reader.descs, reader.k + 1, n))
      modifies reader, this`numEpConfigs, epConfigs, classDrivers
      ensures numEpConfigs == n && epConfigs[..n] == ConfigsFrom(reader.descs, old(reader.k) + 1, n)
      ensures classDrivers[..] == Bound(old(classDrivers[..]), epConfigs[..n], self)
    {
      ghost var descs, drivers := reader.descs, classDrivers[..];
      ghost var all := ConfigsFrom(descs, reader.k + 1, n);
      numEpConfigs := 0;
      while numEpConfigs < n
        invariant reader.Valid() && reader.k < |descs| && numEpConfigs <= n
        invariant Collected(descs, reader.k + 1, all, epConfigs[..numEpConfigs]) && BoundSoFar(drivers, self)
        decreases |descs| - reader.k
      {
        CollectOne(reader, self, all, drivers);
      }
    }

    /** The outer loop of InitializePhase2: the driver of the first supported interface; the reader stops there. */
    method FindInterface(reader: ConfigurationDescriptorReader, self: Address, hidBuf: Address) returns (r: HidDriver?)
      requires reader.Valid() && reader.buf == buf && reader.k == 0 && |reader.descs| > 0
      modifies reader
      ensures reader.Valid() && reader.k == FirstSupported(reader.descs, 1)
      ensures r == null <==> reader.k == |reader.descs|
      ensures r != null ==> fresh(r) && r.State() == NewHid(reader.descs[reader.k], self, hidBuf)
    {
      ghost var descs := reader.descs;
      SupportedIsInterface(descs, 1);
      var ifDesc := reader.NextOfType(INTERFACE_DESCRIPTOR);
      while ifDesc.Some?
        invariant reader.Valid() && ifDesc == (if reader.k < |descs| then Some(reader.p) else None)
        invariant reader.k < |descs| ==> descs[reader.k][1] == INTERFACE_DESCRIPTOR
        invariant 1 <= reader.k && FirstSupported(descs, 1) == FirstSupported(descs, reader.k)
        decreases |descs| - reader.k
      {
        reader.Here();
        r := NewClassDriver(ifDesc.value, descs[reader.k], self, hidBuf);
        if r != null {
          return r;
        }
        SupportedIsInterface(descs, reader.k + 1);
        ifDesc := reader.NextOfType(INTERFACE_DESCRIPTOR);
      }
      return null;
    }

    /** num_endpoints of the descriptor the reader stands at. */
    method EndpointCount(reader: ConfigurationDescriptorReader) returns (n: Byte)
      requires reader.Valid() && reader.buf == buf && reader.k < |reader.descs| && |reader.descs[reader.k]| > 4
      ensures n == reader.descs[reader.k][4]
    {
      reader.Here();
      assert buf[reader.p + 4] == buf[reader.p..reader.p + |reader.descs[reader.k]|][4];
      n := buf[reader.p + 4];
    }

    /** CollectEndpoints as a change of the device's state. */
    method StoreEndpoints(reader: ConfigurationDescriptorReader, ghost c: nat, self: Address)
      requires Valid() && {reader} !! xhci.Repr && reader.Valid() && reader.buf == buf && reader.k == c < |reader.descs|
      requires BlobOk(reader.descs) && c == FirstSupported(reader.descs, 1)
      modifies reader, this`numEpConfigs, epConfigs, classDrivers
      ensures xhci.Valid() && numEpConfigs <= ENDPOINTS
      ensures var configs := ChosenConfigs(reader.descs, c);
              State() == old(State()).(configs := configs, drivers := Bound(old(State()).drivers, configs, self))
    {
      var n := EndpointCount(reader);
      CollectEndpoints(reader, n, self);
    }

    /** Binds the driver of the interface the reader stands at. */
    method BindInterface(reader: ConfigurationDescriptorReader, classDriver: HidDriver, ghost c: nat,
            ghost hidBuf: Address)
      requires Valid() && driver == null && classDriver.self != 0 && {classDriver, reader} !! xhci.Repr
      requires reader.Valid() && reader.buf == buf && reader.k == c < |reader.descs|
      requires BlobOk(reader.descs) && c == FirstSupported(reader.descs, 1)
      requires classDriver.State() == NewHid(reader.descs[c], classDriver.self, hidBuf)
      modifies reader, this, epConfigs, classDrivers
      ensures Valid() && driver == classDriver
      ensures State() == WithInterface(old(State()), reader.descs, c, classDriver.self, hidBuf)
    {
      ghost var u := WithInterface(State(), reader.descs, c, classDriver.self, hidBuf);
      assert UsbOk(u) by { WithInterfaceOk(State(), reader.descs, c, classDriver.self, hidBuf); }
      StoreEndpoints(reader, c, classDriver.self);
      driver := classDriver;
      phase := 3;
      assert xhci.Valid() && State() == u;
    }

    method InitializePhase2(len: nat, ghost descs: seq<Descriptor>, self: Address, hidBuf: Address) returns (err: Error)
      requires Valid() && driver == null && self != 0
      requires BlobOk(descs) && len <= buf.Length && buf[..len] == Flatten(descs)
      modifies this, epConfigs, classDrivers, waiters.table, xhci.Repr
      ensures Valid() && xhci.Repr == old(xhci.Repr) && (driver == null || fresh(driver))
      ensures (State(), err) == Phase2(old(State()), descs, self, hidBuf)
    {
      hide UsbOk, ControlTransfer, WithInterface, ChosenConfigs;
      var reader := new ConfigurationDescriptorReader(buf, len, descs);
      var value := ConfigurationValue(reader);
      if value.None? {
        return InvalidDescriptor;
      }
      var classDriver := FindInterface(reader, self, hidBuf);
      if classDriver == null {
        return Success;
      }
      BindInterface(reader, classDriver, reader.k, hidBuf);
      err := SetConfiguration(value.value);
    }

    /** The cast to a configuration descriptor and its configuration_value. */
    method ConfigurationValue(reader: ConfigurationDescriptorReader) returns (v: Option<Byte>)
      requires reader.Valid() && reader.buf == buf && reader.k == 0 && |reader.descs| > 0
      ensures var d := reader.descs[0]; v == if d[1] == CONFIGURATION_DESCRIPTOR then Some(d[5]) else None
    {
      reader.Here();
      if buf[1] != CONFIGURATION_DESCRIPTOR {
        return None;
      }
      assert reader.descs[0][5] == buf[0..0 + |reader.descs[0]|][5];
      return Some(buf[5]);
    }

    /** The transfer a class driver asks its parent for. */
    method DoCall(call: ParentCall) returns (err: Error)
      requires Valid() && driver != null && (call.InterruptIn? ==> 1 <= call.endpoint <= RINGS)
      modifies this`sent, this`polled, waiters.table, xhci.Repr
      ensures Valid() && xhci.Repr == old(xhci.Repr)
      ensures (State(), err) == Perform(old(State()), call)
    {
      match call
      case ControlOut(setup) => err := ControlOut(setup, 0, 0, driver.self);
      case InterruptIn(endpoint, b, len) => err := InterruptIn(endpoint, b, len);
      case Fail(error) => err := error;
    }

    /** A completion the initialized device passes on to the waiting class driver. */
    method WakeWaiter(setup: SetupData) returns (err: Error)
      requires Valid() && initialized && ReplyOk(State(), setup, 0, [])
      modifies driver, this`sent, this`polled, waiters.table, xhci.Repr
      ensures Valid() && xhci.Repr == old(xhci.Repr)
      ensures (State(), err) == OnControl(old(State()), setup, 0, [], 1, 0)
    {
      hide ControlTransfer, Perform;
      var w := waiters.Get(setup);
      if w == None {
        return NoWaiter;
      }
      WaiterIsDriver(State(), setup);
      var call := driver.OnControlCompleted();
      err := DoCall(call);
    }

    /** `len` bytes of buf_ encode `descs`; a driver made now lies at `self`, its buffer at `hidBuf`. */
    method OnControlCompleted(setup: SetupData, buffer: Address, len: nat, ghost descs: seq<Descriptor>, self: Address,
            hidBuf: Address) returns (err: Error)
      requires Valid() && ReplyOk(State(), setup, buffer, descs) && self != 0
      requires len <= buf.Length && (|descs| >= 1 && AllOk(descs) ==> buf[..len] == Flatten(descs))
      modifies this, driver, epConfigs, classDrivers, waiters.table, xhci.Repr
      ensures Valid() && xhci.Repr == old(xhci.Repr) && (driver == old(driver) || fresh(driver))
      ensures (State(), err) == OnControl(old(State()), setup, buffer, descs, self, hidBuf)
    {
      hide UsbOk, ControlTransfer, Phase1, Phase2, Phase3, BlobOk;
      if initialized {
        err := WakeWaiter(setup);
        return err;
      }
      if phase == 1 {
        if setup.request == GET_DESCRIPTOR {
          var isDevice := StartsWith(DEVICE_DESCRIPTOR, len, descs);
          if isDevice {
            err := InitializePhase1();
            return err;
          }
        }
        return InvalidPhase;
      } else if phase == 2 {
        if setup.request == GET_DESCRIPTOR {
          var isConfiguration := StartsWith(CONFIGURATION_DESCRIPTOR, len, descs);
          if isConfiguration {
            err := InitializePhase2(len, descs, self, hidBuf);
            return err;
          }
        }
        return InvalidPhase;
      } else if phase == 3 {
        if setup.request == SET_CONFIGURATION {
          err := InitializePhase3();
          return err;
        }
        return InvalidPhase;
      }
      return NotImplemented;
    }

    /** DescriptorDynamicCast on the start of buf_. */
    method StartsWith(kind: Byte, len: nat, ghost descs: seq<Descriptor>) returns (b: bool)
      requires Valid() && |descs| >= 1 && AllOk(descs) && len <= buf.Length && buf[..len] == Flatten(descs)
      ensures b <==> descs[0][1] == kind
    {
      FlattenAt(descs, 0);
      assert DescriptorOk(descs[0]) && buf[..len][0..0 + |descs[0]|][1] == descs[0][1];
      b := buf[1] == kind;
    }

    method OnInterruptCompleted(endpoint: nat) returns (err: Error)
      requires Valid() && ReportOk(State(), endpoint)
      modifies this`sent, this`polled, waiters.table, xhci.Repr
      ensures Valid() && xhci.Repr == old(xhci.Repr)
      ensures (State(), err) == OnInterrupt(old(State()), endpoint)
    {
      if classDrivers[endpoint / 2] != 0 {
        assert State().drivers[endpoint / 2] != 0;
        var call := driver.OnInterruptCompleted(endpoint);
        err := DoCall(call);
        return err;
      }
      return NoWaiter;
    }

    method ConfigureDriver() returns (err: Error)
      requires Valid() && driver != null
      modifies driver, this`sent, this`polled, waiters.table, xhci.Repr
      ensures Valid() && xhci.Repr == old(xhci.Repr)
      ensures (State(), err) == ConfigureOne(old(State()))
    {
      hide ControlTransfer;
      var call := driver.OnEndpointsConfigured();
      err := DoCall(call);
    }

    /** One turn of the loop of OnEndpointsConfigured. */
    method ConfigureAt(i: nat) returns (err: Error)
      requires Valid() && i < ENDPOINTS
      modifies driver, this`sent, this`polled, waiters.table, xhci.Repr
      ensures Valid() && xhci.Repr == old(xhci.Repr)
      ensures ConfiguredFrom(old(State()), i) == if err != Success then (State(), err)
              else ConfiguredFrom(State(), i + 1)
    {
      if classDrivers[i] != 0 {
        assert State().drivers[i] != 0;
        err := ConfigureDriver();
        return err;
      }
      return Success;
    }

    method OnEndpointsConfigured() returns (err: Error)
      requires Valid()
      modifies driver, this`sent, this`polled, waiters.table, xhci.Repr
      ensures Valid() && xhci.Repr == old(xhci.Repr)
      ensures (State(), err) == ConfiguredFrom(old(State()), 0)
    {
      for i := 0 to ENDPOINTS
        invariant Valid() && xhci.Repr == old(xhci.Repr)
        invariant ConfiguredFrom(old(State()), 0) == ConfiguredFrom(State(), i)
      {
        err := ConfigureAt(i);
        if err != Success {
          return err;
        }
      }
      return Success;
    }

    /** `descs` is what the device put into buf_, if the event reports a reply. */
    method OnTransferEventReceived(endpoint: nat, p: TrbPtr, code: nat, residual: nat, ghost descs: seq<Descriptor>,
            self: Address, hidBuf: Address)
      returns (err: Error)
      requires Valid() && PtrOk(State().xfer, p) && MapOk(State().xfer) && self != 0
      requires UpcallOk(State(), endpoint, OnTransferEvent(State().xfer, p, code, residual).1, descs)
      requires descs != [] && AllOk(descs) ==>
               |Flatten(descs)| <= buf.Length && buf[..|Flatten(descs)|] == Flatten(descs)
      modifies this, driver, epConfigs, classDrivers, waiters.table, xhci.Repr
      ensures Valid() && xhci.Repr == old(xhci.Repr)
      ensures (State(), err) == OnEvent(old(State()), endpoint, p, code, residual, descs, self, hidBuf)
    {
      hide OnControl, OnInterrupt;
      var up := xhci.OnTransferEventReceived(p, code, residual);
      match up
      case Failed(error) => err := error;
      case InterruptCompleted(_, _) => err := OnInterruptCompleted(endpoint);
      case ControlCompleted(setup, b, len) => err := OnControlCompleted(setup, b, len, descs, self, hidBuf);
    }
  }
}
