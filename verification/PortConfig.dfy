/** Port configuration: the event handlers of kernel/usb/xhci/xhci.cpp as functions of the driver's state. */
module PortConfig {
  import opened Wrappers
  import opened Trbs
  import opened Rings
  import opened DeviceManagers

  datatype ConfigPhase =
    | NotConnected
    | WaitingAddressed
    | ResettingPort
    | EnablingSlot
    | AddressingDevice
    | InitializingDevice
    | ConfiguringEndpoints
    | Configured

  const PORTS: nat := 256
  const MAX_SLOTS: nat := 8
  const SUPER_SPEED_PLUS: nat := 5

  /** The PORTSC bits that the handlers read. */
  datatype PortRegisters = PortRegisters(connected: bool, enabled: bool, resetChange: bool, speed: nat)

  /** One reading of every port's PORTSC register, indexed by port number. */
  type PortReadings = r: seq<PortRegisters> | |r| == PORTS
    witness seq(PORTS, _ => PortRegisters(false, false, false, 0))

  datatype Command = EnableSlotCommand | AddressDeviceCommand(slotId: Byte) | ConfigureEndpointCommand(slotId: Byte)

  function CommandType(c: Command): nat {
    match c
    case EnableSlotCommand => ENABLE_SLOT
    case AddressDeviceCommand(_) => ADDRESS_DEVICE
    case ConfigureEndpointCommand(_) => CONFIGURE_ENDPOINT
  }

  function CommandTrb(c: Command, inputContext: Address): (t: Trb)
    ensures TypeOf(t) == CommandType(c)
  {
    CommandTypes(inputContext, 0);
    match c
    case EnableSlotCommand => EnableSlotTrb()
    case AddressDeviceCommand(s) => CommandTypes(inputContext, s); AddressDeviceTrb(inputContext, s)
    case ConfigureEndpointCommand(s) => CommandTypes(inputContext, s); ConfigureEndpointTrb(inputContext, s)
  }

  /** A command in the log: what was asked, the TRB pushed, and the ring entry that Push returned. */
  datatype Issued = Issued(command: Command, trb: Trb, index: nat)

  /** What the handlers ask of a port register or of a device object. */
  datatype Effect =
    | PortReset(port: nat)                    // Port::Reset
    | ResetChangeCleared(port: nat)           // Port::ClearPortResetChange
    | Ep0RingAllocated(slotId: Byte)          // AllocTransferRing for endpoint 0
    | EnumerationStarted(slotId: Byte)        // StartInitialize
    | EndpointRingsAllocated(slotId: Byte)    // AllocTransferRing for every configured endpoint
    | DriversConfigured(slotId: Byte)         // OnEndpointsConfigured

  /** The driver's state; `issued` logs every command pushed on the command ring, `effects` what else was asked for. */
  datatype Driver = Driver(
    phases: seq<ConfigPhase>, addressing: nat, table: DeviceTable, ring: RingState, issued: seq<Issued>,
      effects: seq<Effect>)

  predicate DriverOk(d: Driver) {
    |d.phases| == PORTS && d.addressing < PORTS && TableOk(d.table) && |d.table.devices| == MAX_SLOTS + 1 &&
      RingOk(d.ring)
  }

  /** How the device object answered a transfer event: its error, and is_initialized_ afterwards. */
  datatype TransferOutcome = TransferOutcome(error: Error, initialized: bool)

  /** Where AllocMem places the contexts of a new device. */
  datatype Placement = Placement(context: Address, inputContext: Address)

  // ---- the handlers as functions of the driver's state ----

  function SetPhase(d: Driver, port: nat, phase: ConfigPhase): Driver
    requires DriverOk(d) && port < PORTS
  {
    d.(phases := d.phases[port := phase])
  }

  function SetDevice(d: Driver, slotId: Byte, dev: DeviceRecord): Driver
    requires DriverOk(d) && slotId <= MAX_SLOTS
  {
    d.(table := d.table.(devices := d.table.devices[slotId := Some(dev)]))
  }

  function WithEffect(d: Driver, e: Effect): Driver { d.(effects := d.effects + [e]) }

  function Issue(d: Driver, c: Command, inputContext: Address): Driver
    requires DriverOk(d)
  {
    var t := CommandTrb(c, inputContext);
    d.(ring := Pushed(d.ring, t), issued := d.issued + [Issued(c, t, d.ring.writeIndex)])
  }

  function ResetPort(d: Driver, port: nat, regs: PortReadings): (r: (Driver, Error))
    requires DriverOk(d) && port < PORTS
    ensures DriverOk(r.0)
  {
    if !regs[port].connected then (d, Success)
    else if d.addressing != 0 then (SetPhase(d, port, WaitingAddressed), Success)
    else if d.phases[port] != NotConnected && d.phases[port] != WaitingAddressed then (d, InvalidPhase)
    else (WithEffect(SetPhase(d.(addressing := port), port, ResettingPort), PortReset(port)), Success)
  }

  function EnableSlot(d: Driver, port: nat, regs: PortReadings): (r: (Driver, Error))
    requires DriverOk(d) && port < PORTS
    ensures DriverOk(r.0)
  {
    if regs[port].enabled && regs[port].resetChange then
      (Issue(WithEffect(SetPhase(d, port, EnablingSlot), ResetChangeCleared(port)), EnableSlotCommand, 0), Success)
    else (d, Success)
  }

  function AddressDevice(d: Driver, port: Byte, slotId: Byte, place: Placement): (r: (Driver, Error))
    requires DriverOk(d)
    ensures DriverOk(r.0)
  {
    var d1 := d.(table := Allocated(d.table, slotId, place.context, place.inputContext));
    match FindBySlot(d1.table, slotId)
    case None => (d1, InvalidSlotID)
    case Some(dev) =>
      var d2 := WithEffect(SetDevice(d1, slotId, dev.(inputPort := port)), Ep0RingAllocated(slotId));
      var d3 := d2.(table := d2.table.(contexts := d2.table.contexts[slotId := Some(dev.context)]));
      (Issue(SetPhase(d3, port, AddressingDevice), AddressDeviceCommand(slotId), dev.inputContext), Success)
  }

  function InitializeDevice(d: Driver, port: Byte, slotId: Byte): (r: (Driver, Error))
    requires DriverOk(d)
    ensures DriverOk(r.0)
  {
    match FindBySlot(d.table, slotId)
    case None => (d, InvalidSlotID)
    case Some(dev) =>
      var d1 := SetDevice(SetPhase(d, port, InitializingDevice), slotId, dev.(initialized := false));
      (WithEffect(d1, EnumerationStarted(slotId)), Success)
  }

  function CompleteConfiguration(d: Driver, port: Byte, slotId: Byte): (r: (Driver, Error))
    requires DriverOk(d)
    ensures DriverOk(r.0)
  {
    match FindBySlot(d.table, slotId)
    case None => (d, InvalidSlotID)
    case Some(_) => (WithEffect(SetPhase(d, port, Configured), DriversConfigured(slotId)), Success)
  }

  function ConfigureEndpoints(d: Driver, slotId: Byte, regs: PortReadings): (r: (Driver, Error))
    requires DriverOk(d) && FindBySlot(d.table, slotId).Some?
    ensures DriverOk(r.0)
  {
    var dev := FindBySlot(d.table, slotId).value;
    var port := dev.outputPort;
    var d1 := SetDevice(d, slotId, dev.(inputPort := port));
    if regs[port].speed == 0 || regs[port].speed > SUPER_SPEED_PLUS then (d1, UnknownXHCISpeedID)
    else
      var d2 := WithEffect(SetPhase(d1, port, ConfiguringEndpoints), EndpointRingsAllocated(slotId));
      (Issue(d2, ConfigureEndpointCommand(slotId), dev.inputContext), Success)
  }

  function ConfigurePort(d: Driver, port: nat, regs: PortReadings): (r: (Driver, Error))
    requires DriverOk(d) && port < PORTS
    ensures DriverOk(r.0)
  {
    if d.phases[port] == NotConnected then ResetPort(d, port, regs) else (d, Success)
  }

  function OnPortStatusChange(d: Driver, port: Byte, regs: PortReadings): (r: (Driver, Error))
    requires DriverOk(d)
    ensures DriverOk(r.0)
  {
    match d.phases[port]
    case NotConnected => ResetPort(d, port, regs)
    case ResettingPort => EnableSlot(d, port, regs)
    case _ => (d, InvalidPhase)
  }

  function OnTransferEvent(d: Driver, slotId: Byte, outcome: TransferOutcome, regs: PortReadings): (r: (Driver, Error))
    requires DriverOk(d)
    ensures DriverOk(r.0)
  {
    match FindBySlot(d.table, slotId)
    case None => (d, InvalidSlotID)
    case Some(dev) =>
      var d1 := SetDevice(d, slotId, dev.(initialized := outcome.initialized));
      if outcome.error != Success then (d1, outcome.error)
      else if outcome.initialized && d.phases[dev.outputPort] == InitializingDevice
        then ConfigureEndpoints(d1, slotId, regs)
      else (d1, Success)
  }

  /** First port at or after i that waits for the lock, or PORTS. */
  function FirstWaiting(phases: seq<ConfigPhase>, i: nat): (w: nat)
    requires i <= |phases|
    ensures i <= w <= |phases| && (forall k :: i <= k < w ==> phases[k] != WaitingAddressed)
    ensures w < |phases| ==> phases[w] == WaitingAddressed
    decreases |phases| - i
  {
    if i == |phases| || phases[i] == WaitingAddressed then i else FirstWaiting(phases, i + 1)
  }

  /** Releases the lock and offers it to the first waiting port. */
  function HandOff(d: Driver, regs: PortReadings): (r: (Driver, Error))
    requires DriverOk(d)
    ensures DriverOk(r.0)
  {
    var d1 := d.(addressing := 0);
    var w := FirstWaiting(d.phases, 0);
    if w < PORTS then ResetPort(d1, w, regs) else (d1, Success)
  }

  /** `trb` is the command ring entry that the completion event points at. */
  function OnCommandCompletion(d: Driver, trb: nat, slotId: Byte, regs: PortReadings,
          place: Placement): (r: (Driver, Error))
    requires DriverOk(d) && trb < |d.ring.mem|
    ensures DriverOk(r.0)
  {
    var issuer := TypeOf(d.ring.mem[trb]);
    if issuer == ENABLE_SLOT then
      if d.phases[d.addressing] != EnablingSlot then (d, InvalidPhase)
      else AddressDevice(d, d.addressing, slotId, place)
    else if issuer == ADDRESS_DEVICE then
      match FindBySlot(d.table, slotId)
      case None => (d, InvalidSlotID)
      case Some(dev) =>
        if dev.outputPort != d.addressing || d.phases[dev.outputPort] != AddressingDevice then (d, InvalidPhase)
        else
          var (d1, err) := HandOff(d, regs);
          if err != Success then (d1, err) else InitializeDevice(d1, dev.outputPort, slotId)
    else if issuer == CONFIGURE_ENDPOINT then
      match FindBySlot(d.table, slotId)
      case None => (d, InvalidSlotID)
      case Some(dev) =>
        if d.phases[dev.outputPort] != ConfiguringEndpoints then (d, InvalidPhase)
        else CompleteConfiguration(d, dev.outputPort, slotId)
    else (d, InvalidPhase)
  }

  // ---- exactly when a handler refuses ----

  predicate IsFirstWaiting(d: Driver, w: nat)
    requires DriverOk(d)
  {
    w < 256 && d.phases[w] == WaitingAddressed && forall k :: 0 <= k < w ==> d.phases[k] != WaitingAddressed
  }

  /**
   * A waiting port is never refused its reset, so the hand-off does not fail: the first waiting port is reset if it is
   * connected, otherwise the lock is just released.
   */
  lemma HandOffSucceeds(d: Driver, regs: PortReadings)
    requires DriverOk(d)
    ensures HandOff(d, regs).1 == Success
    ensures forall w: nat :: IsFirstWaiting(d, w) ==>
              HandOff(d, regs).0 ==
                if regs[w].connected
                then d.(addressing := w, phases := d.phases[w := ResettingPort], effects := d.effects + [PortReset(w)])
                else d.(addressing := 0)
    ensures WaitingAddressed !in d.phases ==> HandOff(d, regs).0 == d.(addressing := 0)
  {
  }

  /** The three handlers of a slot refuse exactly a slot without a device, above 8 for a new one, and change nothing. */
  lemma SlotRefusedExactly(d: Driver, port: Byte, slotId: Byte, place: Placement)
    requires DriverOk(d)
    ensures var known := slotId <= 8 && d.table.devices[slotId].Some?;
            && InitializeDevice(d, port, slotId).1 == (if known then Success else InvalidSlotID)
            && CompleteConfiguration(d, port, slotId).1 == (if known then Success else InvalidSlotID)
            && AddressDevice(d, port, slotId, place).1 == (if slotId <= 8 then Success else InvalidSlotID)
            && (!known ==> InitializeDevice(d, port, slotId).0 == CompleteConfiguration(d, port, slotId).0 == d)
            && (slotId > 8 ==> AddressDevice(d, port, slotId, place).0 == d)
  {
  }

  /** The sweep over all ports resets those that have not been connected yet, and never fails. */
  lemma SweepSucceeds(d: Driver, port: nat, regs: PortReadings)
    requires DriverOk(d) && port < PORTS
    ensures var (d', err) := ConfigurePort(d, port, regs);
            && err == Success && (d.phases[port] != NotConnected || !regs[port].connected ==> d' == d)
            && (d.phases[port] == NotConnected && regs[port].connected ==>
                  d'.phases == d.phases[port := if d.addressing == 0 then ResettingPort else WaitingAddressed])
  {
  }

  /** A port is refused its reset exactly when it is connected, the lock is free, and it has been reset before. */
  lemma ResetRefusedExactly(d: Driver, port: nat, regs: PortReadings)
    requires DriverOk(d) && port < PORTS
    ensures var (d', err) := ResetPort(d, port, regs);
            && (err == InvalidPhase || err == Success) && (err == InvalidPhase ==> d' == d)
            && (err == InvalidPhase <==>
                  regs[port].connected && d.addressing == 0 && d.phases[port] !in {NotConnected, WaitingAddressed})
  {
  }

  /** Status changes are refused exactly in the phases between the reset and the end, and then change nothing. */
  lemma PortStatusRefusedExactly(d: Driver, port: Byte, regs: PortReadings)
    requires DriverOk(d)
    ensures var (d', err) := OnPortStatusChange(d, port, regs);
            && (err == InvalidPhase || err == Success) && (err == InvalidPhase ==> d' == d)
            && (err == Success <==> d.phases[port] == NotConnected || d.phases[port] == ResettingPort)
  {
  }

  /**
   * A completion is accepted or changes nothing.  It is refused for its slot when that is above 8, or has no device;
   * for its phase when the port that it is for awaits no such completion, or its command is of another type.
   */
  lemma CompletionRefusedExactly(d: Driver, trb: nat, slotId: Byte, regs: PortReadings, place: Placement)
    requires DriverOk(d) && trb < |d.ring.mem|
    ensures var (d', err) := OnCommandCompletion(d, trb, slotId, regs, place);
            var kind := d.ring.mem[trb].w3 / 1024 % 64;
            var known := slotId <= 8 && d.table.devices[slotId].Some?;
            && (err == Success || err == InvalidSlotID || err == InvalidPhase) && (err != Success ==> d' == d)
            && (kind == 9 ==>
                  err == if d.phases[d.addressing] != EnablingSlot then InvalidPhase
                         else if slotId > 8 then InvalidSlotID else Success)
            && (kind == 11 && known ==>
                  var port := d.table.devices[slotId].value.outputPort;
                  err == Success <==> port == d.addressing && d.phases[port] == AddressingDevice)
            && (kind == 12 && known ==>
                  var port := d.table.devices[slotId].value.outputPort;
                  err == Success <==> d.phases[port] == ConfiguringEndpoints)
            && ((kind == 11 || kind == 12) ==> (err == InvalidSlotID <==> !known))
            && (kind !in {9, 11, 12} ==> err == InvalidPhase)
  {
    hide ResetPort, HandOff;
    HandOffSucceeds(d, regs);
    HandOffKeepsRest(d, regs);
  }

  lemma HandOffKeepsRest(d: Driver, regs: PortReadings)
    requires DriverOk(d)
    ensures HandOff(d, regs).0.table == d.table
  {
  }

  /**
   * A transfer event is refused for its slot without a device there; otherwise the device's own error is returned, and
   * without one an unknown speed of the port of a device that is just initialized.
   */
  lemma TransferRefusedExactly(d: Driver, slotId: Byte, outcome: TransferOutcome, regs: PortReadings)
    requires DriverOk(d)
    ensures var (d', err) := OnTransferEvent(d, slotId, outcome, regs);
            if slotId > 8 || d.table.devices[slotId] == None then d' == d && err == InvalidSlotID
            else
              var port := d.table.devices[slotId].value.outputPort;
              var ready := outcome.initialized && d.phases[port] == InitializingDevice;
              && d'.phases == (if outcome.error == Success && ready && 1 <= regs[port].speed <= 5
                               then d.phases[port := ConfiguringEndpoints] else d.phases)
              && err == (if outcome.error != Success then outcome.error
                         else if ready && !(1 <= regs[port].speed <= 5) then UnknownXHCISpeedID else Success)
  {
  }
}
