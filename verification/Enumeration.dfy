/**
 * Runs of one device: enumeration, configuration of its endpoints, and polling by its HID driver, against a
 * controller that completes any outstanding transfer, with success or failure, at any time.
 */
module Enumeration {
  import opened Wrappers
  import opened Trbs
  import opened Rings
  import opened ArrayMaps
  import opened Transfers
  import opened RequestMatching
  import opened Descriptors
  import opened HidDrivers
  import opened UsbDevices

  const RING_SIZE: nat := 32

  datatype Stage = Idle | Enumerating | RingsReady | Ready

  /** A control request that succeeded and what it returned. */
  datatype Reply = Reply(request: Request, descs: seq<Descriptor>)

  /**
   * `flight` are the control requests whose event is still to come, `stale` counts failed ones; `polls` are the
   * interrupt TRBs whose event is still to come, `lost` counts failed ones; `log` holds the replies, in order.
   */
  datatype Sys = Sys(u: Usb, stage: Stage, flight: seq<InFlight>, stale: nat, polls: seq<TrbPtr>, lost: nat,
    log: seq<Reply>)

  datatype Step =
    | Begin                                   // InitializeDevice
    | Completion(i: nat, code: nat, residual: nat, descs: seq<Descriptor>, self: Address, hidBuf: Address)
    | Report(code: nat, residual: nat)
    | AllocRings(bases: seq<Address>)         // ConfigureEndpoints
    | Configured                              // CompleteConfiguration

  predicate Succeeded(code: nat) { code == CODE_SUCCESS || code == CODE_SHORT_PACKET }

  function EmptyRing(base: Address): RingState { RingState(seq(RING_SIZE, _ => ZERO), base, 0, true) }

  /** AllocTransferRing for the address of every configured endpoint. */
  function RingsFor(d: DeviceState, cs: seq<EndpointConfig>, bases: seq<Address>): (d': DeviceState)
    requires DeviceOk(d) && |bases| == |cs| && forall j :: 0 <= j < |cs| ==> 1 <= cs[j].address <= RINGS
    ensures DeviceOk(d')
  {
    if cs == [] then d
    else WithRing(RingsFor(d, cs[..|cs| - 1], bases[..|cs| - 1]), cs[|cs| - 1].address, EmptyRing(bases[|cs| - 1]))
  }

  // ---- the environment ----

  predicate Pollable(cs: seq<EndpointConfig>) {
    exists j :: 0 <= j < |cs| && IsPollable(cs[j])
  }

  /** A successful transfer fills the buffer with well-formed descriptors, and there is no data without a buffer. */
  predicate ReplyFits(r: Request, residual: nat, descs: seq<Descriptor>) {
    if r.buf == 0 then descs == []
    else BlobOk(descs) && residual <= r.len && |Flatten(descs)| == r.len - residual
  }

  predicate Enabled(s: Sys, step: Step) {
    match step
    case Begin => s.stage.Idle?
    case Completion(i, code, residual, descs, self, _) =>
      i < |s.flight| && self != 0 && (Succeeded(code) ==> ReplyFits(s.flight[i].request, residual, descs))
    case Report(_, _) => |s.polls| > 0
    case AllocRings(bases) => s.stage.Enumerating? && s.u.initialized && |bases| == |s.u.configs|
    case Configured => s.stage.RingsReady?
  }

  // ---- one step ----

  /**
   * What the code relies on when it takes the step: valid pointers, descriptors where it looks for them, bound drivers.
   */
  predicate Safe(s: Sys, step: Step)
    requires Enabled(s, step)
  {
    && UsbOk(s.u)
    && match step
       case Begin => true
       case Completion(i, code, residual, descs, _, _) =>
         && PtrOk(s.u.xfer, s.flight[i].key) && MapOk(s.u.xfer)
         && UpcallOk(s.u, EP0, OnTransferEvent(s.u.xfer, s.flight[i].key, code, residual).1, descs)
       case Report(code, residual) =>
         && PtrOk(s.u.xfer, s.polls[0]) && MapOk(s.u.xfer)
         && UpcallOk(s.u, s.polls[0].dci, OnTransferEvent(s.u.xfer, s.polls[0], code, residual).1, [])
       case AllocRings(_) => forall j :: 0 <= j < |s.u.configs| ==> 1 <= s.u.configs[j].address <= RINGS
       case Configured => true
  }

  /** The driver would poll an endpoint it was never given. */
  predicate PollsNowhere(s: Sys, step: Step) {
    step.Completion? && Succeeded(step.code) && s.stage.Ready? && s.u.hid.Some? && s.u.hid.value.phase == 1 &&
      s.u.hid.value.epIn == 0
  }

  function Sent(u: Usb, u': Usb): seq<InFlight> { if |u.sent| <= |u'.sent| then u'.sent[|u.sent|..] else [] }
  function Polled(u: Usb, u': Usb): seq<TrbPtr> { if |u.polled| <= |u'.polled| then u'.polled[|u.polled|..] else [] }

  function After(s: Sys, step: Step): Sys
    requires Enabled(s, step) && Safe(s, step)
  {
    var u := s.u;
    match step
    case Begin =>
      var u' := Start(u).0;
      s.(u := u', stage := Enumerating, flight := s.flight + Sent(u, u'))
    case Completion(i, code, residual, descs, self, hidBuf) =>
      var u' := OnEvent(u, EP0, s.flight[i].key, code, residual, descs, self, hidBuf).0;
      s.(u := u', flight := Without(s.flight, i) + Sent(u, u'), polls := s.polls + Polled(u, u'),
         stale := if Succeeded(code) then s.stale else s.stale + 1,
         log := if Succeeded(code) then s.log + [Reply(s.flight[i].request, descs)] else s.log)
    case Report(code, residual) =>
      var u' := OnEvent(u, s.polls[0].dci, s.polls[0], code, residual, [], 1, 0).0;
      s.(u := u', flight := s.flight + Sent(u, u'), polls := s.polls[1..] + Polled(u, u'),
         lost := if Succeeded(code) then s.lost else s.lost + 1)
    case AllocRings(bases) => s.(u := u.(xfer := RingsFor(u.xfer, u.configs, bases)), stage := RingsReady)
    case Configured =>
      var u' := ConfiguredFrom(u, 0).0;
      s.(u := u', stage := Ready, flight := s.flight + Sent(u, u'))
  }

  predicate Init(s: Sys) {
    && s.stage.Idle? && s.flight == [] && s.stale == 0 && s.polls == [] && s.lost == 0 && s.log == []
    && !s.u.initialized && s.u.phase == 0 && s.u.configs == [] && s.u.drivers == seq(ENDPOINTS, _ => 0)
    && s.u.waiters == seq(WAITERS, _ => Entry(None, 0)) && s.u.hid == None && s.u.buf != 0
    && |s.u.xfer.rings| == RINGS && (forall i :: 1 <= i < RINGS ==> s.u.xfer.rings[i] == None)
    && (exists base :: s.u.xfer.rings[0] == Some(EmptyRing(base)))
    && s.u.xfer.setupMap == seq(SETUP_MAP_SIZE, _ => Entry(None, TrbPtr(0, 0)))
  }

  /** A run ends where the code would rely on something that does not hold. */
  predicate Next(s: Sys, step: Step, s': Sys) {
    Enabled(s, step) && Safe(s, step) && s' == After(s, step)
  }

  ghost predicate RunFrom(s: Sys, ss: seq<Sys>, steps: seq<Step>) {
    && |ss| == |steps| + 1 && ss[0] == s
    && forall i :: 0 <= i < |steps| ==> Next(ss[i], steps[i], ss[i + 1])
  }

  ghost predicate Run(ss: seq<Sys>, steps: seq<Step>) {
    |ss| > 0 && Init(ss[0]) && RunFrom(ss[0], ss, steps)
  }

  // ---- what holds in every state ----

  predicate OnEp0(flight: seq<InFlight>) {
    forall i :: 0 <= i < |flight| ==> flight[i].key.dci == EP0
  }

  /** The transfer layer: requests in flight on the 32-entry ring of endpoint 0 match the map of 16 entries. */
  ghost predicate Base(u: Usb, flight: seq<InFlight>, stale: nat) {
    && UsbOk(u) && u.buf != 0 && Match(u.xfer, flight, stale) && |u.xfer.setupMap| == SETUP_MAP_SIZE
    && u.xfer.rings[0].Some? && |u.xfer.rings[0].value.mem| == RING_SIZE
    && OnEp0(flight)
  }

  predicate NoWaiters(u: Usb) {
    forall i :: 0 <= i < |u.waiters| ==> u.waiters[i].key.None?
  }

  predicate IsReply(r: Reply, kind: Byte, buf: Address) {
    r.request == GetDescriptorRequest(kind, 0, buf) && BlobOk(r.descs) && r.descs[0][1] == kind
  }

  /** The configuration value the device announced. */
  function Announced(r: Reply): Byte
    requires BlobOk(r.descs) && r.descs[0][1] == CONFIGURATION_DESCRIPTOR
  {
    r.descs[0][5]
  }

  /** The endpoints of the first supported interface are the device's. */
  predicate Adopted(u: Usb, descs: seq<Descriptor>) {
    BlobOk(descs) && var c := FirstSupported(descs, 1);
    && c < |descs| && u.configs == ChosenConfigs(descs, c) && u.hid.Some?
    && u.hid.value.interfaceIndex == descs[c][2] && u.hid.value.packetSize == (if descs[c][7] == 1 then 8 else 3)
  }

  /** Only numbers of configured endpoints have a class driver. */
  predicate DriversConfigured(u: Usb) {
    forall i :: 0 <= i < |u.drivers| && u.drivers[i] != 0 ==>
      exists j :: 0 <= j < |u.configs| && NumberOf(u.configs[j]) == i
  }

  /** Device descriptor, configuration descriptor 0, and SET_CONFIGURATION with its value, in this order. */
  predicate Ordered(log: seq<Reply>, u: Usb) {
    && |log| >= 3 && IsReply(log[0], DEVICE_DESCRIPTOR, u.buf) && IsReply(log[1], CONFIGURATION_DESCRIPTOR, u.buf)
    && log[2].request == SetConfigurationRequest(Announced(log[1])) && Adopted(u, log[1].descs)
  }

  predicate IdleInv(s: Sys) {
    && s.stage.Idle? && !s.u.initialized && s.u.phase == 0 && s.flight == [] && s.stale == 0 && s.log == []
    && s.polls == [] && s.lost == 0 && s.u.hid.None? && NoWaiters(s.u)
  }

  /** What enumeration accepts: a device descriptor first, then a configuration with a supported interface. */
  predicate Accepted(log: seq<Reply>, k: nat)
    requires k < |log|
  {
    && (k == 0 ==> BlobOk(log[0].descs) && log[0].descs[0][1] == DEVICE_DESCRIPTOR)
    && (k == 1 ==>
          && BlobOk(log[1].descs) && log[1].descs[0][1] == CONFIGURATION_DESCRIPTOR
          && FirstSupported(log[1].descs, 1) < |log[1].descs|)
  }

  predicate AllAccepted(log: seq<Reply>) {
    forall k :: 0 <= k < |log| ==> Accepted(log, k)
  }

  /** The request of the current phase. */
  function Due(u: Usb, log: seq<Reply>): Request
    requires u.phase == 3 ==> |log| >= 2 && IsReply(log[1], CONFIGURATION_DESCRIPTOR, u.buf)
  {
    if u.phase == 1 then GetDescriptorRequest(DEVICE_DESCRIPTOR, 0, u.buf)
    else if u.phase == 2 then GetDescriptorRequest(CONFIGURATION_DESCRIPTOR, 0, u.buf)
    else if u.phase == 3 then SetConfigurationRequest(Announced(log[1]))
    else SetConfigurationRequest(0)
  }

  /**
   * Before initialization: at most one request, the one the phase calls for; and one exactly as long as no transfer
   * has failed and every reply was accepted.
   */
  predicate PhaseInv(s: Sys) {
    && s.stage.Enumerating? && !s.u.initialized && 1 <= s.u.phase <= 3 && |s.flight| + s.stale <= 1
    && s.polls == [] && s.lost == 0 && NoWaiters(s.u) && (s.u.phase < 3 ==> s.u.hid.None?)
    && s.u.phase - 1 <= |s.log| <= s.u.phase
    && (s.u.phase >= 2 ==> IsReply(s.log[0], DEVICE_DESCRIPTOR, s.u.buf))
    && (s.u.phase == 3 ==>
          && IsReply(s.log[1], CONFIGURATION_DESCRIPTOR, s.u.buf) && Adopted(s.u, s.log[1].descs)
          && s.u.hid.value.phase == 0 && s.u.hid.value.epIn == 0 && |s.log| == 2 && DriversConfigured(s.u))
    && (s.flight != [] <==> s.stale == 0 && AllAccepted(s.log))
    && (s.flight != [] ==> |s.log| == s.u.phase - 1 && s.flight[0].request == Due(s.u, s.log))
  }

  /** The driver polls a configured interrupt-IN endpoint; without one its endpoint is still address 0. */
  predicate EndpointChosen(u: Usb) {
    u.hid.Some? &&
    if Pollable(u.configs)
    then exists j :: 0 <= j < |u.configs| && IsPollable(u.configs[j]) && u.configs[j].address == u.hid.value.epIn
    else u.hid.value.epIn == 0
  }

  predicate AddressesOk(cs: seq<EndpointConfig>) {
    forall j :: 0 <= j < |cs| ==> 2 <= cs[j].address <= RINGS
  }

  predicate PollRing(u: Usb) {
    DeviceOk(u.xfer) && u.hid.Some? && 2 <= u.hid.value.epIn <= RINGS && u.xfer.rings[u.hid.value.epIn - 1].Some?
  }

  predicate InitializedInv(s: Sys) {
    && (s.stage.Enumerating? || s.stage.RingsReady?) && s.u.initialized && s.u.phase == 4
    && s.flight == [] && s.stale == 0 && s.polls == [] && s.lost == 0 && NoWaiters(s.u)
    && |s.log| == 3 && Ordered(s.log, s.u) && AddressesOk(s.u.configs) && EndpointChosen(s.u) &&
      s.u.hid.value.phase == 0
    && DriversConfigured(s.u)
    && (s.stage.RingsReady? && Pollable(s.u.configs) ==> PollRing(s.u))
  }

  function SetProtocolRequest(h: Hid): Request { Request(false, SetProtocolSetup(h.interfaceIndex), 0, 0) }

  /** A driver bound to no endpoint number has asked for nothing. */
  predicate FlightInv(u: Usb, flight: seq<InFlight>) {
    && u.hid.Some?
    && (if u.configs == [] then flight == [] else Lookup(u.waiters, SetProtocolSetup(u.hid.value.interfaceIndex)).Some?)
    && forall i :: 0 <= i < |flight| ==> flight[i].request == SetProtocolRequest(u.hid.value)
  }

  predicate PollInv(u: Usb, polls: seq<TrbPtr>)
    requires DeviceOk(u.xfer)
  {
    forall j :: 0 <= j < |polls| ==>
      && u.hid.Some? && polls[j].dci == u.hid.value.epIn
      && PollOk(u.xfer, PollOut(polls[j], u.hid.value.buf, u.hid.value.packetSize))
  }

  /** What no step after configuration changes. */
  predicate Settled(u: Usb, log: seq<Reply>) {
    && u.initialized && u.phase == 4 && Ordered(log, u) && AddressesOk(u.configs) && EndpointChosen(u)
    && (Pollable(u.configs) ==> PollRing(u))
  }

  /** No poll before the first SET_PROTOCOL completes; from then on one, unless it failed. */
  predicate Polling(u: Usb, polls: seq<TrbPtr>, lost: nat, replies: nat) {
    u.hid.Some? &&
    if replies == 3 then u.hid.value.phase == (if u.configs == [] then 0 else 1) && polls == [] && lost == 0
    else u.configs != [] && Pollable(u.configs) && u.hid.value.phase == 2 && |polls| + lost == 1
  }

  predicate LaterReplies(u: Usb, log: seq<Reply>) {
    u.hid.Some? && forall k :: 3 <= k < |log| ==> log[k].request == SetProtocolRequest(u.hid.value)
  }

  predicate ReadyInv(s: Sys)
    requires DeviceOk(s.u.xfer)
  {
    && s.stage.Ready? && |s.flight| + s.stale <= 15 && Settled(s.u, s.log) && LaterReplies(s.u, s.log)
    && FlightInv(s.u, s.flight) && PollInv(s.u, s.polls) && Polling(s.u, s.polls, s.lost, |s.log|)
  }

  predicate StageInv(s: Sys)
    requires DeviceOk(s.u.xfer)
  {
    match s.stage
    case Idle => IdleInv(s)
    case Enumerating => if s.u.initialized then InitializedInv(s) else PhaseInv(s)
    case RingsReady => InitializedInv(s)
    case Ready => ReadyInv(s)
  }

  ghost predicate Inv(s: Sys) {
    Base(s.u, s.flight, s.stale) && StageInv(s)
  }
}
