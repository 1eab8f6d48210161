/** Every reachable state of enumeration is safe and keeps its invariant; what follows for whole runs. */
module EnumerationProofs {
  import opened Wrappers
  import opened Trbs
  import opened Rings
  import opened ArrayMaps
  import opened Transfers
  import opened RequestMatching
  import opened Descriptors
  import opened HidDrivers
  import opened UsbDevices
  import opened Enumeration

  // ---- sending a control request ----

  /** How old the TRBs of the requests in flight are when each request took two TRBs. */
  predicate TwoEach(d: DeviceState, flight: seq<InFlight>)
    requires DeviceOk(d) && d.rings[0].Some?
  {
    var r := d.rings[0].value;
    forall m :: 0 <= m < |flight| ==> Age(|r.mem|, r.writeIndex, flight[m].setupPtr.index) == 2 * (|flight| - m)
  }

  lemma SendKeepsBase(u: Usb, flight: seq<InFlight>, stale: nat, r: Request, issuer: Address)
    requires Base(u, flight, stale) && |flight| + stale < SETUP_MAP_SIZE
    requires RoomFor(u.xfer, flight, EP0, |RequestTrbs(r)|)
    requires issuer != 0 ==> u.hid.Some? && issuer == u.hid.value.self
    ensures var (u', err) := ControlTransfer(u, r, issuer);
            && err == Success && |Sent(u, u')| == 1 && Sent(u, u')[0].request == r
            && Sent(u, u')[0] == NewFlight(u.xfer.rings[0].value, EP0, r)
            && Base(u', flight + Sent(u, u'), stale)
  {
    ControlKeepsMatch(u.xfer, flight, stale, EP0, r);
    assert RingOf(u.xfer, EP0) == u.xfer.rings[0];
  }

  /** The only request in flight. */
  lemma SendOnly(u: Usb, r: Request)
    requires Base(u, [], 0)
    ensures var (u', err) := ControlTransfer(u, r, 0);
            && err == Success && |Sent(u, u')| == 1 && Sent(u, u')[0].request == r
            && Base(u', Sent(u, u'), 0)
  {
    SendKeepsBase(u, [], 0, r, 0);
    assert [] + Sent(u, ControlTransfer(u, r, 0).0) == Sent(u, ControlTransfer(u, r, 0).0);
  }

  // ---- completions ----

  /** The device once the event is matched and its map entry deleted, before the handler runs. */
  function Taken(u: Usb, key: TrbPtr, code: nat, residual: nat): Usb
    requires DeviceOk(u.xfer) && PtrOk(u.xfer, key) && MapOk(u.xfer)
  {
    u.(xfer := OnTransferEvent(u.xfer, key, code, residual).0)
  }

  lemma WithoutOnEp0(flight: seq<InFlight>, i: nat)
    requires i < |flight| && OnEp0(flight)
    ensures OnEp0(Without(flight, i))
  {
    var rest := Without(flight, i);
    forall j | 0 <= j < |rest| ensures rest[j].key.dci == EP0 {
      assert rest[j] == flight[if j < i then j else j + 1];
    }
  }

  /** A successful event reaches OnControlCompleted with its own request. */
  lemma SuccessReachesHandler(u: Usb, flight: seq<InFlight>, stale: nat, i: nat, code: nat, residual: nat)
    requires Base(u, flight, stale) && i < |flight| && Succeeded(code)
    ensures PtrOk(u.xfer, flight[i].key) && MapOk(u.xfer)
    ensures var r := flight[i].request;
            OnTransferEvent(u.xfer, flight[i].key, code, residual).1 ==
              ControlCompleted(r.setup, r.buf, Transferred(r, residual))
    ensures Base(Taken(u, flight[i].key, code, residual), Without(flight, i), stale)
  {
    EventFindsItsRequest(u.xfer, flight, stale, i, code, residual);
    WithoutOnEp0(flight, i);
  }

  lemma FailureChangesNothing(u: Usb, flight: seq<InFlight>, stale: nat, i: nat, code: nat, residual: nat)
    requires Base(u, flight, stale) && i < |flight| && !Succeeded(code)
    ensures PtrOk(u.xfer, flight[i].key) && MapOk(u.xfer)
    ensures OnTransferEvent(u.xfer, flight[i].key, code, residual) == (u.xfer, Failed(TransferFailed))
    ensures Base(u, Without(flight, i), stale + 1)
  {
    FailureLeavesEntry(u.xfer, flight, stale, i, code, residual);
    WithoutOnEp0(flight, i);
  }

  lemma WithoutOne(flight: seq<InFlight>)
    requires |flight| == 1
    ensures Without(flight, 0) == []
  {
  }

  // ---- safety of a completion ----

  lemma PhaseReplyOk(s: Sys, residual: nat, descs: seq<Descriptor>)
    requires PhaseInv(s) && s.u.buf != 0 && |s.flight| == 1 && ReplyFits(s.flight[0].request, residual, descs)
    ensures var r := s.flight[0].request;
            UpcallOk(s.u, EP0, ControlCompleted(r.setup, r.buf, Transferred(r, residual)), descs)
  {
  }

  lemma PhaseCompletionSafe(s: Sys, step: Step)
    requires Base(s.u, s.flight, s.stale) && PhaseInv(s) && step.Completion? && Enabled(s, step)
    ensures Safe(s, step)
  {
    if Succeeded(step.code) {
      SuccessReachesHandler(s.u, s.flight, s.stale, step.i, step.code, step.residual);
      PhaseReplyOk(s, step.residual, step.descs);
    } else {
      FailureChangesNothing(s.u, s.flight, s.stale, step.i, step.code, step.residual);
    }
  }

  /** A driver with a pollable endpoint polls a configured one; its endpoint is 0 exactly without any. */
  lemma EndpointOrNone(u: Usb)
    requires EndpointChosen(u) && AddressesOk(u.configs)
    ensures u.hid.value.epIn == 0 <==> !Pollable(u.configs)
    ensures Pollable(u.configs) ==> CanPoll(u) && IsIn(u.hid.value.epIn)
  {
  }

  /** The handler of a completed SET_PROTOCOL polls, in phase 1, whatever endpoint the driver has. */
  lemma ReadyReplyOk(s: Sys, i: nat, residual: nat, descs: seq<Descriptor>)
    requires DeviceOk(s.u.xfer) && ReadyInv(s) && i < |s.flight| && ReplyFits(s.flight[i].request, residual, descs)
    ensures var r := s.flight[i].request;
            var ok := UpcallOk(s.u, EP0, ControlCompleted(r.setup, r.buf, Transferred(r, residual)), descs);
            ok <==> !(s.u.hid.value.phase == 1 && s.u.hid.value.epIn == 0)
  {
    assert s.flight[i].request == SetProtocolRequest(s.u.hid.value);
    EndpointOrNone(s.u);
  }

  /** Of all completions exactly the one that makes a driver without an endpoint poll is unsafe. */
  lemma ReadyCompletionSafe(s: Sys, step: Step)
    requires Base(s.u, s.flight, s.stale) && ReadyInv(s) && step.Completion? && Enabled(s, step)
    ensures Safe(s, step) <==> !PollsNowhere(s, step)
  {
    if Succeeded(step.code) {
      SuccessReachesHandler(s.u, s.flight, s.stale, step.i, step.code, step.residual);
      ReadyReplyOk(s, step.i, step.residual, step.descs);
    } else {
      FailureChangesNothing(s.u, s.flight, s.stale, step.i, step.code, step.residual);
    }
  }

  // ---- failed transfers ----

  lemma FailureEffect(s: Sys, step: Step)
    requires Base(s.u, s.flight, s.stale) && step.Completion? && Enabled(s, step) && Safe(s, step)
    requires !Succeeded(step.code)
    ensures After(s, step) == s.(flight := Without(s.flight, step.i), stale := s.stale + 1)
    ensures Base(s.u, Without(s.flight, step.i), s.stale + 1)
  {
    FailureChangesNothing(s.u, s.flight, s.stale, step.i, step.code, step.residual);
  }

  /** A failed enumeration request is not repeated. */
  lemma PhaseFailure(s: Sys, step: Step)
    requires Base(s.u, s.flight, s.stale) && PhaseInv(s) && step.Completion? && Enabled(s, step) && Safe(s, step)
    requires !Succeeded(step.code)
    ensures PhaseInv(After(s, step)) && Inv(After(s, step))
  {
    FailureEffect(s, step);
    WithoutOne(s.flight);
  }

  lemma ReadyFailure(s: Sys, step: Step)
    requires Base(s.u, s.flight, s.stale) && ReadyInv(s) && step.Completion? && Enabled(s, step) && Safe(s, step)
    requires !Succeeded(step.code)
    ensures Inv(After(s, step))
  {
    FailureEffect(s, step);
    WithoutKeepsFlightInv(s.u, s.flight, step.i);
  }

  lemma WithoutKeepsFlightInv(u: Usb, flight: seq<InFlight>, i: nat)
    requires FlightInv(u, flight) && i < |flight|
    ensures FlightInv(u, Without(flight, i))
  {
    var rest := Without(flight, i);
    forall j | 0 <= j < |rest| ensures rest[j].request == SetProtocolRequest(u.hid.value) {
      assert rest[j] == flight[if j < i then j else j + 1];
    }
  }

  // ---- the phases of enumeration ----

  /** The state after a handler that ran on u1 and led to u'. */
  function Handled(s: Sys, u1: Usb, u': Usb, reply: Reply): Sys {
    s.(u := u', flight := Sent(u1, u'), log := s.log + [reply])
  }

  /** The one outstanding request has completed and the handler is about to run on u1. */
  ghost predicate AtHandler(s: Sys, u1: Usb, residual: nat, descs: seq<Descriptor>) {
    && PhaseInv(s) && |s.flight| == 1 && Base(u1, [], 0) && u1 == s.u.(xfer := u1.xfer)
    && ReplyFits(s.flight[0].request, residual, descs)
  }

  function HandlerResult(u1: Usb, r: Request, descs: seq<Descriptor>, self: Address, hidBuf: Address): Usb
    requires UsbOk(u1) && ReplyOk(u1, r.setup, r.buf, descs) && self != 0
  {
    OnControl(u1, r.setup, r.buf, descs, self, hidBuf).0
  }

  /** One more reply, accepted or not. */
  lemma AcceptedMore(log: seq<Reply>, r: Reply)
    requires AllAccepted(log)
    ensures AllAccepted(log + [r]) <==> Accepted(log + [r], |log|)
  {
    forall k | 0 <= k < |log| ensures Accepted(log + [r], k) {
      assert Accepted(log, k);
    }
  }

  lemma DeviceReplyKeepsInv(s: Sys, u1: Usb, residual: nat, descs: seq<Descriptor>, self: Address, hidBuf: Address)
    requires AtHandler(s, u1, residual, descs) && s.u.phase == 1 && self != 0
    ensures ReplyOk(u1, s.flight[0].request.setup, s.flight[0].request.buf, descs)
    ensures var u' := HandlerResult(u1, s.flight[0].request, descs, self, hidBuf);
            Base(u', Sent(u1, u'), 0) && PhaseInv(Handled(s, u1, u', Reply(s.flight[0].request, descs)))
  {
    AcceptedMore(s.log, Reply(s.flight[0].request, descs));
    if descs[0][1] == DEVICE_DESCRIPTOR {
      SendOnly(u1.(phase := 2), GetDescriptorRequest(CONFIGURATION_DESCRIPTOR, 0, u1.buf));
    }
  }

  lemma ConfigurationReplyKeepsInv(s: Sys, u1: Usb, residual: nat, descs: seq<Descriptor>, self: Address,
          hidBuf: Address)
    requires AtHandler(s, u1, residual, descs) && s.u.phase == 2 && self != 0
    ensures ReplyOk(u1, s.flight[0].request.setup, s.flight[0].request.buf, descs)
    ensures var u' := HandlerResult(u1, s.flight[0].request, descs, self, hidBuf);
            Base(u', Sent(u1, u'), 0) && PhaseInv(Handled(s, u1, u', Reply(s.flight[0].request, descs)))
  {
    AcceptedMore(s.log, Reply(s.flight[0].request, descs));
    if descs[0][1] == CONFIGURATION_DESCRIPTOR && FirstSupported(descs, 1) < |descs| {
      AdoptionKeepsInv(s, u1, residual, descs, self, hidBuf);
    }
  }

  /** A supported configuration: its endpoints are taken over and SET_CONFIGURATION goes out. */
  lemma AdoptionKeepsInv(s: Sys, u1: Usb, residual: nat, descs: seq<Descriptor>, self: Address, hidBuf: Address)
    requires AtHandler(s, u1, residual, descs) && s.u.phase == 2 && self != 0
    requires BlobOk(descs) && descs[0][1] == CONFIGURATION_DESCRIPTOR && FirstSupported(descs, 1) < |descs|
    ensures var u' := Phase2(u1, descs, self, hidBuf).0;
            Base(u', Sent(u1, u'), 0) && PhaseInv(Handled(s, u1, u', Reply(s.flight[0].request, descs)))
  {
    AcceptedMore(s.log, Reply(s.flight[0].request, descs));
    var c := FirstSupported(descs, 1);
    WithInterfaceOk(u1, descs, c, self, hidBuf);
    InterfaceDrivers(u1, descs, c, self, hidBuf);
    SendOnly(WithInterface(u1, descs, c, self, hidBuf), SetConfigurationRequest(descs[0][5]));
  }

  lemma InterfaceDrivers(u: Usb, descs: seq<Descriptor>, c: nat, self: Address, hidBuf: Address)
    requires UsbOk(u) && u.hid.None? && BlobOk(descs) && c == FirstSupported(descs, 1) < |descs|
    ensures DriversConfigured(WithInterface(u, descs, c, self, hidBuf))
  {
    var u' := WithInterface(u, descs, c, self, hidBuf);
    forall i | 0 <= i < ENDPOINTS && u'.drivers[i] != 0
      ensures exists j :: 0 <= j < |u'.configs| && NumberOf(u'.configs[j]) == i
    {
      BoundAt(u.drivers, u'.configs, self, i);
    }
  }

  /** Enumeration goes on from a configuration exactly when a driver supports one of its interfaces. */
  lemma GoesOnExactlyWhenSupported(s: Sys, u1: Usb, residual: nat, descs: seq<Descriptor>, self: Address,
          hidBuf: Address)
    requires AtHandler(s, u1, residual, descs) && s.u.phase == 2 && descs[0][1] == CONFIGURATION_DESCRIPTOR && self != 0
    ensures ReplyOk(u1, s.flight[0].request.setup, s.flight[0].request.buf, descs)
    ensures var u' := HandlerResult(u1, s.flight[0].request, descs, self, hidBuf);
            if exists k :: 1 <= k < |descs| && KindOf(descs[k]).Some? then u'.phase == 3 && |Sent(u1, u')| == 1
            else u' == u1
  {
    var c := FirstSupported(descs, 1);
    if c < |descs| {
      assert KindOf(descs[c]).Some?;
      WithInterfaceOk(u1, descs, c, self, hidBuf);
      SendOnly(WithInterface(u1, descs, c, self, hidBuf), SetConfigurationRequest(descs[0][5]));
    }
  }

  /** Phase 3 gives the driver its endpoints and changes nothing else but the phase. */
  lemma EndpointsGiven(u: Usb)
    requires u.hid.Some? && u.hid.value.epIn == 0
    ensures var u' := Phase3(u).0;
            && u'.hid.Some? && u' == u.(hid := u'.hid, phase := 4, initialized := true) && EndpointChosen(u')
            && u'.hid.value == u.hid.value.(epIn := u'.hid.value.epIn, epOut := u'.hid.value.epOut)
  {
    EndpointsKeepRest(u.hid.value, u.configs);
    PollsGivenEndpoint(u.hid.value, u.configs);
  }

  lemma SetConfigurationReplyKeepsInv(s: Sys, u1: Usb, residual: nat, descs: seq<Descriptor>, self: Address,
          hidBuf: Address)
    requires AtHandler(s, u1, residual, descs) && s.u.phase == 3 && self != 0
    ensures ReplyOk(u1, s.flight[0].request.setup, s.flight[0].request.buf, descs)
    ensures var u' := HandlerResult(u1, s.flight[0].request, descs, self, hidBuf);
            Base(u', Sent(u1, u'), 0) && InitializedInv(Handled(s, u1, u', Reply(s.flight[0].request, descs)))
  {
    hide Match, Phase3, EndpointChosen, FirstSupported, ChosenConfigs, BlobOk, Pollable;
    EndpointsGiven(u1);
    var u' := HandlerResult(u1, s.flight[0].request, descs, self, hidBuf);
    assert u' == Phase3(u1).0 && Sent(u1, u') == [];
    ChosenAddressesOk(s.log[1].descs);
  }

  lemma ChosenAddressesOk(descs: seq<Descriptor>)
    requires BlobOk(descs) && FirstSupported(descs, 1) < |descs|
    ensures AddressesOk(ChosenConfigs(descs, FirstSupported(descs, 1)))
  {
  }

  // ---- polling ----

  /** A poll of the interrupt-IN endpoint leaves endpoint 0 alone. */
  lemma PollKeepsBase(u: Usb, flight: seq<InFlight>, stale: nat)
    requires Base(u, flight, stale) && PollRing(u)
    ensures var (u', err) := Perform(u, Poll(u.hid.value));
            && err == Success && Base(u', flight, stale) && PollRing(u')
            && |Polled(u, u')| == 1 && PollInv(u', Polled(u, u')) && Sent(u, u') == []
            && u' == u.(xfer := u'.xfer, polled := u'.polled)
  {
    var h := u.hid.value;
    InterruptKeepsMatch(u.xfer, flight, stale, h.epIn, h.buf, h.packetSize);
    NormalRoundTrip(h.buf, h.packetSize, u.xfer.rings[h.epIn - 1].value.cycleBit);
    var ring := u.xfer.rings[h.epIn - 1].value;
    assert Pushed(ring, NormalTrb(h.buf, h.packetSize)).mem[ring.writeIndex] ==
      Stamp(NormalTrb(h.buf, h.packetSize), ring.cycleBit);
  }

  predicate SameButPhase(u: Usb, u': Usb) {
    && u'.initialized == u.initialized && u'.phase == u.phase && u'.configs == u.configs && u'.buf == u.buf
    && u.hid.Some? && u'.hid.Some? && u'.hid.value == u.hid.value.(phase := u'.hid.value.phase)
  }

  lemma SettledStays(u: Usb, u': Usb, log: seq<Reply>, r: seq<Reply>)
    requires Settled(u, log) && SameButPhase(u, u') && (Pollable(u.configs) ==> PollRing(u'))
    ensures Settled(u', log + r)
  {
    var log' := log + r;
    assert log'[0] == log[0] && log'[1] == log[1] && log'[2] == log[2];
  }

  /** The first completed SET_PROTOCOL starts the polling. */
  lemma FirstSetProtocol(u: Usb, rest: seq<InFlight>, stale: nat, self: Address, hidBuf: Address)
    requires Base(u, rest, stale) && u.initialized && PollRing(u) && self != 0 && u.configs != [] && Pollable(u.configs)
    requires FlightInv(u, rest) && Polling(u, [], 0, 3)
    ensures var u' := OnControl(u, SetProtocolSetup(u.hid.value.interfaceIndex), 0, [], self, hidBuf).0;
            && Base(u', rest, stale) && SameButPhase(u, u') && Sent(u, u') == [] && PollRing(u')
            && FlightInv(u', rest) && PollInv(u', Polled(u, u')) && Polling(u', Polled(u, u'), 0, 4)
  {
    var u2 := u.(hid := Some(u.hid.value.(phase := 2)));
    PollKeepsBase(u2, rest, stale);
  }

  /** Later ones are answered with an error and change nothing. */
  lemma LaterSetProtocol(u: Usb, polls: seq<TrbPtr>, lost: nat, replies: nat, self: Address, hidBuf: Address)
    requires UsbOk(u) && u.initialized && self != 0 && u.configs != [] && FlightInv(u, [])
    requires Polling(u, polls, lost, replies) && replies > 3
    ensures OnControl(u, SetProtocolSetup(u.hid.value.interfaceIndex), 0, [], self, hidBuf) == (u, NotImplemented)
    ensures Polling(u, polls, lost, replies + 1)
  {
  }

  /** The effect of a successful completion, in terms of its handler. */
  lemma SuccessEffect(s: Sys, step: Step)
    requires Base(s.u, s.flight, s.stale) && step.Completion? && Enabled(s, step) && Safe(s, step)
    requires Succeeded(step.code)
    ensures var u1 := Taken(s.u, s.flight[step.i].key, step.code, step.residual);
            var r := s.flight[step.i].request;
            && UsbOk(u1) && ReplyOk(u1, r.setup, r.buf, step.descs)
            && var u' := HandlerResult(u1, r, step.descs, step.self, step.hidBuf);
               After(s, step) == s.(u := u', flight := Without(s.flight, step.i) + Sent(u1, u'),
                 polls := s.polls + Polled(u1, u'),
                                    log := s.log + [Reply(r, step.descs)])
  {
    SuccessReachesHandler(s.u, s.flight, s.stale, step.i, step.code, step.residual);
  }

  lemma LaterRepliesGrow(u: Usb, u': Usb, log: seq<Reply>)
    requires LaterReplies(u, log) && SameButPhase(u, u')
    ensures LaterReplies(u', log + [Reply(SetProtocolRequest(u'.hid.value), [])])
  {
  }

  lemma SetProtocolReplyKeepsInv(s: Sys, u1: Usb, rest: seq<InFlight>, self: Address, hidBuf: Address)
    requires DeviceOk(s.u.xfer) && ReadyInv(s) && Base(u1, rest, s.stale) && |rest| < |s.flight| && FlightInv(u1, rest)
    requires u1 == s.u.(xfer := u1.xfer) && u1.xfer.rings == s.u.xfer.rings && self != 0
    requires !(s.u.hid.value.phase == 1 && s.u.hid.value.epIn == 0)
    ensures var r := SetProtocolRequest(u1.hid.value);
            && ReplyOk(u1, r.setup, r.buf, [])
            && var u' := HandlerResult(u1, r, [], self, hidBuf);
               && Base(u', rest, s.stale) && Sent(u1, u') == []
               && ReadyInv(s.(u := u', flight := rest, polls := s.polls + Polled(u1, u'),
                 log := s.log + [Reply(r, [])]))
  {
    hide Match, UsbOk;
    EndpointOrNone(s.u);
    var r := SetProtocolRequest(u1.hid.value);
    if |s.log| == 3 {
      FirstSetProtocol(u1, rest, s.stale, self, hidBuf);
      var u' := HandlerResult(u1, r, [], self, hidBuf);
      assert [] + Polled(u1, u') == Polled(u1, u');
      SettledStays(s.u, u', s.log, [Reply(r, [])]);
      LaterRepliesGrow(s.u, u', s.log);
    } else {
      LaterSetProtocol(u1, s.polls, s.lost, |s.log|, self, hidBuf);
      assert s.polls + [] == s.polls;
      SettledStays(s.u, u1, s.log, [Reply(r, [])]);
      LaterRepliesGrow(s.u, u1, s.log);
    }
  }

  lemma ReadySuccess(s: Sys, step: Step)
    requires Base(s.u, s.flight, s.stale) && ReadyInv(s) && step.Completion? && Enabled(s, step) && Safe(s, step)
    requires Succeeded(step.code)
    ensures Inv(After(s, step))
  {
    hide After, Match, Safe, PollInv, Polling, Settled;
    ReadyCompletionSafe(s, step);
    SuccessEffect(s, step);
    SuccessReachesHandler(s.u, s.flight, s.stale, step.i, step.code, step.residual);
    var rest := Without(s.flight, step.i);
    var u1 := Taken(s.u, s.flight[step.i].key, step.code, step.residual);
    assert s.flight[step.i].request == SetProtocolRequest(s.u.hid.value);
    WithoutKeepsFlightInv(s.u, s.flight, step.i);
    SetProtocolReplyKeepsInv(s, u1, rest, step.self, step.hidBuf);
    assert rest + [] == rest;
  }

  lemma ReplyKeepsInv(s: Sys, u1: Usb, residual: nat, descs: seq<Descriptor>, self: Address, hidBuf: Address)
    requires AtHandler(s, u1, residual, descs) && self != 0
    ensures ReplyOk(u1, s.flight[0].request.setup, s.flight[0].request.buf, descs)
    ensures var u' := HandlerResult(u1, s.flight[0].request, descs, self, hidBuf);
            var s' := Handled(s, u1, u', Reply(s.flight[0].request, descs));
            Base(u', Sent(u1, u'), 0) && Polled(u1, u') == [] && (PhaseInv(s') || InitializedInv(s'))
  {
    if s.u.phase == 1 {
      DeviceReplyKeepsInv(s, u1, residual, descs, self, hidBuf);
    } else if s.u.phase == 2 {
      ConfigurationReplyKeepsInv(s, u1, residual, descs, self, hidBuf);
    } else {
      SetConfigurationReplyKeepsInv(s, u1, residual, descs, self, hidBuf);
    }
  }

  /** The handler of the only request in flight is about to run. */
  lemma ReachesHandler(s: Sys, code: nat, residual: nat, descs: seq<Descriptor>)
    requires Base(s.u, s.flight, s.stale) && PhaseInv(s) && |s.flight| == 1 && Succeeded(code)
    requires ReplyFits(s.flight[0].request, residual, descs)
    ensures PtrOk(s.u.xfer, s.flight[0].key) && MapOk(s.u.xfer)
    ensures AtHandler(s, Taken(s.u, s.flight[0].key, code, residual), residual, descs)
  {
    SuccessReachesHandler(s.u, s.flight, s.stale, 0, code, residual);
    WithoutOne(s.flight);
  }

  lemma PhaseSuccessEffect(s: Sys, step: Step)
    requires Base(s.u, s.flight, s.stale) && PhaseInv(s) && step.Completion? && Enabled(s, step) && Safe(s, step)
    requires Succeeded(step.code)
    ensures PtrOk(s.u.xfer, s.flight[0].key) && MapOk(s.u.xfer)
    ensures var u1 := Taken(s.u, s.flight[0].key, step.code, step.residual); var r := s.flight[0].request;
            && AtHandler(s, u1, step.residual, step.descs) && ReplyOk(u1, r.setup, r.buf, step.descs)
            && var u' := HandlerResult(u1, r, step.descs, step.self, step.hidBuf);
               After(s, step) == Handled(s, u1, u', Reply(r, step.descs)).(polls := Polled(u1, u'))
  {
    hide Match, Base, Safe, After, HandlerResult, ReplyOk;
    ReachesHandler(s, step.code, step.residual, step.descs);
    SuccessEffect(s, step);
    WithoutOne(s.flight);
    var u1 := Taken(s.u, s.flight[0].key, step.code, step.residual);
    var u' := HandlerResult(u1, s.flight[0].request, step.descs, step.self, step.hidBuf);
    assert [] + Sent(u1, u') == Sent(u1, u') && [] + Polled(u1, u') == Polled(u1, u');
  }

  lemma PhaseSuccess(s: Sys, step: Step)
    requires Base(s.u, s.flight, s.stale) && PhaseInv(s) && step.Completion? && Enabled(s, step) && Safe(s, step)
    requires Succeeded(step.code)
    ensures Inv(After(s, step))
  {
    hide After, Safe, Match, HandlerResult;
    PhaseSuccessEffect(s, step);
    var u1 := Taken(s.u, s.flight[0].key, step.code, step.residual);
    ReplyKeepsInv(s, u1, step.residual, step.descs, step.self, step.hidBuf);
  }

  // ---- interrupt reports ----

  /** Only a driver with a pollable endpoint has an interrupt TRB out, and then just one. */
  lemma ReportIsReady(s: Sys)
    requires Inv(s) && s.polls != []
    ensures s.stage.Ready? && ReadyInv(s) && |s.polls| == 1 && s.lost == 0 && |s.log| > 3
    ensures Pollable(s.u.configs) && s.polls[0].dci == s.u.hid.value.epIn
    ensures PtrOk(s.u.xfer, s.polls[0]) && TypeOf(Read(s.u.xfer, s.polls[0])) == NORMAL
  {
  }

  /** The polled endpoint is bound to the driver. */
  lemma PolledIsBound(u: Usb)
    requires UsbOk(u) && EndpointChosen(u) && AddressesOk(u.configs) && Pollable(u.configs)
    ensures 2 <= u.hid.value.epIn <= RINGS && u.drivers[u.hid.value.epIn / 2] != 0 && IsIn(u.hid.value.epIn)
  {
    var j :| 0 <= j < |u.configs| && IsPollable(u.configs[j]) && u.configs[j].address == u.hid.value.epIn;
    assert NumberOf(u.configs[j]) == u.hid.value.epIn / 2;
  }

  lemma ReportSafe(s: Sys, step: Step)
    requires Inv(s) && step.Report? && Enabled(s, step)
    ensures Safe(s, step)
  {
    ReportIsReady(s);
    PolledIsBound(s.u);
    MatchGivesMapOk(s.u.xfer, s.flight, s.stale);
  }

  lemma LostEffect(s: Sys, step: Step)
    requires Inv(s) && step.Report? && Enabled(s, step) && Safe(s, step) && !Succeeded(step.code)
    ensures After(s, step) == s.(polls := [], lost := s.lost + 1)
  {
    ReportIsReady(s);
    assert s.polls[1..] == [];
  }

  /** What a report leads to: the next poll. */
  lemma ReportPolls(s: Sys, code: nat, residual: nat)
    requires Inv(s) && s.polls != [] && Succeeded(code)
    ensures PtrOk(s.u.xfer, s.polls[0]) && MapOk(s.u.xfer) && PollRing(s.u)
    ensures OnTransferEvent(s.u.xfer, s.polls[0], code, residual).0 == s.u.xfer
    ensures OnTransferEvent(s.u.xfer, s.polls[0], code, residual).1.InterruptCompleted?
    ensures ReportOk(s.u, s.polls[0].dci) && UsbOk(s.u)
    ensures OnInterrupt(s.u, s.polls[0].dci) == Perform(s.u, Poll(s.u.hid.value))
  {
    ReportIsReady(s);
    PolledIsBound(s.u);
    MatchGivesMapOk(s.u.xfer, s.flight, s.stale);
  }

  lemma ReportEffect(s: Sys, step: Step)
    requires Inv(s) && step.Report? && Enabled(s, step) && Safe(s, step) && Succeeded(step.code)
    ensures PollRing(s.u) && DeviceOk(s.u.xfer)
    ensures var u' := Perform(s.u, Poll(s.u.hid.value)).0;
            Sent(s.u, u') == [] && After(s, step) == s.(u := u', polls := Polled(s.u, u'))
  {
    ReportIsReady(s);
    assert s.polls[1..] == [];
    ReportPolls(s, step.code, step.residual);
    PollKeepsBase(s.u, s.flight, s.stale);
    var u' := Perform(s.u, Poll(s.u.hid.value)).0;
    assert [] + Polled(s.u, u') == Polled(s.u, u') && s.flight + [] == s.flight;
  }

  lemma ReportKeepsInv(s: Sys, step: Step)
    requires Inv(s) && step.Report? && Enabled(s, step) && Safe(s, step)
    ensures Inv(After(s, step))
  {
    ReportIsReady(s);
    if Succeeded(step.code) {
      ReportEffect(s, step);
      PollAgain(s);
    } else {
      LostEffect(s, step);
    }
  }

  lemma PollAgain(s: Sys)
    requires Base(s.u, s.flight, s.stale) && ReadyInv(s) && PollRing(s.u) && |s.polls| == 1 && |s.log| > 3
    ensures var u' := Perform(s.u, Poll(s.u.hid.value)).0; Inv(s.(u := u', polls := Polled(s.u, u')))
  {
    PollKeepsBase(s.u, s.flight, s.stale);
    SettledStays(s.u, Perform(s.u, Poll(s.u.hid.value)).0, s.log, []);
    assert s.log + [] == s.log;
  }

  // ---- the other steps ----

  lemma BeginKeepsInv(s: Sys)
    requires Inv(s) && s.stage.Idle?
    ensures Safe(s, Begin) && Inv(After(s, Begin))
  {
    var u1 := s.u.(initialized := false, phase := 1);
    SendOnly(u1, GetDescriptorRequest(DEVICE_DESCRIPTOR, 0, s.u.buf));
    assert [] + Sent(s.u, Start(s.u).0) == Sent(u1, Start(s.u).0);
  }

  /** The rings of the configured endpoints exist afterwards; endpoint 0 and the map are untouched. */
  lemma {:induction false} RingsForGives(d: DeviceState, cs: seq<EndpointConfig>, bases: seq<Address>)
    requires DeviceOk(d) && |bases| == |cs| && AddressesOk(cs)
    ensures var d' := RingsFor(d, cs, bases);
            && d'.rings[0] == d.rings[0] && d'.setupMap == d.setupMap
            && forall j :: 0 <= j < |cs| ==> d'.rings[cs[j].address - 1].Some?
  {
    if cs != [] {
      var n := |cs| - 1;
      RingsForGives(d, cs[..n], bases[..n]);
      forall j | 0 <= j < n ensures RingsFor(d, cs[..n], bases[..n]).rings[cs[j].address - 1].Some? {
        assert cs[..n][j] == cs[j];
      }
    }
  }

  /** New endpoint rings do not disturb a transfer layer with nothing in flight. */
  lemma RingsForKeepsBase(u: Usb, bases: seq<Address>)
    requires Base(u, [], 0) && |bases| == |u.configs| && AddressesOk(u.configs)
    ensures Base(u.(xfer := RingsFor(u.xfer, u.configs, bases)), [], 0)
  {
    RingsForGives(u.xfer, u.configs, bases);
    forall k | 0 <= k < |u.xfer.setupMap| ensures u.xfer.setupMap[k].key.None? {
      UnusedIsEmpty(u.xfer.setupMap, k);
    }
  }

  /** The endpoint that the driver polls gets its ring. */
  lemma PollRingAllocated(u: Usb, bases: seq<Address>)
    requires UsbOk(u) && AddressesOk(u.configs) && EndpointChosen(u) && Pollable(u.configs) && |bases| == |u.configs|
    ensures PollRing(u.(xfer := RingsFor(u.xfer, u.configs, bases)))
  {
    RingsForGives(u.xfer, u.configs, bases);
    PolledIsBound(u);
    var j :| 0 <= j < |u.configs| && IsPollable(u.configs[j]) && u.configs[j].address == u.hid.value.epIn;
    assert RingsFor(u.xfer, u.configs, bases).rings[u.configs[j].address - 1].Some?;
  }

  lemma AllocKeepsInitialized(s: Sys, bases: seq<Address>)
    requires InitializedInv(s) && UsbOk(s.u) && |bases| == |s.u.configs|
    ensures InitializedInv(s.(u := s.u.(xfer := RingsFor(s.u.xfer, s.u.configs, bases)), stage := RingsReady))
  {
    hide RingsFor, PollRing, UsbOk, IsReply, FirstSupported, ChosenConfigs, BlobOk;
    if Pollable(s.u.configs) { PollRingAllocated(s.u, bases); }
  }

  lemma AllocRingsKeepsInv(s: Sys, bases: seq<Address>)
    requires Inv(s) && Enabled(s, AllocRings(bases))
    ensures Safe(s, AllocRings(bases)) && Inv(After(s, AllocRings(bases)))
  {
    hide Match, Ordered, EndpointChosen, DriversConfigured, Pollable, PollRing, NoWaiters;
    RingsForKeepsBase(s.u, bases);
    AllocKeepsInitialized(s, bases);
  }

  // ---- SET_PROTOCOL for every class driver ----

  /** After a Put the key is found, in a full table only if it was there before. */
  lemma PutFinds<V>(t: seq<Entry<SetupData, V>>, key: SetupData, value: V)
    requires Lookup(t, key).Some? || Find(t, None, 0) < |t|
    ensures Lookup(Inserted(t, key, value), key).Some?
  {
    FreeEntryExists(t);
    if Used(t) < |t| { PutStores(t, key, value, key); } else { PutIntoFull(t, key, value); }
  }

  /** One driver's request goes out behind those already out. */
  lemma ConfigureOneKeeps(u: Usb, flight: seq<InFlight>)
    requires Base(u, flight, 0) && TwoEach(u.xfer, flight) && |flight| <= 14 && u.hid.Some?
    requires Lookup(u.waiters, SetProtocolSetup(u.hid.value.interfaceIndex)).Some? ||
             Find(u.waiters, None, 0) < |u.waiters|
    ensures var (u', err) := ConfigureOne(u);
            && err == Success && |Sent(u, u')| == 1 && u.sent <= u'.sent &&
              Sent(u, u')[0].request == SetProtocolRequest(u.hid.value)
            && Base(u', flight + Sent(u, u'), 0) && TwoEach(u'.xfer, flight + Sent(u, u'))
            && Lookup(u'.waiters, SetProtocolSetup(u.hid.value.interfaceIndex)).Some?
            && SameButPhase(u, u') && u'.hid.value.phase == 1 && u'.xfer.rings[1..] == u.xfer.rings[1..] &&
              u'.polled == u.polled
  {
    var h := u.hid.value;
    var u1 := u.(hid := Some(h.(phase := 1)));
    var r := SetProtocolRequest(h);
    PutFinds(u.waiters, r.setup, h.self);
    SendKeepsBase(u1, flight, 0, r, h.self);
    TwoEachStays(u.xfer, flight, r);
  }

  lemma TwoEachStays(d: DeviceState, flight: seq<InFlight>, r: Request)
    requires DeviceOk(d) && d.rings[0].Some? && |d.rings[0].value.mem| == RING_SIZE && TwoEach(d, flight) &&
             |flight| <= 14
    requires |RequestTrbs(r)| == 2 && forall i :: 0 <= i < |flight| ==> flight[i].setupPtr.index < RING_SIZE - 1
    ensures TwoEach(Control(d, EP0, r).0, flight + [NewFlight(d.rings[0].value, EP0, r)])
  {
    var ring := d.rings[0].value;
    var all := flight + [NewFlight(ring, EP0, r)];
    RequestStored(ring, r);
    forall m | 0 <= m < |all|
      ensures Age(RING_SIZE, PushedAll(ring, RequestTrbs(r)).writeIndex, all[m].setupPtr.index) == 2 * (|all| - m)
    {
      if m < |flight| { PushesKeepYoung(ring, RequestTrbs(r), flight[m].setupPtr.index); }
    }
  }

  predicate AllSetProtocol(h: Hid, flight: seq<InFlight>) {
    forall i :: 0 <= i < |flight| ==> flight[i].request == SetProtocolRequest(h)
  }

  /** What the loop over class drivers has achieved when it led from u to u'. */
  ghost predicate Broadcast(u: Usb, u': Usb, flight: seq<InFlight>, any: bool) {
    && u.hid.Some? && SameButPhase(u, u') && u.sent <= u'.sent && u'.polled == u.polled &&
      |u'.xfer.rings| == |u.xfer.rings| == RINGS
    && u'.xfer.rings[1..] == u.xfer.rings[1..]
    && Base(u', flight + Sent(u, u'), 0) && |flight + Sent(u, u')| <= 15 &&
      AllSetProtocol(u.hid.value, flight + Sent(u, u'))
    && (any ==>
      Sent(u, u') != [] && u'.hid.value.phase == 1 &&
        Lookup(u'.waiters, SetProtocolSetup(u.hid.value.interfaceIndex)).Some?)
    && (!any ==> u' == u)
  }

  predicate BoundFrom(u: Usb, i: nat) {
    exists k :: i <= k < |u.drivers| && u.drivers[k] != 0
  }

  lemma SentJoins(u: Usb, u1: Usb, u2: Usb)
    requires u.sent <= u1.sent <= u2.sent
    ensures u.sent <= u2.sent && Sent(u, u2) == Sent(u, u1) + Sent(u1, u2)
  {
  }

  lemma BroadcastJoins(u: Usb, u1: Usb, u2: Usb, flight: seq<InFlight>, any: bool)
    requires u.hid.Some? && u.sent < u1.sent && SameButPhase(u, u1) && u1.polled == u.polled &&
             |u1.xfer.rings| == |u.xfer.rings| == RINGS
    requires u1.xfer.rings[1..] == u.xfer.rings[1..] && u1.hid.value.phase == 1
    requires Lookup(u1.waiters, SetProtocolSetup(u.hid.value.interfaceIndex)).Some?
    requires Broadcast(u1, u2, flight + Sent(u, u1), any)
    ensures Broadcast(u, u2, flight, true)
  {
    SentJoins(u, u1, u2);
    assert flight + Sent(u, u2) == flight + Sent(u, u1) + Sent(u1, u2);
  }

  /** Requests are out for the class drivers below i, of which number 0 has none. */
  ghost predicate BroadcastUpTo(u: Usb, flight: seq<InFlight>, i: nat) {
    && Base(u, flight, 0) && TwoEach(u.xfer, flight) && u.hid.Some? && AllSetProtocol(u.hid.value, flight)
    && |flight| <= (if i == 0 then 0 else i - 1)
    && (Lookup(u.waiters, SetProtocolSetup(u.hid.value.interfaceIndex)).Some? || Find(u.waiters, None, 0) < |u.waiters|)
  }

  lemma ConfigureOneAdvances(u: Usb, flight: seq<InFlight>, i: nat)
    requires BroadcastUpTo(u, flight, i) && i < ENDPOINTS && u.drivers[i] != 0
    ensures ConfigureOne(u).1 == Success && BroadcastUpTo(ConfigureOne(u).0, flight + Sent(u, ConfigureOne(u).0), i + 1)
    ensures ConfigureOne(u).0.drivers == u.drivers
  {
    ConfigureOneKeeps(u, flight);
  }

  lemma NoneLeft(u: Usb, flight: seq<InFlight>)
    requires BroadcastUpTo(u, flight, ENDPOINTS)
    ensures Broadcast(u, u, flight, false)
  {
    assert flight + [] == flight;
  }

  /** Endpoint numbers leave at most 15 bound drivers, so ring and map have room for every request. */
  lemma {:induction false} ConfiguredFromKeeps(u: Usb, flight: seq<InFlight>, i: nat)
    requires i <= ENDPOINTS && BroadcastUpTo(u, flight, i)
    ensures ConfiguredFrom(u, i).1 == Success && Broadcast(u, ConfiguredFrom(u, i).0, flight, BoundFrom(u, i))
    decreases ENDPOINTS - i
  {
    hide Match, TwoEach, AllSetProtocol, Lookup, ConfigureOne, Broadcast;
    if i == ENDPOINTS {
      NoneLeft(u, flight);
    } else if u.drivers[i] == 0 {
      ConfiguredFromKeeps(u, flight, i + 1);
      assert BoundFrom(u, i) == BoundFrom(u, i + 1);
    } else {
      ConfigureOneAdvances(u, flight, i);
      var u1 := ConfigureOne(u).0;
      ConfiguredFromKeeps(u1, flight + Sent(u, u1), i + 1);
      ConfigureOneKeeps(u, flight);
      BroadcastJoins(u, u1, ConfiguredFrom(u1, i + 1).0, flight, BoundFrom(u1, i + 1));
    }
  }

  /** Some number is bound exactly when the interface has an endpoint. */
  lemma BoundWithEndpoints(u: Usb)
    requires UsbOk(u) && DriversConfigured(u)
    ensures BoundFrom(u, 0) <==> u.configs != []
  {
    if u.configs != [] { assert u.drivers[NumberOf(u.configs[0])] != 0; }
  }

  lemma PollRingStays(u: Usb, u': Usb)
    requires PollRing(u) && SameButPhase(u, u') && DeviceOk(u'.xfer) && u'.xfer.rings[1..] == u.xfer.rings[1..]
    ensures PollRing(u')
  {
    var k := u.hid.value.epIn;
    assert u'.xfer.rings[k - 1] == u'.xfer.rings[1..][k - 2] && u.xfer.rings[k - 1] == u.xfer.rings[1..][k - 2];
  }

  lemma BroadcastSettled(s: Sys, u': Usb)
    requires InitializedInv(s) && s.stage.RingsReady? && Broadcast(s.u, u', [], true)
    ensures Settled(u', s.log)
  {
    hide Match, Ordered, EndpointChosen, PollRing, DriversConfigured, AddressesOk, AllSetProtocol;
    if Pollable(s.u.configs) { PollRingStays(s.u, u'); }
    assert s.log + [] == s.log;
    SettledStays(s.u, u', s.log, []);
  }

  lemma BroadcastFlight(u: Usb, u': Usb)
    requires u.configs != [] && Broadcast(u, u', [], true)
    ensures Base(u', Sent(u, u'), 0) && |Sent(u, u')| <= 15 && FlightInv(u', Sent(u, u')) && Polling(u', [], 0, 3)
  {
    hide Base, SetProtocolSetup, Lookup;
    assert [] + Sent(u, u') == Sent(u, u');
  }

  lemma BroadcastIsReady(s: Sys, u': Usb)
    requires InitializedInv(s) && s.stage.RingsReady? && s.u.configs != [] && Broadcast(s.u, u', [], true)
    ensures Base(u', Sent(s.u, u'), 0) && ReadyInv(s.(u := u', stage := Ready, flight := Sent(s.u, u')))
  {
    hide Settled, Broadcast, FlightInv, Ordered;
    BroadcastFlight(s.u, u');
    BroadcastSettled(s, u');
  }

  lemma BroadcastStarts(s: Sys)
    requires Base(s.u, s.flight, s.stale) && InitializedInv(s)
    ensures s.flight == [] && s.u.hid.Some? && UsbOk(s.u) && BroadcastUpTo(s.u, [], 0) && DriversConfigured(s.u)
  {
    assert Find(s.u.waiters, None, 0) == 0;
  }

  lemma ConfiguredEffect(s: Sys)
    requires Base(s.u, s.flight, s.stale) && InitializedInv(s) && s.stage.RingsReady?
    ensures Broadcast(s.u, ConfiguredFrom(s.u, 0).0, [], s.u.configs != [])
    ensures Enabled(s, Configured) && Safe(s, Configured)
    ensures var u' := ConfiguredFrom(s.u, 0).0;
            After(s, Configured) == s.(u := u', stage := Ready, flight := Sent(s.u, u'))
  {
    hide Base, InitializedInv, Broadcast, BroadcastUpTo, BoundFrom, DriversConfigured;
    BroadcastStarts(s);
    BoundWithEndpoints(s.u);
    ConfiguredFromKeeps(s.u, [], 0);
    var u' := ConfiguredFrom(s.u, 0).0;
    assert [] + Sent(s.u, u') == Sent(s.u, u');
  }

  lemma ConfiguredKeepsInv(s: Sys)
    requires Inv(s) && s.stage.RingsReady?
    ensures Safe(s, Configured) && Inv(After(s, Configured))
  {
    ConfiguredEffect(s);
    if s.u.configs != [] { BroadcastIsReady(s, ConfiguredFrom(s.u, 0).0); }
  }

  // ---- runs ----

  /** Control requests are out only during enumeration and when every driver is configured. */
  lemma FlightStage(s: Sys)
    requires Inv(s) && s.flight != []
    ensures Base(s.u, s.flight, s.stale) && if s.stage.Ready? then ReadyInv(s) else PhaseInv(s)
  {
  }

  /**
   * A step is unsafe only when a driver that was given no interrupt-IN endpoint polls one all the same; every safe
   * step keeps the invariant.
   */
  lemma StepKeepsInv(s: Sys, step: Step)
    requires Inv(s) && Enabled(s, step)
    ensures Safe(s, step) <==> !PollsNowhere(s, step)
    ensures Safe(s, step) ==> Inv(After(s, step))
  {
    hide Base, ReadyInv, PhaseInv, InitializedInv, IdleInv, UsbOk, After;
    match step
    case Begin => BeginKeepsInv(s);
    case Completion(_, _, _, _, _, _) =>
      FlightStage(s);
      if s.stage.Ready? { ReadyCompletionSafe(s, step); } else { PhaseCompletionSafe(s, step); }
      if Safe(s, step) { CompletionKeepsInv(s, step); }
    case Report(_, _) =>
      ReportSafe(s, step);
      ReportKeepsInv(s, step);
    case AllocRings(bases) => AllocRingsKeepsInv(s, bases);
    case Configured => ConfiguredKeepsInv(s);
  }

  lemma CompletionKeepsInv(s: Sys, step: Step)
    requires Inv(s) && step.Completion? && Enabled(s, step) && Safe(s, step)
    ensures Inv(After(s, step))
  {
    hide Inv, Base, ReadyInv, PhaseInv, UsbOk, After;
    FlightStage(s);
    if s.stage.Ready? {
      if Succeeded(step.code) { ReadySuccess(s, step); } else { ReadyFailure(s, step); }
    } else {
      if Succeeded(step.code) { PhaseSuccess(s, step); } else { PhaseFailure(s, step); }
    }
  }

  lemma InitInv(s: Sys)
    requires Init(s)
    ensures Inv(s) && s.stage.Idle?
  {
    EmptyIsUnused(SETUP_MAP_SIZE);
  }

  lemma {:induction false} EmptyIsUnused(n: nat)
    ensures Used(seq(n, _ => Entry(Option<TrbPtr>.None, TrbPtr(0, 0)))) == 0
  {
    if n > 0 {
      EmptyIsUnused(n - 1);
      assert seq(n, _ => Entry(Option<TrbPtr>.None, TrbPtr(0, 0)))[1..] ==
        seq(n - 1, _ => Entry(Option<TrbPtr>.None, TrbPtr(0, 0)));
    }
  }
}
