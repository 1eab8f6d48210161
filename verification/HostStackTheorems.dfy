/**
 * What the whole stack guarantees in every run: each port on its way has its own answer outstanding, exactly as long
 * as no answer was one that the code gives up on.
 */
module HostStackTheorems {
  import opened Wrappers
  import opened Trbs
  import opened DeviceManagers
  import opened PortConfig
  import opened Transfers
  import opened UsbDevices
  import opened HostStack
  import P = PortProtocol
  import PT = PortTheorems
  import E = Enumeration
  import ET = EnumerationTheorems

  /** The device of slot s belongs to port p. */
  predicate IsAt(t: DeviceTable, s: Byte, p: nat) { P.HasDevice(t, s) && P.PortOf(t, s) == p }

  /** The response that lets port p go on is outstanding, or p waits for the port that holds the lock. */
  ghost predicate AnswerComing(w: World, p: nat)
    requires p < PORTS && DriverOk(w.h.d) && |w.devs| == SLOTS
  {
    var d, done := w.h.d, w.h.done;
    match d.phases[p]
    case NotConnected => true
    case WaitingAddressed => P.Critical(d.phases[d.addressing])
    case ResettingPort => PortReset(p) in d.effects && p !in w.answered
    case EnablingSlot => P.Pending(d.issued, done, EnableSlotCommand)
    case AddressingDevice =>
      exists s: Byte :: IsAt(d.table, s, p) && P.Pending(d.issued, done, AddressDeviceCommand(s))
    case InitializingDevice =>
      exists s: Byte :: IsAt(d.table, s, p) && ET.DeviceWaits(w.devs[s])
    case ConfiguringEndpoints =>
      exists s: Byte :: IsAt(d.table, s, p) && P.Pending(d.issued, done, ConfigureEndpointCommand(s))
    case Configured => true
  }

  ghost predicate AllComing(w: World) {
    && DriverOk(w.h.d) && |w.devs| == SLOTS
    && forall p :: 0 <= p < PORTS ==> AnswerComing(w, p)
  }

  // ---- the three ways in which an answer can be missing ----

  ghost predicate ResetsPending(phases: seq<ConfigPhase>, answered: set<nat>) {
    forall p :: 0 <= p < |phases| && phases[p] == ResettingPort ==> p !in answered
  }

  ghost predicate DevicesPending(t: DeviceTable, phases: seq<ConfigPhase>, devs: seq<E.Sys>)
    requires |phases| == PORTS && |devs| == SLOTS
  {
    forall s :: P.HasDevice(t, s) && phases[P.PortOf(t, s)] == InitializingDevice ==> ET.DeviceWaits(devs[s])
  }

  /** Commands are always outstanding: the rest is what can be missing. */
  ghost predicate NoneMissing(w: World)
    requires DriverOk(w.h.d) && |w.devs| == SLOTS
  {
    && PT.NoneStranded(w.h.d) && ResetsPending(w.h.d.phases, w.answered)
    && DevicesPending(w.h.d.table, w.h.d.phases, w.devs)
  }

  lemma DeviceOfPort(h: P.Host, maxPorts: Byte, p: nat) returns (s: Byte)
    requires P.Inv(h, maxPorts) && p < PORTS && P.Rank(h.d.phases[p]) >= 4
    ensures IsAt(h.d.table, s, p)
  {
    var t :| P.HasDevice(h.d.table, t) && P.PortOf(h.d.table, t) == p;
    s := t;
  }

  /** The command that a port awaits is outstanding. */
  lemma CommandComing(h: P.Host, maxPorts: Byte, p: nat)
    requires P.Inv(h, maxPorts) && p < PORTS
    ensures h.d.phases[p] == EnablingSlot ==> P.Pending(h.d.issued, h.done, EnableSlotCommand)
    ensures h.d.phases[p] == AddressingDevice ==>
              exists s: Byte :: IsAt(h.d.table, s, p) && P.Pending(h.d.issued, h.done, AddressDeviceCommand(s))
    ensures h.d.phases[p] == ConfiguringEndpoints ==>
              exists s: Byte :: IsAt(h.d.table, s, p) && P.Pending(h.d.issued, h.done, ConfigureEndpointCommand(s))
  {
    match h.d.phases[p]
    case EnablingSlot => assert P.Awaits(h.d.phases, h.d.addressing, h.d.table, EnableSlotCommand);
    case AddressingDevice =>
      var s := DeviceOfPort(h, maxPorts, p);
      assert P.Awaits(h.d.phases, h.d.addressing, h.d.table, AddressDeviceCommand(s));
    case ConfiguringEndpoints =>
      var s := DeviceOfPort(h, maxPorts, p);
      assert P.Awaits(h.d.phases, h.d.addressing, h.d.table, ConfigureEndpointCommand(s));
    case _ =>
  }

  lemma ComingUnlessMissing(w: World, maxPorts: Byte)
    requires Inv(w, maxPorts) && NoneMissing(w)
    ensures AllComing(w)
  {
    var d := w.h.d;
    forall p | 0 <= p < PORTS ensures AnswerComing(w, p) {
      CommandComing(w.h, maxPorts, p);
      if d.phases[p] == InitializingDevice {
        var s := DeviceOfPort(w.h, maxPorts, p);
        assert IsAt(d.table, s, p) && ET.DeviceWaits(w.devs[s]);
      }
    }
  }

  lemma MissingUnlessComing(w: World, maxPorts: Byte)
    requires Inv(w, maxPorts) && AllComing(w)
    ensures NoneMissing(w)
  {
    var d := w.h.d;
    DevicesHaveTheirPorts(w.h, maxPorts);
    forall s | P.HasDevice(d.table, s) && d.phases[P.PortOf(d.table, s)] == InitializingDevice
      ensures ET.DeviceWaits(w.devs[s])
    {
      var p := P.PortOf(d.table, s);
      assert AnswerComing(w, p);
      var u: Byte :| IsAt(d.table, u, p) && ET.DeviceWaits(w.devs[u]);
    }
    forall p | 0 <= p < PORTS && d.phases[p] == ResettingPort ensures p !in w.answered {
      assert AnswerComing(w, p);
    }
    forall p | 0 <= p < PORTS && d.phases[p] == WaitingAddressed ensures d.addressing != 0 {
      assert AnswerComing(w, p);
    }
  }

  // ---- what the code gives up on ----

  /** A reset is answered by an enabled port with its change bit set. */
  predicate ResetSucceeds(d: Driver, port: Byte, regs: PortReadings)
    requires DriverOk(d)
  {
    d.phases[port] == ResettingPort ==> regs[port].enabled && regs[port].resetChange
  }

  /** Enumeration gets the reply it waits for, and the last one finds the port at a speed the driver knows. */
  predicate ReplySucceeds(d: Driver, s: Byte, dev: E.Sys, event: E.Step, regs: PortReadings)
    requires DriverOk(d) && P.HasDevice(d.table, s)
  {
    var p := P.PortOf(d.table, s);
    d.phases[p] == InitializingDevice && !dev.u.initialized ==>
      ET.GoodReply(dev, event) && (dev.u.phase == 3 ==> 1 <= regs[p].speed <= SUPER_SPEED_PLUS)
  }

  /** The answer that the step brings is one that the code goes on from. */
  predicate Smooth(w: World, maxPorts: Byte, step: Step)
    requires Enabled(w, maxPorts, step)
  {
    match step
    case ResetDone(port, regs) => ResetSucceeds(w.h.d, port, regs)
    case Command(regs, place, _) =>
      PT.IsHandOff(w.h, P.Completion(regs, place)) ==> PT.FirstWaiterConnected(w.h, P.Completion(regs, place))
    case Event(s, event, regs, _) => ReplySucceeds(w.h.d, s, w.devs[s], event, regs)
    case _ => true
  }

  // ---- stranded ports ----

  lemma StrandedDecided(h: P.Host, maxPorts: Byte, hs: P.Step)
    requires P.Inv(h, maxPorts) && P.Enabled(h, maxPorts, hs) && PT.NoneStranded(h.d)
    ensures var h' := P.After(h, maxPorts, hs);
            DriverOk(h'.d) && (PT.NoneStranded(h'.d) <==> (PT.IsHandOff(h, hs) ==> PT.FirstWaiterConnected(h, hs)))
  {
    if PT.IsHandOff(h, hs) { PT.HandOffStrands(h, maxPorts, hs); } else { PT.OtherStepsStrandNone(h, maxPorts, hs); }
  }

  // ---- resets ----

  /** A port that starts its reset has none that was answered. */
  lemma NewResetsPending(h: P.Host, maxPorts: Byte, hs: P.Step, answered: set<nat>)
    requires P.Inv(h, maxPorts) && P.Enabled(h, maxPorts, hs)
    requires ResetsInv(h.d.phases, h.d.effects, answered) && ResetsPending(h.d.phases, answered)
    ensures DriverOk(P.After(h, maxPorts, hs).d) && ResetsPending(P.After(h, maxPorts, hs).d.phases, answered)
  {
    var d' := P.After(h, maxPorts, hs).d;
    PT.StepMovesForward(h, maxPorts, hs, 0);
    forall p | 0 <= p < PORTS && d'.phases[p] == ResettingPort ensures p !in answered {
      PT.StepMovesForward(h, maxPorts, hs, p);
      assert P.Rank(h.d.phases[p]) >= 2 ==> h.d.phases[p] == ResettingPort;
    }
  }

  lemma ResetDecides(h: P.Host, maxPorts: Byte, port: Byte, regs: PortReadings, answered: set<nat>)
    requires P.Inv(h, maxPorts) && P.Enabled(h, maxPorts, P.PortStatus(port, regs)) && PortReset(port) in h.d.effects
    requires ResetsInv(h.d.phases, h.d.effects, answered) && ResetsPending(h.d.phases, answered)
    ensures var d' := P.After(h, maxPorts, P.PortStatus(port, regs)).d;
            DriverOk(d') && (ResetsPending(d'.phases, answered + {port as nat}) <==> ResetSucceeds(h.d, port, regs))
  {
    var hs := P.PortStatus(port, regs);
    P.PortEffect(h, maxPorts, hs);
    NewResetsPending(h, maxPorts, hs, answered);
    assert h.d.phases[port] != NotConnected;
  }

  // ---- devices ----

  /** No port begins or ends its enumeration. */
  lemma DevicesStayPending(t: DeviceTable, t': DeviceTable, phases: seq<ConfigPhase>, phases': seq<ConfigPhase>,
          devs: seq<E.Sys>)
    requires |phases| == |phases'| == PORTS && |devs| == SLOTS && P.SamePlaces(t, t') && DevicesPending(t, phases, devs)
    requires forall p :: 0 <= p < PORTS && phases'[p] == InitializingDevice ==> phases[p] == InitializingDevice
    ensures DevicesPending(t', phases', devs)
  {
    forall s | P.HasDevice(t', s) && phases'[P.PortOf(t', s)] == InitializingDevice ensures ET.DeviceWaits(devs[s]) {
      assert P.HasDevice(t, s) && phases[P.PortOf(t, s)] == InitializingDevice;
    }
  }

  lemma PortsKeepPending(h: P.Host, maxPorts: Byte, hs: P.Step, devs: seq<E.Sys>)
    requires P.Inv(h, maxPorts) && P.Enabled(h, maxPorts, hs) && (hs.Sweep? || hs.PortStatus? || hs.Execute?)
    requires |devs| == SLOTS && DevicesPending(h.d.table, h.d.phases, devs)
    ensures var d' := P.After(h, maxPorts, hs).d; |d'.phases| == PORTS && DevicesPending(d'.table, d'.phases, devs)
  {
    var d' := P.After(h, maxPorts, hs).d;
    if hs.Execute? { P.ExecuteEffect(h, maxPorts, hs); } else { P.PortEffect(h, maxPorts, hs); }
    DevicesStayPending(h.d.table, d'.table, h.d.phases, d'.phases, devs);
  }

  /** A device that has just been started has its first request outstanding. */
  lemma StartedWaits(dev: E.Sys)
    requires LinkOk(dev, AddressingDevice) && E.Enabled(dev, E.Begin) && E.Safe(dev, E.Begin)
    ensures ET.DeviceWaits(E.After(dev, E.Begin))
  {
    ET.BeginWaits(dev);
  }

  /** One device changes together with its port. */
  lemma OneDevicePending(t: DeviceTable, t': DeviceTable, phases: seq<ConfigPhase>, phases': seq<ConfigPhase>,
          devs: seq<E.Sys>, s: Byte, dev: E.Sys)
    requires |phases| == |phases'| == PORTS && |devs| == SLOTS && DevicesPending(t, phases, devs) && P.HasDevice(t', s)
    requires forall u :: u != s && P.HasDevice(t', u) ==>
             P.HasDevice(t, u) && P.PortOf(t, u) == P.PortOf(t', u) && P.PortOf(t', u) != P.PortOf(t', s)
    requires forall p :: 0 <= p < PORTS && p != P.PortOf(t', s) && phases'[p] == InitializingDevice ==>
             phases[p] == InitializingDevice
    ensures DevicesPending(t', phases', devs[s := dev]) <==>
            (phases'[P.PortOf(t', s)] == InitializingDevice ==> ET.DeviceWaits(dev))
  {
    var devs' := devs[s := dev];
    forall u | u != s && P.HasDevice(t', u) && phases'[P.PortOf(t', u)] == InitializingDevice
      ensures ET.DeviceWaits(devs'[u])
    {
      assert P.HasDevice(t, u) && phases[P.PortOf(t, u)] == InitializingDevice;
    }
    assert devs'[s] == dev;
  }

  lemma EnableSlotKeepsPending(h: P.Host, maxPorts: Byte, hs: P.Step, devs: seq<E.Sys>, answered: set<nat>, made: E.Sys)
    requires P.Inv(h, maxPorts) && P.Enabled(h, maxPorts, hs) && hs.Completion? && Tied(h.d, devs, answered)
    requires E.Init(made)
    requires h.d.issued[h.done].command == EnableSlotCommand && DevicesPending(h.d.table, h.d.phases, devs)
    ensures var d' := P.After(h, maxPorts, hs).d; var devs' := AppliedAll(devs, NewEffects(h.d, d'), made, []);
            |d'.phases| == PORTS && |devs'| == SLOTS && DevicesPending(d'.table, d'.phases, devs')
  {
    hide E.Inv, E.Init, Tied, LinkOk, P.Inv;
    TiedGives(h.d, devs, answered);
    var d, d' := h.d, P.After(h, maxPorts, hs).d;
    EnableSlotKeeps(h, maxPorts, hs, devs, answered, made);
    P.EnableSlotEffect(h, maxPorts, hs);
    P.EnableSlotDevices(h, maxPorts, hs);
    NoDeviceBefore(h, maxPorts);
    OneDevicePending(d.table, d'.table, d.phases, d'.phases, devs, h.results[0], made);
  }

  lemma AddressDeviceKeepsPending(h: P.Host, maxPorts: Byte, hs: P.Step, devs: seq<E.Sys>, answered: set<nat>,
          made: E.Sys, s: Byte)
    requires P.Inv(h, maxPorts) && P.Enabled(h, maxPorts, hs) && hs.Completion? && Tied(h.d, devs, answered)
    requires h.d.issued[h.done].command == AddressDeviceCommand(s) && DevicesPending(h.d.table, h.d.phases, devs)
    ensures var d' := P.After(h, maxPorts, hs).d; var devs' := AppliedAll(devs, NewEffects(h.d, d'), made, []);
            |d'.phases| == PORTS && |devs'| == SLOTS && DevicesPending(d'.table, d'.phases, devs')
  {
    hide E.Inv, Tied, P.Inv;
    var d, d' := h.d, P.After(h, maxPorts, hs).d;
    AddressDeviceKeeps(h, maxPorts, hs, devs, answered, made, s);
    AddressDeviceNews(h, maxPorts, hs, s);
    DevicesHaveTheirPorts(h, maxPorts);
    DeviceIsLinked(d, devs, answered, s);
    StartedWaits(devs[s]);
    OneDevicePending(d.table, d'.table, d.phases, d'.phases, devs, s, E.After(devs[s], E.Begin));
  }

  lemma ConfigureEndpointKeepsPending(h: P.Host, maxPorts: Byte, hs: P.Step, devs: seq<E.Sys>, answered: set<nat>,
          made: E.Sys, s: Byte)
    requires P.Inv(h, maxPorts) && P.Enabled(h, maxPorts, hs) && hs.Completion? && Tied(h.d, devs, answered)
    requires h.d.issued[h.done].command == ConfigureEndpointCommand(s) && DevicesPending(h.d.table, h.d.phases, devs)
    ensures var d' := P.After(h, maxPorts, hs).d; var devs' := AppliedAll(devs, NewEffects(h.d, d'), made, []);
            |d'.phases| == PORTS && |devs'| == SLOTS && DevicesPending(d'.table, d'.phases, devs')
  {
    hide E.Inv, Tied, LinkOk, P.Inv;
    TiedGives(h.d, devs, answered);
    var d, d' := h.d, P.After(h, maxPorts, hs).d;
    ConfigureEndpointKeeps(h, maxPorts, hs, devs, answered, made, s);
    P.ConfigureEndpointEffect(h, maxPorts, hs, s);
    DevicesHaveTheirPorts(h, maxPorts);
    OneDevicePending(d.table, d'.table, d.phases, d'.phases, devs, s, E.After(devs[s], E.Configured));
  }

  lemma CommandKeepsPending(h: P.Host, maxPorts: Byte, hs: P.Step, devs: seq<E.Sys>, answered: set<nat>, made: E.Sys)
    requires P.Inv(h, maxPorts) && P.Enabled(h, maxPorts, hs) && hs.Completion? && Tied(h.d, devs, answered)
    requires E.Init(made)
    requires DevicesPending(h.d.table, h.d.phases, devs)
    ensures var d' := P.After(h, maxPorts, hs).d; var devs' := AppliedAll(devs, NewEffects(h.d, d'), made, []);
            |d'.phases| == PORTS && |devs'| == SLOTS && DevicesPending(d'.table, d'.phases, devs')
  {
    match h.d.issued[h.done].command
    case EnableSlotCommand => EnableSlotKeepsPending(h, maxPorts, hs, devs, answered, made);
    case AddressDeviceCommand(s) => AddressDeviceKeepsPending(h, maxPorts, hs, devs, answered, made, s);
    case ConfigureEndpointCommand(s) => ConfigureEndpointKeepsPending(h, maxPorts, hs, devs, answered, made, s);
  }

  /** The reply leaves its device waiting, unless it is the last. */
  lemma ReplyDecides(d: Driver, s: Byte, dev: E.Sys, event: E.Step, regs: PortReadings)
    requires DriverOk(d) && P.HasDevice(d.table, s) && d.phases[P.PortOf(d.table, s)] == InitializingDevice
    requires E.Inv(dev) && ET.DeviceWaits(dev) && DeviceEvent(dev, event)
    ensures ReplySucceeds(d, s, dev, event, regs) <==>
              Initializes(d, s, Outcome(dev, event), regs) || ET.DeviceWaits(E.After(dev, event))
  {
    EventKeepsDevice(dev, event);
    if ET.GoodReply(dev, event) {
      ET.GoodReplyAdvances(dev, event);
      if dev.u.phase == 3 { ET.ThirdReplySucceeds(dev, event); }
    } else if event.Completion? {
      ET.OtherReplyEnds(dev, event);
    }
  }

  /** The same for all ports: `last` is the device after the event, with its rings allocated when it is initialized. */
  lemma PendingDecided(d: Driver, d': Driver, devs: seq<E.Sys>, s: Byte, event: E.Step, regs: PortReadings, last: E.Sys)
    requires DriverOk(d) && |devs| == SLOTS && DevicesPending(d.table, d.phases, devs)
    requires PortsDistinct(d.table) && P.HasDevice(d.table, s) && P.SamePlaces(d.table, d'.table)
    requires E.Inv(devs[s]) && DeviceEvent(devs[s], event)
    requires var initializes := Initializes(d, s, Outcome(devs[s], event), regs);
             && d'.phases == (if initializes then d.phases[P.PortOf(d.table, s) := ConfiguringEndpoints] else d.phases)
             && (!initializes ==> last == E.After(devs[s], event))
    ensures DevicesPending(d'.table, d'.phases, devs[s := last]) <==> ReplySucceeds(d, s, devs[s], event, regs)
  {
    hide E.Inv, E.After, E.Safe, E.Enabled, Outcome;
    OneDevicePending(d.table, d'.table, d.phases, d'.phases, devs, s, last);
    if d.phases[P.PortOf(d.table, s)] == InitializingDevice { ReplyDecides(d, s, devs[s], event, regs); }
  }

  lemma EventDecides(h: P.Host, maxPorts: Byte, devs: seq<E.Sys>, answered: set<nat>, made: E.Sys, s: Byte,
                     event: E.Step, regs: PortReadings, bases: seq<Address>)
    requires P.Inv(h, maxPorts) && P.HasDevice(h.d.table, s) && Tied(h.d, devs, answered)
    requires DevicesPending(h.d.table, h.d.phases, devs)
    requires DeviceEvent(devs[s], event) && |bases| == |E.After(devs[s], event).u.configs|
    ensures var d' := P.After(h, maxPorts, P.Transfer(s, Outcome(devs[s], event), regs)).d;
            var devs' := AppliedAll(devs[s := E.After(devs[s], event)], NewEffects(h.d, d'), made, bases);
            && |d'.phases| == PORTS && |devs'| == SLOTS
            && (DevicesPending(d'.table, d'.phases, devs') <==> ReplySucceeds(h.d, s, devs[s], event, regs))
  {
    hide P.Inv, P.After, E.Inv, E.After, E.Safe, Tied, LinkOk, AppliedAll, NewEffects, Outcome, Initializes,
      ReplySucceeds;
    DevicesHaveTheirPorts(h, maxPorts);
    DeviceIsLinked(h.d, devs, answered, s);
    var outcome, dev := Outcome(devs[s], event), E.After(devs[s], event);
    EventKeepsDevice(devs[s], event);
    EventKeeps(h, maxPorts, devs, answered, made, s, dev, outcome, regs, bases);
    TransferNews(h, maxPorts, s, outcome, regs);
    var last := if Initializes(h.d, s, outcome, regs) then E.After(dev, E.AllocRings(bases)) else dev;
    PendingDecided(h.d, P.After(h, maxPorts, P.Transfer(s, outcome, regs)).d, devs, s, event, regs, last);
  }

  // ---- every step ----

  lemma StepDecides(w: World, maxPorts: Byte, step: Step)
    requires Inv(w, maxPorts) && Enabled(w, maxPorts, step) && NoneMissing(w)
    ensures var w' := After(w, maxPorts, step);
            DriverOk(w'.h.d) && |w'.devs| == SLOTS && (NoneMissing(w') <==> Smooth(w, maxPorts, step))
  {
    hide P.Inv, Tied, E.Init, DevicesPending, ResetsPending, E.After, E.Inv;
    TiedGives(w.h.d, w.devs, w.answered);
    var hs, made := HostStep(w, step), MadeBy(w, step);
    StrandedDecided(w.h, maxPorts, hs);
    NewResetsPending(w.h, maxPorts, hs, w.answered);
    match step
    case Event(s, event, regs, bases) => EventDecides(w.h, maxPorts, w.devs, w.answered, made, s, event, regs, bases);
    case Command(_, _, _) => CommandKeepsPending(w.h, maxPorts, hs, w.devs, w.answered, made);
    case Execute(_) =>
      ExecuteKeeps(w.h, maxPorts, hs, w.devs, w.answered, made);
      PortsKeepPending(w.h, maxPorts, hs, w.devs);
    case ResetDone(port, regs) =>
      PortKeeps(w.h, maxPorts, hs, w.devs, w.answered, made);
      PortsKeepPending(w.h, maxPorts, hs, w.devs);
      ResetDecides(w.h, maxPorts, port, regs, w.answered);
    case _ =>
      PortKeeps(w.h, maxPorts, hs, w.devs, w.answered, made);
      PortsKeepPending(w.h, maxPorts, hs, w.devs);
  }

  /**
   * An answer that the code goes on from leaves every port with its answer coming; any other leaves some port without.
   */
  lemma StepKeepsAnswersExactly(w: World, maxPorts: Byte, step: Step)
    requires Inv(w, maxPorts) && Enabled(w, maxPorts, step) && AllComing(w)
    ensures AllComing(After(w, maxPorts, step)) <==> Smooth(w, maxPorts, step)
  {
    MissingUnlessComing(w, maxPorts);
    StepDecides(w, maxPorts, step);
    StepKeepsInv(w, maxPorts, step);
    var w' := After(w, maxPorts, step);
    if NoneMissing(w') {
      ComingUnlessMissing(w', maxPorts);
    } else if AllComing(w') {
      MissingUnlessComing(w', maxPorts);
    }
  }

  lemma InitComing(w: World, maxPorts: Byte)
    requires Init(w)
    ensures AllComing(w)
  {
  }

  // ---- runs ----

  ghost predicate SmoothUpTo(ws: seq<World>, steps: seq<Step>, maxPorts: Byte, n: nat)
    requires Run(ws, steps, maxPorts) && n <= |steps|
  {
    forall i :: 0 <= i < n ==> Smooth(ws[i], maxPorts, steps[i])
  }

  /**
   * In the first n steps of a run every port always has its answer coming, if and only if every answer so far was one
   * that the code goes on from.
   */
  lemma {:induction false} AnswersComeExactly(ws: seq<World>, steps: seq<Step>, maxPorts: Byte, n: nat)
    requires Run(ws, steps, maxPorts) && n <= |steps|
    ensures (forall i :: 0 <= i <= n ==> AllComing(ws[i])) <==> SmoothUpTo(ws, steps, maxPorts, n)
  {
    hide Init, Inv, Enabled, After, AllComing, Smooth;
    if n == 0 {
      InitComing(ws[0], maxPorts);
    } else {
      AnswersComeExactly(ws, steps, maxPorts, n - 1);
      RunKeepsInv(ws, steps, maxPorts, n - 1);
      assert ws[(n - 1) + 1] == After(ws[n - 1], maxPorts, steps[n - 1]);
      if AllComing(ws[n - 1]) { StepKeepsAnswersExactly(ws[n - 1], maxPorts, steps[n - 1]); }
      if SmoothUpTo(ws, steps, maxPorts, n) {
        assert SmoothUpTo(ws, steps, maxPorts, n - 1);
      }
      if forall i :: 0 <= i <= n ==> AllComing(ws[i]) {
        assert forall i :: 0 <= i <= n - 1 ==> AllComing(ws[i]);
        assert AllComing(ws[n]) && AllComing(ws[n - 1]);
      }
    }
  }

  // ---- the same for one port, in terms of the history ----

  ghost predicate ResetWasAnswered(steps: seq<Step>, p: nat, n: nat)
    requires n <= |steps|
  {
    exists i :: 0 <= i < n && steps[i].ResetDone? && steps[i].port == p
  }

  lemma {:induction false} AnsweredExactly(ws: seq<World>, steps: seq<Step>, maxPorts: Byte, p: nat, n: nat)
    requires Run(ws, steps, maxPorts) && n <= |steps|
    ensures p in ws[n].answered <==> ResetWasAnswered(steps, p, n)
  {
    hide Inv, Enabled;
    if n > 0 {
      AnsweredExactly(ws, steps, maxPorts, p, n - 1);
      assert ws[(n - 1) + 1] == After(ws[n - 1], maxPorts, steps[n - 1]);
      if steps[n - 1].ResetDone? && steps[n - 1].port == p { assert ResetWasAnswered(steps, p, n); }
    }
  }

  /**
   * A resetting port has its status change outstanding until the reset is answered; an initializing port has a
   * transfer event outstanding as long as no transfer of its device failed, every reply was accepted and the last was
   * not yet among them.  A port that waits does so behind the lock's holder unless a hand-off has stranded it.
   */
  lemma PortAnswerExactly(ws: seq<World>, steps: seq<Step>, maxPorts: Byte, n: nat, p: nat, s: Byte)
    requires Run(ws, steps, maxPorts) && n <= |steps| && p < PORTS
    requires DriverOk(ws[n].h.d) && |ws[n].devs| == SLOTS
    ensures var w := ws[n]; var d := w.h.d;
            && (d.phases[p] == ResettingPort ==> (AnswerComing(w, p) <==> !ResetWasAnswered(steps, p, n)))
            && (d.phases[p] == InitializingDevice && IsAt(d.table, s, p) ==>
                  (AnswerComing(w, p) <==>
                    !w.devs[s].u.initialized && w.devs[s].stale == 0 && E.AllAccepted(w.devs[s].log)))
            && (d.phases[p] == WaitingAddressed ==> (AnswerComing(w, p) <==> d.addressing != 0))
            && (d.phases[p] != ResettingPort && d.phases[p] != InitializingDevice && d.phases[p] != WaitingAddressed ==>
                  AnswerComing(w, p))
  {
    var w := ws[n];
    RunKeepsInv(ws, steps, maxPorts, n);
    AnsweredExactly(ws, steps, maxPorts, p, n);
    CommandComing(w.h, maxPorts, p);
    DevicesHaveTheirPorts(w.h, maxPorts);
    if IsAt(w.h.d.table, s, p) { DeviceIsLinked(w.h.d, w.devs, w.answered, s); }
  }

  // ---- what a good answer achieves ----

  lemma GoodOutcome(dev: E.Sys, event: E.Step)
    requires E.Inv(dev) && ET.DeviceWaits(dev) && DeviceEvent(dev, event) && ET.GoodReply(dev, event)
    ensures dev.u.phase <= 3
    ensures var dev' := E.After(dev, event);
            if dev.u.phase < 3 then dev'.u.phase == dev.u.phase + 1 && ET.DeviceWaits(dev') &&
              !Outcome(dev, event).initialized
            else Outcome(dev, event) == TransferOutcome(Success, true)
  {
    EventKeepsDevice(dev, event);
    ET.GoodReplyAdvances(dev, event);
    if dev.u.phase == 3 { ET.ThirdReplySucceeds(dev, event); }
  }

  /** The reply takes the device to its next phase, or its port to configuring endpoints. */
  lemma GoodReplyMovesOn(w: World, maxPorts: Byte, step: Step)
    requires Inv(w, maxPorts) && Enabled(w, maxPorts, step) && step.Event? && ET.DeviceWaits(w.devs[step.slotId])
    requires w.h.d.phases[P.PortOf(w.h.d.table, step.slotId)] == InitializingDevice && Smooth(w, maxPorts, step)
    ensures var w', s := After(w, maxPorts, step), step.slotId;
            && DriverOk(w'.h.d) && s < |w'.devs|
            && if w.devs[s].u.phase < 3 then w'.devs[s].u.phase == w.devs[s].u.phase + 1 && ET.DeviceWaits(w'.devs[s])
               else w'.h.d.phases[P.PortOf(w.h.d.table, s)] == ConfiguringEndpoints
  {
    hide P.Inv, P.After, E.Inv, E.After, E.Safe, Tied, LinkOk, ET.GoodReply, AppliedAll, NewEffects, Outcome;
    var d, s, dev, event := w.h.d, step.slotId, w.devs[step.slotId], step.event;
    DeviceIsLinked(d, w.devs, w.answered, s);
    EventKeepsDevice(dev, event);
    GoodOutcome(dev, event);
    PT.StepMovesForward(w.h, maxPorts, HostStep(w, step), 0);
    EventKeeps(w.h, maxPorts, w.devs, w.answered, MadeBy(w, step), s, E.After(dev, event), Outcome(dev, event),
      step.regs, step.bases);
    TransferNews(w.h, maxPorts, s, Outcome(dev, event), step.regs);
  }

  /** The reset of a port leads to its slot. */
  lemma GoodResetMovesOn(w: World, maxPorts: Byte, step: Step)
    requires Inv(w, maxPorts) && Enabled(w, maxPorts, step) && step.ResetDone?
    requires w.h.d.phases[step.port] == ResettingPort
    requires Smooth(w, maxPorts, step)
    ensures DriverOk(After(w, maxPorts, step).h.d) && After(w, maxPorts, step).h.d.phases[step.port] == EnablingSlot
  {
    P.PortEffect(w.h, maxPorts, HostStep(w, step));
  }

  // ---- the port theorems hold for the whole stack ----

  /** What the ports do in a run of the whole stack is a run of the port protocol. */
  lemma PortsRun(ws: seq<World>, steps: seq<Step>, maxPorts: Byte) returns (hs: seq<P.Host>, ps: seq<P.Step>)
    requires Run(ws, steps, maxPorts)
    ensures PT.Run(hs, ps, maxPorts) && |hs| == |ws| && |ps| == |steps|
    ensures forall i :: 0 <= i < |ws| ==> hs[i] == ws[i].h
    ensures forall i :: 0 <= i < |steps| ==> EventOk(ws[i], steps[i]) && ps[i] == HostStep(ws[i], steps[i])
  {
    forall i | 0 <= i < |steps| ensures EventOk(ws[i], steps[i]) {
      assert Enabled(ws[i], maxPorts, steps[i]);
    }
    hs := seq(|ws|, i requires 0 <= i < |ws| => ws[i].h);
    ps := seq(|steps|, i requires 0 <= i < |steps| => HostStep(ws[i], steps[i]));
    forall i | 0 <= i < |steps|
      ensures P.Enabled(hs[i], maxPorts, ps[i]) && hs[i + 1] == P.After(hs[i], maxPorts, ps[i])
    {
      assert Enabled(ws[i], maxPorts, steps[i]) && ws[i + 1] == After(ws[i], maxPorts, steps[i]);
    }
  }

  ghost predicate Reachable(dev: E.Sys) {
    exists ss, steps :: E.Run(ss, steps) && ss[|steps|] == dev
  }

  lemma NewIsReachable(made: E.Sys)
    requires E.Init(made)
    ensures Reachable(made)
  {
    var steps: seq<E.Step> := [];
    assert E.Run([made], steps) && [made][|steps|] == made;
  }

  lemma NextIsReachable(dev: E.Sys, step: E.Step)
    requires Reachable(dev) && E.Enabled(dev, step) && E.Safe(dev, step)
    ensures Reachable(E.After(dev, step))
  {
    var ss, steps :| E.Run(ss, steps) && ss[|steps|] == dev;
    var ss', steps' := ET.Extend(ss[0], ss, steps, step);
    assert E.Run(ss', steps');
  }

  ghost predicate AllReachable(t: DeviceTable, devs: seq<E.Sys>)
    requires |devs| == SLOTS
  {
    forall s :: P.HasDevice(t, s) ==> Reachable(devs[s])
  }

  lemma OneMoreReachable(t: DeviceTable, t': DeviceTable, devs: seq<E.Sys>, s: Byte, dev: E.Sys)
    requires |devs| == SLOTS && s < SLOTS && AllReachable(t, devs) && Reachable(dev)
    requires forall u :: u != s && P.HasDevice(t', u) ==> P.HasDevice(t, u)
    ensures AllReachable(t', devs[s := dev])
  {
    forall u | P.HasDevice(t', u) ensures Reachable(devs[s := dev][u]) {
      if u != s { assert Reachable(devs[u]); }
    }
  }

  lemma CommandKeepsReachable(h: P.Host, maxPorts: Byte, hs: P.Step, devs: seq<E.Sys>, answered: set<nat>, made: E.Sys)
    requires P.Inv(h, maxPorts) && P.Enabled(h, maxPorts, hs) && hs.Completion? && Tied(h.d, devs, answered)
    requires E.Init(made)
    requires |devs| == SLOTS && AllReachable(h.d.table, devs)
    ensures var d' := P.After(h, maxPorts, hs).d; var devs' := AppliedAll(devs, NewEffects(h.d, d'), made, []);
            |devs'| == SLOTS && AllReachable(d'.table, devs')
  {
    hide P.Inv, E.Inv, E.Init, Tied, LinkOk, Reachable;
    TiedGives(h.d, devs, answered);
    var d, d' := h.d, P.After(h, maxPorts, hs).d;
    match h.d.issued[h.done].command
    case EnableSlotCommand =>
      EnableSlotKeeps(h, maxPorts, hs, devs, answered, made);
      P.EnableSlotDevices(h, maxPorts, hs);
      NewIsReachable(made);
      OneMoreReachable(d.table, d'.table, devs, h.results[0], made);
    case AddressDeviceCommand(s) =>
      AddressDeviceKeeps(h, maxPorts, hs, devs, answered, made, s);
      AddressDeviceNews(h, maxPorts, hs, s);
      NextIsReachable(devs[s], E.Begin);
      OneMoreReachable(d.table, d'.table, devs, s, E.After(devs[s], E.Begin));
    case ConfigureEndpointCommand(s) =>
      ConfigureEndpointKeeps(h, maxPorts, hs, devs, answered, made, s);
      P.ConfigureEndpointEffect(h, maxPorts, hs, s);
      NextIsReachable(devs[s], E.Configured);
      OneMoreReachable(d.table, d'.table, devs, s, E.After(devs[s], E.Configured));
  }

  lemma EventKeepsReachable(w: World, maxPorts: Byte, step: Step)
    requires Inv(w, maxPorts) && Enabled(w, maxPorts, step) && step.Event? && AllReachable(w.h.d.table, w.devs)
    ensures var w' := After(w, maxPorts, step); |w'.devs| == SLOTS && AllReachable(w'.h.d.table, w'.devs)
  {
    hide P.Inv, E.Inv, Tied, LinkOk, E.Safe, Reachable, Initializes;
    var d, s, outcome := w.h.d, step.slotId, Outcome(w.devs[step.slotId], step.event);
    var dev := E.After(w.devs[s], step.event);
    DeviceIsLinked(d, w.devs, w.answered, s);
    EventKeepsDevice(w.devs[s], step.event);
    EventKeeps(w.h, maxPorts, w.devs, w.answered, MadeBy(w, step), s, dev, outcome, step.regs, step.bases);
    TransferNews(w.h, maxPorts, s, outcome, step.regs);
    assert Reachable(w.devs[s]);
    NextIsReachable(w.devs[s], step.event);
    if Initializes(d, s, outcome, step.regs) {
      NextIsReachable(dev, E.AllocRings(step.bases));
      OneMoreReachable(d.table, After(w, maxPorts, step).h.d.table, w.devs, s, E.After(dev, E.AllocRings(step.bases)));
    } else {
      OneMoreReachable(d.table, After(w, maxPorts, step).h.d.table, w.devs, s, dev);
    }
  }

  lemma StepKeepsReachable(w: World, maxPorts: Byte, step: Step)
    requires Inv(w, maxPorts) && Enabled(w, maxPorts, step) && AllReachable(w.h.d.table, w.devs)
    ensures var w' := After(w, maxPorts, step); |w'.devs| == SLOTS && AllReachable(w'.h.d.table, w'.devs)
  {
    var hs, made := HostStep(w, step), MadeBy(w, step);
    match step
    case Event(_, _, _, _) => EventKeepsReachable(w, maxPorts, step);
    case Command(_, _, _) => CommandKeepsReachable(w.h, maxPorts, hs, w.devs, w.answered, made);
    case Execute(_) =>
      ExecuteKeeps(w.h, maxPorts, hs, w.devs, w.answered, made);
      P.ExecuteEffect(w.h, maxPorts, hs);
    case _ =>
      PortKeeps(w.h, maxPorts, hs, w.devs, w.answered, made);
      P.PortEffect(w.h, maxPorts, hs);
  }

  lemma InitReachable(w: World)
    requires Init(w)
    ensures |w.devs| == SLOTS && AllReachable(w.h.d.table, w.devs)
  {
    forall s ensures !P.HasDevice(w.h.d.table, s) {
    }
  }

  /** What happens to each device in a run of the whole stack is a run of Enumeration. */
  lemma {:induction false} DevicesRun(ws: seq<World>, steps: seq<Step>, maxPorts: Byte, i: nat)
    requires Run(ws, steps, maxPorts) && i < |ws|
    ensures |ws[i].devs| == SLOTS && AllReachable(ws[i].h.d.table, ws[i].devs)
  {
    hide Init, Inv, Enabled, After, AllReachable;
    if i == 0 {
      InitReachable(ws[0]);
    } else {
      DevicesRun(ws, steps, maxPorts, i - 1);
      RunKeepsInv(ws, steps, maxPorts, i - 1);
      StepKeepsReachable(ws[i - 1], maxPorts, steps[i - 1]);
      assert ws[(i - 1) + 1] == After(ws[i - 1], maxPorts, steps[i - 1]);
    }
  }

  /**
   * A port past enumeration has a device that was initialized in order: device descriptor, configuration descriptor 0
   * and SET_CONFIGURATION with the value announced, and it has the endpoints of the first supported interface.
   */
  lemma ConfiguredPortsInOrder(ws: seq<World>, steps: seq<Step>, maxPorts: Byte, i: nat, s: Byte)
    requires Run(ws, steps, maxPorts) && i < |ws| && P.HasDevice(ws[i].h.d.table, s)
    ensures var d, devs := ws[i].h.d, ws[i].devs;
            && |d.phases| == PORTS && s < |devs|
            && (P.Rank(d.phases[P.PortOf(d.table, s)]) >= 6 ==>
              && devs[s].u.initialized && ET.InOrder(devs[s].log, devs[s].u.buf)
              && E.Adopted(devs[s].u, devs[s].log[1].descs))
  {
    RunKeepsInv(ws, steps, maxPorts, i);
    DeviceIsLinked(ws[i].h.d, ws[i].devs, ws[i].answered, s);
    if E.Ordered(ws[i].devs[s].log, ws[i].devs[s].u) { ET.OrderedIsInOrder(ws[i].devs[s].log, ws[i].devs[s].u); }
  }
}
