/**
 * The whole stack: the port protocol together with the enumeration of every device.  Handlers of the controller
 * call into device objects and write port registers; every such call is an effect in the driver's log, and the
 * devices and the port hardware answer it.
 */
module HostStack {
  import opened Wrappers
  import opened Trbs
  import opened DeviceManagers
  import opened PortConfig
  import opened Transfers
  import opened UsbDevices
  import P = PortProtocol
  import E = Enumeration
  import EP = EnumerationProofs
  import ET = EnumerationTheorems

  const SLOTS: nat := MAX_SLOTS + 1

  /** `answered` are the ports whose reset has been answered by a status change; `devs` the device objects by slot. */
  datatype World = World(h: P.Host, answered: set<nat>, devs: seq<E.Sys>)

  datatype Step =
    | Sweep(port: Byte, regs: PortReadings)
    | Change(port: Byte, regs: PortReadings)         // a status change that answers no reset
    | ResetDone(port: Byte, regs: PortReadings)      // the one that does
    | Execute(slotId: Byte)
    | Command(regs: PortReadings, place: Placement, made: E.Sys)
    | Event(slotId: Byte, event: E.Step, regs: PortReadings, bases: seq<Address>)

  // ---- a transfer event ----

  predicate DeviceEvent(dev: E.Sys, event: E.Step) {
    (event.Completion? || event.Report?) && E.Enabled(dev, event) && E.Safe(dev, event)
  }

  /** What OnTransferEventReceived returns and leaves in is_initialized_. */
  function Outcome(dev: E.Sys, event: E.Step): TransferOutcome
    requires DeviceEvent(dev, event)
  {
    var r := match event
             case Completion(i, code, residual, descs, self, hidBuf) =>
               OnEvent(dev.u, EP0, dev.flight[i].key, code, residual, descs, self, hidBuf)
             case Report(code, residual) => OnEvent(dev.u, dev.polls[0].dci, dev.polls[0], code, residual, [], 1, 0);
    TransferOutcome(r.1, r.0.initialized)
  }

  // ---- steps of the port protocol and of the devices ----

  predicate EventOk(w: World, step: Step) {
    step.Event? ==>
      P.HasDevice(w.h.d.table, step.slotId) && step.slotId < |w.devs| && DeviceEvent(w.devs[step.slotId], step.event)
  }

  function HostStep(w: World, step: Step): P.Step
    requires EventOk(w, step)
  {
    match step
    case Sweep(port, regs) => P.Sweep(port, regs)
    case Change(port, regs) => P.PortStatus(port, regs)
    case ResetDone(port, regs) => P.PortStatus(port, regs)
    case Execute(slotId) => P.Execute(slotId)
    case Command(regs, place, _) => P.Completion(regs, place)
    case Event(slotId, event, regs, _) => P.Transfer(slotId, Outcome(w.devs[slotId], event), regs)
  }

  predicate Enabled(w: World, maxPorts: Byte, step: Step) {
    && |w.devs| == SLOTS && EventOk(w, step) && P.Enabled(w.h, maxPorts, HostStep(w, step))
    && match step
       case ResetDone(port, _) => PortReset(port) in w.h.d.effects && port !in w.answered
       case Command(_, _, made) => E.Init(made)
       case Event(slotId, event, _, bases) => |bases| == |E.After(w.devs[slotId], event).u.configs|
       case _ => true
  }

  function Stepped(devs: seq<E.Sys>, slotId: Byte, step: E.Step): seq<E.Sys> {
    if slotId < |devs| && E.Enabled(devs[slotId], step) && E.Safe(devs[slotId], step)
    then devs[slotId := E.After(devs[slotId], step)] else devs
  }

  /** A call on a device object takes its effect at once; a new device comes with its endpoint 0 ring. */
  function Applied(devs: seq<E.Sys>, effect: Effect, made: E.Sys, bases: seq<Address>): seq<E.Sys> {
    match effect
    case PortReset(_) => devs
    case ResetChangeCleared(_) => devs
    case Ep0RingAllocated(s) => if s < |devs| then devs[s := made] else devs
    case EnumerationStarted(s) => Stepped(devs, s, E.Begin)
    case EndpointRingsAllocated(s) => Stepped(devs, s, E.AllocRings(bases))
    case DriversConfigured(s) => Stepped(devs, s, E.Configured)
  }

  function AppliedAll(devs: seq<E.Sys>, effects: seq<Effect>, made: E.Sys, bases: seq<Address>): seq<E.Sys>
    decreases |effects|
  {
    if effects == [] then devs else AppliedAll(Applied(devs, effects[0], made, bases), effects[1..], made, bases)
  }

  /** What a step added to the log. */
  function NewEffects(d: Driver, d': Driver): seq<Effect> {
    if |d.effects| <= |d'.effects| then d'.effects[|d.effects|..] else []
  }

  /** The devices once the event itself is handled, and what the effects of the step may use. */
  function Handled(w: World, step: Step): seq<E.Sys>
    requires EventOk(w, step)
  {
    if step.Event? then w.devs[step.slotId := E.After(w.devs[step.slotId], step.event)] else w.devs
  }

  function MadeBy(w: World, step: Step): E.Sys
    requires |w.devs| == SLOTS
  {
    if step.Command? then step.made else w.devs[0]
  }

  function BasesOf(step: Step): seq<Address> { if step.Event? then step.bases else [] }

  function After(w: World, maxPorts: Byte, step: Step): World
    requires Enabled(w, maxPorts, step)
  {
    var h' := P.After(w.h, maxPorts, HostStep(w, step));
    World(h', if step.ResetDone? then w.answered + {step.port as nat} else w.answered,
          AppliedAll(Handled(w, step), NewEffects(w.h.d, h'.d), MadeBy(w, step), BasesOf(step)))
  }

  predicate Init(w: World) {
    P.Init(w.h) && w.answered == {} && |w.devs| == SLOTS
  }

  ghost predicate Run(ws: seq<World>, steps: seq<Step>, maxPorts: Byte) {
    && |ws| == |steps| + 1 && Init(ws[0])
    && forall i :: 0 <= i < |steps| ==>
      Enabled(ws[i], maxPorts, steps[i]) && ws[i + 1] == After(ws[i], maxPorts, steps[i])
  }

  // ---- invariant ----

  /** The stage of a device is that of its port. */
  ghost predicate LinkOk(dev: E.Sys, phase: ConfigPhase) {
    E.Inv(dev) &&
    match phase
    case AddressingDevice => dev.stage.Idle?
    case InitializingDevice => dev.stage.Enumerating?
    case ConfiguringEndpoints => dev.stage.RingsReady?
    case Configured => dev.stage.Ready?
    case _ => false
  }

  ghost predicate LinksInv(t: DeviceTable, phases: seq<ConfigPhase>, devs: seq<E.Sys>)
    requires |phases| == PORTS
  {
    |devs| == SLOTS && forall s :: P.HasDevice(t, s) ==> LinkOk(devs[s], phases[P.PortOf(t, s)])
  }

  /** Exactly the ports that hold or have held the lock have been reset, and only resets are answered. */
  ghost predicate ResetsInv(phases: seq<ConfigPhase>, effects: seq<Effect>, answered: set<nat>)
    requires |phases| == PORTS
  {
    && (forall p :: 0 <= p < PORTS ==> (PortReset(p) in effects <==> P.Rank(phases[p]) >= 2))
    && (forall p :: p in answered ==> PortReset(p) in effects)
  }

  /** The part of the invariant that is not about the port protocol alone. */
  ghost predicate Tied(d: Driver, devs: seq<E.Sys>, answered: set<nat>) {
    |d.phases| == PORTS && LinksInv(d.table, d.phases, devs) && ResetsInv(d.phases, d.effects, answered)
  }

  ghost predicate Inv(w: World, maxPorts: Byte) {
    P.Inv(w.h, maxPorts) && Tied(w.h.d, w.devs, w.answered)
  }

  lemma InitInv(w: World, maxPorts: Byte)
    requires Init(w)
    ensures Inv(w, maxPorts)
  {
    P.InitInv(w.h, maxPorts);
    forall s ensures !P.HasDevice(w.h.d.table, s) {
    }
  }

  // ---- the effects of one step ----

  lemma NewEffectsAre(d: Driver, d': Driver, news: seq<Effect>)
    requires d'.effects == d.effects + news
    ensures NewEffects(d, d') == news
  {
  }

  lemma AppliedOne(devs: seq<E.Sys>, e: Effect, made: E.Sys, bases: seq<Address>)
    ensures AppliedAll(devs, [], made, bases) == devs
    ensures AppliedAll(devs, [e], made, bases) == Applied(devs, e, made, bases)
  {
    assert AppliedAll(Applied(devs, e, made, bases), [e][1..], made, bases) == Applied(devs, e, made, bases);
  }

  lemma AppliedAfterReset(devs: seq<E.Sys>, p: nat, e: Effect, made: E.Sys, bases: seq<Address>)
    ensures AppliedAll(devs, [PortReset(p)] + [e], made, bases) == Applied(devs, e, made, bases)
  {
    assert ([PortReset(p)] + [e])[1..] == [e];
    AppliedOne(devs, e, made, bases);
  }

  /** Ports and devices that a step does not touch stay linked. */
  lemma LinksStay(t: DeviceTable, t': DeviceTable, phases: seq<ConfigPhase>, phases': seq<ConfigPhase>,
          devs: seq<E.Sys>)
    requires |phases| == |phases'| == PORTS && LinksInv(t, phases, devs) && P.SamePlaces(t, t')
    requires forall p :: 0 <= p < PORTS && P.Rank(phases[p]) >= 4 ==> phases'[p] == phases[p]
    ensures LinksInv(t', phases', devs)
  {
    forall s | P.HasDevice(t', s) ensures LinkOk(devs[s], phases'[P.PortOf(t', s)]) {
      assert P.HasDevice(t, s) && LinkOk(devs[s], phases[P.PortOf(t, s)]);
    }
  }

  /** One device and its port move on together. */
  lemma LinkMoves(t: DeviceTable, t': DeviceTable, phases: seq<ConfigPhase>, phases': seq<ConfigPhase>,
          devs: seq<E.Sys>, s: Byte, dev: E.Sys)
    requires |phases| == |phases'| == PORTS && LinksInv(t, phases, devs) && P.HasDevice(t', s) &&
             LinkOk(dev, phases'[P.PortOf(t', s)])
    requires forall u :: u != s && P.HasDevice(t', u) ==>
             P.HasDevice(t, u) && P.PortOf(t, u) == P.PortOf(t', u) && P.PortOf(t', u) != P.PortOf(t', s)
    requires forall p :: 0 <= p < PORTS && p != P.PortOf(t', s) && P.Rank(phases[p]) >= 4 ==> phases'[p] == phases[p]
    ensures LinksInv(t', phases', devs[s := dev])
  {
    forall u | P.HasDevice(t', u) ensures LinkOk(devs[s := dev][u], phases'[P.PortOf(t', u)]) {
      if u != s { assert LinkOk(devs[u], phases[P.PortOf(t, u)]); }
    }
  }

  ghost predicate PortsDistinct(t: DeviceTable) {
    forall s, u :: P.HasDevice(t, s) && P.HasDevice(t, u) && s != u ==> P.PortOf(t, s) != P.PortOf(t, u)
  }

  lemma DevicesHaveTheirPorts(h: P.Host, maxPorts: Byte)
    requires P.Inv(h, maxPorts)
    ensures PortsDistinct(h.d.table) && DriverOk(h.d)
  {
  }

  lemma TiedGives(d: Driver, devs: seq<E.Sys>, answered: set<nat>)
    requires Tied(d, devs, answered)
    ensures |devs| == SLOTS && |d.phases| == PORTS && ResetsInv(d.phases, d.effects, answered)
  {
  }

  lemma DeviceIsLinked(d: Driver, devs: seq<E.Sys>, answered: set<nat>, s: Byte)
    requires Tied(d, devs, answered) && P.HasDevice(d.table, s)
    ensures |devs| == SLOTS && s < SLOTS && |d.phases| == PORTS
    ensures LinkOk(devs[s], d.phases[P.PortOf(d.table, s)]) && E.Inv(devs[s])
  {
    assert LinkOk(devs[s], d.phases[P.PortOf(d.table, s)]);
  }

  /** The port of one device moves on with it; besides, ports without devices may. */
  lemma LinkAdvances(t: DeviceTable, t': DeviceTable, phases: seq<ConfigPhase>, phases': seq<ConfigPhase>,
          devs: seq<E.Sys>, s: Byte, dev: E.Sys)
    requires |phases| == |phases'| == PORTS && LinksInv(t, phases, devs) && P.SamePlaces(t, t') && PortsDistinct(t)
    requires P.HasDevice(t, s) && LinkOk(dev, phases'[P.PortOf(t, s)])
    requires forall p :: 0 <= p < PORTS && p != P.PortOf(t, s) && P.Rank(phases[p]) >= 4 ==> phases'[p] == phases[p]
    ensures LinksInv(t', phases', devs[s := dev])
  {
    LinkMoves(t, t', phases, phases', devs, s, dev);
  }

  /** A port joins those that were reset exactly with a PortReset in the log. */
  lemma ResetsGrow(phases: seq<ConfigPhase>, phases': seq<ConfigPhase>, effects: seq<Effect>, news: seq<Effect>,
          answered: set<nat>)
    requires |phases| == |phases'| == PORTS && ResetsInv(phases, effects, answered)
    requires forall p :: 0 <= p < PORTS ==>
             (P.Rank(phases'[p]) >= 2 <==> P.Rank(phases[p]) >= 2 || PortReset(p) in news)
    ensures ResetsInv(phases', effects + news, answered)
  {
  }

  lemma ResetsAnswered(phases: seq<ConfigPhase>, effects: seq<Effect>, answered: set<nat>, port: nat)
    requires |phases| == PORTS && ResetsInv(phases, effects, answered) && PortReset(port) in effects
    ensures ResetsInv(phases, effects, answered + {port})
  {
  }

  // ---- sweeps and status changes touch no device ----

  predicate OnlyPorts(news: seq<Effect>) {
    news == [] || (|news| == 1 && (news[0].PortReset? || news[0].ResetChangeCleared?))
  }

  lemma PortsOnly(devs: seq<E.Sys>, news: seq<Effect>, made: E.Sys, bases: seq<Address>)
    requires OnlyPorts(news)
    ensures AppliedAll(devs, news, made, bases) == devs
  {
    if news != [] {
      assert news == [news[0]];
      AppliedOne(devs, news[0], made, bases);
    }
  }

  /** What is added to the log. */
  lemma PortNews(h: P.Host, maxPorts: Byte, hs: P.Step) returns (news: seq<Effect>)
    requires P.Inv(h, maxPorts) && P.Enabled(h, maxPorts, hs) && (hs.Sweep? || hs.PortStatus?)
    ensures var h' := P.After(h, maxPorts, hs);
            && OnlyPorts(news) && |h'.d.phases| == PORTS && h'.d.table == h.d.table &&
              h'.d.effects == h.d.effects + news
            && (forall p :: 0 <= p < PORTS && P.Rank(h.d.phases[p]) >= 4 ==> h'.d.phases[p] == h.d.phases[p])
            && forall p :: 0 <= p < PORTS ==>
                 (P.Rank(h'.d.phases[p]) >= 2 <==> P.Rank(h.d.phases[p]) >= 2 || PortReset(p) in news)
  {
    P.PortEffect(h, maxPorts, hs);
    var d, p, r := h.d, hs.port, hs.regs[hs.port];
    if d.phases[p] == NotConnected && r.connected && d.addressing == 0 {
      news := [PortReset(p)];
    } else if d.phases[p] == ResettingPort && hs.PortStatus? && r.enabled && r.resetChange {
      news := [ResetChangeCleared(p)];
    } else {
      news := [];
    }
  }

  lemma PortKeeps(h: P.Host, maxPorts: Byte, hs: P.Step, devs: seq<E.Sys>, answered: set<nat>, made: E.Sys)
    requires P.Inv(h, maxPorts) && P.Enabled(h, maxPorts, hs) && (hs.Sweep? || hs.PortStatus?)
    requires Tied(h.d, devs, answered)
    ensures var d' := P.After(h, maxPorts, hs).d; Tied(d', AppliedAll(devs, NewEffects(h.d, d'), made, []), answered)
    ensures var d' := P.After(h, maxPorts, hs).d;
            AppliedAll(devs, NewEffects(h.d, d'), made, []) == devs && h.d.effects <= d'.effects
  {
    var d, d' := h.d, P.After(h, maxPorts, hs).d;
    var news := PortNews(h, maxPorts, hs);
    NewEffectsAre(d, d', news);
    PortsOnly(devs, news, made, []);
    LinksStay(d.table, d'.table, d.phases, d'.phases, devs);
    ResetsGrow(d.phases, d'.phases, d.effects, news, answered);
  }

  lemma ExecuteKeeps(h: P.Host, maxPorts: Byte, hs: P.Step, devs: seq<E.Sys>, answered: set<nat>, made: E.Sys)
    requires P.Inv(h, maxPorts) && P.Enabled(h, maxPorts, hs) && hs.Execute? && Tied(h.d, devs, answered)
    ensures var d' := P.After(h, maxPorts, hs).d;
            Tied(d', AppliedAll(devs, NewEffects(h.d, d'), made, []), answered) &&
              AppliedAll(devs, NewEffects(h.d, d'), made, []) == devs
  {
    hide P.Inv, E.Inv, LinkOk, ResetsInv;
    var d, d' := h.d, P.After(h, maxPorts, hs).d;
    P.ExecuteEffect(h, maxPorts, hs);
    NewEffectsAre(d, d', []);
    LinksStay(d.table, d'.table, d.phases, d'.phases, devs);
  }

  // ---- commands that call into a device ----

  /** A port that is getting its slot has no device yet. */
  lemma NoDeviceBefore(h: P.Host, maxPorts: Byte)
    requires P.Inv(h, maxPorts) && h.d.phases[h.d.addressing] == EnablingSlot
    ensures forall u :: P.HasDevice(h.d.table, u) ==> P.PortOf(h.d.table, u) != h.d.addressing
  {
    forall u | P.HasDevice(h.d.table, u) ensures P.PortOf(h.d.table, u) != h.d.addressing {
      assert P.DeviceOk(h.d.table.devices[u].value, u, h.d.phases[P.PortOf(h.d.table, u)]);
    }
  }

  lemma NewIsLinked(made: E.Sys)
    requires E.Init(made)
    ensures LinkOk(made, AddressingDevice)
  {
    EP.InitInv(made);
  }

  /** Enable Slot completed: the slot's device is new. */
  lemma EnableSlotKeeps(h: P.Host, maxPorts: Byte, hs: P.Step, devs: seq<E.Sys>, answered: set<nat>, made: E.Sys)
    requires P.Inv(h, maxPorts) && P.Enabled(h, maxPorts, hs) && hs.Completion? && Tied(h.d, devs, answered)
    requires h.d.issued[h.done].command == EnableSlotCommand && E.Init(made)
    ensures var d' := P.After(h, maxPorts, hs).d; var devs' := AppliedAll(devs, NewEffects(h.d, d'), made, []);
            Tied(d', devs', answered) && h.results[0] < SLOTS && devs' == devs[h.results[0] := made]
  {
    hide P.Inv, E.Inv, E.Init, LinkOk, ResetsInv;
    var d, d', s := h.d, P.After(h, maxPorts, hs).d, h.results[0];
    P.EnableSlotEffect(h, maxPorts, hs);
    P.EnableSlotDevices(h, maxPorts, hs);
    NewEffectsAre(d, d', [Ep0RingAllocated(s)]);
    AppliedOne(devs, Ep0RingAllocated(s), made, []);
    NewIsLinked(made);
    NoDeviceBefore(h, maxPorts);
    LinkMoves(d.table, d'.table, d.phases, d'.phases, devs, s, made);
    ResetsGrow(d.phases, d'.phases, d.effects, [Ep0RingAllocated(s)], answered);
  }

  /** StartInitialize on the device whose address is set. */
  lemma Starts(devs: seq<E.Sys>, s: Byte)
    requires s < |devs| && LinkOk(devs[s], AddressingDevice)
    ensures E.Enabled(devs[s], E.Begin) && E.Safe(devs[s], E.Begin)
    ensures Stepped(devs, s, E.Begin) == devs[s := E.After(devs[s], E.Begin)]
    ensures LinkOk(E.After(devs[s], E.Begin), InitializingDevice)
  {
    EP.StepKeepsInv(devs[s], E.Begin);
    ET.StageAfter(devs[s], E.Begin);
  }

  /** The new effects of an Address Device completion, with or without a reset. */
  function StartEffects(reset: bool, port: nat, s: Byte): seq<Effect> {
    (if reset then [PortReset(port)] else []) + [EnumerationStarted(s)]
  }

  lemma StartApplied(devs: seq<E.Sys>, reset: bool, port: nat, s: Byte, made: E.Sys)
    ensures AppliedAll(devs, StartEffects(reset, port, s), made, []) == Stepped(devs, s, E.Begin)
    ensures forall p :: PortReset(p) in StartEffects(reset, port, s) <==> reset && p == port
  {
    if reset {
      AppliedAfterReset(devs, port, EnumerationStarted(s), made, []);
    } else {
      assert [] + [EnumerationStarted(s)] == [EnumerationStarted(s)];
      AppliedOne(devs, EnumerationStarted(s), made, []);
    }
  }

  lemma AddressDeviceNews(h: P.Host, maxPorts: Byte, hs: P.Step, s: Byte)
    requires P.Inv(h, maxPorts) && P.Enabled(h, maxPorts, hs) && hs.Completion?
    requires h.d.issued[h.done].command == AddressDeviceCommand(s)
    ensures var d, d', first := h.d, P.After(h, maxPorts, hs).d, FirstWaiting(h.d.phases, 0);
            var reset := first < PORTS && hs.regs[first].connected;
            && d'.effects == d.effects + StartEffects(reset, first, s) && |d'.phases| == PORTS
            && P.HasDevice(d.table, s) && P.SamePlaces(d.table, d'.table) &&
              d.phases[P.PortOf(d.table, s)] == AddressingDevice
            && d'.phases[P.PortOf(d.table, s)] == InitializingDevice
            && (forall p :: 0 <= p < PORTS && p != P.PortOf(d.table, s) && !(reset && p == first) ==>
              d'.phases[p] == d.phases[p])
            && (reset ==> d'.phases[first] == ResettingPort && d.phases[first] == WaitingAddressed)
  {
    P.AddressDeviceEffect(h, maxPorts, hs, s);
    P.AddressDeviceDevices(h, maxPorts, hs, s);
    var first := FirstWaiting(h.d.phases, 0);
    var reset := first < PORTS && hs.regs[first].connected;
    assert h.d.effects + (if reset then [PortReset(first)] else []) + [EnumerationStarted(s)] ==
      h.d.effects + StartEffects(reset, first, s);
  }

  lemma AddressDeviceKeeps(h: P.Host, maxPorts: Byte, hs: P.Step, devs: seq<E.Sys>, answered: set<nat>, made: E.Sys,
          s: Byte)
    requires P.Inv(h, maxPorts) && P.Enabled(h, maxPorts, hs) && hs.Completion? && Tied(h.d, devs, answered)
    requires h.d.issued[h.done].command == AddressDeviceCommand(s)
    ensures var d' := P.After(h, maxPorts, hs).d; var devs' := AppliedAll(devs, NewEffects(h.d, d'), made, []);
            && Tied(d', devs', answered) && s < |devs| && E.Enabled(devs[s], E.Begin) && E.Safe(devs[s], E.Begin)
            && devs' == devs[s := E.After(devs[s], E.Begin)]
  {
    hide P.Inv, E.Inv, E.After, E.Safe, Tied, PortsDistinct;
    AddressDeviceNews(h, maxPorts, hs, s);
    DevicesHaveTheirPorts(h, maxPorts);
    var first := FirstWaiting(h.d.phases, 0);
    var reset := first < PORTS && hs.regs[first].connected;
    NewEffectsAre(h.d, P.After(h, maxPorts, hs).d, StartEffects(reset, first, s));
    StartKeepsTied(h.d, P.After(h, maxPorts, hs).d, devs, answered, made, reset, first, s);
  }

  lemma StartKeepsTied(d: Driver, d': Driver, devs: seq<E.Sys>, answered: set<nat>, made: E.Sys, reset: bool,
          first: nat, s: Byte)
    requires Tied(d, devs, answered) && PortsDistinct(d.table) && P.SamePlaces(d.table, d'.table)
    requires P.HasDevice(d.table, s)
    requires |d'.phases| == PORTS && d'.effects == d.effects + StartEffects(reset, first, s)
    requires d.phases[P.PortOf(d.table, s)] == AddressingDevice && d'.phases[P.PortOf(d.table, s)] == InitializingDevice
    requires forall p :: 0 <= p < PORTS && p != P.PortOf(d.table, s) && !(reset && p == first) ==>
             d'.phases[p] == d.phases[p]
    requires reset ==> first < PORTS && d'.phases[first] == ResettingPort && d.phases[first] == WaitingAddressed
    ensures var devs' := AppliedAll(devs, StartEffects(reset, first, s), made, []);
            && Tied(d', devs', answered) && s < |devs| && E.Enabled(devs[s], E.Begin) && E.Safe(devs[s], E.Begin)
            && devs' == devs[s := E.After(devs[s], E.Begin)]
  {
    hide E.Inv, E.After, E.Safe, E.Enabled, LinkOk, ResetsInv, PortsDistinct, AppliedAll;
    DeviceIsLinked(d, devs, answered, s);
    TiedGives(d, devs, answered);
    Starts(devs, s);
    StartApplied(devs, reset, first, s, made);
    LinkAdvances(d.table, d'.table, d.phases, d'.phases, devs, s, E.After(devs[s], E.Begin));
    ResetsGrow(d.phases, d'.phases, d.effects, StartEffects(reset, first, s), answered);
  }

  /** OnEndpointsConfigured on the device whose endpoints are configured. */
  lemma Completes(devs: seq<E.Sys>, s: Byte)
    requires s < |devs| && LinkOk(devs[s], ConfiguringEndpoints)
    ensures E.Enabled(devs[s], E.Configured) && E.Safe(devs[s], E.Configured)
    ensures Stepped(devs, s, E.Configured) == devs[s := E.After(devs[s], E.Configured)]
    ensures LinkOk(E.After(devs[s], E.Configured), Configured)
  {
    EP.StepKeepsInv(devs[s], E.Configured);
    ET.StageAfter(devs[s], E.Configured);
  }

  lemma CompleteKeepsTied(d: Driver, d': Driver, devs: seq<E.Sys>, answered: set<nat>, made: E.Sys, s: Byte)
    requires Tied(d, devs, answered) && PortsDistinct(d.table) && d'.table == d.table && P.HasDevice(d.table, s)
    requires d'.effects == d.effects + [DriversConfigured(s)]
    requires d.phases[P.PortOf(d.table, s)] == ConfiguringEndpoints
    requires d'.phases == d.phases[P.PortOf(d.table, s) := Configured]
    ensures var devs' := AppliedAll(devs, [DriversConfigured(s)], made, []);
            && Tied(d', devs', answered) && s < |devs| && E.Enabled(devs[s], E.Configured) &&
              E.Safe(devs[s], E.Configured)
            && devs' == devs[s := E.After(devs[s], E.Configured)]
  {
    hide E.Inv, E.After, E.Safe, E.Enabled, LinkOk, ResetsInv, PortsDistinct, AppliedAll;
    DeviceIsLinked(d, devs, answered, s);
    TiedGives(d, devs, answered);
    Completes(devs, s);
    AppliedOne(devs, DriversConfigured(s), made, []);
    LinkAdvances(d.table, d'.table, d.phases, d'.phases, devs, s, E.After(devs[s], E.Configured));
    ResetsGrow(d.phases, d'.phases, d.effects, [DriversConfigured(s)], answered);
  }

  lemma ConfigureEndpointKeeps(h: P.Host, maxPorts: Byte, hs: P.Step, devs: seq<E.Sys>, answered: set<nat>,
          made: E.Sys, s: Byte)
    requires P.Inv(h, maxPorts) && P.Enabled(h, maxPorts, hs) && hs.Completion? && Tied(h.d, devs, answered)
    requires h.d.issued[h.done].command == ConfigureEndpointCommand(s)
    ensures var d' := P.After(h, maxPorts, hs).d; var devs' := AppliedAll(devs, NewEffects(h.d, d'), made, []);
            && Tied(d', devs', answered) && s < |devs| && E.Enabled(devs[s], E.Configured) &&
              E.Safe(devs[s], E.Configured)
            && devs' == devs[s := E.After(devs[s], E.Configured)]
  {
    P.ConfigureEndpointEffect(h, maxPorts, hs, s);
    DevicesHaveTheirPorts(h, maxPorts);
    NewEffectsAre(h.d, P.After(h, maxPorts, hs).d, [DriversConfigured(s)]);
    CompleteKeepsTied(h.d, P.After(h, maxPorts, hs).d, devs, answered, made, s);
  }

  // ---- transfer events ----

  /** The event initializes a device whose port waits for that, at a speed the driver knows. */
  predicate Initializes(d: Driver, s: Byte, outcome: TransferOutcome, regs: PortReadings)
    requires P.HasDevice(d.table, s) && |d.phases| == PORTS
  {
    var p := P.PortOf(d.table, s);
    outcome == TransferOutcome(Success, true) && d.phases[p] == InitializingDevice &&
      1 <= regs[p].speed <= SUPER_SPEED_PLUS
  }

  lemma TransferNews(h: P.Host, maxPorts: Byte, s: Byte, outcome: TransferOutcome, regs: PortReadings)
    requires P.Inv(h, maxPorts) && P.HasDevice(h.d.table, s)
    ensures var d, d' := h.d, P.After(h, maxPorts, P.Transfer(s, outcome, regs)).d;
            var news := if Initializes(d, s, outcome, regs) then [EndpointRingsAllocated(s)] else [];
            && |d'.phases| == PORTS && P.SamePlaces(d.table, d'.table) && d'.effects == d.effects + news &&
              NewEffects(d, d') == news
            && d'.phases == (if Initializes(d, s, outcome, regs)
              then d.phases[P.PortOf(d.table, s) := ConfiguringEndpoints] else d.phases)
  {
    P.TransferEffect(h, maxPorts, P.Transfer(s, outcome, regs));
    assert h.d.effects + [] == h.d.effects;
  }

  lemma EventKeepsDevice(dev: E.Sys, event: E.Step)
    requires E.Inv(dev) && DeviceEvent(dev, event)
    ensures E.Inv(E.After(dev, event)) && E.After(dev, event).stage == dev.stage
    ensures Outcome(dev, event).initialized == E.After(dev, event).u.initialized
  {
    EP.StepKeepsInv(dev, event);
    ET.StageAfter(dev, event);
  }

  lemma RingsAllocated(dev: E.Sys, bases: seq<Address>)
    requires E.Inv(dev) && dev.stage.Enumerating? && dev.u.initialized && |bases| == |dev.u.configs|
    ensures E.Enabled(dev, E.AllocRings(bases)) && E.Safe(dev, E.AllocRings(bases))
    ensures LinkOk(E.After(dev, E.AllocRings(bases)), ConfiguringEndpoints)
  {
    EP.StepKeepsInv(dev, E.AllocRings(bases));
    ET.StageAfter(dev, E.AllocRings(bases));
  }

  /** The device after the event, `dev`, gets its rings when it has become initialized. */
  lemma EventKeepsTied(d: Driver, d': Driver, devs: seq<E.Sys>, answered: set<nat>, made: E.Sys, s: Byte, dev: E.Sys,
                       bases: seq<Address>, initializes: bool)
    requires Tied(d, devs, answered) && PortsDistinct(d.table) && P.SamePlaces(d.table, d'.table)
    requires P.HasDevice(d.table, s)
    requires E.Inv(dev) && dev.stage == devs[s].stage && |bases| == |dev.u.configs|
    requires initializes ==> dev.u.initialized && d.phases[P.PortOf(d.table, s)] == InitializingDevice
    requires d'.phases == if initializes then d.phases[P.PortOf(d.table, s) := ConfiguringEndpoints] else d.phases
    requires d'.effects == d.effects + if initializes then [EndpointRingsAllocated(s)] else []
    ensures var news := if initializes then [EndpointRingsAllocated(s)] else [];
            var devs' := AppliedAll(devs[s := dev], news, made, bases);
            && Tied(d', devs', answered)
            && (initializes ==> E.Enabled(dev, E.AllocRings(bases)) && E.Safe(dev, E.AllocRings(bases)))
            && devs' == devs[s := if initializes then E.After(dev, E.AllocRings(bases)) else dev]
  {
    hide E.Inv, E.After, E.Safe, LinkOk, ResetsInv, PortsDistinct;
    DeviceIsLinked(d, devs, answered, s);
    TiedGives(d, devs, answered);
    AppliedOne(devs[s := dev], EndpointRingsAllocated(s), made, bases);
    if initializes {
      RingsAllocated(dev, bases);
      LinkAdvances(d.table, d'.table, d.phases, d'.phases, devs, s, E.After(dev, E.AllocRings(bases)));
      ResetsGrow(d.phases, d'.phases, d.effects, [EndpointRingsAllocated(s)], answered);
    } else {
      LinkAdvances(d.table, d'.table, d.phases, d'.phases, devs, s, dev);
      ResetsGrow(d.phases, d'.phases, d.effects, [], answered);
    }
  }

  lemma EventKeeps(h: P.Host, maxPorts: Byte, devs: seq<E.Sys>, answered: set<nat>, made: E.Sys, s: Byte, dev: E.Sys,
                   outcome: TransferOutcome, regs: PortReadings, bases: seq<Address>)
    requires P.Inv(h, maxPorts) && P.HasDevice(h.d.table, s) && Tied(h.d, devs, answered)
    requires E.Inv(dev) && dev.stage == devs[s].stage && |bases| == |dev.u.configs| &&
             outcome.initialized == dev.u.initialized
    ensures var d' := P.After(h, maxPorts, P.Transfer(s, outcome, regs)).d;
            var devs' := AppliedAll(devs[s := dev], NewEffects(h.d, d'), made, bases);
            var initializes := Initializes(h.d, s, outcome, regs);
            && Tied(d', devs', answered)
            && (initializes ==> E.Enabled(dev, E.AllocRings(bases)) && E.Safe(dev, E.AllocRings(bases)))
            && devs' == devs[s := if initializes then E.After(dev, E.AllocRings(bases)) else dev]
  {
    hide P.Inv, E.Inv, E.After, E.Safe, Tied, Initializes, PortsDistinct;
    TransferNews(h, maxPorts, s, outcome, regs);
    DevicesHaveTheirPorts(h, maxPorts);
    EventKeepsTied(h.d, P.After(h, maxPorts, P.Transfer(s, outcome, regs)).d, devs, answered, made, s, dev, bases,
                   Initializes(h.d, s, outcome, regs));
  }

  // ---- every step keeps the invariant ----

  lemma CommandKeeps(h: P.Host, maxPorts: Byte, hs: P.Step, devs: seq<E.Sys>, answered: set<nat>, made: E.Sys)
    requires P.Inv(h, maxPorts) && P.Enabled(h, maxPorts, hs) && hs.Completion? && Tied(h.d, devs, answered)
    requires E.Init(made)
    ensures var d' := P.After(h, maxPorts, hs).d; Tied(d', AppliedAll(devs, NewEffects(h.d, d'), made, []), answered)
  {
    match h.d.issued[h.done].command
    case EnableSlotCommand => EnableSlotKeeps(h, maxPorts, hs, devs, answered, made);
    case AddressDeviceCommand(s) => AddressDeviceKeeps(h, maxPorts, hs, devs, answered, made, s);
    case ConfigureEndpointCommand(s) => ConfigureEndpointKeeps(h, maxPorts, hs, devs, answered, made, s);
  }

  lemma StepKeepsTied(w: World, maxPorts: Byte, step: Step)
    requires Inv(w, maxPorts) && Enabled(w, maxPorts, step)
    ensures var w' := After(w, maxPorts, step); Tied(w'.h.d, w'.devs, w'.answered)
  {
    hide P.Inv, E.Inv, E.Init, LinkOk;
    var hs, made := HostStep(w, step), MadeBy(w, step);
    match step
    case Execute(_) => ExecuteKeeps(w.h, maxPorts, hs, w.devs, w.answered, made);
    case Event(s, event, regs, bases) =>
      DeviceIsLinked(w.h.d, w.devs, w.answered, s);
      EventKeepsDevice(w.devs[s], event);
      EventKeeps(w.h, maxPorts, w.devs, w.answered, made, s, E.After(w.devs[s], event), hs.outcome, regs, bases);
    case Command(_, _, _) => CommandKeeps(w.h, maxPorts, hs, w.devs, w.answered, made);
    case ResetDone(port, _) =>
      PortKeeps(w.h, maxPorts, hs, w.devs, w.answered, made);
      ResetsAnswered(P.After(w.h, maxPorts, hs).d.phases, P.After(w.h, maxPorts, hs).d.effects, w.answered, port);
    case _ => PortKeeps(w.h, maxPorts, hs, w.devs, w.answered, made);
  }

  lemma StepKeepsInv(w: World, maxPorts: Byte, step: Step)
    requires Inv(w, maxPorts) && Enabled(w, maxPorts, step)
    ensures Inv(After(w, maxPorts, step), maxPorts)
  {
    P.StepKeepsInv(w.h, maxPorts, HostStep(w, step));
    StepKeepsTied(w, maxPorts, step);
  }

  lemma {:induction false} RunKeepsInv(ws: seq<World>, steps: seq<Step>, maxPorts: Byte, i: nat)
    requires Run(ws, steps, maxPorts) && i < |ws|
    ensures Inv(ws[i], maxPorts)
  {
    hide Init, Inv, Enabled, After;
    if i == 0 {
      InitInv(ws[0], maxPorts);
    } else {
      RunKeepsInv(ws, steps, maxPorts, i - 1);
      StepKeepsInv(ws[i - 1], maxPorts, steps[i - 1]);
      assert ws[(i - 1) + 1] == After(ws[i - 1], maxPorts, steps[i - 1]);
    }
  }
}
