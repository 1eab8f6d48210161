/**
 * The port configuration protocol: the driver of PortConfig against a host controller that executes commands
 * in order and answers each with one successful completion (section 4.3 of the xHCI specification).
 */
module PortProtocol {
  import opened Wrappers
  import opened Trbs
  import opened Rings
  import opened DeviceManagers
  import opened PortConfig
  import RingProtocol

  /**
   * `done` counts the commands whose completion event the driver has handled; `results` are the slot ids in the
   * completion events that the controller has posted for the commands after those.
   */
  datatype Host = Host(d: Driver, done: nat, results: seq<Byte>)

  predicate Init(h: Host) {
    && DriverOk(h.d)
    && (forall p :: 0 <= p < PORTS ==> h.d.phases[p] == NotConnected)
    && h.d.addressing == 0
    && (forall s :: 0 <= s <= MAX_SLOTS ==> h.d.table.devices[s] == None)
    && (forall s :: 1 <= s <= MAX_SLOTS ==> h.d.table.contexts[s] == None)
    && |h.d.ring.mem| == 32 && RingProtocol.Init(RingProtocol.Fresh(h.d.ring))
    && h.d.issued == [] && h.d.effects == [] && h.done == 0 && h.results == []
  }

  // ---- steps ----

  datatype Step =
    | Sweep(port: Byte, regs: PortReadings)
    | PortStatus(port: Byte, regs: PortReadings)
    | Transfer(slotId: Byte, outcome: TransferOutcome, regs: PortReadings)
    | Execute(slotId: Byte)
    | Completion(regs: PortReadings, place: Placement)

  /** A slot id the controller may give out: enabled slots are 1..8 and this one has no device. */
  predicate FreshSlot(d: Driver, slotId: Byte)
    requires DriverOk(d)
  {
    1 <= slotId <= MAX_SLOTS && d.table.devices[slotId] == None
  }

  /** The environment's side of each step: what may happen in h. */
  predicate Enabled(h: Host, maxPorts: Byte, step: Step) {
    && DriverOk(h.d)
    && match step
       case Sweep(port, _) => 1 <= port <= maxPorts
       case PortStatus(port, _) => 1 <= port <= maxPorts
       case Transfer(_, _, _) => true
       case Execute(slotId) =>
         && h.done + |h.results| < |h.d.issued|
         && (match h.d.issued[h.done + |h.results|].command
             case EnableSlotCommand => FreshSlot(h.d, slotId)
             case AddressDeviceCommand(s) => slotId == s
             case ConfigureEndpointCommand(s) => slotId == s)
       case Completion(_, _) => h.results != [] && h.done < |h.d.issued| && h.d.issued[h.done].index < |h.d.ring.mem|
  }

  /** Address Device copies the input slot context to the device's own (section 4.6.5). */
  function Executed(d: Driver, c: Command): Driver
    requires DriverOk(d)
  {
    match c
    case AddressDeviceCommand(s) =>
      (match FindBySlot(d.table, s)
       case Some(dev) => SetDevice(d, s, dev.(outputPort := dev.inputPort))
       case None => d)
    case _ => d
  }

  function After(h: Host, maxPorts: Byte, step: Step): Host
    requires Enabled(h, maxPorts, step)
  {
    match step
    case Sweep(port, regs) => h.(d := ConfigurePort(h.d, port, regs).0)
    case PortStatus(port, regs) => h.(d := OnPortStatusChange(h.d, port, regs).0)
    case Transfer(slotId, outcome, regs) => h.(d := OnTransferEvent(h.d, slotId, outcome, regs).0)
    case Execute(slotId) =>
      Host(Executed(h.d, h.d.issued[h.done + |h.results|].command), h.done, h.results + [slotId])
    case Completion(regs, place) =>
      Host(OnCommandCompletion(h.d, h.d.issued[h.done].index, h.results[0], regs, place).0, h.done + 1, h.results[1..])
  }

  // ---- invariant ----

  predicate Critical(phase: ConfigPhase) {
    phase == ResettingPort || phase == EnablingSlot || phase == AddressingDevice
  }

  /** At most one port between reset and address assignment, and addressing_port names it. */
  ghost predicate LockInv(phases: seq<ConfigPhase>, addressing: nat, maxPorts: Byte)
    requires |phases| == PORTS
  {
    && addressing <= maxPorts
    && (forall p :: 0 <= p < PORTS ==> (Critical(phases[p]) <==> (p == addressing && p != 0)))
    && (forall p :: 0 <= p < PORTS && phases[p] != NotConnected ==> 1 <= p <= maxPorts)
  }

  function Rank(phase: ConfigPhase): nat {
    match phase
    case NotConnected => 0
    case WaitingAddressed => 1
    case ResettingPort => 2
    case EnablingSlot => 3
    case AddressingDevice => 4
    case InitializingDevice => 5
    case ConfiguringEndpoints => 6
    case Configured => 7
  }

  predicate HasDevice(t: DeviceTable, s: int) {
    1 <= s <= MAX_SLOTS && s < |t.devices| && t.devices[s].Some?
  }

  function PortOf(t: DeviceTable, s: int): Byte
    requires HasDevice(t, s)
  {
    t.devices[s].value.inputPort
  }

  predicate DeviceOk(dev: DeviceRecord, s: int, phase: ConfigPhase) {
    && dev.slotId == s && dev.inputPort != 0 && Rank(phase) >= 4
    && (dev.outputPort == dev.inputPort || (dev.outputPort == 0 && phase == AddressingDevice))
  }

  ghost predicate DevicesInv(t: DeviceTable, phases: seq<ConfigPhase>)
    requires |phases| == PORTS
  {
    && TableOk(t) && |t.devices| == MAX_SLOTS + 1 && t.devices[0] == None
    && (forall s :: HasDevice(t, s) ==> DeviceOk(t.devices[s].value, s, phases[PortOf(t, s)]))
    && (forall s, u :: HasDevice(t, s) && HasDevice(t, u) && PortOf(t, s) == PortOf(t, u) ==> s == u)
  }

  /** A slot with a device points at that device's context, every other slot at nothing. */
  predicate ContextsInv(t: DeviceTable) {
    && TableOk(t) && |t.devices| == MAX_SLOTS + 1
    && forall s :: 1 <= s <= MAX_SLOTS ==>
         t.contexts[s] == if t.devices[s].Some? then Some(t.devices[s].value.context) else None
  }

  /** Every port from kAddressingDevice onward has a device. */
  ghost predicate PortsInv(t: DeviceTable, phases: seq<ConfigPhase>) {
    forall p :: 0 <= p < |phases| && Rank(phases[p]) >= 4 ==> exists s :: HasDevice(t, s) && PortOf(t, s) == p
  }

  /** What an outstanding command says about the state; `executed` once the controller has posted its event. */
  predicate CommandOk(phases: seq<ConfigPhase>, addressing: nat, t: DeviceTable, c: Command, executed: bool,
          result: Byte)
    requires |phases| == PORTS && addressing < PORTS
  {
    match c
    case EnableSlotCommand =>
      phases[addressing] == EnablingSlot && (executed ==> 1 <= result <= MAX_SLOTS && !HasDevice(t, result))
    case AddressDeviceCommand(s) =>
      && HasDevice(t, s) && PortOf(t, s) == addressing && phases[addressing] == AddressingDevice
      && (executed ==> result == s && t.devices[s].value.outputPort == addressing)
    case ConfigureEndpointCommand(s) =>
      && HasDevice(t, s) && phases[PortOf(t, s)] == ConfiguringEndpoints
      && (executed ==> result == s)
  }

  /** Commands with the same key are never outstanding together. */
  function Key(c: Command): nat {
    match c
    case EnableSlotCommand => 0
    case AddressDeviceCommand(_) => 0
    case ConfigureEndpointCommand(s) => s
  }

  predicate WasExecuted(h: Host, k: nat) { k < h.done + |h.results| }

  function ResultOf(h: Host, k: nat): Byte {
    if h.done <= k < h.done + |h.results| then h.results[k - h.done] else 0
  }

  ghost predicate CommandsInv(h: Host)
    requires DriverOk(h.d)
  {
    && h.done + |h.results| <= |h.d.issued|
    && (forall k :: h.done <= k < |h.d.issued| ==>
          CommandOk(h.d.phases, h.d.addressing, h.d.table, h.d.issued[k].command, WasExecuted(h, k), ResultOf(h, k)))
  }

  ghost predicate KeysInv(issued: seq<Issued>, done: nat) {
    forall j, k :: done <= j < k < |issued| ==> Key(issued[j].command) != Key(issued[k].command)
  }

  /** Some outstanding command is c. */
  predicate Pending(issued: seq<Issued>, done: nat, c: Command) {
    exists k :: done <= k < |issued| && issued[k].command == c
  }

  /** The state waits for the completion of command c. */
  predicate Awaits(phases: seq<ConfigPhase>, addressing: nat, t: DeviceTable, c: Command)
    requires |phases| == PORTS && addressing < PORTS
  {
    match c
    case EnableSlotCommand => phases[addressing] == EnablingSlot
    case AddressDeviceCommand(s) => HasDevice(t, s) && phases[PortOf(t, s)] == AddressingDevice
    case ConfigureEndpointCommand(s) => HasDevice(t, s) && phases[PortOf(t, s)] == ConfiguringEndpoints
  }

  /** Every command whose completion the state waits for is outstanding. */
  ghost predicate PendingInv(d: Driver, done: nat)
    requires DriverOk(d)
  {
    forall c :: Awaits(d.phases, d.addressing, d.table, c) ==> Pending(d.issued, done, c)
  }

  function PushedTrbs(issued: seq<Issued>): seq<Trb> {
    seq(|issued|, i requires 0 <= i < |issued| => issued[i].trb)
  }

  /** The command ring holds what was pushed, each command where the log says. */
  ghost predicate RingInv(ring: RingState, issued: seq<Issued>) {
    && |ring.mem| == 32
    && RingProtocol.ProducerInv(RingProtocol.Producer(ring, [], PushedTrbs(issued)))
    && (forall k :: 0 <= k < |issued| ==> TypeOf(issued[k].trb) == CommandType(issued[k].command))
    && (forall k :: 0 <= k < |issued| && |issued| - k <= 31 ==>
          issued[k].index == RingProtocol.Back(32, ring.writeIndex, |issued| - k))
  }

  ghost predicate StateInv(d: Driver, maxPorts: Byte) {
    && DriverOk(d) && LockInv(d.phases, d.addressing, maxPorts)
    && DevicesInv(d.table, d.phases) && ContextsInv(d.table) && PortsInv(d.table, d.phases)
  }

  ghost predicate Inv(h: Host, maxPorts: Byte) {
    && StateInv(h.d, maxPorts)
    && CommandsInv(h) && KeysInv(h.d.issued, h.done) && PendingInv(h.d, h.done)
    && RingInv(h.d.ring, h.d.issued)
  }

  lemma InvGivesDriverOk(h: Host, maxPorts: Byte)
    requires Inv(h, maxPorts)
    ensures DriverOk(h.d) && ContextsInv(h.d.table)
  {
  }

  lemma InitInv(h: Host, maxPorts: Byte)
    requires Init(h)
    ensures Inv(h, maxPorts)
  {
    forall s ensures !HasDevice(h.d.table, s) {
    }
    forall c ensures !Awaits(h.d.phases, h.d.addressing, h.d.table, c) {
    }
    RingProtocol.InitInv(RingProtocol.Fresh(h.d.ring));
    assert PushedTrbs(h.d.issued) == [];
  }

  /** The invariant does not look at the log of effects. */
  lemma EffectsAside(h: Host, maxPorts: Byte, effects: seq<Effect>)
    requires Inv(h, maxPorts)
    ensures Inv(h.(d := h.d.(effects := effects)), maxPorts)
  {
    var h' := h.(d := h.d.(effects := effects));
    forall k | h'.done <= k < |h'.d.issued|
      ensures CommandOk(h'.d.phases, h'.d.addressing, h'.d.table, h'.d.issued[k].command, WasExecuted(h', k),
              ResultOf(h', k))
    {
      assert CommandOk(h.d.phases, h.d.addressing, h.d.table, h.d.issued[k].command, WasExecuted(h, k), ResultOf(h, k));
    }
  }

  // ---- at most nine commands are outstanding ----

  /** Distinct keys below n+1 cannot be more than n+1. */
  lemma {:induction false} DistinctBounded(keys: seq<int>, n: nat)
    requires forall i :: 0 <= i < |keys| ==> 0 <= keys[i] < n
    requires forall i, j :: 0 <= i < j < |keys| ==> keys[i] != keys[j]
    ensures |keys| <= n
    decreases n
  {
    if |keys| > 0 {
      assert 0 <= keys[0] < n;
      var rest := keys;
      if i :| 0 <= i < |keys| && keys[i] == n - 1 {
        rest := keys[..i] + keys[i + 1..];
      }
      if rest == keys {
        DistinctBounded(keys, n - 1);
      } else {
        DistinctBounded(rest, n - 1);
      }
    }
  }

  lemma KeyBelowNine(h: Host, k: nat)
    requires DriverOk(h.d) && CommandsInv(h) && h.done <= k < |h.d.issued|
    ensures Key(h.d.issued[k].command) < 9
  {
    assert CommandOk(h.d.phases, h.d.addressing, h.d.table, h.d.issued[k].command, WasExecuted(h, k), ResultOf(h, k));
  }

  /** One Enable Slot or Address Device command, and one Configure Endpoint command for each of 8 slots. */
  lemma AtMostNineOutstanding(h: Host)
    requires DriverOk(h.d) && CommandsInv(h) && KeysInv(h.d.issued, h.done)
    ensures |h.d.issued| - h.done <= 9
  {
    var n := |h.d.issued| - h.done;
    var keys := seq(n, i requires 0 <= i < n => Key(h.d.issued[h.done + i].command));
    forall i | 0 <= i < n ensures 0 <= keys[i] < 9 {
      KeyBelowNine(h, h.done + i);
    }
    forall i, j | 0 <= i < j < n ensures keys[i] != keys[j] {
      assert Key(h.d.issued[h.done + i].command) != Key(h.d.issued[h.done + j].command);
    }
    DistinctBounded(keys, 9);
  }

  /** The completion event's command ring entry still holds the TRB of the command it answers. */
  lemma IssuerReadBack(h: Host, maxPorts: Byte)
    requires Inv(h, maxPorts) && h.done < |h.d.issued|
    ensures h.d.issued[h.done].index < |h.d.ring.mem|
    ensures TypeOf(h.d.ring.mem[h.d.issued[h.done].index]) == CommandType(h.d.issued[h.done].command)
  {
    hide LockInv, DevicesInv, ContextsInv, PortsInv, PendingInv, CommandsInv, KeysInv;
    AtMostNineOutstanding(h);
    var d := |h.d.issued| - h.done;
    var p := RingProtocol.Producer(h.d.ring, [], PushedTrbs(h.d.issued));
    assert RingProtocol.VisIndex(p) == h.d.ring.writeIndex && RingProtocol.VisCount(p) == |h.d.issued|;
    assert p.sent[|h.d.issued| - d] == h.d.issued[h.done].trb;
    var i := RingProtocol.Back(|p.ring.mem|, h.d.ring.writeIndex, d);
    assert SameButCycle(p.ring.mem[i], p.sent[|h.d.issued| - d]);
    SameButCycleReads(p.ring.mem[i], p.sent[|h.d.issued| - d]);
  }

  // ---- every step keeps the invariant ----

  lemma IssueKeepsRing(d: Driver, c: Command, inputContext: Address)
    requires DriverOk(d) && RingInv(d.ring, d.issued)
    ensures var d' := Issue(d, c, inputContext); RingInv(d'.ring, d'.issued)
  {
    var t := CommandTrb(c, inputContext);
    RingProtocol.PushedKeepsProducerInv(d.ring, PushedTrbs(d.issued), t);
    assert PushedTrbs(Issue(d, c, inputContext).issued) == PushedTrbs(d.issued) + [t];
  }

  /** One more command: what was outstanding stays outstanding, and the new one is. */
  lemma IssueKeepsPending(issued: seq<Issued>, done: nat, i: Issued)
    requires done <= |issued|
    ensures Pending(issued + [i], done, i.command)
    ensures forall c :: Pending(issued, done, c) ==> Pending(issued + [i], done, c)
  {
    assert (issued + [i])[|issued|] == i;
    forall c | Pending(issued, done, c) ensures Pending(issued + [i], done, c) {
      var k :| done <= k < |issued| && issued[k].command == c;
      assert (issued + [i])[k] == issued[k];
    }
  }

  /** Nobody holds the lock: no Enable Slot or Address Device command is outstanding. */
  lemma FreeLockNoCommand(h: Host, maxPorts: Byte, k: nat)
    requires Inv(h, maxPorts) && h.d.addressing == 0 && h.done <= k < |h.d.issued|
    ensures h.d.issued[k].command.ConfigureEndpointCommand?
  {
    assert CommandOk(h.d.phases, h.d.addressing, h.d.table, h.d.issued[k].command, WasExecuted(h, k), ResultOf(h, k));
  }

  /** ResetPort on a port that is not configured yet, with or without the lock free. */
  lemma ResetKeepsState(d: Driver, maxPorts: Byte, port: Byte, regs: PortReadings)
    requires StateInv(d, maxPorts) && 1 <= port <= maxPorts
    requires d.phases[port] == NotConnected || (d.phases[port] == WaitingAddressed && d.addressing == 0)
    ensures StateInv(ResetPort(d, port, regs).0, maxPorts)
    ensures ResetPort(d, port, regs).1 == Success
  {
    var d' := ResetPort(d, port, regs).0;
    forall p | 0 <= p < PORTS && Rank(d'.phases[p]) >= 4
      ensures exists s :: HasDevice(d.table, s) && PortOf(d.table, s) == p
    {
      assert d'.phases[p] == d.phases[p];
    }
  }

  lemma ResetKeepsInv(h: Host, maxPorts: Byte, port: Byte, regs: PortReadings)
    requires Inv(h, maxPorts) && 1 <= port <= maxPorts
    requires h.d.phases[port] == NotConnected || (h.d.phases[port] == WaitingAddressed && h.d.addressing == 0)
    ensures Inv(h.(d := ResetPort(h.d, port, regs).0), maxPorts)
  {
    hide RingInv, ContextsInv, PortsInv, DevicesInv;
    ResetKeepsState(h.d, maxPorts, port, regs);
    var h' := h.(d := ResetPort(h.d, port, regs).0);
    forall k | h'.done <= k < |h'.d.issued|
      ensures CommandOk(h'.d.phases, h'.d.addressing, h'.d.table, h'.d.issued[k].command, WasExecuted(h', k),
              ResultOf(h', k))
    {
      if h.d.addressing == 0 { FreeLockNoCommand(h, maxPorts, k); }
      assert CommandOk(h.d.phases, h.d.addressing, h.d.table, h.d.issued[k].command, WasExecuted(h, k), ResultOf(h, k));
    }
  }

  /** Pushing command c when everything but its own pending entry is in order. */
  lemma IssueKeepsInv(h: Host, maxPorts: Byte, c: Command, inputContext: Address)
    requires StateInv(h.d, maxPorts) && CommandsInv(h) && KeysInv(h.d.issued, h.done) && RingInv(h.d.ring, h.d.issued)
    requires CommandOk(h.d.phases, h.d.addressing, h.d.table, c, false, 0)
    requires forall k :: h.done <= k < |h.d.issued| ==> Key(h.d.issued[k].command) != Key(c)
    requires forall a :: Awaits(h.d.phases, h.d.addressing, h.d.table, a) ==> a == c || Pending(h.d.issued, h.done, a)
    ensures Inv(h.(d := Issue(h.d, c, inputContext)), maxPorts)
  {
    var h' := h.(d := Issue(h.d, c, inputContext));
    var i := h'.d.issued[|h.d.issued|];
    IssueKeepsRing(h.d, c, inputContext);
    IssueKeepsPending(h.d.issued, h.done, i);
    KeysGrow(h, i);
    IssueKeepsCommands(h, c, inputContext);
  }

  lemma IssueKeepsCommands(h: Host, c: Command, inputContext: Address)
    requires DriverOk(h.d) && CommandsInv(h)
    requires CommandOk(h.d.phases, h.d.addressing, h.d.table, c, false, 0)
    ensures CommandsInv(h.(d := Issue(h.d, c, inputContext)))
  {
    var h' := h.(d := Issue(h.d, c, inputContext));
    forall k | h'.done <= k < |h'.d.issued|
      ensures CommandOk(h'.d.phases, h'.d.addressing, h'.d.table, h'.d.issued[k].command, WasExecuted(h', k),
              ResultOf(h', k))
    {
      if k < |h.d.issued| {
        assert CommandOk(h.d.phases, h.d.addressing, h.d.table, h.d.issued[k].command, WasExecuted(h, k),
          ResultOf(h, k));
      }
    }
  }

  lemma EnableKeepsInv(h: Host, maxPorts: Byte, port: Byte, regs: PortReadings)
    requires Inv(h, maxPorts) && h.d.phases[port] == ResettingPort
    ensures Inv(h.(d := EnableSlot(h.d, port, regs).0), maxPorts)
  {
    hide RingInv, ContextsInv, PortsInv, DevicesInv;
    if regs[port].enabled && regs[port].resetChange {
      var h1 := h.(d := SetPhase(h.d, port, EnablingSlot));
      EnableKeepsState(h.d, maxPorts, port);
      forall k | h.done <= k < |h.d.issued|
        ensures h.d.issued[k].command.ConfigureEndpointCommand? && Key(h.d.issued[k].command) != 0
        ensures CommandOk(h1.d.phases, h1.d.addressing, h1.d.table, h1.d.issued[k].command, WasExecuted(h1, k),
                ResultOf(h1, k))
      {
        assert CommandOk(h.d.phases, h.d.addressing, h.d.table, h.d.issued[k].command, WasExecuted(h, k),
          ResultOf(h, k));
      }
      forall a | Awaits(h1.d.phases, h1.d.addressing, h1.d.table, a)
        ensures a == EnableSlotCommand || Pending(h.d.issued, h.done, a)
      {
        if a != EnableSlotCommand { assert Awaits(h.d.phases, h.d.addressing, h.d.table, a); }
      }
      IssueKeepsInv(h1, maxPorts, EnableSlotCommand, 0);
    }
  }

  lemma EnableKeepsState(d: Driver, maxPorts: Byte, port: Byte)
    requires StateInv(d, maxPorts) && d.phases[port] == ResettingPort
    ensures StateInv(SetPhase(d, port, EnablingSlot), maxPorts)
  {
    var phases' := d.phases[port := EnablingSlot];
    forall p | 0 <= p < PORTS && Rank(phases'[p]) >= 4
      ensures exists s :: HasDevice(d.table, s) && PortOf(d.table, s) == p
    {
      assert phases'[p] == d.phases[p];
    }
  }

  /** A command whose key no outstanding command has. */
  lemma KeysGrow(h: Host, i: Issued)
    requires h.done <= |h.d.issued| && KeysInv(h.d.issued, h.done)
    requires forall k :: h.done <= k < |h.d.issued| ==> Key(h.d.issued[k].command) != Key(i.command)
    ensures KeysInv(h.d.issued + [i], h.done)
  {
  }

  // ---- transfer events ----

  /** Storing is_initialized_ in a device record changes nothing else. */
  lemma InitializedFlagKeepsInv(h: Host, maxPorts: Byte, slotId: Byte, flag: bool)
    requires Inv(h, maxPorts) && HasDevice(h.d.table, slotId)
    ensures Inv(h.(d := SetDevice(h.d, slotId, h.d.table.devices[slotId].value.(initialized := flag))), maxPorts)
  {
    var t := h.d.table;
    var t' := t.(devices := t.devices[slotId := Some(t.devices[slotId].value.(initialized := flag))]);
    SameDevicesKeepInv(h, maxPorts, t');
  }

  predicate SameDevices(t: DeviceTable, t': DeviceTable) {
    && |t'.devices| == |t.devices| && t'.contexts == t.contexts
    && forall s :: 0 <= s < |t.devices| ==>
         && t'.devices[s].Some? == t.devices[s].Some?
         && (t.devices[s].Some? ==>
               var dev, dev' := t.devices[s].value, t'.devices[s].value;
               dev'.(initialized := false) == dev.(initialized := false))
  }

  lemma SameDevicesKeepInv(h: Host, maxPorts: Byte, t': DeviceTable)
    requires Inv(h, maxPorts) && SameDevices(h.d.table, t')
    ensures Inv(h.(d := h.d.(table := t')), maxPorts)
  {
    var t := h.d.table;
    forall s ensures HasDevice(t', s) == HasDevice(t, s) && (HasDevice(t, s) ==> PortOf(t', s) == PortOf(t, s)) {
    }
    var h' := h.(d := h.d.(table := t'));
    forall k | h'.done <= k < |h'.d.issued|
      ensures CommandOk(h'.d.phases, h'.d.addressing, t', h'.d.issued[k].command, WasExecuted(h', k), ResultOf(h', k))
    {
      assert CommandOk(h.d.phases, h.d.addressing, t, h.d.issued[k].command, WasExecuted(h, k), ResultOf(h, k));
    }
    forall p | 0 <= p < PORTS && Rank(h.d.phases[p]) >= 4 ensures exists s :: HasDevice(t', s) && PortOf(t', s) == p {
      var s :| HasDevice(t, s) && PortOf(t, s) == p;
      assert HasDevice(t', s) && PortOf(t', s) == p;
    }
  }

  /** A port that goes on to configuring its endpoints does not disturb the commands outstanding. */
  lemma ConfigureKeepsCommands(h: Host, maxPorts: Byte, slotId: Byte, port: nat)
    requires Inv(h, maxPorts) && HasDevice(h.d.table, slotId) && PortOf(h.d.table, slotId) == port && port < PORTS
    requires h.d.phases[port] == InitializingDevice
    ensures var phases := h.d.phases[port := ConfiguringEndpoints];
            forall k :: h.done <= k < |h.d.issued| ==>
              && CommandOk(phases, h.d.addressing, h.d.table, h.d.issued[k].command, WasExecuted(h, k), ResultOf(h, k))
              && Key(h.d.issued[k].command) != slotId
    ensures forall a :: Awaits(h.d.phases[port := ConfiguringEndpoints], h.d.addressing, h.d.table, a) ==>
              a == ConfigureEndpointCommand(slotId) || Pending(h.d.issued, h.done, a)
  {
    var d, t := h.d, h.d.table;
    var phases := d.phases[port := ConfiguringEndpoints];
    forall k | h.done <= k < |d.issued|
      ensures CommandOk(phases, d.addressing, t, d.issued[k].command, WasExecuted(h, k), ResultOf(h, k))
      ensures Key(d.issued[k].command) != slotId
    {
      assert CommandOk(d.phases, d.addressing, t, d.issued[k].command, WasExecuted(h, k), ResultOf(h, k));
    }
    forall a | Awaits(phases, d.addressing, t, a)
      ensures a == ConfigureEndpointCommand(slotId) || Pending(d.issued, h.done, a)
    {
      if a != ConfigureEndpointCommand(slotId) { assert Awaits(d.phases, d.addressing, t, a); }
    }
  }

  /** ConfigureEndpoints in terms of the port in the input context, which the output context repeats. */
  lemma ConfigureEffect(d: Driver, maxPorts: Byte, slotId: Byte, regs: PortReadings)
    requires StateInv(d, maxPorts) && HasDevice(d.table, slotId) && Rank(d.phases[PortOf(d.table, slotId)]) >= 5
    ensures d.table.devices[slotId].value.outputPort == PortOf(d.table, slotId)
    ensures var port := PortOf(d.table, slotId);
            ConfigureEndpoints(d, slotId, regs) ==
              if regs[port].speed == 0 || regs[port].speed > SUPER_SPEED_PLUS then (d, UnknownXHCISpeedID)
              else (Issue(WithEffect(SetPhase(d, port, ConfiguringEndpoints), EndpointRingsAllocated(slotId)),
                          ConfigureEndpointCommand(slotId), d.table.devices[slotId].value.inputContext), Success)
  {
    var t := d.table;
    var dev := t.devices[slotId].value;
    assert DeviceOk(dev, slotId, d.phases[PortOf(t, slotId)]);
    assert t.devices[slotId := Some(dev.(inputPort := dev.outputPort))] == t.devices;
  }

  /** ConfigureEndpoints for a device whose enumeration is done. */
  lemma ConfigureKeepsInv(h: Host, maxPorts: Byte, slotId: Byte, regs: PortReadings)
    requires Inv(h, maxPorts) && HasDevice(h.d.table, slotId)
    requires h.d.phases[PortOf(h.d.table, slotId)] == InitializingDevice
    ensures Inv(h.(d := ConfigureEndpoints(h.d, slotId, regs).0), maxPorts)
  {
    ConfigureEffect(h.d, maxPorts, slotId, regs);
    var port := PortOf(h.d.table, slotId);
    if !(regs[port].speed == 0 || regs[port].speed > SUPER_SPEED_PLUS) {
      ConfigureIssueKeepsInv(h, maxPorts, slotId, h.d.table.devices[slotId].value.inputContext);
    }
  }

  lemma ConfigureIssueKeepsInv(h: Host, maxPorts: Byte, slotId: Byte, inputContext: Address)
    requires Inv(h, maxPorts) && HasDevice(h.d.table, slotId)
    requires h.d.phases[PortOf(h.d.table, slotId)] == InitializingDevice
    ensures var d1 := WithEffect(SetPhase(h.d, PortOf(h.d.table, slotId), ConfiguringEndpoints),
            EndpointRingsAllocated(slotId));
            Inv(h.(d := Issue(d1, ConfigureEndpointCommand(slotId), inputContext)), maxPorts)
  {
    var port := PortOf(h.d.table, slotId);
    AdvanceKeepsState(h.d, maxPorts, port, ConfiguringEndpoints);
    ConfigureKeepsCommands(h, maxPorts, slotId, port);
    var h1 := h.(d := WithEffect(SetPhase(h.d, port, ConfiguringEndpoints), EndpointRingsAllocated(slotId)));
    forall k | h1.done <= k < |h1.d.issued|
      ensures CommandOk(h1.d.phases, h1.d.addressing, h1.d.table, h1.d.issued[k].command, WasExecuted(h1, k),
              ResultOf(h1, k))
    {
      assert WasExecuted(h1, k) == WasExecuted(h, k) && ResultOf(h1, k) == ResultOf(h, k);
    }
    IssueKeepsInv(h1, maxPorts, ConfigureEndpointCommand(slotId), inputContext);
  }

  /** A port past the lock moves on to a later phase. */
  lemma AdvanceKeepsState(d: Driver, maxPorts: Byte, port: nat, phase: ConfigPhase)
    requires StateInv(d, maxPorts) && port < PORTS && Rank(d.phases[port]) >= 5 && Rank(phase) >= 5
    ensures StateInv(SetPhase(d, port, phase), maxPorts)
  {
    var phases' := d.phases[port := phase];
    forall p | 0 <= p < PORTS && Rank(phases'[p]) >= 4
      ensures exists s :: HasDevice(d.table, s) && PortOf(d.table, s) == p
    {
      assert Rank(d.phases[p]) >= 4;
    }
  }

  lemma TransferKeepsInv(h: Host, maxPorts: Byte, slotId: Byte, outcome: TransferOutcome, regs: PortReadings)
    requires Inv(h, maxPorts)
    ensures Inv(h.(d := OnTransferEvent(h.d, slotId, outcome, regs).0), maxPorts)
  {
    if FindBySlot(h.d.table, slotId).Some? {
      InitializedFlagKeepsInv(h, maxPorts, slotId, outcome.initialized);
      var dev := h.d.table.devices[slotId].value;
      var h1 := h.(d := SetDevice(h.d, slotId, dev.(initialized := outcome.initialized)));
      if outcome.error == Success && outcome.initialized && h.d.phases[dev.outputPort] == InitializingDevice {
        assert DeviceOk(dev, slotId, h.d.phases[PortOf(h.d.table, slotId)]);
        ConfigureKeepsInv(h1, maxPorts, slotId, regs);
      }
    }
  }

  // ---- the controller executes a command ----

  lemma ExecuteKeepsDevices(d: Driver, maxPorts: Byte, s: Byte)
    requires StateInv(d, maxPorts) && HasDevice(d.table, s) && d.phases[PortOf(d.table, s)] == AddressingDevice
    ensures StateInv(Executed(d, AddressDeviceCommand(s)), maxPorts)
  {
    var t, t' := d.table, Executed(d, AddressDeviceCommand(s)).table;
    forall u ensures HasDevice(t', u) == HasDevice(t, u) && (HasDevice(t, u) ==> PortOf(t', u) == PortOf(t, u)) {
    }
    forall p | 0 <= p < PORTS && Rank(d.phases[p]) >= 4 ensures exists u :: HasDevice(t', u) && PortOf(t', u) == p {
      var u :| HasDevice(t, u) && PortOf(t, u) == p;
      assert HasDevice(t', u) && PortOf(t', u) == p;
    }
  }

  /** Executing the next command changes no device's presence or port. */
  lemma ExecuteKeepsPorts(d: Driver, c: Command)
    requires DriverOk(d)
    ensures var t, t' := d.table, Executed(d, c).table;
            forall u :: HasDevice(t', u) == HasDevice(t, u) && (HasDevice(t, u) ==> PortOf(t', u) == PortOf(t, u))
  {
  }

  /** The executed command meets its own conditions. */
  lemma ExecuteMeetsCommand(h: Host, maxPorts: Byte, slotId: Byte)
    requires Inv(h, maxPorts) && Enabled(h, maxPorts, Execute(slotId))
    ensures var h' := After(h, maxPorts, Execute(slotId)); var n := h.done + |h.results|;
            CommandOk(h'.d.phases, h'.d.addressing, h'.d.table, h'.d.issued[n].command, WasExecuted(h', n),
              ResultOf(h', n))
  {
    hide RingInv, PendingInv, ContextsInv, PortsInv, KeysInv;
    var n := h.done + |h.results|;
    ExecuteKeepsPorts(h.d, h.d.issued[n].command);
    assert CommandOk(h.d.phases, h.d.addressing, h.d.table, h.d.issued[n].command, WasExecuted(h, n), ResultOf(h, n));
  }

  /** The other commands are for other slots and keep theirs. */
  lemma ExecuteKeepsCommand(h: Host, maxPorts: Byte, slotId: Byte, k: nat)
    requires Inv(h, maxPorts) && Enabled(h, maxPorts, Execute(slotId)) && h.done <= k < |h.d.issued| &&
             k != h.done + |h.results|
    ensures var h' := After(h, maxPorts, Execute(slotId));
            CommandOk(h'.d.phases, h'.d.addressing, h'.d.table, h'.d.issued[k].command, WasExecuted(h', k),
              ResultOf(h', k))
  {
    hide RingInv, ContextsInv, PortsInv, PendingInv;
    var h' := After(h, maxPorts, Execute(slotId));
    var n := h.done + |h.results|;
    var c, o := h.d.issued[n].command, h.d.issued[k].command;
    ExecuteKeepsPorts(h.d, c);
    assert CommandOk(h.d.phases, h.d.addressing, h.d.table, o, WasExecuted(h, k), ResultOf(h, k));
    assert Key(o) != Key(c) by {
      if k < n { assert Key(h.d.issued[k].command) != Key(c); }
    }
    assert WasExecuted(h', k) == WasExecuted(h, k) && ResultOf(h', k) == ResultOf(h, k);
  }

  lemma ExecuteKeepsCommands(h: Host, maxPorts: Byte, slotId: Byte)
    requires Inv(h, maxPorts) && Enabled(h, maxPorts, Execute(slotId))
    ensures CommandsInv(After(h, maxPorts, Execute(slotId)))
  {
    hide RingInv, PendingInv, ContextsInv, PortsInv, DevicesInv, LockInv, CommandOk, KeysInv;
    var h' := After(h, maxPorts, Execute(slotId));
    forall k | h'.done <= k < |h'.d.issued|
      ensures CommandOk(h'.d.phases, h'.d.addressing, h'.d.table, h'.d.issued[k].command, WasExecuted(h', k),
              ResultOf(h', k))
    {
      if k == h.done + |h.results| {
        ExecuteMeetsCommand(h, maxPorts, slotId);
      } else {
        ExecuteKeepsCommand(h, maxPorts, slotId, k);
      }
    }
  }

  lemma ExecuteKeepsInv(h: Host, maxPorts: Byte, slotId: Byte)
    requires Inv(h, maxPorts) && Enabled(h, maxPorts, Execute(slotId))
    ensures Inv(After(h, maxPorts, Execute(slotId)), maxPorts)
  {
    var h' := After(h, maxPorts, Execute(slotId));
    var n := h.done + |h.results|;
    var c := h.d.issued[n].command;
    assert CommandOk(h.d.phases, h.d.addressing, h.d.table, c, WasExecuted(h, n), ResultOf(h, n));
    if c.AddressDeviceCommand? {
      ExecuteKeepsDevices(h.d, maxPorts, c.slotId);
    }
    ExecuteKeepsCommands(h, maxPorts, slotId);
    ExecuteKeepsPorts(h.d, c);
    forall a | Awaits(h'.d.phases, h'.d.addressing, h'.d.table, a) ensures Pending(h.d.issued, h.done, a) {
      assert Awaits(h.d.phases, h.d.addressing, h.d.table, a);
    }
  }

  // ---- the driver handles a completion event ----

  /** The state after taking the first completion event, before its handler runs. */
  function Taken(h: Host): Host
    requires h.results != []
  {
    Host(h.d, h.done + 1, h.results[1..])
  }

  lemma TakeFirstCommands(h: Host)
    requires DriverOk(h.d) && CommandsInv(h) && h.results != []
    ensures CommandsInv(Taken(h))
  {
    var h1 := Taken(h);
    forall k | h1.done <= k < |h.d.issued|
      ensures CommandOk(h.d.phases, h.d.addressing, h.d.table, h.d.issued[k].command, WasExecuted(h1, k),
              ResultOf(h1, k))
    {
      assert CommandOk(h.d.phases, h.d.addressing, h.d.table, h.d.issued[k].command, WasExecuted(h, k), ResultOf(h, k));
      assert ResultOf(h1, k) == ResultOf(h, k) && WasExecuted(h1, k) == WasExecuted(h, k);
    }
  }

  /** Once the event of the first outstanding command is taken, the others are as they were. */
  lemma TakeFirst(h: Host, maxPorts: Byte)
    requires Inv(h, maxPorts) && h.results != []
    ensures CommandsInv(Taken(h)) && KeysInv(h.d.issued, h.done + 1)
    ensures forall a :: Pending(h.d.issued, h.done, a) && a != h.d.issued[h.done].command ==>
            Pending(h.d.issued, h.done + 1, a)
    ensures forall k :: h.done + 1 <= k < |h.d.issued| ==> Key(h.d.issued[k].command) != Key(h.d.issued[h.done].command)
  {
    TakeFirstCommands(h);
    forall a | Pending(h.d.issued, h.done, a) && a != h.d.issued[h.done].command
      ensures Pending(h.d.issued, h.done + 1, a)
    {
      var k :| h.done <= k < |h.d.issued| && h.d.issued[k].command == a;
    }
  }

  /** Enable Slot completed: the port gets a device in the fresh slot and its Address Device command. */
  lemma AddressKeepsState(d: Driver, maxPorts: Byte, slotId: Byte, place: Placement)
    requires StateInv(d, maxPorts) && d.phases[d.addressing] == EnablingSlot && d.addressing != 0
    requires 1 <= slotId <= MAX_SLOTS && !HasDevice(d.table, slotId)
    ensures var t := d.table;
            var dev := DeviceRecord(slotId, place.context, place.inputContext, d.addressing, 0, false);
            var d1 := d.(table := DeviceTable(t.devices[slotId := Some(dev)],
              t.contexts[slotId := Some(place.context)]),
                         phases := d.phases[d.addressing := AddressingDevice],
                           effects := d.effects + [Ep0RingAllocated(slotId)]);
            StateInv(d1, maxPorts) && AddressDevice(d, d.addressing, slotId, place) ==
              (Issue(d1, AddressDeviceCommand(slotId), place.inputContext), Success)
  {
    var t, port := d.table, d.addressing;
    var dev := DeviceRecord(slotId, place.context, place.inputContext, port, 0, false);
    var t' := DeviceTable(t.devices[slotId := Some(dev)], t.contexts[slotId := Some(place.context)]);
    var phases' := d.phases[port := AddressingDevice];
    assert Allocated(t, slotId, place.context, place.inputContext).devices[slotId := Some(dev)] ==
      t.devices[slotId := Some(dev)];
    forall s | s != slotId
      ensures HasDevice(t', s) == HasDevice(t, s) && (HasDevice(t, s) ==> PortOf(t', s) == PortOf(t, s))
    {
    }
    assert HasDevice(t', slotId) && PortOf(t', slotId) == port;
    forall s | HasDevice(t, s) ensures PortOf(t, s) != port {
      assert DeviceOk(t.devices[s].value, s, d.phases[PortOf(t, s)]);
    }
    forall p | 0 <= p < PORTS && Rank(phases'[p]) >= 4 ensures exists s :: HasDevice(t', s) && PortOf(t', s) == p {
      if p != port {
        var s :| HasDevice(t, s) && PortOf(t, s) == p;
        assert HasDevice(t', s) && PortOf(t', s) == p;
      }
    }
  }

  lemma EnableSlotDone(h: Host, maxPorts: Byte, place: Placement)
    requires Inv(h, maxPorts) && h.results != [] && h.d.issued[h.done].command == EnableSlotCommand
    ensures AddressDevice(h.d, h.d.addressing, h.results[0], place).1 == Success
    ensures Inv(Taken(h).(d := AddressDevice(h.d, h.d.addressing, h.results[0], place).0), maxPorts)
  {
    var d, port, slotId := h.d, h.d.addressing, h.results[0];
    assert CommandOk(d.phases, port, d.table, EnableSlotCommand, WasExecuted(h, h.done), ResultOf(h, h.done));
    TakeFirst(h, maxPorts);
    AddressKeepsState(d, maxPorts, slotId, place);
    var t := d.table;
    var dev := DeviceRecord(slotId, place.context, place.inputContext, port, 0, false);
    var t' := DeviceTable(t.devices[slotId := Some(dev)], t.contexts[slotId := Some(place.context)]);
    var h1 := Taken(h).(d := d.(table := t', phases := d.phases[port := AddressingDevice],
                                effects := d.effects + [Ep0RingAllocated(slotId)]));
    AddressKeepsOthers(h, maxPorts, h1, slotId, dev);
    IssueKeepsInv(h1, maxPorts, AddressDeviceCommand(slotId), place.inputContext);
  }

  /** The other outstanding commands and waits do not see the new device. */
  lemma AddressKeepsOthers(h: Host, maxPorts: Byte, h1: Host, slotId: Byte, dev: DeviceRecord)
    requires Inv(h, maxPorts) && h.results != [] && h.d.issued[h.done].command == EnableSlotCommand
    requires 1 <= slotId <= MAX_SLOTS && !HasDevice(h.d.table, slotId) && dev.inputPort == h.d.addressing
    requires h1 == Taken(h).(d := h.d.(table :=
             DeviceTable(h.d.table.devices[slotId := Some(dev)], h1.d.table.contexts),
                                       phases := h.d.phases[h.d.addressing := AddressingDevice],
                                         effects := h1.d.effects))
    requires DriverOk(h1.d)
    ensures CommandsInv(h1) && KeysInv(h1.d.issued, h1.done)
    ensures forall k :: h1.done <= k < |h.d.issued| ==> Key(h.d.issued[k].command) != 0
    ensures forall a :: Awaits(h1.d.phases, h1.d.addressing, h1.d.table, a) ==>
              a == AddressDeviceCommand(slotId) || Pending(h1.d.issued, h1.done, a)
  {
    var t, t', port := h.d.table, h1.d.table, h.d.addressing;
    var h2 := Taken(h);
    TakeFirst(h, maxPorts);
    forall s | s != slotId
      ensures HasDevice(t', s) == HasDevice(t, s) && (HasDevice(t, s) ==> PortOf(t', s) == PortOf(t, s))
    {
    }
    assert PortOf(t', slotId) == port;
    forall k | h1.done <= k < |h1.d.issued|
      ensures CommandOk(h1.d.phases, port, t', h1.d.issued[k].command, WasExecuted(h1, k), ResultOf(h1, k))
    {
      assert Key(h.d.issued[k].command) != 0;
      assert CommandOk(h.d.phases, port, t, h.d.issued[k].command, WasExecuted(h2, k), ResultOf(h2, k));
    }
    forall a | Awaits(h1.d.phases, port, t', a)
      ensures a == AddressDeviceCommand(slotId) || Pending(h1.d.issued, h1.done, a)
    {
      if a != AddressDeviceCommand(slotId) {
        assert a != EnableSlotCommand && Awaits(h.d.phases, port, t, a);
      }
    }
  }

  lemma ConfigureEndpointDone(h: Host, maxPorts: Byte, slotId: Byte)
    requires Inv(h, maxPorts) && h.results != [] && h.d.issued[h.done].command == ConfigureEndpointCommand(slotId)
    ensures h.results[0] == slotId && HasDevice(h.d.table, slotId)
    ensures var port := h.d.table.devices[slotId].value.outputPort;
            && port == PortOf(h.d.table, slotId) && h.d.phases[port] == ConfiguringEndpoints
            && Inv(Taken(h).(d := SetPhase(h.d, port, Configured)), maxPorts)
  {
    var d, t := h.d, h.d.table;
    assert CommandOk(d.phases, d.addressing, t, ConfigureEndpointCommand(slotId), WasExecuted(h, h.done),
      ResultOf(h, h.done));
    assert DeviceOk(t.devices[slotId].value, slotId, d.phases[PortOf(t, slotId)]);
    var port := PortOf(t, slotId);
    TakeFirst(h, maxPorts);
    AdvanceKeepsState(d, maxPorts, port, Configured);
    var h1, h2 := Taken(h).(d := SetPhase(d, port, Configured)), Taken(h);
    forall k | h1.done <= k < |h1.d.issued|
      ensures CommandOk(h1.d.phases, d.addressing, t, h1.d.issued[k].command, WasExecuted(h1, k), ResultOf(h1, k))
    {
      assert CommandOk(d.phases, d.addressing, t, d.issued[k].command, WasExecuted(h2, k), ResultOf(h2, k));
      assert Key(d.issued[k].command) != slotId;
    }
    forall a | Awaits(h1.d.phases, d.addressing, t, a) ensures Pending(d.issued, h1.done, a) {
      assert Awaits(d.phases, d.addressing, t, a);
    }
  }

  // ---- Address Device completed: release the lock, hand it off, start enumeration ----

  /** The device's port leaves the lock and starts enumeration. */
  lemma ReleaseKeepsState(d: Driver, maxPorts: Byte, slotId: Byte)
    requires StateInv(d, maxPorts) && HasDevice(d.table, slotId) && PortOf(d.table, slotId) == d.addressing
    requires d.phases[d.addressing] == AddressingDevice && d.table.devices[slotId].value.outputPort == d.addressing
    ensures StateInv(Released(d, slotId), maxPorts)
  {
    var t, t', port := d.table, Released(d, slotId).table, d.addressing;
    var phases' := Released(d, slotId).phases;
    forall s ensures HasDevice(t', s) == HasDevice(t, s) && (HasDevice(t, s) ==> PortOf(t', s) == PortOf(t, s)) {
    }
    forall p | 0 <= p < PORTS && Rank(phases'[p]) >= 4 ensures exists s :: HasDevice(t', s) && PortOf(t', s) == p {
      assert Rank(d.phases[p]) >= 4;
      var s :| HasDevice(t, s) && PortOf(t, s) == p;
      assert HasDevice(t', s) && PortOf(t', s) == p;
    }
  }

  /** The driver after an Address Device completion, leaving the hand-off scan aside. */
  function Released(d: Driver, slotId: Byte): Driver
    requires DriverOk(d) && HasDevice(d.table, slotId)
  {
    var dev := d.table.devices[slotId].value;
    SetDevice(SetPhase(d.(addressing := 0), d.addressing, InitializingDevice), slotId, dev.(initialized := false))
  }

  lemma ReleaseKeepsInv(h: Host, maxPorts: Byte, slotId: Byte)
    requires Inv(h, maxPorts) && h.results != [] && h.d.issued[h.done].command == AddressDeviceCommand(slotId)
    ensures h.results[0] == slotId && HasDevice(h.d.table, slotId)
    ensures h.d.table.devices[slotId].value.outputPort == h.d.addressing
    ensures h.d.phases[h.d.addressing] == AddressingDevice
    ensures Inv(Taken(h).(d := Released(h.d, slotId)), maxPorts)
  {
    hide RingInv, ContextsInv, PortsInv;
    var d, t, port := h.d, h.d.table, h.d.addressing;
    assert CommandOk(d.phases, port, t, AddressDeviceCommand(slotId), WasExecuted(h, h.done), ResultOf(h, h.done));
    ReleaseKeepsState(d, maxPorts, slotId);
    TakeFirst(h, maxPorts);
    var h1, h2 := Taken(h).(d := Released(d, slotId)), Taken(h);
    var t' := h1.d.table;
    forall s ensures HasDevice(t', s) == HasDevice(t, s) && (HasDevice(t, s) ==> PortOf(t', s) == PortOf(t, s)) {
    }
    forall k | h1.done <= k < |h1.d.issued|
      ensures CommandOk(h1.d.phases, 0, t', h1.d.issued[k].command, WasExecuted(h1, k), ResultOf(h1, k))
    {
      assert CommandOk(d.phases, port, t, d.issued[k].command, WasExecuted(h2, k), ResultOf(h2, k));
      assert Key(d.issued[k].command) != 0;
    }
    forall a | Awaits(h1.d.phases, 0, t', a) ensures Pending(d.issued, h1.done, a) {
      assert a != AddressDeviceCommand(slotId) && Awaits(d.phases, port, t, a);
    }
  }

  /** Offering the lock and starting enumeration touch different ports: but for the log their order does not matter. */
  lemma HandOffCommutes(d: Driver, maxPorts: Byte, slotId: Byte, regs: PortReadings)
    requires StateInv(d, maxPorts) && HasDevice(d.table, slotId)
    requires d.phases[d.addressing] == AddressingDevice && d.table.devices[slotId].value.outputPort == d.addressing
    ensures var w := FirstWaiting(d.phases, 0);
            var after := InitializeDevice(HandOff(d, regs).0, d.addressing, slotId);
            var other := if w < PORTS then ResetPort(Released(d, slotId), w, regs).0 else Released(d, slotId);
            && HandOff(d, regs).1 == Success && after.1 == Success && after.0 == other.(effects := after.0.effects)
            && after.0.effects == d.effects
                 + (if w < PORTS && regs[w].connected then [PortReset(w)] else []) + [EnumerationStarted(slotId)]
  {
    var w := FirstWaiting(d.phases, 0);
    if w < PORTS {
      assert w != d.addressing;
      assert d.phases[d.addressing := InitializingDevice][w := ResettingPort] ==
        d.phases[w := ResettingPort][d.addressing := InitializingDevice];
    }
  }

  lemma AddressDeviceDone(h: Host, maxPorts: Byte, slotId: Byte, regs: PortReadings)
    requires Inv(h, maxPorts) && h.results != [] && h.d.issued[h.done].command == AddressDeviceCommand(slotId)
    ensures h.results[0] == slotId && HasDevice(h.d.table, slotId) && HandOff(h.d, regs).1 == Success
    ensures h.d.table.devices[slotId].value.outputPort == h.d.addressing
    ensures h.d.phases[h.d.addressing] == AddressingDevice
    ensures Inv(Taken(h).(d := InitializeDevice(HandOff(h.d, regs).0, h.d.addressing, slotId).0), maxPorts)
  {
    ReleaseKeepsInv(h, maxPorts, slotId);
    HandOffCommutes(h.d, maxPorts, slotId, regs);
    var w := FirstWaiting(h.d.phases, 0);
    var h1 := Taken(h).(d := Released(h.d, slotId));
    if w < PORTS {
      ResetKeepsInv(h1, maxPorts, w, regs);
      h1 := h1.(d := ResetPort(h1.d, w, regs).0);
    }
    EffectsAside(h1, maxPorts, InitializeDevice(HandOff(h.d, regs).0, h.d.addressing, slotId).0.effects);
  }

  /** The handler of a completion event takes the branch of the command that was issued. */
  lemma EnableSlotBranch(h: Host, maxPorts: Byte, regs: PortReadings, place: Placement)
    requires Inv(h, maxPorts) && h.results != [] && h.d.issued[h.done].command == EnableSlotCommand
    ensures h.d.issued[h.done].index < |h.d.ring.mem|
    ensures OnCommandCompletion(h.d, h.d.issued[h.done].index, h.results[0], regs, place) ==
              AddressDevice(h.d, h.d.addressing, h.results[0], place)
  {
    IssuerReadBack(h, maxPorts);
    assert CommandOk(h.d.phases, h.d.addressing, h.d.table, EnableSlotCommand, WasExecuted(h, h.done),
      ResultOf(h, h.done));
  }

  lemma AddressDeviceBranch(h: Host, maxPorts: Byte, regs: PortReadings, place: Placement, s: Byte)
    requires Inv(h, maxPorts) && h.results != [] && h.d.issued[h.done].command == AddressDeviceCommand(s)
    requires HandOff(h.d, regs).1 == Success
    ensures h.d.issued[h.done].index < |h.d.ring.mem|
    ensures OnCommandCompletion(h.d, h.d.issued[h.done].index, h.results[0], regs, place) ==
              InitializeDevice(HandOff(h.d, regs).0, h.d.addressing, s)
  {
    IssuerReadBack(h, maxPorts);
    assert CommandOk(h.d.phases, h.d.addressing, h.d.table, AddressDeviceCommand(s), WasExecuted(h, h.done),
      ResultOf(h, h.done));
  }

  lemma ConfigureEndpointBranch(h: Host, maxPorts: Byte, regs: PortReadings, place: Placement, s: Byte)
    requires Inv(h, maxPorts) && h.results != [] && h.d.issued[h.done].command == ConfigureEndpointCommand(s)
    ensures h.d.issued[h.done].index < |h.d.ring.mem| && HasDevice(h.d.table, s)
    ensures OnCommandCompletion(h.d, h.d.issued[h.done].index, h.results[0], regs, place) ==
              (WithEffect(SetPhase(h.d, PortOf(h.d.table, s), Configured), DriversConfigured(s)), Success)
  {
    IssuerReadBack(h, maxPorts);
    ConfigureEndpointDone(h, maxPorts, s);
  }

  /** Every completion event is accepted. */
  lemma CompletionKeepsInv(h: Host, maxPorts: Byte, regs: PortReadings, place: Placement)
    requires Inv(h, maxPorts) && Enabled(h, maxPorts, Completion(regs, place))
    ensures Inv(After(h, maxPorts, Completion(regs, place)), maxPorts)
    ensures OnCommandCompletion(h.d, h.d.issued[h.done].index, h.results[0], regs, place).1 == Success
  {
    match h.d.issued[h.done].command
    case EnableSlotCommand =>
      EnableSlotBranch(h, maxPorts, regs, place);
      EnableSlotDone(h, maxPorts, place);
    case AddressDeviceCommand(s) =>
      AddressDeviceDone(h, maxPorts, s, regs);
      AddressDeviceBranch(h, maxPorts, regs, place, s);
      HandOffCommutes(h.d, maxPorts, s, regs);
    case ConfigureEndpointCommand(s) =>
      ConfigureEndpointBranch(h, maxPorts, regs, place, s);
      ConfigureEndpointDone(h, maxPorts, s);
      EffectsAside(Taken(h).(d := SetPhase(h.d, PortOf(h.d.table, s), Configured)), maxPorts,
        h.d.effects + [DriversConfigured(s)]);
  }

  lemma StepKeepsInv(h: Host, maxPorts: Byte, step: Step)
    requires Inv(h, maxPorts) && Enabled(h, maxPorts, step)
    ensures Inv(After(h, maxPorts, step), maxPorts)
  {
    match step
    case Sweep(port, regs) =>
      if h.d.phases[port] == NotConnected { ResetKeepsInv(h, maxPorts, port, regs); }
    case PortStatus(port, regs) =>
      if h.d.phases[port] == NotConnected { ResetKeepsInv(h, maxPorts, port, regs); }
      else if h.d.phases[port] == ResettingPort { EnableKeepsInv(h, maxPorts, port, regs); }
    case Transfer(slotId, outcome, regs) => TransferKeepsInv(h, maxPorts, slotId, outcome, regs);
    case Execute(slotId) => ExecuteKeepsInv(h, maxPorts, slotId);
    case Completion(regs, place) => CompletionKeepsInv(h, maxPorts, regs, place);
  }

  // ---- what a step does to phases, lock, devices and the log of effects ----

  /** The same slots have devices, for the same ports. */
  ghost predicate SamePlaces(t: DeviceTable, t': DeviceTable) {
    forall s :: HasDevice(t', s) == HasDevice(t, s) && (HasDevice(t, s) ==> PortOf(t', s) == PortOf(t, s))
  }

  lemma EnableSlotEffect(h: Host, maxPorts: Byte, step: Step)
    requires Inv(h, maxPorts) && Enabled(h, maxPorts, step) && step.Completion?
    requires h.d.issued[h.done].command == EnableSlotCommand
    ensures var d, d' := h.d, After(h, maxPorts, step).d;
            d.phases[d.addressing] == EnablingSlot && DriverOk(d') &&
            d'.phases == d.phases[d.addressing := AddressingDevice] && d'.addressing == d.addressing
  {
    EnableSlotBranch(h, maxPorts, step.regs, step.place);
    assert CommandOk(h.d.phases, h.d.addressing, h.d.table, EnableSlotCommand, WasExecuted(h, h.done),
      ResultOf(h, h.done));
    AddressKeepsState(h.d, maxPorts, h.results[0], step.place);
  }

  /** The slot in the completion event gets the device of the port that holds the lock. */
  lemma EnableSlotDevices(h: Host, maxPorts: Byte, step: Step)
    requires Inv(h, maxPorts) && Enabled(h, maxPorts, step) && step.Completion?
    requires h.d.issued[h.done].command == EnableSlotCommand
    ensures var d, d', s := h.d, After(h, maxPorts, step).d, h.results[0];
            && d'.effects == d.effects + [Ep0RingAllocated(s)]
            && !HasDevice(d.table, s) && HasDevice(d'.table, s) && PortOf(d'.table, s) == d.addressing
            && forall u :: u != s ==> HasDevice(d'.table, u) == HasDevice(d.table, u) &&
                                      (HasDevice(d.table, u) ==> PortOf(d'.table, u) == PortOf(d.table, u))
  {
    EnableSlotBranch(h, maxPorts, step.regs, step.place);
    assert CommandOk(h.d.phases, h.d.addressing, h.d.table, EnableSlotCommand, WasExecuted(h, h.done),
      ResultOf(h, h.done));
    AddressKeepsState(h.d, maxPorts, h.results[0], step.place);
  }

  lemma AddressDeviceEffect(h: Host, maxPorts: Byte, step: Step, slotId: Byte)
    requires Inv(h, maxPorts) && Enabled(h, maxPorts, step) && step.Completion?
    requires h.d.issued[h.done].command == AddressDeviceCommand(slotId)
    ensures var d, d' := h.d, After(h, maxPorts, step).d; var w := FirstWaiting(d.phases, 0);
            && HasDevice(d.table, slotId) && PortOf(d.table, slotId) == d.addressing
            && d.phases[d.addressing] == AddressingDevice && DriverOk(d')
            && (if w < PORTS && step.regs[w].connected
                then d'.phases == d.phases[d.addressing := InitializingDevice][w := ResettingPort] && d'.addressing == w
                else d'.phases == d.phases[d.addressing := InitializingDevice] && d'.addressing == 0)
  {
    hide RingInv, KeysInv, PendingInv, ContextsInv, PortsInv, OnCommandCompletion, HandOff;
    assert CommandOk(h.d.phases, h.d.addressing, h.d.table, h.d.issued[h.done].command, WasExecuted(h, h.done),
      ResultOf(h, h.done));
    AddressDeviceDone(h, maxPorts, slotId, step.regs);
    AddressDeviceBranch(h, maxPorts, step.regs, step.place, slotId);
    HandOffCommutes(h.d, maxPorts, slotId, step.regs);
  }

  lemma AddressDeviceDevices(h: Host, maxPorts: Byte, step: Step, slotId: Byte)
    requires Inv(h, maxPorts) && Enabled(h, maxPorts, step) && step.Completion?
    requires h.d.issued[h.done].command == AddressDeviceCommand(slotId)
    ensures var d, d' := h.d, After(h, maxPorts, step).d; var w := FirstWaiting(d.phases, 0);
            && d'.effects == d.effects + (if w < PORTS && step.regs[w].connected then [PortReset(w)]
              else []) + [EnumerationStarted(slotId)]
            && HasDevice(d.table, slotId) && PortOf(d.table, slotId) == d.addressing && SamePlaces(d.table, d'.table)
  {
    hide RingInv, KeysInv, PendingInv, ContextsInv, PortsInv, OnCommandCompletion, HandOff;
    assert CommandOk(h.d.phases, h.d.addressing, h.d.table, h.d.issued[h.done].command, WasExecuted(h, h.done),
      ResultOf(h, h.done));
    AddressDeviceDone(h, maxPorts, slotId, step.regs);
    AddressDeviceBranch(h, maxPorts, step.regs, step.place, slotId);
    HandOffCommutes(h.d, maxPorts, slotId, step.regs);
  }

  lemma ConfigureEndpointEffect(h: Host, maxPorts: Byte, step: Step, slotId: Byte)
    requires Inv(h, maxPorts) && Enabled(h, maxPorts, step) && step.Completion?
    requires h.d.issued[h.done].command == ConfigureEndpointCommand(slotId)
    ensures var d, d' := h.d, After(h, maxPorts, step).d;
            && HasDevice(d.table, slotId) && d.phases[PortOf(d.table, slotId)] == ConfiguringEndpoints && DriverOk(d')
            && d'.phases == d.phases[PortOf(d.table, slotId) := Configured] && d'.addressing == d.addressing
            && d'.effects == d.effects + [DriversConfigured(slotId)] && d'.table == d.table
  {
    ConfigureEndpointBranch(h, maxPorts, step.regs, step.place, slotId);
    ConfigureEndpointDone(h, maxPorts, slotId);
  }

  /** A status change or a sweep resets the port, enables its slot, makes it wait, or does nothing. */
  lemma PortEffect(h: Host, maxPorts: Byte, step: Step)
    requires Inv(h, maxPorts) && Enabled(h, maxPorts, step) && (step.Sweep? || step.PortStatus?)
    ensures var d, d', p, r := h.d, After(h, maxPorts, step).d, step.port, step.regs[step.port];
            && DriverOk(d') && d'.table == d.table
            && if d.phases[p] == NotConnected && r.connected && d.addressing == 0 then
                 d'.phases == d.phases[p := ResettingPort] && d'.addressing == p &&
                   d'.effects == d.effects + [PortReset(p)]
               else if d.phases[p] == NotConnected && r.connected then
                 d'.phases == d.phases[p := WaitingAddressed] && d'.addressing == d.addressing &&
                   d'.effects == d.effects
               else if step.PortStatus? && d.phases[p] == ResettingPort && r.enabled && r.resetChange then
                 d'.phases == d.phases[p := EnablingSlot] && d'.addressing == d.addressing &&
                   d'.effects == d.effects + [ResetChangeCleared(p)]
               else d' == d
  {
  }

  /** The transfer event that ends enumeration configures the endpoints, at a speed the driver knows. */
  lemma TransferEffect(h: Host, maxPorts: Byte, step: Step)
    requires Inv(h, maxPorts) && step.Transfer? && HasDevice(h.d.table, step.slotId)
    ensures var d, d', s := h.d, After(h, maxPorts, step).d, step.slotId;
            var p := PortOf(d.table, s);
            && DriverOk(d') && SamePlaces(d.table, d'.table) && d'.addressing == d.addressing
            && if step.outcome == TransferOutcome(Success, true) && d.phases[p] == InitializingDevice
                  && 1 <= step.regs[p].speed <= SUPER_SPEED_PLUS then
                 d'.phases == d.phases[p := ConfiguringEndpoints] &&
                   d'.effects == d.effects + [EndpointRingsAllocated(s)]
               else d'.phases == d.phases && d'.effects == d.effects
  {
    var s := step.slotId;
    var dev := h.d.table.devices[s].value;
    assert DeviceOk(dev, s, h.d.phases[PortOf(h.d.table, s)]);
    InitializedFlagKeepsInv(h, maxPorts, s, step.outcome.initialized);
    var d1 := SetDevice(h.d, s, dev.(initialized := step.outcome.initialized));
    if step.outcome == TransferOutcome(Success, true) && h.d.phases[dev.outputPort] == InitializingDevice {
      ConfigureEffect(d1, maxPorts, s, step.regs);
    }
  }

  /** Executing a command moves no port. */
  lemma ExecuteEffect(h: Host, maxPorts: Byte, step: Step)
    requires Inv(h, maxPorts) && Enabled(h, maxPorts, step) && step.Execute?
    ensures var d, d' := h.d, After(h, maxPorts, step).d;
            DriverOk(d') && SamePlaces(d.table, d'.table) && d'.phases == d.phases && d'.addressing == d.addressing &&
              d'.effects == d.effects
  {
    ExecuteKeepsPorts(h.d, h.d.issued[h.done + |h.results|].command);
  }
}
