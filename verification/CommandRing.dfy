/**
 * The port protocol over the command ring in memory: the driver's Push stores word by word, the controller fetches
 * TRBs by their cycle bits and executes only what it has fetched.
 */
module CommandRing {
  import opened Wrappers
  import opened Trbs
  import opened Rings
  import opened DeviceManagers
  import opened PortConfig
  import P = PortProtocol
  import R = RingProtocol

  /** `s` is the ring in memory, with the controller's position and the TRBs it has fetched. */
  datatype Joint = Joint(h: P.Host, s: R.Sys)

  datatype Step =
    | Handle(step: P.Step)          // a handler, which may call Push; nothing checks for room
    | Store                         // the next store of that Push reaches memory
    | Fetch(s': R.Sys)              // the controller consumes an entry or follows the Link TRB
    | Execute(slotId: Byte)         // the controller executes the next command fetched

  predicate Init(j: Joint) {
    P.Init(j.h) && j.s == R.Fresh(j.h.d.ring)
  }

  // ---- what the controller does with a TRB (sections 4.6.3, 4.6.5 and 6.4.3 of the xHCI specification) ----

  function KindField(t: Trb): nat { t.w3 / 1024 % 64 }
  function SlotField(t: Trb): Byte { t.w3 / 0x100_0000 }
  function ContextField(t: Trb): Address { (t.w1 * 0x1_0000_0000 + t.w0) / 16 * 16 }

  /** The input context at this address is that of the device in slot u. */
  predicate InputAt(t: DeviceTable, a: Address, u: Byte) { P.HasDevice(t, u) && t.devices[u].value.inputContext == a }

  /** The Device Context Base Address Array leads from a slot to the context of the device in slot v. */
  predicate OutputAt(t: DeviceTable, slotId: Byte, v: Byte) {
    P.HasDevice(t, v) && slotId < |t.contexts| && t.contexts[slotId] == Some(t.devices[v].value.context)
  }

  /** The root port number of the input slot context is copied to the device's own slot context. */
  function PortCopied(d: Driver, u: Byte, v: Byte): Driver
    requires P.HasDevice(d.table, u) && P.HasDevice(d.table, v)
  {
    var t := d.table;
    d.(table := t.(devices := t.devices[v := Some(t.devices[v].value.(outputPort := t.devices[u].value.inputPort))]))
  }

  /** One command, as its TRB has it; `slotId` is what its completion event will name. */
  predicate Executes(d: Driver, t: Trb, slotId: Byte, d': Driver) {
    if KindField(t) == 9 then DriverOk(d) && P.FreshSlot(d, slotId) && d' == d
    else if KindField(t) == 11 then
      && slotId == SlotField(t)
      && exists u: Byte, v: Byte :: InputAt(d.table, ContextField(t), u) && OutputAt(d.table, slotId, v) &&
                                    d' == PortCopied(d, u, v)
    else if KindField(t) == 12 then
      slotId == SlotField(t) && d' == d && exists u: Byte :: InputAt(d.table, ContextField(t), u)
    else false
  }

  /** The contexts of a new device lie apart from all others, on 64-byte boundaries. */
  predicate NewPlace(t: DeviceTable, place: Placement) {
    && place.context % 64 == 0 && place.inputContext % 64 == 0
    && forall s: Byte :: P.HasDevice(t, s) ==>
         t.devices[s].value.context != place.context && t.devices[s].value.inputContext != place.inputContext
  }

  /** The ring once a handler that led to h' has called Push, if it has. */
  function Begun(h: P.Host, h': P.Host, s: R.Sys): R.Sys {
    if |h'.d.issued| <= |h.d.issued| then s else s.(prod := R.Begun(s.prod, h'.d.issued[|h.d.issued|].trb))
  }

  predicate Next(j: Joint, maxPorts: Byte, step: Step, j': Joint) {
    match step
    case Handle(hs) =>
      && j.s.prod.todo == [] && !hs.Execute? && P.Enabled(j.h, maxPorts, hs)
      && (hs.Completion? ==> NewPlace(j.h.d.table, hs.place))
      && j'.h == P.After(j.h, maxPorts, hs) && j'.s == Begun(j.h, j'.h, j.s)
    case Store => j'.h == j.h && R.ProducerMoves(j.s, j'.s) && R.StoreNext(j.s.prod, j'.s.prod)
    case Fetch(s') => j'.h == j.h && j'.s == s' && R.HcNext(j.s, s')
    case Execute(slotId) =>
      && |j.s.got| > j.h.done + |j.h.results| && j'.s == j.s
      && Executes(j.h.d, j.s.got[j.h.done + |j.h.results|], slotId, j'.h.d)
      && j'.h == P.Host(j'.h.d, j.h.done, j.h.results + [slotId])
  }

  ghost predicate Run(js: seq<Joint>, steps: seq<Step>, maxPorts: Byte) {
    && |js| == |steps| + 1 && Init(js[0])
    && forall i :: 0 <= i < |steps| ==> Next(js[i], maxPorts, steps[i], js[i + 1])
  }

  // ---- invariant ----

  /** Once the stores under way have reached memory, the ring is the driver's; what was sent is what was issued. */
  ghost predicate Linked(r: RingState, issued: seq<Issued>, p: R.Producer) {
    && RingOk(p.ring) && (forall i :: 0 <= i < |p.todo| ==> WriteOk(|p.ring.mem|, p.todo[i]))
    && r == p.ring.(mem := R.StoreAll(p.ring.mem, p.todo))
    && p.sent == P.PushedTrbs(issued)
  }

  /** No two devices share a context, and input contexts are aligned. */
  ghost predicate Apart(t: DeviceTable) {
    && (forall s: Byte :: P.HasDevice(t, s) ==> t.devices[s].value.inputContext % 16 == 0)
    && forall s: Byte, u: Byte :: P.HasDevice(t, s) && P.HasDevice(t, u) && s != u ==> ApartAt(t, s, u)
  }

  /** The TRB carries the slot of its command and the input context of that slot's device. */
  predicate TrbFor(t: DeviceTable, i: Issued) {
    match i.command
    case EnableSlotCommand => i.trb == EnableSlotTrb()
    case AddressDeviceCommand(s) =>
      P.HasDevice(t, s) && i.trb == AddressDeviceTrb(t.devices[s].value.inputContext, s)
    case ConfigureEndpointCommand(s) =>
      P.HasDevice(t, s) && i.trb == ConfigureEndpointTrb(t.devices[s].value.inputContext, s)
  }

  predicate TrbsInv(d: Driver, done: nat) {
    forall k :: done <= k < |d.issued| ==> TrbFor(d.table, d.issued[k])
  }

  ghost predicate Inv(j: Joint, maxPorts: Byte) {
    && Apart(j.h.d.table) && TrbsInv(j.h.d, j.h.done)
    && P.Inv(j.h, maxPorts) && R.Inv(j.s) && Linked(j.h.d.ring, j.h.d.issued, j.s.prod)
    && |j.s.got| >= j.h.done + |j.h.results|
  }

  lemma InitInv(j: Joint, maxPorts: Byte)
    requires Init(j)
    ensures Inv(j, maxPorts)
  {
    P.InitInv(j.h, maxPorts);
    R.InitInv(j.s);
    forall s ensures !P.HasDevice(j.h.d.table, s) {
    }
  }

  // ---- handlers issue at most one command ----

  ghost predicate IssuesOne(d: Driver, d': Driver) {
    || (d'.ring == d.ring && d'.issued == d.issued)
    || (|d'.issued| == |d.issued| + 1 && d'.issued[..|d.issued|] == d.issued && RingOk(d.ring)
        && TypeOf(d'.issued[|d.issued|].trb) != LINK && d'.ring == Pushed(d.ring, d'.issued[|d.issued|].trb))
  }

  lemma PortEventIssuesOne(d: Driver, port: Byte, regs: PortReadings)
    requires DriverOk(d)
    ensures IssuesOne(d, ConfigurePort(d, port, regs).0) && IssuesOne(d, OnPortStatusChange(d, port, regs).0)
  {
  }

  lemma TransferIssuesOne(d: Driver, slotId: Byte, outcome: TransferOutcome, regs: PortReadings)
    requires DriverOk(d)
    ensures IssuesOne(d, OnTransferEvent(d, slotId, outcome, regs).0)
  {
  }

  lemma CompletionIssuesOne(d: Driver, trb: nat, slotId: Byte, regs: PortReadings, place: Placement)
    requires DriverOk(d) && trb < |d.ring.mem|
    ensures IssuesOne(d, OnCommandCompletion(d, trb, slotId, regs, place).0)
  {
  }

  lemma DriverIssuesOne(h: P.Host, maxPorts: Byte, hs: P.Step)
    requires P.Enabled(h, maxPorts, hs)
    ensures !hs.Execute? ==> IssuesOne(h.d, P.After(h, maxPorts, hs).d)
    ensures hs.Execute? ==>
            P.After(h, maxPorts, hs).d.ring == h.d.ring && P.After(h, maxPorts, hs).d.issued == h.d.issued
  {
    match hs
    case Sweep(port, regs) => PortEventIssuesOne(h.d, port, regs);
    case PortStatus(port, regs) => PortEventIssuesOne(h.d, port, regs);
    case Transfer(s, outcome, regs) => TransferIssuesOne(h.d, s, outcome, regs);
    case Completion(regs, place) => CompletionIssuesOne(h.d, h.d.issued[h.done].index, h.results[0], regs, place);
    case Execute(_) =>
  }

  // ---- devices stay where they are ----

  predicate IsNew(t: DeviceTable, t': DeviceTable, s: Byte) { P.HasDevice(t', s) && !P.HasDevice(t, s) }

  /** Devices keep their contexts; a new one is where it was placed. */
  ghost predicate KeepsPlaces(t: DeviceTable, t': DeviceTable, place: Placement) {
    && (forall s: Byte :: P.HasDevice(t, s) ==>
          && P.HasDevice(t', s) && t'.devices[s].value.context == t.devices[s].value.context
          && t'.devices[s].value.inputContext == t.devices[s].value.inputContext)
    && (forall s: Byte :: IsNew(t, t', s) ==>
          t'.devices[s].value.context == place.context && t'.devices[s].value.inputContext == place.inputContext)
    && forall s: Byte, u: Byte :: IsNew(t, t', s) && IsNew(t, t', u) ==> s == u
  }

  /** What is issued carries its own slot and the input context of that slot's device. */
  ghost predicate NewTrbOk(d: Driver, d': Driver) {
    |d'.issued| == |d.issued| + 1 ==> TrbFor(d'.table, d'.issued[|d.issued|])
  }

  ghost predicate PlacedOk(d: Driver, d': Driver, place: Placement) {
    KeepsPlaces(d.table, d'.table, place) && NewTrbOk(d, d')
  }

  lemma PortEventPlaced(d: Driver, port: Byte, regs: PortReadings, place: Placement)
    requires DriverOk(d)
    ensures PlacedOk(d, ConfigurePort(d, port, regs).0, place)
    ensures PlacedOk(d, OnPortStatusChange(d, port, regs).0, place)
  {
  }

  lemma TransferPlaced(d: Driver, slotId: Byte, outcome: TransferOutcome, regs: PortReadings, place: Placement)
    requires DriverOk(d) && d.table.devices[0] == None
    ensures PlacedOk(d, OnTransferEvent(d, slotId, outcome, regs).0, place)
  {
  }

  lemma AddressPlaced(d: Driver, port: Byte, slotId: Byte, place: Placement)
    requires DriverOk(d) && 1 <= slotId <= MAX_SLOTS
    ensures PlacedOk(d, AddressDevice(d, port, slotId, place).0, place)
  {
    var d' := AddressDevice(d, port, slotId, place).0;
    assert d'.issued[|d.issued|].command == AddressDeviceCommand(slotId);
  }

  lemma HandOffPlaced(d: Driver, regs: PortReadings, port: Byte, slotId: Byte, place: Placement)
    requires DriverOk(d) && d.table.devices[0] == None
    ensures PlacedOk(d, HandOff(d, regs).0, place) && HandOff(d, regs).0.table == d.table
    ensures PlacedOk(d, InitializeDevice(HandOff(d, regs).0, port, slotId).0, place)
  {
  }

  lemma CompletionPlaced(h: P.Host, maxPorts: Byte, hs: P.Step)
    requires P.Inv(h, maxPorts) && P.Enabled(h, maxPorts, hs) && hs.Completion?
    ensures PlacedOk(h.d, P.After(h, maxPorts, hs).d, hs.place)
  {
    var d := h.d;
    match d.issued[h.done].command
    case EnableSlotCommand =>
      P.EnableSlotBranch(h, maxPorts, hs.regs, hs.place);
      P.EnableSlotDevices(h, maxPorts, hs);
      AddressPlaced(d, d.addressing, h.results[0], hs.place);
    case AddressDeviceCommand(s) =>
      P.AddressDeviceDone(h, maxPorts, s, hs.regs);
      P.AddressDeviceBranch(h, maxPorts, hs.regs, hs.place, s);
      HandOffPlaced(d, hs.regs, d.addressing, s, hs.place);
    case ConfigureEndpointCommand(s) => P.ConfigureEndpointBranch(h, maxPorts, hs.regs, hs.place, s);
  }

  lemma DriverPlaced(h: P.Host, maxPorts: Byte, hs: P.Step) returns (place: Placement)
    requires P.Inv(h, maxPorts) && P.Enabled(h, maxPorts, hs) && !hs.Execute?
    ensures PlacedOk(h.d, P.After(h, maxPorts, hs).d, place)
    ensures hs.Completion? ==> place == hs.place
    ensures !hs.Completion? ==>
              forall s: Byte :: P.HasDevice(P.After(h, maxPorts, hs).d.table, s) ==> P.HasDevice(h.d.table, s)
  {
    place := if hs.Completion? then hs.place else Placement(0, 0);
    match hs
    case Sweep(port, regs) => PortEventPlaced(h.d, port, regs, place);
    case PortStatus(port, regs) => PortEventPlaced(h.d, port, regs, place);
    case Transfer(s, outcome, regs) => TransferPlaced(h.d, s, outcome, regs, place);
    case Completion(_, _) => CompletionPlaced(h, maxPorts, hs);
  }

  predicate ApartAt(t: DeviceTable, s: Byte, u: Byte)
    requires P.HasDevice(t, s) && P.HasDevice(t, u)
  {
    && t.devices[s].value.context != t.devices[u].value.context
    && t.devices[s].value.inputContext != t.devices[u].value.inputContext
  }

  lemma TwoStayApart(t: DeviceTable, t': DeviceTable, place: Placement, s: Byte, u: Byte)
    requires Apart(t) && KeepsPlaces(t, t', place) && P.HasDevice(t', s) && P.HasDevice(t', u) && s != u
    requires (P.HasDevice(t, s) && P.HasDevice(t, u)) || NewPlace(t, place)
    ensures ApartAt(t', s, u)
  {
    assert !(IsNew(t, t', s) && IsNew(t, t', u));
    if P.HasDevice(t, s) && P.HasDevice(t, u) { assert ApartAt(t, s, u); }
  }

  lemma PlacesStayApart(t: DeviceTable, t': DeviceTable, place: Placement)
    requires Apart(t) && KeepsPlaces(t, t', place)
    requires (forall s: Byte :: P.HasDevice(t', s) ==> P.HasDevice(t, s)) || NewPlace(t, place)
    ensures Apart(t')
  {
    forall s: Byte | P.HasDevice(t', s) ensures t'.devices[s].value.inputContext % 16 == 0 {
      if P.HasDevice(t, s) {
        assert t'.devices[s].value.inputContext == t.devices[s].value.inputContext;
      } else {
        assert t'.devices[s].value.inputContext == place.inputContext;
        FinerMultiple(place.inputContext);
      }
    }
    forall s: Byte, u: Byte | P.HasDevice(t', s) && P.HasDevice(t', u) && s != u ensures ApartAt(t', s, u) {
      TwoStayApart(t, t', place, s, u);
    }
  }

  lemma FinerMultiple(a: nat)
    requires a % 64 == 0
    ensures a % 16 == 0
  {
    assert a == 16 * (4 * (a / 64));
  }

  lemma TrbsStay(d: Driver, d': Driver, done: nat, done': nat, place: Placement)
    requires TrbsInv(d, done) && done <= done' && PlacedOk(d, d', place)
    requires d'.issued == d.issued || (|d'.issued| == |d.issued| + 1 && d'.issued[..|d.issued|] == d.issued)
    ensures TrbsInv(d', done')
  {
    forall k | done' <= k < |d'.issued| ensures TrbFor(d'.table, d'.issued[k]) {
      if k < |d.issued| {
        assert d'.issued[k] == d'.issued[..|d.issued|][k] || d'.issued == d.issued;
        assert TrbFor(d.table, d.issued[k]);
      }
    }
  }

  lemma DriverKeepsPlaces(h: P.Host, maxPorts: Byte, hs: P.Step)
    requires P.Inv(h, maxPorts) && P.Enabled(h, maxPorts, hs) && !hs.Execute?
    requires Apart(h.d.table) && TrbsInv(h.d, h.done) && (hs.Completion? ==> NewPlace(h.d.table, hs.place))
    ensures var h' := P.After(h, maxPorts, hs); Apart(h'.d.table) && TrbsInv(h'.d, h'.done)
  {
    hide P.Inv, Apart, KeepsPlaces, TrbFor, NewPlace, OnCommandCompletion, OnTransferEvent, OnPortStatusChange;
    var place := DriverPlaced(h, maxPorts, hs);
    DriverIssuesOne(h, maxPorts, hs);
    var h' := P.After(h, maxPorts, hs);
    PlacesStayApart(h.d.table, h'.d.table, place);
    TrbsStay(h.d, h'.d, h.done, h'.done, place);
  }

  // ---- executing what was fetched is executing what was issued ----

  lemma TrbSays(t: DeviceTable, i: Issued, got: Trb)
    requires TrbFor(t, i) && Apart(t) && SameButCycle(got, i.trb)
    ensures match i.command
            case EnableSlotCommand => KindField(got) == 9
            case AddressDeviceCommand(s) =>
              && KindField(got) == 11 && SlotField(got) == s && P.HasDevice(t, s)
              && ContextField(got) == t.devices[s].value.inputContext
            case ConfigureEndpointCommand(s) =>
              && KindField(got) == 12 && SlotField(got) == s && P.HasDevice(t, s)
              && ContextField(got) == t.devices[s].value.inputContext
  {
    hide AddressDeviceTrb, ConfigureEndpointTrb, StampWord, CycleOf, Stamp;
    SameButCycleReads(i.trb, got);
    var cycle := CycleOf(got);
    EnableSlotFields(cycle);
    match i.command
    case EnableSlotCommand =>
    case AddressDeviceCommand(s) => SlotCommandRoundTrip(t.devices[s].value.inputContext, s, cycle);
    case ConfigureEndpointCommand(s) => SlotCommandRoundTrip(t.devices[s].value.inputContext, s, cycle);
  }

  /** The slot's own device is the only one that the TRB and the base address array lead to. */
  lemma OwnDevice(t: DeviceTable, s: Byte, u: Byte, v: Byte)
    requires Apart(t) && P.ContextsInv(t) && P.HasDevice(t, s)
    requires InputAt(t, t.devices[s].value.inputContext, u) && OutputAt(t, s, v)
    ensures u == v == s
  {
  }

  /** The TRB leads to the device of the command, and to no other. */
  lemma ExecutesOnly(d: Driver, i: Issued, got: Trb, slotId: Byte, d': Driver)
    requires DriverOk(d) && Apart(d.table) && P.ContextsInv(d.table) && TrbFor(d.table, i) && SameButCycle(got, i.trb)
    requires Executes(d, got, slotId, d')
    ensures d' == P.Executed(d, i.command)
    ensures match i.command
            case EnableSlotCommand => P.FreshSlot(d, slotId)
            case AddressDeviceCommand(s) => slotId == s
            case ConfigureEndpointCommand(s) => slotId == s
  {
    hide Apart, P.ContextsInv, SameButCycle, KindField, SlotField, ContextField;
    TrbSays(d.table, i, got);
    if i.command.AddressDeviceCommand? {
      var u: Byte, v: Byte :| InputAt(d.table, ContextField(got), u) && OutputAt(d.table, slotId, v) &&
                              d' == PortCopied(d, u, v);
      OwnDevice(d.table, slotId, u, v);
    }
  }

  lemma ExecutesSome(d: Driver, i: Issued, got: Trb, slotId: Byte)
    requires DriverOk(d) && Apart(d.table) && P.ContextsInv(d.table) && TrbFor(d.table, i) && SameButCycle(got, i.trb)
    requires match i.command
             case EnableSlotCommand => P.FreshSlot(d, slotId)
             case AddressDeviceCommand(s) => slotId == s
             case ConfigureEndpointCommand(s) => slotId == s
    ensures Executes(d, got, slotId, P.Executed(d, i.command))
  {
    hide Apart, SameButCycle, KindField, SlotField, ContextField;
    TrbSays(d.table, i, got);
    if !i.command.EnableSlotCommand? {
      assert InputAt(d.table, ContextField(got), slotId) && OutputAt(d.table, slotId, slotId);
    }
  }

  lemma ExecuteIsStep(j: Joint, maxPorts: Byte, slotId: Byte, j': Joint)
    requires Inv(j, maxPorts) && Next(j, maxPorts, Execute(slotId), j')
    ensures P.Enabled(j.h, maxPorts, P.Execute(slotId)) && j'.h == P.After(j.h, maxPorts, P.Execute(slotId))
  {
    hide P.Inv, R.Inv, Linked, Apart, P.ContextsInv, P.Executed, Executes, TrbFor;
    var n := j.h.done + |j.h.results|;
    GotIsIssued(j, maxPorts, n);
    P.InvGivesDriverOk(j.h, maxPorts);
    ExecutesOnly(j.h.d, j.h.d.issued[n], j.s.got[n], slotId, j'.h.d);
  }

  lemma GotIsIssued(j: Joint, maxPorts: Byte, k: nat)
    requires Inv(j, maxPorts) && k < |j.s.got|
    ensures k < |j.h.d.issued| && SameButCycle(j.s.got[k], j.h.d.issued[k].trb)
  {
    assert P.PushedTrbs(j.h.d.issued)[k] == j.h.d.issued[k].trb;
  }

  /** A fetched command can be executed, as soon as a slot is free for Enable Slot. */
  lemma FetchedIsExecutable(j: Joint, maxPorts: Byte, slotId: Byte)
    requires Inv(j, maxPorts) && |j.s.got| > j.h.done + |j.h.results| && P.Enabled(j.h, maxPorts, P.Execute(slotId))
    ensures Next(j, maxPorts, Execute(slotId), j.(h := P.After(j.h, maxPorts, P.Execute(slotId))))
  {
    hide P.Inv, R.Inv, Linked, Apart, P.ContextsInv, P.Executed, Executes, TrbFor;
    var n := j.h.done + |j.h.results|;
    GotIsIssued(j, maxPorts, n);
    P.InvGivesDriverOk(j.h, maxPorts);
    ExecutesSome(j.h.d, j.h.d.issued[n], j.s.got[n], slotId);
  }

  // ---- every Push finds room ----

  /** At most nine commands are outstanding on 31 data entries. */
  lemma AlwaysRoom(j: Joint, maxPorts: Byte)
    requires Inv(j, maxPorts)
    ensures R.Room(j.s)
  {
    P.AtMostNineOutstanding(j.h);
    assert |P.PushedTrbs(j.h.d.issued)| == |j.h.d.issued|;
  }

  lemma PushKeepsLinked(r: RingState, r': RingState, issued: seq<Issued>, issued': seq<Issued>, p: R.Producer)
    requires Linked(r, issued, p) && p.todo == [] && |issued'| == |issued| + 1 && issued'[..|issued|] == issued
    requires r' == Pushed(r, issued'[|issued|].trb)
    ensures r == p.ring && Linked(r', issued', R.Begun(p, issued'[|issued|].trb))
  {
    var data := issued'[|issued|].trb;
    R.StoresAmountToPush(r, data);
    assert P.PushedTrbs(issued') == P.PushedTrbs(issued) + [data] by {
      forall k | 0 <= k < |issued| ensures issued'[k] == issued[k] {
        assert issued'[..|issued|][k] == issued'[k];
      }
    }
  }

  lemma PushIsGuarded(s: R.Sys, data: Trb)
    requires R.Inv(s) && s.prod.todo == [] && R.Room(s) && TypeOf(data) != LINK
    ensures R.Inv(s.(prod := R.Begun(s.prod, data)))
  {
    var s' := s.(prod := R.Begun(s.prod, data));
    assert R.Begin(s.prod, s'.prod, data);
    R.NextKeepsInv(s, s');
  }

  lemma DriverKeepsInv(j: Joint, maxPorts: Byte, hs: P.Step, j': Joint)
    requires Inv(j, maxPorts) && Next(j, maxPorts, Handle(hs), j')
    ensures Inv(j', maxPorts)
  {
    hide P.Inv, R.Inv, P.After, Linked, R.Begun, Pushed, R.Room, Apart, TrbsInv, NewPlace;
    P.StepKeepsInv(j.h, maxPorts, hs);
    DriverIssuesOne(j.h, maxPorts, hs);
    AlwaysRoom(j, maxPorts);
    ProgressStays(j.h, maxPorts, hs);
    DriverKeepsPlaces(j.h, maxPorts, hs);
    var n := |j.h.d.issued|;
    if |j'.h.d.issued| > n {
      PushKeepsLinked(j.h.d.ring, j'.h.d.ring, j.h.d.issued, j'.h.d.issued, j.s.prod);
      PushIsGuarded(j.s, j'.h.d.issued[n].trb);
    }
  }

  /** What the controller has executed, a handler leaves alone. */
  lemma ProgressStays(h: P.Host, maxPorts: Byte, hs: P.Step)
    requires P.Enabled(h, maxPorts, hs) && !hs.Execute?
    ensures var h' := P.After(h, maxPorts, hs); h'.done + |h'.results| == h.done + |h.results|
  {
  }

  lemma StoreKeepsInv(j: Joint, maxPorts: Byte, j': Joint)
    requires Inv(j, maxPorts) && Next(j, maxPorts, Store, j')
    ensures Inv(j', maxPorts)
  {
    hide P.Inv, R.Inv;
    R.NextKeepsInv(j.s, j'.s);
  }

  lemma FetchKeepsInv(j: Joint, maxPorts: Byte, s': R.Sys, j': Joint)
    requires Inv(j, maxPorts) && Next(j, maxPorts, Fetch(s'), j')
    ensures Inv(j', maxPorts)
  {
    hide P.Inv, R.Inv, Linked;
    R.NextKeepsInv(j.s, j'.s);
  }

  lemma ExecuteKeepsInv(j: Joint, maxPorts: Byte, slotId: Byte, j': Joint)
    requires Inv(j, maxPorts) && Next(j, maxPorts, Execute(slotId), j')
    ensures Inv(j', maxPorts)
  {
    hide P.Inv, R.Inv, Linked, Executes, P.After;
    ExecuteIsStep(j, maxPorts, slotId, j');
    P.StepKeepsInv(j.h, maxPorts, P.Execute(slotId));
    DriverIssuesOne(j.h, maxPorts, P.Execute(slotId));
    ExecuteKeepsPlaces(j.h, maxPorts, slotId);
  }

  lemma ExecuteKeepsPlaces(h: P.Host, maxPorts: Byte, slotId: Byte)
    requires P.Enabled(h, maxPorts, P.Execute(slotId)) && Apart(h.d.table) && TrbsInv(h.d, h.done)
    ensures var h' := P.After(h, maxPorts, P.Execute(slotId));
            Apart(h'.d.table) && TrbsInv(h'.d, h'.done) && h'.done + |h'.results| == h.done + |h.results| + 1
  {
    var h' := P.After(h, maxPorts, P.Execute(slotId));
    assert KeepsPlaces(h.d.table, h'.d.table, Placement(0, 0));
    PlacesStayApart(h.d.table, h'.d.table, Placement(0, 0));
    TrbsStay(h.d, h'.d, h.done, h'.done, Placement(0, 0));
  }

  lemma StepKeepsInv(j: Joint, maxPorts: Byte, step: Step, j': Joint)
    requires Inv(j, maxPorts) && Next(j, maxPorts, step, j')
    ensures Inv(j', maxPorts)
  {
    hide Inv, Next;
    match step
    case Handle(hs) => DriverKeepsInv(j, maxPorts, hs, j');
    case Store => StoreKeepsInv(j, maxPorts, j');
    case Fetch(s') => FetchKeepsInv(j, maxPorts, s', j');
    case Execute(slotId) => ExecuteKeepsInv(j, maxPorts, slotId, j');
  }

  lemma {:induction false} RunKeepsInv(js: seq<Joint>, steps: seq<Step>, maxPorts: Byte, i: nat)
    requires Run(js, steps, maxPorts) && i < |js|
    ensures Inv(js[i], maxPorts)
  {
    hide Inv, Init, Next;
    if i == 0 {
      InitInv(js[0], maxPorts);
    } else {
      RunKeepsInv(js, steps, maxPorts, i - 1);
      StepKeepsInv(js[i - 1], maxPorts, steps[i - 1], js[(i - 1) + 1]);
    }
  }

  // ---- what every run guarantees ----

  /** No handler checks for room on the command ring, and none needs to. */
  lemma EveryPushFindsRoom(js: seq<Joint>, steps: seq<Step>, maxPorts: Byte, i: nat)
    requires Run(js, steps, maxPorts) && i < |js|
    ensures R.Room(js[i].s) && |js[i].h.d.issued| - js[i].h.done <= 9
  {
    RunKeepsInv(js, steps, maxPorts, i);
    AlwaysRoom(js[i], maxPorts);
    P.AtMostNineOutstanding(js[i].h);
  }

  /**
   * The k-th TRB that the controller fetches is the k-th command issued, whole, whatever the interleaving of stores.
   */
  lemma FetchesWhatWasIssued(js: seq<Joint>, steps: seq<Step>, maxPorts: Byte, i: nat, k: nat)
    requires Run(js, steps, maxPorts) && i < |js| && k < |js[i].s.got|
    ensures k < |js[i].h.d.issued| && SameButCycle(js[i].s.got[k], js[i].h.d.issued[k].trb)
    ensures TypeOf(js[i].s.got[k]) == CommandType(js[i].h.d.issued[k].command)
  {
    RunKeepsInv(js, steps, maxPorts, i);
    var j := js[i];
    assert P.PushedTrbs(j.h.d.issued)[k] == j.h.d.issued[k].trb;
    SameButCycleReads(j.s.got[k], j.h.d.issued[k].trb);
  }

  /** What the controller reads of it: the slot of the command, and the input context of that slot's device. */
  lemma FetchedTrbNamesItsDevice(js: seq<Joint>, steps: seq<Step>, maxPorts: Byte, i: nat, k: nat)
    requires Run(js, steps, maxPorts) && i < |js| && js[i].h.done <= k < |js[i].s.got|
    ensures k < |js[i].h.d.issued|
    ensures var d, got := js[i].h.d, js[i].s.got[k];
            match d.issued[k].command
            case EnableSlotCommand => KindField(got) == 9
            case AddressDeviceCommand(s) =>
              && KindField(got) == 11 && SlotField(got) == s && P.HasDevice(d.table, s)
              && ContextField(got) == d.table.devices[s].value.inputContext
            case ConfigureEndpointCommand(s) =>
              && KindField(got) == 12 && SlotField(got) == s && P.HasDevice(d.table, s)
              && ContextField(got) == d.table.devices[s].value.inputContext
  {
    RunKeepsInv(js, steps, maxPorts, i);
    GotIsIssued(js[i], maxPorts, k);
    TrbSays(js[i].h.d.table, js[i].h.d.issued[k], js[i].s.got[k]);
  }

  /** What the controller does with the TRB it fetched is what the port protocol expects of the command. */
  lemma ExecutesTheCommand(js: seq<Joint>, steps: seq<Step>, maxPorts: Byte, i: nat)
    requires Run(js, steps, maxPorts) && i < |steps| && steps[i].Execute?
    ensures var hs := P.Execute(steps[i].slotId);
            P.Enabled(js[i].h, maxPorts, hs) && js[i + 1].h == P.After(js[i].h, maxPorts, hs)
  {
    hide Inv, P.After, P.Enabled;
    RunKeepsInv(js, steps, maxPorts, i);
    assert Next(js[i], maxPorts, steps[i], js[i + 1]);
    ExecuteIsStep(js[i], maxPorts, steps[i].slotId, js[i + 1]);
  }

  /** With no store under way a command outstanding is one that the controller finds. */
  lemma EveryCommandIsFound(js: seq<Joint>, steps: seq<Step>, maxPorts: Byte, i: nat)
    requires Run(js, steps, maxPorts) && i < |js| && js[i].s.prod.todo == [] && |js[i].s.got| < |js[i].h.d.issued|
    ensures R.HcOwns(js[i].s)
  {
    RunKeepsInv(js, steps, maxPorts, i);
    assert |P.PushedTrbs(js[i].h.d.issued)| == |js[i].h.d.issued|;
    R.NeverStuck(js[i].s);
  }

  /** The entry that a completion event names still holds, in memory, the type of the command that it answers. */
  lemma CompletionReadsBack(js: seq<Joint>, steps: seq<Step>, maxPorts: Byte, i: nat)
    requires Run(js, steps, maxPorts) && i < |steps| && steps[i].Handle? && steps[i].step.Completion?
    ensures var h, mem := js[i].h, js[i].s.prod.ring.mem;
            && h.done < |h.d.issued| && h.d.issued[h.done].index < |mem|
            && TypeOf(mem[h.d.issued[h.done].index]) == CommandType(h.d.issued[h.done].command)
  {
    RunKeepsInv(js, steps, maxPorts, i);
    assert Next(js[i], maxPorts, steps[i], js[i + 1]);
    P.IssuerReadBack(js[i].h, maxPorts);
  }
}
