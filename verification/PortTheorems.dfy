/** What the port configuration protocol guarantees in every run, for any number of ports up to 255. */
module PortTheorems {
  import opened Wrappers
  import opened Trbs
  import opened Rings
  import opened DeviceManagers
  import opened PortConfig
  import opened PortProtocol

  /** hs[0], steps[0], hs[1], steps[1], ..., hs[|steps|] */
  ghost predicate Run(hs: seq<Host>, steps: seq<Step>, maxPorts: Byte) {
    && |hs| == |steps| + 1 && Init(hs[0])
    && forall i :: 0 <= i < |steps| ==>
      Enabled(hs[i], maxPorts, steps[i]) && hs[i + 1] == After(hs[i], maxPorts, steps[i])
  }

  lemma {:induction false} RunKeepsInv(hs: seq<Host>, steps: seq<Step>, maxPorts: Byte, i: nat)
    requires Run(hs, steps, maxPorts) && i < |hs|
    ensures Inv(hs[i], maxPorts)
  {
    if i == 0 {
      InitInv(hs[0], maxPorts);
    } else {
      RunKeepsInv(hs, steps, maxPorts, i - 1);
      StepKeepsInv(hs[i - 1], maxPorts, steps[i - 1]);
      assert hs[(i - 1) + 1] == After(hs[i - 1], maxPorts, steps[i - 1]);
    }
  }

  // ---- mutual exclusion ----

  /** At most one port is between reset and address assignment; addressing_port is that port, or 0. */
  lemma MutualExclusion(hs: seq<Host>, steps: seq<Step>, maxPorts: Byte, i: nat)
    requires Run(hs, steps, maxPorts) && i < |hs|
    ensures var d := hs[i].d;
            && |d.phases| == PORTS && d.phases[0] == NotConnected
            && (forall p, q :: 0 <= p < PORTS && 0 <= q < PORTS && Critical(d.phases[p]) && Critical(d.phases[q]) ==>
              p == q)
            && (forall p :: 0 <= p < PORTS && Critical(d.phases[p]) ==> d.addressing == p)
            && (d.addressing == 0 <==> forall p :: 0 <= p < PORTS ==> !Critical(d.phases[p]))
  {
    RunKeepsInv(hs, steps, maxPorts, i);
    var d := hs[i].d;
    assert d.addressing != 0 ==> Critical(d.phases[d.addressing]);
  }

  // ---- completions ----

  /** The TRB type read back through a completion event is the type of the command issued, and its handler succeeds. */
  lemma CompletionsMatchCommands(hs: seq<Host>, steps: seq<Step>, maxPorts: Byte, i: nat)
    requires Run(hs, steps, maxPorts) && i < |steps| && steps[i].Completion?
    ensures var h := hs[i];
            && TypeOf(h.d.ring.mem[h.d.issued[h.done].index]) == CommandType(h.d.issued[h.done].command)
            && OnCommandCompletion(h.d, h.d.issued[h.done].index, h.results[0], steps[i].regs, steps[i].place).1 ==
              Success
  {
    RunKeepsInv(hs, steps, maxPorts, i);
    IssuerReadBack(hs[i], maxPorts);
    CompletionKeepsInv(hs[i], maxPorts, steps[i].regs, steps[i].place);
  }

  // ---- devices ----

  /** The device of slot s is the only one at port p. */
  ghost predicate IsOnlyDevice(t: DeviceTable, s: int, p: int) {
    HasDevice(t, s) && PortOf(t, s) == p && forall u :: HasDevice(t, u) && PortOf(t, u) == p ==> u == s
  }

  /** Slots, contexts and root ports agree; a port from kAddressingDevice onward has exactly one device. */
  lemma DevicesMatchPorts(hs: seq<Host>, steps: seq<Step>, maxPorts: Byte, i: nat)
    requires Run(hs, steps, maxPorts) && i < |hs|
    ensures var d := hs[i].d; var t := d.table;
            && |t.devices| == |t.contexts| == MAX_SLOTS + 1 && |d.phases| == PORTS
            && (forall s :: HasDevice(t, s) ==>
              t.devices[s].value.slotId == s && t.contexts[s] == Some(t.devices[s].value.context))
            && (forall s :: 1 <= s <= MAX_SLOTS && t.contexts[s].Some? ==> HasDevice(t, s))
            && (forall s, u :: HasDevice(t, s) && HasDevice(t, u) && s != u && t.devices[s].value.outputPort != 0 ==>
                  t.devices[s].value.outputPort != t.devices[u].value.outputPort)
            && (forall p :: 0 <= p < PORTS && Rank(d.phases[p]) >= 4 ==>
                  exists s :: IsOnlyDevice(t, s, p))
  {
    RunKeepsInv(hs, steps, maxPorts, i);
    var d := hs[i].d;
    var t := d.table;
    forall s, u | HasDevice(t, s) && HasDevice(t, u) && s != u && t.devices[s].value.outputPort != 0
      ensures t.devices[s].value.outputPort != t.devices[u].value.outputPort
    {
      assert DeviceOk(t.devices[s].value, s, d.phases[PortOf(t, s)]) &&
        DeviceOk(t.devices[u].value, u, d.phases[PortOf(t, u)]);
      assert PortOf(t, s) != PortOf(t, u);
    }
    forall p | 0 <= p < PORTS && Rank(d.phases[p]) >= 4
      ensures exists s :: IsOnlyDevice(t, s, p)
    {
      var s :| HasDevice(t, s) && PortOf(t, s) == p;
      forall u | HasDevice(t, u) && PortOf(t, u) == p ensures u == s {
        assert PortOf(t, u) == PortOf(t, s);
      }
      assert IsOnlyDevice(t, s, p);
    }
  }

  // ---- phases only move forward ----

  lemma EnableSlotMovesForward(h: Host, maxPorts: Byte, step: Step, p: nat)
    requires Inv(h, maxPorts) && Enabled(h, maxPorts, step) && step.Completion? && p < PORTS
    requires h.d.issued[h.done].command.EnableSlotCommand?
    ensures DriverOk(After(h, maxPorts, step).d) && Rank(h.d.phases[p]) <= Rank(After(h, maxPorts, step).d.phases[p])
  {
    EnableSlotEffect(h, maxPorts, step);
  }

  lemma AddressDeviceMovesForward(h: Host, maxPorts: Byte, step: Step, p: nat)
    requires Inv(h, maxPorts) && Enabled(h, maxPorts, step) && step.Completion? && p < PORTS
    requires h.d.issued[h.done].command.AddressDeviceCommand?
    ensures DriverOk(After(h, maxPorts, step).d) && Rank(h.d.phases[p]) <= Rank(After(h, maxPorts, step).d.phases[p])
  {
    hide Inv, After;
    AddressDeviceEffect(h, maxPorts, step, h.d.issued[h.done].command.slotId);
  }

  lemma ConfigureMovesForward(h: Host, maxPorts: Byte, step: Step, p: nat)
    requires Inv(h, maxPorts) && Enabled(h, maxPorts, step) && step.Completion? && p < PORTS
    requires h.d.issued[h.done].command.ConfigureEndpointCommand?
    ensures DriverOk(After(h, maxPorts, step).d) && Rank(h.d.phases[p]) <= Rank(After(h, maxPorts, step).d.phases[p])
  {
    ConfigureEndpointEffect(h, maxPorts, step, h.d.issued[h.done].command.slotId);
  }

  lemma CompletionMovesForward(h: Host, maxPorts: Byte, step: Step, p: nat)
    requires Inv(h, maxPorts) && Enabled(h, maxPorts, step) && step.Completion? && p < PORTS
    ensures DriverOk(After(h, maxPorts, step).d) && Rank(h.d.phases[p]) <= Rank(After(h, maxPorts, step).d.phases[p])
  {
    match h.d.issued[h.done].command
    case EnableSlotCommand => EnableSlotMovesForward(h, maxPorts, step, p);
    case AddressDeviceCommand(_) => AddressDeviceMovesForward(h, maxPorts, step, p);
    case ConfigureEndpointCommand(_) => ConfigureMovesForward(h, maxPorts, step, p);
  }

  lemma TransferMovesForward(d: Driver, slotId: Byte, outcome: TransferOutcome, regs: PortReadings, p: nat)
    requires DriverOk(d) && p < PORTS
    ensures Rank(d.phases[p]) <= Rank(OnTransferEvent(d, slotId, outcome, regs).0.phases[p])
  {
  }

  lemma PortEventMovesForward(d: Driver, port: Byte, regs: PortReadings, p: nat)
    requires DriverOk(d) && p < PORTS
    ensures Rank(d.phases[p]) <= Rank(ConfigurePort(d, port, regs).0.phases[p])
    ensures Rank(d.phases[p]) <= Rank(OnPortStatusChange(d, port, regs).0.phases[p])
  {
  }

  lemma StepMovesForward(h: Host, maxPorts: Byte, step: Step, p: nat)
    requires Inv(h, maxPorts) && Enabled(h, maxPorts, step) && p < PORTS
    ensures DriverOk(After(h, maxPorts, step).d) && Rank(h.d.phases[p]) <= Rank(After(h, maxPorts, step).d.phases[p])
  {
    match step
    case Completion(_, _) => CompletionMovesForward(h, maxPorts, step, p);
    case Transfer(slotId, outcome, regs) => TransferMovesForward(h.d, slotId, outcome, regs, p);
    case Sweep(port, regs) => PortEventMovesForward(h.d, port, regs, p);
    case PortStatus(port, regs) => PortEventMovesForward(h.d, port, regs, p);
    case Execute(_) =>
  }

  lemma {:induction false} RunMovesForward(hs: seq<Host>, steps: seq<Step>, maxPorts: Byte, i: nat, j: nat, p: nat)
    requires Run(hs, steps, maxPorts) && i <= j < |hs| && p < PORTS
    ensures DriverOk(hs[i].d) && DriverOk(hs[j].d) && Rank(hs[i].d.phases[p]) <= Rank(hs[j].d.phases[p])
    decreases j - i
  {
    RunKeepsInv(hs, steps, maxPorts, i);
    if i < j {
      StepMovesForward(hs[i], maxPorts, steps[i], p);
      RunMovesForward(hs, steps, maxPorts, i + 1, j, p);
    }
  }

  predicate Enters(h: Host, h': Host, p: nat, phase: ConfigPhase)
    requires p < PORTS
  {
    DriverOk(h.d) && DriverOk(h'.d) && h.d.phases[p] != phase && h'.d.phases[p] == phase
  }

  lemma EnteredBefore(hs: seq<Host>, steps: seq<Step>, maxPorts: Byte, i: nat, j: nat, p: nat, phase: ConfigPhase)
    requires Run(hs, steps, maxPorts) && i < j < |steps| && p < PORTS && Enters(hs[i], hs[i + 1], p, phase)
    ensures !Enters(hs[j], hs[j + 1], p, phase)
  {
    RunMovesForward(hs, steps, maxPorts, i + 1, j, p);
    RunMovesForward(hs, steps, maxPorts, j, j + 1, p);
  }

  /** A port enters a phase at most once; in particular it is reset once and addressed once. */
  lemma EntersPhaseOnce(hs: seq<Host>, steps: seq<Step>, maxPorts: Byte, i: nat, j: nat, p: nat, phase: ConfigPhase)
    requires Run(hs, steps, maxPorts) && i < |steps| && j < |steps| && p < PORTS
    requires Enters(hs[i], hs[i + 1], p, phase) && Enters(hs[j], hs[j + 1], p, phase)
    ensures i == j
  {
    if i < j {
      EnteredBefore(hs, steps, maxPorts, i, j, p, phase);
    } else if j < i {
      EnteredBefore(hs, steps, maxPorts, j, i, p, phase);
    }
  }

  /** Number of ports below n whose phase differs. */
  function Differences(a: seq<ConfigPhase>, b: seq<ConfigPhase>, n: nat): nat
    requires n <= |a| && n <= |b|
  {
    if n == 0 then 0 else Differences(a, b, n - 1) + (if a[n - 1] != b[n - 1] then 1 else 0)
  }

  function TotalRank(a: seq<ConfigPhase>, n: nat): nat
    requires n <= |a|
  {
    if n == 0 then 0 else TotalRank(a, n - 1) + Rank(a[n - 1])
  }

  lemma {:induction false} DifferencesCostRank(a: seq<ConfigPhase>, b: seq<ConfigPhase>, n: nat)
    requires n <= |a| && n <= |b| && forall p :: 0 <= p < n ==> Rank(a[p]) <= Rank(b[p])
    ensures Differences(a, b, n) + TotalRank(a, n) <= TotalRank(b, n)
  {
    if n > 0 { DifferencesCostRank(a, b, n - 1); }
  }

  lemma {:induction false} RankBounded(a: seq<ConfigPhase>, n: nat, maxPorts: nat)
    requires n <= |a| && forall p :: 0 <= p < n && a[p] != NotConnected ==> 1 <= p <= maxPorts
    ensures TotalRank(a, n) <= 7 * (if n <= maxPorts then (if n == 0 then 0 else n - 1) else maxPorts)
  {
    if n > 0 { RankBounded(a, n - 1, maxPorts); }
  }

  /** Phase changes in the first n steps, over all ports. */
  function PhaseChanges(hs: seq<Host>, n: nat): nat
    requires n < |hs| && forall k :: 0 <= k < |hs| ==> DriverOk(hs[k].d)
  {
    if n == 0 then 0 else PhaseChanges(hs, n - 1) + Differences(hs[n - 1].d.phases, hs[n].d.phases, PORTS)
  }

  lemma {:induction false} ChangesCostRank(hs: seq<Host>, steps: seq<Step>, maxPorts: Byte, n: nat)
    requires Run(hs, steps, maxPorts) && n < |hs| && forall k :: 0 <= k < |hs| ==> DriverOk(hs[k].d)
    ensures PhaseChanges(hs, n) <= TotalRank(hs[n].d.phases, PORTS)
  {
    if n > 0 {
      ChangesCostRank(hs, steps, maxPorts, n - 1);
      forall p | 0 <= p < PORTS ensures Rank(hs[n - 1].d.phases[p]) <= Rank(hs[n].d.phases[p]) {
        RunMovesForward(hs, steps, maxPorts, n - 1, n, p);
      }
      DifferencesCostRank(hs[n - 1].d.phases, hs[n].d.phases, PORTS);
    }
  }

  /** However long the run, it contains at most 7 * MaxPorts phase changes. */
  lemma AtMostSevenChangesPerPort(hs: seq<Host>, steps: seq<Step>, maxPorts: Byte)
    requires Run(hs, steps, maxPorts)
    ensures forall k :: 0 <= k < |hs| ==> DriverOk(hs[k].d)
    ensures PhaseChanges(hs, |steps|) <= 7 * maxPorts
  {
    forall k | 0 <= k < |hs| ensures DriverOk(hs[k].d) { RunKeepsInv(hs, steps, maxPorts, k); }
    ChangesCostRank(hs, steps, maxPorts, |steps|);
    RunKeepsInv(hs, steps, maxPorts, |steps|);
    RankBounded(hs[|steps|].d.phases, PORTS, maxPorts);
  }

  // ---- no lost hand-off ----

  /** No port waits for a lock that nobody holds. */
  predicate NoneStranded(d: Driver)
    requires DriverOk(d)
  {
    (exists p :: 0 <= p < PORTS && d.phases[p] == WaitingAddressed) ==> d.addressing != 0
  }

  predicate IsHandOff(h: Host, step: Step) {
    step.Completion? && h.done < |h.d.issued| && h.d.issued[h.done].command.AddressDeviceCommand?
  }

  /** Every waiting port, or at least the first, is still connected when the hand-off looks at it. */
  predicate FirstWaiterConnected(h: Host, step: Step)
    requires DriverOk(h.d) && step.Completion?
  {
    var w := FirstWaiting(h.d.phases, 0);
    w == PORTS || step.regs[w].connected
  }

  /** The hand-off strands a port exactly when the first waiting port has been disconnected. */
  lemma HandOffStrands(h: Host, maxPorts: Byte, step: Step)
    requires Inv(h, maxPorts) && Enabled(h, maxPorts, step) && IsHandOff(h, step)
    ensures DriverOk(After(h, maxPorts, step).d)
    ensures NoneStranded(After(h, maxPorts, step).d) <==> FirstWaiterConnected(h, step)
  {
    var s := h.d.issued[h.done].command.slotId;
    AddressDeviceEffect(h, maxPorts, step, s);
    var w := FirstWaiting(h.d.phases, 0);
    var d' := After(h, maxPorts, step).d;
    if w < PORTS && !step.regs[w].connected {
      assert d'.phases[w] == WaitingAddressed && d'.addressing == 0;
    }
  }

  lemma TransferStrandsNone(d: Driver, slotId: Byte, outcome: TransferOutcome, regs: PortReadings)
    requires DriverOk(d) && NoneStranded(d)
    ensures NoneStranded(OnTransferEvent(d, slotId, outcome, regs).0)
  {
    var d' := OnTransferEvent(d, slotId, outcome, regs).0;
    if p :| 0 <= p < PORTS && d'.phases[p] == WaitingAddressed { assert d.phases[p] == WaitingAddressed; }
  }

  /** Every other step keeps the lock or the absence of waiters. */
  lemma OtherStepsStrandNone(h: Host, maxPorts: Byte, step: Step)
    requires Inv(h, maxPorts) && Enabled(h, maxPorts, step) && !IsHandOff(h, step) && NoneStranded(h.d)
    ensures DriverOk(After(h, maxPorts, step).d) && NoneStranded(After(h, maxPorts, step).d)
  {
    hide Inv;
    match step
    case Completion(_, _) =>
      match h.d.issued[h.done].command {
        case EnableSlotCommand => EnableSlotEffect(h, maxPorts, step);
        case ConfigureEndpointCommand(s) => ConfigureEndpointEffect(h, maxPorts, step, s);
      }
    case Transfer(slotId, outcome, regs) => TransferStrandsNone(h.d, slotId, outcome, regs);
    case _ =>
  }

  /** As long as every hand-off finds its first waiting port connected, a waiting port implies a taken lock. */
  lemma {:induction false} NoLostHandOff(hs: seq<Host>, steps: seq<Step>, maxPorts: Byte, i: nat)
    requires Run(hs, steps, maxPorts) && i < |hs|
    requires forall k :: 0 <= k < i && IsHandOff(hs[k], steps[k]) ==>
             DriverOk(hs[k].d) && FirstWaiterConnected(hs[k], steps[k])
    ensures DriverOk(hs[i].d) && NoneStranded(hs[i].d)
  {
    if i > 0 {
      NoLostHandOff(hs, steps, maxPorts, i - 1);
      RunKeepsInv(hs, steps, maxPorts, i - 1);
      assert hs[(i - 1) + 1] == After(hs[i - 1], maxPorts, steps[i - 1]);
      if IsHandOff(hs[i - 1], steps[i - 1]) {
        HandOffStrands(hs[i - 1], maxPorts, steps[i - 1]);
      } else {
        OtherStepsStrandNone(hs[i - 1], maxPorts, steps[i - 1]);
      }
    }
  }

  // A run with two ports: port 2 waits, is unplugged, and stays waiting although the lock is free.

  const READY: PortReadings := seq(PORTS, _ => PortRegisters(true, true, true, 3))
  const UNPLUGGED: PortReadings := READY[2 := PortRegisters(false, false, false, 0)]

  /** b follows from a by the steps p and then q. */
  ghost predicate TwoSteps(a: Host, p: Step, mid: Host, q: Step, b: Host, maxPorts: Byte) {
    Enabled(a, maxPorts, p) && mid == After(a, maxPorts, p) && Enabled(mid, maxPorts, q) && b == After(mid, maxPorts, q)
  }

  lemma BothPortsConnected(h0: Host, maxPorts: Byte) returns (h1: Host, h2: Host)
    requires Init(h0) && maxPorts >= 2
    ensures TwoSteps(h0, Sweep(1, READY), h1, Sweep(2, READY), h2, maxPorts) && Inv(h2, maxPorts)
    ensures h2.d.addressing == 1 && h2.d.phases[1] == ResettingPort && h2.d.phases[2] == WaitingAddressed
    ensures h2.d.issued == [] && h2.done == 0 && h2.results == [] && !HasDevice(h2.d.table, 1)
  {
    InitInv(h0, maxPorts);
    h1 := After(h0, maxPorts, Sweep(1, READY));
    StepKeepsInv(h0, maxPorts, Sweep(1, READY));
    h2 := After(h1, maxPorts, Sweep(2, READY));
    StepKeepsInv(h1, maxPorts, Sweep(2, READY));
  }

  lemma FirstPortEnabled(h2: Host, maxPorts: Byte) returns (h3: Host, h4: Host)
    requires Inv(h2, maxPorts) && maxPorts >= 2 && !HasDevice(h2.d.table, 1)
    requires h2.d.addressing == 1 && h2.d.phases[1] == ResettingPort && h2.d.phases[2] == WaitingAddressed
    requires h2.d.issued == [] && h2.done == 0 && h2.results == []
    ensures TwoSteps(h2, PortStatus(1, READY), h3, Execute(1), h4, maxPorts) && Inv(h4, maxPorts)
    ensures h4.d.addressing == 1 && h4.d.phases[2] == WaitingAddressed && !HasDevice(h4.d.table, 1)
    ensures |h4.d.issued| == 1 && h4.d.issued[0].command == EnableSlotCommand && h4.done == 0 && h4.results == [1]
  {
    h3 := After(h2, maxPorts, PortStatus(1, READY));
    StepKeepsInv(h2, maxPorts, PortStatus(1, READY));
    assert |h3.d.issued| == 1 && h3.d.issued[0].command == EnableSlotCommand;
    h4 := After(h3, maxPorts, Execute(1));
    StepKeepsInv(h3, maxPorts, Execute(1));
  }

  lemma FirstPortAddressed(h4: Host, maxPorts: Byte, place: Placement) returns (h5: Host, h6: Host)
    requires Inv(h4, maxPorts) && !HasDevice(h4.d.table, 1)
    requires h4.d.addressing == 1 && h4.d.phases[2] == WaitingAddressed
    requires |h4.d.issued| == 1 && h4.d.issued[0].command == EnableSlotCommand && h4.done == 0 && h4.results == [1]
    ensures TwoSteps(h4, Completion(READY, place), h5, Execute(1), h6, maxPorts) && Inv(h6, maxPorts)
    ensures h6.d.addressing == 1 && h6.d.phases[2] == WaitingAddressed && h6.done == 1 && h6.results == [1]
    ensures |h6.d.issued| == 2 && h6.d.issued[1].command == AddressDeviceCommand(1)
  {
    IssuerReadBack(h4, maxPorts);
    assert CommandOk(h4.d.phases, 1, h4.d.table, EnableSlotCommand, WasExecuted(h4, 0), ResultOf(h4, 0));
    h5 := After(h4, maxPorts, Completion(READY, place));
    StepKeepsInv(h4, maxPorts, Completion(READY, place));
    AddressKeepsState(h4.d, maxPorts, 1, place);
    h6 := After(h5, maxPorts, Execute(1));
    StepKeepsInv(h5, maxPorts, Execute(1));
  }

  lemma LockReleasedToNobody(h6: Host, maxPorts: Byte, place: Placement) returns (h7: Host)
    requires Inv(h6, maxPorts) && h6.d.addressing == 1 && h6.d.phases[2] == WaitingAddressed && h6.done == 1
    requires h6.results == [1]
    requires |h6.d.issued| == 2 && h6.d.issued[1].command == AddressDeviceCommand(1)
    ensures Enabled(h6, maxPorts, Completion(UNPLUGGED, place))
    ensures h7 == After(h6, maxPorts, Completion(UNPLUGGED, place))
    ensures DriverOk(h7.d) && h7.d.phases[2] == WaitingAddressed && h7.d.addressing == 0
  {
    IssuerReadBack(h6, maxPorts);
    assert FirstWaiting(h6.d.phases, 0) == 2;
    h7 := After(h6, maxPorts, Completion(UNPLUGGED, place));
    AddressDeviceEffect(h6, maxPorts, Completion(UNPLUGGED, place), 1);
  }

  lemma StrandedRunExists(h0: Host, maxPorts: Byte, place: Placement) returns (hs: seq<Host>, steps: seq<Step>)
    requires Init(h0) && maxPorts >= 2
    ensures Run(hs, steps, maxPorts) && hs[0] == h0
    ensures var d := hs[|steps|].d; DriverOk(d) && d.phases[2] == WaitingAddressed && d.addressing == 0
  {
    hide Inv, Init, Enabled, After;
    var h1, h2 := BothPortsConnected(h0, maxPorts);
    var h3, h4 := FirstPortEnabled(h2, maxPorts);
    var h5, h6 := FirstPortAddressed(h4, maxPorts, place);
    var h7 := LockReleasedToNobody(h6, maxPorts, place);
    hs, steps := [h0], [];
    hs, steps := Extend(hs, steps, maxPorts, Sweep(1, READY));
    hs, steps := Extend(hs, steps, maxPorts, Sweep(2, READY));
    hs, steps := Extend(hs, steps, maxPorts, PortStatus(1, READY));
    hs, steps := Extend(hs, steps, maxPorts, Execute(1));
    hs, steps := Extend(hs, steps, maxPorts, Completion(READY, place));
    hs, steps := Extend(hs, steps, maxPorts, Execute(1));
    hs, steps := Extend(hs, steps, maxPorts, Completion(UNPLUGGED, place));
  }

  /** A run followed by one more step. */
  lemma Extend(hs: seq<Host>, steps: seq<Step>, maxPorts: Byte, step: Step) returns (hs': seq<Host>, steps': seq<Step>)
    requires Run(hs, steps, maxPorts) && Enabled(hs[|steps|], maxPorts, step)
    ensures Run(hs', steps', maxPorts) && hs'[0] == hs[0] && hs'[|steps'|] == After(hs[|steps|], maxPorts, step)
  {
    hs', steps' := hs + [After(hs[|steps|], maxPorts, step)], steps + [step];
    forall i | 0 <= i < |steps'|
      ensures Enabled(hs'[i], maxPorts, steps'[i]) && hs'[i + 1] == After(hs'[i], maxPorts, steps'[i])
    {
      if i < |steps| { assert hs'[i] == hs[i] && hs'[i + 1] == hs[i + 1] && steps'[i] == steps[i]; }
    }
  }

  // ---- what a completion does for its port ----

  /** When its completion is handled, the port that awaited the command moves to the next phase. */
  lemma CompletionAdvancesPort(h: Host, maxPorts: Byte, step: Step)
    requires Inv(h, maxPorts) && Enabled(h, maxPorts, step) && step.Completion?
    ensures var d, d' := h.d, After(h, maxPorts, step).d;
            DriverOk(d') &&
            match d.issued[h.done].command
            case EnableSlotCommand => d.phases[d.addressing] == EnablingSlot &&
              d'.phases[d.addressing] == AddressingDevice
            case AddressDeviceCommand(s) => HasDevice(d.table, s) && d'.phases[PortOf(d.table, s)] == InitializingDevice
            case ConfigureEndpointCommand(s) => HasDevice(d.table, s) && d'.phases[PortOf(d.table, s)] == Configured
  {
    match h.d.issued[h.done].command
    case EnableSlotCommand => EnableSlotEffect(h, maxPorts, step);
    case AddressDeviceCommand(s) => AddressDeviceEffect(h, maxPorts, step, s);
    case ConfigureEndpointCommand(s) => ConfigureEndpointEffect(h, maxPorts, step, s);
  }
}
