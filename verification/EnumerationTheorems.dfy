/** What enumeration and polling guarantee in every run of one device, and exactly when the code is safe. */
module EnumerationTheorems {
  import opened Wrappers
  import opened Trbs
  import opened ArrayMaps
  import opened Transfers
  import opened RequestMatching
  import opened Descriptors
  import opened HidDrivers
  import opened UsbDevices
  import opened Enumeration
  import opened EnumerationProofs

  lemma {:induction false} RunFromKeepsInv(s: Sys, ss: seq<Sys>, steps: seq<Step>, i: nat)
    requires Inv(s) && RunFrom(s, ss, steps) && i < |ss|
    ensures Inv(ss[i])
  {
    hide Inv, Enabled, Safe, After;
    if i > 0 {
      RunFromKeepsInv(s, ss, steps, i - 1);
      assert Next(ss[i - 1], steps[i - 1], ss[(i - 1) + 1]);
      StepKeepsInv(ss[i - 1], steps[i - 1]);
    }
  }

  lemma RunKeepsInv(ss: seq<Sys>, steps: seq<Step>, i: nat)
    requires Run(ss, steps) && i < |ss|
    ensures Inv(ss[i])
  {
    InitInv(ss[0]);
    RunFromKeepsInv(ss[0], ss, steps, i);
  }

  /**
   * Whatever a run leads to, the next step finds valid pointers, descriptors and bound endpoints, unless it makes a
   * driver poll that was given no interrupt-IN endpoint.
   */
  lemma EveryStepSafe(ss: seq<Sys>, steps: seq<Step>, step: Step)
    requires Run(ss, steps) && Enabled(ss[|steps|], step)
    ensures Safe(ss[|steps|], step) <==> !PollsNowhere(ss[|steps|], step)
  {
    RunKeepsInv(ss, steps, |steps|);
    StepKeepsInv(ss[|steps|], step);
  }

  // ---- what goes over the wire ----

  /** GET_DESCRIPTOR (section 9.4.3 of USB 2.0): device to host, standard, device; type in the high byte of wValue. */
  predicate AsksFor(r: Request, kind: nat, index: nat, buf: Address) {
    && r.dirIn && r.setup.requestType == 0x80 && r.setup.request == 6
    && r.setup.value / 256 == kind && r.setup.value % 256 == index && r.setup.index == 0
    && r.setup.length == r.len == 256 && r.buf == buf
  }

  /** SET_CONFIGURATION (section 9.4.7 of USB 2.0): host to device, standard, device; no data. */
  predicate Selects(r: Request, value: nat) {
    && !r.dirIn && r.setup.requestType == 0 && r.setup.request == 9
    && r.setup.value == value && r.setup.index == 0 && r.setup.length == r.len == 0 && r.buf == 0
  }

  /** SET_PROTOCOL (section 7.2.6 of HID 1.11): host to device, class, interface; 0 is the boot protocol; no data. */
  predicate SelectsBoot(r: Request, interfaceNumber: nat) {
    && !r.dirIn && r.setup.requestType == 0x21 && r.setup.request == 11
    && r.setup.value == 0 && r.setup.index == interfaceNumber && r.setup.length == r.len == 0 && r.buf == 0
  }

  lemma DescriptorRequestAsks(kind: Byte, index: Byte, buf: Address)
    ensures AsksFor(GetDescriptorRequest(kind, index, buf), kind, index, buf)
  {
    var high: nat := kind;
    assert (256 * high + index) / 256 == high && (256 * high + index) % 256 == index;
  }

  /** The log of an initialized device, request by request. */
  predicate InOrder(log: seq<Reply>, buf: Address) {
    && |log| >= 3 && AsksFor(log[0].request, 1, 0, buf) && BlobOk(log[0].descs) && log[0].descs[0][1] == 1
    && AsksFor(log[1].request, 2, 0, buf) && BlobOk(log[1].descs) && log[1].descs[0][1] == 2
    && Selects(log[2].request, log[1].descs[0][5])
  }

  lemma OrderedIsInOrder(log: seq<Reply>, u: Usb)
    requires Ordered(log, u)
    ensures InOrder(log, u.buf)
  {
    DescriptorRequestAsks(1, 0, u.buf);
    DescriptorRequestAsks(2, 0, u.buf);
  }

  /**
   * A device is initialized only after its device descriptor, configuration descriptor 0, and SET_CONFIGURATION
   * with the value that descriptor announced, have completed in this order, and it then has the endpoints of the first
   * supported interface.
   */
  lemma InitializedInOrder(ss: seq<Sys>, steps: seq<Step>, i: nat)
    requires Run(ss, steps) && i < |ss| && ss[i].u.initialized
    ensures InOrder(ss[i].log, ss[i].u.buf) && Adopted(ss[i].u, ss[i].log[1].descs)
    ensures var descs := ss[i].log[1].descs;
            var c := FirstSupported(descs, 1);
            BootInterface(descs[c]) && forall j :: 1 <= j < c ==> !BootInterface(descs[j])
  {
    RunKeepsInv(ss, steps, i);
    OrderedIsInOrder(ss[i].log, ss[i].u);
    FirstSupportedIsBoot(ss[i].log[1].descs, 1);
  }

  /** Until then at most one request is outstanding, and it is the one of the current phase. */
  lemma OneRequestAtATime(ss: seq<Sys>, steps: seq<Step>, i: nat)
    requires Run(ss, steps) && i < |ss| && !ss[i].u.initialized
    ensures |ss[i].flight| <= 1
    ensures ss[i].flight != [] ==>
              var u, r := ss[i].u, ss[i].flight[0].request;
              && 1 <= u.phase <= 3
              && (u.phase == 1 ==> AsksFor(r, 1, 0, u.buf))
              && (u.phase == 2 ==> AsksFor(r, 2, 0, u.buf))
              && (u.phase == 3 ==>
                    |ss[i].log| >= 2 && BlobOk(ss[i].log[1].descs) && ss[i].log[1].descs[0][1] == 2 &&
                    Selects(r, ss[i].log[1].descs[0][5]))
  {
    RunKeepsInv(ss, steps, i);
    DescriptorRequestAsks(1, 0, ss[i].u.buf);
    DescriptorRequestAsks(2, 0, ss[i].u.buf);
  }

  /** From then on every request is SET_PROTOCOL for the adopted interface. */
  lemma LaterRequestsSelectBoot(ss: seq<Sys>, steps: seq<Step>, i: nat)
    requires Run(ss, steps) && i < |ss| && ss[i].u.initialized
    ensures |ss[i].log| >= 3 && BlobOk(ss[i].log[1].descs) && ss[i].u.hid.Some?
    ensures var descs := ss[i].log[1].descs;
            && FirstSupported(descs, 1) < |descs|
            && (forall k :: 0 <= k < |ss[i].flight| ==>
                  SelectsBoot(ss[i].flight[k].request, descs[FirstSupported(descs, 1)][2]))
            && forall k :: 3 <= k < |ss[i].log| ==>
                 SelectsBoot(ss[i].log[k].request, descs[FirstSupported(descs, 1)][2])
  {
    RunKeepsInv(ss, steps, i);
    if !ss[i].stage.Ready? { InitializedIdle(ss[i]); }
  }

  /**
   * While a device is being enumerated, a request is outstanding if and only if no transfer has failed and every
   * reply was accepted: a device descriptor, then a configuration with a supported interface.
   */
  lemma RequestPendingExactly(ss: seq<Sys>, steps: seq<Step>, i: nat)
    requires Run(ss, steps) && i < |ss| && ss[i].stage.Enumerating? && !ss[i].u.initialized
    ensures |ss[i].flight| == 1 <==> ss[i].stale == 0 && AllAccepted(ss[i].log)
  {
    RunKeepsInv(ss, steps, i);
  }

  /** The event is the reply that enumeration waits for, and is accepted. */
  predicate GoodReply(s: Sys, step: Step) {
    step.Completion? && step.i < |s.flight| && Succeeded(step.code)
    && Accepted(s.log + [Reply(s.flight[step.i].request, step.descs)], |s.log|)
  }

  /** A device that is being enumerated and has its request outstanding. */
  predicate DeviceWaits(s: Sys) {
    s.stage.Enumerating? && !s.u.initialized && |s.flight| == 1
  }

  lemma CompletionLogs(s: Sys, step: Step)
    requires step.Completion? && Enabled(s, step) && Safe(s, step)
    ensures var s', more := After(s, step), [Reply(s.flight[step.i].request, step.descs)];
            s'.stage == s.stage && if Succeeded(step.code) then s'.log == s.log + more && s'.stale == s.stale
                                   else s'.log == s.log && s'.stale == s.stale + 1
  {
  }

  /** A good reply moves enumeration to the next phase; after the third the device is initialized. */
  lemma GoodReplyAdvances(s: Sys, step: Step)
    requires Inv(s) && DeviceWaits(s) && Enabled(s, step) && GoodReply(s, step)
    ensures Safe(s, step)
    ensures var s' := After(s, step);
            && s'.u.phase == s.u.phase + 1 && s'.log == s.log + [Reply(s.flight[step.i].request, step.descs)]
            && if s.u.phase < 3 then DeviceWaits(s') else s'.stage == s.stage && s'.u.initialized
  {
    hide UsbOk, Match, Safe, After, Base;
    StepKeepsInv(s, step);
    CompletionLogs(s, step);
    AcceptedMore(s.log, Reply(s.flight[step.i].request, step.descs));
  }

  /** Any other event leaves a device for which nothing is outstanding and that is not initialized. */
  lemma OtherReplyEnds(s: Sys, step: Step)
    requires Inv(s) && DeviceWaits(s) && Enabled(s, step) && step.Completion? && !GoodReply(s, step)
    ensures Safe(s, step)
    ensures var s' := After(s, step); s'.flight == [] && !s'.u.initialized
  {
    hide UsbOk, Match, Safe, After, Base;
    StepKeepsInv(s, step);
    CompletionLogs(s, step);
    if Succeeded(step.code) { AcceptedMore(s.log, Reply(s.flight[step.i].request, step.descs)); }
  }

  /** The handler of the third reply reports success. */
  lemma ThirdReplySucceeds(s: Sys, step: Step)
    requires Inv(s) && DeviceWaits(s) && s.u.phase == 3 && Enabled(s, step) && GoodReply(s, step)
    ensures Safe(s, step)
    ensures OnEvent(s.u, EP0, s.flight[step.i].key, step.code, step.residual, step.descs, step.self, step.hidBuf).1 ==
            Success
  {
    hide Match, After;
    StepKeepsInv(s, step);
    SuccessReachesHandler(s.u, s.flight, s.stale, step.i, step.code, step.residual);
  }

  /** TRBs of the requests in flight. */
  function TrbCount(flight: seq<InFlight>): nat {
    if flight == [] then 0 else TrbCount(flight[..|flight| - 1]) + |RequestTrbs(flight[|flight| - 1].request)|
  }

  lemma {:induction false} TrbCountBound(flight: seq<InFlight>, k: nat)
    requires forall i :: 0 <= i < |flight| ==> |RequestTrbs(flight[i].request)| <= k
    ensures TrbCount(flight) <= k * |flight|
  {
    if flight != [] { TrbCountBound(flight[..|flight| - 1], k); }
  }

  lemma SizesOf(u: Usb)
    requires UsbOk(u)
    ensures |u.waiters| == 4 && |u.drivers| == 16
  {
  }

  /**
   * setup_stage_map_ never holds more than 15 of its 16 entries, even when transfers fail and leave theirs behind; and
   * the TRBs of the requests in flight never exceed 30, two less than the ring has entries.
   */
  lemma MapAndRingNeverFill(ss: seq<Sys>, steps: seq<Step>, i: nat)
    requires Run(ss, steps) && i < |ss|
    ensures Used(ss[i].u.xfer.setupMap) <= 15 && |ss[i].u.xfer.setupMap| == 16
    ensures TrbCount(ss[i].flight) <= 30 && |ss[i].u.waiters| == 4 && |ss[i].u.drivers| == 16
  {
    hide Run, UsbOk;
    RunKeepsInv(ss, steps, i);
    var s := ss[i];
    SizesOf(s.u);
    TrbCountBound(s.flight, if s.stage.Ready? then 2 else 3);
  }

  predicate Answered(log: seq<Reply>, r: Request) {
    exists k :: 0 <= k < |log| && log[k].request == r
  }

  /**
   * The HID driver never has more than one interrupt-IN TRB out, however many endpoint numbers it is bound to; it has
   * exactly one if and only if some SET_PROTOCOL has completed and no interrupt transfer has failed.
   */
  lemma OnePoll(ss: seq<Sys>, steps: seq<Step>, i: nat)
    requires Run(ss, steps) && i < |ss|
    ensures |ss[i].polls| <= 1 && (!ss[i].stage.Ready? ==> ss[i].polls == [])
    ensures ss[i].stage.Ready? ==>
      && ss[i].u.hid.Some?
      && (|ss[i].polls| == 1 <==> Answered(ss[i].log, SetProtocolRequest(ss[i].u.hid.value)) && ss[i].lost == 0)
  {
    RunKeepsInv(ss, steps, i);
    var s := ss[i];
    if s.stage.Ready? && |s.log| > 3 { assert s.log[3].request == SetProtocolRequest(s.u.hid.value); }
  }

  /** A Normal TRB for a packet of n bytes into buf, with an event on completion and on a short packet. */
  predicate AsksForPacket(t: Trb, buf: Address, n: nat) {
    && t.w0 + 0x1_0000_0000 * t.w1 == buf && t.w2 == n && t.w3 / 1024 == 1
    && t.w3 / 32 % 2 == 1 && t.w3 / 4 % 2 == 1 && t.w3 / 64 % 16 == 0 && t.w3 / 16 % 2 == 0
  }

  lemma PollAsks(t: Trb, buf: Address, n: nat)
    requires n < 0x20000 && SameButCycle(t, NormalTrb(buf, n))
    ensures AsksForPacket(t, buf, n)
  {
    NormalFields(buf, n, CycleOf(t));
    SameButCycleReads(NormalTrb(buf, n), t);
  }

  /** What a driver expects in a report: 8 bytes from a boot keyboard, 3 from a boot mouse. */
  function PacketSize(descs: seq<Descriptor>): nat
    requires BlobOk(descs) && FirstSupported(descs, 1) < |descs|
  {
    if descs[FirstSupported(descs, 1)][7] == 1 then 8 else 3
  }

  /**
   * The TRB of a poll asks for a packet of the size of the driver's protocol into its buffer, on the ring of an
   * interrupt-IN endpoint of the interface.
   */
  lemma PollsAskForPackets(ss: seq<Sys>, steps: seq<Step>, i: nat, k: nat)
    requires Run(ss, steps) && i < |ss| && k < |ss[i].polls|
    ensures var s := ss[i];
            && |s.log| >= 3 && BlobOk(s.log[1].descs) && FirstSupported(s.log[1].descs, 1) < |s.log[1].descs|
            && s.u.hid.Some? && DeviceOk(s.u.xfer) && PtrOk(s.u.xfer, s.polls[k])
            && AsksForPacket(Read(s.u.xfer, s.polls[k]), s.u.hid.value.buf, PacketSize(s.log[1].descs))
            && exists j :: 0 <= j < |s.u.configs| && s.u.configs[j].address == s.polls[k].dci &&
                           s.u.configs[j].address % 2 == 1 && s.u.configs[j].epType == 3
  {
    hide Match, Safe, Enabled, After;
    RunKeepsInv(ss, steps, i);
    ReportIsReady(ss[i]);
    PollAsks(Read(ss[i].u.xfer, ss[i].polls[k]), ss[i].u.hid.value.buf, ss[i].u.hid.value.packetSize);
    var j :| 0 <= j < |ss[i].u.configs| && IsPollable(ss[i].u.configs[j]) &&
             ss[i].u.configs[j].address == ss[i].u.hid.value.epIn;
  }

  /** A good report is answered with the driver's buffer and the number of bytes that arrived in it. */
  lemma ReportsOwnBuffer(ss: seq<Sys>, steps: seq<Step>, i: nat, code: nat, residual: nat)
    requires Run(ss, steps) && i < |ss| && ss[i].polls != [] && (code == 1 || code == 13)
    ensures var s := ss[i];
            && |s.log| >= 3 && BlobOk(s.log[1].descs) && FirstSupported(s.log[1].descs, 1) < |s.log[1].descs|
            && s.u.hid.Some? && DeviceOk(s.u.xfer) && PtrOk(s.u.xfer, s.polls[0]) && MapOk(s.u.xfer)
            && OnTransferEvent(s.u.xfer, s.polls[0], code, residual) ==
                 (s.u.xfer, InterruptCompleted(s.u.hid.value.buf, PacketSize(s.log[1].descs) - residual))
  {
    hide Match, Safe, Enabled, After, OnTransferEvent;
    RunKeepsInv(ss, steps, i);
    ReportIsReady(ss[i]);
    var u := ss[i].u;
    MatchGivesMapOk(u.xfer, ss[i].flight, ss[i].stale);
    EventFindsItsPoll(u.xfer, PollOut(ss[i].polls[0], u.hid.value.buf, u.hid.value.packetSize), code, residual);
  }

  // ---- exactly when the code is safe ----

  /** No endpoint, or an interrupt-IN one among them. */
  predicate Servable(cs: seq<EndpointConfig>) {
    cs == [] || Pollable(cs)
  }

  lemma ServableIsSafe(s: Sys, step: Step)
    requires Inv(s) && Enabled(s, step) && (s.u.initialized ==> Servable(s.u.configs))
    ensures Safe(s, step)
  {
    StepKeepsInv(s, step);
    if s.stage.Ready? { EndpointOrNone(s.u); }
  }

  // The endpoints of an initialized device are those of its configuration reply, for good.

  ghost predicate Has(s: Sys, cs: seq<EndpointConfig>) {
    Inv(s) && s.u.initialized && s.u.configs == cs
  }

  /** The configurations as the log has them. */
  function LoggedConfigs(log: seq<Reply>): seq<EndpointConfig>
    requires |log| >= 2 && BlobOk(log[1].descs) && FirstSupported(log[1].descs, 1) < |log[1].descs|
  {
    ChosenConfigs(log[1].descs, FirstSupported(log[1].descs, 1))
  }

  lemma InitializedHas(s: Sys)
    requires Inv(s) && (s.stage.RingsReady? || s.stage.Ready? || s.u.initialized)
    ensures s.u.initialized && |s.log| >= 3 && BlobOk(s.log[1].descs) &&
            FirstSupported(s.log[1].descs, 1) < |s.log[1].descs|
    ensures s.u.configs == LoggedConfigs(s.log)
  {
  }

  lemma StageAfter(s: Sys, step: Step)
    requires Enabled(s, step) && Safe(s, step)
    ensures var s' := After(s, step);
            s.log <= s'.log && match step
                               case Begin => s'.stage.Enumerating?
                               case Completion(_, _, _, _, _, _) => s'.stage == s.stage
                               case Report(_, _) => s'.stage == s.stage
                               case AllocRings(_) => s'.stage.RingsReady?
                               case Configured => s'.stage.Ready?
  {
  }

  /** Nothing is outstanding between initialization and the end of configuration. */
  lemma InitializedIdle(s: Sys)
    requires Inv(s) && s.u.initialized && !s.stage.Ready?
    ensures s.flight == [] && s.polls == [] && !s.stage.Idle?
  {
  }

  lemma NextHas(s: Sys, step: Step, s': Sys, cs: seq<EndpointConfig>)
    requires Has(s, cs) && Next(s, step, s')
    ensures Has(s', cs)
  {
    StepKeepsInv(s, step);
    StageAfter(s, step);
    InitializedHas(s);
    if !s.stage.Ready? { InitializedIdle(s); }
    InitializedHas(s');
  }

  lemma {:induction false} RunHas(s: Sys, ss: seq<Sys>, steps: seq<Step>, cs: seq<EndpointConfig>, i: nat)
    requires Has(s, cs) && RunFrom(s, ss, steps) && i < |ss|
    ensures Has(ss[i], cs)
  {
    hide Inv, Has, Enabled, Safe, After;
    if i > 0 {
      RunHas(s, ss, steps, cs, i - 1);
      assert Next(ss[i - 1], steps[i - 1], ss[(i - 1) + 1]);
      NextHas(ss[i - 1], steps[i - 1], ss[i], cs);
    }
  }

  /** A run followed by one more safe step. */
  lemma Extend(s: Sys, ss: seq<Sys>, steps: seq<Step>, step: Step) returns (ss': seq<Sys>, steps': seq<Step>)
    requires RunFrom(s, ss, steps) && Enabled(ss[|steps|], step) && Safe(ss[|steps|], step)
    ensures RunFrom(s, ss', steps') && ss'[|steps'|] == After(ss[|steps|], step)
  {
    ss', steps' := ss + [After(ss[|steps|], step)], steps + [step];
    forall i | 0 <= i < |steps'| ensures Next(ss'[i], steps'[i], ss'[i + 1]) {
      if i < |steps| {
        assert Next(ss[i], steps[i], ss[i + 1]);
        assert ss'[i] == ss[i] && ss'[i + 1] == ss[i + 1] && steps'[i] == steps[i];
      }
    }
  }

  lemma RingsAllocated(s: Sys) returns (ss: seq<Sys>, steps: seq<Step>)
    requires Inv(s) && s.u.initialized && !s.stage.Ready?
    ensures RunFrom(s, ss, steps) && Has(ss[|steps|], s.u.configs) && ss[|steps|].stage.RingsReady?
  {
    hide Safe, After;
    InitializedIdle(s);
    ss, steps := [s], [];
    if s.stage.Enumerating? {
      var alloc := AllocRings(seq(|s.u.configs|, _ => 0));
      StepKeepsInv(s, alloc);
      StageAfter(s, alloc);
      ss, steps := Extend(s, ss, steps, alloc);
    }
    RunHas(s, ss, steps, s.u.configs, |steps|);
  }

  lemma DriversStart(s: Sys)
    requires Has(s, s.u.configs) && s.stage.RingsReady?
    ensures Enabled(s, Configured) && Safe(s, Configured)
    ensures var e := After(s, Configured);
            Has(e, s.u.configs) && e.stage.Ready? && |e.log| == 3 && (s.u.configs != [] ==> e.flight != [])
  {
    hide Safe, After, Match, UsbOk, InitializedInv;
    ConfiguredEffect(s);
    StageAfter(s, Configured);
    NextHas(s, Configured, After(s, Configured), s.u.configs);
  }

  /** The endpoint rings are allocated and every class driver has sent its SET_PROTOCOL. */
  lemma RingsThenDrivers(s: Sys) returns (ss: seq<Sys>, steps: seq<Step>)
    requires Inv(s) && s.u.initialized && !s.stage.Ready?
    ensures RunFrom(s, ss, steps)
    ensures var e := ss[|steps|];
            Has(e, s.u.configs) && e.stage.Ready? && |e.log| == 3 && (s.u.configs != [] ==> e.flight != [])
  {
    hide Inv, Has, Enabled, Safe, After;
    ss, steps := RingsAllocated(s);
    HasIsExact(ss[|steps|], s.u.configs);
    DriversStart(ss[|steps|]);
    ss, steps := Extend(s, ss, steps, Configured);
  }

  lemma HasIsExact(s: Sys, cs: seq<EndpointConfig>)
    requires Has(s, cs)
    ensures s.u.configs == cs && Inv(s) && s.u.initialized
  {
  }

  /** A driver without an interrupt-IN endpoint is made to poll by the first SET_PROTOCOL that completes. */
  lemma UnsafeRun(s: Sys) returns (ss: seq<Sys>, steps: seq<Step>, step: Step)
    requires Inv(s) && s.u.initialized && !s.stage.Ready? && !Servable(s.u.configs)
    ensures RunFrom(s, ss, steps) && Enabled(ss[|steps|], step) && !Safe(ss[|steps|], step)
  {
    ss, steps := RingsThenDrivers(s);
    step := Completion(0, CODE_SUCCESS, 0, [], 1, 0);
    SetProtocolPollsNowhere(ss[|steps|], step);
  }

  lemma SetProtocolPollsNowhere(s: Sys, step: Step)
    requires Has(s, s.u.configs) && s.stage.Ready? && |s.log| == 3 && s.flight != [] && !Servable(s.u.configs)
    requires step == Completion(0, CODE_SUCCESS, 0, [], 1, 0)
    ensures Enabled(s, step) && !Safe(s, step)
  {
    assert s.flight[0].request == SetProtocolRequest(s.u.hid.value);
    EndpointOrNone(s.u);
    StepKeepsInv(s, step);
  }

  /**
   * From an initialized device every run is safe if and only if the adopted interface has no endpoint or has an
   * interrupt-IN endpoint.
   */
  lemma SafeExactly(s: Sys)
    requires Inv(s) && s.u.initialized && !s.stage.Ready?
    ensures Servable(s.u.configs) <==>
            (forall ss, steps, step :: RunFrom(s, ss, steps) && Enabled(ss[|steps|], step) ==> Safe(ss[|steps|], step))
  {
    if Servable(s.u.configs) {
      forall ss, steps, step | RunFrom(s, ss, steps) && Enabled(ss[|steps|], step) ensures Safe(ss[|steps|], step) {
        RunHas(s, ss, steps, s.u.configs, |steps|);
        ServableIsSafe(ss[|steps|], step);
      }
    } else {
      var ss, steps, step := UnsafeRun(s);
    }
  }

  // ---- from the start to initialization, with any well-formed replies ----

  /** Descriptors that fit the 256-byte buffer and start with one of the kind. */
  predicate Fits(descs: seq<Descriptor>, kind: Byte) {
    BlobOk(descs) && descs[0][1] == kind && |Flatten(descs)| <= BUF_SIZE
  }

  predicate Supported(descs: seq<Descriptor>) {
    Fits(descs, CONFIGURATION_DESCRIPTOR) && FirstSupported(descs, 1) < |descs|
  }

  function Answer(descs: seq<Descriptor>): Step {
    var residual := if |Flatten(descs)| <= BUF_SIZE && descs != [] then BUF_SIZE - |Flatten(descs)| else 0;
    Completion(0, CODE_SUCCESS, residual, descs, 1, 0)
  }

  /** A device that waits for the reply of a phase, with the replies of earlier phases accepted. */
  ghost predicate Waiting(s: Sys, phase: nat) {
    Inv(s) && s.stage.Enumerating? && !s.u.initialized && s.u.phase == phase && |s.flight| == 1
  }

  lemma BeginWaits(s: Sys)
    requires Inv(s) && s.stage.Idle?
    ensures Enabled(s, Begin) && Safe(s, Begin) && Waiting(After(s, Begin), 1) && After(s, Begin).log == []
  {
    StepKeepsInv(s, Begin);
  }

  lemma AnswerAdvances(s: Sys, phase: nat, descs: seq<Descriptor>)
    requires Waiting(s, phase) && 1 <= phase <= 3
    requires phase == 1 ==> Fits(descs, DEVICE_DESCRIPTOR)
    requires phase == 2 ==> Supported(descs)
    requires phase == 3 ==> descs == []
    ensures Enabled(s, Answer(descs)) && Safe(s, Answer(descs))
    ensures var s' := After(s, Answer(descs));
            && Inv(s') && s'.stage.Enumerating? && |s'.log| == phase && s.log <= s'.log &&
              s'.log[phase - 1].descs == descs
            && if phase < 3 then Waiting(s', phase + 1) else s'.u.initialized
  {
    hide UsbOk, Match, Safe, After;
    GoodReplyAdvances(s, Answer(descs));
    StepKeepsInv(s, Answer(descs));
  }

  /**
   * Every device reply and every configuration with a supported interface lead to an initialized device that has it.
   */
  lemma ReachesInitialized(s: Sys, device: seq<Descriptor>, configuration: seq<Descriptor>)
          returns (ss: seq<Sys>, steps: seq<Step>)
    requires Init(s) && Fits(device, DEVICE_DESCRIPTOR) && Supported(configuration)
    ensures RunFrom(s, ss, steps)
    ensures Inv(ss[|steps|]) && ss[|steps|].u.initialized && !ss[|steps|].stage.Ready?
    ensures ss[|steps|].u.configs == ChosenConfigs(configuration, FirstSupported(configuration, 1))
  {
    hide Inv, Init, Enabled, Safe, After;
    InitInv(s);
    BeginWaits(s);
    ss, steps := Extend(s, [s], [], Begin);
    AnswerAdvances(ss[|steps|], 1, device);
    ss, steps := Extend(s, ss, steps, Answer(device));
    AnswerAdvances(ss[|steps|], 2, configuration);
    ss, steps := Extend(s, ss, steps, Answer(configuration));
    ghost var before := ss[|steps|];
    AnswerAdvances(before, 3, []);
    ss, steps := Extend(s, ss, steps, Answer([]));
    assert ss[|steps|].log[1] == before.log[1];
    InitializedHas(ss[|steps|]);
  }

  /**
   * When the interface that is adopted has endpoints but no interrupt-IN one, some run from the start ends in a poll
   * of address 0.
   */
  lemma UnservableFails(s: Sys, device: seq<Descriptor>, configuration: seq<Descriptor>)
          returns (ss: seq<Sys>, steps: seq<Step>, step: Step)
    requires Init(s) && Fits(device, DEVICE_DESCRIPTOR) && Supported(configuration)
    requires !Servable(ChosenConfigs(configuration, FirstSupported(configuration, 1)))
    ensures Run(ss, steps) && ss[0] == s && Enabled(ss[|steps|], step) && !Safe(ss[|steps|], step)
  {
    hide Inv, Init, Enabled, Safe, After, Fits, Servable, Supported;
    var as_, a := ReachesInitialized(s, device, configuration);
    var bs, b, last := UnsafeRun(as_[|a|]);
    ss, steps, step := as_[..|a|] + bs, a + b, last;
    forall i | 0 <= i < |steps| ensures Next(ss[i], steps[i], ss[i + 1]) {
      if i < |a| {
        assert Next(as_[i], a[i], as_[i + 1]);
      } else {
        assert Next(bs[i - |a|], b[i - |a|], bs[(i - |a|) + 1]);
      }
    }
  }

  // ---- such configurations ----

  const CONFIGURATION: Descriptor := [9, 2, 25, 0, 1, 1, 0, 160, 50]

  /** A boot keyboard with one endpoint, interrupt-OUT. */
  const OUT_ONLY: seq<Descriptor> := [CONFIGURATION, [9, 4, 0, 0, 1, 3, 1, 1, 0], [7, 5, 1, 3, 8, 0, 10]]

  /** A boot keyboard that announces no endpoint. */
  const NO_ENDPOINT: seq<Descriptor> := [CONFIGURATION, [9, 4, 0, 0, 0, 3, 1, 1, 0]]

  lemma OutOnlyFails()
    ensures Supported(OUT_ONLY) && !Servable(ChosenConfigs(OUT_ONLY, FirstSupported(OUT_ONLY, 1)))
  {
    assert FirstSupported(OUT_ONLY, 1) == 1;
    assert EndpointsFrom(OUT_ONLY, 3, 0) == [];
    assert EndpointsFrom(OUT_ONLY, 2, 1) == [OUT_ONLY[2]];
    assert ChosenConfigs(OUT_ONLY, 1) == [EndpointConfig(2, 3, 8, 10)];
    FlattenLength(OUT_ONLY);
    assert Offset(OUT_ONLY, 1) == 9;
    assert Offset(OUT_ONLY, 2) == 18;
    assert Offset(OUT_ONLY, 3) == 25;
  }

  lemma NoEndpointWorks()
    ensures Supported(NO_ENDPOINT) && ChosenConfigs(NO_ENDPOINT, FirstSupported(NO_ENDPOINT, 1)) == []
  {
    assert FirstSupported(NO_ENDPOINT, 1) == 1;
    FlattenLength(NO_ENDPOINT);
    assert Offset(NO_ENDPOINT, 1) == 9;
    assert Offset(NO_ENDPOINT, 2) == 18;
  }

  /** A boot mouse that announces two endpoints and has one, before an interface of another kind with one endpoint. */
  const SHORT_BLOCK: seq<Descriptor> :=
    [CONFIGURATION, [9, 4, 0, 0, 2, 3, 1, 2, 0], [7, 5, 129, 3, 8, 0, 10], [9, 4, 1, 0, 1, 8, 0, 0, 0],
      [7, 5, 130, 3, 8, 0, 10]]

  /** Enumeration accepts it and gives the mouse driver the endpoint of the other interface too. */
  lemma ForeignEndpointTaken()
    ensures Supported(SHORT_BLOCK) && FirstSupported(SHORT_BLOCK, 1) == 1
    ensures BlockEndpoints(SHORT_BLOCK, 2) == [SHORT_BLOCK[2]]
    ensures ChosenConfigs(SHORT_BLOCK, 1) == [ConfigOf(SHORT_BLOCK[2]), ConfigOf(SHORT_BLOCK[4])]
  {
    assert BlockEndpoints(SHORT_BLOCK, 3) == [];
    assert BlockEndpoints(SHORT_BLOCK, 2) == [SHORT_BLOCK[2]] + BlockEndpoints(SHORT_BLOCK, 3);
    assert EndpointsFrom(SHORT_BLOCK, 5, 0) == [];
    assert EndpointsFrom(SHORT_BLOCK, 4, 1) == [SHORT_BLOCK[4]];
    assert EndpointsFrom(SHORT_BLOCK, 3, 1) == EndpointsFrom(SHORT_BLOCK, 4, 1);
    assert EndpointsFrom(SHORT_BLOCK, 2, 2) == [SHORT_BLOCK[2], SHORT_BLOCK[4]];
    assert ChosenConfigs(SHORT_BLOCK, 1) == [EndpointConfig(3, 3, 8, 10), EndpointConfig(5, 3, 8, 10)];
    FlattenLength(SHORT_BLOCK);
    assert Offset(SHORT_BLOCK, 1) == 9;
    assert Offset(SHORT_BLOCK, 2) == 18;
    assert Offset(SHORT_BLOCK, 3) == 25;
    assert Offset(SHORT_BLOCK, 4) == 34;
    assert Offset(SHORT_BLOCK, 5) == 41;
  }
}
