/** What the device object does with each completion, exactly: which it goes on from, and how it refuses the others. */
module DeviceReplies {
  import opened Wrappers
  import opened Trbs
  import opened ArrayMaps
  import opened Transfers
  import opened Descriptors
  import opened HidDrivers
  import opened UsbDevices

  predicate HasBootInterface(descs: seq<Descriptor>) {
    exists j :: 1 <= j < |descs| && BootInterface(descs[j])
  }

  lemma SupportedExactly(descs: seq<Descriptor>)
    requires |descs| >= 1 && AllOk(descs)
    ensures FirstSupported(descs, 1) < |descs| <==> HasBootInterface(descs)
  {
    FirstSupportedIsBoot(descs, 1);
  }

  /**
   * Before initialization a completion is one that its phase waits for, or it changes nothing.  In phase 2 a
   * configuration without a supported interface is no error.
   */
  lemma EnumerationRepliesExactly(u: Usb, setup: SetupData, buf: Address, descs: seq<Descriptor>, self: Address,
          hidBuf: Address)
    requires UsbOk(u) && ReplyOk(u, setup, buf, descs) && self != 0 && !u.initialized
    ensures var (u', err) := OnControl(u, setup, buf, descs, self, hidBuf);
            && (u.phase == 1 ==>
                  if setup.request == 6 && descs[0][1] == 1 then u'.phase == 2 && !u'.initialized
                  else u' == u && err == InvalidPhase)
            && (u.phase == 2 ==>
                  if setup.request == 6 && descs[0][1] == 2 then
                    if HasBootInterface(descs) then u'.phase == 3 && !u'.initialized else u' == u && err == Success
                  else u' == u && err == InvalidPhase)
            && (u.phase == 3 ==>
                  if setup.request == 9 then u'.phase == 4 && u'.initialized && err == Success
                  else u' == u && err == InvalidPhase)
            && (u.phase !in {1, 2, 3} ==> u' == u && err == NotImplemented)
  {
    hide Control, DeviceOk, Bound, KindOf, FirstSupported, NewHid, WithEndpoints;
    if u.phase == 2 && setup.request == 6 && descs[0][1] == 2 { SupportedExactly(descs); }
  }

  /** InitializePhase2 itself refuses anything but a configuration descriptor. */
  lemma OtherDescriptorRefused(u: Usb, descs: seq<Descriptor>, self: Address, hidBuf: Address)
    requires DeviceOk(u.xfer) && |u.drivers| == ENDPOINTS && BlobOk(descs)
    ensures Phase2(u, descs, self, hidBuf).1 == InvalidDescriptor <==> descs[0][1] != 2
    ensures descs[0][1] != 2 ==> Phase2(u, descs, self, hidBuf).0 == u
  {
  }

  /**
   * After initialization a completion polls exactly when somebody waits for its setup data and it is the first one;
   * otherwise it changes nothing.
   */
  lemma WaiterRepliesExactly(u: Usb, setup: SetupData, buf: Address, descs: seq<Descriptor>, self: Address,
          hidBuf: Address)
    requires UsbOk(u) && ReplyOk(u, setup, buf, descs) && self != 0 && u.initialized
    ensures var (u', err) := OnControl(u, setup, buf, descs, self, hidBuf);
            if forall i :: 0 <= i < |u.waiters| ==> u.waiters[i].key != Some(setup) then u' == u && err == NoWaiter
            else
              && u.hid.Some?
              && if u.hid.value.phase == 1 then u'.hid == Some(u.hid.value.(phase := 2)) && CanPoll(u)
                 else u' == u && err == NotImplemented
  {
    hide Control, DeviceOk, PushInterrupt;
    if Lookup(u.waiters, setup).Some? { WaiterIsDriver(u, setup); }
  }

  /** A report is followed by a poll exactly when its endpoint has a class driver and is an IN endpoint. */
  lemma ReportRepliesExactly(u: Usb, endpoint: nat)
    requires UsbOk(u) && ReportOk(u, endpoint)
    ensures var (u', err) := OnInterrupt(u, endpoint);
            if u.drivers[endpoint / 2] == 0 then u' == u && err == NoWaiter
            else if endpoint % 2 == 0 then u' == u && err == NotImplemented
            else
              && u.hid.Some? && CanPoll(u)
              && err == if u.xfer.rings[u.hid.value.epIn - 1] == None then TransferRingNotSet else Success
  {
  }

  // ---- what a new driver starts from, and what StartInitialize forgets ----

  /** After enumeration the driver has the last interrupt endpoint of each direction, and 0 where there is none. */
  lemma DriverEndpoints(u: Usb, descs: seq<Descriptor>, self: Address, hidBuf: Address, dirIn: bool)
    requires |u.drivers| == ENDPOINTS && BlobOk(descs) && FirstSupported(descs, 1) < |descs|
    ensures var u' := Phase3(WithInterface(u, descs, FirstSupported(descs, 1), self, hidBuf)).0;
            && u'.hid.Some? && u'.hid.value.phase == 0
            && var address := if dirIn then u'.hid.value.epIn else u'.hid.value.epOut;
               && (forall j: nat :: LastOne(u'.configs, dirIn, j) ==> address == u'.configs[j].address)
               && ((forall j :: 0 <= j < |u'.configs| ==> !InterruptEndpoint(u'.configs[j], dirIn)) ==> address == 0)
  {
    var u1 := WithInterface(u, descs, FirstSupported(descs, 1), self, hidBuf);
    var h, cs := u1.hid.value, u1.configs;
    EndpointsKeepRest(h, cs);
    forall j: nat | LastOne(cs, dirIn, j)
      ensures (if dirIn then WithEndpoints(h, cs).epIn else WithEndpoints(h, cs).epOut) == cs[j].address
    {
      LastEndpointCounts(h, cs, dirIn, j);
    }
    if forall j :: 0 <= j < |cs| ==> !InterruptEndpoint(cs[j], dirIn) { OthersDoNotCount(h, cs, dirIn); }
  }

  /** Enumeration starts over, whatever the device was before. */
  lemma StartForgets(u: Usb)
    requires DeviceOk(u.xfer)
    ensures var u' := Start(u).0;
            u' == u.(initialized := false, phase := 1, xfer := u'.xfer, sent := u'.sent)
  {
  }

  // ---- configuration stops at the first error ----

  /** Without a ring for endpoint 0 the first class driver fails, and no other one is configured. */
  lemma {:induction false} ConfigurationStops(u: Usb, i: nat)
    requires UsbOk(u) && u.xfer.rings[0] == None && i <= ENDPOINTS
    ensures var (u', err) := ConfiguredFrom(u, i);
            if forall k :: i <= k < ENDPOINTS ==> u.drivers[k] == 0 then u' == u && err == Success
            else
              && err == TransferRingNotSet && u.hid.Some? && u'.hid == Some(u.hid.value.(phase := 1))
              && u'.waiters == Inserted(u.waiters, SetProtocolSetup(u.hid.value.interfaceIndex), u.hid.value.self)
    decreases ENDPOINTS - i
  {
    if i < ENDPOINTS && u.drivers[i] == 0 { ConfigurationStops(u, i + 1); }
  }
}
