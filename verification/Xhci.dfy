/** The controller object and the globals of kernel/usb/xhci/xhci.cpp, updated in place by the event handlers. */
module Xhci {
  import opened Wrappers
  import opened Trbs
  import opened Rings
  import opened DeviceManagers
  import opened PortConfig

  class Controller {
    const phases: array<ConfigPhase>       // port_config_phase
    var addressingPort: Byte
    const devmgr: DeviceManager
    const cr: Ring
    ghost var issued: seq<Issued>
    ghost var effects: seq<Effect>
    ghost const Repr: set<object>

    ghost predicate Valid()
      reads this, Repr, cr
    {
      && Repr == {this, phases, devmgr, devmgr.devices, devmgr.contexts, cr, cr.buf}
      && phases.Length == PORTS
      && devmgr.Valid() && devmgr.maxSlots == MAX_SLOTS
      && cr.Valid()
    }

    /** The value that the handlers' functions work on. */
    ghost function State(): Driver
      requires Valid()
      reads this, Repr
    {
      Driver(phases[..], addressingPort, devmgr.Table(), cr.State(), issued, effects)
    }

    constructor (devmgr: DeviceManager, cr: Ring)
      requires devmgr.Valid() && devmgr.maxSlots == MAX_SLOTS && cr.Valid()
      ensures Valid() && this.devmgr == devmgr && this.cr == cr && fresh(this) && fresh(phases)
      ensures State() == Driver(seq(PORTS, _ => NotConnected), 0, devmgr.Table(), cr.State(), [], [])
    {
      phases := new ConfigPhase[PORTS](_ => NotConnected);
      addressingPort := 0;
      this.devmgr := devmgr;
      this.cr := cr;
      issued, effects := [], [];
      Repr := {this, phases, devmgr, devmgr.devices, devmgr.contexts, cr, cr.buf};
      new;
      assert phases[..] == seq(PORTS, _ => NotConnected);
    }

    method PushCommand(c: Command, inputContext: Address)
      requires Valid()
      modifies Repr
      ensures Valid() && State() == Issue(old(State()), c, inputContext)
    {
      var t := CommandTrb(c, inputContext);
      var i := cr.Push(t);
      issued := issued + [Issued(c, t, i)];
    }

    method ResetPort(port: Byte, regs: PortReadings) returns (err: Error)
      requires Valid()
      modifies Repr
      ensures Valid() && (State(), err) == PortConfig.ResetPort(old(State()), port, regs)
    {
      if !regs[port].connected {
        return Success;
      }
      if addressingPort != 0 {
        phases[port] := WaitingAddressed;
      } else {
        if phases[port] != NotConnected && phases[port] != WaitingAddressed {
          return InvalidPhase;
        }
        addressingPort := port;
        phases[port] := ResettingPort;
        effects := effects + [PortReset(port)];
      }
      return Success;
    }

    method EnableSlot(port: Byte, regs: PortReadings) returns (err: Error)
      requires Valid()
      modifies Repr
      ensures Valid() && (State(), err) == PortConfig.EnableSlot(old(State()), port, regs)
    {
      if regs[port].enabled && regs[port].resetChange {
        effects := effects + [ResetChangeCleared(port)];
        phases[port] := EnablingSlot;
        PushCommand(EnableSlotCommand, 0);
      }
      return Success;
    }

    method AddressDevice(port: Byte, slotId: Byte, place: Placement) returns (err: Error)
      requires Valid()
      modifies Repr
      ensures Valid() && (State(), err) == PortConfig.AddressDevice(old(State()), port, slotId, place)
    {
      var _ := devmgr.AllocDevice(slotId, place.context, place.inputContext);
      var dev := devmgr.Find(slotId);
      if dev == None {
        return InvalidSlotID;
      }
      devmgr.Update(slotId, dev.value.(inputPort := port));
      effects := effects + [Ep0RingAllocated(slotId)];
      var _ := devmgr.LoadDCBAA(slotId);
      phases[port] := AddressingDevice;
      PushCommand(AddressDeviceCommand(slotId), dev.value.inputContext);
      return Success;
    }

    method InitializeDevice(port: Byte, slotId: Byte) returns (err: Error)
      requires Valid()
      modifies Repr
      ensures Valid() && (State(), err) == PortConfig.InitializeDevice(old(State()), port, slotId)
    {
      var dev := devmgr.Find(slotId);
      if dev == None {
        return InvalidSlotID;
      }
      phases[port] := InitializingDevice;
      devmgr.Update(slotId, dev.value.(initialized := false));
      effects := effects + [EnumerationStarted(slotId)];
      return Success;
    }

    method CompleteConfiguration(port: Byte, slotId: Byte) returns (err: Error)
      requires Valid()
      modifies Repr
      ensures Valid() && (State(), err) == PortConfig.CompleteConfiguration(old(State()), port, slotId)
    {
      var dev := devmgr.Find(slotId);
      if dev == None {
        return InvalidSlotID;
      }
      effects := effects + [DriversConfigured(slotId)];
      phases[port] := Configured;
      return Success;
    }

    method ConfigureEndpoints(slotId: Byte, regs: PortReadings) returns (err: Error)
      requires Valid() && FindBySlot(devmgr.Table(), slotId).Some?
      modifies Repr
      ensures Valid() && (State(), err) == PortConfig.ConfigureEndpoints(old(State()), slotId, regs)
    {
      var dev := devmgr.Find(slotId);
      var port := dev.value.outputPort;
      devmgr.Update(slotId, dev.value.(inputPort := port));
      if regs[port].speed == 0 || regs[port].speed > SUPER_SPEED_PLUS {
        return UnknownXHCISpeedID;
      }
      effects := effects + [EndpointRingsAllocated(slotId)];
      phases[port] := ConfiguringEndpoints;
      PushCommand(ConfigureEndpointCommand(slotId), dev.value.inputContext);
      return Success;
    }

    method ConfigurePort(port: Byte, regs: PortReadings) returns (err: Error)
      requires Valid()
      modifies Repr
      ensures Valid() && (State(), err) == PortConfig.ConfigurePort(old(State()), port, regs)
    {
      if phases[port] == NotConnected {
        err := ResetPort(port, regs);
        return;
      }
      return Success;
    }

    method OnPortStatusChange(port: Byte, regs: PortReadings) returns (err: Error)
      requires Valid()
      modifies Repr
      ensures Valid() && (State(), err) == PortConfig.OnPortStatusChange(old(State()), port, regs)
    {
      match phases[port]
      case NotConnected => err := ResetPort(port, regs);
      case ResettingPort => err := EnableSlot(port, regs);
      case _ => return InvalidPhase;
    }

    /** `outcome` is what the device object's OnTransferEventReceived returned and left behind. */
    method OnTransferEvent(slotId: Byte, outcome: TransferOutcome, regs: PortReadings) returns (err: Error)
      requires Valid()
      modifies Repr
      ensures Valid() && (State(), err) == PortConfig.OnTransferEvent(old(State()), slotId, outcome, regs)
    {
      var dev := devmgr.Find(slotId);
      if dev == None {
        return InvalidSlotID;
      }
      devmgr.Update(slotId, dev.value.(initialized := outcome.initialized));
      if outcome.error != Success {
        return outcome.error;
      }
      if outcome.initialized && phases[dev.value.outputPort] == InitializingDevice {
        err := ConfigureEndpoints(slotId, regs);
        return;
      }
      return Success;
    }

    method OnCommandCompletion(trb: nat, slotId: Byte, regs: PortReadings, place: Placement) returns (err: Error)
      requires Valid() && trb < cr.buf.Length
      modifies Repr
      ensures Valid() && (State(), err) == PortConfig.OnCommandCompletion(old(State()), trb, slotId, regs, place)
    {
      var issuer := TypeOf(cr.buf[trb]);
      if issuer == ENABLE_SLOT {
        if phases[addressingPort] != EnablingSlot {
          return InvalidPhase;
        }
        err := AddressDevice(addressingPort, slotId, place);
      } else if issuer == ADDRESS_DEVICE {
        var dev := devmgr.Find(slotId);
        if dev == None {
          return InvalidSlotID;
        }
        var port := dev.value.outputPort;
        if port != addressingPort {
          return InvalidPhase;
        }
        if phases[port] != AddressingDevice {
          return InvalidPhase;
        }
        err := OfferLock(regs);
        if err != Success {
          return;
        }
        err := InitializeDevice(port, slotId);
      } else if issuer == CONFIGURE_ENDPOINT {
        var dev := devmgr.Find(slotId);
        if dev == None {
          return InvalidSlotID;
        }
        var port := dev.value.outputPort;
        if phases[port] != ConfiguringEndpoints {
          return InvalidPhase;
        }
        err := CompleteConfiguration(port, slotId);
      } else {
        return InvalidPhase;
      }
    }

    /** The hand-off scan of the Address Device case. */
    method OfferLock(regs: PortReadings) returns (err: Error)
      requires Valid()
      modifies Repr
      ensures Valid() && (State(), err) == HandOff(old(State()), regs)
    {
      addressingPort := 0;
      ghost var before := State();
      for i := 0 to PORTS
        invariant Valid() && State() == before
        invariant FirstWaiting(phases[..], 0) == FirstWaiting(phases[..], i)
      {
        if phases[i] == WaitingAddressed {
          err := ResetPort(i, regs);
          return;
        }
      }
      return Success;
    }
  }
}
