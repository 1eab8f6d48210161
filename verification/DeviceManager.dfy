/** Slots, devices and the Device Context Base Address Array (kernel/usb/xhci/devmgr.cpp). */
module DeviceManagers {
  import opened Wrappers
  import opened Trbs

  /**
   * What the port protocol reads of a device object: its slot id, the addresses of its two contexts, the root
   * hub port in the input slot context (written by the driver) and in the device slot context (written by
   * the host controller), and whether enumeration has finished.
   */
  datatype DeviceRecord = DeviceRecord(
    slotId: Byte, context: Address, inputContext: Address,
    inputPort: Byte, outputPort: Byte, initialized: bool)

  /** `devices_` and `device_context_pointers_`, both with max_slots_ + 1 entries. */
  datatype DeviceTable = DeviceTable(devices: seq<Option<DeviceRecord>>, contexts: seq<Option<Address>>)

  predicate TableOk(t: DeviceTable) {
    |t.devices| == |t.contexts| > 0
  }

  /** Null for a slot id past the table, and for a slot without a device. */
  function FindBySlot(t: DeviceTable, slotId: Byte): Option<DeviceRecord> {
    if slotId < |t.devices| then t.devices[slotId] else None
  }

  /** The table after AllocDevice; only a free slot inside the table changes. */
  function Allocated(t: DeviceTable, slotId: Byte, context: Address, inputContext: Address): DeviceTable {
    if slotId < |t.devices| && t.devices[slotId] == None
    then t.(devices := t.devices[slotId := Some(DeviceRecord(slotId, context, inputContext, 0, 0, false))])
    else t
  }

  class DeviceManager {
    const maxSlots: nat
    const devices: array<Option<DeviceRecord>>
    const contexts: array<Option<Address>>

    ghost predicate Valid() {
      devices.Length == contexts.Length == maxSlots + 1
    }

    ghost function Table(): DeviceTable
      reads devices, contexts
    {
      DeviceTable(devices[..], contexts[..])
    }

    constructor Initialize(maxSlots: nat)
      ensures Valid() && this.maxSlots == maxSlots && fresh(devices) && fresh(contexts)
      ensures Table() == DeviceTable(seq(maxSlots + 1, _ => None), seq(maxSlots + 1, _ => None))
    {
      this.maxSlots := maxSlots;
      devices := new Option<DeviceRecord>[maxSlots + 1];
      contexts := new Option<Address>[maxSlots + 1];
      new;
      for i := 0 to maxSlots + 1
        invariant forall k :: 0 <= k < i ==> devices[k] == None && contexts[k] == None
      {
        devices[i] := None;
        contexts[i] := None;
      }
      assert devices[..] == seq(maxSlots + 1, _ => None);
      assert contexts[..] == seq(maxSlots + 1, _ => None);
    }

    method Find(slotId: Byte) returns (dev: Option<DeviceRecord>)
      requires Valid()
      ensures dev == FindBySlot(Table(), slotId)
    {
      if slotId > maxSlots {
        return None;
      }
      dev := devices[slotId];
    }

    method AllocDevice(slotId: Byte, context: Address, inputContext: Address) returns (err: Error)
      requires Valid()
      modifies devices
      ensures Table() == Allocated(old(Table()), slotId, context, inputContext)
      ensures err == if slotId > maxSlots then InvalidSlotID
                     else if old(devices[slotId]) != None then AlreadyAllocated else Success
    {
      if slotId > maxSlots {
        return InvalidSlotID;
      }
      if devices[slotId] != None {
        return AlreadyAllocated;
      }
      devices[slotId] := Some(DeviceRecord(slotId, context, inputContext, 0, 0, false));
      return Success;
    }

    /** Requires a device in the slot: the source dereferences it. */
    method LoadDCBAA(slotId: Byte) returns (err: Error)
      requires Valid() && (slotId <= maxSlots ==> devices[slotId].Some?)
      modifies contexts
      ensures contexts[..] ==
        if slotId <= maxSlots then old(contexts[..])[slotId := Some(devices[slotId].value.context)]
          else old(contexts[..])
      ensures err == if slotId > maxSlots then InvalidSlotID else Success
    {
      if slotId > maxSlots {
        return InvalidSlotID;
      }
      contexts[slotId] := Some(devices[slotId].value.context);
      return Success;
    }

    /** A device object updated through the pointer that FindBySlot returned. */
    method Update(slotId: Byte, dev: DeviceRecord)
      requires Valid() && slotId <= maxSlots
      modifies devices
      ensures devices[..] == old(devices[..])[slotId := Some(dev)]
    {
      devices[slotId] := Some(dev);
    }
  }
}
