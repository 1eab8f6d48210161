/**
 * Transfer Request Blocks as four 32-bit words (kernel/usb/xhci/trb.hpp).  Bit fields are written as
 * multiples of powers of two; a value wider than its field is truncated, as the C++ bit field does.
 */
module Trbs {
  const B32: nat := 0x1_0000_0000
  const B64: nat := 0x1_0000_0000_0000_0000

  type Word = x: nat | x < B32
  type Byte = x: nat | x < 256
  type Half = x: nat | x < 65536

  datatype Trb = Trb(w0: Word, w1: Word, w2: Word, w3: Word)

  const ZERO: Trb := Trb(0, 0, 0, 0)

  const NORMAL: nat := 1
  const SETUP_STAGE: nat := 2
  const DATA_STAGE: nat := 3
  const STATUS_STAGE: nat := 4
  const LINK: nat := 6
  const ENABLE_SLOT: nat := 9
  const ADDRESS_DEVICE: nat := 11
  const CONFIGURE_ENDPOINT: nat := 12

  function WordOf(t: Trb, k: nat): Word
    requires k < 4
  {
    if k == 0 then t.w0 else if k == 1 then t.w1 else if k == 2 then t.w2 else t.w3
  }

  function WithWord(t: Trb, k: nat, v: Word): Trb
    requires k < 4
  {
    if k == 0 then t.(w0 := v) else if k == 1 then t.(w1 := v) else if k == 2 then t.(w2 := v) else t.(w3 := v)
  }

  function CycleOf(t: Trb): bool { t.w3 % 2 == 1 }

  function TypeOf(t: Trb): nat { t.w3 / 1024 % 64 }

  function ToggleOf(t: Trb): bool { t.w3 / 2 % 2 == 1 }

  /** `(data[3] & 0xfffffffe) | cycle_bit` */
  function StampWord(w: Word, cycle: bool): Word {
    w - w % 2 + (if cycle then 1 else 0)
  }

  function Stamp(t: Trb, cycle: bool): (r: Trb)
    ensures CycleOf(r) == cycle && SameButCycle(r, t)
  {
    t.(w3 := StampWord(t.w3, cycle))
  }

  /** Equal in everything but the cycle bit. */
  predicate SameButCycle(t: Trb, u: Trb) {
    t.w0 == u.w0 && t.w1 == u.w1 && t.w2 == u.w2 && t.w3 / 2 == u.w3 / 2
  }

  // ---- pointers ----

  type Address = x: nat | x < B64

  /** A 64-bit parameter stored in words 0 and 1. */
  function Parameter(t: Trb): Address { t.w1 * B32 + t.w0 }

  /** Fields that keep bits 63:4 of a pointer: `p >> 4` stored, `<< 4` on reading. */
  function Pointer16(t: Trb): Address { Parameter(t) / 16 * 16 }

  function Low(p: Address): Word { p % B32 }
  function High(p: Address): Word { p / B32 }
  function Truncate16(p: Address): Address { p / 16 * 16 }

  // ---- constructors ----

  function LinkTrb(segment: Address): Trb {
    Trb(Low(Truncate16(segment)), High(Truncate16(segment)), 0, LINK * 1024 + 2)
  }

  function NormalTrb(buf: Address, len: nat): Trb {
    Trb(Low(buf), High(buf), len % 0x20000, NORMAL * 1024 + 32 + 4)
  }

  /** The 8-byte SETUP packet (section 9.3 of USB 2.0). */
  datatype SetupData = SetupData(requestType: Byte, request: Byte, value: Half, index: Half, length: Half)

  function SetupStageTrb(s: SetupData, transferType: nat): Trb
    requires transferType < 4
  {
    Trb(s.requestType + 256 * s.request + 65536 * s.value, s.index + 65536 * s.length, 8,
        SETUP_STAGE * 1024 + 64 + 65536 * transferType)
  }

  function SetupDataOf(t: Trb): SetupData {
    SetupData(t.w0 % 256, t.w0 / 256 % 256, t.w0 / 65536, t.w1 % 65536, t.w1 / 65536)
  }

  function DataStageTrb(buf: Address, len: nat, dirIn: bool): Trb {
    Trb(Low(buf), High(buf), len % 0x20000, DATA_STAGE * 1024 + 32 + (if dirIn then 65536 else 0))
  }

  function StatusStageTrb(dirIn: bool, ioc: bool): Trb {
    Trb(0, 0, 0, STATUS_STAGE * 1024 + (if ioc then 32 else 0) + (if dirIn then 65536 else 0))
  }

  /** The 17-bit transfer length field. */
  function TransferLength(t: Trb): nat { t.w2 % 0x20000 }

  function EnableSlotTrb(): Trb {
    Trb(0, 0, 0, ENABLE_SLOT * 1024)
  }

  function AddressDeviceTrb(inputContext: Address, slotId: Byte): Trb {
    Trb(Low(Truncate16(inputContext)), High(Truncate16(inputContext)), 0, ADDRESS_DEVICE * 1024 + 0x100_0000 * slotId)
  }

  function ConfigureEndpointTrb(inputContext: Address, slotId: Byte): Trb {
    Trb(Low(Truncate16(inputContext)), High(Truncate16(inputContext)), 0,
      CONFIGURE_ENDPOINT * 1024 + 0x100_0000 * slotId)
  }

  // ---- round trips ----

  /** A pointer survives a 16-byte-granular field exactly when it is 16-byte aligned. */
  lemma LinkPointerRoundTrip(p: Address)
    ensures Pointer16(LinkTrb(p)) == Truncate16(p)
    ensures Pointer16(LinkTrb(p)) == p <==> p % 16 == 0
    ensures TypeOf(LinkTrb(p)) == LINK && ToggleOf(LinkTrb(p)) && !CycleOf(LinkTrb(p))
  {
    var t := Truncate16(p);
    assert Parameter(LinkTrb(p)) == t;
    assert t % 16 == 0;
  }

  /**
   * What the controller reads of a Link TRB (section 6.4.4.1 of the xHCI specification): type 6, bit 1 to toggle its
   * cycle state, no chaining, no event, and the pointer above its low four bits.
   */
  lemma LinkFields(p: Address, cycle: bool)
    ensures var t := Stamp(LinkTrb(p), cycle);
            && t.w3 / 1024 == 6 && t.w3 % 1024 / 4 == 0 && t.w3 / 2 % 2 == 1 && t.w3 % 2 == (if cycle then 1 else 0)
            && t.w2 == 0 && t.w0 % 16 == 0 && (0x1_0000_0000 * t.w1 + t.w0) / 16 == p / 16
  {
    var t := LinkTrb(p);
    assert 0x1_0000_0000 * t.w1 + t.w0 == p / 16 * 16;
  }

  lemma SetupRoundTrip(s: SetupData, transferType: nat, cycle: bool)
    requires transferType < 4
    ensures SetupDataOf(Stamp(SetupStageTrb(s, transferType), cycle)) == s
    ensures TypeOf(SetupStageTrb(s, transferType)) == SETUP_STAGE
  {
    var t := SetupStageTrb(s, transferType);
    assert t.w0 / 256 == s.request + 256 * s.value;
    assert SetupDataOf(t) == s;
  }

  /** The buffer always survives; the length survives exactly when it fits in 17 bits. */
  lemma DataRoundTrip(buf: Address, len: nat, dirIn: bool, cycle: bool)
    ensures var t := Stamp(DataStageTrb(buf, len, dirIn), cycle);
            Parameter(t) == buf && TypeOf(t) == DATA_STAGE && (TransferLength(t) == len <==> len < 0x20000)
  {
  }

  lemma NormalRoundTrip(buf: Address, len: nat, cycle: bool)
    ensures var t := Stamp(NormalTrb(buf, len), cycle);
            Parameter(t) == buf && TypeOf(t) == NORMAL && (TransferLength(t) == len <==> len < 0x20000)
  {
  }

  /**
   * What the controller reads of a Normal TRB (section 6.4.1.1 of the xHCI specification): the buffer, the length, an
   * event on completion and on a short packet, no chaining and no immediate data.
   */
  lemma NormalFields(buf: Address, len: nat, cycle: bool)
    ensures var t := Stamp(NormalTrb(buf, len), cycle);
            && t.w0 + 0x1_0000_0000 * t.w1 == buf && t.w2 == len % 0x20000
            && t.w3 / 1024 == 1 && t.w3 / 32 % 2 == 1 && t.w3 / 4 % 2 == 1
            && t.w3 / 64 % 16 == 0 && t.w3 / 16 % 2 == 0 && t.w3 / 8 % 2 == 0 && t.w3 / 2 % 2 == 0
            && t.w3 % 2 == (if cycle then 1 else 0)
  {
  }

  lemma CommandTypes(ctx: Address, slotId: Byte)
    ensures TypeOf(EnableSlotTrb()) == ENABLE_SLOT
    ensures TypeOf(AddressDeviceTrb(ctx, slotId)) == ADDRESS_DEVICE
    ensures TypeOf(ConfigureEndpointTrb(ctx, slotId)) == CONFIGURE_ENDPOINT
  {
    TypeBelowSlot(ADDRESS_DEVICE, slotId);
    TypeBelowSlot(CONFIGURE_ENDPOINT, slotId);
  }

  /** Bits 15:10 do not see the slot id in bits 31:24. */
  lemma TypeBelowSlot(kind: nat, slotId: nat)
    requires kind < 64
    ensures (kind * 1024 + 0x100_0000 * slotId) / 1024 % 64 == kind
  {
    var all := kind + 64 * (256 * slotId);
    assert kind * 1024 + 0x100_0000 * slotId == 1024 * all;
    assert 1024 * all / 1024 == all;
    assert all % 64 == kind;
  }

  /**
   * What the controller reads of the two commands for a slot (sections 6.4.3.4 and 6.4.3.5 of the xHCI specification):
   * type, slot id, no flag but the cycle bit, and the input context, exactly when that is 16-byte aligned.
   */
  lemma SlotCommandRoundTrip(ctx: Address, slotId: Byte, cycle: bool)
    ensures var t := Stamp(AddressDeviceTrb(ctx, slotId), cycle); SlotCommandFields(t, 11, ctx, slotId, cycle)
    ensures var t := Stamp(ConfigureEndpointTrb(ctx, slotId), cycle); SlotCommandFields(t, 12, ctx, slotId, cycle)
  {
    SlotFields(11, slotId, cycle);
    SlotFields(12, slotId, cycle);
  }

  predicate SlotCommandFields(t: Trb, kind: nat, ctx: Address, slotId: Byte, cycle: bool) {
    && t.w3 / 1024 % 64 == kind && t.w3 / 0x100_0000 == slotId && t.w3 / 65536 % 256 == 0
    && t.w3 % 1024 == (if cycle then 1 else 0) && t.w2 == 0
    && (t.w1 * 0x1_0000_0000 + t.w0 == ctx <==> ctx % 16 == 0)
    && (t.w1 * 0x1_0000_0000 + t.w0) / 16 == ctx / 16
  }

  /** The fields of word 3 do not overlap. */
  lemma SlotFields(kind: nat, slotId: Byte, cycle: bool)
    requires kind < 64
    ensures var w := StampWord(kind * 1024 + 0x100_0000 * slotId, cycle);
            && w / 1024 % 64 == kind && w / 0x100_0000 == slotId && w / 65536 % 256 == 0
            && w % 1024 == (if cycle then 1 else 0)
  {
    var c: nat := if cycle then 1 else 0;
    var w := StampWord(kind * 1024 + 0x100_0000 * slotId, cycle);
    TypeBelowSlot(kind, slotId);
    assert w == kind * 1024 + 0x100_0000 * slotId + c;
    assert w / 1024 == kind + 16384 * slotId;
    assert w / 65536 == 256 * slotId;
  }

  lemma EnableSlotFields(cycle: bool)
    ensures Stamp(EnableSlotTrb(), cycle) == Trb(0, 0, 0, 9216 + if cycle then 1 else 0)
    ensures Stamp(EnableSlotTrb(), cycle).w3 / 1024 % 64 == 9
  {
  }

  /** Equality up to the cycle bit determines everything else that is read from a TRB. */
  lemma SameButCycleReads(t: Trb, u: Trb)
    requires SameButCycle(t, u)
    ensures TypeOf(t) == TypeOf(u) && ToggleOf(t) == ToggleOf(u) && Parameter(t) == Parameter(u)
    ensures TransferLength(t) == TransferLength(u)
    ensures Stamp(t, CycleOf(u)) == u
    ensures SetupDataOf(t) == SetupDataOf(u)
  {
  }
}
