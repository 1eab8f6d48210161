/**
 * The PCI bus scan (kernel/arch/aarch64-linux-gnu/pci.cpp) over either way of reaching configuration space: the
 * memory window of the former, or the register pair of kernel/arch/x86_64-elf/pci.cpp.
 */
module Pci {
  import opened Wrappers
  import opened Trbs

  type DevNo = x: nat | x < 32
  type FnNo = x: nat | x < 8
  datatype Fn = Fn(bus: Byte, device: DevNo, number: FnNo)

  /** Configuration space: the word at a register of a function. */
  type Space = (Fn, nat) -> Word

  const MAX_DEVICES: nat := 32

  // ---- addressing ----

  const ECAM_BASE: nat := 0x40_1000_0000

  /** MakeEcamAddress: the fields are disjoint, so `|` is `+`. */
  function EcamAddress(x: Fn, reg: Byte): nat {
    ECAM_BASE + 0x10_0000 * x.bus + 0x8000 * x.device + 0x1000 * x.number + reg
  }

  /** MakeAddress: enable bit, bus, device, function, and the register without its low two bits. */
  function PortAddress(x: Fn, reg: Byte): Word {
    0x8000_0000 + 0x1_0000 * x.bus + 0x800 * x.device + 0x100 * x.number + reg / 4 * 4
  }

  /** What the hardware takes an address of its 256 MiB configuration window for. */
  function DecodeEcam(a: nat): (Fn, nat)
    requires 0x40_1000_0000 <= a
  {
    var o := a - 0x40_1000_0000;
    (Fn(o / 0x10_0000 % 256, o / 0x8000 % 32, o / 0x1000 % 8), o % 0x1000)
  }

  /** What the hardware takes CONFIG_ADDRESS for. */
  function DecodePort(v: Word): (Fn, nat) {
    (Fn(v / 0x1_0000 % 256, v / 0x800 % 32, v / 0x100 % 8), v % 256 / 4 * 4)
  }

  lemma EcamRoundTrip(x: Fn, reg: Byte)
    ensures var a := EcamAddress(x, reg);
            0x40_1000_0000 <= a < 0x40_2000_0000 && DecodeEcam(a) == (x, reg)
  {
    var o := 0x10_0000 * x.bus + 0x8000 * x.device + 0x1000 * x.number + reg;
    Field(0x1000, 0x100 * x.bus + 8 * x.device + x.number, reg);
    Field(0x8000, 32 * x.bus + x.device, 0x1000 * x.number + reg);
    Field(0x10_0000, x.bus, 0x8000 * x.device + 0x1000 * x.number + reg);
    Field(8, 32 * x.bus + x.device, x.number);
    Field(32, x.bus, x.device);
  }

  /** What lies above and below each of the boundaries between fields. */
  lemma Field(n: nat, high: nat, low: nat)
    requires n in {8, 32, 0x100, 0x800, 0x1000, 0x8000, 0x1_0000, 0x10_0000} && low < n
    ensures (n * high + low) / n == high && (n * high + low) % n == low
  {
    if n == 8 {
      assert (8 * high + low) / 8 == high;
    } else if n == 32 {
      assert (32 * high + low) / 32 == high;
    } else if n == 0x100 {
      assert (0x100 * high + low) / 0x100 == high;
    } else if n == 0x800 {
      assert (0x800 * high + low) / 0x800 == high;
    } else if n == 0x1_0000 {
      assert (0x1_0000 * high + low) / 0x1_0000 == high;
    } else if n == 0x1000 {
      assert (0x1000 * high + low) / 0x1000 == high;
    } else if n == 0x8000 {
      assert (0x8000 * high + low) / 0x8000 == high;
    } else {
      assert (0x10_0000 * high + low) / 0x10_0000 == high;
    }
  }

  /** A 32-bit aligned register survives; another one is read as the word it lies in. */
  lemma PortRoundTrip(x: Fn, reg: Byte)
    ensures DecodePort(PortAddress(x, reg)) == (x, reg / 4 * 4)
    ensures DecodePort(PortAddress(x, reg)) == (x, reg) <==> reg % 4 == 0
  {
    var low := reg / 4 * 4;
    Field(0x100, 0x80_0000 + 0x100 * x.bus + 8 * x.device + x.number, low);
    Field(0x800, 0x10_0000 + 32 * x.bus + x.device, 0x100 * x.number + low);
    Field(0x1_0000, 0x8000 + x.bus, 0x800 * x.device + 0x100 * x.number + low);
    Field(8, 0x10_0000 + 32 * x.bus + x.device, x.number);
    Field(32, 0x8000 + x.bus, x.device);
    Field(0x100, 0x80, x.bus);
  }

  datatype Access = Ecam | Ports

  /** The hardware behind both access methods. */
  class ConfigSpace {
    const words: Space
    var configAddress: Word

    constructor (words: Space)
      ensures this.words == words
    {
      this.words := words;
      configAddress := 0;
    }

    function Load(a: nat): Word
      requires 0x40_1000_0000 <= a < 0x40_2000_0000
    {
      words(DecodeEcam(a).0, DecodeEcam(a).1)
    }

    method WriteAddress(v: Word)
      modifies this
      ensures configAddress == v
    {
      configAddress := v;
    }

    function ReadData(): Word
      reads this
    {
      words(DecodePort(configAddress).0, DecodePort(configAddress).1)
    }
  }

  // ---- what the scan reads of a function ----

  function Vendor(w: Space, x: Fn): Half { w(x, 0) % 65536 }
  function Absent(w: Space, x: Fn): bool { Vendor(w, x) == 0xffff }
  function HeaderType(w: Space, x: Fn): Byte { w(x, 12) / 65536 % 256 }
  function SingleFunction(header: Byte): bool { header < 128 }

  datatype ClassCode = ClassCode(base: Byte, sub: Byte, interface: Byte)

  function ClassOf(w: Space, x: Fn): ClassCode {
    ClassCode(w(x, 8) / 0x100_0000, w(x, 8) / 0x1_0000 % 256, w(x, 8) / 256 % 256)
  }

  function IsBridge(w: Space, x: Fn): bool { ClassOf(w, x).base == 6 && ClassOf(w, x).sub == 4 }
  function Secondary(w: Space, x: Fn): Byte { w(x, 24) / 256 % 256 }

  datatype Device = Device(fn: Fn, header: Byte, classCode: ClassCode)

  function DeviceOf(w: Space, x: Fn): Device { Device(x, HeaderType(w, x), ClassOf(w, x)) }

  // ---- the pre-order traversal, bridges followed to depth d ----

  function FnList(w: Space, x: Fn, d: nat): seq<Device>
    decreases d, 0
  {
    [DeviceOf(w, x)] + if IsBridge(w, x) && d > 0 then BusList(w, Secondary(w, x), 0, d - 1) else []
  }

  /** What is behind a function. */
  function Beyond(w: Space, x: Fn, d: nat): seq<Device>
  {
    if IsBridge(w, x) && d > 0 then BusList(w, Secondary(w, x), 0, d - 1) else []
  }

  lemma FnListParts(w: Space, x: Fn, d: nat)
    ensures FnList(w, x, d) == [DeviceOf(w, x)] + Beyond(w, x, d)
    ensures !IsBridge(w, x) ==> FnList(w, x, d) == [DeviceOf(w, x)]
  {
  }

  function FnsFrom(w: Space, bus: Byte, device: DevNo, f: nat, d: nat): seq<Device>
    requires f <= 8
    decreases d, 1, 8 - f
  {
    if f == 8 then []
    else
      (if Absent(w, Fn(bus, device, f)) then [] else FnList(w, Fn(bus, device, f), d)) +
      FnsFrom(w, bus, device, f + 1, d)
  }

  function DevList(w: Space, bus: Byte, device: DevNo, d: nat): seq<Device>
    decreases d, 2
  {
    FnList(w, Fn(bus, device, 0), d) +
    if SingleFunction(HeaderType(w, Fn(bus, device, 0))) then [] else FnsFrom(w, bus, device, 1, d)
  }

  function BusList(w: Space, bus: Byte, device: nat, d: nat): seq<Device>
    requires device <= 32
    decreases d, 3, 32 - device
  {
    if device == 32 then []
    else (if Absent(w, Fn(bus, device, 0)) then [] else DevList(w, bus, device, d)) + BusList(w, bus, device + 1, d)
  }

  /** Host bridges: bus 0, or with several functions at 0.0 a bus for each of them. */
  function RootsFrom(w: Space, f: nat, d: nat): seq<Device>
    requires f <= 8
    decreases 8 - f
  {
    if f == 8 then [] else (if Absent(w, Fn(0, 0, f)) then [] else BusList(w, f, 0, d)) + RootsFrom(w, f + 1, d)
  }

  function AllList(w: Space, d: nat): seq<Device> {
    if SingleFunction(HeaderType(w, Fn(0, 0, 0))) then BusList(w, 0, 0, d) else RootsFrom(w, 0, d)
  }

  // ---- what a scan does with a list ----

  function Take<T>(s: seq<T>, k: nat): seq<T> { if |s| <= k then s else s[..k] }

  /** The list is appended as far as it fits; an error exactly when it does not. */
  predicate Scanned(before: seq<Device>, list: seq<Device>, after: seq<Device>, err: Error) {
    && |before| <= MAX_DEVICES && after == before + Take(list, MAX_DEVICES - |before|)
    && err == if |before| + |list| > MAX_DEVICES then Full else Success
  }

  lemma ScanThen(before: seq<Device>, a: seq<Device>, mid: seq<Device>, b: seq<Device>, after: seq<Device>, err: Error)
    requires Scanned(before, a, mid, Success) && Scanned(mid, b, after, err)
    ensures Scanned(before, a + b, after, err)
  {
  }

  lemma ScanStops(before: seq<Device>, a: seq<Device>, after: seq<Device>, b: seq<Device>)
    requires Scanned(before, a, after, Full)
    ensures Scanned(before, a + b, after, Full)
  {
  }

  /** A scan of `all` that has found everything but `rest` so far. */
  predicate Progress(before: seq<Device>, all: seq<Device>, rest: seq<Device>, now: seq<Device>) {
    |rest| <= |all| && rest == all[|all| - |rest|..] && Scanned(before, all[..|all| - |rest|], now, Success)
  }

  lemma Starts(before: seq<Device>, all: seq<Device>)
    requires |before| <= MAX_DEVICES
    ensures Progress(before, all, all, before)
  {
  }

  lemma Ends(before: seq<Device>, all: seq<Device>, now: seq<Device>)
    requires Progress(before, all, [], now)
    ensures Scanned(before, all, now, Success)
  {
    assert all[..|all|] == all;
  }

  lemma Advance(before: seq<Device>, all: seq<Device>, here: seq<Device>, rest: seq<Device>, mid: seq<Device>,
          now: seq<Device>, err: Error)
    requires Progress(before, all, here + rest, mid) && Scanned(mid, here, now, err)
    ensures |before| <= |mid| <= |now|
    ensures if err == Success then Progress(before, all, rest, now) else Scanned(before, all, now, err)
  {
    var done := all[..|all| - |here + rest|];
    assert all == done + here + rest;
    ScanThen(before, done, mid, here, now, err);
    if err == Success {
      assert all[..|all| - |rest|] == done + here;
    } else {
      ScanStops(before, done + here, now, rest);
    }
  }

  class Scanner {
    const access: Access
    const hw: ConfigSpace
    const devices: array<Device>
    var numDevice: nat

    ghost predicate Valid()
      reads this
    {
      devices.Length == MAX_DEVICES && numDevice <= MAX_DEVICES
    }

    ghost function Found(): seq<Device>
      requires Valid()
      reads this, devices
    {
      devices[..numDevice]
    }

    constructor (access: Access, hw: ConfigSpace)
      ensures Valid() && this.access == access && this.hw == hw && Found() == [] && fresh(devices)
    {
      this.access, this.hw := access, hw;
      devices := new Device[MAX_DEVICES](_ => Device(Fn(0, 0, 0), 0, ClassCode(0, 0, 0)));
      numDevice := 0;
    }

    /** Both access methods read the word of the register that was meant. */
    method ReadConfig(x: Fn, reg: Byte) returns (v: Word)
      requires reg % 4 == 0
      modifies hw
      ensures v == hw.words(x, reg)
    {
      if access.Ecam? {
        EcamRoundTrip(x, reg);
        v := hw.Load(EcamAddress(x, reg));
      } else {
        PortRoundTrip(x, reg);
        hw.WriteAddress(PortAddress(x, reg));
        v := hw.ReadData();
      }
    }

    method ReadVendorId(x: Fn) returns (v: Half)
      modifies hw
      ensures v == Vendor(hw.words, x)
    {
      var r := ReadConfig(x, 0);
      v := r % 65536;
    }

    method ReadHeaderType(x: Fn) returns (h: Byte)
      modifies hw
      ensures h == HeaderType(hw.words, x)
    {
      var r := ReadConfig(x, 12);
      h := r / 65536 % 256;
    }

    method ReadClassCode(x: Fn) returns (c: ClassCode)
      modifies hw
      ensures c == ClassOf(hw.words, x)
    {
      var r := ReadConfig(x, 8);
      c := ClassCode(r / 0x100_0000, r / 0x1_0000 % 256, r / 256 % 256);
    }

    method AddDevice(dev: Device) returns (err: Error)
      requires Valid()
      modifies this`numDevice, devices
      ensures Valid() && Scanned(old(Found()), [dev], Found(), err)
      ensures (err == Success ==> numDevice == old(numDevice) + 1)
    {
      if numDevice == devices.Length {
        return Full;
      }
      devices[numDevice] := dev;
      numDevice := numDevice + 1;
      return Success;
    }

    method ScanFunction(x: Fn, ghost d: nat) returns (err: Error)
      requires Valid() && d > MAX_DEVICES - numDevice
      modifies this`numDevice, devices, hw
      ensures Valid() && Scanned(old(Found()), FnList(hw.words, x, d), Found(), err)
      decreases MAX_DEVICES - numDevice, 0
    {
      hide Scanned, FnList, BusList;
      ghost var before := Found();
      FnListParts(hw.words, x, d);
      var classCode := ReadClassCode(x);
      var header := ReadHeaderType(x);
      err := AddDevice(Device(x, header, classCode));
      if err != Success {
        ScanStops(before, [DeviceOf(hw.words, x)], Found(), Beyond(hw.words, x, d));
        return err;
      }
      if classCode.base == 6 && classCode.sub == 4 {
        var busNumbers := ReadConfig(x, 24);
        ghost var mid := Found();
        err := ScanBus(busNumbers / 256 % 256, d - 1);
        ScanThen(before, [DeviceOf(hw.words, x)], mid, BusList(hw.words, Secondary(hw.words, x), 0, d - 1), Found(),
          err);
      }
    }

    method ScanDevice(bus: Byte, device: DevNo, ghost d: nat) returns (err: Error)
      requires Valid() && d > MAX_DEVICES - numDevice
      modifies this`numDevice, devices, hw
      ensures Valid() && Scanned(old(Found()), DevList(hw.words, bus, device, d), Found(), err)
      decreases MAX_DEVICES - numDevice, 2
    {
      ghost var w := hw.words;
      ghost var before, first := Found(), FnList(w, Fn(bus, device, 0), d);
      err := ScanFunction(Fn(bus, device, 0), d);
      if err != Success {
        ScanStops(before, first, Found(), if SingleFunction(HeaderType(w, Fn(bus, device, 0))) then []
          else FnsFrom(w, bus, device, 1, d));
        return err;
      }
      var header := ReadHeaderType(Fn(bus, device, 0));
      if SingleFunction(header) {
        assert first + [] == first;
        return Success;
      }
      ghost var mid := Found();
      err := ScanFunctions(bus, device, d);
      ScanThen(before, first, mid, FnsFrom(w, bus, device, 1, d), Found(), err);
    }

    /** The loop of ScanDevice over functions 1 to 7. */
    method ScanFunctions(bus: Byte, device: DevNo, ghost d: nat) returns (err: Error)
      requires Valid() && d > MAX_DEVICES - numDevice
      modifies this`numDevice, devices, hw
      ensures Valid() && Scanned(old(Found()), FnsFrom(hw.words, bus, device, 1, d), Found(), err)
      decreases MAX_DEVICES - numDevice, 1
    {
      hide Scanned, Progress, FnList, DevList;
      ghost var w, before, all := hw.words, Found(), FnsFrom(hw.words, bus, device, 1, d);
      Starts(before, all);
      for f := 1 to 8
        invariant Valid() && old(numDevice) <= numDevice
        invariant Progress(before, all, FnsFrom(w, bus, device, f, d), Found())
      {
        var vendor := ReadVendorId(Fn(bus, device, f));
        assert vendor == 0xffff ==> FnsFrom(w, bus, device, f, d) == FnsFrom(w, bus, device, f + 1, d);
        if vendor != 0xffff {
          ghost var mid := Found();
          err := ScanFunction(Fn(bus, device, f), d);
          Advance(before, all, FnList(w, Fn(bus, device, f), d), FnsFrom(w, bus, device, f + 1, d), mid, Found(), err);
          if err != Success {
            return err;
          }
        }
      }
      Ends(before, all, Found());
      return Success;
    }

    method ScanBus(bus: Byte, ghost d: nat) returns (err: Error)
      requires Valid() && d > MAX_DEVICES - numDevice
      modifies this`numDevice, devices, hw
      ensures Valid() && Scanned(old(Found()), BusList(hw.words, bus, 0, d), Found(), err)
      decreases MAX_DEVICES - numDevice, 3
    {
      hide Scanned, Progress, FnList, DevList;
      ghost var w, before, all := hw.words, Found(), BusList(hw.words, bus, 0, d);
      Starts(before, all);
      for device := 0 to 32
        invariant Valid() && old(numDevice) <= numDevice && Progress(before, all, BusList(w, bus, device, d), Found())
      {
        var vendor := ReadVendorId(Fn(bus, device, 0));
        assert vendor == 0xffff ==> BusList(w, bus, device, d) == BusList(w, bus, device + 1, d);
        if vendor != 0xffff {
          ghost var mid := Found();
          err := ScanDevice(bus, device, d);
          Advance(before, all, DevList(w, bus, device, d), BusList(w, bus, device + 1, d), mid, Found(), err);
          if err != Success {
            return err;
          }
        }
      }
      Ends(before, all, Found());
      return Success;
    }

    /** The loop of ScanAllBus over the functions of 0.0. */
    method ScanRoots(ghost d: nat) returns (err: Error)
      requires Valid() && numDevice == 0 && d > MAX_DEVICES
      modifies this`numDevice, devices, hw
      ensures Valid() && Scanned([], RootsFrom(hw.words, 0, d), Found(), err)
    {
      hide Scanned, Progress, BusList;
      ghost var w, all := hw.words, RootsFrom(hw.words, 0, d);
      Starts([], all);
      for f := 0 to 8
        invariant Valid() && Progress([], all, RootsFrom(w, f, d), Found())
      {
        var vendor := ReadVendorId(Fn(0, 0, f));
        assert vendor == 0xffff ==> RootsFrom(w, f, d) == RootsFrom(w, f + 1, d);
        if vendor != 0xffff {
          ghost var mid := Found();
          err := ScanBus(f, d);
          Advance([], all, BusList(w, f, 0, d), RootsFrom(w, f + 1, d), mid, Found(), err);
          if err != Success {
            return err;
          }
        }
      }
      Ends([], all, Found());
      return Success;
    }

    /**
     * The scan ends on every configuration space.  It finds the first 32 entries of the pre-order traversal, and fails
     * exactly when there are more; following bridges deeper than 32 never matters.
     */
    method ScanAllBus() returns (err: Error)
      requires Valid()
      modifies this`numDevice, devices, hw
      ensures Valid() && forall d :: d > MAX_DEVICES ==> Scanned([], AllList(hw.words, d), Found(), err)
    {
      ghost var w := hw.words;
      numDevice := 0;
      var header := ReadHeaderType(Fn(0, 0, 0));
      if SingleFunction(header) {
        err := ScanBus(0, 33);
      } else {
        err := ScanRoots(33);
      }
      forall d | d > MAX_DEVICES ensures Scanned([], AllList(w, d), Found(), err) {
        AllStable(w, 33, d);
      }
    }
  }

  // ---- the traversal up to its 33rd entry does not depend on the depth ----

  lemma TakeJoin<T>(a: seq<T>, a': seq<T>, b: seq<T>, b': seq<T>, k: nat)
    requires Take(a, k) == Take(a', k)
    requires |a| < k ==> Take(b, k - |a|) == Take(b', k - |a|)
    ensures Take(a + b, k) == Take(a' + b', k)
  {
    if |a| < k {
      assert a == a';
      assert Take(a + b, k) == a + Take(b, k - |a|);
      assert Take(a + b', k) == a + Take(b', k - |a|);
    } else {
      assert |a'| >= k;
      assert Take(a + b, k) == Take(a, k) && Take(a' + b', k) == Take(a', k);
    }
  }

  lemma {:induction false} FnStable(w: Space, x: Fn, d: nat, e: nat, k: nat)
    requires d >= k && e >= k
    ensures Take(FnList(w, x, d), k) == Take(FnList(w, x, e), k)
    decreases k, 0
  {
    if k > 0 && IsBridge(w, x) {
      var b, b' := BusList(w, Secondary(w, x), 0, d - 1), BusList(w, Secondary(w, x), 0, e - 1);
      BusStable(w, Secondary(w, x), 0, d - 1, e - 1, k - 1);
      TakeJoin([DeviceOf(w, x)], [DeviceOf(w, x)], b, b', k);
    }
  }

  lemma {:induction false} FnsStable(w: Space, bus: Byte, device: DevNo, f: nat, d: nat, e: nat, k: nat)
    requires d >= k && e >= k && f <= 8
    ensures Take(FnsFrom(w, bus, device, f, d), k) == Take(FnsFrom(w, bus, device, f, e), k)
    decreases k, 1, 8 - f
  {
    if f < 8 {
      var x := Fn(bus, device, f);
      var a, a' := if Absent(w, x) then [] else FnList(w, x, d), if Absent(w, x) then [] else FnList(w, x, e);
      FnStable(w, x, d, e, k);
      if |a| < k { FnsStable(w, bus, device, f + 1, d, e, k - |a|); }
      TakeJoin(a, a', FnsFrom(w, bus, device, f + 1, d), FnsFrom(w, bus, device, f + 1, e), k);
    }
  }

  lemma {:induction false} DevStable(w: Space, bus: Byte, device: DevNo, d: nat, e: nat, k: nat)
    requires d >= k && e >= k
    ensures Take(DevList(w, bus, device, d), k) == Take(DevList(w, bus, device, e), k)
    decreases k, 2
  {
    var x := Fn(bus, device, 0);
    var a := FnList(w, x, d);
    var b, b' := if SingleFunction(HeaderType(w, x)) then [] else FnsFrom(w, bus, device, 1, d),
                 if SingleFunction(HeaderType(w, x)) then [] else FnsFrom(w, bus, device, 1, e);
    FnStable(w, x, d, e, k);
    if |a| < k { FnsStable(w, bus, device, 1, d, e, k - |a|); }
    TakeJoin(a, FnList(w, x, e), b, b', k);
  }

  lemma {:induction false} BusStable(w: Space, bus: Byte, device: nat, d: nat, e: nat, k: nat)
    requires d >= k && e >= k && device <= 32
    ensures Take(BusList(w, bus, device, d), k) == Take(BusList(w, bus, device, e), k)
    decreases k, 3, 32 - device
  {
    if device < 32 {
      var x := Fn(bus, device, 0);
      var a := if Absent(w, x) then [] else DevList(w, bus, device, d);
      var a' := if Absent(w, x) then [] else DevList(w, bus, device, e);
      DevStable(w, bus, device, d, e, k);
      if |a| < k { BusStable(w, bus, device + 1, d, e, k - |a|); }
      TakeJoin(a, a', BusList(w, bus, device + 1, d), BusList(w, bus, device + 1, e), k);
    }
  }

  lemma {:induction false} RootsStable(w: Space, f: nat, d: nat, e: nat, k: nat)
    requires d >= k && e >= k && f <= 8
    ensures Take(RootsFrom(w, f, d), k) == Take(RootsFrom(w, f, e), k)
    decreases 8 - f
  {
    if f < 8 {
      var absent := Absent(w, Fn(0, 0, f));
      var a, a' := if absent then [] else BusList(w, f, 0, d), if absent then [] else BusList(w, f, 0, e);
      BusStable(w, f, 0, d, e, k);
      if |a| < k { RootsStable(w, f + 1, d, e, k - |a|); }
      TakeJoin(a, a', RootsFrom(w, f + 1, d), RootsFrom(w, f + 1, e), k);
    }
  }

  /** What a scan finds, and whether it fails, is the same for every depth above 32. */
  lemma AllStable(w: Space, d: nat, e: nat)
    requires d > MAX_DEVICES && e > MAX_DEVICES
    ensures Take(AllList(w, d), MAX_DEVICES) == Take(AllList(w, e), MAX_DEVICES)
    ensures |AllList(w, d)| > MAX_DEVICES <==> |AllList(w, e)| > MAX_DEVICES
  {
    var k := MAX_DEVICES + 1;
    if SingleFunction(HeaderType(w, Fn(0, 0, 0))) { BusStable(w, 0, 0, d, e, k); } else { RootsStable(w, 0, d, e, k); }
    var a, b := AllList(w, d), AllList(w, e);
    assert Take(a, k) == Take(b, k);
    assert Take(a, MAX_DEVICES) == Take(Take(a, k), MAX_DEVICES) &&
      Take(b, MAX_DEVICES) == Take(Take(b, k), MAX_DEVICES);
  }

  /** Two scans of one configuration space agree, whichever way each of them accesses it. */
  lemma ScansAgree(w: Space, d: nat, a: seq<Device>, errA: Error, e: nat, b: seq<Device>, errB: Error)
    requires d > MAX_DEVICES && Scanned([], AllList(w, d), a, errA)
    requires e > MAX_DEVICES && Scanned([], AllList(w, e), b, errB)
    ensures a == b && errA == errB
  {
    AllStable(w, d, e);
  }
}
