/** USB descriptors and the reader of a configuration blob (kernel/usb/device.cpp, kernel/usb/descriptor.hpp). */
module Descriptors {
  import opened Wrappers
  import opened Trbs

  const DEVICE_DESCRIPTOR: Byte := 1
  const CONFIGURATION_DESCRIPTOR: Byte := 2
  const INTERFACE_DESCRIPTOR: Byte := 4
  const ENDPOINT_DESCRIPTOR: Byte := 5

  type Descriptor = seq<Byte>

  /** A length byte that is the descriptor's length, a type, and the fields of its type (section 9.6 of USB 2.0). */
  predicate DescriptorOk(d: Descriptor) {
    && 2 <= |d| <= 255 && d[0] == |d|
    && (d[1] == CONFIGURATION_DESCRIPTOR ==> |d| >= 9)
    && (d[1] == INTERFACE_DESCRIPTOR ==> |d| >= 9)
    && (d[1] == ENDPOINT_DESCRIPTOR ==> |d| >= 7)
  }

  predicate AllOk(descs: seq<Descriptor>) {
    forall i :: 0 <= i < |descs| ==> DescriptorOk(descs[i])
  }

  /** The blob a device sends: its descriptors one after the other. */
  function Flatten(descs: seq<Descriptor>): seq<Byte> {
    if descs == [] then [] else Flatten(descs[..|descs| - 1]) + descs[|descs| - 1]
  }

  /** Where the k-th descriptor starts. */
  function Offset(descs: seq<Descriptor>, k: nat): nat
    requires k <= |descs|
  {
    if k == 0 then 0 else Offset(descs, k - 1) + |descs[k - 1]|
  }

  lemma {:induction false} OffsetPrefix(descs: seq<Descriptor>, n: nat, k: nat)
    requires k <= n <= |descs|
    ensures Offset(descs[..n], k) == Offset(descs, k)
  {
    if k > 0 { OffsetPrefix(descs, n, k - 1); }
  }

  lemma {:induction false} FlattenLength(descs: seq<Descriptor>)
    ensures |Flatten(descs)| == Offset(descs, |descs|)
  {
    if descs != [] {
      FlattenLength(descs[..|descs| - 1]);
      OffsetPrefix(descs, |descs| - 1, |descs| - 1);
    }
  }

  /** The k-th descriptor lies in the blob at its offset. */
  lemma {:induction false} FlattenAt(descs: seq<Descriptor>, k: nat)
    requires k < |descs|
    ensures Offset(descs, k) + |descs[k]| <= |Flatten(descs)|
    ensures Flatten(descs)[Offset(descs, k)..Offset(descs, k) + |descs[k]|] == descs[k]
  {
    var n := |descs| - 1;
    FlattenLength(descs[..n]);
    OffsetPrefix(descs, n, n);
    if k < n {
      FlattenAt(descs[..n], k);
      OffsetPrefix(descs, n, k);
    }
  }

  // ---- which descriptors enumeration picks ----

  datatype DriverKind = Keyboard | Mouse

  /** The driver for an interface: HID class 3, boot subclass 1, protocol 1 or 2. */
  function DriverFor(class_: Byte, subClass: Byte, protocol: Byte): Option<DriverKind> {
    if class_ == 3 && subClass == 1 then
      (if protocol == 1 then Some(Keyboard) else if protocol == 2 then Some(Mouse) else None)
    else None
  }

  function KindOf(d: Descriptor): Option<DriverKind>
    requires DescriptorOk(d)
  {
    if d[1] == INTERFACE_DESCRIPTOR then DriverFor(d[5], d[6], d[7]) else None
  }

  /** Interface descriptor with class 3 (HID), subclass 1 (boot), and protocol 1 (keyboard) or 2 (mouse). */
  predicate BootInterface(d: Descriptor) {
    |d| >= 8 && d[1] == 4 && d[5] == 3 && d[6] == 1 && (d[7] == 1 || d[7] == 2)
  }

  /** There is a driver for exactly these interfaces: of the keyboard or of the mouse. */
  lemma KindOfExactly(d: Descriptor)
    requires DescriptorOk(d)
    ensures KindOf(d).Some? <==> BootInterface(d)
    ensures BootInterface(d) ==> KindOf(d) == Some(if d[7] == 1 then Keyboard else Mouse)
  {
  }

  /** The interface chosen is the first of these. */
  lemma FirstSupportedIsBoot(descs: seq<Descriptor>, i: nat)
    requires AllOk(descs) && i <= |descs|
    ensures var c := FirstSupported(descs, i);
            && (c < |descs| ==> BootInterface(descs[c])) && forall j :: i <= j < c ==> !BootInterface(descs[j])
  {
    forall j | 0 <= j < |descs| ensures KindOf(descs[j]).Some? <==> BootInterface(descs[j]) { KindOfExactly(descs[j]); }
  }

  /** First descriptor of a type at or after i. */
  function FirstOfType(descs: seq<Descriptor>, i: nat, t: Byte): (r: nat)
    requires AllOk(descs) && i <= |descs|
    ensures i <= r <= |descs| && (r < |descs| ==> descs[r][1] == t) && forall j :: i <= j < r ==> descs[j][1] != t
    decreases |descs| - i
  {
    if i == |descs| || descs[i][1] == t then i else FirstOfType(descs, i + 1, t)
  }

  /** First interface at or after i that a driver supports. */
  function FirstSupported(descs: seq<Descriptor>, i: nat): (r: nat)
    requires AllOk(descs) && i <= |descs|
    ensures i <= r <= |descs| && (r < |descs| ==> KindOf(descs[r]).Some?) && forall j :: i <= j < r ==>
            KindOf(descs[j]).None?
    decreases |descs| - i
  {
    if i == |descs| || KindOf(descs[i]).Some? then i else FirstSupported(descs, i + 1)
  }

  /** The next n endpoint descriptors at or after i. */
  function EndpointsFrom(descs: seq<Descriptor>, i: nat, n: nat): (r: seq<Descriptor>)
    requires AllOk(descs) && i <= |descs|
    ensures |r| <= n && forall j :: 0 <= j < |r| ==> DescriptorOk(r[j]) && r[j][1] == ENDPOINT_DESCRIPTOR
    decreases |descs| - i
  {
    if n == 0 || i == |descs| then []
    else if descs[i][1] == ENDPOINT_DESCRIPTOR then [descs[i]] + EndpointsFrom(descs, i + 1, n - 1)
    else EndpointsFrom(descs, i + 1, n)
  }

  /** The endpoint descriptors before the next interface descriptor: those of the interface just before i. */
  function BlockEndpoints(descs: seq<Descriptor>, i: nat): seq<Descriptor>
    requires AllOk(descs) && i <= |descs|
    decreases |descs| - i
  {
    if i == |descs| || descs[i][1] == INTERFACE_DESCRIPTOR then []
    else if descs[i][1] == ENDPOINT_DESCRIPTOR then [descs[i]] + BlockEndpoints(descs, i + 1)
    else BlockEndpoints(descs, i + 1)
  }

  lemma {:induction false} EndpointsAgree(descs: seq<Descriptor>, i: nat, n: nat)
    requires AllOk(descs) && i <= |descs|
    ensures var e, b := EndpointsFrom(descs, i, n), BlockEndpoints(descs, i);
            (n <= |b| ==> e == b[..n]) && (|b| <= n ==> b <= e)
    decreases |descs| - i
  {
    if n > 0 && i < |descs| && descs[i][1] != INTERFACE_DESCRIPTOR {
      EndpointsAgree(descs, i + 1, if descs[i][1] == ENDPOINT_DESCRIPTOR then n - 1 else n);
    }
  }

  /**
   * The endpoints collected after an interface that announces n of them are exactly that interface's own if and
   * only if its block holds exactly n; with fewer, endpoints of later interfaces are taken as well.
   */
  lemma CollectsOwnEndpoints(descs: seq<Descriptor>, i: nat, n: nat)
    requires AllOk(descs) && i <= |descs| && |EndpointsFrom(descs, i, n)| == n
    ensures EndpointsFrom(descs, i, n) == BlockEndpoints(descs, i) <==> |BlockEndpoints(descs, i)| == n
  {
    EndpointsAgree(descs, i, n);
  }

  // ---- endpoint configurations ----

  const INTERRUPT: nat := 3

  /** `address` is 2 * number + direction; type 3 is interrupt. */
  datatype EndpointConfig = EndpointConfig(address: nat, epType: nat, maxPacketSize: nat, interval: nat)

  function NumberOf(c: EndpointConfig): nat { c.address / 2 }
  predicate IsIn(address: nat) { address % 2 == 1 }

  /** bEndpointAddress keeps the number in bits 3:0 and the direction in bit 7 (section 9.6.6 of USB 2.0). */
  function ConfigOf(d: Descriptor): EndpointConfig
    requires DescriptorOk(d) && d[1] == ENDPOINT_DESCRIPTOR
  {
    EndpointConfig(2 * (d[2] % 16) + d[2] / 128, d[3] % 4, Field16(d, 4), d[6])
  }

  /** A little-endian 16-bit field. */
  function Field16(d: Descriptor, i: nat): nat
    requires i + 1 < |d|
  {
    var high: nat := d[i + 1];
    d[i] + 256 * high
  }

  function ConfigsOf(ds: seq<Descriptor>): seq<EndpointConfig>
    requires forall j :: 0 <= j < |ds| ==> DescriptorOk(ds[j]) && ds[j][1] == ENDPOINT_DESCRIPTOR
  {
    seq(|ds|, j requires 0 <= j < |ds| => ConfigOf(ds[j]))
  }

  /** The configurations of the next n endpoint descriptors at or after i. */
  function ConfigsFrom(descs: seq<Descriptor>, i: nat, n: nat): (r: seq<EndpointConfig>)
    requires AllOk(descs) && i <= |descs|
    ensures |r| == |EndpointsFrom(descs, i, n)|
  {
    ConfigsOf(EndpointsFrom(descs, i, n))
  }

  lemma ConfigsStep(descs: seq<Descriptor>, i: nat, n: nat)
    requires AllOk(descs) && i <= |descs| && |ConfigsFrom(descs, i, n)| == n > 0
    ensures i < |descs|
    ensures ConfigsFrom(descs, i, n) ==
              if descs[i][1] == ENDPOINT_DESCRIPTOR then [ConfigOf(descs[i])] + ConfigsFrom(descs, i + 1, n - 1)
              else ConfigsFrom(descs, i + 1, n)
  {
    if descs[i][1] == ENDPOINT_DESCRIPTOR {
      assert EndpointsFrom(descs, i, n)[1..] == EndpointsFrom(descs, i + 1, n - 1);
    }
  }

  /**
   * The number and direction of the descriptor are read back from the configuration; the transfer type is in bits 1:0
   * of byte 3, the packet size in bytes 4 and 5, the interval in byte 6 (section 9.6.6 of USB 2.0).
   */
  lemma ConfigFields(d: Descriptor)
    requires DescriptorOk(d) && d[1] == 5
    ensures var c := ConfigOf(d);
            && NumberOf(c) == d[2] % 16 && (IsIn(c.address) <==> d[2] >= 128) && c.address <= 31
            && c.epType == d[3] % 4 && c.interval == d[6]
            && c.maxPacketSize % 0x100 == d[4] && c.maxPacketSize / 0x100 == d[5]
  {
    var low: nat, high: nat := d[4], d[5];
    assert (0x100 * high + low) / 0x100 == high;
  }

  // ---- the reader ----

  class ConfigurationDescriptorReader {
    const buf: array<Byte>
    const len: nat
    var p: nat                           // p_ - desc_buf_
    ghost const descs: seq<Descriptor>   // what the blob was encoded from
    ghost var k: nat                     // the descriptor p points at

    ghost predicate Valid()
      reads this, buf
    {
      len <= buf.Length && AllOk(descs) && buf[..len] == Flatten(descs) && k <= |descs| && p == Offset(descs, k)
    }

    constructor (buf: array<Byte>, len: nat, ghost descs: seq<Descriptor>)
      requires len <= buf.Length && AllOk(descs) && buf[..len] == Flatten(descs)
      ensures Valid() && this.buf == buf && this.len == len && this.descs == descs && k == 0
    {
      this.buf, this.len, this.descs := buf, len, descs;
      p, k := 0, 0;
    }

    /** What the buffer holds where the reader stands. */
    lemma Here()
      requires Valid()
      ensures p < len <==> k < |descs|
      ensures k < |descs| ==> p + |descs[k]| <= len && buf[p..p + |descs[k]|] == descs[k]
      ensures k < |descs| ==> buf[p] == |descs[k]| && buf[p + 1] == descs[k][1]
    {
      FlattenLength(descs);
      if k < |descs| {
        FlattenAt(descs, k);
        var d := descs[k];
        assert DescriptorOk(d) && buf[..len][p..p + |d|] == d;
        assert buf[p] == buf[..len][p..p + |d|][0] && buf[p + 1] == buf[..len][p..p + |d|][1];
      }
    }

    /** One descriptor on: the position of the next one of the blob, or null after the last. */
    method Next() returns (r: Option<nat>)
      requires Valid() && k < |descs|
      modifies this
      ensures Valid() && k == old(k) + 1
      ensures r == if k < |descs| then Some(p) else None
      ensures k < |descs| ==> p + |descs[k]| <= len && buf[p..p + |descs[k]|] == descs[k] && buf[p + 1] == descs[k][1]
    {
      Here();
      p := p + buf[p];
      k := k + 1;
      Here();
      if p < len {
        return Some(p);
      }
      return None;
    }

    /** The next descriptor of a type. */
    method NextOfType(t: Byte) returns (r: Option<nat>)
      requires Valid() && k < |descs|
      modifies this
      ensures Valid() && k == FirstOfType(descs, old(k) + 1, t)
      ensures r == if k < |descs| then Some(p) else None
      ensures k < |descs| ==> p + |descs[k]| <= len && buf[p..p + |descs[k]|] == descs[k] && buf[p + 1] == descs[k][1]
    {
      r := Next();
      while r.Some?
        invariant Valid() && old(k) < k && r == (if k < |descs| then Some(p) else None)
        invariant k < |descs| ==>
                  p + |descs[k]| <= len && buf[p..p + |descs[k]|] == descs[k] && buf[p + 1] == descs[k][1]
        invariant FirstOfType(descs, old(k) + 1, t) == FirstOfType(descs, k, t)
        decreases |descs| - k
      {
        if buf[r.value + 1] == t {
          return r;
        }
        r := Next();
      }
    }
  }
}
