/** The scan in terms of the functions that are there, the fields of their headers and the routes to them. */
module PciTopology {
  import opened Wrappers
  import opened Trbs
  import opened Pci
  import opened PciTheorems

  /** The header fields behind the registers at 0x00, 0x08, 0x0c and 0x18 (that of a PCI-PCI bridge). */
  datatype Header = Header(vendor: Half, device: Half, revision: Byte, interface: Byte, sub: Byte, base: Byte,
    cacheLine: Byte, latency: Byte, layout: Layout, several: bool, selfTest: Byte,
    primary: Byte, secondary: Byte, subordinate: Byte, secondaryLatency: Byte)

  type Layout = x: nat | x < 128

  type Topology = Fn -> Option<Header>

  function Bytes(a: Byte, b: Byte, c: Byte, d: Byte): (v: nat) { a + 0x100 * b + 0x1_0000 * c + 0x100_0000 * d }

  /** Where nothing is, every register reads as all ones; no vendor has the number 0xffff. */
  predicate Answers(w: Space, x: Fn, there: Option<Header>) {
    match there
    case None => w(x, 0) == w(x, 8) == w(x, 12) == w(x, 24) == 0xffff_ffff
    case Some(h) =>
      && h.vendor < 0xffff && w(x, 0) == h.vendor + 0x1_0000 * h.device
      && w(x, 8) == Bytes(h.revision, h.interface, h.sub, h.base)
      && w(x, 12) == Bytes(h.cacheLine, h.latency, if h.several then h.layout + 128 else h.layout, h.selfTest)
      && w(x, 24) == Bytes(h.primary, h.secondary, h.subordinate, h.secondaryLatency)
  }

  ghost predicate Holds(w: Space, t: Topology) {
    forall x :: Answers(w, x, t(x))
  }

  /** What is to be recorded of a function. */
  function Record(x: Fn, h: Header): Device {
    Device(x, if h.several then h.layout + 128 else h.layout, ClassCode(h.base, h.sub, h.interface))
  }

  predicate Several(t: Topology, bus: Byte, device: DevNo) {
    t(Fn(bus, device, 0)) == None || t(Fn(bus, device, 0)).value.several
  }

  /** A function that is there and that its device's function 0 does not hide. */
  predicate There(t: Topology, x: Fn) {
    && t(x).Some? && t(Fn(x.bus, x.device, 0)).Some?
    && (x.number == 0 || t(Fn(x.bus, x.device, 0)).value.several)
  }

  predicate HostBus(t: Topology, bus: Byte) {
    if Several(t, 0, 0) then bus < 8 && t(Fn(0, 0, bus)).Some? else bus == 0
  }

  /** A PCI-PCI bridge, with this bus behind it. */
  predicate LeadsTo(t: Topology, p: Fn, bus: Byte) {
    t(p).Some? && t(p).value.base == 0x06 && t(p).value.sub == 0x04 && t(p).value.secondary == bus
  }

  predicate Route(t: Topology, p: seq<Fn>) {
    && |p| > 0 && HostBus(t, p[0].bus) && (forall i :: 0 <= i < |p| ==> There(t, p[i]))
    && forall i :: 0 < i < |p| ==> LeadsTo(t, p[i - 1], p[i].bus)
  }

  lemma BytesRead(a: Byte, b: Byte, c: Byte, d: Byte)
    ensures var v := Bytes(a, b, c, d);
            v < B32 && v / 0x100 % 256 == b && v / 0x1_0000 % 256 == c && v / 0x100_0000 == d
  {
    Pair(0x100_0000, a + 0x100 * b + 0x1_0000 * c, d);
    Pair(0x1_0000, a + 0x100 * b, c + 0x100 * d);
    Pair(0x100, a, b + 0x100 * (c + 0x100 * d));
    Pair(0x100, c, d);
    Pair(0x100, b, c + 0x100 * d);
  }

  lemma Pair(n: nat, low: nat, high: nat)
    requires n in {0x100, 0x1_0000, 0x100_0000} && low < n
    ensures (low + n * high) / n == high && (low + n * high) % n == low
  {
    if n == 0x100 {
      assert (low + 0x100 * high) / 0x100 == high;
    } else if n == 0x1_0000 {
      assert (low + 0x1_0000 * high) / 0x1_0000 == high;
    } else {
      assert (low + 0x100_0000 * high) / 0x100_0000 == high;
    }
  }

  /** The scan reads what the headers hold. */
  lemma HeaderRead(w: Space, x: Fn, there: Option<Header>)
    requires Answers(w, x, there)
    ensures Absent(w, x) <==> there == None
    ensures SingleFunction(HeaderType(w, x)) <==> there.Some? && !there.value.several
    ensures there.Some? ==> DeviceOf(w, x) == Record(x, there.value) && Secondary(w, x) == there.value.secondary
    ensures there.Some? ==> (IsBridge(w, x) <==> there.value.base == 0x06 && there.value.sub == 0x04)
  {
    if there.Some? {
      var h := there.value;
      BytesRead(h.revision, h.interface, h.sub, h.base);
      BytesRead(h.cacheLine, h.latency, if h.several then h.layout + 128 else h.layout, h.selfTest);
      BytesRead(h.primary, h.secondary, h.subordinate, h.secondaryLatency);
    }
  }

  lemma AllRead(w: Space, t: Topology)
    requires Holds(w, t)
    ensures forall x :: Present(w, x) <==> There(t, x)
    ensures forall bus: Byte :: IsRoot(w, bus) <==> HostBus(t, bus)
    ensures forall p: Fn, x: Fn :: There(t, p) ==> (Behind(w, p, x) <==> LeadsTo(t, p, x.bus))
  {
    forall x ensures Present(w, x) <==> There(t, x) {
      HeaderRead(w, x, t(x));
      HeaderRead(w, Fn(x.bus, x.device, 0), t(Fn(x.bus, x.device, 0)));
    }
    HeaderRead(w, Fn(0, 0, 0), t(Fn(0, 0, 0)));
    forall bus: Byte ensures IsRoot(w, bus) <==> HostBus(t, bus) {
      if bus < 8 { HeaderRead(w, Fn(0, 0, bus), t(Fn(0, 0, bus))); }
    }
    forall p: Fn, x: Fn | There(t, p) ensures Behind(w, p, x) <==> LeadsTo(t, p, x.bus) {
      HeaderRead(w, p, t(p));
    }
  }

  lemma RoutesArePaths(w: Space, t: Topology, p: seq<Fn>)
    requires Holds(w, t)
    ensures Path(w, p) <==> Route(t, p)
  {
    hide Present, There, IsRoot, HostBus, Behind, LeadsTo, Holds;
    AllRead(w, t);
    if Path(w, p) {
      forall i | 0 < i < |p| ensures LeadsTo(t, p[i - 1], p[i].bus) {
        assert Behind(w, p[i - 1], p[i]) && There(t, p[i - 1]);
      }
    }
    if Route(t, p) {
      forall i | 0 < i < |p| ensures Behind(w, p[i - 1], p[i]) {
        assert LeadsTo(t, p[i - 1], p[i].bus) && There(t, p[i - 1]);
      }
    }
  }

  ghost predicate Reached(t: Topology, x: Fn) {
    exists p :: Route(t, p) && p[|p| - 1] == x
  }

  predicate Listed(t: Topology, x: Fn, found: seq<Device>) {
    t(x).Some? && Record(x, t(x).value) in found
  }

  /** What every scan leaves, with either way of access (the contract of ScanAllBus). */
  ghost predicate ScanOf(w: Space, found: seq<Device>, err: Error) {
    forall d :: d > MAX_DEVICES ==> Scanned([], AllList(w, d), found, err)
  }

  lemma ReachedIsReachable(w: Space, t: Topology, x: Fn)
    requires Holds(w, t)
    ensures Reachable(w, x) <==> Reached(t, x)
  {
    hide Path, Route, Holds;
    forall p ensures Path(w, p) <==> Route(t, p) { RoutesArePaths(w, t, p); }
  }

  lemma ReachedIsThere(w: Space, t: Topology, x: Fn)
    requires Holds(w, t) && Reached(t, x)
    ensures t(x).Some? && DeviceOf(w, x) == Record(x, t(x).value)
  {
    var p :| Route(t, p) && p[|p| - 1] == x;
    assert There(t, p[|p| - 1]);
    HeaderRead(w, x, t(x));
  }

  /**
   * Everything found has a route and is recorded with the fields of its own header; a scan that succeeds has found
   * everything that has a route.
   */
  lemma FindsTopology(w: Space, t: Topology, found: seq<Device>, err: Error)
    requires Holds(w, t) && ScanOf(w, found, err)
    ensures forall e :: e in found ==> Reached(t, e.fn) && Listed(t, e.fn, found) && e == Record(e.fn, t(e.fn).value)
    ensures err == Success ==> forall x :: Reached(t, x) <==> Listed(t, x, found)
  {
    hide Reached, Reachable, Holds, AllList, DeviceOf, Record, Scanned;
    assert Scanned([], AllList(w, 33), found, err);
    FoundAt(AllList(w, 33), found, err);
    forall e | e in found ensures Reached(t, e.fn) && Listed(t, e.fn, found) && e == Record(e.fn, t(e.fn).value) {
      ListedIsReachable(w, 33, e);
      var x :| Reachable(w, x) && DeviceOf(w, x) == e;
      ReachedIsReachable(w, t, x);
      ReachedIsThere(w, t, x);
      RecordNames(x, t(x).value);
    }
    if err == Success {
      SuccessFindsAll(w, found);
      forall x ensures Reached(t, x) <==> Listed(t, x, found) {
        ReachedIsReachable(w, t, x);
        if Reached(t, x) { ReachedIsThere(w, t, x); }
        if Listed(t, x, found) { RecordNames(x, t(x).value); }
      }
    }
  }

  lemma RecordNames(x: Fn, h: Header)
    ensures Record(x, h).fn == x
  {
  }

  // ---- a tree of bridges ----

  predicate LeadsOn(t: Topology, p: Fn) {
    There(t, p) && LeadsTo(t, p, t(p).value.secondary)
  }

  /** No bus is behind two bridges, and no bus of a host bridge behind one. */
  ghost predicate BridgesFormTree(t: Topology) {
    && (forall p, q :: LeadsOn(t, p) && LeadsOn(t, q) && t(p).value.secondary == t(q).value.secondary ==> p == q)
    && forall p :: LeadsOn(t, p) ==> !HostBus(t, t(p).value.secondary)
  }

  lemma TreeRead(w: Space, t: Topology)
    requires Holds(w, t) && BridgesFormTree(t)
    ensures Tree(w)
  {
    hide Present, There, IsRoot, HostBus, Answers, IsBridge, Secondary;
    AllRead(w, t);
    forall p | Present(w, p) && IsBridge(w, p)
      ensures LeadsOn(t, p) && t(p).value.secondary == Secondary(w, p)
    {
      ThereIsSome(t, p);
      HeaderRead(w, p, t(p));
    }
    forall p, q |
        Present(w, p) && Present(w, q) && IsBridge(w, p) && IsBridge(w, q) && Secondary(w, p) == Secondary(w, q)
      ensures p == q
    {
      assert LeadsOn(t, p) && LeadsOn(t, q);
    }
    forall p | Present(w, p) && IsBridge(w, p) ensures !IsRoot(w, Secondary(w, p)) {
      assert LeadsOn(t, p);
    }
  }

  lemma ThereIsSome(t: Topology, p: Fn)
    requires There(t, p)
    ensures t(p).Some?
  {
  }

  /**
   * With a tree of bridges the scan lists functions in the order of their routes, each once, and leaves out none
   * in front of one that it lists; it fails exactly when 32 places do not hold all.
   */
  lemma TreeFindsTopology(w: Space, t: Topology, found: seq<Device>, err: Error)
    requires Holds(w, t) && BridgesFormTree(t) && ScanOf(w, found, err)
    ensures err == (if forall x :: Reached(t, x) ==> Listed(t, x, found) then Success else Full)
    ensures err == Full ==> |found| == 32
    ensures forall i, j :: 0 <= i < j < |found| ==> found[i].fn != found[j].fn
  {
    hide Reached, Reachable, Holds, AllList, DeviceOf, Scanned, Tree, BridgesFormTree, Record;
    TreeRead(w, t);
    FindsTopology(w, t, found, err);
    TreeFindsOnce(w, found, err);
    FailsFull(w, found, err);
    forall i, j | 0 <= i < j < |found| ensures found[i].fn != found[j].fn {
      assert found[i] in found && found[j] in found;
    }
    if err == Full {
      TreeFullMisses(w, found);
      var x :| Reachable(w, x) && DeviceOf(w, x) !in found;
      ReachedIsReachable(w, t, x);
      ReachedIsThere(w, t, x);
    }
  }

  lemma FailsFull(w: Space, found: seq<Device>, err: Error)
    requires ScanOf(w, found, err)
    ensures err == Success || err == Full
  {
    assert Scanned([], AllList(w, 33), found, err);
  }

  /** Of two routes to functions, if the later one's is listed, so is the other's, in front of it. */
  lemma TreeListsInOrder(w: Space, t: Topology, found: seq<Device>, err: Error, p: seq<Fn>, q: seq<Fn>)
    requires Holds(w, t) && BridgesFormTree(t) && ScanOf(w, found, err)
    requires Route(t, p) && Route(t, q) && Before(p, q) && Listed(t, q[|q| - 1], found)
    ensures exists i, j :: 0 <= i < j < |found| && found[i].fn == p[|p| - 1] && found[j].fn == q[|q| - 1]
  {
    hide Reachable, Holds, AllList, DeviceOf, Scanned, Tree, BridgesFormTree, Record, Path, Before;
    var x, y := p[|p| - 1], q[|q| - 1];
    TreeRead(w, t);
    RoutesArePaths(w, t, p);
    RoutesArePaths(w, t, q);
    ReachedIsThere(w, t, x);
    ReachedIsThere(w, t, y);
    TreeFindsFirst(w, found, err, p, q);
    RecordNames(x, t(x).value);
    RecordNames(y, t(y).value);
    var i :| 0 <= i < |found| && found[i] == DeviceOf(w, x);
    var j :| 0 <= j < |found| && found[j] == DeviceOf(w, y);
    TreeFoundInOrder(w, found, err, p, q, i, j);
  }
}
