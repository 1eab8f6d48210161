/** What the scan lists: every reachable function, and each of them once when the bridges form a tree. */
module PciTheorems {
  import opened Wrappers
  import opened Trbs
  import opened Pci

  /** A function the scan would look at if it visits the bus. */
  predicate Present(w: Space, x: Fn) {
    var first := Fn(x.bus, x.device, 0);
    !Absent(w, first) && (x.number == 0 || (!SingleFunction(HeaderType(w, first)) && !Absent(w, x)))
  }

  /** A bus the scan starts from. */
  predicate IsRoot(w: Space, bus: Byte) {
    if SingleFunction(HeaderType(w, Fn(0, 0, 0))) then bus == 0 else bus < 8 && !Absent(w, Fn(0, 0, bus))
  }

  /** The bus of x is behind the bridge p. */
  predicate Behind(w: Space, p: Fn, x: Fn) { IsBridge(w, p) && Secondary(w, p) == x.bus }

  /** From a root bus through bridges. */
  predicate Path(w: Space, p: seq<Fn>): (r: bool)
    ensures r ==> |p| > 0
  {
    && |p| > 0 && IsRoot(w, p[0].bus) && (forall i :: 0 <= i < |p| ==> Present(w, p[i]))
    && forall i :: 0 < i < |p| ==> Behind(w, p[i - 1], p[i])
  }

  ghost predicate Reachable(w: Space, x: Fn) {
    exists p :: Path(w, p) && p[|p| - 1] == x
  }

  /** Where a path that has come as far as `prefix` may go on. */
  predicate Entry(w: Space, prefix: seq<Fn>, bus: Byte) {
    if prefix == [] then IsRoot(w, bus)
    else Path(w, prefix) && IsBridge(w, prefix[|prefix| - 1]) && Secondary(w, prefix[|prefix| - 1]) == bus
  }

  // ---- everything listed is reachable, by a path through the function that listed it ----

  /** e is at the end of a path that goes on from the prefix with y. */
  ghost predicate Via(w: Space, prefix: seq<Fn>, y: Fn, e: Device) {
    exists p :: Path(w, p) && |p| > |prefix| && p[..|prefix|] == prefix && p[|prefix|] == y &&
      DeviceOf(w, p[|p| - 1]) == e
  }

  lemma PathGoesOn(w: Space, prefix: seq<Fn>, x: Fn)
    requires Entry(w, prefix, x.bus) && Present(w, x)
    ensures Path(w, prefix + [x])
  {
  }

  lemma ListedHere(w: Space, prefix: seq<Fn>, x: Fn)
    requires Entry(w, prefix, x.bus) && Present(w, x)
    ensures Via(w, prefix, x, DeviceOf(w, x))
  {
    PathGoesOn(w, prefix, x);
    var p := prefix + [x];
    assert p[..|prefix|] == prefix;
  }

  lemma EntryBehind(w: Space, prefix: seq<Fn>, x: Fn)
    requires Entry(w, prefix, x.bus) && Present(w, x) && IsBridge(w, x)
    ensures Entry(w, prefix + [x], Secondary(w, x))
  {
    PathGoesOn(w, prefix, x);
  }

  /** e comes through some function of the bus, from a device number on. */
  ghost predicate ViaBus(w: Space, prefix: seq<Fn>, bus: Byte, device: nat, e: Device) {
    exists y: Fn :: y.bus == bus && y.device >= device && Via(w, prefix, y, e)
  }

  lemma ViaShorter(w: Space, prefix: seq<Fn>, x: Fn, y: Fn, e: Device)
    requires Via(w, prefix + [x], y, e)
    ensures Via(w, prefix, x, e)
  {
    var n := |prefix|;
    var p :| Path(w, p) && |p| > n + 1 && p[..n + 1] == prefix + [x] && p[n + 1] == y && DeviceOf(w, p[|p| - 1]) == e;
    assert p[..n] == p[..n + 1][..n] == prefix;
    assert p[n] == p[..n + 1][n] == x;
  }

  lemma InFnList(w: Space, x: Fn, d: nat, e: Device)
    requires e in FnList(w, x, d) && e != DeviceOf(w, x)
    ensures IsBridge(w, x) && d > 0 && e in BusList(w, Secondary(w, x), 0, d - 1)
  {
  }

  lemma {:induction false} FnListSound(w: Space, prefix: seq<Fn>, x: Fn, d: nat, e: Device)
    requires Entry(w, prefix, x.bus) && Present(w, x) && e in FnList(w, x, d)
    ensures Via(w, prefix, x, e)
    decreases d, 0
  {
    hide FnList, BusList, Via, Entry, ViaBus;
    if e == DeviceOf(w, x) {
      ListedHere(w, prefix, x);
    } else {
      InFnList(w, x, d, e);
      EntryBehind(w, prefix, x);
      BusListSound(w, prefix + [x], Secondary(w, x), 0, d - 1, e);
      BehindBridge(w, prefix, x, e);
    }
  }

  lemma BehindBridge(w: Space, prefix: seq<Fn>, x: Fn, e: Device)
    requires ViaBus(w, prefix + [x], Secondary(w, x), 0, e)
    ensures Via(w, prefix, x, e)
  {
    var y: Fn :| y.bus == Secondary(w, x) && Via(w, prefix + [x], y, e);
    ViaShorter(w, prefix, x, y, e);
  }

  lemma {:induction false} DevListSound(w: Space, prefix: seq<Fn>, bus: Byte, device: DevNo, d: nat, e: Device)
    requires Entry(w, prefix, bus) && !Absent(w, Fn(bus, device, 0)) && e in DevList(w, bus, device, d)
    ensures exists y: Fn :: y.bus == bus && y.device == device && Via(w, prefix, y, e)
    decreases d, 2
  {
    var x := Fn(bus, device, 0);
    if e in FnList(w, x, d) {
      FnListSound(w, prefix, x, d, e);
    } else {
      FnsFromDevice(w, prefix, bus, device, 1, d, e);
    }
  }

  lemma {:induction false} FnsFromDevice(w: Space, prefix: seq<Fn>, bus: Byte, device: DevNo, f: nat, d: nat, e: Device)
    requires Entry(w, prefix, bus) && 1 <= f <= 8 && e in FnsFrom(w, bus, device, f, d)
    requires !Absent(w, Fn(bus, device, 0)) && !SingleFunction(HeaderType(w, Fn(bus, device, 0)))
    ensures exists y: Fn :: y.bus == bus && y.device == device && y.number >= f && Via(w, prefix, y, e)
    decreases d, 1, 8 - f
  {
    var x := Fn(bus, device, f);
    if !Absent(w, x) && e in FnList(w, x, d) {
      FnListSound(w, prefix, x, d, e);
    } else {
      FnsFromDevice(w, prefix, bus, device, f + 1, d, e);
    }
  }

  lemma {:induction false} BusListSound(w: Space, prefix: seq<Fn>, bus: Byte, device: nat, d: nat, e: Device)
    requires Entry(w, prefix, bus) && device <= 32 && e in BusList(w, bus, device, d)
    ensures ViaBus(w, prefix, bus, device, e)
    decreases d, 3, 32 - device
  {
    if !Absent(w, Fn(bus, device, 0)) && e in DevList(w, bus, device, d) {
      DevListSound(w, prefix, bus, device, d, e);
    } else {
      BusListSound(w, prefix, bus, device + 1, d, e);
    }
  }

  lemma {:induction false} RootsSound(w: Space, f: nat, d: nat, e: Device)
    requires !SingleFunction(HeaderType(w, Fn(0, 0, 0))) && f <= 8 && e in RootsFrom(w, f, d)
    ensures exists y: Fn :: f <= y.bus < 8 && Via(w, [], y, e)
    decreases 8 - f
  {
    if !Absent(w, Fn(0, 0, f)) && e in BusList(w, f, 0, d) {
      BusListSound(w, [], f, 0, d, e);
    } else {
      RootsSound(w, f + 1, d, e);
    }
  }

  lemma ListedIsReachable(w: Space, d: nat, e: Device)
    requires e in AllList(w, d)
    ensures exists x :: Reachable(w, x) && DeviceOf(w, x) == e
  {
    if SingleFunction(HeaderType(w, Fn(0, 0, 0))) { BusListSound(w, [], 0, 0, d, e); } else { RootsSound(w, 0, d, e); }
    var y: Fn :| Via(w, [], y, e);
    ViaIsReachable(w, y, e);
  }

  lemma ViaIsReachable(w: Space, y: Fn, e: Device)
    requires Via(w, [], y, e)
    ensures Reachable(w, e.fn) && DeviceOf(w, e.fn) == e
  {
    var none: seq<Fn> := [];
    var p :| Path(w, p) && |p| > |none| && p[..|none|] == none && p[|none|] == y && DeviceOf(w, p[|p| - 1]) == e;
    assert p[|p| - 1] == e.fn;
  }

  // ---- everything reachable is listed ----

  lemma {:induction false} InFnsFrom(w: Space, x: Fn, f: nat, d: nat, e: Device)
    requires f <= x.number && !Absent(w, x) && e in FnList(w, x, d)
    ensures e in FnsFrom(w, x.bus, x.device, f, d)
    decreases 8 - f
  {
    if f < x.number { InFnsFrom(w, x, f + 1, d, e); }
  }

  lemma {:induction false} InBusList(w: Space, x: Fn, device: nat, d: nat, e: Device)
    requires Present(w, x) && device <= x.device && e in FnList(w, x, d)
    ensures e in BusList(w, x.bus, device, d)
    decreases 32 - device
  {
    if device < x.device {
      InBusList(w, x, device + 1, d, e);
    } else if x.number > 0 {
      InFnsFrom(w, x, 1, d, e);
    }
  }

  lemma {:induction false} InRoots(w: Space, bus: Byte, f: nat, d: nat, e: Device)
    requires !SingleFunction(HeaderType(w, Fn(0, 0, 0))) && IsRoot(w, bus) && f <= bus && e in BusList(w, bus, 0, d)
    ensures e in RootsFrom(w, f, d)
    decreases 8 - f
  {
    if f < bus { InRoots(w, bus, f + 1, d, e); }
  }

  /** The end of a path is in the list of every function on it, if bridges are followed deep enough. */
  lemma {:induction false} PathInFnList(w: Space, p: seq<Fn>, i: nat, d: nat)
    requires Path(w, p) && i < |p| && d >= |p| - 1 - i
    ensures DeviceOf(w, p[|p| - 1]) in FnList(w, p[i], d)
    decreases |p| - i
  {
    if i < |p| - 1 {
      PathInFnList(w, p, i + 1, d - 1);
      assert Behind(w, p[i], p[i + 1]);
      InBusList(w, p[i + 1], 0, d - 1, DeviceOf(w, p[|p| - 1]));
    }
  }

  lemma PathIsListed(w: Space, p: seq<Fn>, d: nat)
    requires Path(w, p) && d >= |p|
    ensures DeviceOf(w, p[|p| - 1]) in AllList(w, d)
  {
    PathInFnList(w, p, 0, d);
    InBusList(w, p[0], 0, d, DeviceOf(w, p[|p| - 1]));
    if !SingleFunction(HeaderType(w, Fn(0, 0, 0))) { InRoots(w, p[0].bus, 0, d, DeviceOf(w, p[|p| - 1])); }
  }

  /** A scan that succeeds has found exactly the reachable functions. */
  lemma SuccessFindsAll(w: Space, found: seq<Device>)
    requires forall d :: d > MAX_DEVICES ==> Scanned([], AllList(w, d), found, Success)
    ensures forall x :: Reachable(w, x) <==> DeviceOf(w, x) in found
  {
    assert found == AllList(w, 33);
    forall x ensures Reachable(w, x) <==> DeviceOf(w, x) in found {
      if Reachable(w, x) {
        var p :| Path(w, p) && p[|p| - 1] == x;
        var d := 33 + |p|;
        PathIsListed(w, p, d);
        assert Scanned([], AllList(w, d), found, Success);
      }
      if DeviceOf(w, x) in found { ListedIsReachable(w, 33, DeviceOf(w, x)); }
    }
  }

  // ---- the list is in the order of the paths ----

  /** By bus, then device, then function. */
  predicate FnBefore(x: Fn, y: Fn) {
    x.bus < y.bus || (x.bus == y.bus && (x.device < y.device || (x.device == y.device && x.number < y.number)))
  }

  /** A bridge comes before what is behind it; otherwise the first functions that differ decide. */
  ghost predicate Before(p: seq<Fn>, q: seq<Fn>) {
    exists k :: 0 <= k <= |p| && k < |q| && p[..k] == q[..k] && (k == |p| || FnBefore(p[k], q[k]))
  }

  lemma NotBoth(p: seq<Fn>, q: seq<Fn>)
    requires Before(p, q)
    ensures !Before(q, p)
  {
    var k :| 0 <= k <= |p| && k < |q| && p[..k] == q[..k] && (k == |p| || FnBefore(p[k], q[k]));
    if Before(q, p) {
      var l :| 0 <= l <= |q| && l < |p| && q[..l] == p[..l] && (l == |q| || FnBefore(q[l], p[l]));
      assert false;
    }
  }

  ghost predicate Earlier(w: Space, e: Device, f: Device) {
    exists p, q ::
      && Path(w, p) && Path(w, q) && DeviceOf(w, p[|p| - 1]) == e && DeviceOf(w, q[|q| - 1]) == f && Before(p, q)
  }

  ghost predicate InOrder(w: Space, s: seq<Device>) {
    forall i, j :: 0 <= i < j < |s| ==> Earlier(w, s[i], s[j])
  }

  lemma OrderJoin(w: Space, a: seq<Device>, b: seq<Device>)
    requires InOrder(w, a) && InOrder(w, b) && forall e, f :: e in a && f in b ==> Earlier(w, e, f)
    ensures InOrder(w, a + b)
  {
    forall i, j | 0 <= i < j < |a + b| ensures Earlier(w, (a + b)[i], (a + b)[j]) {
      if i < |a| && j >= |a| { assert a[i] in a && b[j - |a|] in b; }
    }
  }

  /** What comes through one function is earlier than what comes through a later one. */
  lemma ThroughEarlier(w: Space, prefix: seq<Fn>, x: Fn, y: Fn, e: Device, f: Device)
    requires Via(w, prefix, x, e) && Via(w, prefix, y, f) && FnBefore(x, y)
    ensures Earlier(w, e, f)
  {
    var n := |prefix|;
    var p :| Path(w, p) && |p| > n && p[..n] == prefix && p[n] == x && DeviceOf(w, p[|p| - 1]) == e;
    var q :| Path(w, q) && |q| > n && q[..n] == prefix && q[n] == y && DeviceOf(w, q[|q| - 1]) == f;
    assert p[..n] == q[..n];
  }

  lemma BridgeEarlier(w: Space, prefix: seq<Fn>, x: Fn, y: Fn, e: Device)
    requires Path(w, prefix + [x]) && Via(w, prefix + [x], y, e)
    ensures Earlier(w, DeviceOf(w, x), e)
  {
    var p := prefix + [x];
    var q :| Path(w, q) && |q| > |p| && q[..|p|] == p && q[|p|] == y && DeviceOf(w, q[|q| - 1]) == e;
    assert p[..|p|] == q[..|p|];
    assert p[|p| - 1] == x;
  }

  lemma {:induction false} FnListInOrder(w: Space, prefix: seq<Fn>, x: Fn, d: nat)
    requires Entry(w, prefix, x.bus) && Present(w, x)
    ensures InOrder(w, FnList(w, x, d))
    decreases d, 0
  {
    hide Entry, Path, Present, Via, Earlier, BusList;
    if IsBridge(w, x) && d > 0 {
      PathGoesOn(w, prefix, x);
      EntryBehind(w, prefix, x);
      var behind := BusList(w, Secondary(w, x), 0, d - 1);
      BusListInOrder(w, prefix + [x], Secondary(w, x), 0, d - 1);
      forall e | e in behind ensures Earlier(w, DeviceOf(w, x), e) {
        BusListSound(w, prefix + [x], Secondary(w, x), 0, d - 1, e);
        var y: Fn :| y.bus == Secondary(w, x) && Via(w, prefix + [x], y, e);
        BridgeEarlier(w, prefix, x, y, e);
      }
      OrderJoin(w, [DeviceOf(w, x)], behind);
    }
  }

  lemma {:induction false} FnsFromInOrder(w: Space, prefix: seq<Fn>, bus: Byte, device: DevNo, f: nat, d: nat)
    requires Entry(w, prefix, bus) && 1 <= f <= 8
    requires !Absent(w, Fn(bus, device, 0)) && !SingleFunction(HeaderType(w, Fn(bus, device, 0)))
    ensures InOrder(w, FnsFrom(w, bus, device, f, d))
    decreases d, 1, 8 - f
  {
    hide Entry, FnList, Earlier, InOrder;
    if f < 8 {
      FnsFromInOrder(w, prefix, bus, device, f + 1, d);
      var x := Fn(bus, device, f);
      if Absent(w, x) {
        assert [] + FnsFrom(w, bus, device, f + 1, d) == FnsFrom(w, bus, device, f + 1, d);
      } else {
        FnListInOrder(w, prefix, x, d);
        FnEarlier(w, prefix, x, f + 1, d);
        OrderJoin(w, FnList(w, x, d), FnsFrom(w, bus, device, f + 1, d));
      }
    } else {
      NothingInOrder(w);
    }
  }

  lemma NothingInOrder(w: Space)
    ensures InOrder(w, [])
  {
  }

  /** What one function lists is earlier than what a later function of the device lists. */
  lemma FnEarlier(w: Space, prefix: seq<Fn>, x: Fn, f: nat, d: nat)
    requires Entry(w, prefix, x.bus) && Present(w, x) && x.number < f <= 8
    requires !SingleFunction(HeaderType(w, Fn(x.bus, x.device, 0)))
    ensures forall e, g :: e in FnList(w, x, d) && g in FnsFrom(w, x.bus, x.device, f, d) ==> Earlier(w, e, g)
  {
    hide Entry, Via, FnList, FnsFrom, Earlier;
    forall e, g | e in FnList(w, x, d) && g in FnsFrom(w, x.bus, x.device, f, d) ensures Earlier(w, e, g) {
      FnListSound(w, prefix, x, d, e);
      FnsFromDevice(w, prefix, x.bus, x.device, f, d, g);
      var y: Fn :| y.bus == x.bus && y.device == x.device && y.number >= f && Via(w, prefix, y, g);
      ThroughEarlier(w, prefix, x, y, e, g);
    }
  }

  lemma {:induction false} DevListInOrder(w: Space, prefix: seq<Fn>, bus: Byte, device: DevNo, d: nat)
    requires Entry(w, prefix, bus) && !Absent(w, Fn(bus, device, 0))
    ensures InOrder(w, DevList(w, bus, device, d))
    decreases d, 2
  {
    hide Entry, FnList, FnsFrom, Earlier, InOrder;
    var x := Fn(bus, device, 0);
    FnListInOrder(w, prefix, x, d);
    if SingleFunction(HeaderType(w, x)) {
      assert FnList(w, x, d) + [] == FnList(w, x, d);
    } else {
      FnsFromInOrder(w, prefix, bus, device, 1, d);
      FnEarlier(w, prefix, x, 1, d);
      OrderJoin(w, FnList(w, x, d), FnsFrom(w, bus, device, 1, d));
    }
  }

  lemma {:induction false} BusListInOrder(w: Space, prefix: seq<Fn>, bus: Byte, device: nat, d: nat)
    requires Entry(w, prefix, bus) && device <= 32
    ensures InOrder(w, BusList(w, bus, device, d))
    decreases d, 3, 32 - device
  {
    hide Entry, DevList, Earlier, InOrder;
    if device < 32 {
      BusListInOrder(w, prefix, bus, device + 1, d);
      if Absent(w, Fn(bus, device, 0)) {
        assert [] + BusList(w, bus, device + 1, d) == BusList(w, bus, device + 1, d);
      } else {
        DevListInOrder(w, prefix, bus, device, d);
        DevEarlier(w, prefix, bus, device, d);
        OrderJoin(w, DevList(w, bus, device, d), BusList(w, bus, device + 1, d));
      }
    } else {
      NothingInOrder(w);
    }
  }

  lemma DevEarlier(w: Space, prefix: seq<Fn>, bus: Byte, device: DevNo, d: nat)
    requires Entry(w, prefix, bus) && !Absent(w, Fn(bus, device, 0))
    ensures forall e, g :: e in DevList(w, bus, device, d) && g in BusList(w, bus, device + 1, d) ==> Earlier(w, e, g)
  {
    hide Entry, Via, DevList, BusList, Earlier;
    forall e, g | e in DevList(w, bus, device, d) && g in BusList(w, bus, device + 1, d) ensures Earlier(w, e, g) {
      DevListSound(w, prefix, bus, device, d, e);
      BusListSound(w, prefix, bus, device + 1, d, g);
      var y: Fn :| y.bus == bus && y.device == device && Via(w, prefix, y, e);
      var z: Fn :| z.bus == bus && z.device >= device + 1 && Via(w, prefix, z, g);
      ThroughEarlier(w, prefix, y, z, e, g);
    }
  }

  lemma {:induction false} RootsInOrder(w: Space, f: nat, d: nat)
    requires f <= 8 && !SingleFunction(HeaderType(w, Fn(0, 0, 0)))
    ensures InOrder(w, RootsFrom(w, f, d))
    decreases 8 - f
  {
    hide BusList, Earlier, InOrder, HeaderType;
    if f < 8 {
      RootsInOrder(w, f + 1, d);
      if Absent(w, Fn(0, 0, f)) {
        assert [] + RootsFrom(w, f + 1, d) == RootsFrom(w, f + 1, d);
      } else {
        BusListInOrder(w, [], f, 0, d);
        RootEarlier(w, f, d);
        OrderJoin(w, BusList(w, f, 0, d), RootsFrom(w, f + 1, d));
      }
    } else {
      NothingInOrder(w);
    }
  }

  lemma RootEarlier(w: Space, f: nat, d: nat)
    requires f < 8 && !SingleFunction(HeaderType(w, Fn(0, 0, 0))) && !Absent(w, Fn(0, 0, f))
    ensures forall e, g :: e in BusList(w, f, 0, d) && g in RootsFrom(w, f + 1, d) ==> Earlier(w, e, g)
  {
    hide BusList, RootsFrom, Via, Earlier, HeaderType;
    forall e, g | e in BusList(w, f, 0, d) && g in RootsFrom(w, f + 1, d) ensures Earlier(w, e, g) {
      BusListSound(w, [], f, 0, d, e);
      RootsSound(w, f + 1, d, g);
      var y: Fn :| y.bus == f && Via(w, [], y, e);
      var z: Fn :| f + 1 <= z.bus && Via(w, [], z, g);
      ThroughEarlier(w, [], y, z, e, g);
    }
  }

  /** Whatever the bridges: of two entries the one listed first has the earlier path. */
  lemma AllInOrder(w: Space, d: nat)
    ensures InOrder(w, AllList(w, d))
  {
    hide BusList, RootsFrom, InOrder;
    if SingleFunction(HeaderType(w, Fn(0, 0, 0))) { BusListInOrder(w, [], 0, 0, d); } else { RootsInOrder(w, 0, d); }
  }

  // ---- when the bridges form a tree, every function has one path ----

  /** No bus is behind two bridges, and no root bus is behind one. */
  ghost predicate Tree(w: Space) {
    && (forall p: Fn, q: Fn {:trigger Secondary(w, p), Secondary(w, q)} ::
          Present(w, p) && Present(w, q) && IsBridge(w, p) && IsBridge(w, q) && Secondary(w, p) == Secondary(w, q) ==>
            p == q)
    && (forall p: Fn {:trigger IsRoot(w, Secondary(w, p))} :: Present(w, p) && IsBridge(w, p) ==>
      !IsRoot(w, Secondary(w, p)))
  }

  /** In a tree a path is of length one exactly when it ends on a root bus. */
  lemma EndsOnRoot(w: Space, p: seq<Fn>)
    requires Tree(w) && Path(w, p)
    ensures |p| == 1 <==> IsRoot(w, p[|p| - 1].bus)
  {
    if |p| > 1 {
      var m := |p| - 1;
      assert Behind(w, p[m - 1], p[m]) && Present(w, p[m - 1]);
    }
  }

  lemma {:induction false} OnePath(w: Space, p: seq<Fn>, q: seq<Fn>)
    requires Tree(w) && Path(w, p) && Path(w, q) && p[|p| - 1] == q[|q| - 1]
    ensures p == q
    decreases |p|
  {
    EndsOnRoot(w, p);
    EndsOnRoot(w, q);
    if |p| > 1 {
      var m, n := |p| - 1, |q| - 1;
      assert Behind(w, p[m - 1], p[m]) && Behind(w, q[n - 1], q[n]);
      OnePath(w, p[..m], q[..n]);
      assert p == p[..m] + [p[m]] && q == q[..n] + [q[n]];
    }
  }

  lemma EarlierIsOther(w: Space, e: Device, f: Device)
    requires Tree(w) && Earlier(w, e, f)
    ensures e != f
  {
    hide Path, Tree, HeaderType, ClassOf, Before;
    var p, q :|
      Path(w, p) && Path(w, q) && DeviceOf(w, p[|p| - 1]) == e && DeviceOf(w, q[|q| - 1]) == f && Before(p, q);
    if e == f {
      OnePath(w, p, q);
      NotBoth(p, q);
    }
  }

  lemma EarlierIsNotLater(w: Space, p: seq<Fn>, q: seq<Fn>)
    requires Tree(w) && Path(w, p) && Path(w, q) && Before(p, q)
    ensures !Earlier(w, DeviceOf(w, q[|q| - 1]), DeviceOf(w, p[|p| - 1]))
  {
    hide Path, Tree, HeaderType, ClassOf, Before;
    var e, f := DeviceOf(w, q[|q| - 1]), DeviceOf(w, p[|p| - 1]);
    if Earlier(w, e, f) {
      var r, s :|
        Path(w, r) && Path(w, s) && DeviceOf(w, r[|r| - 1]) == e && DeviceOf(w, s[|s| - 1]) == f && Before(r, s);
      OnePath(w, r, q);
      OnePath(w, s, p);
      NotBoth(r, s);
    }
  }

  lemma FoundAt(list: seq<Device>, found: seq<Device>, err: Error)
    requires Scanned([], list, found, err)
    ensures |found| <= |list| && forall i :: 0 <= i < |found| ==> found[i] == list[i]
    ensures |found| == |list| || |found| == MAX_DEVICES
  {
  }

  /** With a tree of bridges nothing is found twice, whether the scan succeeds or fails. */
  lemma TreeFindsOnce(w: Space, found: seq<Device>, err: Error)
    requires Tree(w) && forall d :: d > MAX_DEVICES ==> Scanned([], AllList(w, d), found, err)
    ensures forall i, j :: 0 <= i < j < |found| ==> found[i] != found[j]
  {
    hide Tree, AllList, Earlier, Scanned;
    AllInOrder(w, 33);
    var list := AllList(w, 33);
    FoundAt(list, found, err);
    forall i, j | 0 <= i < j < |found| ensures found[i] != found[j] {
      assert Earlier(w, list[i], list[j]);
      EarlierIsOther(w, list[i], list[j]);
    }
  }

  /** The place of the end of a path in the list, if bridges are followed deep enough. */
  lemma PlaceOf(w: Space, p: seq<Fn>, d: nat) returns (i: nat)
    requires Path(w, p) && d >= |p|
    ensures i < |AllList(w, d)| && AllList(w, d)[i] == DeviceOf(w, p[|p| - 1])
  {
    hide Path, AllList, DeviceOf;
    PathIsListed(w, p, d);
    i :| i < |AllList(w, d)| && AllList(w, d)[i] == DeviceOf(w, p[|p| - 1]);
  }

  /** A full table holds what comes first: whatever has an earlier path than a function found is found as well. */
  lemma TreeFindsFirst(w: Space, found: seq<Device>, err: Error, p: seq<Fn>, q: seq<Fn>)
    requires Tree(w) && forall d :: d > MAX_DEVICES ==> Scanned([], AllList(w, d), found, err)
    requires Path(w, p) && Path(w, q) && Before(p, q) && DeviceOf(w, q[|q| - 1]) in found
    ensures DeviceOf(w, p[|p| - 1]) in found
  {
    hide Path, Before, Tree, AllList, Earlier, Scanned, DeviceOf;
    var d := 33 + |p|;
    var list := AllList(w, d);
    FoundAt(list, found, err);
    var i := PlaceOf(w, p, d);
    var j :| 0 <= j < |found| && found[j] == DeviceOf(w, q[|q| - 1]);
    if i >= |found| {
      AllInOrder(w, d);
      assert Earlier(w, list[j], list[i]);
      EarlierIsNotLater(w, p, q);
    } else {
      assert found[i] == list[i];
    }
  }

  /** Of two functions found, the one in front has the earlier path. */
  lemma TreeFoundInOrder(w: Space, found: seq<Device>, err: Error, p: seq<Fn>, q: seq<Fn>, i: nat, j: nat)
    requires Tree(w) && forall d :: d > MAX_DEVICES ==> Scanned([], AllList(w, d), found, err)
    requires Path(w, p) && Path(w, q) && i < |found| && j < |found|
    requires found[i] == DeviceOf(w, p[|p| - 1]) && found[j] == DeviceOf(w, q[|q| - 1])
    ensures i < j <==> Before(p, q)
  {
    hide Path, Before, Tree, AllList, Earlier, Scanned, HeaderType, ClassOf;
    var list := AllList(w, 33);
    FoundAt(list, found, err);
    AllInOrder(w, 33);
    if i < j {
      assert Earlier(w, list[i], list[j]);
      EarlierInPaths(w, p, q);
    } else if j < i {
      assert Earlier(w, list[j], list[i]);
      EarlierInPaths(w, q, p);
      NotBoth(q, p);
    } else {
      OnePath(w, p, q);
      if Before(p, q) { NotBoth(p, q); }
    }
  }

  lemma EarlierInPaths(w: Space, p: seq<Fn>, q: seq<Fn>)
    requires Tree(w) && Path(w, p) && Path(w, q)
    requires Earlier(w, DeviceOf(w, p[|p| - 1]), DeviceOf(w, q[|q| - 1]))
    ensures Before(p, q)
  {
    hide Path, Tree, HeaderType, ClassOf, Before;
    var e, f := DeviceOf(w, p[|p| - 1]), DeviceOf(w, q[|q| - 1]);
    var r, s :|
      Path(w, r) && Path(w, s) && DeviceOf(w, r[|r| - 1]) == e && DeviceOf(w, s[|s| - 1]) == f && Before(r, s);
    OnePath(w, r, p);
    OnePath(w, s, q);
  }

  /** With a tree of bridges the table is called full only when something is missing from it. */
  lemma TreeFullMisses(w: Space, found: seq<Device>)
    requires Tree(w) && forall d :: d > MAX_DEVICES ==> Scanned([], AllList(w, d), found, Full)
    ensures |found| == MAX_DEVICES && exists x :: Reachable(w, x) && DeviceOf(w, x) !in found
  {
    hide Tree, AllList, Earlier, Reachable, DeviceOf;
    var list := AllList(w, 33);
    AllInOrder(w, 33);
    assert Scanned([], list, found, Full);
    var e := list[MAX_DEVICES];
    forall i | 0 <= i < |found| ensures found[i] != e {
      assert Earlier(w, list[i], list[MAX_DEVICES]);
      EarlierIsOther(w, list[i], e);
    }
    ListedIsReachable(w, 33, e);
  }
}
