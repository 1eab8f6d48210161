/** Transfer events find the control request they answer, with any number of requests in flight. */
module RequestMatching {
  import opened Wrappers
  import opened Trbs
  import opened Rings
  import opened ArrayMaps
  import opened Transfers

  /** A request whose event is still to come: where its setup stage lies, and the TRB its event will name. */
  datatype InFlight = InFlight(request: Request, setupPtr: TrbPtr, key: TrbPtr)

  /** How many pushes ago data entry i of a ring of n was written, when the next goes to w. */
  function Age(n: int, w: int, i: int): int { if i < w then w - i else w - i + n - 1 }

  function RingFor(d: DeviceState, f: InFlight): RingState
    requires DeviceOk(d) && 1 <= f.key.dci <= RINGS && d.rings[f.key.dci - 1].Some?
  {
    d.rings[f.key.dci - 1].value
  }

  /** The ring holds the request's setup stage and its event TRB. */
  predicate Stored(r: RingState, request: Request, setupIndex: nat, keyIndex: nat) {
    && RingOk(r) && setupIndex < |r.mem| - 1 && keyIndex == NextIndex(|r.mem|, setupIndex)
    && Age(|r.mem|, r.writeIndex, setupIndex) >= 2
    && SameButCycle(r.mem[setupIndex], RequestTrbs(request)[0])
    && SameButCycle(r.mem[keyIndex], RequestTrbs(request)[1])
  }

  predicate FlightOk(d: DeviceState, f: InFlight)
    requires DeviceOk(d)
  {
    && 1 <= f.key.dci <= RINGS && d.rings[f.key.dci - 1].Some? && f.setupPtr.dci == f.key.dci
    && Stored(RingFor(d, f), f.request, f.setupPtr.index, f.key.index)
    && Lookup(d.setupMap, f.key) == Some(f.setupPtr)
  }

  /** A stored pair names a setup stage and the entry pushed right after it. */
  predicate PairOk(d: DeviceState, key: TrbPtr, value: TrbPtr)
    requires DeviceOk(d)
  {
    && 1 <= key.dci <= RINGS && d.rings[key.dci - 1].Some? && value.dci == key.dci
    && value.index < |d.rings[key.dci - 1].value.mem| - 1
    && key.index == NextIndex(|d.rings[key.dci - 1].value.mem|, value.index)
  }

  predicate Paired(d: DeviceState)
    requires DeviceOk(d)
  {
    forall k :: 0 <= k < |d.setupMap| && d.setupMap[k].key.Some? ==>
      PairOk(d, d.setupMap[k].key.value, d.setupMap[k].value)
  }

  /** The map holds the requests in flight and `stale` entries left behind by transfers that failed. */
  ghost predicate Match(d: DeviceState, flight: seq<InFlight>, stale: nat) {
    && DeviceOk(d) && Paired(d) && Used(d.setupMap) == |flight| + stale
    && (forall i :: 0 <= i < |flight| ==> FlightOk(d, flight[i]))
    && (forall i, j :: 0 <= i < j < |flight| ==> flight[i].key != flight[j].key)
  }

  /** k more TRBs on the ring overwrite no TRB of a request in flight. */
  predicate RoomFor(d: DeviceState, flight: seq<InFlight>, address: int, k: nat)
    requires DeviceOk(d)
  {
    forall i :: 0 <= i < |flight| && FlightOk(d, flight[i]) && flight[i].key.dci == address ==>
      var r := RingFor(d, flight[i]);
      Age(|r.mem|, r.writeIndex, flight[i].setupPtr.index) + k <= |r.mem| - 1
  }

  // ---- what pushing does to older entries ----

  lemma {:induction false} PushesKeepYoung(r: RingState, trbs: seq<Trb>, i: nat)
    requires RingOk(r) && i < |r.mem| - 1 && Age(|r.mem|, r.writeIndex, i) + |trbs| <= |r.mem| - 1
    ensures PushedAll(r, trbs).mem[i] == r.mem[i]
    ensures Age(|r.mem|, PushedAll(r, trbs).writeIndex, i) == Age(|r.mem|, r.writeIndex, i) + |trbs|
    decreases |trbs|
  {
    if trbs != [] {
      PushesKeepYoung(Pushed(r, trbs[0]), trbs[1..], i);
    }
  }

  /** The first of several TRBs stays where the ring's write index was. */
  lemma FirstStays(r: RingState, trbs: seq<Trb>)
    requires RingOk(r) && 1 <= |trbs| <= |r.mem| - 1
    ensures PushedAll(r, trbs) == PushedAll(Pushed(r, trbs[0]), trbs[1..])
    ensures SameButCycle(PushedAll(r, trbs).mem[r.writeIndex], trbs[0])
    ensures Age(|r.mem|, PushedAll(r, trbs).writeIndex, r.writeIndex) == |trbs|
  {
    PushedHere(r, trbs[0]);
    PushesKeepYoung(Pushed(r, trbs[0]), trbs[1..], r.writeIndex);
  }

  lemma PushedHere(r: RingState, t: Trb)
    requires RingOk(r)
    ensures SameButCycle(Pushed(r, t).mem[r.writeIndex], t)
    ensures Pushed(r, t).writeIndex == NextIndex(|r.mem|, r.writeIndex)
    ensures Age(|r.mem|, Pushed(r, t).writeIndex, r.writeIndex) == 1
  {
  }

  /** A request's TRBs end up where Control says. */
  lemma RequestStored(r: RingState, request: Request)
    requires RingOk(r) && |RequestTrbs(request)| <= |r.mem| - 1
    ensures Stored(PushedAll(r, RequestTrbs(request)), request, r.writeIndex, NextIndex(|r.mem|, r.writeIndex))
    ensures Age(|r.mem|, PushedAll(r, RequestTrbs(request)).writeIndex, r.writeIndex) == |RequestTrbs(request)|
  {
    TwoStay(r, RequestTrbs(request));
  }

  lemma TwoStay(r: RingState, trbs: seq<Trb>)
    requires RingOk(r) && 2 <= |trbs| <= |r.mem| - 1
    ensures SameButCycle(PushedAll(r, trbs).mem[r.writeIndex], trbs[0])
    ensures SameButCycle(PushedAll(r, trbs).mem[NextIndex(|r.mem|, r.writeIndex)], trbs[1])
    ensures Age(|r.mem|, PushedAll(r, trbs).writeIndex, r.writeIndex) == |trbs|
  {
    FirstStays(r, trbs);
    PushedHere(r, trbs[0]);
    FirstStays(Pushed(r, trbs[0]), trbs[1..]);
  }

  lemma StoredStays(r: RingState, trbs: seq<Trb>, request: Request, setupIndex: nat, keyIndex: nat)
    requires Stored(r, request, setupIndex, keyIndex)
    requires Age(|r.mem|, r.writeIndex, setupIndex) + |trbs| <= |r.mem| - 1
    ensures Stored(PushedAll(r, trbs), request, setupIndex, keyIndex)
    ensures keyIndex != NextIndex(|r.mem|, r.writeIndex) || |trbs| < 2
  {
    PushesKeepYoung(r, trbs, setupIndex);
    PushesKeepYoung(r, trbs, keyIndex);
  }

  /** An older request after more TRBs on one ring, the map unchanged. */
  lemma FlightStays(d: DeviceState, flight: seq<InFlight>, address: int, trbs: seq<Trb>, i: nat)
    requires DeviceOk(d) && (forall j :: 0 <= j < |flight| ==> FlightOk(d, flight[j]))
    requires 1 <= address <= RINGS && d.rings[address - 1].Some? && i < |flight|
    requires RoomFor(d, flight, address, |trbs|)
    ensures FlightOk(WithRing(d, address, PushedAll(d.rings[address - 1].value, trbs)), flight[i])
    ensures var r := d.rings[address - 1].value;
            flight[i].key == TrbPtr(address, NextIndex(|r.mem|, r.writeIndex)) ==> |trbs| < 2
  {
    var f := flight[i];
    assert FlightOk(d, f);
    if f.key.dci == address {
      StoredStays(RingFor(d, f), trbs, f.request, f.setupPtr.index, f.key.index);
    }
  }

  /** Pushing does not move the pairs of the map. */
  lemma PairsStay(d: DeviceState, address: int, r: RingState)
    requires DeviceOk(d) && Paired(d) && 1 <= address <= RINGS && d.rings[address - 1].Some?
    requires RingOk(r) && |r.mem| == |d.rings[address - 1].value.mem|
    ensures Paired(WithRing(d, address, r))
  {
    var d' := WithRing(d, address, r);
    forall k | 0 <= k < |d'.setupMap| && d'.setupMap[k].key.Some?
      ensures PairOk(d', d'.setupMap[k].key.value, d'.setupMap[k].value)
    {
      assert PairOk(d, d.setupMap[k].key.value, d.setupMap[k].value);
    }
  }

  /** A key determines the setup stage stored with it, stale or not. */
  lemma PairUnique(d: DeviceState, key: TrbPtr, v: TrbPtr, w: TrbPtr)
    requires DeviceOk(d) && PairOk(d, key, v) && PairOk(d, key, w)
    ensures v == w
  {
  }

  lemma LookupIsPaired(d: DeviceState, key: TrbPtr)
    requires DeviceOk(d) && Paired(d) && Lookup(d.setupMap, key).Some?
    ensures PairOk(d, key, Lookup(d.setupMap, key).value)
  {
    var i := Find(d.setupMap, Some(key), 0);
    assert d.setupMap[i].key == Some(key);
  }

  /** Where a request issued now will be in flight. */
  function NewFlight(r: RingState, address: nat, request: Request): InFlight {
    InFlight(request, TrbPtr(address, r.writeIndex), TrbPtr(address, NextIndex(|r.mem|, r.writeIndex)))
  }

  /** Requests in flight and the new one, after the Put that follows its pushes. */
  lemma JoinKeepsFlights(d: DeviceState, flight: seq<InFlight>, f: InFlight, i: nat)
    requires DeviceOk(d) && Paired(d) && Used(d.setupMap) < |d.setupMap| && PairOk(d, f.key, f.setupPtr)
    requires forall j :: 0 <= j < |flight| ==> flight[j].key != f.key && FlightOk(d, flight[j])
    requires Stored(RingFor(d, f), f.request, f.setupPtr.index, f.key.index)
    requires i <= |flight|
    ensures FlightOk(d.(setupMap := Inserted(d.setupMap, f.key, f.setupPtr)), (flight + [f])[i])
  {
    if i < |flight| {
      assert (flight + [f])[i] == flight[i];
      PutStores(d.setupMap, f.key, f.setupPtr, flight[i].key);
    } else {
      PutStores(d.setupMap, f.key, f.setupPtr, f.key);
      if Lookup(d.setupMap, f.key).Some? {
        LookupIsPaired(d, f.key);
        PairUnique(d, f.key, f.setupPtr, Lookup(d.setupMap, f.key).value);
      }
    }
  }

  lemma PutKeepsPaired(d: DeviceState, key: TrbPtr, value: TrbPtr)
    requires DeviceOk(d) && Paired(d) && PairOk(d, key, value)
    ensures Paired(d.(setupMap := Inserted(d.setupMap, key, value)))
  {
    var d' := d.(setupMap := Inserted(d.setupMap, key, value));
    forall k | 0 <= k < |d'.setupMap| && d'.setupMap[k].key.Some?
      ensures PairOk(d', d'.setupMap[k].key.value, d'.setupMap[k].value)
    {
      assert d'.setupMap[k] == Entry(Some(key), value) || d'.setupMap[k] == d.setupMap[k];
      if d'.setupMap[k] == d.setupMap[k] { assert PairOk(d, d.setupMap[k].key.value, d.setupMap[k].value); }
    }
  }

  /**
   * A control request within map and ring capacity joins the requests in flight.  The map has room as long as
   * requests in flight and failed ones together leave one of its entries free.
   */
  lemma ControlKeepsMatch(d: DeviceState, flight: seq<InFlight>, stale: nat, address: int, request: Request)
    requires Match(d, flight, stale) && 1 <= address <= RINGS && d.rings[address - 1].Some?
    requires |flight| + stale < |d.setupMap|
    requires |RequestTrbs(request)| <= |d.rings[address - 1].value.mem| - 1
    requires RoomFor(d, flight, address, |RequestTrbs(request)|)
    ensures Control(d, address, request).1 == Success
    ensures Match(Control(d, address, request).0, flight + [NewFlight(d.rings[address - 1].value, address, request)],
            stale)
  {
    hide Stored, RequestTrbs, Lookup, Used;
    var r := d.rings[address - 1].value;
    var f := NewFlight(r, address, request);
    var trbs := RequestTrbs(request);
    var d1 := WithRing(d, address, PushedAll(r, trbs));
    RequestStored(r, request);
    forall i | 0 <= i < |flight| ensures flight[i].key != f.key && FlightOk(d1, flight[i]) {
      FlightStays(d, flight, address, trbs, i);
    }
    PairsStay(d, address, PushedAll(r, trbs));
    JoinKeepsMatch(d1, flight, stale, f);
  }

  lemma JoinKeepsMatch(d: DeviceState, flight: seq<InFlight>, stale: nat, f: InFlight)
    requires Match(d, flight, stale) && |flight| + stale < |d.setupMap| && PairOk(d, f.key, f.setupPtr)
    requires forall j :: 0 <= j < |flight| ==> flight[j].key != f.key
    requires Stored(RingFor(d, f), f.request, f.setupPtr.index, f.key.index)
    ensures Match(d.(setupMap := Inserted(d.setupMap, f.key, f.setupPtr)), flight + [f], stale)
  {
    PutKeepsPaired(d, f.key, f.setupPtr);
    UsedCounts(d.setupMap, f.key, f.setupPtr);
    var d' := d.(setupMap := Inserted(d.setupMap, f.key, f.setupPtr));
    var all := flight + [f];
    forall i | 0 <= i < |all| ensures FlightOk(d', all[i]) {
      JoinKeepsFlights(d, flight, f, i);
    }
  }

  /** An interrupt transfer on a ring with room disturbs no control request. */
  lemma InterruptKeepsMatch(d: DeviceState, flight: seq<InFlight>, stale: nat, address: int, buf: Address, len: nat)
    requires Match(d, flight, stale) && 1 <= address <= RINGS && d.rings[address - 1].Some?
    requires RoomFor(d, flight, address, 1)
    ensures PushInterrupt(d, address, buf, len).1 == Success
    ensures Match(PushInterrupt(d, address, buf, len).0, flight, stale)
  {
    var trbs := [NormalTrb(buf, len)];
    var r := d.rings[address - 1].value;
    assert trbs[1..] == [] && PushedAll(r, trbs) == PushedAll(Pushed(r, trbs[0]), []);
    forall i | 0 <= i < |flight| ensures FlightOk(WithRing(d, address, PushedAll(r, trbs)), flight[i]) {
      FlightStays(d, flight, address, trbs, i);
    }
    PairsStay(d, address, Pushed(r, trbs[0]));
  }

  lemma MatchGivesMapOk(d: DeviceState, flight: seq<InFlight>, stale: nat)
    requires Match(d, flight, stale)
    ensures MapOk(d) && forall i :: 0 <= i < |flight| ==> PtrOk(d, flight[i].key)
  {
    forall k | 0 <= k < |d.setupMap| && d.setupMap[k].key.Some? ensures PtrOk(d, d.setupMap[k].value) {
      assert PairOk(d, d.setupMap[k].key.value, d.setupMap[k].value);
    }
    forall i | 0 <= i < |flight| ensures PtrOk(d, flight[i].key) {
      assert FlightOk(d, flight[i]);
    }
  }

  /** The length the issuer is told: what the 17-bit field kept of the request, less the residue. */
  function Transferred(r: Request, residual: nat): int {
    if r.buf == 0 then 0 else r.len % 0x20000 - residual
  }

  /** Requests in flight without the i-th. */
  function Without(flight: seq<InFlight>, i: nat): seq<InFlight>
    requires i < |flight|
  {
    flight[..i] + flight[i + 1..]
  }

  /**
   * A successful or short-packet event that names the event TRB of any request in flight is answered with
   * exactly that request's setup data, buffer and transferred length, and retires only that request.
   */
  lemma EventFindsItsRequest(d: DeviceState, flight: seq<InFlight>, stale: nat, i: nat, code: nat, residual: nat)
    requires Match(d, flight, stale) && i < |flight|
    requires code == CODE_SUCCESS || code == CODE_SHORT_PACKET
    ensures MapOk(d) && PtrOk(d, flight[i].key)
    ensures var (d', up) := OnTransferEvent(d, flight[i].key, code, residual);
            var r := flight[i].request;
            && up == ControlCompleted(r.setup, r.buf, Transferred(r, residual))
            && d' == d.(setupMap := Removed(d.setupMap, flight[i].key))
            && Match(d', Without(flight, i), stale)
  {
    MatchGivesMapOk(d, flight, stale);
    var f := flight[i];
    assert FlightOk(d, f);
    IssuerReads(d, f);
    Retire(d, flight, stale, i);
  }

  lemma IssuerReads(d: DeviceState, f: InFlight)
    requires DeviceOk(d) && FlightOk(d, f) && PtrOk(d, f.key)
    ensures PtrOk(d, f.setupPtr) && SetupDataOf(Read(d, f.setupPtr)) == f.request.setup
    ensures var t := Read(d, f.key);
            if f.request.buf != 0
            then TypeOf(t) == DATA_STAGE && Parameter(t) == f.request.buf &&
              TransferLength(t) == f.request.len % 0x20000
            else TypeOf(t) == STATUS_STAGE
  {
    var r := f.request;
    SetupRoundTrip(r.setup, TransferType(r), false);
    SameButCycleReads(Read(d, f.setupPtr), RequestTrbs(r)[0]);
    SameButCycleReads(Read(d, f.key), RequestTrbs(r)[1]);
    SameButCycleReads(Stamp(SetupStageTrb(r.setup, TransferType(r)), false), SetupStageTrb(r.setup, TransferType(r)));
  }

  lemma Retire(d: DeviceState, flight: seq<InFlight>, stale: nat, i: nat)
    requires Match(d, flight, stale) && i < |flight|
    ensures Match(d.(setupMap := Removed(d.setupMap, flight[i].key)), Without(flight, i), stale)
  {
    var key, rest := flight[i].key, Without(flight, i);
    var d' := d.(setupMap := Removed(d.setupMap, key));
    assert FlightOk(d, flight[i]);
    UsedCounts(d.setupMap, key, flight[i].setupPtr);
    DeleteKeepsPaired(d, key);
    forall j | 0 <= j < |rest| ensures FlightOk(d', rest[j]) {
      var o := if j < i then j else j + 1;
      assert rest[j] == flight[o] && FlightOk(d, flight[o]);
      DeleteKeepsOthers(d.setupMap, key, rest[j].key);
    }
  }

  lemma DeleteKeepsPaired(d: DeviceState, key: TrbPtr)
    requires DeviceOk(d) && Paired(d)
    ensures Paired(d.(setupMap := Removed(d.setupMap, key)))
  {
    var d' := d.(setupMap := Removed(d.setupMap, key));
    forall k | 0 <= k < |d'.setupMap| && d'.setupMap[k].key.Some?
      ensures PairOk(d', d'.setupMap[k].key.value, d'.setupMap[k].value)
    {
      assert d'.setupMap[k] == d.setupMap[k];
      assert PairOk(d, d.setupMap[k].key.value, d.setupMap[k].value);
    }
  }

  /** A failed transfer tells its issuer nothing; its entry stays in the map and becomes stale. */
  lemma FailureLeavesEntry(d: DeviceState, flight: seq<InFlight>, stale: nat, i: nat, code: nat, residual: nat)
    requires Match(d, flight, stale) && i < |flight| && code != CODE_SUCCESS && code != CODE_SHORT_PACKET
    ensures MapOk(d) && PtrOk(d, flight[i].key)
    ensures OnTransferEvent(d, flight[i].key, code, residual) == (d, Failed(TransferFailed))
    ensures Match(d, Without(flight, i), stale + 1)
  {
    hide Stored, Lookup, Used, SameButCycle, Paired;
    MatchGivesMapOk(d, flight, stale);
    var rest := Without(flight, i);
    forall j | 0 <= j < |rest| ensures FlightOk(d, rest[j]) {
      assert rest[j] == flight[if j < i then j else j + 1];
    }
  }

  // ---- interrupt transfers ----

  /** An interrupt transfer as its issuer states it, and where its TRB lies. */
  datatype PollOut = PollOut(ptr: TrbPtr, buf: Address, len: nat)

  /** The ring still holds the TRB. */
  predicate PollOk(d: DeviceState, f: PollOut)
    requires DeviceOk(d)
  {
    && PtrOk(d, f.ptr) && f.ptr.index < |d.rings[f.ptr.dci - 1].value.mem| - 1
    && SameButCycle(Read(d, f.ptr), NormalTrb(f.buf, f.len))
  }

  function PollAge(d: DeviceState, f: PollOut): int
    requires DeviceOk(d) && PtrOk(d, f.ptr)
  {
    var r := d.rings[f.ptr.dci - 1].value;
    Age(|r.mem|, r.writeIndex, f.ptr.index)
  }

  /** k more TRBs on a ring overwrite no interrupt TRB that is out. */
  predicate PollRoom(d: DeviceState, polls: seq<PollOut>, address: int, k: nat)
    requires DeviceOk(d)
  {
    forall i :: 0 <= i < |polls| && PollOk(d, polls[i]) && polls[i].ptr.dci == address ==>
      PollAge(d, polls[i]) + k <= |d.rings[polls[i].ptr.dci - 1].value.mem| - 1
  }

  predicate PollsOk(d: DeviceState, polls: seq<PollOut>)
    requires DeviceOk(d)
  {
    forall i :: 0 <= i < |polls| ==> PollOk(d, polls[i])
  }

  lemma PollStays(d: DeviceState, f: PollOut, address: int, trbs: seq<Trb>)
    requires DeviceOk(d) && PollOk(d, f) && 1 <= address <= RINGS && d.rings[address - 1].Some?
    requires f.ptr.dci == address ==> PollAge(d, f) + |trbs| <= |d.rings[f.ptr.dci - 1].value.mem| - 1
    ensures PollOk(WithRing(d, address, PushedAll(d.rings[address - 1].value, trbs)), f)
  {
    hide SameButCycle, NormalTrb, PushedAll;
    if f.ptr.dci == address {
      PushesKeepYoung(d.rings[address - 1].value, trbs, f.ptr.index);
    }
  }

  /** The TRBs that are out stay readable when others are pushed, on any ring. */
  lemma PollsStay(d: DeviceState, polls: seq<PollOut>, address: int, trbs: seq<Trb>)
    requires DeviceOk(d) && PollsOk(d, polls) && 1 <= address <= RINGS && d.rings[address - 1].Some?
    requires PollRoom(d, polls, address, |trbs|)
    ensures PollsOk(WithRing(d, address, PushedAll(d.rings[address - 1].value, trbs)), polls)
  {
    hide PollOk, PollAge, PushedAll;
    var d' := WithRing(d, address, PushedAll(d.rings[address - 1].value, trbs));
    forall i | 0 <= i < |polls| ensures PollOk(d', polls[i]) {
      assert PollOk(d, polls[i]);
      PollOkGives(d, polls[i]);
      PollStays(d, polls[i], address, trbs);
    }
  }

  lemma PollOkGives(d: DeviceState, f: PollOut)
    requires DeviceOk(d) && PollOk(d, f)
    ensures PtrOk(d, f.ptr)
  {
  }

  /** Where an interrupt transfer issued now will be out. */
  function NewPoll(d: DeviceState, address: nat, buf: Address, len: nat): PollOut
    requires DeviceOk(d) && 1 <= address <= RINGS && d.rings[address - 1].Some?
  {
    PollOut(TrbPtr(address, d.rings[address - 1].value.writeIndex), buf, len)
  }

  /** An interrupt transfer joins those that are out. */
  lemma InterruptJoins(d: DeviceState, polls: seq<PollOut>, address: int, buf: Address, len: nat)
    requires DeviceOk(d) && PollsOk(d, polls) && 1 <= address <= RINGS && d.rings[address - 1].Some?
    requires PollRoom(d, polls, address, 1)
    ensures var d' := PushInterrupt(d, address, buf, len).0;
            DeviceOk(d') && PollsOk(d', polls + [NewPoll(d, address, buf, len)])
  {
    var trbs, r := [NormalTrb(buf, len)], d.rings[address - 1].value;
    assert trbs[1..] == [] && PushedAll(r, trbs) == PushedAll(Pushed(r, trbs[0]), []);
    PollsStay(d, polls, address, trbs);
    PushedHere(r, trbs[0]);
  }

  /**
   * An event for an interrupt transfer that is out leaves map and rings alone.  A good one is answered with the buffer
   * of the transfer and, exactly when its length fits 17 bits, with that length less the residue.
   */
  lemma EventFindsItsPoll(d: DeviceState, f: PollOut, code: nat, residual: nat)
    requires DeviceOk(d) && MapOk(d) && PollOk(d, f)
    ensures var (d', up) := OnTransferEvent(d, f.ptr, code, residual);
            && d' == d
            && if code == 1 || code == 13
               then up.InterruptCompleted? && up.buf == f.buf && (up.len == f.len - residual <==> f.len < 0x20000) &&
                    up.len == f.len % 0x20000 - residual
               else up == Failed(TransferFailed)
  {
    SameButCycleReads(Read(d, f.ptr), NormalTrb(f.buf, f.len));
    NormalRoundTrip(f.buf, f.len, CycleOf(NormalTrb(f.buf, f.len)));
  }

  // ---- a request that finds the map full ----

  lemma FlightAnswered(d: DeviceState, f: InFlight, code: nat, residual: nat)
    requires DeviceOk(d) && FlightOk(d, f) && PtrOk(d, f.key) && MapOk(d)
    requires code == CODE_SUCCESS || code == CODE_SHORT_PACKET
    ensures OnTransferEvent(d, f.key, code, residual).1 ==
              ControlCompleted(f.request.setup, f.request.buf, Transferred(f.request, residual))
  {
    IssuerReads(d, f);
  }

  /** A full map drops the Put, so the good event finds a setup stage only if its key is there from before. */
  lemma FullMapAnswer(d: DeviceState, flight: seq<InFlight>, stale: nat, address: int, request: Request, code: nat,
          residual: nat)
    requires Match(d, flight, stale) && 1 <= address <= RINGS && d.rings[address - 1].Some?
    requires |RequestTrbs(request)| <= |d.rings[address - 1].value.mem| - 1 && Used(d.setupMap) == |d.setupMap|
    requires code == CODE_SUCCESS || code == CODE_SHORT_PACKET
    ensures var d', f := Control(d, address, request).0, NewFlight(d.rings[address - 1].value, address, request);
            && MapOk(d') && PtrOk(d', f.key)
            && OnTransferEvent(d', f.key, code, residual).1 ==
                 if Lookup(d.setupMap, f.key) == None then Failed(NoCorrespondingSetupStage)
                 else ControlCompleted(request.setup, request.buf, Transferred(request, residual))
  {
    var r := d.rings[address - 1].value;
    var d', f := Control(d, address, request).0, NewFlight(r, address, request);
    RequestStored(r, request);
    PutIntoFull(d.setupMap, f.key, f.setupPtr);
    PairsStay(d, address, PushedAll(r, RequestTrbs(request)));
    PairedGivesMapOk(d');
    if Lookup(d.setupMap, f.key).Some? {
      LookupIsPaired(d', f.key);
      PairUnique(d', f.key, f.setupPtr, Lookup(d'.setupMap, f.key).value);
      FlightAnswered(d', f, code, residual);
    } else {
      KeyIsNotNormal(d', f);
    }
  }

  lemma PairedGivesMapOk(d: DeviceState)
    requires DeviceOk(d) && Paired(d)
    ensures MapOk(d)
  {
    forall k | 0 <= k < |d.setupMap| && d.setupMap[k].key.Some? ensures PtrOk(d, d.setupMap[k].value) {
      assert PairOk(d, d.setupMap[k].key.value, d.setupMap[k].value);
    }
  }

  lemma KeyIsNotNormal(d: DeviceState, f: InFlight)
    requires DeviceOk(d) && PtrOk(d, f.key) && f.setupPtr.dci == f.key.dci
    requires Stored(RingFor(d, f), f.request, f.setupPtr.index, f.key.index)
    ensures TypeOf(Read(d, f.key)) != NORMAL
  {
    SameButCycleReads(Read(d, f.key), RequestTrbs(f.request)[1]);
  }

  /**
   * A request issued when the map may be full: its good event is answered with kNoCorrespondingSetupStage if and only
   * if every entry is in use and none has the request's key; otherwise it is answered like any other.
   */
  lemma DroppedExactly(d: DeviceState, flight: seq<InFlight>, stale: nat, address: int, request: Request, code: nat,
          residual: nat)
    requires Match(d, flight, stale) && 1 <= address <= RINGS && d.rings[address - 1].Some?
    requires |RequestTrbs(request)| <= |d.rings[address - 1].value.mem| - 1
    requires RoomFor(d, flight, address, |RequestTrbs(request)|)
    requires code == CODE_SUCCESS || code == CODE_SHORT_PACKET
    ensures var d', f := Control(d, address, request).0, NewFlight(d.rings[address - 1].value, address, request);
            && MapOk(d') && PtrOk(d', f.key)
            && var up := OnTransferEvent(d', f.key, code, residual).1;
               && (up == Failed(NoCorrespondingSetupStage) <==>
                 Used(d.setupMap) == |d.setupMap| && Lookup(d.setupMap, f.key) == None)
               && (up != Failed(NoCorrespondingSetupStage) ==>
                     up == ControlCompleted(request.setup, request.buf, Transferred(request, residual)))
  {
    FreeEntryExists(d.setupMap);
    if Used(d.setupMap) == |d.setupMap| {
      FullMapAnswer(d, flight, stale, address, request, code, residual);
    } else {
      ControlKeepsMatch(d, flight, stale, address, request);
      var f := NewFlight(d.rings[address - 1].value, address, request);
      assert (flight + [f])[|flight|] == f;
      EventFindsItsRequest(Control(d, address, request).0, flight + [f], stale, |flight|, code, residual);
    }
  }

  /** The lengths agree with the request exactly when it fits the 17-bit field. */
  lemma LengthExact(r: Request, residual: nat)
    ensures Transferred(r, residual) == r.len - residual <==>
            (if r.buf == 0 then r.len == residual else r.len < 0x20000)
  {
  }
}
