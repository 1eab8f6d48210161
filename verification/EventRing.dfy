/** The event ring (kernel/usb/xhci/ring.cpp, ring.hpp). */
module EventRings {
  import opened Wrappers
  import opened Trbs
  import opened Rings

  /** Entry after i on a ring of n, and the consumer's cycle bit there: there is no Link TRB. */
  function Succ(n: nat, i: nat): nat { if i + 1 == n then 0 else i + 1 }
  function SuccCycle(n: nat, i: nat, cycle: bool): bool { if i + 1 == n then !cycle else cycle }

  class EventRing {
    const buf: array<Trb>      // written by the host controller
    const base: Address        // ring_segment_base_address in the segment table
    var cycleBit: bool
    var erdp: Address          // the Event Ring Dequeue Pointer register, flags in bits 3:0

    /** The register points at an entry of the segment. */
    ghost predicate Valid()
      reads this
    {
      && 0 < buf.Length < 65536 && base % 64 == 0 && base + 16 * buf.Length < B64
      && base <= Truncate16(erdp) < base + 16 * buf.Length
    }

    ghost function Index(): nat
      requires Valid()
      reads this
      ensures Index() < buf.Length && Truncate16(erdp) == base + 16 * Index()
    {
      (Truncate16(erdp) - base) / 16
    }

    constructor Initialize(buf: array<Trb>, base: Address, erdp: Address)
      requires 0 < buf.Length < 65536 && base % 64 == 0 && base + 16 * buf.Length < B64
      ensures Valid() && this.buf == buf && this.base == base && Index() == 0 && cycleBit
      ensures this.erdp % 16 == erdp % 16
    {
      this.buf := buf;
      this.base := base;
      cycleBit := true;
      this.erdp := erdp;
      new;
      WriteDequeuePointer(base);
    }

    /** `SetPointer` replaces bits 63:4 and keeps the flag bits. */
    method WriteDequeuePointer(p: Address)
      modifies this`erdp
      ensures Truncate16(erdp) == Truncate16(p) && erdp % 16 == old(erdp) % 16
    {
      erdp := Truncate16(p) + erdp % 16;
    }

    function ReadDequeuePointer(): Address
      reads this
    {
      Truncate16(erdp)
    }

    method Front() returns (t: Trb)
      requires Valid()
      ensures t == buf[Index()]
    {
      t := buf[(ReadDequeuePointer() - base) / 16];
    }

    method HasFront() returns (b: bool)
      requires Valid()
      ensures b == (CycleOf(buf[Index()]) == cycleBit)
    {
      var t := Front();
      b := CycleOf(t) == cycleBit;
    }

    method Pop()
      requires Valid()
      modifies this
      ensures Valid() && Index() == Succ(buf.Length, old(Index()))
      ensures cycleBit == SuccCycle(buf.Length, old(Index()), old(cycleBit))
      ensures erdp % 16 == old(erdp) % 16
    {
      ghost var i := Index();
      var p := ReadDequeuePointer() + 16;
      assert p == base + 16 * (i + 1);
      var segmentEnd := base + 16 * buf.Length;
      if p == segmentEnd {
        p := base;
        cycleBit := !cycleBit;
      }
      EntryAddress(base, Succ(buf.Length, i));
      WriteDequeuePointer(p);
    }
  }

  /** The address of an entry has clear flag bits and names that entry. */
  lemma EntryAddress(base: Address, i: nat)
    requires base % 64 == 0 && base + 16 * i < B64
    ensures Truncate16(base + 16 * i) == base + 16 * i && (base + 16 * i - base) / 16 == i
  {
    var q := base / 64;
    MultipleStays(4 * q + i);
    MultipleStays(i);
  }

  lemma MultipleStays(q: nat)
    ensures 16 * q / 16 == q
  {
  }

  /** The consumer's side of the ring and what it has taken up. */
  datatype Consumer = Consumer(deq: nat, ccs: bool, dispatched: seq<Trb>)

  /** One call of ProcessEvent: the front entry, if there is one, is taken up and popped. */
  function Processed(mem: seq<Trb>, c: Consumer): Consumer
    requires c.deq < |mem|
  {
    var t := mem[c.deq];
    if CycleOf(t) != c.ccs then c
    else Consumer(Succ(|mem|, c.deq), SuccCycle(|mem|, c.deq, c.ccs), c.dispatched + [t])
  }

  // ---- the ring shared with the controller ----

  /**
   * `posted` is every event the controller has begun to write, `todo` its stores still to come; `dispatched` every
   * event the driver has taken up; `handling` while the handler of the last one runs, before Pop.
   */
  datatype Sys = Sys(
    mem: seq<Trb>, enq: nat, pcs: bool, todo: seq<WordWrite>, posted: seq<Trb>,
    deq: nat, ccs: bool, handling: bool, dispatched: seq<Trb>)

  predicate Init(s: Sys) {
    && |s.mem| >= 2 && (forall i :: 0 <= i < |s.mem| ==> s.mem[i] == ZERO)
    && s.enq == 0 && s.pcs && s.todo == [] && s.posted == []
    && s.deq == 0 && s.ccs && !s.handling && s.dispatched == []
  }

  /** The controller starts an event when the ring is not full (section 4.9.4): one entry always stays free. */
  predicate Post(s: Sys, s': Sys, event: Trb) {
    && s.todo == [] && s.enq < |s.mem| && Succ(|s.mem|, s.enq) != s.deq
    && s' == s.(todo := TrbWrites(s.enq, Stamp(event, s.pcs)), posted := s.posted + [event],
                enq := Succ(|s.mem|, s.enq), pcs := SuccCycle(|s.mem|, s.enq, s.pcs))
  }

  predicate StoreNext(s: Sys, s': Sys) {
    s.todo != [] && WriteOk(|s.mem|, s.todo[0]) && s' == s.(mem := Store(s.mem, s.todo[0]), todo := s.todo[1..])
  }

  predicate HasFront(s: Sys) {
    s.deq < |s.mem| && CycleOf(s.mem[s.deq]) == s.ccs
  }

  predicate Dispatch(s: Sys, s': Sys) {
    !s.handling && HasFront(s) && s' == s.(handling := true, dispatched := s.dispatched + [s.mem[s.deq]])
  }

  predicate PopFront(s: Sys, s': Sys) {
    s.handling && s.deq < |s.mem| &&
      s' == s.(handling := false, deq := Succ(|s.mem|, s.deq), ccs := SuccCycle(|s.mem|, s.deq, s.ccs))
  }

  ghost predicate Next(s: Sys, s': Sys) {
    (exists event :: Post(s, s', event)) || StoreNext(s, s') || Dispatch(s, s') || PopFront(s, s')
  }

  ghost predicate Run(run: seq<Sys>) {
    |run| > 0 && Init(run[0]) && forall i :: 0 <= i < |run| - 1 ==> Next(run[i], run[i + 1])
  }

  /** Where the event under way (or the last one) goes, and its cycle bit. */
  function LastIndex(s: Sys): int { if s.enq == 0 then |s.mem| - 1 else s.enq - 1 }
  function LastCycle(s: Sys): bool { if s.enq == 0 then !s.pcs else s.pcs }

  function VisIndex(s: Sys): int { if |s.todo| > 0 then LastIndex(s) else s.enq }
  function VisCycle(s: Sys): bool { if |s.todo| > 0 then LastCycle(s) else s.pcs }
  function VisCount(s: Sys): int { if |s.todo| > 0 then |s.posted| - 1 else |s.posted| }

  /** Events published and not yet popped. */
  function Waiting(s: Sys): int { VisCount(s) - |s.dispatched| + (if s.handling then 1 else 0) }

  /** The entry k places after the dequeue pointer. */
  function Entry(n: int, deq: int, k: int): int { if deq + k < n then deq + k else deq + k - n }

  predicate TodoInv(s: Sys)
    requires |s.mem| >= 2
  {
    && |s.todo| <= 4 && (|s.todo| > 0 ==> |s.posted| > 0)
    && (forall j :: 0 <= j < |s.todo| ==>
          var k := 4 - |s.todo| + j;
          s.todo[j] == WordWrite(LastIndex(s), k, WordOf(Stamp(s.posted[|s.posted| - 1], LastCycle(s)), k)))
  }

  predicate PartialInv(s: Sys)
    requires |s.mem| >= 2 && s.enq < |s.mem| && TodoInv(s)
  {
    |s.todo| > 0 ==>
      var t, e, count := s.mem[LastIndex(s)], s.posted[|s.posted| - 1], 4 - |s.todo|;
      (count > 0 ==> t.w0 == e.w0) && (count > 1 ==> t.w1 == e.w1) && (count > 2 ==> t.w2 == e.w2)
  }

  predicate PositionInv(s: Sys) {
    && |s.mem| >= 2 && s.enq < |s.mem| && s.deq < |s.mem|
    && 0 <= Waiting(s) < |s.mem| && (|s.todo| > 0 ==> Waiting(s) < |s.mem| - 1)
    && (s.handling ==> Waiting(s) > 0 && |s.dispatched| > 0)
    && (if s.deq + Waiting(s) < |s.mem| then VisIndex(s) == s.deq + Waiting(s) && VisCycle(s) == s.ccs
        else VisIndex(s) == s.deq + Waiting(s) - |s.mem| && VisCycle(s) == !s.ccs)
  }

  predicate CycleInv(mem: seq<Trb>, index: int, cycle: bool) {
    forall i :: 0 <= i < |mem| ==> CycleOf(mem[i]) == if i < index then cycle else !cycle
  }

  /** The waiting events are in memory, in order, from the dequeue pointer on. */
  predicate WaitingInv(mem: seq<Trb>, posted: seq<Trb>, deq: int, first: int, waiting: int)
    requires 0 <= deq < |mem| && 0 <= first && first + waiting <= |posted| && waiting <= |mem|
  {
    forall k {:trigger Entry(|mem|, deq, k)} :: 0 <= k < waiting ==>
      SameButCycle(mem[Entry(|mem|, deq, k)], posted[first + k])
  }

  predicate DispatchedInv(s: Sys) {
    && |s.dispatched| <= |s.posted|
    && (forall i :: 0 <= i < |s.dispatched| ==> SameButCycle(s.dispatched[i], s.posted[i]))
    && (s.handling && s.deq < |s.mem| && |s.dispatched| > 0 ==> s.mem[s.deq] == s.dispatched[|s.dispatched| - 1])
  }

  predicate Inv(s: Sys) {
    && PositionInv(s) && TodoInv(s) && PartialInv(s)
    && CycleInv(s.mem, VisIndex(s), VisCycle(s))
    && WaitingInv(s.mem, s.posted, s.deq, VisCount(s) - Waiting(s), Waiting(s))
    && DispatchedInv(s)
  }

  lemma InitInv(s: Sys)
    requires Init(s)
    ensures Inv(s)
  {
  }

  lemma PostKeepsInv(s: Sys, s': Sys, event: Trb)
    requires Inv(s) && Post(s, s', event)
    ensures Inv(s')
  {
    hide CycleOf, SameButCycle, CycleInv;
    assert LastIndex(s') == s.enq && LastCycle(s') == s.pcs;
    assert VisIndex(s') == VisIndex(s) && VisCount(s') == VisCount(s) && Waiting(s') == Waiting(s);
  }

  lemma DispatchKeepsInv(s: Sys, s': Sys)
    requires Inv(s) && Dispatch(s, s')
    ensures Inv(s')
  {
    hide Stamp, StampWord, TrbWrites;
    assert Waiting(s) > 0;
    assert Entry(|s.mem|, s.deq, 0) == s.deq;
    assert SameButCycle(s.mem[s.deq], s.posted[|s.dispatched|]);
  }

  lemma PopKeepsInv(s: Sys, s': Sys)
    requires Inv(s) && PopFront(s, s')
    ensures Inv(s')
  {
    hide CycleOf, SameButCycle, Stamp, StampWord, CycleInv, WordOf;
    forall k {:trigger Entry(|s.mem|, s'.deq, k)} | 0 <= k < Waiting(s')
      ensures SameButCycle(s'.mem[Entry(|s.mem|, s'.deq, k)], s'.posted[VisCount(s') - Waiting(s') + k])
    {
      assert Entry(|s.mem|, s'.deq, k) == Entry(|s.mem|, s.deq, k + 1);
    }
  }

  lemma StoreWordKeepsInv(s: Sys, s': Sys)
    requires Inv(s) && StoreNext(s, s') && |s.todo| > 1
    ensures Inv(s')
  {
    hide CycleInv, WaitingInv;
    var k := 4 - |s.todo|;
    assert s.todo[0] == WordWrite(LastIndex(s), k, WordOf(Stamp(s.posted[|s.posted| - 1], LastCycle(s)), k));
    assert LastIndex(s') == LastIndex(s) && VisIndex(s') == VisIndex(s) && Waiting(s') == Waiting(s);
    forall j | 0 <= j < |s'.todo| ensures s'.todo[j] == s.todo[j + 1] {
    }
    StoreWordKeepsMem(s, s');
  }

  /** A store below the cycle word moves no cycle bit and touches no waiting event. */
  lemma StoreWordKeepsMem(s: Sys, s': Sys)
    requires Inv(s) && StoreNext(s, s') && |s.todo| > 1
    ensures CycleInv(s'.mem, VisIndex(s), VisCycle(s))
    ensures WaitingInv(s'.mem, s.posted, s.deq, VisCount(s) - Waiting(s), Waiting(s))
  {
    assert s.todo[0] == WordWrite(LastIndex(s), 4 - |s.todo|,
      WordOf(Stamp(s.posted[|s.posted| - 1], LastCycle(s)), 4 - |s.todo|));
    forall j {:trigger Entry(|s.mem|, s.deq, j)} | 0 <= j < Waiting(s)
      ensures s'.mem[Entry(|s.mem|, s.deq, j)] == s.mem[Entry(|s.mem|, s.deq, j)]
    {
    }
  }

  lemma StoreCycleKeepsInv(s: Sys, s': Sys)
    requires Inv(s) && StoreNext(s, s') && |s.todo| == 1
    ensures Inv(s')
  {
    var i, e := LastIndex(s), s.posted[|s.posted| - 1];
    assert s.todo[0] == WordWrite(i, 3, StampWord(e.w3, LastCycle(s)));
    assert s'.mem[i] == Stamp(e, LastCycle(s));
    assert Waiting(s') == Waiting(s) + 1;
    forall j {:trigger Entry(|s.mem|, s.deq, j)} | 0 <= j < Waiting(s')
      ensures SameButCycle(s'.mem[Entry(|s.mem|, s.deq, j)], s.posted[VisCount(s') - Waiting(s') + j])
    {
      if j == Waiting(s) {
        assert Entry(|s.mem|, s.deq, j) == i;
      } else {
        assert Entry(|s.mem|, s.deq, j) != i;
      }
    }
  }

  lemma {:induction false} RunKeepsInv(run: seq<Sys>, i: nat)
    requires Run(run) && i < |run|
    ensures Inv(run[i])
  {
    if i == 0 {
      InitInv(run[0]);
    } else {
      RunKeepsInv(run, i - 1);
      var s, s' := run[i - 1], run[(i - 1) + 1];
      assert Next(s, s');
      if event :| Post(s, s', event) {
        PostKeepsInv(s, s', event);
      } else if StoreNext(s, s') {
        if |s.todo| > 1 { StoreWordKeepsInv(s, s'); } else { StoreCycleKeepsInv(s, s'); }
      } else if Dispatch(s, s') {
        DispatchKeepsInv(s, s');
      } else {
        PopKeepsInv(s, s');
      }
    }
  }

  /**
   * In every run the dispatched events are the posted ones, each once and in order, complete; and the entry under
   * the handler is untouched until Pop.
   */
  lemma EveryEventOnceInOrder(run: seq<Sys>, i: nat)
    requires Run(run) && i < |run|
    ensures var s := run[i];
            && |s.dispatched| <= |s.posted|
            && (forall k :: 0 <= k < |s.dispatched| ==> SameButCycle(s.dispatched[k], s.posted[k]))
            && (s.handling ==>
              |s.dispatched| > 0 && s.deq < |s.mem| && s.mem[s.deq] == s.dispatched[|s.dispatched| - 1])
  {
    RunKeepsInv(run, i);
  }

  /** Between events the front is the oldest posted event that was not dispatched. */
  lemma FrontIsOldest(s: Sys)
    requires Inv(s) && !s.handling && HasFront(s)
    ensures |s.dispatched| < |s.posted| && SameButCycle(s.mem[s.deq], s.posted[|s.dispatched|])
  {
    assert Waiting(s) > 0;
    assert Entry(|s.mem|, s.deq, 0) == s.deq;
  }

  /** Between events the ring has a front exactly when a published event is undispatched. */
  lemma FrontExactlyWhenWaiting(s: Sys)
    requires Inv(s) && !s.handling
    ensures HasFront(s) <==> |s.dispatched| < VisCount(s)
  {
  }

  // ---- ProcessEvent in a run ----

  function View(s: Sys): Consumer { Consumer(s.deq, s.ccs, s.dispatched) }

  /** The controller works on while a handler runs. */
  ghost predicate ControllerStep(s: Sys, s': Sys) {
    (exists event :: Post(s, s', event)) || StoreNext(s, s')
  }

  lemma {:induction false} ControllerKeepsView(run: seq<Sys>, i: nat, j: nat)
    requires i <= j < |run| && forall k :: i <= k < j ==> ControllerStep(run[k], run[k + 1])
    ensures View(run[j]) == View(run[i]) && run[j].handling == run[i].handling && |run[j].mem| == |run[i].mem|
    decreases j - i
  {
    if i < j {
      ControllerKeepsView(run, i, j - 1);
      assert ControllerStep(run[j - 1], run[(j - 1) + 1]);
    }
  }

  /**
   * From Dispatch to PopFront a run does what one call of ProcessEvent does, whatever the controller writes meanwhile.
   */
  lemma DispatchThenPop(run: seq<Sys>, i: nat, j: nat)
    requires i < j < |run| - 1 && Dispatch(run[i], run[i + 1]) && PopFront(run[j], run[j + 1])
    requires forall k :: i + 1 <= k < j ==> ControllerStep(run[k], run[k + 1])
    ensures View(run[j + 1]) == Processed(run[i].mem, View(run[i]))
  {
    ControllerKeepsView(run, i + 1, j);
  }

  /** A call that finds no front changes nothing; one that finds it can always take it up and pop it. */
  lemma ProcessedIsStep(s: Sys)
    requires s.deq < |s.mem| && !s.handling
    ensures if HasFront(s)
            then exists mid, s' :: Dispatch(s, mid) && PopFront(mid, s') && View(s') == Processed(s.mem, View(s))
            else View(s) == Processed(s.mem, View(s))
  {
    if HasFront(s) {
      var mid := s.(handling := true, dispatched := s.dispatched + [s.mem[s.deq]]);
      var s' := mid.(handling := false, deq := Succ(|s.mem|, s.deq), ccs := SuccCycle(|s.mem|, s.deq, s.ccs));
      assert Dispatch(s, mid) && PopFront(mid, s');
    }
  }
}
