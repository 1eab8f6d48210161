/**
 * The port protocol behind the event ring: the controller posts an event for every command it executes, for port
 * changes and for transfers, and the event loop takes up what it finds at the front.
 */
module EventDelivery {
  import opened Wrappers
  import opened Trbs
  import opened Rings
  import opened PortConfig
  import opened EventLoops
  import C = CommandRing
  import ER = EventRings
  import P = PortProtocol
  import R = RingProtocol

  /** `events` says what each posted TRB stands for. */
  datatype Joint = Joint(h: P.Host, s: ER.Sys, events: seq<Event>)

  datatype Step =
    | Sweep(port: Byte, regs: PortReadings)
    | PostPort(port: Byte)
    | PostTransfer(event: Event)
    | Complete(slotId: Byte, pointer: Address)      // executes the next command and posts its completion
    | Store                                         // the next store of a post
    | Handle(outcome: TransferOutcome, regs: PortReadings, place: Placement)
    | Pop

  /** A ring of 32 entries that lies in the address space. */
  predicate Placed(r: RingState) {
    |r.mem| == 32 && r.base % 16 == 0 && r.base + 512 <= 0x1_0000_0000_0000_0000
  }

  predicate Init(j: Joint) {
    P.Init(j.h) && Placed(j.h.d.ring) && ER.Init(j.s) && j.events == []
  }

  predicate Posts(j: Joint, e: Event, j': Joint) {
    Posted(e) && ER.Post(j.s, j'.s, EventTrb(e)) && j'.events == j.events + [e]
  }

  /** The event loop takes up the event at the front; its handler gets what it reads of the TRB. */
  function AfterEvent(h: P.Host, e: Event, outcome: TransferOutcome, regs: PortReadings, place: Placement): P.Host
    requires DriverOk(h.d) && EventOk(h.d, e)
  {
    var d := Handled(h.d, e, outcome, regs, place).0;
    if e.CommandCompletionEvent? && h.results != [] then P.Host(d, h.done + 1, h.results[1..]) else h.(d := d)
  }

  /** What the event loop relies on: a completion that points into the command ring. */
  predicate Safe(j: Joint) {
    DriverOk(j.h.d) && (ER.HasFront(j.s) ==> EventOk(j.h.d, EventOf(j.s.mem[j.s.deq])))
  }

  predicate Next(j: Joint, maxPorts: Byte, step: Step, j': Joint) {
    match step
    case Sweep(port, regs) =>
      && P.Enabled(j.h, maxPorts, P.Sweep(port, regs))
      && j' == j.(h := P.After(j.h, maxPorts, P.Sweep(port, regs)))
    case PostPort(port) => 1 <= port <= maxPorts && j'.h == j.h && Posts(j, PortStatusChangeEvent(port), j')
    case PostTransfer(e) => e.TransferEvent? && j'.h == j.h && Posts(j, e, j')
    case Complete(slotId, pointer) =>
      && P.Enabled(j.h, maxPorts, P.Execute(slotId))
      && pointer == j.h.d.ring.base + 16 * j.h.d.issued[j.h.done + |j.h.results|].index
      && j'.h == P.After(j.h, maxPorts, P.Execute(slotId)) && Posts(j, CommandCompletionEvent(slotId, pointer), j')
    case Store => j' == j.(s := j'.s) && ER.StoreNext(j.s, j'.s)
    case Handle(outcome, regs, place) =>
      && Safe(j) && ER.Dispatch(j.s, j'.s) && j'.events == j.events
      && j'.h == AfterEvent(j.h, EventOf(j.s.mem[j.s.deq]), outcome, regs, place)
    case Pop => j' == j.(s := j'.s) && ER.PopFront(j.s, j'.s)
  }

  ghost predicate Run(js: seq<Joint>, steps: seq<Step>, maxPorts: Byte) {
    && |js| == |steps| + 1 && Init(js[0])
    && forall i :: 0 <= i < |steps| ==> Next(js[i], maxPorts, steps[i], js[i + 1])
  }

  // ---- invariant ----

  function Completions(events: seq<Event>): seq<Event> {
    if events == [] then []
    else (if events[0].CommandCompletionEvent? then [events[0]] else []) + Completions(events[1..])
  }

  /** The completions not yet taken up are those of the commands executed and not yet completed, in order. */
  predicate Queued(h: P.Host, cs: seq<Event>) {
    && |cs| == |h.results| && h.done + |cs| <= |h.d.issued|
    && forall k :: 0 <= k < |cs| ==>
         && cs[k].CommandCompletionEvent? && cs[k].slotId == h.results[k]
         && cs[k].pointer == h.d.ring.base + 16 * h.d.issued[h.done + k].index
  }

  predicate EventsOk(events: seq<Event>, posted: seq<Trb>, maxPorts: Byte) {
    && |events| == |posted|
    && forall i :: 0 <= i < |events| ==>
         && Posted(events[i]) && posted[i] == EventTrb(events[i])
         && (events[i].PortStatusChangeEvent? ==> 1 <= events[i].portId <= maxPorts)
  }

  ghost predicate Inv(j: Joint, maxPorts: Byte) {
    && P.Inv(j.h, maxPorts) && Placed(j.h.d.ring) && ER.Inv(j.s) && EventsOk(j.events, j.s.posted, maxPorts)
    && |j.s.dispatched| <= |j.events| && Queued(j.h, Completions(j.events[|j.s.dispatched|..]))
  }

  lemma InitInv(j: Joint, maxPorts: Byte)
    requires Init(j)
    ensures Inv(j, maxPorts)
  {
    P.InitInv(j.h, maxPorts);
    ER.InitInv(j.s);
  }

  // ---- posting ----

  lemma {:induction false} CompletionsGrow(events: seq<Event>, e: Event)
    ensures Completions(events + [e]) == Completions(events) + if e.CommandCompletionEvent? then [e] else []
  {
    if events == [] {
      assert [e][1..] == [] && events + [e] == [e];
    } else {
      CompletionsGrow(events[1..], e);
      assert (events + [e])[1..] == events[1..] + [e];
    }
  }

  lemma PostKeepsRing(j: Joint, maxPorts: Byte, e: Event, j': Joint)
    requires Inv(j, maxPorts) && Posts(j, e, j') && (e.PortStatusChangeEvent? ==> 1 <= e.portId <= maxPorts)
    ensures ER.Inv(j'.s) && EventsOk(j'.events, j'.s.posted, maxPorts) && j'.s.dispatched == j.s.dispatched
    ensures Completions(j'.events[|j.s.dispatched|..]) ==
              Completions(j.events[|j.s.dispatched|..]) + if e.CommandCompletionEvent? then [e] else []
  {
    hide P.Inv, ER.Inv, Placed, Queued, Completions, EventTrb, Posted, TrbWrites, Stamp;
    ER.PostKeepsInv(j.s, j'.s, EventTrb(e));
    CompletionsGrow(j.events[|j.s.dispatched|..], e);
    assert j'.events[|j.s.dispatched|..] == j.events[|j.s.dispatched|..] + [e];
  }

  /** A handler or a command moves no entry of the log and does not move the command ring. */
  predicate SameRing(h: P.Host, h': P.Host) {
    h'.d.ring.base == h.d.ring.base && |h'.d.ring.mem| == |h.d.ring.mem| && h.d.issued <= h'.d.issued
  }

  lemma StepKeepsRing(h: P.Host, maxPorts: Byte, hs: P.Step)
    requires P.Enabled(h, maxPorts, hs)
    ensures SameRing(h, P.After(h, maxPorts, hs))
  {
    hide P.After;
    C.DriverIssuesOne(h, maxPorts, hs);
    var d, d' := h.d, P.After(h, maxPorts, hs).d;
    if |d'.issued| == |d.issued| + 1 { assert d'.issued == d.issued + [d'.issued[|d.issued|]]; }
  }

  lemma QueuedStays(h: P.Host, h': P.Host, cs: seq<Event>)
    requires Queued(h, cs) && SameRing(h, h') && h'.done == h.done && h'.results == h.results
    ensures Queued(h', cs)
  {
  }

  lemma QueuedGrows(h: P.Host, h': P.Host, cs: seq<Event>, c: Event)
    requires Queued(h, cs) && SameRing(h, h') && h'.done == h.done && c.CommandCompletionEvent?
    requires h.done + |h.results| < |h.d.issued| && h'.results == h.results + [c.slotId]
    requires c.pointer == h.d.ring.base + 16 * h.d.issued[h.done + |h.results|].index
    ensures Queued(h', cs + [c])
  {
  }

  lemma PostKeepsInv(j: Joint, maxPorts: Byte, step: Step, j': Joint)
    requires Inv(j, maxPorts) && Next(j, maxPorts, step, j') && (step.PostPort? || step.PostTransfer?)
    ensures Inv(j', maxPorts)
  {
    hide P.Inv, ER.Inv, Placed, Queued, Completions, ER.Post;
    var e := if step.PostPort? then PortStatusChangeEvent(step.port) else step.event;
    PostKeepsRing(j, maxPorts, e, j');
    var cs := Completions(j.events[|j.s.dispatched|..]);
    assert cs + [] == cs;
  }

  lemma CompleteKeepsInv(j: Joint, maxPorts: Byte, step: Step, j': Joint)
    requires Inv(j, maxPorts) && Next(j, maxPorts, step, j') && step.Complete?
    ensures Inv(j', maxPorts)
  {
    hide P.Inv, ER.Inv, Queued, Completions, ER.Post;
    var e := CommandCompletionEvent(step.slotId, step.pointer);
    P.StepKeepsInv(j.h, maxPorts, P.Execute(step.slotId));
    StepKeepsRing(j.h, maxPorts, P.Execute(step.slotId));
    PostKeepsRing(j, maxPorts, e, j');
    QueuedGrows(j.h, j'.h, Completions(j.events[|j.s.dispatched|..]), e);
  }

  lemma SweepKeepsInv(j: Joint, maxPorts: Byte, step: Step, j': Joint)
    requires Inv(j, maxPorts) && Next(j, maxPorts, step, j') && step.Sweep?
    ensures Inv(j', maxPorts)
  {
    hide P.Inv, ER.Inv, Queued, Completions;
    P.StepKeepsInv(j.h, maxPorts, P.Sweep(step.port, step.regs));
    StepKeepsRing(j.h, maxPorts, P.Sweep(step.port, step.regs));
    QueuedStays(j.h, j'.h, Completions(j.events[|j.s.dispatched|..]));
  }

  lemma RingKeepsInv(j: Joint, maxPorts: Byte, step: Step, j': Joint)
    requires Inv(j, maxPorts) && Next(j, maxPorts, step, j') && (step.Store? || step.Pop?)
    ensures Inv(j', maxPorts)
  {
    hide P.Inv, Placed, Queued, Completions, ER.Inv;
    if step.Pop? {
      ER.PopKeepsInv(j.s, j'.s);
    } else if |j.s.todo| > 1 {
      ER.StoreWordKeepsInv(j.s, j'.s);
    } else {
      ER.StoreCycleKeepsInv(j.s, j'.s);
    }
  }

  // ---- taking up an event ----

  /** The step of the port protocol that an event stands for. */
  function StepFor(e: Event, outcome: TransferOutcome, regs: PortReadings, place: Placement): P.Step
    requires !e.OtherEvent?
  {
    match e
    case TransferEvent(slotId, _, _, _, _) => P.Transfer(slotId, outcome, regs)
    case CommandCompletionEvent(_, _) => P.Completion(regs, place)
    case PortStatusChangeEvent(portId) => P.PortStatus(portId, regs)
  }

  /** The front is the first event not yet taken up. */
  lemma FrontIsNext(j: Joint, maxPorts: Byte)
    requires Inv(j, maxPorts) && !j.s.handling && ER.HasFront(j.s)
    ensures |j.s.dispatched| < |j.events| && EventOf(j.s.mem[j.s.deq]) == j.events[|j.s.dispatched|]
  {
    hide P.Inv, Placed, Queued, Completions, ER.Inv, EventOf, EventTrb, Posted;
    ER.FrontIsOldest(j.s);
    EventRoundTrip(j.events[|j.s.dispatched|], j.s.mem[j.s.deq]);
  }

  /** The first completion waiting is that of the command that completes next. */
  lemma CompletionIsNext(h: P.Host, maxPorts: Byte, events: seq<Event>, n: nat)
    requires P.Inv(h, maxPorts) && Placed(h.d.ring) && n < |events| && events[n].CommandCompletionEvent?
    requires Queued(h, Completions(events[n..]))
    ensures h.results != [] && h.done < |h.d.issued| && events[n].slotId == h.results[0]
    ensures events[n].pointer == h.d.ring.base + 16 * h.d.issued[h.done].index && EventOk(h.d, events[n])
    ensures IndexOf(h.d.ring, events[n].pointer) == h.d.issued[h.done].index
  {
    hide P.Inv, Placed;
    assert events[n..][0] == events[n];
    assert Completions(events[n..])[0] == events[n];
    P.IssuerReadBack(h, maxPorts);
    ER.MultipleStays(h.d.issued[h.done].index);
  }

  lemma CompletionsTail(events: seq<Event>, n: nat)
    requires n < |events|
    ensures Completions(events[n..]) ==
              (if events[n].CommandCompletionEvent? then [events[n]] else []) + Completions(events[n + 1..])
  {
    assert events[n..][1..] == events[n + 1..];
  }

  /** Whatever the front is, its handler can run, and does exactly what the step of the event does. */
  lemma EventIsStep(h: P.Host, maxPorts: Byte, events: seq<Event>, n: nat, outcome: TransferOutcome, regs: PortReadings,
          place: Placement)
    requires P.Inv(h, maxPorts) && Placed(h.d.ring) && n < |events| && Posted(events[n])
    requires Queued(h, Completions(events[n..]))
    requires events[n].PortStatusChangeEvent? ==> 1 <= events[n].portId <= maxPorts
    ensures DriverOk(h.d) && EventOk(h.d, events[n])
    ensures var hs := StepFor(events[n], outcome, regs, place);
            P.Enabled(h, maxPorts, hs) && AfterEvent(h, events[n], outcome, regs, place) == P.After(h, maxPorts, hs)
  {
    hide Placed, Completions, Queued, PortConfig.OnTransferEvent, PortConfig.OnCommandCompletion,
      PortConfig.OnPortStatusChange;
    if events[n].CommandCompletionEvent? {
      CompletionIsNext(h, maxPorts, events, n);
      P.IssuerReadBack(h, maxPorts);
    }
  }

  lemma HandleKeepsQueue(h: P.Host, maxPorts: Byte, events: seq<Event>, n: nat, outcome: TransferOutcome,
          regs: PortReadings, place: Placement)
    requires P.Inv(h, maxPorts) && Placed(h.d.ring) && n < |events| && Posted(events[n])
    requires Queued(h, Completions(events[n..]))
    requires events[n].PortStatusChangeEvent? ==> 1 <= events[n].portId <= maxPorts
    ensures DriverOk(h.d) && EventOk(h.d, events[n])
    ensures Queued(AfterEvent(h, events[n], outcome, regs, place), Completions(events[n + 1..]))
  {
    hide P.Inv, P.After, Placed, Completions, Handled;
    EventIsStep(h, maxPorts, events, n, outcome, regs, place);
    var hs := StepFor(events[n], outcome, regs, place);
    StepKeepsRing(h, maxPorts, hs);
    CompletionsTail(events, n);
    if events[n].CommandCompletionEvent? {
      CompletionIsNext(h, maxPorts, events, n);
      var h', cs := AfterEvent(h, events[n], outcome, regs, place), Completions(events[n..]);
      assert Completions(events[n + 1..]) == cs[1..];
      forall k | 0 <= k < |cs| - 1
        ensures cs[1..][k] == cs[k + 1] && h'.d.issued[h'.done + k] == h.d.issued[h.done + (k + 1)]
      {
      }
    } else {
      assert [] + Completions(events[n + 1..]) == Completions(events[n + 1..]);
      QueuedStays(h, AfterEvent(h, events[n], outcome, regs, place), Completions(events[n + 1..]));
    }
  }

  lemma HandleKeepsInv(j: Joint, maxPorts: Byte, step: Step, j': Joint)
    requires Inv(j, maxPorts) && Next(j, maxPorts, step, j') && step.Handle?
    ensures Inv(j', maxPorts)
  {
    hide P.Inv, P.After, P.Enabled, ER.Inv, Completions, Queued, EventOf, Handled, EventOk, DriverOk;
    var n := |j.s.dispatched|;
    FrontIsNext(j, maxPorts);
    EventIsStep(j.h, maxPorts, j.events, n, step.outcome, step.regs, step.place);
    var hs := StepFor(j.events[n], step.outcome, step.regs, step.place);
    P.StepKeepsInv(j.h, maxPorts, hs);
    StepKeepsRing(j.h, maxPorts, hs);
    ER.DispatchKeepsInv(j.s, j'.s);
    HandleKeepsQueue(j.h, maxPorts, j.events, n, step.outcome, step.regs, step.place);
  }

  lemma StepKeepsInv(j: Joint, maxPorts: Byte, step: Step, j': Joint)
    requires Inv(j, maxPorts) && Next(j, maxPorts, step, j')
    ensures Inv(j', maxPorts)
  {
    hide Inv, Next;
    match step
    case Sweep(_, _) => SweepKeepsInv(j, maxPorts, step, j');
    case Complete(_, _) => CompleteKeepsInv(j, maxPorts, step, j');
    case Handle(_, _, _) => HandleKeepsInv(j, maxPorts, step, j');
    case PostPort(_) => PostKeepsInv(j, maxPorts, step, j');
    case PostTransfer(_) => PostKeepsInv(j, maxPorts, step, j');
    case Store => RingKeepsInv(j, maxPorts, step, j');
    case Pop => RingKeepsInv(j, maxPorts, step, j');
  }

  lemma {:induction false} RunKeepsInv(js: seq<Joint>, steps: seq<Step>, maxPorts: Byte, i: nat)
    requires Run(js, steps, maxPorts) && i < |js|
    ensures Inv(js[i], maxPorts)
  {
    hide Inv, Init, Next;
    if i == 0 {
      InitInv(js[0], maxPorts);
    } else {
      RunKeepsInv(js, steps, maxPorts, i - 1);
      StepKeepsInv(js[i - 1], maxPorts, steps[i - 1], js[(i - 1) + 1]);
    }
  }

  // ---- what every run guarantees ----

  /** In no run does the event loop find a completion that points outside the command ring. */
  lemma EveryFrontIsSafe(js: seq<Joint>, steps: seq<Step>, maxPorts: Byte, i: nat)
    requires Run(js, steps, maxPorts) && i < |js| && !js[i].s.handling
    ensures Safe(js[i])
  {
    hide P.Inv, ER.Inv, Completions, Queued, EventOf, Run;
    var j := js[i];
    RunKeepsInv(js, steps, maxPorts, i);
    P.InvGivesDriverOk(j.h, maxPorts);
    if ER.HasFront(j.s) {
      FrontIsNext(j, maxPorts);
      var any, none := TransferOutcome(Success, false), Placement(0, 0);
      var regs := seq(PORTS, _ => PortRegisters(false, false, false, 0));
      EventIsStep(j.h, maxPorts, j.events, |j.s.dispatched|, any, regs, none);
    }
  }

  /**
   * In every run the k-th event taken up is the k-th posted, and its handler does exactly the step that the event
   * stands for: a port change for its port, a transfer for its slot, a completion for the command that completes next.
   */
  lemma EveryHandlerIsItsStep(js: seq<Joint>, steps: seq<Step>, maxPorts: Byte, i: nat)
    requires Run(js, steps, maxPorts) && i < |steps| && steps[i].Handle?
    ensures var j, k := js[i], |js[i].s.dispatched|;
            && k < |j.events| && !j.events[k].OtherEvent? && j.s.deq < |j.s.mem|
            && EventOf(j.s.mem[j.s.deq]) == j.events[k]
            && var hs := StepFor(j.events[k], steps[i].outcome, steps[i].regs, steps[i].place);
               P.Enabled(j.h, maxPorts, hs) && js[i + 1].h == P.After(j.h, maxPorts, hs)
  {
    hide P.Inv, ER.Inv, P.After, P.Enabled, Completions, Queued, EventOf, Handled;
    var j := js[i];
    RunKeepsInv(js, steps, maxPorts, i);
    assert Next(j, maxPorts, steps[i], js[i + 1]);
    FrontIsNext(j, maxPorts);
    EventIsStep(j.h, maxPorts, j.events, |j.s.dispatched|, steps[i].outcome, steps[i].regs, steps[i].place);
  }
}
