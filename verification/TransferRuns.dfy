/** Runs of one slot's transfers: requests, interrupt transfers and events in any order, on any endpoints. */
module TransferRuns {
  import opened Wrappers
  import opened Trbs
  import opened Rings
  import opened ArrayMaps
  import opened Transfers
  import opened RequestMatching

  /** What an event for request number `id` led to. */
  datatype Answer = Answer(id: nat, code: nat, residual: nat, up: Upcall)

  /**
   * `issued` are all control requests so far; those whose event is still to come are `flight`, with their numbers in
   * `ids`; `stale` counts failed ones; `answers` records the events.  `asked`, `polls`, `pollIds` and `reports` are the
   * same for interrupt transfers.
   */
  datatype Sys = Sys(
    d: DeviceState, flight: seq<InFlight>, ids: seq<nat>, stale: nat, issued: seq<Request>, answers: seq<Answer>,
    polls: seq<PollOut>, pollIds: seq<nat>, asked: seq<(Address, nat)>, reports: seq<Answer>)

  datatype Step =
    | Submit(address: int, request: Request)                 // ControlIn, ControlOut
    | Poll(address: int, buf: Address, len: nat)             // InterruptIn
    | Report(i: nat, code: nat, residual: nat)               // an event for an interrupt transfer that is out
    | Event(i: nat, code: nat, residual: nat)                // an event for a request in flight

  predicate Init(s: Sys) {
    && DeviceOk(s.d) && Used(s.d.setupMap) == 0
    && s.flight == [] && s.ids == [] && s.stale == 0 && s.issued == [] && s.answers == []
    && s.polls == [] && s.pollIds == [] && s.asked == [] && s.reports == []
  }

  /** Requests are made within the capacity of map and rings; events name TRBs that are out. */
  predicate Enabled(s: Sys, step: Step) {
    && DeviceOk(s.d)
    && match step
       case Submit(address, r) =>
         && 1 <= address <= RINGS && s.d.rings[address - 1].Some? && |s.flight| + s.stale < |s.d.setupMap|
         && |RequestTrbs(r)| <= |s.d.rings[address - 1].value.mem| - 1
         && RoomFor(s.d, s.flight, address, |RequestTrbs(r)|) && PollRoom(s.d, s.polls, address, |RequestTrbs(r)|)
       case Poll(address, _, _) =>
         && 1 <= address <= RINGS && s.d.rings[address - 1].Some?
         && RoomFor(s.d, s.flight, address, 1) && PollRoom(s.d, s.polls, address, 1)
       case Report(i, _, _) => i < |s.polls| && i < |s.pollIds|
       case Event(i, _, _) => i < |s.flight| && i < |s.ids|
  }

  /** Every pointer that the handler of an event follows leads into a ring. */
  predicate Safe(s: Sys, step: Step)
    requires Enabled(s, step)
  {
    match step
    case Event(i, _, _) => PtrOk(s.d, s.flight[i].key) && MapOk(s.d)
    case Report(i, _, _) => PtrOk(s.d, s.polls[i].ptr) && MapOk(s.d)
    case _ => true
  }

  function WithoutId(ids: seq<nat>, i: nat): seq<nat>
    requires i < |ids|
  {
    ids[..i] + ids[i + 1..]
  }

  predicate Good(code: nat) { code == CODE_SUCCESS || code == CODE_SHORT_PACKET }

  function After(s: Sys, step: Step): Sys
    requires Enabled(s, step) && Safe(s, step)
  {
    match step
    case Submit(address, r) =>
      s.(d := Control(s.d, address, r).0, flight := s.flight + [NewFlight(s.d.rings[address - 1].value, address, r)],
         ids := s.ids + [|s.issued|], issued := s.issued + [r])
    case Poll(address, buf, len) =>
      s.(d := PushInterrupt(s.d, address, buf, len).0, polls := s.polls + [NewPoll(s.d, address, buf, len)],
         pollIds := s.pollIds + [|s.asked|], asked := s.asked + [(buf, len)])
    case Report(i, code, residual) =>
      var (d', up) := OnTransferEvent(s.d, s.polls[i].ptr, code, residual);
      s.(d := d', polls := s.polls[..i] + s.polls[i + 1..], pollIds := WithoutId(s.pollIds, i),
         reports := s.reports + [Answer(s.pollIds[i], code, residual, up)])
    case Event(i, code, residual) =>
      var (d', up) := OnTransferEvent(s.d, s.flight[i].key, code, residual);
      s.(d := d', flight := Without(s.flight, i), ids := WithoutId(s.ids, i),
         stale := if Good(code) then s.stale else s.stale + 1,
         answers := s.answers + [Answer(s.ids[i], code, residual, up)])
  }

  predicate Next(s: Sys, step: Step, s': Sys) {
    Enabled(s, step) && Safe(s, step) && s' == After(s, step)
  }

  ghost predicate Run(ss: seq<Sys>, steps: seq<Step>) {
    && |ss| == |steps| + 1 && Init(ss[0])
    && forall i :: 0 <= i < |steps| ==> Next(ss[i], steps[i], ss[i + 1])
  }

  // ---- invariant ----

  /** The event was answered with the data of its own request. */
  predicate AnswerOk(issued: seq<Request>, a: Answer) {
    && a.id < |issued|
    && var r := issued[a.id];
       a.up == if Good(a.code) then ControlCompleted(r.setup, r.buf, Transferred(r, a.residual))
         else Failed(TransferFailed)
  }

  predicate Numbered(flight: seq<InFlight>, ids: seq<nat>, issued: seq<Request>) {
    |ids| == |flight| && forall i :: 0 <= i < |flight| ==> ids[i] < |issued| && flight[i].request == issued[ids[i]]
  }

  /** Each request is outstanding or was answered, and only once. */
  ghost predicate Accounted(ids: seq<nat>, answers: seq<Answer>, count: nat) {
    && |ids| + |answers| == count
    && (forall i :: 0 <= i < |ids| ==> ids[i] < count)
    && (forall i :: 0 <= i < |answers| ==> answers[i].id < count)
    && (forall i, j :: 0 <= i < j < |ids| ==> ids[i] != ids[j])
    && (forall i, j :: 0 <= i < j < |answers| ==> answers[i].id != answers[j].id)
    && (forall i, j :: 0 <= i < |ids| && 0 <= j < |answers| ==> ids[i] != answers[j].id)
  }

  /** The event was answered with the buffer and the length of its own transfer. */
  predicate ReportOk(asked: seq<(Address, nat)>, a: Answer) {
    && a.id < |asked|
    && a.up == if Good(a.code) then InterruptCompleted(asked[a.id].0, asked[a.id].1 % 0x20000 - a.residual)
               else Failed(TransferFailed)
  }

  predicate PollsNumbered(polls: seq<PollOut>, ids: seq<nat>, asked: seq<(Address, nat)>) {
    && |ids| == |polls|
    && forall i :: 0 <= i < |polls| ==> ids[i] < |asked| && asked[ids[i]] == (polls[i].buf, polls[i].len)
  }

  predicate ReportsOk(reports: seq<Answer>, asked: seq<(Address, nat)>) {
    forall j :: 0 <= j < |reports| ==> ReportOk(asked, reports[j])
  }

  ghost predicate PollsInv(s: Sys) {
    && DeviceOk(s.d) && PollsOk(s.d, s.polls) && PollsNumbered(s.polls, s.pollIds, s.asked)
    && Accounted(s.pollIds, s.reports, |s.asked|) && ReportsOk(s.reports, s.asked)
  }

  predicate AnswersOk(answers: seq<Answer>, issued: seq<Request>) {
    forall j :: 0 <= j < |answers| ==> AnswerOk(issued, answers[j])
  }

  /** Events that reported a failure. */
  function Failures(answers: seq<Answer>): nat {
    if answers == [] then 0
    else Failures(answers[..|answers| - 1]) + if Good(answers[|answers| - 1].code) then 0 else 1
  }

  ghost predicate Inv(s: Sys) {
    && s.stale == Failures(s.answers) && Match(s.d, s.flight, s.stale) && Numbered(s.flight, s.ids, s.issued)
    && Accounted(s.ids, s.answers, |s.issued|) && AnswersOk(s.answers, s.issued) && PollsInv(s)
  }

  lemma InitInv(s: Sys)
    requires Init(s)
    ensures Inv(s)
  {
    forall k | 0 <= k < |s.d.setupMap| ensures s.d.setupMap[k].key.None? {
      UnusedIsEmpty(s.d.setupMap, k);
    }
  }

  /** A new request gets the next number. */
  lemma OneMoreNumber(ids: seq<nat>, answers: seq<Answer>, count: nat)
    requires Accounted(ids, answers, count)
    ensures Accounted(ids + [count], answers, count + 1)
  {
  }

  lemma SubmitKeepsPolls(s: Sys, address: int, r: Request)
    requires PollsInv(s) && Enabled(s, Submit(address, r))
    ensures PollsInv(After(s, Submit(address, r)))
  {
    hide Accounted, ReportsOk, PollOk, RoomFor, Inserted;
    PollsStay(s.d, s.polls, address, RequestTrbs(r));
    PollsIgnoreMap(WithRing(s.d, address, PushedAll(s.d.rings[address - 1].value, RequestTrbs(r))),
                   After(s, Submit(address, r)).d, s.polls);
  }

  lemma PollsIgnoreMap(d: DeviceState, d': DeviceState, polls: seq<PollOut>)
    requires DeviceOk(d) && PollsOk(d, polls) && d'.rings == d.rings
    ensures DeviceOk(d') && PollsOk(d', polls)
  {
    forall i | 0 <= i < |polls| ensures PollOk(d', polls[i]) {
      assert PollOk(d, polls[i]);
    }
  }

  lemma SubmitKeepsInv(s: Sys, address: int, r: Request)
    requires Inv(s) && Enabled(s, Submit(address, r))
    ensures Inv(After(s, Submit(address, r)))
  {
    hide Match, Control, RoomFor, PollRoom, PollsInv, Accounted;
    ControlKeepsMatch(s.d, s.flight, s.stale, address, r);
    SubmitKeepsPolls(s, address, r);
    OneMoreNumber(s.ids, s.answers, |s.issued|);
    var s' := After(s, Submit(address, r));
    forall j | 0 <= j < |s'.answers| ensures AnswerOk(s'.issued, s'.answers[j]) && s'.answers[j].id < |s.issued| {
      assert AnswerOk(s.issued, s.answers[j]);
    }
  }

  /** Taking one number out of those outstanding. */
  lemma AnsweredOnce(ids: seq<nat>, answers: seq<Answer>, count: nat, i: nat, a: Answer)
    requires Accounted(ids, answers, count) && i < |ids| && a.id == ids[i]
    ensures Accounted(WithoutId(ids, i), answers + [a], count)
  {
    var rest := WithoutId(ids, i);
    forall j | 0 <= j < |rest| ensures rest[j] == ids[if j < i then j else j + 1] && rest[j] != a.id {
    }
  }

  lemma StillNumbered(flight: seq<InFlight>, ids: seq<nat>, issued: seq<Request>, i: nat)
    requires Numbered(flight, ids, issued) && i < |flight|
    ensures Numbered(Without(flight, i), WithoutId(ids, i), issued)
  {
  }

  /** The event of a request in flight is answered with that request's data. */
  lemma EventIsAnswered(s: Sys, i: nat, code: nat, residual: nat)
    requires Match(s.d, s.flight, s.stale) && Numbered(s.flight, s.ids, s.issued) && i < |s.flight|
    ensures PtrOk(s.d, s.flight[i].key) && MapOk(s.d)
    ensures var (d', up) := OnTransferEvent(s.d, s.flight[i].key, code, residual);
            && Match(d', Without(s.flight, i), if Good(code) then s.stale else s.stale + 1) && d'.rings == s.d.rings
            && AnswerOk(s.issued, Answer(s.ids[i], code, residual, up))
  {
    hide Match;
    if Good(code) {
      EventFindsItsRequest(s.d, s.flight, s.stale, i, code, residual);
    } else {
      FailureLeavesEntry(s.d, s.flight, s.stale, i, code, residual);
    }
  }

  lemma AnswersGrow(answers: seq<Answer>, a: Answer, issued: seq<Request>)
    requires AnswersOk(answers, issued) && AnswerOk(issued, a)
    ensures AnswersOk(answers + [a], issued)
    ensures Failures(answers + [a]) == Failures(answers) + if Good(a.code) then 0 else 1
  {
    assert (answers + [a])[..|answers|] == answers;
  }

  lemma EventKeepsInv(s: Sys, i: nat, code: nat, residual: nat)
    requires Inv(s) && Enabled(s, Event(i, code, residual))
    ensures Safe(s, Event(i, code, residual)) && Inv(After(s, Event(i, code, residual)))
  {
    hide Match, Accounted, Numbered, AnswersOk, AnswerOk, Failures, OnTransferEvent, Good, PollsOk, PollsNumbered,
      ReportsOk;
    FlightIsNumbered(s.flight, s.ids, s.issued);
    EventIsAnswered(s, i, code, residual);
    var a := Answer(s.ids[i], code, residual, OnTransferEvent(s.d, s.flight[i].key, code, residual).1);
    AnsweredOnce(s.ids, s.answers, |s.issued|, i, a);
    PollsIgnoreMap(s.d, OnTransferEvent(s.d, s.flight[i].key, code, residual).0, s.polls);
    StillNumbered(s.flight, s.ids, s.issued, i);
    AnswersGrow(s.answers, a, s.issued);
  }

  lemma FlightIsNumbered(flight: seq<InFlight>, ids: seq<nat>, issued: seq<Request>)
    requires Numbered(flight, ids, issued)
    ensures |ids| == |flight|
  {
  }

  lemma PollKeepsInv(s: Sys, address: int, buf: Address, len: nat)
    requires Inv(s) && Enabled(s, Poll(address, buf, len))
    ensures Inv(After(s, Poll(address, buf, len)))
  {
    hide Match, PushInterrupt, RoomFor, PollRoom, Accounted, PollsOk, Numbered, AnswersOk, Failures;
    InterruptKeepsMatch(s.d, s.flight, s.stale, address, buf, len);
    InterruptJoins(s.d, s.polls, address, buf, len);
    OneMoreNumber(s.pollIds, s.reports, |s.asked|);
    var s' := After(s, Poll(address, buf, len));
    forall j | 0 <= j < |s'.reports| ensures ReportOk(s'.asked, s'.reports[j]) {
      assert ReportOk(s.asked, s.reports[j]);
    }
  }

  lemma PollIsAnswered(s: Sys, i: nat, code: nat, residual: nat)
    requires PollsInv(s) && MapOk(s.d) && i < |s.polls|
    ensures PtrOk(s.d, s.polls[i].ptr)
    ensures var (d', up) := OnTransferEvent(s.d, s.polls[i].ptr, code, residual);
            d' == s.d && ReportOk(s.asked, Answer(s.pollIds[i], code, residual, up))
  {
    hide Accounted, ReportsOk, OnTransferEvent;
    assert PollOk(s.d, s.polls[i]);
    EventFindsItsPoll(s.d, s.polls[i], code, residual);
  }

  lemma PollsWithout(d: DeviceState, polls: seq<PollOut>, ids: seq<nat>, asked: seq<(Address, nat)>, i: nat)
    requires DeviceOk(d) && PollsOk(d, polls) && PollsNumbered(polls, ids, asked) && i < |polls|
    ensures PollsOk(d, polls[..i] + polls[i + 1..])
    ensures PollsNumbered(polls[..i] + polls[i + 1..], WithoutId(ids, i), asked)
  {
    var rest := polls[..i] + polls[i + 1..];
    forall j | 0 <= j < |rest| ensures PollOk(d, rest[j]) {
      assert rest[j] == polls[if j < i then j else j + 1];
    }
  }

  lemma ReportKeepsInv(s: Sys, i: nat, code: nat, residual: nat)
    requires Inv(s) && Enabled(s, Report(i, code, residual))
    ensures Safe(s, Report(i, code, residual)) && Inv(After(s, Report(i, code, residual)))
  {
    hide Match, Accounted, Numbered, AnswersOk, Failures, OnTransferEvent, PollsOk, PollsNumbered, ReportOk;
    MatchGivesMapOk(s.d, s.flight, s.stale);
    PollIsAnswered(s, i, code, residual);
    var a := Answer(s.pollIds[i], code, residual, OnTransferEvent(s.d, s.polls[i].ptr, code, residual).1);
    AnsweredOnce(s.pollIds, s.reports, |s.asked|, i, a);
    PollsWithout(s.d, s.polls, s.pollIds, s.asked, i);
  }

  lemma StepKeepsInv(s: Sys, step: Step)
    requires Inv(s) && Enabled(s, step)
    ensures Safe(s, step) && Inv(After(s, step))
  {
    hide Inv, After;
    match step
    case Submit(address, r) => SubmitKeepsInv(s, address, r);
    case Poll(address, buf, len) => PollKeepsInv(s, address, buf, len);
    case Report(i, code, residual) => ReportKeepsInv(s, i, code, residual);
    case Event(i, code, residual) => EventKeepsInv(s, i, code, residual);
  }

  lemma {:induction false} RunKeepsInv(ss: seq<Sys>, steps: seq<Step>, i: nat)
    requires Run(ss, steps) && i < |ss|
    ensures Inv(ss[i])
  {
    hide Inv, Init, Enabled, Safe, After;
    if i == 0 {
      InitInv(ss[0]);
    } else {
      RunKeepsInv(ss, steps, i - 1);
      assert Next(ss[i - 1], steps[i - 1], ss[(i - 1) + 1]);
      StepKeepsInv(ss[i - 1], steps[i - 1]);
    }
  }

  // ---- what every run guarantees ----

  /** In no run does an event lead the handler to a pointer outside the rings. */
  lemma EveryEventSafe(ss: seq<Sys>, steps: seq<Step>, step: Step)
    requires Run(ss, steps) && Enabled(ss[|steps|], step)
    ensures Safe(ss[|steps|], step)
  {
    RunKeepsInv(ss, steps, |steps|);
    StepKeepsInv(ss[|steps|], step);
  }

  /**
   * Whatever was requested on whatever endpoints, and whatever failed before: each request is still outstanding or has
   * been answered exactly once, a good event with the setup data, buffer and length of its own request, a bad one with
   * kTransferFailed.
   */
  lemma EveryRequestAnsweredOnce(ss: seq<Sys>, steps: seq<Step>, i: nat)
    requires Run(ss, steps) && i < |ss|
    ensures var s := ss[i];
            && |s.issued| == |s.flight| + |s.answers|
            && (forall j, k :: 0 <= j < k < |s.answers| ==> s.answers[j].id != s.answers[k].id)
            && (forall j, k :: 0 <= j < |s.ids| && 0 <= k < |s.answers| ==> s.ids[j] != s.answers[k].id)
            && (forall j :: 0 <= j < |s.answers| ==> AnswerOk(s.issued, s.answers[j]))
  {
    RunKeepsInv(ss, steps, i);
  }

  /**
   * The same for interrupt transfers: each is still out or was reported exactly once, by a good event with its own
   * buffer and, when its length is below 2^17, with that length less the residue.
   */
  lemma EveryPollReportedOnce(ss: seq<Sys>, steps: seq<Step>, i: nat)
    requires Run(ss, steps) && i < |ss|
    ensures var s := ss[i];
            && |s.asked| == |s.polls| + |s.reports|
            && (forall j, k :: 0 <= j < k < |s.reports| ==> s.reports[j].id != s.reports[k].id)
            && (forall j, k :: 0 <= j < |s.pollIds| && 0 <= k < |s.reports| ==> s.pollIds[j] != s.reports[k].id)
            && (forall j :: 0 <= j < |s.reports| ==> ReportOk(s.asked, s.reports[j]))
            && forall j :: 0 <= j < |s.reports| ==>
                 s.reports[j].code == 1 && s.asked[s.reports[j].id].1 < 0x20000 ==>
                   var (buf, len) := s.asked[s.reports[j].id];
                   s.reports[j].up == InterruptCompleted(buf, len - s.reports[j].residual)
  {
    RunKeepsInv(ss, steps, i);
    forall j | 0 <= j < |ss[i].reports| ensures ReportOk(ss[i].asked, ss[i].reports[j]) {
    }
  }

  /** Entries in use: one for each request outstanding, and one for each that failed, for good. */
  lemma FailuresAccumulate(ss: seq<Sys>, steps: seq<Step>, i: nat)
    requires Run(ss, steps) && i < |ss|
    ensures Used(ss[i].d.setupMap) == |ss[i].issued| - |ss[i].answers| + Failures(ss[i].answers)
  {
    RunKeepsInv(ss, steps, i);
  }
}
